// Rays: `org + t*dir` functors. RT4 stores the origin by value; RT1 keeps a
// reference to the caller's origin vector, so the ray follows later changes to it.
module Rays {
  import opened Numerics
  import opened Geometry

  datatype Ray = Ray(org: Vec3, dir: Vec3)

  /** A camera ray tagged with the pixel (row r, column c) it belongs to. */
  datatype PixelRay = PixelRay(ray: Ray, r: int, c: int)

  /** `Ray(e, s, isDir)`: with `isDir` the second point is the direction as given,
      otherwise the direction is `(s - e).normalize()`. */
  function MakeRay(e: Vec3, s: Vec3, isDir: bool, sqrt: real -> real): (ray: Ray)
    ensures ray.org == e
    ensures isDir ==> ray.dir == s
    ensures !isDir ==> ray.dir == Normalized(Sub(s, e), sqrt)
  {
    Ray(e, if isDir then s else Normalized(Sub(s, e), sqrt))
  }

  /** `ray(t)`: the point reached after travelling t along the direction. */
  function At(ray: Ray, t: real): (p: Vec3)
    ensures Sub(p, ray.org) == Scale(t, ray.dir)
  {
    Add(ray.org, Scale(t, ray.dir))
  }

  /** A ray built from two points has unit direction and points from e toward s. */
  lemma {:induction false} MakeRayPointsToTarget(e: Vec3, s: Vec3, sqrt: real -> real)
    requires IsSqrt(sqrt)
    requires Norm(Sub(s, e), sqrt) != 0.0
    ensures Dot(MakeRay(e, s, false, sqrt).dir, MakeRay(e, s, false, sqrt).dir) == 1.0
    ensures Add(e, Scale(Norm(Sub(s, e), sqrt), MakeRay(e, s, false, sqrt).dir)) == s
  {
    NormalizedIsUnit(Sub(s, e), sqrt);
    SubThenAdd(s, e);
  }

  /** Moving the origin to `ray(o)` and then travelling t reaches `ray(o + t)`. */
  lemma {:induction false} AtShift(ray: Ray, o: real, t: real)
    ensures At(Ray(At(ray, o), ray.dir), t) == At(ray, o + t)
  {
    assert (o + t) * ray.dir.x == o * ray.dir.x + t * ray.dir.x;
    assert (o + t) * ray.dir.y == o * ray.dir.y + t * ray.dir.y;
    assert (o + t) * ray.dir.z == o * ray.dir.z + t * ray.dir.z;
  }

  lemma {:induction false} AtZero(ray: Ray)
    ensures At(ray, 0.0) == ray.org
  {
  }

  /** The RT1 ray: `org` is a reference bound to the constructor's `e`. */
  class AliasRay {
    const org: Vector
    const dir: Vec3

    /** Neither `e` nor `s` changes: `normalize` acts on the temporary `s - e`. */
    constructor (e: Vector, s: Vec3, sqrt: real -> real)
      ensures org == e
      ensures dir == Normalized(Sub(s, e.Value()), sqrt)
    {
      org := e;
      dir := Normalized(Sub(s, e.Value()), sqrt);
    }

    /** `ray(t)` reads the origin through the reference at the time of the call. */
    function Point(t: real): (p: Vec3)
      reads org
      ensures p == At(Ray(org.Value(), dir), t)
    {
      Add(org.Value(), Scale(t, dir))
    }
  }

  /** Moving the caller's eye vector moves every RT1 ray built on it. */
  method MoveAliasedOrigin(ray: AliasRay, d: Vec3) returns (before: Vec3, after: Vec3)
    modifies ray.org
    ensures before == old(ray.Point(0.0))
    ensures after == ray.Point(0.0)
    ensures after == Add(before, d)
  {
    before := ray.Point(0.0);
    ray.org.x, ray.org.y, ray.org.z := ray.org.x + d.x, ray.org.y + d.y, ray.org.z + d.z;
    after := ray.Point(0.0);
  }
}
