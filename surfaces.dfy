// Ray/surface intersection: the quadratic solver shared by spheres and
// ellipsoids, their coefficient construction, and the triangle with its cached
// barycentric weights.
module Surfaces {
  import opened Numerics
  import opened Geometry
  import opened Rays

  // ---------------------------------------------------------------- the quadratic solver

  /** What a `hit` call reports: its return value `t` and what it leaves in
      `out_t_max`. `None` stands for NaN as a return value and for "left
      untouched" as `out_t_max`. */
  datatype HitReport = HitReport(t: Option<real>, tMax: Option<real>)

  const Miss := HitReport(None, None)

  /** A value a caller accepts: present and strictly positive. */
  predicate Positive(t: Option<real>) { t.Some? && t.value > 0.0 }

  function Discriminant(a: real, b: real, c: real): real { b * b - 4.0 * a * c }

  /** The coefficients of a t^2 + b t + c. */
  datatype Coeffs = Coeffs(a: real, b: real, c: real)

  predicate IsRoot(k: Coeffs, t: real) { k.a * t * t + k.b * t + k.c == 0.0 }

  /** `solve_quadratic` of the last version: the smaller root is returned, the
      larger one stored in `out_t_max`. A negative discriminant gives NaN and
      leaves `out_t_max` alone. With `a == 0` the source divides by zero and
      every caller sees a value that is not positive; the model reports a miss. */
  function SolveQuadratic(a: real, b: real, c: real, sqrt: real -> real): (h: HitReport)
    ensures Discriminant(a, b, c) < 0.0 ==> h == Miss
    ensures a != 0.0 && 0.0 <= Discriminant(a, b, c) ==>
              h.t.Some? && h.tMax.Some? && h.t.value <= h.tMax.value
    ensures a == 0.0 ==> h == Miss
  {
    var disc := Discriminant(a, b, c);
    if disc < 0.0 || a == 0.0 then Miss
    else
      var t1 := (-b + sqrt(disc)) / (2.0 * a);
      var t2 := (-b - sqrt(disc)) / (2.0 * a);
      HitReport(Some(if t1 < t2 then t1 else t2), Some(if t1 > t2 then t1 else t2))
  }

  /** `solve_quadratic` of the second version: only the smaller root, or NaN. */
  function SolveQuadraticMin(a: real, b: real, c: real, sqrt: real -> real): (t: Option<real>)
    ensures t == SolveQuadratic(a, b, c, sqrt).t
  {
    var disc := Discriminant(a, b, c);
    if disc < 0.0 || a == 0.0 then None
    else
      var t1 := (-b + sqrt(disc)) / (2.0 * a);
      var t2 := (-b - sqrt(disc)) / (2.0 * a);
      Some(if t1 < t2 then t1 else t2)
  }

  lemma SquareOfNegation(s: real)
    ensures (-s) * (-s) == s * s
  {
  }

  /** (-b +- s) / 2a solves a t^2 + b t + c = 0 when s^2 is the discriminant. */
  lemma {:induction false} QuadraticRoot(a: real, b: real, c: real, s: real, t: real)
    requires a != 0.0
    requires s * s == b * b - 4.0 * a * c
    requires t * (2.0 * a) == -b + s || t * (2.0 * a) == -b - s
    ensures a * t * t + b * t + c == 0.0
  {
    var u := t * (2.0 * a);
    if u + b == s {
    } else {
      assert u + b == -s;
      SquareOfNegation(s);
    }
    assert (u + b) * (u + b) == s * s;
    assert u * u + 2.0 * b * u + 4.0 * a * c == 0.0;
    assert u * u + 2.0 * b * u + 4.0 * a * c == (4.0 * a) * (a * t * t + b * t + c);
    ProductZero(4.0 * a, a * t * t + b * t + c);
  }

  /** With an exact square root, both values `solve_quadratic` reports are roots. */
  lemma {:induction false} SolveQuadraticRoots(a: real, b: real, c: real, sqrt: real -> real)
    requires IsSqrt(sqrt)
    ensures SolveQuadratic(a, b, c, sqrt).t.Some? ==>
              IsRoot(Coeffs(a, b, c), SolveQuadratic(a, b, c, sqrt).t.value)
    ensures SolveQuadratic(a, b, c, sqrt).tMax.Some? ==>
              IsRoot(Coeffs(a, b, c), SolveQuadratic(a, b, c, sqrt).tMax.value)
  {
    var disc := Discriminant(a, b, c);
    if 0.0 <= disc && a != 0.0 {
      SqrtSquared(sqrt, disc);
      var s := sqrt(disc);
      var t1 := (-b + s) / (2.0 * a);
      var t2 := (-b - s) / (2.0 * a);
      DivTimes(-b + s, 2.0 * a);
      DivTimes(-b - s, 2.0 * a);
      QuadraticRoot(a, b, c, s, t1);
      QuadraticRoot(a, b, c, s, t2);
    }
  }

  // ---------------------------------------------------------------- spheres and ellipsoids


  /** The surface kinds of the renderer. `Base` is the plain `Surface`, whose
      `hit` is a stub. Triangles carry their geometry and their barycentric cache
      in a `Triangle` object. */
  datatype Surface =
    | Sphere(center: Vec3, r: real, mtl: MtlColor, tIdx: int)
    | Ellipsoid(center: Vec3, a: real, b: real, c: real, mtl: MtlColor, tIdx: int)
    | Tri(tri: Triangle)
    | Base(mtl: MtlColor, tIdx: int)

  /** Radii and semi-axes are positive: the scene parser rejects anything else.
      A triangle carries a texture index only when it has texture coordinates,
      as its constructor arranges. */
  predicate ValidShape(s: Surface)
  {
    match s
    case Sphere(_, r, _, _) => 0.0 < r
    case Ellipsoid(_, a, b, c, _, _) => 0.0 < a && 0.0 < b && 0.0 < c
    case Tri(tri) => tri.tIdx == -1 || tri.hasTexture
    case Base(_, _) => true
  }

  function MaterialOf(s: Surface): MtlColor
  {
    if s.Tri? then s.tri.mtl else s.mtl
  }

  function TextureOf(s: Surface): int
  {
    if s.Tri? then s.tri.tIdx else s.tIdx
  }

  /** `Sphere::hit`: A = 1, B = 2 dir.(org - center), C = |org - center|^2 - r^2. */
  function SphereCoeffs(center: Vec3, r: real, ray: Ray): Coeffs
  {
    var w := Sub(ray.org, center);
    Coeffs(1.0, 2.0 * Dot(ray.dir, w), Dot(w, w) - r * r)
  }

  /** `Ellipsoid::hit`: every square is divided by the square of its semi-axis.
      The result is the sphere's construction for the unit sphere, in the space
      where each coordinate is divided by its semi-axis. */
  function EllipsoidCoeffs(center: Vec3, a: real, b: real, c: real, ray: Ray): (k: Coeffs)
    requires 0.0 < a && 0.0 < b && 0.0 < c
    ensures var w := AxisScaled(Sub(ray.org, center), a, b, c);
            var d := AxisScaled(ray.dir, a, b, c);
            k.a == Dot(d, d) && k.b == 2.0 * Dot(d, w) && k.c == Dot(w, w) - 1.0
  {
    var d, w := ray.dir, Sub(ray.org, center);
    ScaledDot(d, d, a, b, c);
    ScaledDot(d, w, a, b, c);
    ScaledDot(w, w, a, b, c);
    Coeffs((d.x * d.x) / (a * a) + (d.y * d.y) / (b * b) + (d.z * d.z) / (c * c),
           2.0 * ((w.x * d.x) / (a * a) + (w.y * d.y) / (b * b) + (w.z * d.z) / (c * c)),
           (w.x * w.x) / (a * a) + (w.y * w.y) / (b * b) + (w.z * w.z) / (c * c) - 1.0)
  }

  /** The equation of the ellipsoid: 1 exactly on its surface. */
  function EllipsoidLevel(center: Vec3, a: real, b: real, c: real, p: Vec3): real
    requires 0.0 < a && 0.0 < b && 0.0 < c
  {
    var q := AxisScaled(Sub(p, center), a, b, c);
    Dot(q, q)
  }

  function AxisScaled(v: Vec3, a: real, b: real, c: real): Vec3
    requires 0.0 < a && 0.0 < b && 0.0 < c
  {
    Vec3(v.x / a, v.y / b, v.z / c)
  }

  /** |w + t d|^2 expanded. */
  lemma {:induction false} DotAlongRay(w: Vec3, d: Vec3, t: real)
    ensures Dot(Add(w, Scale(t, d)), Add(w, Scale(t, d)))
         == Dot(w, w) + 2.0 * t * Dot(d, w) + (t * t) * Dot(d, d)
  {
    AlongSquare(w.x, d.x, t);
    AlongSquare(w.y, d.y, t);
    AlongSquare(w.z, d.z, t);
  }

  lemma AlongSquare(w: real, d: real, t: real)
    ensures (w + t * d) * (w + t * d) == w * w + 2.0 * t * (d * w) + (t * t) * (d * d)
  {
  }

  /** A root of the sphere's equation, for a unit direction, lies on the sphere. */
  lemma {:induction false} SphereRootOnSurface(center: Vec3, r: real, ray: Ray, t: real)
    requires Dot(ray.dir, ray.dir) == 1.0
    requires IsRoot(SphereCoeffs(center, r, ray), t)
    ensures var q := Sub(At(ray, t), center); Dot(q, q) == r * r
  {
    var w := Sub(ray.org, center);
    assert Sub(At(ray, t), center) == Add(w, Scale(t, ray.dir));
    DotAlongRay(w, ray.dir, t);
  }

  /** The dot product of two axis-scaled vectors, term by term over the squared axes. */
  lemma {:induction false} ScaledDot(v: Vec3, w: Vec3, a: real, b: real, c: real)
    requires 0.0 < a && 0.0 < b && 0.0 < c
    ensures Dot(AxisScaled(v, a, b, c), AxisScaled(w, a, b, c))
         == (w.x * v.x) / (a * a) + (w.y * v.y) / (b * b) + (w.z * v.z) / (c * c)
  {
    ScaledTerms(v.x, w.x, a, v.y, w.y, b, v.z, w.z, c);
  }

  lemma {:induction false} ScaledTerms(x1: real, y1: real, a: real, x2: real, y2: real, b: real,
                                       x3: real, y3: real, c: real)
    requires 0.0 < a && 0.0 < b && 0.0 < c
    ensures (x1 / a) * (y1 / a) + (x2 / b) * (y2 / b) + (x3 / c) * (y3 / c)
         == (y1 * x1) / (a * a) + (y2 * x2) / (b * b) + (y3 * x3) / (c * c)
  {
    QuotientProduct(x1, y1, a, a);
    QuotientProduct(x2, y2, b, b);
    QuotientProduct(x3, y3, c, c);
    assert x1 * y1 == y1 * x1 && x2 * y2 == y2 * x2 && x3 * y3 == y3 * x3;
  }

  /** Axis scaling maps the ray's points to the points of the scaled ray. */
  lemma {:induction false} AxisScaledAlong(center: Vec3, a: real, b: real, c: real, ray: Ray, t: real)
    requires 0.0 < a && 0.0 < b && 0.0 < c
    ensures AxisScaled(Sub(At(ray, t), center), a, b, c)
         == Add(AxisScaled(Sub(ray.org, center), a, b, c), Scale(t, AxisScaled(ray.dir, a, b, c)))
  {
    var w := Sub(ray.org, center);
    assert Sub(At(ray, t), center) == Add(w, Scale(t, ray.dir));
    DivAlong(w.x, t, ray.dir.x, a);
    DivAlong(w.y, t, ray.dir.y, b);
    DivAlong(w.z, t, ray.dir.z, c);
  }

  lemma {:induction false} UnitSphereRoot(w: Vec3, d: Vec3, t: real, k: Coeffs)
    requires k.a == Dot(d, d) && k.b == 2.0 * Dot(d, w) && k.c == Dot(w, w) - 1.0
    requires IsRoot(k, t)
    ensures Dot(Add(w, Scale(t, d)), Add(w, Scale(t, d))) == 1.0
  {
    DotAlongRay(w, d, t);
  }

  /** A root of the ellipsoid's equation lies on the ellipsoid. */
  lemma {:induction false} EllipsoidRootOnSurface(center: Vec3, a: real, b: real, c: real,
                                                   ray: Ray, t: real)
    requires 0.0 < a && 0.0 < b && 0.0 < c
    requires IsRoot(EllipsoidCoeffs(center, a, b, c, ray), t)
    ensures EllipsoidLevel(center, a, b, c, At(ray, t)) == 1.0
  {
    var k := EllipsoidCoeffs(center, a, b, c, ray);
    var w, d := AxisScaled(Sub(ray.org, center), a, b, c), AxisScaled(ray.dir, a, b, c);
    AxisScaledAlong(center, a, b, c, ray, t);
    UnitSphereRoot(w, d, t, k);
  }

  // ---------------------------------------------------------------- texture coordinates of quadrics

  /** `Sphere::get_u`: the azimuth of p around the centre, moved into [0, 2 pi) and scaled to [0, 1). */
  function SphereU(center: Vec3, p: Vec3, m: Math): (u: real)
    ensures -MPi <= m.atan2(p.y - center.y, p.x - center.x) < MPi ==> 0.0 <= u < 1.0
  {
    var theta := m.atan2(p.y - center.y, p.x - center.x);
    var theta' := if theta < 0.0 then theta + 2.0 * MPi else theta;
    theta' / (2.0 * MPi)
  }

  /** `Sphere::get_v`: the polar angle of p over pi, with the cosine capped at 1. */
  function SphereV(center: Vec3, r: real, p: Vec3, m: Math): (v: real)
    requires 0.0 < r
    ensures (0.0 <= m.acos(if (p.z - center.z) / r > 1.0 then 1.0 else (p.z - center.z) / r) <= MPi)
              ==> 0.0 <= v <= 1.0
  {
    var ratio := (p.z - center.z) / r;
    m.acos(if ratio > 1.0 then 1.0 else ratio) / MPi
  }

  /** `Ellipsoid::get_u`. Its test `theta < 2 pi` holds for every value atan2 returns,
      so 2 pi is always added and u never falls below one half. */
  function EllipsoidU(center: Vec3, a: real, b: real, p: Vec3, m: Math): (u: real)
    ensures -MPi <= m.atan2(a * (p.y - center.y), b * (p.x - center.x)) <= MPi ==> 0.5 <= u <= 1.5
  {
    var theta := m.atan2(a * (p.y - center.y), b * (p.x - center.x));
    var theta' := if theta < 2.0 * MPi then theta + 2.0 * MPi else theta;
    theta' / (2.0 * MPi)
  }

  /** `Ellipsoid::get_v`: the polar angle over pi, without the cap of the sphere. */
  function EllipsoidV(center: Vec3, c: real, p: Vec3, m: Math): (v: real)
    requires 0.0 < c
    ensures 0.0 <= m.acos((p.z - center.z) / c) <= MPi ==> 0.0 <= v <= 1.0
  {
    m.acos((p.z - center.z) / c) / MPi
  }

  // ---------------------------------------------------------------- triangles

  /** The shared pools the `f` lines index into (`vertex_array`, `u_array`,
      `v_array`, `n_array`). */
  datatype Pools = Pools(vertices: seq<Vec3>, us: seq<real>, vs: seq<real>, normals: seq<Vec3>)

  /** Three 1-based indices of one kind from an `f` line; 0 stands for "absent". */
  datatype Corners = Corners(i0: int, i1: int, i2: int)

  predicate CornersIn(k: Corners, n: int)
  {
    1 <= k.i0 <= n && 1 <= k.i1 <= n && 1 <= k.i2 <= n
  }

  /** Every pool element the triangle constructor reads exists. The constructor
      itself checks nothing: it reads the vertices always, the texture coordinates
      when the first texture index is non-zero, and the normals when the first normal
      index is non-zero. */
  predicate FaceFits(pools: Pools, c: Corners, n: Corners, v: Corners)
  {
    CornersIn(v, |pools.vertices|)
    && (c.i0 != 0 ==> CornersIn(c, |pools.us|) && CornersIn(c, |pools.vs|))
    && (n.i0 != 0 ==> CornersIn(n, |pools.normals|))
  }

  /** Barycentric weights: alpha goes with p0, beta with p1, gamma with p2. */
  datatype Barycentric = Barycentric(alpha: real, beta: real, gamma: real)

  const TriEps: real := 0.0001

  /** The acceptance test of `Triangle::hit`: every weight in [0, 1] and their sum
      exceeding 1 by at most 1e-4. */
  predicate InTriangle(w: Barycentric)
  {
    InUnit(w.alpha) && InUnit(w.beta) && InUnit(w.gamma) && w.alpha + w.beta + w.gamma - 1.0 <= TriEps
  }

  /** Half the length of a cross product: the area of the triangle two edges span. */
  function Area(e: Vec3, f: Vec3, sqrt: real -> real): real
  {
    0.5 * Norm(Cross(e, f), sqrt)
  }

  /** The weights of p with respect to (p0, p1, p2): the area of the sub-triangle
      facing each vertex over the whole area; none for a degenerate triangle. */
  function Weights(p0: Vec3, p1: Vec3, p2: Vec3, p: Vec3, sqrt: real -> real): (w: Option<Barycentric>)
    ensures w.None? <==> Area(Sub(p1, p0), Sub(p2, p0), sqrt) == 0.0
  {
    var e1, e2, e3, e4 := Sub(p1, p0), Sub(p2, p0), Sub(p, p1), Sub(p, p2);
    var area := Area(e1, e2, sqrt);
    if area == 0.0 then None
    else Some(Barycentric(Area(e3, e4, sqrt) / area, Area(e4, e2, sqrt) / area, Area(e1, e3, sqrt) / area))
  }

  /** What one `Triangle::hit` call does: what it reports, and the weights it
      writes into the cache (`None`: the cache is left as it was). */
  datatype TriProbe = TriProbe(hit: HitReport, cache: Option<Barycentric>)

  function Interpolate(w: Barycentric, a: real, b: real, c: real): real
  {
    w.alpha * a + w.beta * b + w.gamma * c
  }

  function InterpolateVec(w: Barycentric, a: Vec3, b: Vec3, c: Vec3): Vec3
  {
    Add(Add(Scale(w.alpha, a), Scale(w.beta, b)), Scale(w.gamma, c))
  }

  /** A triangle of a mesh. Its geometry is fixed at construction; `hit` rewrites
      the barycentric weights `alpha`, `beta`, `gamma`, which `get_normal`, `get_u`
      and `get_v` read afterwards. */
  class Triangle {
    const p0: Vec3
    const p1: Vec3
    const p2: Vec3
    const hasTexture: bool
    const u0: real
    const u1: real
    const u2: real
    const v0: real
    const v1: real
    const v2: real
    const hasNormal: bool
    const n0: Vec3
    const n1: Vec3
    const n2: Vec3
    /** The plane A x + B y + C z + D = 0 through the three vertices. */
    const A: real
    const B: real
    const C: real
    const D: real
    const mtl: MtlColor
    const tIdx: int
    var alpha: real
    var beta: real
    var gamma: real

    /** The constructor takes 1-based indices into the pools. The weights are left
        unset until the first `hit`. */
    constructor (pools: Pools, c: Corners, n: Corners, v: Corners, color: MtlColor, tidx: int,
                 sqrt: real -> real)
      requires FaceFits(pools, c, n, v)
      ensures p0 == pools.vertices[v.i0 - 1] && p1 == pools.vertices[v.i1 - 1]
      ensures p2 == pools.vertices[v.i2 - 1]
      ensures hasTexture <==> c.i0 != 0
      ensures hasTexture ==> u0 == pools.us[c.i0 - 1] && u1 == pools.us[c.i1 - 1] && u2 == pools.us[c.i2 - 1]
      ensures hasTexture ==> v0 == pools.vs[c.i0 - 1] && v1 == pools.vs[c.i1 - 1] && v2 == pools.vs[c.i2 - 1]
      ensures tIdx == (if hasTexture then tidx else -1)
      ensures hasNormal <==> n.i0 != 0
      ensures hasNormal ==> n0 == pools.normals[n.i0 - 1] && n1 == pools.normals[n.i1 - 1]
      ensures hasNormal ==> n2 == pools.normals[n.i2 - 1]
      ensures mtl == color
      ensures PlaneFits(sqrt)
    {
      p0 := pools.vertices[v.i0 - 1];
      p1 := pools.vertices[v.i1 - 1];
      p2 := pools.vertices[v.i2 - 1];
      hasTexture := c.i0 != 0;
      if c.i0 != 0 {
        u0, u1, u2 := pools.us[c.i0 - 1], pools.us[c.i1 - 1], pools.us[c.i2 - 1];
        v0, v1, v2 := pools.vs[c.i0 - 1], pools.vs[c.i1 - 1], pools.vs[c.i2 - 1];
      }
      tIdx := if c.i0 != 0 then tidx else -1;
      hasNormal := n.i0 != 0;
      if n.i0 != 0 {
        n0, n1, n2 := pools.normals[n.i0 - 1], pools.normals[n.i1 - 1], pools.normals[n.i2 - 1];
      }
      mtl := color;
      var p0', p1', p2' := pools.vertices[v.i0 - 1], pools.vertices[v.i1 - 1], pools.vertices[v.i2 - 1];
      var normal := Normalized(Cross(Sub(p1', p0'), Sub(p2', p0')), sqrt);
      A, B, C := normal.x, normal.y, normal.z;
      D := -(normal.x * p0'.x + normal.y * p0'.y + normal.z * p0'.z);
    }

    function PlaneNormal(): Vec3 { Vec3(A, B, C) }

    /** The plane coefficients are the normalised cross product of the two edges
        leaving p0, and D places the plane through p0. */
    ghost predicate PlaneFits(sqrt: real -> real)
    {
      PlaneNormal() == Normalized(Cross(Sub(p1, p0), Sub(p2, p0)), sqrt)
      && D == -(A * p0.x + B * p0.y + C * p0.z)
    }

    /** The cached weights. */
    function Cache(): Barycentric
      reads this
    {
      Barycentric(alpha, beta, gamma)
    }

    /** The ray parameter at which the ray meets the plane of the triangle. */
    function PlaneParameter(ray: Ray): real
      requires Dot(PlaneNormal(), ray.dir) != 0.0
    {
      -(Dot(PlaneNormal(), ray.org) + D) / Dot(PlaneNormal(), ray.dir)
    }

    /** `Triangle::hit` as a value. A ray lying in the plane gives the parameter
        NaN: it reports -1 and touches neither `out_t_max` nor the cache. A ray
        parallel to the plane but off it gives an infinite parameter, which is
        never accepted: it reports -1 and stores -1. Otherwise the weights of the
        point where the ray meets the plane are cached whether or not they are
        accepted, and the call reports that point's parameter when they are, -1
        when they are not, storing the same value in `out_t_max`. */
    function Probe(ray: Ray, sqrt: real -> real): (r: TriProbe)
      ensures r.hit.t.Some?
      ensures r.hit.tMax.None? <==> Dot(PlaneNormal(), ray.dir) == 0.0 && Dot(PlaneNormal(), ray.org) + D == 0.0
      ensures Dot(PlaneNormal(), ray.dir) == 0.0 ==> r.hit.t == Some(-1.0) && r.cache.None?
      ensures r.hit.tMax.Some? ==> r.hit.tMax == r.hit.t
      ensures r.hit.t != Some(-1.0) ==> r.cache.Some? && InTriangle(r.cache.value)
      ensures r.cache.Some? ==>
                Dot(PlaneNormal(), ray.dir) != 0.0
                && r.cache == Weights(p0, p1, p2, At(ray, PlaneParameter(ray)), sqrt)
                && r.hit.t == Some(if InTriangle(r.cache.value) then PlaneParameter(ray) else -1.0)
      ensures (Dot(PlaneNormal(), ray.dir) != 0.0 && Area(Sub(p1, p0), Sub(p2, p0), sqrt) != 0.0)
                ==> r.cache.Some?
    {
      var den := Dot(PlaneNormal(), ray.dir);
      if den == 0.0 then
        if Dot(PlaneNormal(), ray.org) + D == 0.0 then TriProbe(HitReport(Some(-1.0), None), None)
        else TriProbe(HitReport(Some(-1.0), Some(-1.0)), None)
      else
        var t := -(Dot(PlaneNormal(), ray.org) + D) / den;
        match Weights(p0, p1, p2, At(ray, t), sqrt)
        case None => TriProbe(HitReport(Some(-1.0), Some(-1.0)), None)
        case Some(w) =>
          var out := if InTriangle(w) then t else -1.0;
          TriProbe(HitReport(Some(out), Some(out)), Some(w))
    }

    /** `Triangle::hit`: reports what `Probe` describes and rewrites the cache. */
    method Hit(ray: Ray, sqrt: real -> real) returns (h: HitReport)
      modifies this
      ensures h == Probe(ray, sqrt).hit
      ensures Cache() == (match Probe(ray, sqrt).cache
                          case Some(w) => w
                          case None => old(Cache()))
    {
      var den := Dot(PlaneNormal(), ray.dir);
      if den == 0.0 {
        if Dot(PlaneNormal(), ray.org) + D == 0.0 {
          return HitReport(Some(-1.0), None);
        }
        return HitReport(Some(-1.0), Some(-1.0));
      }
      var t := -(Dot(PlaneNormal(), ray.org) + D) / den;
      var p := At(ray, t);
      var e1, e2, e3, e4 := Sub(p1, p0), Sub(p2, p0), Sub(p, p1), Sub(p, p2);
      var area := Area(e1, e2, sqrt);
      if area == 0.0 {
        return HitReport(Some(-1.0), Some(-1.0));
      }
      alpha, beta, gamma := Area(e3, e4, sqrt) / area, Area(e4, e2, sqrt) / area, Area(e1, e3, sqrt) / area;
      var out := if InTriangle(Cache()) then t else -1.0;
      h := HitReport(Some(out), Some(out));
    }

    /** `get_normal`: the vertex normals blended by the cached weights and
        normalised, or the plane normal when the mesh gave no normals. */
    function Normal(sqrt: real -> real): (n: Vec3)
      reads this
      ensures !hasNormal ==> n == PlaneNormal()
      ensures hasNormal ==> n == Normalized(InterpolateVec(Cache(), n0, n1, n2), sqrt)
    {
      if hasNormal then Normalized(InterpolateVec(Cache(), n0, n1, n2), sqrt) else PlaneNormal()
    }

    /** `get_u`: the texture coordinate blended by the cached weights. The source
        ends the program for an untextured triangle; the model returns `None`. */
    function U(): (u: Option<real>)
      reads this
      ensures u.Some? <==> hasTexture
      ensures u.Some? ==> u.value == Interpolate(Cache(), u0, u1, u2)
    {
      if hasTexture then Some(Interpolate(Cache(), u0, u1, u2)) else None
    }

    /** `get_v`, like `get_u` on the second coordinate. */
    function V(): (v: Option<real>)
      reads this
      ensures v.Some? <==> hasTexture
      ensures v.Some? ==> v.value == Interpolate(Cache(), v0, v1, v2)
    {
      if hasTexture then Some(Interpolate(Cache(), v0, v1, v2)) else None
    }
  }

  // ---------------------------------------------------------------- triangle properties

  /** The plane the constructor computes passes through all three vertices. */
  lemma {:induction false} PlaneThroughVertices(tri: Triangle, sqrt: real -> real)
    requires tri.PlaneFits(sqrt)
    ensures Dot(tri.PlaneNormal(), tri.p0) + tri.D == 0.0
    ensures Dot(tri.PlaneNormal(), tri.p1) + tri.D == 0.0
    ensures Dot(tri.PlaneNormal(), tri.p2) + tri.D == 0.0
  {
    var e1, e2 := Sub(tri.p1, tri.p0), Sub(tri.p2, tri.p0);
    var x := Cross(e1, e2);
    CrossOrthogonal(e1, e2);
    NormalOrthogonal(x, e1, sqrt);
    NormalOrthogonal(x, e2, sqrt);
    var n := tri.PlaneNormal();
    DotLinearLeft(tri.p1, tri.p0, n, 0.0);
    DotLinearLeft(tri.p2, tri.p0, n, 0.0);
    DotSymmetric(n, e1);
    DotSymmetric(n, e2);
    DotSymmetric(n, tri.p0);
    DotSymmetric(n, tri.p1);
    DotSymmetric(n, tri.p2);
  }

  /** An accepted triangle hit lies on the triangle's plane. */
  lemma {:induction false} TriangleHitOnPlane(tri: Triangle, ray: Ray, sqrt: real -> real)
    requires tri.Probe(ray, sqrt).hit.t != Some(-1.0)
    ensures Dot(tri.PlaneNormal(), At(ray, tri.Probe(ray, sqrt).hit.t.value)) + tri.D == 0.0
  {
    var n := tri.PlaneNormal();
    var den := Dot(n, ray.dir);
    var t := tri.PlaneParameter(ray);
    assert tri.Probe(ray, sqrt).hit.t == Some(t);
    DivTimes(-(Dot(n, ray.org) + tri.D), den);
    DotLinearLeft(ray.org, Scale(t, ray.dir), n, 0.0);
    DotLinearLeft(ray.dir, ray.dir, n, t);
    DotSymmetric(n, ray.org);
    DotSymmetric(n, ray.dir);
    DotSymmetric(n, At(ray, t));
  }

  /** After a hit that accepted its point, the interpolated texture coordinates of
      a triangle whose vertex coordinates lie in [0, 1] lie in [0, 1 + 1e-4]. */
  lemma {:induction false} TexCoordInRange(w: Barycentric, a: real, b: real, c: real)
    requires InTriangle(w)
    requires InUnit(a) && InUnit(b) && InUnit(c)
    ensures 0.0 <= Interpolate(w, a, b, c) <= 1.0 + TriEps
  {
    MulNonNegative(w.alpha, a);
    MulNonNegative(w.beta, b);
    MulNonNegative(w.gamma, c);
    MulNonNegative(w.alpha, 1.0 - a);
    MulNonNegative(w.beta, 1.0 - b);
    MulNonNegative(w.gamma, 1.0 - c);
  }

  /** A hit that returns something other than -1 leaves weights in the cache that
      pass the acceptance test, so `get_u` and `get_v` stay within range. */
  lemma {:induction false} AcceptedHitCachesInTriangle(tri: Triangle, ray: Ray, sqrt: real -> real)
    requires tri.Probe(ray, sqrt).hit.t != Some(-1.0)
    ensures tri.Probe(ray, sqrt).cache.Some? && InTriangle(tri.Probe(ray, sqrt).cache.value)
    ensures tri.hasTexture && InUnit(tri.u0) && InUnit(tri.u1) && InUnit(tri.u2) ==>
              0.0 <= Interpolate(tri.Probe(ray, sqrt).cache.value, tri.u0, tri.u1, tri.u2) <= 1.0 + TriEps
  {
    var w := tri.Probe(ray, sqrt).cache.value;
    if tri.hasTexture && InUnit(tri.u0) && InUnit(tri.u1) && InUnit(tri.u2) {
      TexCoordInRange(w, tri.u0, tri.u1, tri.u2);
    }
  }

  /** Without vertex normals the triangle's normal is the unit plane normal. */
  lemma {:induction false} FlatNormalIsUnit(tri: Triangle, sqrt: real -> real)
    requires IsSqrt(sqrt) && tri.PlaneFits(sqrt) && !tri.hasNormal
    requires Norm(Cross(Sub(tri.p1, tri.p0), Sub(tri.p2, tri.p0)), sqrt) != 0.0
    ensures Dot(tri.Normal(sqrt), tri.Normal(sqrt)) == 1.0
  {
    NormalizedIsUnit(Cross(Sub(tri.p1, tri.p0), Sub(tri.p2, tri.p0)), sqrt);
  }

  // ---------------------------------------------------------------- dispatch over surface kinds

  /** `surface->hit(ray, out_t_max)` of the last version. The plain `Surface::hit`
      returns -1 and stores -1. */
  function HitOf(s: Surface, ray: Ray, sqrt: real -> real): (h: HitReport)
    requires ValidShape(s)
    ensures s.Base? ==> h == HitReport(Some(-1.0), Some(-1.0))
    ensures Positive(h.t) ==> h.tMax.Some?
    ensures s.Tri? ==> h == s.tri.Probe(ray, sqrt).hit
    ensures s.Sphere? ==>
              h == SolveQuadratic(1.0, SphereCoeffs(s.center, s.r, ray).b, SphereCoeffs(s.center, s.r, ray).c, sqrt)
    ensures s.Ellipsoid? ==>
              var k := EllipsoidCoeffs(s.center, s.a, s.b, s.c, ray);
              h == SolveQuadratic(k.a, k.b, k.c, sqrt)
  {
    match s
    case Sphere(center, r, _, _) =>
      var k := SphereCoeffs(center, r, ray);
      SolveQuadratic(k.a, k.b, k.c, sqrt)
    case Ellipsoid(center, a, b, c, _, _) =>
      var k := EllipsoidCoeffs(center, a, b, c, ray);
      SolveQuadratic(k.a, k.b, k.c, sqrt)
    case Tri(tri) => tri.Probe(ray, sqrt).hit
    case Base(_, _) => HitReport(Some(-1.0), Some(-1.0))
  }

  /** `surface->hit(ray)` of the second version, which has no triangles and
      reports only the smaller root: the value the last version returns. */
  function HitOfMin(s: Surface, ray: Ray, sqrt: real -> real): (t: Option<real>)
    requires ValidShape(s) && !s.Tri?
    ensures t == HitOf(s, ray, sqrt).t
  {
    match s
    case Sphere(center, r, _, _) =>
      var k := SphereCoeffs(center, r, ray);
      SolveQuadraticMin(k.a, k.b, k.c, sqrt)
    case Ellipsoid(center, a, b, c, _, _) =>
      var k := EllipsoidCoeffs(center, a, b, c, ray);
      SolveQuadraticMin(k.a, k.b, k.c, sqrt)
    case Base(_, _) => Some(-1.0)
  }

  /** Both values a sphere reports put the ray, of unit direction, on the sphere. */
  lemma {:induction false} SphereHitOnSurface(s: Surface, ray: Ray, sqrt: real -> real)
    requires IsSqrt(sqrt) && s.Sphere? && ValidShape(s)
    requires Dot(ray.dir, ray.dir) == 1.0
    ensures HitOf(s, ray, sqrt).t.Some? ==>
              var q := Sub(At(ray, HitOf(s, ray, sqrt).t.value), s.center); Dot(q, q) == s.r * s.r
    ensures HitOf(s, ray, sqrt).tMax.Some? ==>
              var q := Sub(At(ray, HitOf(s, ray, sqrt).tMax.value), s.center); Dot(q, q) == s.r * s.r
  {
    var k := SphereCoeffs(s.center, s.r, ray);
    SolveQuadraticRoots(k.a, k.b, k.c, sqrt);
    var h := HitOf(s, ray, sqrt);
    if h.t.Some? {
      SphereRootOnSurface(s.center, s.r, ray, h.t.value);
    }
    if h.tMax.Some? {
      SphereRootOnSurface(s.center, s.r, ray, h.tMax.value);
    }
  }

  /** Both values an ellipsoid reports put the ray on the ellipsoid. */
  lemma {:induction false} EllipsoidHitOnSurface(s: Surface, ray: Ray, sqrt: real -> real)
    requires IsSqrt(sqrt) && s.Ellipsoid? && ValidShape(s)
    ensures HitOf(s, ray, sqrt).t.Some? ==>
              EllipsoidLevel(s.center, s.a, s.b, s.c, At(ray, HitOf(s, ray, sqrt).t.value)) == 1.0
    ensures HitOf(s, ray, sqrt).tMax.Some? ==>
              EllipsoidLevel(s.center, s.a, s.b, s.c, At(ray, HitOf(s, ray, sqrt).tMax.value)) == 1.0
  {
    var k := EllipsoidCoeffs(s.center, s.a, s.b, s.c, ray);
    SolveQuadraticRoots(k.a, k.b, k.c, sqrt);
    var h := HitOf(s, ray, sqrt);
    if h.t.Some? {
      EllipsoidRootOnSurface(s.center, s.a, s.b, s.c, ray, h.t.value);
    }
    if h.tMax.Some? {
      EllipsoidRootOnSurface(s.center, s.a, s.b, s.c, ray, h.tMax.value);
    }
  }

  /** The objects a call on s may change: a triangle's cache. */
  function Footprint(s: Surface): set<object>
  {
    if s.Tri? then {s.tri} else {}
  }

  /** `surface->hit(ray, out_t_max)`, the virtual call. */
  method SurfaceHit(s: Surface, ray: Ray, sqrt: real -> real) returns (h: HitReport)
    requires ValidShape(s)
    modifies Footprint(s)
    ensures h == HitOf(s, ray, sqrt)
    ensures s.Tri? ==> s.tri.Cache() == (match s.tri.Probe(ray, sqrt).cache
                                         case Some(w) => w
                                         case None => old(s.tri.Cache()))
  {
    if s.Tri? {
      h := s.tri.Hit(ray, sqrt);
    } else {
      h := HitOf(s, ray, sqrt);
    }
  }

  /** `surface->get_normal(p)`. Spheres and ellipsoids normalise p - center; the
      plain `Surface` returns p itself. */
  function NormalAt(s: Surface, p: Vec3, sqrt: real -> real): (n: Vec3)
    reads Footprint(s)
    ensures s.Tri? ==> n == s.tri.Normal(sqrt)
    ensures s.Sphere? || s.Ellipsoid? ==> n == Normalized(Sub(p, s.center), sqrt)
    ensures s.Base? ==> n == p
  {
    match s
    case Sphere(center, _, _, _) => Normalized(Sub(p, center), sqrt)
    case Ellipsoid(center, _, _, _, _, _) => Normalized(Sub(p, center), sqrt)
    case Tri(tri) => tri.Normal(sqrt)
    case Base(_, _) => p
  }

  /** `surface->get_u(p)` and `get_v(p)`; `None` where the source ends the program. */
  function TexCoordAt(s: Surface, p: Vec3, m: Math): (uv: Option<(real, real)>)
    requires ValidShape(s)
    reads Footprint(s)
    ensures !s.Tri? ==> uv.Some?
    ensures s.Tri? ==> (uv.Some? <==> s.tri.hasTexture)
    ensures s.Tri? && uv.Some? ==> uv.value == (s.tri.U().value, s.tri.V().value)
    ensures s.Base? ==> uv == Some((-1.0, -1.0))
  {
    match s
    case Sphere(center, r, _, _) => Some((SphereU(center, p, m), SphereV(center, r, p, m)))
    case Ellipsoid(center, a, b, c, _, _) => Some((EllipsoidU(center, a, b, p, m), EllipsoidV(center, c, p, m)))
    case Tri(tri) => if tri.hasTexture then Some((tri.U().value, tri.V().value)) else None
    case Base(_, _) => Some((-1.0, -1.0))
  }
}
