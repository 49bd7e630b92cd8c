// Light sources. A `Light` is directional when its `w` is 0 (then `p` holds its
// direction, normalised) and positional otherwise; a `Spotlight` is positional,
// has a cone direction and half-angle, and is tagged with `w == -1`.
module Lights {
  import opened Numerics
  import opened Geometry

  /** One object for both subclasses: `isSpot` is the dynamic type, `dir` and
      `theta` exist only for a spotlight. */
  class LightSource {
    const isSpot: bool
    const p: Vec3
    const w: real
    const c: Color
    const dir: Vec3
    const theta: real

    /** `Light(x, y, z, w, c)`: a direction (w == 0) is normalised in place
        before it is stored; a position is stored as given. */
    constructor Light(x: real, y: real, z: real, w: real, c: Color, sqrt: real -> real)
      ensures !isSpot
      ensures w == 0.0 ==> p == Normalized(Vec3(x, y, z), sqrt)
      ensures w != 0.0 ==> p == Vec3(x, y, z)
      ensures this.w == w && this.c == c
    {
      var x, y, z := x, y, z;
      if w == 0.0 {
        var v := new Vector(x, y, z);
        v := v.Normalize(sqrt);
        x, y, z := v.x, v.y, v.z;
      }
      isSpot := false;
      p := Vec3(x, y, z);
      this.w := w;
      this.c := c;
    }

    /** `Spotlight(...)`: the cone direction is normalised, the angle is kept in
        degrees, and `w` is set to the spotlight tag -1. */
    constructor Spotlight(x: real, y: real, z: real, dx: real, dy: real, dz: real, theta: real,
                          c: Color, sqrt: real -> real)
      ensures isSpot
      ensures p == Vec3(x, y, z)
      ensures dir == Normalized(Vec3(dx, dy, dz), sqrt)
      ensures this.theta == theta && this.c == c
      ensures w == SpotTag
    {
      isSpot := true;
      p := Vec3(x, y, z);
      var d := new Vector(dx, dy, dz);
      d := d.Normalize(sqrt);
      dir := d.Value();
      this.theta := theta;
      this.c := c;
      w := SpotTag;
    }

    /** Whether the light is a point source or spotlight rather than a direction:
        the test `source->w != 0.0` of the shading code. */
    predicate Positional()
    {
      w != 0.0
    }
  }

  const SpotTag: real := -1.0

  /** The spotlight test of the shading code as written: the tag alone. */
  predicate TaggedAsSpot(l: LightSource)
  {
    l.w == SpotTag
  }

  /** The spotlight test the shading code means: the light is a spotlight. */
  predicate IsSpotlight(l: LightSource)
  {
    l.isSpot
  }

  /** A directional light of non-zero direction stores a unit vector; a spotlight's
      cone direction is a unit vector. */
  lemma {:induction false} StoredDirectionsAreUnit(l: LightSource, x: real, y: real, z: real,
                                                   sqrt: real -> real)
    requires IsSqrt(sqrt) && Norm(Vec3(x, y, z), sqrt) != 0.0
    requires (!l.isSpot && l.w == 0.0 && l.p == Normalized(Vec3(x, y, z), sqrt))
             || (l.isSpot && l.dir == Normalized(Vec3(x, y, z), sqrt))
    ensures !l.isSpot ==> Dot(l.p, l.p) == 1.0
    ensures l.isSpot ==> Dot(l.dir, l.dir) == 1.0
  {
    NormalizedIsUnit(Vec3(x, y, z), sqrt);
  }

  /** The test the shading code means tells the two constructors apart whatever
      `w` a `light` line gives, while the tag test confuses them at w == -1. */
  method SpotlightTestIsExact(x: real, y: real, z: real, w: real, c: Color, sqrt: real -> real)
    returns (light: LightSource, spot: LightSource)
    ensures !IsSpotlight(light) && IsSpotlight(spot)
    ensures TaggedAsSpot(spot)
    ensures TaggedAsSpot(light) <==> w == SpotTag
  {
    light := new LightSource.Light(x, y, z, w, c, sqrt);
    spot := new LightSource.Spotlight(x, y, z, 0.0, 0.0, 1.0, 45.0, c, sqrt);
  }

  /** A `Light` built with w == -1 passes the tag test without being a spotlight. */
  method TagMistakesLight(sqrt: real -> real) returns (l: LightSource)
    ensures TaggedAsSpot(l) && !IsSpotlight(l)
  {
    l := new LightSource.Light(0.0, 0.0, 0.0, -1.0, White, sqrt);
  }
}
