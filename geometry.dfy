// The vector and colour kernel: `Vec3`, `Color`, `MtlColor` and their operators.
// Points and directions are both `Vec3`; the type does not enforce unit length.
module Geometry {
  import opened Numerics

  datatype Vec3 = Vec3(x: real, y: real, z: real)

  datatype Color = Color(r: real, g: real, b: real)

  /** A material: diffuse and specular colours, Phong constants, opacity and refractive index. */
  datatype MtlColor = MtlColor(od: Color, os: Color, ka: real, kd: real, ks: real, n: real,
                               alpha: real, eta: real)

  const Zero := Vec3(0.0, 0.0, 0.0)
  const Black := Color(0.0, 0.0, 0.0)
  const White := Color(1.0, 1.0, 1.0)

  // ---------------------------------------------------------------- Vec3 operators

  function Add(a: Vec3, b: Vec3): Vec3 { Vec3(a.x + b.x, a.y + b.y, a.z + b.z) }

  function Sub(a: Vec3, b: Vec3): Vec3 { Vec3(a.x - b.x, a.y - b.y, a.z - b.z) }

  /** `c * p`: the scalar on the left. */
  function Scale(c: real, p: Vec3): Vec3 { Vec3(c * p.x, c * p.y, c * p.z) }

  /** `p * c`: the scalar on the right; the source multiplies as `c*p.x`. */
  function ScaleRight(p: Vec3, c: real): Vec3 { Vec3(c * p.x, c * p.y, c * p.z) }

  /** Component-wise product `one * two`. */
  function Mul(a: Vec3, b: Vec3): Vec3 { Vec3(a.x * b.x, a.y * b.y, a.z * b.z) }

  /** `vec / f`; the source divides by zero without a check, the model asks for f != 0. */
  function Div(v: Vec3, f: real): Vec3
    requires f != 0.0
  {
    Vec3(v.x / f, v.y / f, v.z / f)
  }

  function Dot(a: Vec3, b: Vec3): real { a.x * b.x + a.y * b.y + a.z * b.z }

  function Cross(a: Vec3, b: Vec3): Vec3
  {
    Vec3(a.y * b.z - a.z * b.y, a.z * b.x - a.x * b.z, a.x * b.y - a.y * b.x)
  }

  function Norm(v: Vec3, sqrt: real -> real): real { sqrt(Dot(v, v)) }

  /** The value `normalize` leaves in its receiver. The source divides the zero vector
      by zero (NaN components); the model leaves the zero-length vector as it is. */
  function Normalized(v: Vec3, sqrt: real -> real): Vec3
  {
    var len := Norm(v, sqrt);
    if len == 0.0 then v else Div(v, len)
  }

  // ---------------------------------------------------------------- Color operators

  function CAdd(one: Color, two: Color): Color { Color(one.r + two.r, one.g + two.g, one.b + two.b) }

  /** Colour subtraction as written: its blue channel subtracts the GREEN channel of `two`. */
  function CSub(one: Color, two: Color): Color { Color(one.r - two.r, one.g - two.g, one.b - two.g) }

  function CMul(one: Color, two: Color): Color { Color(one.r * two.r, one.g * two.g, one.b * two.b) }

  function CScale(k: real, c: Color): Color { Color(k * c.r, k * c.g, k * c.b) }

  function CScaleRight(c: Color, k: real): Color { Color(k * c.r, k * c.g, k * c.b) }

  function CDiv(c: Color, k: real): Color
    requires k != 0.0
  {
    Color(c.r / k, c.g / k, c.b / k)
  }

  predicate InUnit(v: real) { 0.0 <= v <= 1.0 }

  /** The `VALID` test of the scene parser, channel by channel. */
  predicate ColorInUnit(c: Color) { InUnit(c.r) && InUnit(c.g) && InUnit(c.b) }

  // ---------------------------------------------------------------- properties

  lemma ScaleSidesAgree(k: real, p: Vec3, c: Color)
    ensures Scale(k, p) == ScaleRight(p, k)
    ensures CScale(k, c) == CScaleRight(c, k)
  {
  }

  lemma SubThenAdd(a: Vec3, b: Vec3)
    ensures Add(Sub(a, b), b) == a
    ensures Sub(Add(a, b), b) == a
  {
  }

  lemma DotSymmetric(a: Vec3, b: Vec3)
    ensures Dot(a, b) == Dot(b, a)
  {
  }

  lemma DotSelfNonNegative(v: Vec3)
    ensures 0.0 <= Dot(v, v)
  {
    SquareNonNegative(v.x);
    SquareNonNegative(v.y);
    SquareNonNegative(v.z);
  }

  lemma NormSquared(v: Vec3, sqrt: real -> real)
    requires IsSqrt(sqrt)
    ensures 0.0 <= Norm(v, sqrt)
    ensures Norm(v, sqrt) * Norm(v, sqrt) == Dot(v, v)
  {
    DotSelfNonNegative(v);
    SqrtSquared(sqrt, Dot(v, v));
  }

  lemma DotLinearLeft(a: Vec3, b: Vec3, c: Vec3, k: real)
    ensures Dot(Add(a, b), c) == Dot(a, c) + Dot(b, c)
    ensures Dot(Sub(a, b), c) == Dot(a, c) - Dot(b, c)
    ensures Dot(Scale(k, a), c) == k * Dot(a, c)
  {
  }

  lemma CrossOrthogonal(a: Vec3, b: Vec3)
    ensures Dot(a, Cross(a, b)) == 0.0
    ensures Dot(b, Cross(a, b)) == 0.0
  {
  }

  lemma CrossAntiCommutes(a: Vec3, b: Vec3)
    ensures Cross(a, b) == Scale(-1.0, Cross(b, a))
  {
  }

  /** |a|^2 |b|^2 = (a.b)^2 + |a x b|^2, the identity behind Cauchy-Schwarz. */
  lemma {:induction false} LagrangeIdentity(a: Vec3, b: Vec3)
    ensures Dot(a, a) * Dot(b, b) == Dot(a, b) * Dot(a, b) + Dot(Cross(a, b), Cross(a, b))
  {
    var a1, a2, a3, b1, b2, b3 := a.x, a.y, a.z, b.x, b.y, b.z;
    assert Dot(a, a) * Dot(b, b)
        == a1*a1*b1*b1 + a1*a1*b2*b2 + a1*a1*b3*b3
         + a2*a2*b1*b1 + a2*a2*b2*b2 + a2*a2*b3*b3
         + a3*a3*b1*b1 + a3*a3*b2*b2 + a3*a3*b3*b3;
    assert Dot(a, b) * Dot(a, b)
        == a1*a1*b1*b1 + a2*a2*b2*b2 + a3*a3*b3*b3
         + 2.0*a1*b1*a2*b2 + 2.0*a1*b1*a3*b3 + 2.0*a2*b2*a3*b3;
    assert Dot(Cross(a, b), Cross(a, b))
        == a2*a2*b3*b3 - 2.0*a2*b3*a3*b2 + a3*a3*b2*b2
         + a3*a3*b1*b1 - 2.0*a3*b1*a1*b3 + a1*a1*b3*b3
         + a1*a1*b2*b2 - 2.0*a1*b2*a2*b1 + a2*a2*b1*b1;
  }

  lemma {:induction false} DotScaleBoth(k: real, v: Vec3)
    ensures Dot(Scale(k, v), Scale(k, v)) == (k * k) * Dot(v, v)
  {
    var w := Scale(k, v);
    assert w.x * w.x == (k * k) * (v.x * v.x);
    assert w.y * w.y == (k * k) * (v.y * v.y);
    assert w.z * w.z == (k * k) * (v.z * v.z);
  }

  /** For unit vectors the dot product lies in [-1, 1] (Cauchy-Schwarz). */
  lemma {:induction false} UnitDotBounded(a: Vec3, b: Vec3)
    requires Dot(a, a) == 1.0 && Dot(b, b) == 1.0
    ensures -1.0 <= Dot(a, b) <= 1.0
  {
    LagrangeIdentity(a, b);
    DotSelfNonNegative(Cross(a, b));
    var d := Dot(a, b);
    assert d * d <= 1.0;
    if d > 1.0 {
      SquareStrictlyMonotone(1.0, d);
    } else if d < -1.0 {
      SquareStrictlyMonotone(1.0, -d);
    }
  }

  /** Dividing by a non-zero length is scaling by its inverse. */
  lemma {:induction false} DivIsScale(v: Vec3, len: real)
    requires len != 0.0
    ensures Div(v, len) == Scale(1.0 / len, v)
  {
    assert v.x / len == (1.0 / len) * v.x;
    assert v.y / len == (1.0 / len) * v.y;
    assert v.z / len == (1.0 / len) * v.z;
  }

  /** `normalize` of a vector of non-zero length gives length 1 and keeps the direction. */
  lemma {:induction false} NormalizedIsUnit(v: Vec3, sqrt: real -> real)
    requires IsSqrt(sqrt)
    requires Norm(v, sqrt) != 0.0
    ensures Dot(Normalized(v, sqrt), Normalized(v, sqrt)) == 1.0
    ensures Norm(Normalized(v, sqrt), sqrt) == 1.0
    ensures Scale(Norm(v, sqrt), Normalized(v, sqrt)) == v
  {
    var len := Norm(v, sqrt);
    NormSquared(v, sqrt);
    var inv := 1.0 / len;
    DivIsScale(v, len);
    DotScaleBoth(inv, v);
    assert inv * len == 1.0;
    assert (inv * inv) * (len * len) == (inv * len) * (inv * len);
    assert Dot(Normalized(v, sqrt), Normalized(v, sqrt)) == 1.0;
    SqrtOfSquare(sqrt, 1.0, 1.0);
    var u := Normalized(v, sqrt);
    assert len * u.x == v.x && len * u.y == v.y && len * u.z == v.z;
  }

  lemma {:induction false} DivCancel(a: real, k: real, l: real)
    requires k != 0.0 && l != 0.0
    ensures (k * a) / (k * l) == a / l
  {
    var q := a / l;
    assert q * l == a;
    assert (k * l) * q == k * a;
  }

  lemma {:induction false} ScaledDotIsSquare(k: real, v: Vec3, len: real)
    requires Dot(v, v) == len * len
    ensures Dot(Scale(k, v), Scale(k, v)) == (k * len) * (k * len)
  {
    DotScaleBoth(k, v);
    assert (k * k) * (len * len) == (k * len) * (k * len);
  }

  /** Lengths scale with a non-negative factor. */
  lemma {:induction false} NormOfScale(v: Vec3, k: real, sqrt: real -> real)
    requires IsSqrt(sqrt)
    requires 0.0 <= k
    ensures Norm(Scale(k, v), sqrt) == k * Norm(v, sqrt)
  {
    NormSquared(v, sqrt);
    var len := Norm(v, sqrt);
    ScaledDotIsSquare(k, v, len);
    MulNonNegative(k, len);
    SqrtOfSquare(sqrt, Dot(Scale(k, v), Scale(k, v)), k * len);
  }

  /** Normalising a positively rescaled vector gives the same unit vector. */
  lemma {:induction false} NormalizedOfPositiveScale(v: Vec3, k: real, sqrt: real -> real)
    requires IsSqrt(sqrt)
    requires 0.0 < k && Norm(v, sqrt) != 0.0
    ensures Normalized(Scale(k, v), sqrt) == Normalized(v, sqrt)
  {
    NormOfScale(v, k, sqrt);
    var len := Norm(v, sqrt);
    DivCancel(v.x, k, len);
    DivCancel(v.y, k, len);
    DivCancel(v.z, k, len);
    MulNonZero(k, len);
  }

  /** Normalising keeps a vector orthogonal to whatever it was orthogonal to. */
  lemma {:induction false} NormalOrthogonal(x: Vec3, e: Vec3, sqrt: real -> real)
    requires Dot(e, x) == 0.0
    ensures Dot(Normalized(x, sqrt), e) == 0.0
  {
    var len := Norm(x, sqrt);
    if len != 0.0 {
      DivIsScale(x, len);
      DotLinearLeft(x, x, e, 1.0 / len);
      DotSymmetric(e, x);
    } else {
      DotSymmetric(e, x);
    }
  }

  /** Colour addition commutes, so the order in which terms are summed does not
      change a colour. */
  lemma ColorAddCommutes(a: Color, b: Color)
    ensures CAdd(a, b) == CAdd(b, a)
  {
  }

  /** The blue-channel slip of `CSub`: subtracting a colour from itself is not black
      as soon as its blue and green channels differ. */
  lemma ColorSubBlueUsesGreen(a: Color, b: Color)
    ensures CSub(a, b).r == a.r - b.r && CSub(a, b).g == a.g - b.g
    ensures CSub(a, b).b == a.b - b.g
    ensures a.b != a.g ==> CSub(a, a) != Black
  {
  }

  // ---------------------------------------------------------------- a vector updated in place

  /** A `Vec3` variable of the source, for the operations that mutate their receiver. */
  class Vector {
    var x: real
    var y: real
    var z: real

    constructor (x: real, y: real, z: real)
      ensures Value() == Vec3(x, y, z)
    {
      this.x, this.y, this.z := x, y, z;
    }

    function Value(): Vec3
      reads this
    {
      Vec3(x, y, z)
    }

    /** `norm()`, `dot()` and `cross()` are const: they read the receiver and change nothing. */
    function Length(sqrt: real -> real): real
      reads this
    {
      Norm(Value(), sqrt)
    }

    function DotWith(other: Vec3): real
      reads this
    {
      Dot(Value(), other)
    }

    function CrossWith(other: Vec3): Vec3
      reads this
    {
      Cross(Value(), other)
    }

    /** `normalize()` divides the receiver by its length in place and returns the receiver. */
    method Normalize(sqrt: real -> real) returns (self: Vector)
      modifies this
      ensures self == this
      ensures Value() == Normalized(old(Value()), sqrt)
      ensures IsSqrt(sqrt) && Norm(old(Value()), sqrt) != 0.0 ==> Dot(Value(), Value()) == 1.0
    {
      var length := Length(sqrt);
      if length != 0.0 {
        x := x / length;
        y := y / length;
        z := z / length;
      }
      self := this;
      if IsSqrt(sqrt) && length != 0.0 {
        NormalizedIsUnit(old(Value()), sqrt);
      }
    }
  }
}
