// The numeric pieces of the shading code that carry a promise: the upper-only
// colour clamp, the Schlick reflectance term with its normal flip, and the soft
// shadow factor (an average of occluder opacities) next to the binary one it replaced.
module Shading {
  import opened Numerics
  import opened Geometry

  // ---------------------------------------------------------------- the colour clamp

  predicate AtMostOne(c: Color)
  {
    c.r <= 1.0 && c.g <= 1.0 && c.b <= 1.0
  }

  /** `_CLAMP(x)`: a channel above 1 becomes 1. */
  function ClampChannel(x: real): (y: real)
    ensures y <= 1.0 && y <= x
    ensures x <= 1.0 ==> y == x
  {
    if x > 1.0 then 1.0 else x
  }

  /** `CLAMP(c)`: only the upper bound is enforced; a negative channel stays negative. */
  function Clamp(c: Color): (d: Color)
    ensures AtMostOne(d)
    ensures d.r <= c.r && d.g <= c.g && d.b <= c.b
    ensures AtMostOne(c) ==> d == c
  {
    Color(ClampChannel(c.r), ClampChannel(c.g), ClampChannel(c.b))
  }

  /** Clamping twice is clamping once, and a colour with channels in [0, 1] is left alone. */
  lemma {:induction false} ClampIdempotent(c: Color)
    ensures Clamp(Clamp(c)) == Clamp(c)
    ensures ColorInUnit(c) ==> Clamp(c) == c
  {
    assert AtMostOne(Clamp(c));
  }

  // ---------------------------------------------------------------- Schlick's approximation

  /** `pow(x, 5.0)`. */
  function Pow5(x: real): real { x * x * x * x * x }

  /** `F0 = pow((eta - 1) / (eta + 1), 2.0)`, the reflectance at normal incidence. */
  function NormalReflectance(eta: real): (f0: real)
    requires eta != -1.0
    ensures 0.0 <= f0
  {
    var q := (eta - 1.0) / (eta + 1.0);
    SquareNonNegative(q);
    q * q
  }

  /** `Fr = F0 + (1 - F0) * pow(1 - cos_val, 5.0)`. */
  function Schlick(eta: real, cosVal: real): real
    requires eta != -1.0
  {
    var f0 := NormalReflectance(eta);
    f0 + (1.0 - f0) * Pow5(1.0 - cosVal)
  }

  /** The normal the reflection and refraction loops use: flipped to the side of
      the incoming direction when it points away from it. */
  function FacingNormal(i: Vec3, n: Vec3): (f: Vec3)
    ensures 0.0 <= Dot(i, f)
    ensures f == n || f == Scale(-1.0, n)
    ensures 0.0 <= Dot(i, n) ==> f == n
    ensures Dot(i, f) == (if Dot(i, n) < 0.0 then -Dot(i, n) else Dot(i, n))
  {
    if Dot(i, n) < 0.0 then
      DotOfNegated(i, n);
      Scale(-1.0, n)
    else n
  }

  lemma {:induction false} DotOfNegated(i: Vec3, n: Vec3)
    ensures Dot(i, Scale(-1.0, n)) == -Dot(i, n)
    ensures Dot(Scale(-1.0, n), Scale(-1.0, n)) == Dot(n, n)
  {
    SquareOfNegated(n.x);
    SquareOfNegated(n.y);
    SquareOfNegated(n.z);
  }

  lemma SquareOfNegated(a: real)
    ensures (-1.0 * a) * (-1.0 * a) == a * a
  {
  }

  lemma {:induction false} UnitProduct(a: real, b: real)
    requires InUnit(a) && InUnit(b)
    ensures InUnit(a * b)
  {
    MulNonNegative(a, b);
    MulNonNegative(a, 1.0 - b);
  }

  lemma {:induction false} Pow5InUnit(x: real)
    requires InUnit(x)
    ensures InUnit(Pow5(x))
  {
    UnitProduct(x, x);
    UnitProduct(x * x, x);
    UnitProduct(x * x * x, x);
    UnitProduct(x * x * x * x, x);
  }

  /** A quotient of a number by a positive bound on its magnitude lies in [-1, 1]. */
  lemma {:induction false} QuotientBounded(q: real, d: real, e: real)
    requires 0.0 < d && q * d == e && -d <= e <= d
    ensures -1.0 <= q <= 1.0
  {
    assert (q - 1.0) * d == e - d;
    assert (q + 1.0) * d == e + d;
    FactorSign(q - 1.0, d);
    FactorSign(-(q + 1.0), d);
  }

  lemma {:induction false} FactorSign(a: real, d: real)
    requires 0.0 < d && a * d <= 0.0
    ensures a <= 0.0
  {
    if 0.0 < a {
      MulPositive(a, d);
    }
  }

  /** For a non-negative refractive index F0 lies in [0, 1]: |eta - 1| <= eta + 1. */
  lemma {:induction false} NormalReflectanceInUnit(eta: real)
    requires 0.0 <= eta
    ensures InUnit(NormalReflectance(eta))
  {
    var q := (eta - 1.0) / (eta + 1.0);
    DivTimes(eta - 1.0, eta + 1.0);
    QuotientBounded(q, eta + 1.0, eta - 1.0);
    if 0.0 <= q {
      UnitProduct(q, q);
    } else {
      UnitProduct(-q, -q);
      SquareOfNegated(q);
    }
  }

  /** Fr lies in [0, 1] for a non-negative index and a cosine in [0, 1]: it is F0
      moved towards 1 by a fraction in [0, 1]. */
  lemma {:induction false} SchlickInUnit(eta: real, cosVal: real)
    requires 0.0 <= eta && InUnit(cosVal)
    ensures InUnit(Schlick(eta, cosVal))
    ensures NormalReflectance(eta) <= Schlick(eta, cosVal)
  {
    var f0 := NormalReflectance(eta);
    NormalReflectanceInUnit(eta);
    var p := Pow5(1.0 - cosVal);
    Pow5InUnit(1.0 - cosVal);
    MulNonNegative(1.0 - f0, p);
    MulNonNegative(1.0 - f0, 1.0 - p);
    assert (1.0 - f0) * p <= 1.0 - f0;
  }

  /** Head-on (cos 1) the reflectance is F0; grazing (cos 0) it is 1. */
  lemma SchlickEnds(eta: real)
    requires eta != -1.0
    ensures Schlick(eta, 1.0) == NormalReflectance(eta)
    ensures Schlick(eta, 0.0) == 1.0
  {
  }

  /** With unit incoming direction and normal, the cosine after the flip lies in
      [0, 1], so the reflectance used by both loops lies in [0, 1]. */
  lemma {:induction false} FresnelInUnit(i: Vec3, n: Vec3, eta: real)
    requires Dot(i, i) == 1.0 && Dot(n, n) == 1.0 && 0.0 <= eta
    ensures InUnit(Dot(i, FacingNormal(i, n)))
    ensures InUnit(Schlick(eta, Dot(i, FacingNormal(i, n))))
  {
    UnitDotBounded(i, n);
    SchlickInUnit(eta, Dot(i, FacingNormal(i, n)));
  }

  // ---------------------------------------------------------------- shadow factors

  /** The sum the soft-shadow loop accumulates in `diff`, in loop order. */
  function Sum(xs: seq<real>): real
  {
    if |xs| == 0 then 0.0 else Sum(xs[..|xs| - 1]) + xs[|xs| - 1]
  }

  /** `get_shadow_flag` of the last version, given the opacities of the occluders
      it counted: 1 without occluders, otherwise 1 - (their sum) / (their number). */
  function SoftShadow(alphas: seq<real>): (s: real)
    ensures |alphas| == 0 ==> s == 1.0
  {
    if |alphas| == 0 then 1.0 else 1.0 - Sum(alphas) / |alphas| as real
  }

  lemma SumOfSnoc(xs: seq<real>, a: real)
    ensures Sum(xs + [a]) == Sum(xs) + a
  {
    assert (xs + [a])[..|xs|] == xs;
  }

  lemma {:induction false} SumBounds(xs: seq<real>)
    requires forall k :: 0 <= k < |xs| ==> InUnit(xs[k])
    ensures 0.0 <= Sum(xs) <= |xs| as real
  {
    if |xs| > 0 {
      SumBounds(xs[..|xs| - 1]);
    }
  }

  /** With opacities in [0, 1] the factor lies in [0, 1]. */
  lemma {:induction false} SoftShadowInUnit(alphas: seq<real>)
    requires forall k :: 0 <= k < |alphas| ==> InUnit(alphas[k])
    ensures InUnit(SoftShadow(alphas))
  {
    if |alphas| > 0 {
      SumBounds(alphas);
      var n := |alphas| as real;
      DivTimes(Sum(alphas), n);
      var a := Sum(alphas) / n;
      if a < 0.0 {
        MulPositive(-a, n);
      } else if a > 1.0 {
        MulPositive(a - 1.0, n);
      }
    }
  }

  lemma {:induction false} SumOfOnes(xs: seq<real>)
    requires forall k :: 0 <= k < |xs| ==> xs[k] == 1.0
    ensures Sum(xs) == |xs| as real
  {
    if |xs| > 0 {
      SumOfOnes(xs[..|xs| - 1]);
    }
  }

  /** `get_shadow_flag` of the second version: fully lit or fully dark. */
  function HardShadow(occluded: bool): real
  {
    if occluded then 0.0 else 1.0
  }

  /** When every occluder is opaque the average agrees with the binary flag of the
      earlier version. */
  lemma {:induction false} OpaqueSoftShadowIsHard(alphas: seq<real>)
    requires forall k :: 0 <= k < |alphas| ==> alphas[k] == 1.0
    ensures SoftShadow(alphas) == HardShadow(|alphas| > 0)
  {
    SumOfOnes(alphas);
  }
}
