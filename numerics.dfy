// Numeric conventions shared by the whole model.
//
// Every `float` of the renderer is a `real`. The transcendental functions the
// renderer calls (sqrt, pow with a non-integer exponent, cos, tan, exp, atan2,
// acos) are not definable here, so they travel as a record of functions, `Math`;
// the only fact the proofs rely on is that `sqrt` is exact (`IsSqrt`). A NaN produced by
// the renderer ("no hit", "missing field") is an explicit `None`.
module Numerics {

  datatype Option<T> = None | Some(value: T)

  /** The transcendental functions the renderer takes from <cmath>. */
  datatype Math = Math(
    sqrt: real -> real,
    pow: (real, real) -> real,
    cos: real -> real,
    tan: real -> real,
    exp: real -> real,
    atan2: (real, real) -> real,
    acos: real -> real)

  /** `fabs`. */
  function Abs(x: real): real { if x < 0.0 then -x else x }

  /** `M_PI` of <cmath>. */
  const MPi: real := 3.141592653589793

  /** The identity on reals; it names the inputs at which `IsSqrt` is consulted. */
  ghost function Radicand(x: real): real { x }

  /** `sqrt` returns the non-negative square root of every non-negative input.
      The fact is instantiated only through `SqrtSquared`, which keeps the
      arithmetic of unrelated proofs free of square roots. */
  ghost predicate IsSqrt(sqrt: real -> real)
  {
    forall x {:trigger Radicand(x)} :: 0.0 <= x ==> 0.0 <= sqrt(x) && sqrt(x) * sqrt(x) == x
  }

  lemma SqrtSquared(sqrt: real -> real, x: real)
    requires IsSqrt(sqrt)
    requires 0.0 <= x
    ensures 0.0 <= sqrt(x) && sqrt(x) * sqrt(x) == x
  {
    assert Radicand(x) == x;
  }

  /** The number written by C's `round`: halves are rounded away from zero. */
  function Round(x: real): (n: int)
    ensures -0.5 <= x - n as real <= 0.5
  {
    if 0.0 <= x then (x + 0.5).Floor else -((-x + 0.5).Floor)
  }

  lemma MulPositive(a: real, b: real)
    requires 0.0 < a && 0.0 < b
    ensures 0.0 < a * b
  {
  }

  lemma MulNonNegative(a: real, b: real)
    requires 0.0 <= a && 0.0 <= b
    ensures 0.0 <= a * b
  {
  }

  lemma MulNonZero(a: real, b: real)
    requires a != 0.0 && b != 0.0
    ensures a * b != 0.0
  {
  }

  lemma SquareNonNegative(a: real)
    ensures 0.0 <= a * a
  {
  }

  lemma {:induction false} SquarePositive(a: real)
    requires a != 0.0
    ensures 0.0 < a * a
  {
    if 0.0 < a {
      MulPositive(a, a);
    } else {
      MulPositive(-a, -a);
    }
  }

  /** Squaring is strictly increasing on the non-negative reals. */
  lemma {:induction false} SquareStrictlyMonotone(a: real, b: real)
    requires 0.0 <= a < b
    ensures a * a < b * b
  {
    MulPositive(b - a, b + a);
    assert (b - a) * (b + a) == b * b - a * a;
  }

  /** The square root of `x = y * y` with `y >= 0` is `y`. */
  lemma {:induction false} SqrtOfSquare(sqrt: real -> real, x: real, y: real)
    requires IsSqrt(sqrt)
    requires 0.0 <= y && x == y * y
    ensures sqrt(x) == y
  {
    SqrtSquared(sqrt, x);
    var s := sqrt(x);
    assert 0.0 <= s && s * s == y * y;
    if s < y {
      SquareStrictlyMonotone(s, y);
    } else if y < s {
      SquareStrictlyMonotone(y, s);
    }
  }

  lemma {:induction false} SqrtZeroIff(sqrt: real -> real, x: real)
    requires IsSqrt(sqrt)
    requires 0.0 <= x
    ensures sqrt(x) == 0.0 <==> x == 0.0
  {
    SqrtSquared(sqrt, x);
    if x == 0.0 {
      SqrtOfSquare(sqrt, x, 0.0);
    }
  }

  /** sqrt is monotone, so comparing two lengths is comparing their squares. */
  lemma {:induction false} SqrtMonotone(sqrt: real -> real, x: real, y: real)
    requires IsSqrt(sqrt)
    requires 0.0 <= x && 0.0 <= y
    ensures sqrt(x) <= sqrt(y) <==> x <= y
  {
    SqrtSquared(sqrt, x);
    SqrtSquared(sqrt, y);
    var a, b := sqrt(x), sqrt(y);
    assert 0.0 <= a && a * a == x;
    assert 0.0 <= b && b * b == y;
    if a < b {
      SquareStrictlyMonotone(a, b);
    } else if b < a {
      SquareStrictlyMonotone(b, a);
    }
  }

  lemma DivTimes(x: real, y: real)
    requires y != 0.0
    ensures (x / y) * y == x
  {
  }

  lemma {:induction false} ProductZero(x: real, y: real)
    requires x != 0.0 && x * y == 0.0
    ensures y == 0.0
  {
    assert y == (x * y) / x;
  }

  /** Division is the inverse of multiplication. */
  lemma {:induction false} DivOfProduct(x: real, y: real, z: real)
    requires y != 0.0
    requires z * y == x
    ensures x / y == z
  {
    DivTimes(x, y);
    assert (x / y - z) * y == (x / y) * y - z * y;
    ProductZero(y, x / y - z);
  }

  lemma MulCongruence(a: real, b: real, c: real, d: real)
    requires a == c && b == d
    ensures a * b == c * d
  {
  }

  lemma {:induction false} QuotientProduct(x: real, y: real, a: real, b: real)
    requires a != 0.0 && b != 0.0
    ensures (x / a) * (y / b) == (x * y) / (a * b)
  {
    DivTimes(x, a);
    DivTimes(y, b);
    ProductOfQuotients(x / a, y / b, a, b, x, y);
  }

  lemma {:induction false} ProductOfQuotients(p: real, q: real, a: real, b: real, x: real, y: real)
    requires a != 0.0 && b != 0.0 && p * a == x && q * b == y
    ensures p * q == (x * y) / (a * b)
  {
    MulNonZero(a, b);
    MulCongruence(p * a, q * b, x, y);
    assert (p * q) * (a * b) == (p * a) * (q * b);
    DivOfProduct(x * y, a * b, p * q);
  }

  /** Dividing a point of a line by a non-zero constant divides both of its parts. */
  lemma {:induction false} DivAlong(x: real, t: real, y: real, a: real)
    requires a != 0.0
    ensures (x + t * y) / a == x / a + t * (y / a)
  {
    DivTimes(x, a);
    DivTimes(y, a);
    var p, q := x / a, y / a;
    assert (p + t * q) * a == p * a + t * (q * a);
    MulCongruence(t, q * a, t, y);
    DivOfProduct(x + t * y, a, p + t * q);
  }
}
