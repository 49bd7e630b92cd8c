// Choosing the surface a ray sees: the pixel loops of all three renderers and
// `trace_ray` walk the surfaces in order and keep the first of the smallest hit
// values they accept.
module Nearest {
  import opened Numerics

  /** Which hit values a loop accepts. The later renderers accept strictly positive
      values only; the first one rejects exactly the miss value -1 and takes every
      other value, negative ones included. A NaN (`None`) is never accepted: every
      comparison with it is false. */
  datatype Rule = PositiveOnly | AnyButMinusOne

  predicate Accepts(rule: Rule, t: Option<real>)
  {
    t.Some? && (if rule.PositiveOnly? then t.value > 0.0 else t.value != -1.0)
  }

  /** The loop's choice after the first n values: it replaces its current choice
      only by a value that is strictly smaller (`alpha < alpha_max`). */
  function NearestUpTo(rule: Rule, ts: seq<Option<real>>, n: nat): (b: Option<nat>)
    requires n <= |ts|
    ensures b.Some? ==> b.value < n && Accepts(rule, ts[b.value])
  {
    if n == 0 then None
    else
      var b := NearestUpTo(rule, ts, n - 1);
      if Accepts(rule, ts[n - 1]) && (b.None? || ts[n - 1].value < ts[b.value].value) then Some(n - 1)
      else b
  }

  /** The loop's choice over all values. */
  function NearestOf(rule: Rule, ts: seq<Option<real>>): (b: Option<nat>)
    ensures b.Some? ==> b.value < |ts| && Accepts(rule, ts[b.value])
  {
    NearestUpTo(rule, ts, |ts|)
  }

  /** i is the first position of the smallest accepted value among the first n:
      strictly smaller than every accepted value before it, no larger than every
      accepted value after it. */
  predicate IsNearest(rule: Rule, ts: seq<Option<real>>, n: nat, i: int)
    requires n <= |ts|
  {
    0 <= i < n && Accepts(rule, ts[i])
    && (forall j :: 0 <= j < i && Accepts(rule, ts[j]) ==> ts[i].value < ts[j].value)
    && (forall j :: i < j < n && Accepts(rule, ts[j]) ==> ts[i].value <= ts[j].value)
  }

  predicate NoneAccepted(rule: Rule, ts: seq<Option<real>>, n: nat)
    requires n <= |ts|
  {
    forall j :: 0 <= j < n ==> !Accepts(rule, ts[j])
  }

  /** The loop finds nothing exactly when no value is accepted, and otherwise finds
      the first of the smallest accepted values. */
  lemma {:induction false} NearestUpToIsNearest(rule: Rule, ts: seq<Option<real>>, n: nat)
    requires n <= |ts|
    ensures NearestUpTo(rule, ts, n).None? <==> NoneAccepted(rule, ts, n)
    ensures NearestUpTo(rule, ts, n).Some? ==> IsNearest(rule, ts, n, NearestUpTo(rule, ts, n).value)
  {
    if n > 0 {
      NearestUpToIsNearest(rule, ts, n - 1);
    }
  }

  /** There is only one first smallest accepted value. */
  lemma {:induction false} NearestUnique(rule: Rule, ts: seq<Option<real>>, n: nat, i: int, k: int)
    requires n <= |ts|
    requires IsNearest(rule, ts, n, i) && IsNearest(rule, ts, n, k)
    ensures i == k
  {
  }

  /** Every position that the specification allows is the one the loop picks. */
  lemma {:induction false} NearestOfIsNearest(rule: Rule, ts: seq<Option<real>>, i: int)
    requires IsNearest(rule, ts, |ts|, i)
    ensures NearestOf(rule, ts) == Some(i)
  {
    NearestUpToIsNearest(rule, ts, |ts|);
    NearestUnique(rule, ts, |ts|, i, NearestOf(rule, ts).value);
  }

  /** The first renderer's rule lets a negative value win over a positive one. */
  lemma NegativeHitWins()
    ensures NearestOf(AnyButMinusOne, [Some(5.0), Some(-2.0)]) == Some(1)
    ensures NearestOf(PositiveOnly, [Some(5.0), Some(-2.0)]) == Some(0)
  {
    var ts := [Some(5.0), Some(-2.0)];
    assert NearestUpTo(AnyButMinusOne, ts, 1) == Some(0);
    assert NearestUpTo(PositiveOnly, ts, 1) == Some(0);
  }

  /** Of two equal smallest values the earlier one is chosen. */
  lemma TiesGoToTheEarlier()
    ensures NearestOf(PositiveOnly, [Some(3.0), None, Some(3.0)]) == Some(0)
  {
    var ts := [Some(3.0), None, Some(3.0)];
    assert NearestUpTo(PositiveOnly, ts, 1) == Some(0);
    assert NearestUpTo(PositiveOnly, ts, 2) == Some(0);
  }

  /** The pixel loop as written: one pass over the values, keeping the current
      smallest accepted value and its position. */
  method SelectNearest(rule: Rule, ts: seq<Option<real>>) returns (s: Option<nat>)
    ensures s == NearestOf(rule, ts)
    ensures s.None? <==> NoneAccepted(rule, ts, |ts|)
    ensures s.Some? ==> IsNearest(rule, ts, |ts|, s.value)
  {
    var alphaMax: Option<real> := None;  // None: INFINITY
    s := None;
    for i := 0 to |ts|
      invariant s == NearestUpTo(rule, ts, i)
      invariant s.None? <==> alphaMax.None?
      invariant s.Some? ==> alphaMax == ts[s.value]
    {
      var alpha := ts[i];
      if Accepts(rule, alpha) && (alphaMax.None? || alpha.value < alphaMax.value) {
        alphaMax := alpha;
        s := Some(i);
      }
    }
    NearestUpToIsNearest(rule, ts, |ts|);
  }
}
