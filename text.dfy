// Decimal integers as `printf("%i")` writes them, and whitespace-separated
// tokens as a reader of the written text sees them.
module Text {
  import opened Numerics

  predicate IsDigit(c: char) { '0' <= c <= '9' }

  predicate IsSpace(c: char) { c == ' ' || c == '\n' }

  predicate AllDigits(s: string) { forall i :: 0 <= i < |s| ==> IsDigit(s[i]) }

  predicate NoSpace(s: string) { forall i :: 0 <= i < |s| ==> !IsSpace(s[i]) }

  function DigitChar(d: int): (c: char)
    requires 0 <= d < 10
    ensures IsDigit(c) && c as int - '0' as int == d
  {
    (d + '0' as int) as char
  }

  /** The decimal digits of a natural number, most significant first, without leading zeros. */
  function NatToString(n: nat): (s: string)
    ensures s != [] && AllDigits(s)
    ensures |s| > 1 ==> s[0] != '0'
    decreases n
  {
    if n < 10 then [DigitChar(n)] else NatToString(n / 10) + [DigitChar(n % 10)]
  }

  /** `%i`: an optional minus sign followed by the digits of the magnitude. */
  function Itoa(n: int): (s: string)
    ensures s != [] && NoSpace(s)
    ensures n < 0 <==> s[0] == '-'
  {
    if n < 0 then "-" + NatToString(-n) else NatToString(n)
  }

  /** The value of a string of digits, read from the left. */
  function DigitsValue(s: string): (n: nat)
    requires AllDigits(s)
    decreases |s|
  {
    if s == [] then 0
    else assert IsDigit(s[|s| - 1]); DigitsValue(s[..|s| - 1]) * 10 + (s[|s| - 1] as int - '0' as int)
  }

  /** A reader of `%i` fields: an optional '-' and at least one digit, nothing else. */
  function Atoi(s: string): (r: Option<int>)
    ensures r.Some? ==> s != []
  {
    if s != [] && s[0] == '-' then
      (if |s| > 1 && AllDigits(s[1..]) then Some(-(DigitsValue(s[1..]) as int)) else None)
    else if s != [] && AllDigits(s) then Some(DigitsValue(s))
    else None
  }

  lemma {:induction false} DigitsValueOfNatToString(n: nat)
    ensures DigitsValue(NatToString(n)) == n
    decreases n
  {
    var s := NatToString(n);
    if n >= 10 {
      DigitsValueOfNatToString(n / 10);
      assert s[..|s| - 1] == NatToString(n / 10);
    }
  }

  /** Reading back a written integer gives the integer. */
  lemma {:induction false} AtoiItoa(n: int)
    ensures Atoi(Itoa(n)) == Some(n)
  {
    if n < 0 {
      DigitsValueOfNatToString(-n);
      assert Itoa(n)[1..] == NatToString(-n);
    } else {
      DigitsValueOfNatToString(n);
      assert Itoa(n)[0] != '-';
    }
  }

  // ---------------------------------------------------------------- tokens

  /** The longest prefix of s without a separator. */
  function Word(s: string): (w: string)
    ensures |w| <= |s| && w == s[..|w|] && NoSpace(w)
    ensures |w| < |s| ==> IsSpace(s[|w|])
  {
    if s == [] || IsSpace(s[0]) then [] else [s[0]] + Word(s[1..])
  }

  /** The whitespace-separated fields of s, in order. */
  function Tokens(s: string): (ts: seq<string>)
    ensures forall i :: 0 <= i < |ts| ==> ts[i] != [] && NoSpace(ts[i])
    decreases |s|
  {
    if s == [] then []
    else if IsSpace(s[0]) then Tokens(s[1..])
    else [Word(s)] + Tokens(s[|Word(s)|..])
  }

  predicate HasSpace(s: string) { exists i :: 0 <= i < |s| && IsSpace(s[i]) }

  lemma {:induction false} WordOfAppend(a: string, b: string)
    requires HasSpace(a) || b == [] || IsSpace(b[0])
    ensures Word(a + b) == Word(a)
    decreases |a|
  {
    if a == [] {
      assert b == [] || IsSpace(b[0]);
    } else if IsSpace(a[0]) {
    } else {
      assert (a + b)[1..] == a[1..] + b;
      if HasSpace(a) {
        var i :| 0 <= i < |a| && IsSpace(a[i]);
        assert i != 0;
        assert IsSpace(a[1..][i - 1]);
      }
      WordOfAppend(a[1..], b);
    }
  }

  /** Fields do not run across a separator at the seam. */
  lemma {:induction false} TokensOfAppend(a: string, b: string)
    requires a == [] || IsSpace(a[|a| - 1]) || b == [] || IsSpace(b[0])
    ensures Tokens(a + b) == Tokens(a) + Tokens(b)
    decreases |a|
  {
    if a == [] {
      assert a + b == b;
    } else if IsSpace(a[0]) {
      TokensOfAppendAfterSpace(a, b);
    } else {
      TokensOfAppendAfterWord(a, b);
    }
  }

  lemma {:induction false} TokensOfAppendAfterSpace(a: string, b: string)
    requires a != [] && IsSpace(a[0])
    requires IsSpace(a[|a| - 1]) || b == [] || IsSpace(b[0])
    ensures Tokens(a + b) == Tokens(a) + Tokens(b)
    decreases |a|, 0
  {
    var s := a + b;
    assert s[0] == a[0];
    assert s[1..] == a[1..] + b;
    assert Tokens(s) == Tokens(s[1..]);
    assert Tokens(a) == Tokens(a[1..]);
    if a[1..] != [] {
      assert a[1..][|a[1..]| - 1] == a[|a| - 1];
    }
    TokensOfAppend(a[1..], b);
  }

  lemma {:induction false} TokensOfAppendAfterWord(a: string, b: string)
    requires a != [] && !IsSpace(a[0])
    requires IsSpace(a[|a| - 1]) || b == [] || IsSpace(b[0])
    ensures Tokens(a + b) == Tokens(a) + Tokens(b)
    decreases |a|, 0
  {
    var s := a + b;
    var w := Word(a);
    assert s[0] == a[0];
    if IsSpace(a[|a| - 1]) {
      assert HasSpace(a);
    }
    WordOfAppend(a, b);
    assert Tokens(s) == [w] + Tokens(s[|w|..]);
    assert Tokens(a) == [w] + Tokens(a[|w|..]);
    if |w| < |a| {
      var rest := a[|w|..];
      assert s[|w|..] == rest + b;
      assert rest[|rest| - 1] == a[|a| - 1];
      TokensOfAppend(rest, b);
    } else {
      assert s[|w|..] == b;
      assert a[|w|..] == [];
    }
  }

  lemma {:induction false} TokensOfWord(w: string)
    requires w != [] && NoSpace(w)
    ensures Tokens(w) == [w]
  {
    WordIsWhole(w);
    assert w[|w|..] == [];
  }

  lemma {:induction false} WordIsWhole(w: string)
    requires NoSpace(w)
    ensures Word(w) == w
    decreases |w|
  {
    if w != [] {
      WordIsWhole(w[1..]);
    }
  }

  lemma {:induction false} TokensOfSpace(c: char)
    requires IsSpace(c)
    ensures Tokens([c]) == []
  {
  }
}
