// The two file-name helpers of the scene reader: `remove_ext`, which drops the
// extension (with the run of dots in front of it) from an output file name, and
// `get_path`, the directory prefix texture file names are resolved against.
module Paths {
  import opened Numerics

  /** `strrchr`: the position of the last occurrence of ch. */
  function LastIndexOf(s: string, ch: char): (r: Option<nat>)
    ensures r.Some? ==> r.value < |s| && s[r.value] == ch
    ensures r.Some? ==> forall j :: r.value < j < |s| ==> s[j] != ch
    ensures r.None? ==> forall j :: 0 <= j < |s| ==> s[j] != ch
    decreases |s|
  {
    if s == [] then None
    else if s[|s| - 1] == ch then Some(|s| - 1)
    else LastIndexOf(s[..|s| - 1], ch)
  }

  /** `find`: the position of the first occurrence of ch. */
  function FirstIndexOf(s: string, ch: char): (r: Option<nat>)
    ensures r.Some? ==> r.value < |s| && s[r.value] == ch
    ensures r.Some? ==> forall j :: 0 <= j < r.value ==> s[j] != ch
    ensures r.None? ==> forall j :: 0 <= j < |s| ==> s[j] != ch
    decreases |s|
  {
    if s == [] then None
    else if s[0] == ch then Some(0)
    else match FirstIndexOf(s[1..], ch)
      case None => None
      case Some(i) => Some(i + 1)
  }

  predicate IsSeparator(c: char) { c == '/' || c == '\\' }

  predicate HasSeparator(t: string)
  {
    exists j :: 0 <= j < |t| && IsSeparator(t[j])
  }

  /** The first position of the run of dots that ends at position d. */
  function DotRunStart(s: string, d: nat): (b: nat)
    requires d < |s| && s[d] == '.'
    ensures b <= d && (b == 0 || s[b - 1] != '.')
    ensures forall j :: b <= j <= d ==> s[j] == '.'
    decreases d
  {
    if d > 0 && s[d - 1] == '.' then DotRunStart(s, d - 1) else d
  }

  /** `remove_ext(str)`: without a dot, or when a slash or backslash follows the
      last dot, the name is returned unchanged; otherwise it is cut just before the
      run of dots that ends at the last dot. */
  function RemoveExt(s: string): (r: string)
    ensures |r| <= |s| && r == s[..|r|]
    ensures r == s || (|r| < |s| && s[|r|] == '.' && !HasSeparator(s[|r|..]))
  {
    match LastIndexOf(s, '.')
    case None => s
    case Some(d) =>
      if HasSeparator(s[d..]) then s
      else
        var b := DotRunStart(s, d);
        assert !HasSeparator(s[b..]) by {
          forall j | 0 <= j < |s| - b
            ensures !IsSeparator(s[b..][j])
          {
            if b + j <= d {
              assert s[b + j] == '.';
            } else {
              assert s[b..][j] == s[d..][b + j - d];
            }
          }
        }
        s[..b]
  }

  /** The character walk of `remove_ext`: find the last dot, give up if a separator
      follows it, then step back over the dots in front of it. */
  method RemoveExtension(s: string) returns (r: string)
    ensures r == RemoveExt(s)
  {
    var dot := LastIndexOf(s, '.');
    if dot.None? {
      return s;
    }
    if HasSeparator(s[dot.value..]) {
      return s;
    }
    var k: nat := dot.value;
    while k > 0 && s[k - 1] == '.'
      invariant k <= dot.value < |s| && s[k] == '.'
      invariant DotRunStart(s, k) == DotRunStart(s, dot.value)
      decreases k
    {
      k := k - 1;
    }
    r := s[..k];
  }

  /** A name with an extension loses exactly the extension and the run of dots
      in front of it. */
  lemma {:induction false} RemoveExtOfName(stem: string, dots: string, ext: string)
    requires stem == [] || stem[|stem| - 1] != '.'
    requires dots != [] && forall j :: 0 <= j < |dots| ==> dots[j] == '.'
    requires forall j :: 0 <= j < |ext| ==> ext[j] != '.' && !IsSeparator(ext[j])
    ensures RemoveExt(stem + dots + ext) == stem
  {
    var s := stem + dots + ext;
    LastDotOfName(stem, dots, ext);
    NoSeparatorAfterDot(stem, dots, ext);
    DotRunOfName(stem, dots, ext);
    assert s[..|stem|] == stem;
  }

  lemma {:induction false} LastDotOfName(stem: string, dots: string, ext: string)
    requires dots != [] && forall j :: 0 <= j < |dots| ==> dots[j] == '.'
    requires forall j :: 0 <= j < |ext| ==> ext[j] != '.'
    ensures LastIndexOf(stem + dots + ext, '.') == Some(|stem| + |dots| - 1)
  {
    var s := stem + dots + ext;
    var d := |stem| + |dots| - 1;
    assert s[d] == dots[|dots| - 1];
    assert forall j :: d < j < |s| ==> s[j] == ext[j - d - 1];
  }

  lemma {:induction false} NoSeparatorAfterDot(stem: string, dots: string, ext: string)
    requires dots != [] && forall j :: 0 <= j < |dots| ==> dots[j] == '.'
    requires forall j :: 0 <= j < |ext| ==> !IsSeparator(ext[j])
    ensures !HasSeparator((stem + dots + ext)[|stem| + |dots| - 1..])
  {
    var s := stem + dots + ext;
    var d := |stem| + |dots| - 1;
    forall j | 0 <= j < |s| - d
      ensures !IsSeparator(s[d..][j])
    {
      if j > 0 {
        assert s[d..][j] == ext[j - 1];
      } else {
        assert s[d..][j] == dots[|dots| - 1];
      }
    }
  }

  lemma {:induction false} DotRunOfName(stem: string, dots: string, ext: string)
    requires stem == [] || stem[|stem| - 1] != '.'
    requires dots != [] && forall j :: 0 <= j < |dots| ==> dots[j] == '.'
    ensures var s := stem + dots + ext;
            s[|stem| + |dots| - 1] == '.' && DotRunStart(s, |stem| + |dots| - 1) == |stem|
  {
    var s := stem + dots + ext;
    var d := |stem| + |dots| - 1;
    if |stem| > 0 {
      assert s[|stem| - 1] == stem[|stem| - 1];
    }
    assert forall j :: |stem| <= j <= d ==> s[j] == dots[j - |stem|];
  }

  /** Names without a dot, and names whose last dot belongs to a directory, are
      left alone. */
  lemma {:induction false} RemoveExtKeeps(s: string)
    requires (forall j :: 0 <= j < |s| ==> s[j] != '.')
             || (exists d, j :: 0 <= d < j < |s| && s[d] == '.' && IsSeparator(s[j])
                                && forall k :: d < k < |s| ==> s[k] != '.')
    ensures RemoveExt(s) == s
  {
    match LastIndexOf(s, '.')
    case None =>
    case Some(d) =>
      var d', j :| 0 <= d' < j < |s| && s[d'] == '.' && IsSeparator(s[j])
                   && forall k :: d' < k < |s| ==> s[k] != '.';
      assert d == d';
      assert s[d..][j - d] == s[j];
  }

  /** The dots in front of the extension go with it. */
  lemma DotsGoWithTheExtension()
    ensures RemoveExt("out..ppm") == "out"
    ensures RemoveExt("scene.txt") == "scene"
  {
    RemoveExtOfName("out", "..", "ppm");
    assert "out" + ".." + "ppm" == "out..ppm";
    RemoveExtOfName("scene", ".", "txt");
    assert "scene" + "." + "txt" == "scene.txt";
  }

  /** `get_path(full_path)`: "./" when there is no slash, otherwise everything up
      to and including the last slash. */
  function GetPath(s: string): (r: string)
    ensures |r| > 0 && r[|r| - 1] == '/'
    ensures LastIndexOf(s, '/').Some? ==> |r| <= |s| && r == s[..|r|]
    ensures LastIndexOf(s, '/').None? ==> r == "./"
  {
    match LastIndexOf(s, '/')
    case None => "./"
    case Some(e) => s[..e + 1]
  }

  /** A directory followed by a plain file name gives back the directory. */
  lemma {:induction false} GetPathOfJoin(dir: string, name: string)
    requires |dir| > 0 && dir[|dir| - 1] == '/'
    requires forall j :: 0 <= j < |name| ==> name[j] != '/'
    ensures GetPath(dir + name) == dir
  {
    var s := dir + name;
    var e := LastIndexOf(s, '/');
    assert s[|dir| - 1] == '/';
    assert forall j :: |dir| <= j < |s| ==> s[j] == name[j - |dir|];
    assert s[..|dir|] == dir;
  }
}
