// The scene-file reader of the three versions that have one. A scene file is a
// sequence of lines, each a keyword followed by fields; the reader keeps the
// parameters it has seen, the current material and the texture counter, collects
// surfaces, lights, textures and the shared mesh pools, and throws on the first
// malformed line. After the last line it demands the six required keywords and
// an up direction that is not parallel to the view direction.
//
// Lines arrive already split: `nums` holds the values the stream extracts from
// the fields after the keyword (a missing field ends it), `words` the fields as
// text (the face and texture lines read those).
module Parser {
  import opened Numerics
  import opened Geometry
  import opened Text
  import opened Surfaces
  import opened Images
  import opened Paths

  /** The version whose reader is meant: the first one knows spheres and
      ellipsoids with a plain colour, the second adds lights and Phong materials,
      the third adds meshes, textures and the parallel projection. */
  datatype Dialect = RT1 | RT2 | RT3

  /** The exception classes the reader throws. */
  datatype ParseError =
    | InvalidSceneFile | InvalidFov | InvalidDims | InvalidColor | InvalidConstant
    | InvalidVector | ParallelCoords

  datatype Result<T> = Success(value: T) | Failure(error: ParseError)

  datatype Line = Line(keyword: string, nums: seq<real>, words: seq<string>)

  /** The six entries of `gotit`. */
  datatype Key = EyeKey | ViewDirKey | UpDirKey | FovvKey | ImsizeKey | BkgKey

  const AllKeys: set<Key> := {EyeKey, ViewDirKey, UpDirKey, FovvKey, ImsizeKey, BkgKey}

  /** The current `mtlcolor`: default-constructed until the first `mtlcolor` line,
      then a plain colour (first version) or a Phong material (later versions). */
  datatype Material =
    | Unset
    | Flat(color: Color)
    | Phong(od: Color, os: Color, ka: real, kd: real, ks: real, n: real)

  /** A surface as the reader creates it, with the material and texture index it
      was given. */
  datatype Shape =
    | SphereRec(center: Vec3, r: real, mtl: Material, tIdx: int)
    | EllipsoidRec(center: Vec3, rx: real, ry: real, rz: real, mtl: Material, tIdx: int)
    | FaceRec(c: Corners, n: Corners, v: Corners, mtl: Material, tIdx: int)

  /** A light as the reader creates it, with the fields it passes to the
      constructors. */
  datatype LightRec =
    | LightLine(p: Vec3, w: real, c: Color)
    | SpotLine(p: Vec3, dir: Vec3, theta: real, c: Color)

  /** Everything the line loop updates. */
  datatype State = State(params: Params, got: set<Key>, mtl: Material, tIdx: int,
                         shapes: seq<Shape>, lights: seq<LightRec>, textures: seq<string>,
                         pools: Pools)

  const NoParams := Params(Zero, Zero, Zero, 0.0, 0, 0, Black, false)

  const Init := State(NoParams, {}, Unset, -1, [], [], [], Pools([], [], [], []))

  /** The keywords a version knows: the first one has the viewing parameters,
      `mtlcolor`, spheres and ellipsoids; the second adds the two light kinds; the
      third adds faces and their pools, textures and the parallel projection. */
  predicate Known(d: Dialect, k: string)
  {
    k == "eye" || k == "viewdir" || k == "updir" || k == "fovv" || k == "imsize" || k == "bkgcolor"
    || k == "mtlcolor" || k == "sphere" || k == "ellipsoid"
    || (d != RT1 && (k == "light" || k == "spotlight"))
    || (d == RT3 && (k == "f" || k == "v" || k == "vt" || k == "vn" || k == "texture" || k == "parallel"))
  }

  /** The `gotit` entry a keyword sets. */
  function KeyOf(k: string): Option<Key>
  {
    if k == "eye" then Some(EyeKey)
    else if k == "viewdir" then Some(ViewDirKey)
    else if k == "updir" then Some(UpDirKey)
    else if k == "fovv" then Some(FovvKey)
    else if k == "imsize" then Some(ImsizeKey)
    else if k == "bkgcolor" then Some(BkgKey)
    else None
  }

  function Vec(a: seq<real>, i: nat): Vec3
    requires i + 3 <= |a|
  {
    Vec3(a[i], a[i + 1], a[i + 2])
  }

  function Col(a: seq<real>, i: nat): Color
    requires i + 3 <= |a|
  {
    Color(a[i], a[i + 1], a[i + 2])
  }

  /** A direction within 0.05 of unit length. */
  predicate NearUnit(v: Vec3, sqrt: real -> real)
  {
    Abs(Norm(v, sqrt) - 1.0) <= 0.05
  }

  // ---------------------------------------------------------------- line readers

  /** `viewdir` and `updir`: three fields; a direction off unit length by more
      than 0.05 is rejected by the first version and normalised by the later ones. */
  function Direction(d: Dialect, a: seq<real>, sqrt: real -> real): (r: Result<Vec3>)
    ensures |a| < 3 ==> r == Failure(InvalidSceneFile)
    ensures 3 <= |a| && NearUnit(Vec(a, 0), sqrt) ==> r == Success(Vec(a, 0))
    ensures 3 <= |a| && !NearUnit(Vec(a, 0), sqrt) ==>
              r == if d == RT1 then Failure(InvalidVector) else Success(Normalized(Vec(a, 0), sqrt))
  {
    if |a| < 3 then Failure(InvalidSceneFile)
    else if !NearUnit(Vec(a, 0), sqrt) then
      if d == RT1 then Failure(InvalidVector) else Success(Normalized(Vec(a, 0), sqrt))
    else Success(Vec(a, 0))
  }

  predicate MaterialOk(m: Material)
  {
    match m
    case Unset => true
    case Flat(c) => ColorInUnit(c)
    case Phong(od, os, ka, kd, ks, _) =>
      ColorInUnit(od) && ColorInUnit(os) && InUnit(ka) && InUnit(kd) && InUnit(ks)
  }

  /** `mtlcolor`: three channels in the first version; two colours, three
      constants and an exponent later. Colours are checked before constants. */
  function ReadMaterial(d: Dialect, a: seq<real>): (r: Result<Material>)
    ensures r.Success? ==> MaterialOk(r.value) && (r.value.Flat? <==> d == RT1) && !r.value.Unset?
    ensures d == RT1 ==> (r.Success? <==> 3 <= |a| && ColorInUnit(Col(a, 0)))
    ensures d != RT1 ==> (r.Success? <==> 10 <= |a| && ColorInUnit(Col(a, 0)) && ColorInUnit(Col(a, 3))
                                          && InUnit(a[6]) && InUnit(a[7]) && InUnit(a[8]))
  {
    if d == RT1 then
      if |a| < 3 then Failure(InvalidSceneFile)
      else if !ColorInUnit(Col(a, 0)) then Failure(InvalidColor)
      else Success(Flat(Col(a, 0)))
    else
      if |a| < 10 then Failure(InvalidSceneFile)
      else if !ColorInUnit(Col(a, 0)) || !ColorInUnit(Col(a, 3)) then Failure(InvalidColor)
      else if !InUnit(a[6]) || !InUnit(a[7]) || !InUnit(a[8]) then Failure(InvalidConstant)
      else Success(Phong(Col(a, 0), Col(a, 3), a[6], a[7], a[8], a[9]))
  }

  // ---------------------------------------------------------------- face tokens

  /** The number of leading decimal digits. */
  function LeadingDigits(s: string): (n: nat)
    ensures n <= |s| && AllDigits(s[..n]) && (n == |s| || !IsDigit(s[n]))
    decreases |s|
  {
    if s != [] && IsDigit(s[0]) then
      var n := 1 + LeadingDigits(s[1..]);
      assert s[..n] == [s[0]] + s[1..][..n - 1];
      n
    else 0
  }

  /** `atoi`: an optional sign and the digits that follow it; 0 when there are
      none. */
  function CAtoi(s: string): int
  {
    if s != [] && (s[0] == '-' || s[0] == '+') then
      var m: int := DigitsValue(s[1..][..LeadingDigits(s[1..])]);
      if s[0] == '-' then -m else m
    else DigitsValue(s[..LeadingDigits(s)])
  }

  /** Vertex, texture-coordinate and normal index of one face corner; 0 stands for
      an absent part. */
  datatype FaceIndex = FaceIndex(v: int, c: int, n: int)

  /** The split of an `f` token at its first and last slash: `v`, `v/t`, `v/t/n`
      and `v//n`. */
  function SplitFace(token: string): FaceIndex
  {
    var (v, c, n) := FaceParts(token);
    FaceIndex(CAtoi(v), CAtoi(c), CAtoi(n))
  }

  /** The text of each part of an `f` token; an absent part is empty, which reads as 0. */
  function FaceParts(token: string): (string, string, string)
  {
    match FirstIndexOf(token, '/')
    case None => (token, "", "")
    case Some(b) =>
      var e := LastIndexOf(token, '/').value;
      if b == e then (token[..b], token[b + 1..], "")
      else (token[..b], token[b + 1..e], token[e + 1..])
  }

  predicate NoSlash(s: string) { forall j :: 0 <= j < |s| ==> s[j] != '/' }

  lemma {:induction false} ItoaHasNoSlash(n: int)
    ensures NoSlash(Itoa(n))
  {
    if n < 0 {
      assert forall j :: 1 <= j < |Itoa(n)| ==> Itoa(n)[j] == NatToString(-n)[j - 1];
    }
  }

  lemma {:induction false} CAtoiItoa(n: int)
    ensures CAtoi(Itoa(n)) == n
  {
    var s := Itoa(n);
    if n < 0 {
      var t := NatToString(-n);
      assert s[1..] == t;
      assert LeadingDigits(t) == |t|;
      assert t[..|t|] == t;
      DigitsValueOfNatToString(-n);
    } else {
      assert IsDigit(s[0]);
      assert LeadingDigits(s) == |s|;
      assert s[..|s|] == s;
      DigitsValueOfNatToString(n);
    }
  }

  lemma {:induction false} SlashBetween(x: string, y: string)
    requires NoSlash(x) && NoSlash(y)
    ensures FirstIndexOf(x + "/" + y, '/') == Some(|x|)
    ensures LastIndexOf(x + "/" + y, '/') == Some(|x|)
  {
    var s := x + "/" + y;
    assert s[|x|] == '/';
    assert forall j :: 0 <= j < |x| ==> s[j] == x[j];
    assert forall j :: |x| < j < |s| ==> s[j] == y[j - |x| - 1];
  }

  /** The face token forms split into the numbers written in them: `v`, */
  lemma {:induction false} SplitVertexOnly(a: int)
    ensures SplitFace(Itoa(a)) == FaceIndex(a, 0, 0)
  {
    ItoaHasNoSlash(a);
    CAtoiItoa(a);
    assert FirstIndexOf(Itoa(a), '/') == None;
  }

  /** `v/t`, */
  lemma {:induction false} SplitVertexTexture(a: int, b: int)
    ensures SplitFace(Itoa(a) + "/" + Itoa(b)) == FaceIndex(a, b, 0)
  {
    var x, y := Itoa(a), Itoa(b);
    ItoaHasNoSlash(a);
    ItoaHasNoSlash(b);
    CAtoiItoa(a);
    CAtoiItoa(b);
    SlashBetween(x, y);
    var s := x + "/" + y;
    assert s[..|x|] == x && s[|x| + 1..] == y;
  }

  /** `v//n`, */
  lemma {:induction false} SplitVertexNormal(a: int, c: int)
    ensures SplitFace(Itoa(a) + "//" + Itoa(c)) == FaceIndex(a, 0, c)
  {
    var x, z := Itoa(a), Itoa(c);
    ItoaHasNoSlash(a);
    ItoaHasNoSlash(c);
    CAtoiItoa(a);
    CAtoiItoa(c);
    FirstOfTwo(x, z);
    var s := x + "//" + z;
    assert s[..|x|] == x && s[|x| + 1..|x| + 1] == [] && s[|x| + 2..] == z;
    assert CAtoi([]) == 0;
  }

  /** and `v/t/n`. */
  lemma {:induction false} SplitAllThree(a: int, b: int, c: int)
    ensures SplitFace(Itoa(a) + "/" + Itoa(b) + "/" + Itoa(c)) == FaceIndex(a, b, c)
  {
    ItoaHasNoSlash(a);
    ItoaHasNoSlash(b);
    ItoaHasNoSlash(c);
    SplitOfThree(Itoa(a), Itoa(b), Itoa(c));
    CAtoiItoa(a);
    CAtoiItoa(b);
    CAtoiItoa(c);
  }

  lemma {:induction false} SplitOfThree(x: string, y: string, z: string)
    requires NoSlash(x) && NoSlash(y) && NoSlash(z)
    ensures SplitFace(x + "/" + y + "/" + z) == FaceIndex(CAtoi(x), CAtoi(y), CAtoi(z))
  {
    PartsOfThree(x, y, z);
  }

  lemma {:induction false} PartsOfThree(x: string, y: string, z: string)
    requires NoSlash(x) && NoSlash(y) && NoSlash(z)
    ensures FaceParts(x + "/" + y + "/" + z) == (x, y, z)
  {
    FirstOfTwo2(x, y, z);
    SlicesOfThree(x, y, z);
  }

  lemma {:induction false} SlicesOfThree(x: string, y: string, z: string)
    ensures var s := x + "/" + y + "/" + z;
            s[..|x|] == x && s[|x| + 1..|x| + 1 + |y|] == y && s[|x| + 2 + |y|..] == z
  {
  }

  lemma {:induction false} FirstOfTwo(x: string, z: string)
    requires NoSlash(x) && NoSlash(z)
    ensures FirstIndexOf(x + "//" + z, '/') == Some(|x|)
    ensures LastIndexOf(x + "//" + z, '/') == Some(|x| + 1)
  {
    var s := x + "//" + z;
    assert s[|x|] == '/' && s[|x| + 1] == '/';
    assert forall j :: 0 <= j < |x| ==> s[j] == x[j];
    assert forall j :: |x| + 1 < j < |s| ==> s[j] == z[j - |x| - 2];
  }

  lemma {:induction false} FirstOfTwo2(x: string, y: string, z: string)
    requires NoSlash(x) && NoSlash(y) && NoSlash(z)
    ensures FirstIndexOf(x + "/" + y + "/" + z, '/') == Some(|x|)
    ensures LastIndexOf(x + "/" + y + "/" + z, '/') == Some(|x| + 1 + |y|)
  {
    var s := x + "/" + y + "/" + z;
    assert s[|x|] == '/' && s[|x| + 1 + |y|] == '/';
    assert forall j :: 0 <= j < |x| ==> s[j] == x[j];
    assert forall j :: |x| < j < |x| + 1 + |y| ==> s[j] == y[j - |x| - 1];
    assert forall j :: |x| + 1 + |y| < j < |s| ==> s[j] == z[j - |x| - 2 - |y|];
  }

  /** The per-corner check of the `f` line as written: texture-coordinate and
      normal indices no larger than the pools read so far (an unsigned comparison,
      so negative ones fail too). Vertex indices are not looked at. */
  predicate CornerAccepted(pools: Pools, f: FaceIndex)
  {
    0 <= f.c <= |pools.us| && 0 <= f.n <= |pools.normals|
  }

  /** The `f` line as written: three non-empty tokens, each split and checked;
      the result is the texture, normal and vertex index triples. */
  function ReadFaceAsWritten(words: seq<string>, pools: Pools): (r: Result<(Corners, Corners, Corners)>)
    ensures r.Success? <==> 3 <= |words| && words[0] != [] && words[1] != [] && words[2] != []
                            && CornerAccepted(pools, SplitFace(words[0]))
                            && CornerAccepted(pools, SplitFace(words[1]))
                            && CornerAccepted(pools, SplitFace(words[2]))
  {
    if |words| < 3 || words[0] == [] || words[1] == [] || words[2] == [] then Failure(InvalidSceneFile)
    else
      var f0, f1, f2 := SplitFace(words[0]), SplitFace(words[1]), SplitFace(words[2]);
      if !CornerAccepted(pools, f0) || !CornerAccepted(pools, f1) || !CornerAccepted(pools, f2) then
        Failure(InvalidSceneFile)
      else Success((Corners(f0.c, f1.c, f2.c), Corners(f0.n, f1.n, f2.n), Corners(f0.v, f1.v, f2.v)))
  }

  /** A face the check as written lets through although the triangle built from
      it reads outside the pools: vertex indices are never checked. */
  lemma VertexIndexUnchecked()
    ensures var pools := Pools([], [], [], []);
            var r := ReadFaceAsWritten(["1", "2", "3"], pools);
            r.Success? && !FaceFits(pools, r.value.0, r.value.1, r.value.2)
  {
    SplitVertexOnly(1);
    SplitVertexOnly(2);
    SplitVertexOnly(3);
    assert Itoa(1) == "1" && Itoa(2) == "2" && Itoa(3) == "3";
  }

  /** Another: a texture index on the first corner only. The triangle then reads
      texture coordinate 0 - 1 for the second corner. */
  lemma LaterTextureIndexUnchecked()
    ensures var pools := Pools([Zero, Zero, Zero], [0.5], [0.5], []);
            var r := ReadFaceAsWritten(["1/1", "2", "3/1"], pools);
            r.Success? && r.value.0 == Corners(1, 0, 1) && !FaceFits(pools, r.value.0, r.value.1, r.value.2)
  {
    LaterTextureTokens();
  }

  /** The three tokens of that face, split. */
  lemma LaterTextureTokens()
    ensures SplitFace("1/1") == FaceIndex(1, 1, 0)
    ensures SplitFace("2") == FaceIndex(2, 0, 0)
    ensures SplitFace("3/1") == FaceIndex(3, 1, 0)
  {
    assert Itoa(1) == "1" && Itoa(2) == "2" && Itoa(3) == "3";
    SplitVertexTexture(1, 1);
    assert Itoa(1) + "/" + Itoa(1) == "1/1";
    SplitVertexOnly(2);
    SplitVertexTexture(3, 1);
    assert Itoa(3) + "/" + Itoa(1) == "3/1";
  }

  /** The `f` line with the check it evidently intends: everything the check as
      written demands, and in addition every index the triangle constructor follows
      lies inside the pools. */
  function ReadFace(words: seq<string>, pools: Pools): (r: Result<(Corners, Corners, Corners)>)
    ensures r.Success? <==> ReadFaceAsWritten(words, pools).Success?
                            && var f := ReadFaceAsWritten(words, pools).value; FaceFits(pools, f.0, f.1, f.2)
    ensures r.Success? ==> r == ReadFaceAsWritten(words, pools) && FaceFits(pools, r.value.0, r.value.1, r.value.2)
  {
    match ReadFaceAsWritten(words, pools)
    case Failure(e) => Failure(e)
    case Success(f) => if FaceFits(pools, f.0, f.1, f.2) then Success(f) else Failure(InvalidSceneFile)
  }

  // ---------------------------------------------------------------- one line

  /** The `gotit` entries a line sets: its own, for the six required keywords. */
  function GotBy(k: string): set<Key>
  {
    match KeyOf(k)
    case Some(key) => {key}
    case None => {}
  }

  /** One pass of the line loop: what a line does to the state, or the exception
      it throws. Blank lines are skipped; a keyword the version does not know is an
      error. Every surface gets the current material and texture index. */
  function Step(d: Dialect, path: string, sqrt: real -> real, st: State, line: Line): (r: Result<State>)
    ensures line.keyword == "" ==> r == Success(st)
    ensures line.keyword != "" && !Known(d, line.keyword) ==> r == Failure(InvalidSceneFile)
  {
    var k := line.keyword;
    if k == "" then Success(st)
    else if k == "eye" || k == "viewdir" || k == "updir" || k == "fovv" || k == "imsize" || k == "bkgcolor"
            || (k == "parallel" && d == RT3) then
      ReadSetting(d, sqrt, st, line)
    else if k == "mtlcolor" then
      SetMaterial(d, st, line)
    else if k == "sphere" || k == "ellipsoid" || (k == "f" && d == RT3) then
      ReadShape(st, line)
    else if (k == "light" || k == "spotlight") && d != RT1 then
      ReadLight(st, line)
    else if (k == "v" || k == "vt" || k == "vn") && d == RT3 then
      ReadPool(st, line)
    else if k == "texture" && d == RT3 then
      Success(AddTexture(path, st, line))
    else Failure(InvalidSceneFile)
  }

  /** `mtlcolor`: the material later surfaces get; nothing else changes. */
  function SetMaterial(d: Dialect, st: State, line: Line): (r: Result<State>)
    ensures r.Success? ==> r.value == st.(mtl := r.value.mtl) && ReadMaterial(d, line.nums) == Success(r.value.mtl)
    ensures r.Failure? ==> ReadMaterial(d, line.nums).Failure?
  {
    match ReadMaterial(d, line.nums)
    case Failure(e) => Failure(e)
    case Success(m) => Success(st.(mtl := m))
  }

  /** `texture`: the file name, resolved against the scene file's directory, is
      appended and the texture counter moves on to it; a missing name reads as
      empty. */
  function AddTexture(path: string, st: State, line: Line): (st': State)
    ensures st' == st.(textures := st'.textures, tIdx := st.tIdx + 1)
    ensures |st'.textures| == |st.textures| + 1 && st'.textures[..|st.textures|] == st.textures
  {
    var name := if 1 <= |line.words| then line.words[0] else "";
    st.(textures := st.textures + [path + name], tIdx := st.tIdx + 1)
  }

  /** The viewing-parameter lines: `eye`, `viewdir`, `updir`, `fovv`, `imsize`,
      `bkgcolor` and `parallel`. Only the parameters and the `gotit` entries change. */
  function ReadSetting(d: Dialect, sqrt: real -> real, st: State, line: Line): (r: Result<State>)
    requires line.keyword in {"eye", "viewdir", "updir", "fovv", "imsize", "bkgcolor", "parallel"}
    ensures r.Success? ==> r.value == st.(params := r.value.params, got := st.got + GotBy(line.keyword))
  {
    var k, a, p := line.keyword, line.nums, st.params;
    if k == "eye" then
      if |a| < 3 then Failure(InvalidSceneFile)
      else Success(st.(params := p.(eye := Vec(a, 0)), got := st.got + {EyeKey}))
    else if k == "viewdir" then
      match Direction(d, a, sqrt)
      case Failure(e) => Failure(e)
      case Success(v) => Success(st.(params := p.(viewDir := v), got := st.got + {ViewDirKey}))
    else if k == "updir" then
      match Direction(d, a, sqrt)
      case Failure(e) => Failure(e)
      case Success(v) => Success(st.(params := p.(upDir := v), got := st.got + {UpDirKey}))
    else if k == "fovv" then
      if |a| < 1 then Failure(InvalidSceneFile)
      else if a[0] >= 180.0 then Failure(InvalidFov)
      else Success(st.(params := p.(fovv := a[0]), got := st.got + {FovvKey}))
    else if k == "imsize" then
      var w := if 1 <= |a| then a[0].Floor else 0;
      var h := if 2 <= |a| then a[1].Floor else 0;
      if w <= 0 || h <= 0 then Failure(InvalidDims)
      else Success(st.(params := p.(width := w, height := h), got := st.got + {ImsizeKey}))
    else if k == "bkgcolor" then
      if |a| < 3 then Failure(InvalidSceneFile)
      else if !ColorInUnit(Col(a, 0)) then Failure(InvalidColor)
      else Success(st.(params := p.(bkg := Col(a, 0)), got := st.got + {BkgKey}))
    else
      Success(st.(params := p.(parallel := true)))
  }

  /** `sphere`, `ellipsoid` and `f`: one surface appended, with the current
      material and texture index; nothing else changes. */
  function ReadShape(st: State, line: Line): (r: Result<State>)
    requires line.keyword in {"sphere", "ellipsoid", "f"}
    ensures r.Success? ==> r.value == st.(shapes := r.value.shapes)
                           && |r.value.shapes| == |st.shapes| + 1 && r.value.shapes[..|st.shapes|] == st.shapes
  {
    var k, a := line.keyword, line.nums;
    if k == "sphere" then
      if |a| < 4 || a[3] <= 0.0 then Failure(InvalidSceneFile)
      else Success(st.(shapes := st.shapes + [SphereRec(Vec(a, 0), a[3], st.mtl, st.tIdx)]))
    else if k == "ellipsoid" then
      if |a| < 6 || a[3] <= 0.0 || a[4] <= 0.0 || a[5] <= 0.0 then Failure(InvalidSceneFile)
      else Success(st.(shapes := st.shapes + [EllipsoidRec(Vec(a, 0), a[3], a[4], a[5], st.mtl, st.tIdx)]))
    else
      match ReadFace(line.words, st.pools)
      case Failure(e) => Failure(e)
      case Success(f) => Success(st.(shapes := st.shapes + [FaceRec(f.0, f.1, f.2, st.mtl, st.tIdx)]))
  }

  /** `light` and `spotlight`: one light appended, with its colour checked. */
  function ReadLight(st: State, line: Line): (r: Result<State>)
    requires line.keyword in {"light", "spotlight"}
    ensures r.Success? ==> r.value == st.(lights := r.value.lights)
                           && |r.value.lights| == |st.lights| + 1 && r.value.lights[..|st.lights|] == st.lights
                           && ColorInUnit(r.value.lights[|st.lights|].c)
  {
    var a := line.nums;
    if line.keyword == "light" then
      if |a| < 7 then Failure(InvalidSceneFile)
      else if !ColorInUnit(Col(a, 4)) then Failure(InvalidColor)
      else Success(st.(lights := st.lights + [LightLine(Vec(a, 0), a[3], Col(a, 4))]))
    else
      if |a| < 10 then Failure(InvalidSceneFile)
      else if !ColorInUnit(Col(a, 7)) then Failure(InvalidColor)
      else Success(st.(lights := st.lights + [SpotLine(Vec(a, 0), Vec(a, 3), a[6], Col(a, 7))]))
  }

  /** `v`, `vt` and `vn`: one entry appended to the vertex, texture-coordinate or
      normal pool; texture coordinates outside [0, 1] are rejected. */
  function ReadPool(st: State, line: Line): (r: Result<State>)
    requires line.keyword in {"v", "vt", "vn"}
    ensures r.Success? ==> r.value == st.(pools := r.value.pools)
    ensures r.Success? ==> var q, q' := st.pools, r.value.pools;
              |q.vertices| <= |q'.vertices| && q'.vertices[..|q.vertices|] == q.vertices
              && |q.normals| <= |q'.normals| && q'.normals[..|q.normals|] == q.normals
              && |q.us| <= |q'.us| && q'.us[..|q.us|] == q.us
              && |q.vs| <= |q'.vs| && q'.vs[..|q.vs|] == q.vs
              && |q'.us| - |q.us| == |q'.vs| - |q.vs|
              && (forall i :: |q.us| <= i < |q'.us| ==> InUnit(q'.us[i]))
              && (forall i :: |q.vs| <= i < |q'.vs| ==> InUnit(q'.vs[i]))
  {
    var a, q := line.nums, st.pools;
    if line.keyword == "v" then
      if |a| < 3 then Failure(InvalidSceneFile)
      else Success(st.(pools := q.(vertices := q.vertices + [Vec(a, 0)])))
    else if line.keyword == "vt" then
      if |a| < 2 || !InUnit(a[0]) || !InUnit(a[1]) then Failure(InvalidSceneFile)
      else Success(st.(pools := q.(us := q.us + [a[0]], vs := q.vs + [a[1]])))
    else
      if |a| < 3 then Failure(InvalidSceneFile)
      else Success(st.(pools := q.(normals := q.normals + [Vec(a, 0)])))
  }

  /** The state after the first n lines, or the exception one of them threw. */
  function Run(d: Dialect, path: string, sqrt: real -> real, lines: seq<Line>, n: nat): Result<State>
    requires n <= |lines|
  {
    if n == 0 then Success(Init)
    else match Run(d, path, sqrt, lines, n - 1)
      case Failure(e) => Failure(e)
      case Success(st) => Step(d, path, sqrt, st, lines[n - 1])
  }

  /** The checks after the loop: all six keywords seen, then the up and view
      directions not (nearly) parallel. */
  function Finish(st: State, sqrt: real -> real): Result<State>
  {
    if !(AllKeys <= st.got) then Failure(InvalidSceneFile)
    else if Norm(Cross(st.params.upDir, st.params.viewDir), sqrt) < 0.05 then Failure(ParallelCoords)
    else Success(st)
  }

  /** `parse_input(filename, ...)` over the lines of the file. */
  function Parse(d: Dialect, filename: string, lines: seq<Line>, sqrt: real -> real): Result<State>
  {
    match Run(d, GetPath(filename), sqrt, lines, |lines|)
    case Failure(e) => Failure(e)
    case Success(st) => Finish(st, sqrt)
  }

  lemma {:induction false} FailureSticks(d: Dialect, path: string, sqrt: real -> real, lines: seq<Line>, i: nat, n: nat)
    requires i <= n <= |lines| && Run(d, path, sqrt, lines, i).Failure?
    ensures Run(d, path, sqrt, lines, n) == Run(d, path, sqrt, lines, i)
    decreases n
  {
    if i < n {
      FailureSticks(d, path, sqrt, lines, i, n - 1);
    }
  }

  /** The line loop: each line in turn, stopping at the first exception; then the
      checks after the loop. */
  method ParseInput(d: Dialect, filename: string, lines: seq<Line>, sqrt: real -> real) returns (r: Result<State>)
    ensures r == Parse(d, filename, lines, sqrt)
  {
    var path := GetPath(filename);
    var st := Init;
    for i := 0 to |lines|
      invariant Run(d, path, sqrt, lines, i) == Success(st)
    {
      var next := Step(d, path, sqrt, st, lines[i]);
      RunNext(d, path, sqrt, lines, i, st);
      if next.Failure? {
        FailureSticks(d, path, sqrt, lines, i + 1, |lines|);
        return next;
      }
      st := next.value;
    }
    r := Finish(st, sqrt);
  }

  // ---------------------------------------------------------------- what an accepted file gives

  predicate ShapeOk(s: Shape, pools: Pools, textures: nat)
  {
    -1 <= s.tIdx < textures && MaterialOk(s.mtl)
    && match s
       case SphereRec(_, r, _, _) => 0.0 < r
       case EllipsoidRec(_, rx, ry, rz, _, _) => 0.0 < rx && 0.0 < ry && 0.0 < rz
       case FaceRec(c, n, v, _, _) => FaceFits(pools, c, n, v)
  }

  /** The checks on the viewing parameters, for the entries `gotit` has marked. */
  predicate ParamsOk(d: Dialect, p: Params, got: set<Key>, sqrt: real -> real)
  {
    (FovvKey in got ==> p.fovv < 180.0)
    && (ImsizeKey in got ==> 0 < p.width && 0 < p.height)
    && (BkgKey in got ==> ColorInUnit(p.bkg))
    && (d == RT1 && ViewDirKey in got ==> NearUnit(p.viewDir, sqrt))
    && (d == RT1 && UpDirKey in got ==> NearUnit(p.upDir, sqrt))
    && (d != RT3 ==> !p.parallel)
  }

  /** A valid current material of the kind the version reads. */
  predicate MaterialFits(d: Dialect, m: Material)
  {
    MaterialOk(m) && (m.Flat? ==> d == RT1) && (m.Phong? ==> d != RT1)
  }

  predicate ShapesOk(shapes: seq<Shape>, pools: Pools, textures: nat)
  {
    forall i :: 0 <= i < |shapes| ==> ShapeOk(shapes[i], pools, textures)
  }

  predicate LightsOk(lights: seq<LightRec>)
  {
    forall i :: 0 <= i < |lights| ==> ColorInUnit(lights[i].c)
  }

  /** Texture coordinates come in pairs, each in [0, 1]. */
  predicate PoolsOk(pools: Pools)
  {
    |pools.us| == |pools.vs|
    && (forall i :: 0 <= i < |pools.us| ==> InUnit(pools.us[i]))
    && (forall i :: 0 <= i < |pools.vs| ==> InUnit(pools.vs[i]))
  }

  /** What the reader's checks guarantee about the state at every point. */
  predicate Wellformed(d: Dialect, st: State, sqrt: real -> real)
  {
    ParamsOk(d, st.params, st.got, sqrt) && MaterialFits(d, st.mtl)
    && st.tIdx == |st.textures| - 1
    && ShapesOk(st.shapes, st.pools, |st.textures|)
    && LightsOk(st.lights) && PoolsOk(st.pools)
    && (d == RT1 ==> st.lights == [])
    && (d != RT3 ==> st.textures == [] && st.pools == Init.pools)
  }

  /** Growing the pools and the texture list keeps earlier surfaces valid. */
  lemma {:induction false} FacesKeepFitting(shapes: seq<Shape>, pools: Pools, textures: nat, pools': Pools, textures': nat)
    requires ShapesOk(shapes, pools, textures) && textures <= textures'
    requires |pools.vertices| <= |pools'.vertices| && |pools.us| <= |pools'.us|
    requires |pools.vs| <= |pools'.vs| && |pools.normals| <= |pools'.normals|
    ensures ShapesOk(shapes, pools', textures')
  {
    forall i | 0 <= i < |shapes|
      ensures ShapeOk(shapes[i], pools', textures')
    {
      assert ShapeOk(shapes[i], pools, textures);
    }
  }

  lemma {:induction false} StepKeepsWellformed(d: Dialect, path: string, sqrt: real -> real, st: State, line: Line)
    requires Wellformed(d, st, sqrt) && Step(d, path, sqrt, st, line).Success?
    ensures Wellformed(d, Step(d, path, sqrt, st, line).value, sqrt)
  {
    var k := line.keyword;
    if k == "" {
    } else if k == "eye" || k == "viewdir" || k == "updir" || k == "fovv" || k == "imsize" || k == "bkgcolor"
              || (k == "parallel" && d == RT3) {
      SettingLineKeepsWellformed(d, sqrt, st, line);
    } else if k == "mtlcolor" {
      MaterialLineKeepsWellformed(d, sqrt, st, line);
    } else if k == "sphere" || k == "ellipsoid" || (k == "f" && d == RT3) {
      ShapeLineKeepsWellformed(d, sqrt, st, line);
    } else if (k == "light" || k == "spotlight") && d != RT1 {
      LightLineKeepsWellformed(d, sqrt, st, line);
    } else if (k == "v" || k == "vt" || k == "vn") && d == RT3 {
      PoolLineKeepsWellformed(d, sqrt, st, line);
    } else {
      TextureLineKeepsWellformed(d, path, sqrt, st, line);
    }
  }

  lemma {:induction false} PoolLineKeepsWellformed(d: Dialect, sqrt: real -> real, st: State, line: Line)
    requires line.keyword in {"v", "vt", "vn"} && d == RT3
    requires Wellformed(d, st, sqrt) && ReadPool(st, line).Success?
    ensures Wellformed(d, ReadPool(st, line).value, sqrt)
  {
    var st' := ReadPool(st, line).value;
    FacesKeepFitting(st.shapes, st.pools, |st.textures|, st'.pools, |st'.textures|);
    var q, q' := st.pools, st'.pools;
    forall i | 0 <= i < |q'.us|
      ensures InUnit(q'.us[i])
    {
      if i < |q.us| {
        assert q'.us[i] == q'.us[..|q.us|][i];
      }
    }
    forall i | 0 <= i < |q'.vs|
      ensures InUnit(q'.vs[i])
    {
      if i < |q.vs| {
        assert q'.vs[i] == q'.vs[..|q.vs|][i];
      }
    }
  }

  lemma {:induction false} TextureLineKeepsWellformed(d: Dialect, path: string, sqrt: real -> real, st: State, line: Line)
    requires line.keyword == "texture" && d == RT3
    requires Wellformed(d, st, sqrt)
    ensures Wellformed(d, AddTexture(path, st, line), sqrt)
  {
    var st' := AddTexture(path, st, line);
    FacesKeepFitting(st.shapes, st.pools, |st.textures|, st'.pools, |st'.textures|);
  }

  lemma {:induction false} ShapeLineKeepsWellformed(d: Dialect, sqrt: real -> real, st: State, line: Line)
    requires line.keyword in {"sphere", "ellipsoid", "f"}
    requires Wellformed(d, st, sqrt) && ReadShape(st, line).Success?
    ensures Wellformed(d, ReadShape(st, line).value, sqrt)
  {
    var st' := ReadShape(st, line).value;
    var n := |st.shapes|;
    assert ShapeOk(st'.shapes[n], st.pools, |st.textures|) by {
      assert st'.shapes[n].mtl == st.mtl && st'.shapes[n].tIdx == st.tIdx;
    }
    forall i | 0 <= i < |st'.shapes|
      ensures ShapeOk(st'.shapes[i], st'.pools, |st'.textures|)
    {
      if i < n {
        assert st'.shapes[i] == st'.shapes[..n][i];
      }
    }
  }

  lemma {:induction false} LightLineKeepsWellformed(d: Dialect, sqrt: real -> real, st: State, line: Line)
    requires line.keyword in {"light", "spotlight"} && d != RT1
    requires Wellformed(d, st, sqrt) && ReadLight(st, line).Success?
    ensures Wellformed(d, ReadLight(st, line).value, sqrt)
  {
    var st' := ReadLight(st, line).value;
    forall i | 0 <= i < |st'.lights|
      ensures ColorInUnit(st'.lights[i].c)
    {
      if i < |st.lights| {
        assert st'.lights[i] == st'.lights[..|st.lights|][i];
      }
    }
  }

  lemma {:induction false} SettingLineKeepsWellformed(d: Dialect, sqrt: real -> real, st: State, line: Line)
    requires line.keyword in {"eye", "viewdir", "updir", "fovv", "imsize", "bkgcolor", "parallel"}
    requires line.keyword == "parallel" ==> d == RT3
    requires Wellformed(d, st, sqrt) && ReadSetting(d, sqrt, st, line).Success?
    ensures Wellformed(d, ReadSetting(d, sqrt, st, line).value, sqrt)
  {
    var k := line.keyword;
    if k == "viewdir" || k == "updir" {
      DirectionLineKeepsWellformed(d, sqrt, st, line);
    } else {
      ValueLineKeepsWellformed(d, sqrt, st, line);
    }
  }

  lemma {:induction false} DirectionLineKeepsWellformed(d: Dialect, sqrt: real -> real, st: State, line: Line)
    requires line.keyword in {"viewdir", "updir"}
    requires Wellformed(d, st, sqrt) && ReadSetting(d, sqrt, st, line).Success?
    ensures Wellformed(d, ReadSetting(d, sqrt, st, line).value, sqrt)
  {
  }

  lemma {:induction false} MaterialLineKeepsWellformed(d: Dialect, sqrt: real -> real, st: State, line: Line)
    requires line.keyword == "mtlcolor"
    requires Wellformed(d, st, sqrt) && SetMaterial(d, st, line).Success?
    ensures Wellformed(d, SetMaterial(d, st, line).value, sqrt)
  {
  }

  lemma {:induction false} ValueLineKeepsWellformed(d: Dialect, sqrt: real -> real, st: State, line: Line)
    requires line.keyword in {"eye", "fovv", "imsize", "bkgcolor", "parallel"}
    requires line.keyword == "parallel" ==> d == RT3
    requires Wellformed(d, st, sqrt) && ReadSetting(d, sqrt, st, line).Success?
    ensures Wellformed(d, ReadSetting(d, sqrt, st, line).value, sqrt)
  {
  }

  /** Only `texture` lines touch the texture list and the counter, each adding one. */
  lemma {:induction false} StepTextures(d: Dialect, path: string, sqrt: real -> real, st: State, line: Line)
    requires Step(d, path, sqrt, st, line).Success?
    ensures var st', added := Step(d, path, sqrt, st, line).value, if line.keyword == "texture" then 1 else 0;
            |st'.textures| == |st.textures| + added && st'.tIdx == st.tIdx + added
  {
  }

  /** Only the six required keywords mark `gotit`, each its own entry. */
  lemma {:induction false} StepGot(d: Dialect, path: string, sqrt: real -> real, st: State, line: Line)
    requires Step(d, path, sqrt, st, line).Success?
    ensures Step(d, path, sqrt, st, line).value.got == st.got + GotBy(line.keyword)
  {
  }

  lemma {:induction false} RunNext(d: Dialect, path: string, sqrt: real -> real, lines: seq<Line>, i: nat, st: State)
    requires i < |lines| && Run(d, path, sqrt, lines, i) == Success(st)
    ensures Run(d, path, sqrt, lines, i + 1) == Step(d, path, sqrt, st, lines[i])
  {
  }

  lemma {:induction false} RunPrevious(d: Dialect, path: string, sqrt: real -> real, lines: seq<Line>, n: nat)
    requires 0 < n <= |lines| && Run(d, path, sqrt, lines, n).Success?
    ensures Run(d, path, sqrt, lines, n - 1).Success?
    ensures Run(d, path, sqrt, lines, n) == Step(d, path, sqrt, Run(d, path, sqrt, lines, n - 1).value, lines[n - 1])
  {
  }

  /** Every state the loop reaches satisfies the reader's checks. */
  lemma {:induction false} RunWellformed(d: Dialect, path: string, sqrt: real -> real, lines: seq<Line>, n: nat)
    requires n <= |lines| && Run(d, path, sqrt, lines, n).Success?
    ensures Wellformed(d, Run(d, path, sqrt, lines, n).value, sqrt)
  {
    if n > 0 {
      RunWellformed(d, path, sqrt, lines, n - 1);
      StepKeepsWellformed(d, path, sqrt, Run(d, path, sqrt, lines, n - 1).value, lines[n - 1]);
    }
  }

  predicate Seen(lines: seq<Line>, n: nat, key: Key)
    requires n <= |lines|
  {
    exists i :: 0 <= i < n && KeyOf(lines[i].keyword) == Some(key)
  }

  /** One more line adds to the seen keywords at most the one it carries. */
  lemma SeenNext(lines: seq<Line>, n: nat, before: set<Key>, after: set<Key>)
    requires 0 < n <= |lines|
    requires forall key :: key in before ==> Seen(lines, n - 1, key)
    requires after == before + GotBy(lines[n - 1].keyword)
    ensures forall key :: key in after ==> Seen(lines, n, key)
  {
    forall key | key in after
      ensures Seen(lines, n, key)
    {
      if key in before {
        var i :| 0 <= i < n - 1 && KeyOf(lines[i].keyword) == Some(key);
        assert 0 <= i < n && KeyOf(lines[i].keyword) == Some(key);
      } else {
        assert KeyOf(lines[n - 1].keyword) == Some(key);
      }
    }
  }

  /** A required keyword counts as seen only when a line carried it. */
  lemma {:induction false} GotOnlySeen(d: Dialect, path: string, sqrt: real -> real, lines: seq<Line>, n: nat)
    requires n <= |lines| && Run(d, path, sqrt, lines, n).Success?
    ensures forall key :: key in Run(d, path, sqrt, lines, n).value.got ==> Seen(lines, n, key)
  {
    if n > 0 {
      RunPrevious(d, path, sqrt, lines, n);
      GotOnlySeen(d, path, sqrt, lines, n - 1);
      var before := Run(d, path, sqrt, lines, n - 1).value;
      StepGot(d, path, sqrt, before, lines[n - 1]);
      SeenNext(lines, n, before.got, Run(d, path, sqrt, lines, n).value.got);
    }
  }

  /** A line with a keyword the version does not know makes the whole file fail. */
  lemma {:induction false} UnknownKeywordRejected(d: Dialect, filename: string, lines: seq<Line>, sqrt: real -> real, i: nat)
    requires i < |lines| && lines[i].keyword != "" && !Known(d, lines[i].keyword)
    ensures Parse(d, filename, lines, sqrt).Failure?
  {
    var path := GetPath(filename);
    FailureSticks(d, path, sqrt, lines, i + 1, |lines|);
  }

  /** An accepted file carried all six required keywords, its up and view
      directions are at least 0.05 apart in cross product, and every value the
      reader checks is in its range: field of view below 180, positive image size,
      colours and constants in [0, 1], positive radii and axes, texture coordinates
      in [0, 1], texture indices naming a loaded texture or -1, face indices inside
      the pools; the first version has no lights, no textures and no meshes, and
      its directions are within 0.05 of unit length. */
  lemma {:induction false} AcceptedFile(d: Dialect, filename: string, lines: seq<Line>, sqrt: real -> real)
    requires Parse(d, filename, lines, sqrt).Success?
    ensures forall key :: key in AllKeys ==> Seen(lines, |lines|, key)
    ensures var st := Parse(d, filename, lines, sqrt).value;
            Wellformed(d, st, sqrt) && AllKeys <= st.got
            && Norm(Cross(st.params.upDir, st.params.viewDir), sqrt) >= 0.05
  {
    var path := GetPath(filename);
    RunWellformed(d, path, sqrt, lines, |lines|);
    GotOnlySeen(d, path, sqrt, lines, |lines|);
  }

  /** A file that lacks one of the six keywords fails, however good its lines. */
  lemma {:induction false} MissingKeywordRejected(d: Dialect, filename: string, lines: seq<Line>, sqrt: real -> real, key: Key)
    requires key in AllKeys && !Seen(lines, |lines|, key)
    ensures Parse(d, filename, lines, sqrt).Failure?
  {
    if Parse(d, filename, lines, sqrt).Success? {
      AcceptedFile(d, filename, lines, sqrt);
    }
  }

  function CountTextures(lines: seq<Line>, n: nat): nat
    requires n <= |lines|
  {
    if n == 0 then 0
    else CountTextures(lines, n - 1) + if lines[n - 1].keyword == "texture" then 1 else 0
  }

  /** The texture counter: -1 plus the number of `texture` lines read, so the
      texture index a surface receives names the last texture loaded before it. */
  lemma {:induction false} TextureCounter(d: Dialect, path: string, sqrt: real -> real, lines: seq<Line>, n: nat)
    requires n <= |lines| && Run(d, path, sqrt, lines, n).Success?
    ensures Run(d, path, sqrt, lines, n).value.tIdx == CountTextures(lines, n) - 1
    ensures |Run(d, path, sqrt, lines, n).value.textures| == CountTextures(lines, n)
  {
    if n > 0 {
      RunPrevious(d, path, sqrt, lines, n);
      TextureCounter(d, path, sqrt, lines, n - 1);
      StepTextures(d, path, sqrt, Run(d, path, sqrt, lines, n - 1).value, lines[n - 1]);
    }
  }
}
