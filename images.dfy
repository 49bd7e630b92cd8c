// The frame buffer and its plain PPM ("P3") text, the grid of camera rays, and
// bilinear texture lookup.
module Images {
  import opened Numerics
  import opened Geometry
  import opened Rays
  import opened Text

  // ---------------------------------------------------------------- pixel addressing

  /** `image[r*width + c]`: the buffer is stored row after row. */
  function PixelIndex(width: int, r: int, c: int): int { r * width + c }

  /** Every (row, column) inside the image addresses an element of the buffer. */
  lemma {:induction false} PixelIndexInBounds(width: int, height: int, r: int, c: int)
    requires 0 <= r < height && 0 <= c < width
    ensures 0 <= PixelIndex(width, r, c) < width * height
  {
    assert r * width <= (height - 1) * width by {
      MulMonotone(r, height - 1, width);
    }
    assert (height - 1) * width + width == height * width;
  }

  lemma {:induction false} MulMonotone(a: int, b: int, k: int)
    requires a <= b && 0 <= k
    ensures a * k <= b * k
  {
    assert b * k - a * k == (b - a) * k;
  }

  /** Element k of the buffer is row k / width, column k % width, and back. */
  lemma {:induction false} RowMajor(width: int, r: int, c: int)
    requires 0 < width && 0 <= c < width
    ensures PixelIndex(width, r, c) / width == r && PixelIndex(width, r, c) % width == c
  {
    var k := PixelIndex(width, r, c);
    var q, m := k / width, k % width;
    assert q * width + m == r * width + c;
    assert (q - r) * width == c - m;
    if q > r {
      MulMonotone(1, q - r, width);
    } else if q < r {
      MulMonotone(1, r - q, width);
    }
  }

  /** Two positions inside the image never share an element. */
  lemma {:induction false} PixelIndexInjective(width: int, r: int, c: int, r': int, c': int)
    requires 0 < width && 0 <= c < width && 0 <= c' < width
    requires PixelIndex(width, r, c) == PixelIndex(width, r', c')
    ensures r == r' && c == c'
  {
    RowMajor(width, r, c);
    RowMajor(width, r', c');
  }

  // ---------------------------------------------------------------- the image

  /** An image of `width` x `height` pixels, row after row. The buffer is
      reserved but never resized in the source, so every write is undefined
      behaviour; the model gives the buffer its intended `width * height` elements. */
  class Image {
    const width: nat
    const height: nat
    const pixels: array<Color>

    ghost predicate Valid()
    {
      pixels.Length == width * height
    }

    /** Every pixel starts as the background colour. */
    constructor (width: nat, height: nat, bkg: Color)
      ensures this.width == width && this.height == height
      ensures Valid() && fresh(pixels)
      ensures forall i :: 0 <= i < pixels.Length ==> pixels[i] == bkg
    {
      this.width, this.height := width, height;
      var buf := new Color[width * height];
      for i := 0 to width * height
        invariant forall j :: 0 <= j < i ==> buf[j] == bkg
      {
        buf[i] := bkg;
      }
      pixels := buf;
    }

    /** `img(r, c)` read. */
    function At(r: int, c: int): Color
      requires Valid() && 0 <= r < height && 0 <= c < width
      reads this, pixels
    {
      PixelIndexInBounds(width, height, r, c);
      pixels[PixelIndex(width, r, c)]
    }

    /** `img(r, c) = color`: one pixel changes, every other keeps its colour. */
    method Set(r: int, c: int, color: Color)
      requires Valid() && 0 <= r < height && 0 <= c < width
      modifies pixels
      ensures Valid()
      ensures 0 <= PixelIndex(width, r, c) < pixels.Length
              && pixels[..] == old(pixels[..])[PixelIndex(width, r, c) := color]
      ensures At(r, c) == color
      ensures forall r', c' :: 0 <= r' < height && 0 <= c' < width && (r', c') != (r, c) ==>
                At(r', c') == old(At(r', c'))
    {
      PixelIndexInBounds(width, height, r, c);
      var k := PixelIndex(width, r, c);
      pixels[k] := color;
      forall r', c' | 0 <= r' < height && 0 <= c' < width && (r', c') != (r, c)
        ensures At(r', c') == old(At(r', c'))
      {
        PixelIndexInBounds(width, height, r', c');
        if PixelIndex(width, r, c) == PixelIndex(width, r', c') {
          PixelIndexInjective(width, r, c, r', c');
        }
      }
      assert pixels[..] == old(pixels[..])[k := color];
    }

    /** `save`: the successive `fprintf` writes, whose concatenation is the file. */
    method Save() returns (writes: seq<string>)
      requires Valid()
      ensures writes == HeaderWrites(width, height) + BodyWrites(pixels[..])
      ensures Concat(writes) == PpmText(width, height, pixels[..])
    {
      writes := HeaderWrites(width, height);
      for count := 0 to width * height
        invariant writes == HeaderWrites(width, height) + BodyWrites(pixels[..count])
      {
        ghost var before := writes;
        if count % PixPerLine == 0 {
          writes := writes + ["\n"];
        }
        var c := pixels[count];
        writes := writes + [PixelTriple(c)];
        assert writes == before + PixelWrites(count, c);
        NextPixelWrites(HeaderWrites(width, height), pixels[..], count);
      }
      assert pixels[..width * height] == pixels[..];
    }
  }

  // ---------------------------------------------------------------- the P3 text

  const PixPerLine: int := 5

  /** A channel in [0, 1] as the integer written: `round(255 * x)`. */
  function Channel(x: real): (n: int)
    ensures InUnit(x) ==> 0 <= n <= 255
  {
    Round(255.0 * x)
  }

  /** The three header writes: the magic number, the dimensions, the maximum value. */
  function HeaderWrites(width: int, height: int): seq<string>
  {
    ["P3\n", Itoa(width) + " " + Itoa(height) + "\n", "255"]
  }

  /** `"%i %i %i "` of a pixel. */
  function PixelTriple(c: Color): string
  {
    Itoa(Channel(c.r)) + " " + Itoa(Channel(c.g)) + " " + Itoa(Channel(c.b)) + " "
  }

  /** Pixel k: a line break before every fifth pixel, then its three values. */
  function PixelWrites(k: int, c: Color): seq<string>
  {
    (if k % PixPerLine == 0 then ["\n"] else []) + [PixelTriple(c)]
  }

  /** The writes for the pixels of ps, numbered from 0, one after another. */
  function BodyWrites(ps: seq<Color>): seq<string>
    decreases |ps|
  {
    if ps == [] then []
    else BodyWrites(ps[..|ps| - 1]) + PixelWrites(|ps| - 1, ps[|ps| - 1])
  }

  /** One more pixel written extends the writes by that pixel's writes. */
  lemma {:induction false} NextPixelWrites(head: seq<string>, ps: seq<Color>, k: nat)
    requires k < |ps|
    ensures head + BodyWrites(ps[..k]) + PixelWrites(k, ps[k]) == head + BodyWrites(ps[..k + 1])
  {
    assert ps[..k + 1] == ps[..k] + [ps[k]];
    BodyWritesOfSnoc(ps[..k], ps[k]);
  }

  lemma BodyWritesOfSnoc(ps: seq<Color>, c: Color)
    ensures BodyWrites(ps + [c]) == BodyWrites(ps) + PixelWrites(|ps|, c)
  {
    assert (ps + [c])[..|ps|] == ps;
  }

  function Concat(ws: seq<string>): string
    decreases |ws|
  {
    if ws == [] then "" else Concat(ws[..|ws| - 1]) + ws[|ws| - 1]
  }

  lemma {:induction false} ConcatOfAppend(a: seq<string>, b: seq<string>)
    ensures Concat(a + b) == Concat(a) + Concat(b)
    decreases |b|
  {
    if b == [] {
      assert a + b == a;
    } else {
      var pre := b[..|b| - 1];
      assert (a + b)[..|a + b| - 1] == a + pre;
      ConcatOfAppend(a, pre);
    }
  }

  /** The text of the file. */
  function PpmText(width: int, height: int, ps: seq<Color>): string
  {
    Concat(HeaderWrites(width, height) + BodyWrites(ps))
  }

  /** The three numbers a reader finds for each pixel, in order. */
  function Samples(ps: seq<Color>): (ts: seq<string>)
    ensures |ts| == 3 * |ps|
    decreases |ps|
  {
    if ps == [] then []
    else
      var c := ps[|ps| - 1];
      Samples(ps[..|ps| - 1]) + [Itoa(Channel(c.r)), Itoa(Channel(c.g)), Itoa(Channel(c.b))]
  }

  /** A word followed by a separator contributes exactly that word. */
  lemma {:induction false} TokensOfWordThen(w: string, sep: char, rest: string)
    requires w != [] && NoSpace(w) && IsSpace(sep)
    ensures Tokens(w + [sep] + rest) == [w] + Tokens(rest)
  {
    TokensOfAppend(w + [sep], rest);
    TokensOfAppend(w, [sep]);
    TokensOfWord(w);
    TokensOfSpace(sep);
  }

  lemma {:induction false} TokensOfTriple(c: Color)
    ensures var t := PixelTriple(c);
            t != [] && t[|t| - 1] == ' '
            && Tokens(t) == [Itoa(Channel(c.r)), Itoa(Channel(c.g)), Itoa(Channel(c.b))]
  {
    var r, g, b := Itoa(Channel(c.r)), Itoa(Channel(c.g)), Itoa(Channel(c.b));
    assert PixelTriple(c) == r + [' '] + (g + [' '] + (b + [' '] + []));
    TokensOfWordThen(r, ' ', g + [' '] + (b + [' '] + []));
    TokensOfWordThen(g, ' ', b + [' '] + []);
    TokensOfWordThen(b, ' ', []);
  }

  lemma {:induction false} TokensOfDimensions(width: int, height: int)
    ensures var t := Itoa(width) + " " + Itoa(height) + "\n";
            t[|t| - 1] == '\n' && Tokens(t) == [Itoa(width), Itoa(height)]
  {
    var w, h := Itoa(width), Itoa(height);
    assert w + " " + h + "\n" == w + [' '] + (h + ['\n'] + []);
    TokensOfWordThen(w, ' ', h + ['\n'] + []);
    TokensOfWordThen(h, '\n', []);
  }

  /** The text of the pixel writes, pixel by pixel. */
  function BodyText(ps: seq<Color>): (t: string)
    ensures ps != [] ==> t != [] && t[0] == '\n' && t[|t| - 1] == ' '
    decreases |ps|
  {
    if ps == [] then ""
    else
      var k := |ps| - 1;
      BodyText(ps[..k]) + LineBreak(k) + PixelTriple(ps[k])
  }

  function LineBreak(k: int): string
  {
    if k % PixPerLine == 0 then "\n" else ""
  }

  lemma {:induction false} ConcatOfPixel(k: int, c: Color)
    ensures Concat(PixelWrites(k, c)) == LineBreak(k) + PixelTriple(c)
  {
    var triple := PixelTriple(c);
    assert Concat([triple]) == triple;
    if k % PixPerLine == 0 {
      ConcatOfAppend(["\n"], [triple]);
      assert Concat(["\n"]) == "\n";
    } else {
      assert PixelWrites(k, c) == [triple];
    }
  }

  lemma {:induction false} ConcatOfBody(ps: seq<Color>)
    ensures Concat(BodyWrites(ps)) == BodyText(ps)
    decreases |ps|
  {
    if ps != [] {
      var k := |ps| - 1;
      var pre, c := ps[..k], ps[k];
      ConcatOfBody(pre);
      ConcatOfNextPixel(BodyWrites(pre), BodyText(pre), k, c);
      assert BodyWrites(ps) == BodyWrites(pre) + PixelWrites(k, c);
      assert BodyText(ps) == BodyText(pre) + LineBreak(k) + PixelTriple(c);
    }
  }

  lemma {:induction false} ConcatOfNextPixel(ws: seq<string>, t: string, k: int, c: Color)
    requires Concat(ws) == t
    ensures Concat(ws + PixelWrites(k, c)) == t + LineBreak(k) + PixelTriple(c)
  {
    ConcatOfAppend(ws, PixelWrites(k, c));
    ConcatOfPixel(k, c);
  }

  /** The fields of the body are the pixel values. */
  lemma {:induction false} TokensOfBody(ps: seq<Color>)
    ensures Tokens(BodyText(ps)) == Samples(ps)
    decreases |ps|
  {
    if ps != [] {
      var k := |ps| - 1;
      var pre, c := ps[..k], ps[k];
      TokensOfBody(pre);
      TokensOfTriple(c);
      var a := BodyText(pre);
      var triple := PixelTriple(c);
      if k % PixPerLine == 0 {
        assert Tokens(a + "\n") == Tokens(a) by {
          TokensOfAppend(a, "\n");
          TokensOfSpace('\n');
        }
        TokensOfAppend(a + "\n", triple);
      } else {
        assert a + LineBreak(k) == a;
        TokensOfAppend(a, triple);
      }
    }
  }

  /** A reader splitting the saved text at blanks and newlines finds "P3", the
      width, the height, 255, then three numbers per pixel in buffer order. */
  lemma {:induction false} SavedTokens(width: int, height: int, ps: seq<Color>)
    ensures Tokens(PpmText(width, height, ps))
         == ["P3", Itoa(width), Itoa(height), "255"] + Samples(ps)
  {
    var head := Concat(HeaderWrites(width, height));
    var body := BodyText(ps);
    TokensOfHeader(width, height);
    TokensOfBody(ps);
    ConcatOfBody(ps);
    ConcatOfAppend(HeaderWrites(width, height), BodyWrites(ps));
    TokensOfAppend(head, body);
  }

  lemma {:induction false} TokensOfHeader(width: int, height: int)
    ensures var head := Concat(HeaderWrites(width, height));
            head[|head| - 1] == '5' && Tokens(head) == ["P3", Itoa(width), Itoa(height), "255"]
  {
    var w, h := Itoa(width), Itoa(height);
    ConcatOfThree("P3\n", w + " " + h + "\n", "255");
    TokensOfFourWords("P3", w, h, "255");
    assert "P3\n" == "P3" + ['\n'];
    assert w + " " + h + "\n" == w + [' '] + h + ['\n'];
  }

  /** Four words separated by a newline, a blank and a newline. */
  lemma {:induction false} TokensOfFourWords(a: string, b: string, c: string, d: string)
    requires a != [] && NoSpace(a) && b != [] && NoSpace(b)
    requires c != [] && NoSpace(c) && d != [] && NoSpace(d)
    ensures var t := a + ['\n'] + (b + [' '] + c + ['\n']) + d;
            t[|t| - 1] == d[|d| - 1] && Tokens(t) == [a, b, c, d]
  {
    Rebracketed(a, b, c, d);
    TokensOfThreeWords(b, c, d);
    TokensOfWordThen(a, '\n', b + [' '] + (c + ['\n'] + d));
  }

  lemma {:induction false} TokensOfThreeWords(b: string, c: string, d: string)
    requires b != [] && NoSpace(b) && c != [] && NoSpace(c) && d != [] && NoSpace(d)
    ensures Tokens(b + [' '] + (c + ['\n'] + d)) == [b, c, d]
  {
    TokensOfTwoWords(c, d);
    TokensOfWordThen(b, ' ', c + ['\n'] + d);
  }

  lemma {:induction false} TokensOfTwoWords(c: string, d: string)
    requires c != [] && NoSpace(c) && d != [] && NoSpace(d)
    ensures Tokens(c + ['\n'] + d) == [c, d]
  {
    TokensOfWordThen(c, '\n', d);
    TokensOfWord(d);
  }

  lemma Rebracketed(a: string, b: string, c: string, d: string)
    requires d != []
    ensures var t := a + ['\n'] + (b + [' '] + c + ['\n']) + d;
            t == a + ['\n'] + (b + [' '] + (c + ['\n'] + d)) && t[|t| - 1] == d[|d| - 1]
  {
  }

  lemma ConcatOfThree(a: string, b: string, c: string)
    ensures Concat([a, b, c]) == a + b + c
  {
    assert [a, b, c][..2] == [a, b];
    assert Concat([a, b, c]) == Concat([a, b]) + c;
    assert [a, b][..1] == [a];
    assert Concat([a, b]) == Concat([a]) + b;
    assert [a][..0] == [];
    assert Concat([a]) == "" + a == a;
  }

  /** Reading the saved text back gives the dimensions and every rounded channel. */
  lemma {:induction false} SavedTextReadsBack(width: int, height: int, ps: seq<Color>, k: int)
    requires 0 <= k < |ps|
    ensures var ts := Tokens(PpmText(width, height, ps));
            |ts| == 4 + 3 * |ps|
            && Atoi(ts[1]) == Some(width) && Atoi(ts[2]) == Some(height)
            && Atoi(ts[4 + 3 * k]) == Some(Channel(ps[k].r))
            && Atoi(ts[5 + 3 * k]) == Some(Channel(ps[k].g))
            && Atoi(ts[6 + 3 * k]) == Some(Channel(ps[k].b))
  {
    SavedTokens(width, height, ps);
    ReadBack(Tokens(PpmText(width, height, ps)), ["P3", Itoa(width), Itoa(height), "255"], width, height, ps, k);
  }

  lemma {:induction false} ReadBack(ts: seq<string>, head: seq<string>, width: int, height: int, ps: seq<Color>, k: int)
    requires 0 <= k < |ps|
    requires |head| == 4 && head[1] == Itoa(width) && head[2] == Itoa(height)
    requires ts == head + Samples(ps)
    ensures |ts| == 4 + 3 * |ps|
            && Atoi(ts[1]) == Some(width) && Atoi(ts[2]) == Some(height)
            && Atoi(ts[4 + 3 * k]) == Some(Channel(ps[k].r))
            && Atoi(ts[5 + 3 * k]) == Some(Channel(ps[k].g))
            && Atoi(ts[6 + 3 * k]) == Some(Channel(ps[k].b))
  {
    PixelWordsAt(head, ps, k);
    WordsReadBack(ts, width, height, |ps|, k, Channel(ps[k].r), Channel(ps[k].g), Channel(ps[k].b));
  }

  /** The three samples of pixel k sit at positions 4 + 3k .. 6 + 3k after the header. */
  lemma {:induction false} PixelWordsAt(head: seq<string>, ps: seq<Color>, k: int)
    requires |head| == 4 && 0 <= k < |ps|
    ensures var ts := head + Samples(ps);
            |ts| == 4 + 3 * |ps|
            && ts[4 + 3 * k] == Itoa(Channel(ps[k].r))
            && ts[5 + 3 * k] == Itoa(Channel(ps[k].g))
            && ts[6 + 3 * k] == Itoa(Channel(ps[k].b))
  {
    SamplesAt(ps, k);
    ShiftedTriple(head, Samples(ps), k, Itoa(Channel(ps[k].r)), Itoa(Channel(ps[k].g)), Itoa(Channel(ps[k].b)));
  }

  lemma {:induction false} ShiftedTriple(head: seq<string>, ss: seq<string>, k: int, x: string, y: string, z: string)
    requires |head| == 4 && 0 <= k && 3 * k + 2 < |ss|
    requires ss[3 * k] == x && ss[3 * k + 1] == y && ss[3 * k + 2] == z
    ensures (head + ss)[4 + 3 * k] == x && (head + ss)[5 + 3 * k] == y && (head + ss)[6 + 3 * k] == z
  {
  }

  lemma {:induction false} WordsReadBack(ts: seq<string>, width: int, height: int, n: int, k: int, r: int, g: int, b: int)
    requires 0 <= k < n && |ts| == 4 + 3 * n
    requires ts[1] == Itoa(width) && ts[2] == Itoa(height)
    requires ts[4 + 3 * k] == Itoa(r) && ts[5 + 3 * k] == Itoa(g) && ts[6 + 3 * k] == Itoa(b)
    ensures Atoi(ts[1]) == Some(width) && Atoi(ts[2]) == Some(height)
    ensures Atoi(ts[4 + 3 * k]) == Some(r) && Atoi(ts[5 + 3 * k]) == Some(g) && Atoi(ts[6 + 3 * k]) == Some(b)
  {
    AtoiItoa(width);
    AtoiItoa(height);
    AtoiItoa(r);
    AtoiItoa(g);
    AtoiItoa(b);
  }

  lemma {:induction false} SamplesAt(ps: seq<Color>, k: int)
    requires 0 <= k < |ps|
    ensures Samples(ps)[3 * k] == Itoa(Channel(ps[k].r))
    ensures Samples(ps)[3 * k + 1] == Itoa(Channel(ps[k].g))
    ensures Samples(ps)[3 * k + 2] == Itoa(Channel(ps[k].b))
    decreases |ps|
  {
    var pre := ps[..|ps| - 1];
    if k < |ps| - 1 {
      SamplesAt(pre, k);
    }
  }

  // ---------------------------------------------------------------- the viewing window

  /** The scene parameters the renderer reads from the scene file (`Params`). */
  datatype Params = Params(eye: Vec3, viewDir: Vec3, upDir: Vec3, fovv: real,
                           width: int, height: int, bkg: Color, parallel: bool)

  /** `PI` of the image code. */
  const ImagePi: real := 3.14159265

  /** The distance between neighbouring pixels along an edge from a to b that holds
      k pixels; zero for a single pixel, where the source would divide by zero. */
  function PixelStep(a: Vec3, b: Vec3, k: int): Vec3
  {
    if k == 1 then Zero else Div(Sub(b, a), (k - 1) as real)
  }

  /** The window: a plane one unit along the view direction (through the eye in
      parallel mode) spanned by `u` (rightwards) and `v` (upwards), sampled on a
      `width` x `height` grid of pixel positions from the upper-left corner. */
  class ViewWindow {
    const parallel: bool
    const eye: Vec3
    const viewDir: Vec3
    const u: Vec3
    const v: Vec3
    const aspect: real
    const windowHeight: real
    const windowWidth: real
    /** The distance of the window plane from the eye used for the corners. */
    const offset: real
    const ul: Vec3
    const ur: Vec3
    const ll: Vec3
    const lr: Vec3
    const rows: int
    /** `d` as the constructor leaves it: 1 in both modes. */
    const d: real
    const columns: int
    var allRays: seq<PixelRay>

    /** The window fixed by the parameters. A one-pixel-wide (or -high) image makes
        the source divide by zero; the model takes a zero step instead. */
    ghost predicate Fits(p: Params, m: Math)
    {
      && parallel == p.parallel && eye == p.eye && viewDir == p.viewDir
      && u == Normalized(Cross(p.viewDir, p.upDir), m.sqrt)
      && v == Normalized(Cross(u, p.viewDir), m.sqrt)
      && offset == (if p.parallel then 0.0 else 1.0)
      && ul == Sub(Add(Add(eye, Scale(offset, viewDir)), Scale(windowHeight / 2.0, v)), Scale(windowWidth / 2.0, u))
      && ur == Add(Add(Add(eye, Scale(offset, viewDir)), Scale(windowHeight / 2.0, v)), Scale(windowWidth / 2.0, u))
      && ll == Sub(Sub(Add(eye, Scale(offset, viewDir)), Scale(windowHeight / 2.0, v)), Scale(windowWidth / 2.0, u))
      && columns == p.width && rows == p.height
    }

    /** `dh` and `dv`, the steps to the next column and to the next row, which the
        constructor derives from the corners and the pixel counts. */
    function Dh(): Vec3 { PixelStep(ul, ur, columns) }
    function Dv(): Vec3 { PixelStep(ul, ll, rows) }

    /** The grid position of pixel (r, c): `ul + c*dh + r*dv`. */
    function Corner(r: int, c: int): Vec3
    {
      Add(Add(ul, Scale(c as real, Dh())), Scale(r as real, Dv()))
    }

    /** The ray of pixel (r, c): from the grid position along the view direction in
        parallel mode, from the eye through the grid position otherwise. */
    function GridRay(r: int, c: int, sqrt: real -> real): PixelRay
    {
      var corner := Corner(r, c);
      PixelRay(MakeRay(if parallel then corner else eye, if parallel then viewDir else corner, parallel, sqrt), r, c)
    }

    /** `ViewWindow(params)`: one ray per pixel, row after row. */
    constructor (p: Params, m: Math)
      requires 0 < p.width && 0 < p.height
      ensures Fits(p, m) && d == 1.0
      ensures aspect == p.width as real / p.height as real
      ensures windowHeight == 2.0 * 1.0 * m.tan((p.fovv * ImagePi) / (2.0 * 180.0))
      ensures windowWidth == windowHeight * aspect
      ensures |allRays| == p.width * p.height
      ensures forall k :: 0 <= k < |allRays| ==> allRays[k] == GridRay(k / p.width, k % p.width, m.sqrt)
    {
      parallel := p.parallel;
      eye := p.eye;
      viewDir := p.viewDir;
      var a := p.width as real / p.height as real;
      aspect := a;
      var uu := Normalized(Cross(p.viewDir, p.upDir), m.sqrt);
      var vv := Normalized(Cross(uu, p.viewDir), m.sqrt);
      u, v := uu, vv;
      var h := 2.0 * 1.0 * m.tan((p.fovv * ImagePi) / (2.0 * 180.0));
      var w := h * a;
      windowHeight, windowWidth := h, w;
      var off := if p.parallel then 0.0 else 1.0;
      offset := off;
      var ul' := Sub(Add(Add(p.eye, Scale(off, p.viewDir)), Scale(h / 2.0, vv)), Scale(w / 2.0, uu));
      var ur' := Add(Add(Add(p.eye, Scale(off, p.viewDir)), Scale(h / 2.0, vv)), Scale(w / 2.0, uu));
      var ll' := Sub(Sub(Add(p.eye, Scale(off, p.viewDir)), Scale(h / 2.0, vv)), Scale(w / 2.0, uu));
      ul, ur, ll := ul', ur', ll';
      lr := Add(Sub(Add(p.eye, Scale(off, p.viewDir)), Scale(h / 2.0, vv)), Scale(w / 2.0, uu));
      d := 1.0;
      columns, rows := p.width, p.height;
      new;
      allRays := GridRays(p.width, p.height, m.sqrt);
    }

    /** Pushing the ray of pixel (r, c) at position r * width + c keeps the grid in
        row-major order. */
    lemma {:induction false} GridRayAppended(rays: seq<PixelRay>, width: int, r: int, c: int, sqrt: real -> real)
      requires 0 < width && 0 <= c < width && |rays| == r * width + c
      requires forall k :: 0 <= k < |rays| ==> rays[k] == GridRay(k / width, k % width, sqrt)
      ensures forall k :: 0 <= k <= |rays| ==>
        (rays + [GridRay(r, c, sqrt)])[k] == GridRay(k / width, k % width, sqrt)
    {
      RowMajor(width, r, c);
      assert PixelIndex(width, r, c) == |rays|;
    }

    /** The nested loops over rows and columns, pushing one ray per pixel. */
    method GridRays(width: int, height: int, sqrt: real -> real) returns (rays: seq<PixelRay>)
      requires 0 < width && 0 <= height
      ensures |rays| == width * height
      ensures forall k :: 0 <= k < |rays| ==> rays[k] == GridRay(k / width, k % width, sqrt)
    {
      rays := [];
      for r := 0 to height
        invariant |rays| == r * width
        invariant forall k :: 0 <= k < |rays| ==> rays[k] == GridRay(k / width, k % width, sqrt)
      {
        for c := 0 to width
          invariant |rays| == r * width + c
          invariant forall k :: 0 <= k < |rays| ==> rays[k] == GridRay(k / width, k % width, sqrt)
        {
          var corner := Corner(r, c);
          var ray := MakeRay(if parallel then corner else eye, if parallel then viewDir else corner,
                             parallel, sqrt);
          GridRayAppended(rays, width, r, c, sqrt);
          rays := rays + [PixelRay(ray, r, c)];
        }
      }
    }
  }

  /** Each pixel of the image gets exactly its own ray: the ray at position
      r * width + c is tagged (r, c). */
  lemma {:induction false} EveryPixelHasItsRay(rays: seq<PixelRay>, width: int, height: int, r: int, c: int)
    requires 0 < width && |rays| == width * height
    requires forall k :: 0 <= k < |rays| ==> rays[k].r == k / width && rays[k].c == k % width
    requires 0 <= r < height && 0 <= c < width
    ensures 0 <= PixelIndex(width, r, c) < |rays|
    ensures rays[PixelIndex(width, r, c)].r == r && rays[PixelIndex(width, r, c)].c == c
  {
    PixelIndexInBounds(width, height, r, c);
    RowMajor(width, r, c);
  }

  /** Moving within a plane orthogonal to n keeps the offset along n. */
  lemma {:induction false} StepInPlane(q: Vec3, w: Vec3, s: real, o: Vec3, n: Vec3)
    requires Dot(w, n) == 0.0
    ensures Dot(Sub(Add(q, Scale(s, w)), o), n) == Dot(Sub(q, o), n)
    ensures Dot(Sub(Sub(q, Scale(s, w)), o), n) == Dot(Sub(q, o), n)
  {
    assert Sub(Add(q, Scale(s, w)), o) == Add(Sub(q, o), Scale(s, w));
    assert Sub(Sub(q, Scale(s, w)), o) == Sub(Sub(q, o), Scale(s, w));
    DotLinearLeft(Sub(q, o), Scale(s, w), n, 0.0);
    DotLinearLeft(w, w, n, s);
  }

  /** `u` and `v` are orthogonal to the view direction. */
  lemma {:induction false} WindowAxesOrthogonal(vw: ViewWindow, p: Params, m: Math)
    requires vw.Fits(p, m)
    ensures Dot(vw.u, p.viewDir) == 0.0 && Dot(vw.v, p.viewDir) == 0.0
  {
    CrossOrthogonal(p.viewDir, p.upDir);
    NormalOrthogonal(Cross(p.viewDir, p.upDir), p.viewDir, m.sqrt);
    CrossOrthogonal(vw.u, p.viewDir);
    NormalOrthogonal(Cross(vw.u, p.viewDir), p.viewDir, m.sqrt);
  }

  /** The step between neighbouring pixels is orthogonal to the view direction. */
  lemma {:induction false} StepOrthogonal(a: Vec3, b: Vec3, o: Vec3, n: Vec3, k: int)
    requires Dot(Sub(a, o), n) == Dot(Sub(b, o), n)
    ensures Dot(PixelStep(a, b, k), n) == 0.0
  {
    if k != 1 {
      var x := Sub(b, a);
      assert x == Sub(Sub(b, o), Sub(a, o));
      DotLinearLeft(Sub(b, o), Sub(a, o), n, 0.0);
      DivIsScale(x, (k - 1) as real);
      DotLinearLeft(x, x, n, 1.0 / (k - 1) as real);
    }
  }

  /** Every grid position lies in the window plane: at offset 1 along the view
      direction in perspective mode, through the eye in parallel mode. */
  lemma {:induction false} GridPointOnPlane(vw: ViewWindow, p: Params, m: Math, r: int, c: int)
    requires vw.Fits(p, m)
    ensures Dot(Sub(vw.Corner(r, c), p.eye), p.viewDir) == vw.offset * Dot(p.viewDir, p.viewDir)
  {
    var n, e := p.viewDir, p.eye;
    var hh, hw := vw.windowHeight / 2.0, vw.windowWidth / 2.0;
    WindowAxesOrthogonal(vw, p, m);
    var base := Add(e, Scale(vw.offset, n));
    assert Sub(base, e) == Scale(vw.offset, n);
    DotLinearLeft(n, n, n, vw.offset);
    StepInPlane(base, vw.v, hh, e, n);
    StepInPlane(Add(base, Scale(hh, vw.v)), vw.u, hw, e, n);
    StepInPlane(Sub(base, Scale(hh, vw.v)), vw.u, hw, e, n);
    StepOrthogonal(vw.ul, vw.ur, e, n, p.width);
    StepOrthogonal(vw.ul, vw.ll, e, n, p.height);
    StepInPlane(vw.ul, vw.Dh(), c as real, e, n);
    StepInPlane(Add(vw.ul, Scale(c as real, vw.Dh())), vw.Dv(), r as real, e, n);
  }

  /** Parallel mode: each ray starts at its grid position, in the plane through
      the eye, and travels along the view direction as given. */
  lemma {:induction false} ParallelRays(vw: ViewWindow, p: Params, m: Math, r: int, c: int)
    requires vw.Fits(p, m) && p.parallel
    ensures vw.GridRay(r, c, m.sqrt).ray == Ray(vw.Corner(r, c), p.viewDir)
    ensures Dot(Sub(vw.GridRay(r, c, m.sqrt).ray.org, p.eye), p.viewDir) == 0.0
  {
    GridPointOnPlane(vw, p, m, r, c);
  }

  /** Perspective mode: each ray starts at the eye and has unit direction pointing
      at its grid position, which lies one unit along the view direction. The grid
      position is taken to differ from the eye. */
  lemma {:induction false} PerspectiveRays(vw: ViewWindow, p: Params, m: Math, r: int, c: int)
    requires vw.Fits(p, m) && !p.parallel
    requires IsSqrt(m.sqrt) && Norm(Sub(vw.Corner(r, c), p.eye), m.sqrt) != 0.0
    ensures vw.GridRay(r, c, m.sqrt).ray.org == p.eye
    ensures var dir := vw.GridRay(r, c, m.sqrt).ray.dir;
            Dot(dir, dir) == 1.0
            && Add(p.eye, Scale(Norm(Sub(vw.Corner(r, c), p.eye), m.sqrt), dir)) == vw.Corner(r, c)
    ensures Dot(Sub(vw.Corner(r, c), p.eye), p.viewDir) == Dot(p.viewDir, p.viewDir)
  {
    var corner := vw.Corner(r, c);
    GridPointOnPlane(vw, p, m, r, c);
    MakeRayPointsToTarget(p.eye, corner, m.sqrt);
  }
}
