// Textures: an image read from a plain PPM file, sampled at coordinates in
// [0, 1] by bilinear interpolation between the four surrounding texels.
module Textures {
  import opened Numerics
  import opened Geometry
  import opened Images

  /** A texel as read from the file: each integer channel divided by 255. */
  function Decode(rgb: (int, int, int)): (c: Color)
    ensures 0 <= rgb.0 <= 255 && 0 <= rgb.1 <= 255 && 0 <= rgb.2 <= 255 ==> ColorInUnit(c)
  {
    Color(rgb.0 as real / 255.0, rgb.1 as real / 255.0, rgb.2 as real / 255.0)
  }

  /** Reading a channel back and writing it again gives the integer of the file:
      `Decode` undoes the `Channel` conversion of the image writer. */
  lemma {:induction false} ChannelOfDecoded(v: int)
    ensures Channel(v as real / 255.0) == v
  {
    assert 255.0 * (v as real / 255.0) == v as real;
  }

  /** `u > 1.0 ? 1.0 : (u < 0.0 ? 0.0 : u)`. */
  function ClampUnit(u: real): (r: real)
    ensures InUnit(r)
    ensures InUnit(u) ==> r == u
    ensures u < 0.0 ==> r == 0.0
    ensures u > 1.0 ==> r == 1.0
  {
    if u > 1.0 then 1.0 else if u < 0.0 then 0.0 else u
  }

  /** Where coordinate `u` falls along a line of `n` texels: the texel at or before
      `u * (n - 1)` (the cast to int) and the fraction of the way to the next one. */
  function Locate(u: real, n: nat): (p: (int, real))
    requires 0 < n
    ensures 0 <= p.0 < n && 0.0 <= p.1 < 1.0
    ensures p.0 + 1 == n ==> p.1 == 0.0
    ensures p.0 as real + p.1 == ClampUnit(u) * (n - 1) as real
  {
    var x := ClampUnit(u) * (n - 1) as real;
    ScaledUnitWithin(ClampUnit(u), (n - 1) as real);
    (x.Floor, x - x.Floor as real)
  }

  lemma ScaledUnitWithin(u: real, k: real)
    requires InUnit(u) && 0.0 <= k
    ensures 0.0 <= u * k <= k
  {
    MulNonNegative(u, k);
    MulNonNegative(1.0 - u, k);
  }

  /** The coordinate of texel `c` of a line of `n`: `c / (n - 1)`, and 0 on a line
      of one texel. */
  function TexelCoord(c: nat, n: nat): (u: real)
    requires c < n
    ensures InUnit(u)
  {
    if n == 1 then 0.0
    else
      assert c as real <= (n - 1) as real;
      c as real / (n - 1) as real
  }

  /** A texel's own coordinate lands on that texel with nothing left over. */
  lemma {:induction false} LocateAtTexel(c: nat, n: nat)
    requires c < n
    ensures Locate(TexelCoord(c, n), n) == (c, 0.0)
  {
    var u := TexelCoord(c, n);
    var k := (n - 1) as real;
    if n > 1 {
      DivTimes(c as real, k);
    }
    assert u * k == c as real;
    MulCongruence(ClampUnit(u), k, u, k);
    var p := Locate(u, n);
    assert p.0 as real + p.1 == c as real;
  }

  /** The two ends of the unit interval land on the first and on the last texel. */
  lemma {:induction false} LocateEnds(n: nat)
    requires 0 < n
    ensures Locate(0.0, n) == (0, 0.0)
    ensures Locate(1.0, n) == (n - 1, 0.0)
  {
  }

  /** The four bilinear weights of a point a fraction `a` of the way along a row and
      `b` of the way down a column: they are non-negative and sum to one. */
  lemma {:induction false} BilinearWeights(a: real, b: real)
    requires InUnit(a) && InUnit(b)
    ensures 0.0 <= (1.0 - a) * (1.0 - b) && 0.0 <= a * (1.0 - b) && 0.0 <= (1.0 - a) * b && 0.0 <= a * b
    ensures (1.0 - a) * (1.0 - b) + a * (1.0 - b) + (1.0 - a) * b + a * b == 1.0
  {
    MulNonNegative(1.0 - a, 1.0 - b);
    MulNonNegative(a, 1.0 - b);
    MulNonNegative(1.0 - a, b);
    MulNonNegative(a, b);
  }

  /** Four texels weighted by their bilinear weights. */
  function Blend(a: real, b: real, c00: Color, c01: Color, c10: Color, c11: Color): Color
  {
    CAdd(CAdd(CAdd(CScale((1.0 - a) * (1.0 - b), c00), CScale(a * (1.0 - b), c01)),
              CScale((1.0 - a) * b, c10)), CScale(a * b, c11))
  }

  /** A texture: an image whose pixels came from a texture file. */
  class Texture {
    const img: Image

    /** `Texture(file)`: `width` and `height` are the numbers of the file's header and
        `values` its r g b integers after the header, pixel after pixel. */
    constructor Load(width: nat, height: nat, values: seq<(int, int, int)>)
      requires width * height <= |values|
      ensures img.width == width && img.height == height
      ensures img.Valid() && fresh(img) && fresh(img.pixels)
      ensures forall k :: 0 <= k < width * height ==> img.pixels[k] == Decode(values[k])
    {
      img := new Image(width, height, Black);
      new;
      FillTexels(img, values);
    }

    /** `texture(u, v)`: both coordinates are clamped to [0, 1]; the texel at or before
        the sample point is weighted by (1 - alpha)(1 - beta), and its right, lower and
        diagonal neighbours, where they exist, by their bilinear weights. */
    function Sample(u: real, v: real): Color
      requires img.Valid() && 0 < img.width && 0 < img.height
      reads this, img, img.pixels
    {
      var (i, alpha) := Locate(u, img.width);
      var (j, beta) := Locate(v, img.height);
      var ret := CScale((1.0 - alpha) * (1.0 - beta), img.At(j, i));
      var ret := if i + 1 < img.width then CAdd(ret, CScale(alpha * (1.0 - beta), img.At(j, i + 1))) else ret;
      var ret := if j + 1 < img.height then CAdd(ret, CScale((1.0 - alpha) * beta, img.At(j + 1, i))) else ret;
      if i + 1 < img.width && j + 1 < img.height then CAdd(ret, CScale(alpha * beta, img.At(j + 1, i + 1)))
      else ret
    }

    /** Clamp-to-edge bilinear filtering: all four texels around the point, a
        neighbour past the last row or column replaced by the edge texel. */
    function Bilinear(u: real, v: real): Color
      requires img.Valid() && 0 < img.width && 0 < img.height
      reads this, img, img.pixels
    {
      var (i, alpha) := Locate(u, img.width);
      var (j, beta) := Locate(v, img.height);
      var i1 := if i + 1 < img.width then i + 1 else i;
      var j1 := if j + 1 < img.height then j + 1 else j;
      Blend(alpha, beta, img.At(j, i), img.At(j, i1), img.At(j1, i), img.At(j1, i1))
    }
  }

  /** Fills an image with decoded texels, row after row: element `index` goes to row
      `index / width`, column `index % width`. */
  method FillTexels(im: Image, values: seq<(int, int, int)>)
    requires im.Valid() && im.width * im.height <= |values|
    modifies im.pixels
    ensures im.Valid()
    ensures forall k :: 0 <= k < im.pixels.Length ==> im.pixels[k] == Decode(values[k])
  {
    var width, height := im.width, im.height;
    for index := 0 to width * height
      invariant im.Valid()
      invariant forall k :: 0 <= k < index ==> im.pixels[k] == Decode(values[k])
    {
      RowOfIndex(index, width, height);
      im.Set(index / width, index % width, Decode(values[index]));
    }
  }

  /** An element of the buffer lies in some row of the image. */
  lemma {:induction false} RowOfIndex(index: int, width: int, height: int)
    requires 0 <= index < width * height && 0 <= height
    ensures 0 < width
    ensures 0 <= index / width < height && 0 <= index % width < width
    ensures PixelIndex(width, index / width, index % width) == index
  {
    if width <= 0 {
      MulMonotone(width, 0, height);
    }
    if index / width >= height {
      MulMonotone(height, index / width, width);
    }
  }

  /** The lookup is the clamp-to-edge bilinear filter: the weights it leaves out
      at the last row or column are zero. */
  lemma {:induction false} SampleIsBilinear(t: Texture, u: real, v: real)
    requires t.img.Valid() && 0 < t.img.width && 0 < t.img.height
    ensures t.Sample(u, v) == t.Bilinear(u, v)
  {
    var i, j := Locate(u, t.img.width).0, Locate(v, t.img.height).0;
    if i + 1 < t.img.width && j + 1 < t.img.height {
      SampleCases(t, u, v);
      BilinearCases(t, u, v);
    } else if i + 1 < t.img.width {
      LastRowIsBilinear(t, u, v);
    } else if j + 1 < t.img.height {
      LastColumnIsBilinear(t, u, v);
    } else {
      LastTexelIsBilinear(t, u, v);
    }
  }

  lemma {:induction false} LastRowIsBilinear(t: Texture, u: real, v: real)
    requires t.img.Valid() && 0 < t.img.width && 0 < t.img.height
    requires Locate(u, t.img.width).0 + 1 < t.img.width && Locate(v, t.img.height).0 + 1 == t.img.height
    ensures t.Sample(u, v) == t.Bilinear(u, v)
  {
    var img := t.img;
    var (i, a) := Locate(u, img.width);
    var (j, b) := Locate(v, img.height);
    SampleCases(t, u, v);
    BilinearCases(t, u, v);
    BlendDropsRow(a, b, img.At(j, i), img.At(j, i + 1), img.At(j, i), img.At(j, i + 1));
  }

  lemma {:induction false} LastColumnIsBilinear(t: Texture, u: real, v: real)
    requires t.img.Valid() && 0 < t.img.width && 0 < t.img.height
    requires Locate(u, t.img.width).0 + 1 == t.img.width && Locate(v, t.img.height).0 + 1 < t.img.height
    ensures t.Sample(u, v) == t.Bilinear(u, v)
  {
    var img := t.img;
    var (i, a) := Locate(u, img.width);
    var (j, b) := Locate(v, img.height);
    SampleCases(t, u, v);
    BilinearCases(t, u, v);
    BlendDropsColumn(a, b, img.At(j, i), img.At(j, i), img.At(j + 1, i), img.At(j + 1, i));
  }

  lemma {:induction false} LastTexelIsBilinear(t: Texture, u: real, v: real)
    requires t.img.Valid() && 0 < t.img.width && 0 < t.img.height
    requires Locate(u, t.img.width).0 + 1 == t.img.width && Locate(v, t.img.height).0 + 1 == t.img.height
    ensures t.Sample(u, v) == t.Bilinear(u, v)
  {
    var img := t.img;
    var (i, a) := Locate(u, img.width);
    var (j, b) := Locate(v, img.height);
    SampleCases(t, u, v);
    BilinearCases(t, u, v);
    var c := img.At(j, i);
    BlendDropsBoth(a, b, c, c, c, c);
  }

  /** The reference filter with its clamped neighbours spelled out in each case. */
  lemma {:induction false} BilinearCases(t: Texture, u: real, v: real)
    requires t.img.Valid() && 0 < t.img.width && 0 < t.img.height
    ensures var img, (i, a), (j, b) := t.img, Locate(u, t.img.width), Locate(v, t.img.height);
            (i + 1 < img.width && j + 1 < img.height ==>
               t.Bilinear(u, v) == Blend(a, b, img.At(j, i), img.At(j, i + 1), img.At(j + 1, i), img.At(j + 1, i + 1)))
            && (i + 1 < img.width && j + 1 == img.height ==>
               t.Bilinear(u, v) == Blend(a, b, img.At(j, i), img.At(j, i + 1), img.At(j, i), img.At(j, i + 1)))
            && (i + 1 == img.width && j + 1 < img.height ==>
               t.Bilinear(u, v) == Blend(a, b, img.At(j, i), img.At(j, i), img.At(j + 1, i), img.At(j + 1, i)))
            && (i + 1 == img.width && j + 1 == img.height ==>
               t.Bilinear(u, v) == Blend(a, b, img.At(j, i), img.At(j, i), img.At(j, i), img.At(j, i)))
  {
  }

  /** The lookup in each of its four cases, with the texels it reads. */
  lemma {:induction false} SampleCases(t: Texture, u: real, v: real)
    requires t.img.Valid() && 0 < t.img.width && 0 < t.img.height
    ensures var img, (i, a), (j, b) := t.img, Locate(u, t.img.width), Locate(v, t.img.height);
            var w00 := CScale((1.0 - a) * (1.0 - b), img.At(j, i));
            (i + 1 < img.width && j + 1 < img.height ==>
               t.Sample(u, v) == CAdd(CAdd(CAdd(w00, CScale(a * (1.0 - b), img.At(j, i + 1))),
                                           CScale((1.0 - a) * b, img.At(j + 1, i))),
                                      CScale(a * b, img.At(j + 1, i + 1))))
            && (i + 1 < img.width && j + 1 == img.height ==>
               t.Sample(u, v) == CAdd(w00, CScale(a * (1.0 - b), img.At(j, i + 1))))
            && (i + 1 == img.width && j + 1 < img.height ==>
               t.Sample(u, v) == CAdd(w00, CScale((1.0 - a) * b, img.At(j + 1, i))))
            && (i + 1 == img.width && j + 1 == img.height ==> t.Sample(u, v) == w00)
  {
  }

  lemma BlendDropsRow(a: real, b: real, c00: Color, c01: Color, c10: Color, c11: Color)
    requires b == 0.0
    ensures Blend(a, b, c00, c01, c10, c11) == CAdd(CScale((1.0 - a) * (1.0 - b), c00), CScale(a * (1.0 - b), c01))
  {
  }

  lemma BlendDropsColumn(a: real, b: real, c00: Color, c01: Color, c10: Color, c11: Color)
    requires a == 0.0
    ensures Blend(a, b, c00, c01, c10, c11) == CAdd(CScale((1.0 - a) * (1.0 - b), c00), CScale((1.0 - a) * b, c10))
  {
  }

  lemma BlendDropsBoth(a: real, b: real, c00: Color, c01: Color, c10: Color, c11: Color)
    requires a == 0.0 && b == 0.0
    ensures Blend(a, b, c00, c01, c10, c11) == CScale((1.0 - a) * (1.0 - b), c00)
  {
  }

  /** Blending one colour with itself gives that colour: the weights sum to one. */
  lemma BlendOfOneColour(a: real, b: real, k: Color)
    ensures Blend(a, b, k, k, k, k) == k
  {
  }

  /** A texture of one colour shows that colour everywhere. */
  lemma {:induction false} UniformTexture(t: Texture, k: Color, u: real, v: real)
    requires t.img.Valid() && 0 < t.img.width && 0 < t.img.height
    requires forall r, c :: 0 <= r < t.img.height && 0 <= c < t.img.width ==> t.img.At(r, c) == k
    ensures t.Sample(u, v) == k
  {
    SampleIsBilinear(t, u, v);
    var (i, a) := Locate(u, t.img.width);
    var (j, b) := Locate(v, t.img.height);
    BlendOfOneColour(a, b, k);
  }

  /** Sampling at a texel's own coordinates gives that texel: the interpolation
      passes through every sample of the texture. */
  lemma {:induction false} SampleAtTexel(t: Texture, r: nat, c: nat)
    requires t.img.Valid() && r < t.img.height && c < t.img.width
    ensures t.Sample(TexelCoord(c, t.img.width), TexelCoord(r, t.img.height)) == t.img.At(r, c)
  {
    LocateAtTexel(c, t.img.width);
    LocateAtTexel(r, t.img.height);
  }

  /** The corners of the unit square show the first and the last texel. */
  lemma {:induction false} SampleAtCorners(t: Texture)
    requires t.img.Valid() && 0 < t.img.width && 0 < t.img.height
    ensures t.Sample(0.0, 0.0) == t.img.At(0, 0)
    ensures t.Sample(1.0, 1.0) == t.img.At(t.img.height - 1, t.img.width - 1)
  {
    LocateEnds(t.img.width);
    LocateEnds(t.img.height);
  }
}
