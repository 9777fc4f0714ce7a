/** The RGBA working image of src/lib.rs: a buffer of floating-point pixels with a
    resolution and a colour-space tag, built from 8-bit bytes, converted between colour
    spaces in place, and resized into a fresh buffer.

    Channel values are reals. Rust's u32 arithmetic is modelled with the newtype u32, so
    every product and difference the source computes in u32 must be proved not to
    overflow or underflow; where the source would panic on that, the model has a
    precondition. */
module EmbeddedImage {
  import opened Transforms

  newtype u8 = x: int | 0 <= x < 0x100
  newtype u32 = x: int | 0 <= x < 0x1_0000_0000

  /** A pixel position (x, y). */
  type XY = (u32, u32)
  /** A resolution (width, height). */
  type ResXY = (u32, u32)

  datatype ColorSpace =
    | SRgb        // sRGB data
    | SRgbLinear  // linear sRGB data
    | SimpleSRgb  // "simple" sRGB, with a flat gamma of 2.2
    | DisplayP3   // Display P3 / P3-D65
    | AsIs        // no colour space: values are used as they are

  /** One working pixel: red, green, blue and alpha channels. */
  datatype WorkPixel = WorkPixel(r: real, g: real, b: real, a: real)

  /** The all-zero pixel a fresh output buffer is filled with. */
  const Blank: WorkPixel := WorkPixel(0.0, 0.0, 0.0, 0.0)

  /** An f32 scale factor, kept as the two u32 operands of its division num / den.
      A zero `den` makes the f32 quotient infinite or NaN; the model does not evaluate it. */
  datatype Ratio = Ratio(num: u32, den: u32)

  /** The horizontal and vertical scale factors. */
  type FloatXY = (Ratio, Ratio)

  /** The per-pixel resampler: output position, scale factors, source resolution and
      source pixels to one output pixel. */
  type Sampler = (XY, FloatXY, ResXY, seq<WorkPixel>) -> WorkPixel

  // ---------------------------------------------------------------------------------
  // Construction from bytes
  // ---------------------------------------------------------------------------------

  /** One 8-bit channel, cast to a real and divided by 255. */
  function Unit(v: u8): (c: real)
    ensures 0.0 <= c <= 1.0
    ensures c == 0.0 <==> v == 0
    ensures c == 1.0 <==> v == 255
  {
    v as real / 255.0
  }

  /** Reads the bytes four at a time, in RGBA order, into one working pixel per group. */
  function DecodePixels(bytes: seq<u8>): (ps: seq<WorkPixel>)
    requires |bytes| % 4 == 0
    ensures 4 * |ps| == |bytes|
    ensures forall i :: 0 <= i < |ps| ==>
              ps[i] == WorkPixel(Unit(bytes[4 * i]), Unit(bytes[4 * i + 1]),
                                 Unit(bytes[4 * i + 2]), Unit(bytes[4 * i + 3]))
  {
    if |bytes| == 0 then []
    else
      [WorkPixel(Unit(bytes[0]), Unit(bytes[1]), Unit(bytes[2]), Unit(bytes[3]))]
      + DecodePixels(bytes[4..])
  }

  // ---------------------------------------------------------------------------------
  // Colour conversion
  // ---------------------------------------------------------------------------------

  /** What a conversion does to each of the R, G and B channels. `Todo` stands for the
      pairs the source leaves unimplemented: reaching one panics. */
  datatype Conversion =
    | Keep
    | SrgbToLinear
    | SrgbToSimple
    | LinearToSrgb
    | LinearToSimple
    | SimpleToSrgb
    | Todo

  /** The conversion table, arm for arm and in the source's order (the first matching arm
      wins). Its contract classifies all 25 pairs: 8 are unimplemented and 12 keep the
      values as they are; the remaining 5 apply a curve. */
  function Dispatch(from: ColorSpace, to: ColorSpace): (k: Conversion)
    ensures k == Todo <==>
              || (from != to && from != AsIs && to != AsIs && (from == DisplayP3 || to == DisplayP3))
              || (from == SimpleSRgb && (to == SRgbLinear || to == SimpleSRgb))
    ensures k == Keep <==> from == AsIs || to == AsIs || (from == to && from != SimpleSRgb)
  {
    match (from, to)
    case (SRgb, SRgbLinear) => SrgbToLinear
    case (SRgb, SimpleSRgb) => SrgbToSimple
    case (SRgb, DisplayP3) => Todo

    case (SRgbLinear, SRgb) => LinearToSrgb
    case (SRgbLinear, DisplayP3) => Todo
    case (SRgbLinear, SimpleSRgb) => LinearToSimple

    case (SimpleSRgb, SRgbLinear) => Todo
    case (SimpleSRgb, SRgb) => SimpleToSrgb
    case (SimpleSRgb, DisplayP3) => Todo

    case (DisplayP3, SRgb) => Todo
    case (DisplayP3, SRgbLinear) => Todo
    case (DisplayP3, SimpleSRgb) => Todo

    case (SRgb, SRgb) => Keep
    case (SRgbLinear, SRgbLinear) => Keep
    case (SimpleSRgb, SimpleSRgb) => Todo
    case (DisplayP3, DisplayP3) => Keep

    case (_, AsIs) => Keep
    case (AsIs, _) => Keep
  }

  /** The curve an implemented conversion applies to one colour channel. */
  function Curve(pow: Pow, k: Conversion, c: real): (v: real)
    requires k != Todo
  {
    match k
    case Keep => c
    case SrgbToLinear => SrgbToRgb(pow, c)
    case SrgbToSimple => RgbToGamma(pow, SrgbToRgb(pow, c))
    case LinearToSrgb => RgbToSrgb(pow, c)
    case LinearToSimple => RgbToGamma(pow, c)
    case SimpleToSrgb => RgbToSrgb(pow, GammaToRgb(pow, c))
  }

  /** One pixel through an implemented conversion: the curve on R, G and B, alpha as is. */
  function Convert(pow: Pow, k: Conversion, p: WorkPixel): (q: WorkPixel)
    requires k != Todo
    ensures q.a == p.a
    ensures k == Keep ==> q == p
  {
    WorkPixel(Curve(pow, k, p.r), Curve(pow, k, p.g), Curve(pow, k, p.b), p.a)
  }

  /** The five implemented pairs apply the named curves to each of R, G and B
      independently and leave alpha alone. */
  lemma CurvePairs(pow: Pow, p: WorkPixel)
    ensures Convert(pow, Dispatch(SRgb, SRgbLinear), p)
            == WorkPixel(SrgbToRgb(pow, p.r), SrgbToRgb(pow, p.g), SrgbToRgb(pow, p.b), p.a)
    ensures Convert(pow, Dispatch(SRgb, SimpleSRgb), p)
            == WorkPixel(RgbToGamma(pow, SrgbToRgb(pow, p.r)), RgbToGamma(pow, SrgbToRgb(pow, p.g)),
                         RgbToGamma(pow, SrgbToRgb(pow, p.b)), p.a)
    ensures Convert(pow, Dispatch(SRgbLinear, SRgb), p)
            == WorkPixel(RgbToSrgb(pow, p.r), RgbToSrgb(pow, p.g), RgbToSrgb(pow, p.b), p.a)
    ensures Convert(pow, Dispatch(SRgbLinear, SimpleSRgb), p)
            == WorkPixel(RgbToGamma(pow, p.r), RgbToGamma(pow, p.g), RgbToGamma(pow, p.b), p.a)
    ensures Convert(pow, Dispatch(SimpleSRgb, SRgb), p)
            == WorkPixel(RgbToSrgb(pow, GammaToRgb(pow, p.r)), RgbToSrgb(pow, GammaToRgb(pow, p.g)),
                         RgbToSrgb(pow, GammaToRgb(pow, p.b)), p.a)
  {
  }

  /** The colour channels of a pixel that survive the sRGB round trip. */
  ghost predicate SrgbInvertiblePixel(pow: Pow, p: WorkPixel)
  {
    SrgbInvertible(pow, p.r) && SrgbInvertible(pow, p.g) && SrgbInvertible(pow, p.b)
  }

  /** Converting sRGB to linear and back restores the pixel, wherever the sRGB curves'
      segments match. */
  lemma LinearRoundTrip(pow: Pow, p: WorkPixel)
    requires PowLaws(pow)
    requires SrgbInvertiblePixel(pow, p)
    ensures Convert(pow, Dispatch(SRgbLinear, SRgb), Convert(pow, Dispatch(SRgb, SRgbLinear), p)) == p
  {
    SrgbRoundTrip(pow, p.r);
    SrgbRoundTrip(pow, p.g);
    SrgbRoundTrip(pow, p.b);
  }

  /** Converting sRGB to "simple" sRGB and back restores the pixel under the same
      condition: the flat-gamma leg undoes itself on the non-negative linear values. */
  lemma SimpleRoundTrip(pow: Pow, p: WorkPixel)
    requires PowLaws(pow)
    requires SrgbInvertiblePixel(pow, p)
    ensures Convert(pow, Dispatch(SimpleSRgb, SRgb), Convert(pow, Dispatch(SRgb, SimpleSRgb), p)) == p
  {
    ChannelSimpleRoundTrip(pow, p.r);
    ChannelSimpleRoundTrip(pow, p.g);
    ChannelSimpleRoundTrip(pow, p.b);
  }

  lemma ChannelSimpleRoundTrip(pow: Pow, c: real)
    requires PowLaws(pow)
    requires SrgbInvertible(pow, c)
    ensures RgbToSrgb(pow, GammaToRgb(pow, RgbToGamma(pow, SrgbToRgb(pow, c)))) == c
  {
    var l := SrgbToRgb(pow, c);
    assert 0.0 <= l by {
      if c > DecodeKnee {
        assert l == pow((c + A) / (1.0 + A), Gamma);
      }
    }
    GammaRoundTrip(pow, l);
    SrgbRoundTrip(pow, c);
  }

  // ---------------------------------------------------------------------------------
  // Resize indexing
  // ---------------------------------------------------------------------------------

  /** Euclidean division is unique: the quotient and remainder of n by d are the only
      pair with n == q * d + r and 0 <= r < d. */
  lemma DivModUnique(n: int, d: int, q: int, r: int)
    requires 0 < d && 0 <= r < d && n == q * d + r
    ensures n / d == q && n % d == r
  {
    var q', r' := n / d, n % d;
    assert (q - q') * d == r' - r;
    if q - q' >= 1 {
      MulAtLeast(q - q', d);
    } else if q - q' <= -1 {
      MulAtLeast(q' - q, d);
    }
  }

  lemma MulAtLeast(a: int, d: int)
    requires 1 <= a && 0 < d
    ensures d <= a * d
  {
  }

  /** The buffer index of pixel (x, y) in a row-major image of width w and height h.
      Its contract makes the indexing a bijection onto [0, w * h): every index is in
      bounds, and x and y are recovered from it (so no two pixels share an index). */
  function RowMajor(w: u32, h: u32, x: u32, y: u32): (i: nat)
    requires x < w && y < h
    ensures i < w as int * h as int
    ensures i % w as int == x as int && i / w as int == y as int
  {
    var i := y as int * w as int + x as int;
    assert i < w as int * h as int by {
      assert y as int * w as int <= (h as int - 1) * w as int;
    }
    DivModUnique(i, w as int, y as int, x as int);
    i
  }

  /** Every index of a w-by-h buffer is the index of some pixel. */
  lemma RowMajorOnto(w: u32, h: u32, i: int)
    requires 0 <= i < w as int * h as int
    ensures 0 < w && i / w as int < h as int
    ensures RowMajor(w, h, (i % w as int) as u32, (i / w as int) as u32) == i
  {
    var q := i / w as int;
    assert q * w as int <= i;
  }

  /** What the resize loop writes at index j of a w-by-h output: the sampler's value for
      the pixel whose row-major index is j. */
  function Resampled(bilinear: Sampler, scale: FloatXY, src: ResXY, pixels: seq<WorkPixel>,
                     w: u32, h: u32, j: int): (p: WorkPixel)
    requires 0 <= j < w as int * h as int
  {
    RowMajorOnto(w, h, j);
    bilinear(((j % w as int) as u32, (j / w as int) as u32), scale, src, pixels)
  }

  /** The nested loops of the resize: a fresh buffer of w * h pixels (u32 product, which
      must not overflow), filled row by row, pixel (x, y) at index `y * w + x` (u32
      arithmetic) with the sampler's value for (x, y). */
  method ResampleRows(bilinear: Sampler, scale: FloatXY, src: ResXY, pixels: seq<WorkPixel>,
                      w: u32, h: u32) returns (buffer: seq<WorkPixel>)
    requires w as int * h as int < 0x1_0000_0000
    ensures |buffer| == w as int * h as int
    ensures forall x: u32, y: u32 :: x < w && y < h ==>
              buffer[RowMajor(w, h, x, y)] == bilinear((x, y), scale, src, pixels)
  {
    var out := new WorkPixel[(h * w) as int](_ => Blank);

    // `next` is the index the next write goes to: the loops write 0, 1, 2, ... in turn,
    // so every index is written exactly once.
    ghost var next := 0;
    var y: u32 := 0;
    while y < h
      invariant y <= h
      invariant next == y as int * w as int <= out.Length == w as int * h as int
      invariant forall j :: 0 <= j < next ==> out[j] == Resampled(bilinear, scale, src, pixels, w, h, j)
      invariant forall j :: next <= j < out.Length ==> out[j] == Blank
    {
      if 0 < w {
        assert RowMajor(w, h, 0, y) == next;
      }
      var x: u32 := 0;
      while x < w
        invariant x <= w
        invariant next == y as int * w as int + x as int <= out.Length
        invariant forall j :: 0 <= j < next ==> out[j] == Resampled(bilinear, scale, src, pixels, w, h, j)
        invariant forall j :: next <= j < out.Length ==> out[j] == Blank
      {
        var res := bilinear((x, y), scale, src, pixels);
        assert RowMajor(w, h, x, y) == next;
        var index := y * w + x;
        out[index] := res;
        next := next + 1;
        x := x + 1;
      }
      assert next == (y as int + 1) * w as int;
      y := y + 1;
    }
    buffer := out[..];
    forall x: u32, y: u32 | x < w && y < h
      ensures buffer[RowMajor(w, h, x, y)] == bilinear((x, y), scale, src, pixels)
    {
      var j := RowMajor(w, h, x, y);
      assert buffer[j] == Resampled(bilinear, scale, src, pixels, w, h, j);
    }
  }

  // ---------------------------------------------------------------------------------
  // The image
  // ---------------------------------------------------------------------------------

  class Image {
    var data: seq<WorkPixel>
    var res: ResXY
    var color: ColorSpace

    /** The buffer holds exactly width * height pixels, row by row. */
    ghost predicate Valid()
      reads this
    {
      |data| == res.0 as int * res.1 as int
    }

    /** Reads an image from `width * height * 4` bytes of RGBA pixel data, 8 bits per
        channel, each channel divided by 255. The source panics if the length is wrong,
        or if `width * height * 4` overflows u32. */
    constructor FromBytes(bytes: seq<u8>, res: ResXY, color: ColorSpace)
      requires res.0 as int * res.1 as int * 4 < 0x1_0000_0000
      requires |bytes| == res.0 as int * res.1 as int * 4
      ensures Valid()
      ensures Width() == res.0 && Height() == res.1 && Color() == color
      ensures Pixels() == DecodePixels(bytes)
    {
      var (width, height) := res;
      var len := width * height;
      assert |bytes| == 4 * len as int;
      this.data := DecodePixels(bytes);
      this.res := res;
      this.color := color;
    }

    function Width(): (w: u32)
      reads this
      ensures Valid() ==> w as int * res.1 as int == |data|
    {
      res.0
    }

    function Height(): (h: u32)
      reads this
      ensures Valid() ==> res.0 as int * h as int == |data|
    {
      res.1
    }

    function Color(): (c: ColorSpace)
      reads this
    {
      color
    }

    function Pixels(): (ps: seq<WorkPixel>)
      reads this
      ensures Valid() ==> |ps| == Width() as int * Height() as int
    {
      data
    }

    /** Converts every pixel in place from the current colour space to `target`, then
        retags the image. An unimplemented pair panics on the first pixel, so it is only
        allowed on an empty buffer, where just the tag changes. */
    method ToColor(pow: Pow, target: ColorSpace)
      requires Valid()
      requires |data| == 0 || Dispatch(color, target) != Todo
      modifies this
      ensures Valid() && res == old(res) && color == target
      ensures |data| == |old(data)|
      ensures forall i :: 0 <= i < |data| ==>
                data[i] == Convert(pow, Dispatch(old(color), target), old(data)[i])
      ensures forall i :: 0 <= i < |data| ==> data[i].a == old(data)[i].a
      ensures Dispatch(old(color), target) == Keep ==> data == old(data)
    {
      var i := 0;
      while i < |data|
        invariant 0 <= i <= |data| == |old(data)|
        invariant res == old(res) && color == old(color)
        invariant forall j :: 0 <= j < i ==>
                    data[j] == Convert(pow, Dispatch(color, target), old(data)[j])
        invariant forall j :: i <= j < |data| ==> data[j] == old(data)[j]
      {
        var k := Dispatch(color, target);
        data := data[i := Convert(pow, k, data[i])];
        i := i + 1;
      }
      color := target;
    }

    /** Resizes to `target`. An unchanged resolution returns at once. Otherwise the scale
        factors are formed from `target - 1` and `res - 1` (u32 subtractions, which panic
        on a zero dimension), and a fresh buffer of `target.0 * target.1` pixels is filled row
        by row, pixel (x, y) at index `y * target.0 + x`, with the sampler's value for
        (x, y) over the old pixels; then buffer and resolution are replaced. */
    method Scale(bilinear: Sampler, target: ResXY)
      requires Valid()
      requires target != res ==>
                 && 1 <= res.0 && 1 <= res.1 && 1 <= target.0 && 1 <= target.1
                 && target.0 as int * target.1 as int < 0x1_0000_0000
      modifies this
      ensures Valid() && color == old(color)
      ensures target == old(res) ==> data == old(data) && res == old(res)
      ensures target != old(res) ==> res == target && |data| == target.0 as int * target.1 as int
      ensures target != old(res) ==>
                forall x: u32, y: u32 :: x < target.0 && y < target.1 ==>
                  data[RowMajor(target.0, target.1, x, y)]
                  == bilinear((x, y), (Ratio(target.0 - 1, old(res).0 - 1), Ratio(target.1 - 1, old(res).1 - 1)),
                              old(res), old(data))
    {
      var width := Width();
      var height := Height();
      var (newWidth, newHeight) := target;
      if (width, height) == (newWidth, newHeight) {
        return;
      }
      var scale := (Ratio(newWidth - 1, width - 1), Ratio(newHeight - 1, height - 1));

      var pixels := Pixels();
      data := ResampleRows(bilinear, scale, (width, height), pixels, newWidth, newHeight);
      this.res := target;
    }
  }
}
