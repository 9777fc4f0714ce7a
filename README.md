# embedded-image: a Dafny model of the RGBA image core

This project models the core of the `embedded-image` crate, a small `no_std` RGBA image library.

- `Image` (src/lib.rs) holds a buffer of working pixels. Each pixel has four floating-point
  channels (R, G, B, A). The image also holds a resolution `(width, height)` and a colour-space tag.
- `Image::from_bytes` builds an image from 8-bit RGBA bytes.
- `Image::to_color` converts every pixel in place to another colour space.
- `Image::scale` fills a fresh buffer at a new resolution.
- src/transforms.rs holds the four scalar transfer curves that `to_color` applies: the sRGB
  curve in both directions and the flat 2.2 gamma curve in both directions.

Files:

- `transforms.dfy`, module `Transforms`: the four curves, their constants, and the
  round-trip lemmas that relate each curve to its inverse.
- `image.dfy`, module `EmbeddedImage`: the types (`u8`, `u32`, `ColorSpace`, `WorkPixel`),
  byte decoding, the conversion table, the row-major indexing used by the resize, and
  the class `Image`.

How the model represents the source:

- Channel values are `real`, so f32 rounding is not modelled.
- `powf` from the external maths library is not modelled by a definition. Every curve
  takes it as a parameter `pow: (real, real) -> real`. The round-trip lemmas assume two laws
  of real exponentiation as a hypothesis, `PowLaws`:
  - `pow(pow(x, e), 1/e) == x` for `x >= 0` and `e > 0`;
  - powers of non-negative bases are non-negative.
- The resampler `bilinear` is a stub in the source. It is a parameter `bilinear: Sampler`
  of `Image.Scale`.
- Rust's `u32` is the newtype `u32`, so every u32 product, sum and difference the source
  computes must be proved free of overflow and underflow. In a debug build an overflow,
  an underflow or a `todo!()` panics. The model turns each such panic into a precondition.
- `Image` is a class. Its fields `data: seq<WorkPixel>`, `res` and `color` are reassigned by
  `ToColor` and `Scale`. `Valid()` states the buffer invariant `|data| == width * height`.
  The accessors `Width`, `Height`, `Color` and `Pixels` return these fields. Their bodies
  are plain field reads. The contracts of `FromBytes`, `ToColor` and `Scale` state what the
  fields, and so the accessors' results, hold.

The model keeps these behaviours of the code as written:

- Unsupported conversions, a wrong input length and a zero dimension in a resize panic.
  They are not error values, so they are preconditions here.
- Conversion uses the source's pairwise table. Its `(SimplesRGB, SimplesRGB)` arm is
  `todo!()`, so converting "simple" sRGB to itself panics on a non-empty buffer. It is not
  an identity.
- `from_bytes` accepts a zero width or height, giving an empty image.
- The x scale factor is `(new_width - 1) / (width - 1)`, new over old. The y factor is formed
  the same way.

## Model

| member | source | states |
|---|---|---|
| `Transforms.SrgbToRgb` | src/transforms.rs:4-15 | on the linear segment (`c <= 0.04045`) the result times 12.92 gives `c` back, and lies in `[0, c]` for non-negative `c`; above the knee it is `pow((c + 0.055)/1.055, 2.4)` |
| `Transforms.RgbToSrgb` | src/transforms.rs:17-28 | on the linear segment (`c <= 0.0031308`) the result is `12.92 * c` and lies in `[c, 0.04045]` for non-negative `c`; above the knee, result plus 0.055 equals `1.055 * pow(c, 1/2.4)` |
| `Transforms.GammaToRgb` | src/transforms.rs:30-33 | contract: non-negative on non-negative input when `pow` obeys the laws of exponentiation (an instance of those laws); the curve's meaning, that it undoes `RgbToGamma`, is stated by `GammaRoundTrip` |
| `Transforms.RgbToGamma` | src/transforms.rs:35-38 | contract: non-negative on non-negative input when `pow` obeys the laws of exponentiation (an instance of those laws); the curve's meaning, that it undoes `GammaToRgb`, is stated by `GammaRoundTrip` |
| `Transforms.LinearSegmentRoundTrip` | src/transforms.rs:4-27 | the two sRGB curves undo each other on their linear segments, for any `pow`: decode-then-encode for `c <= 12.92 * 0.0031308`, encode-then-decode for `c <= 0.0031308` |
| `Transforms.KneesDisagree` | src/transforms.rs:9-24 | `12.92 * 0.0031308 < 0.04045`, and decoding 0.04045 lands above the encoder's knee, so on that narrow band the decoder's linear segment meets the encoder's power segment |
| `Transforms.PowerSegmentRoundTrip` | src/transforms.rs:12-27 | given the laws of exponentiation, the two sRGB curves undo each other in both orders on their power segments, wherever the intermediate value is past the other curve's knee |
| `Transforms.SrgbRoundTrip` | src/transforms.rs:4-27 | given the laws of exponentiation, `RgbToSrgb(SrgbToRgb(c)) == c` for non-negative `c` that is either at most `12.92 * 0.0031308`, or above `0.04045` with its decoded value above `0.0031308` (`SrgbInvertible`); that second condition holds for real exponentiation but is not implied by the laws assumed |
| `Transforms.GammaRoundTrip` | src/transforms.rs:30-38 | given the laws of exponentiation, the two flat-gamma curves undo each other in both orders on non-negative values |
| `EmbeddedImage.Unit` | src/lib.rs:57 | an 8-bit channel divided by 255 lies in `[0, 1]`; it is 0 exactly for byte 0 and 1 exactly for byte 255 |
| `EmbeddedImage.DecodePixels` | src/lib.rs:66-74 | bytes read four at a time give `len / 4` pixels; channel k of pixel i is `bytes[4*i + k] / 255` (R, G, B, A in order) |
| `EmbeddedImage.Image.FromBytes` | src/lib.rs:53-76 | requires exactly `width * height * 4` bytes, with that product inside u32; the new image satisfies the buffer invariant, its accessors return the given resolution and colour space, and its pixels are the decoded bytes |
| `EmbeddedImage.Image.Width` | src/lib.rs:78-80 | returns the stored width (a plain field read; `FromBytes` and `Scale` state its value); the contract only restates `Valid()`: the width times the stored height is the pixel count |
| `EmbeddedImage.Image.Height` | src/lib.rs:82-84 | returns the stored height (a plain field read; `FromBytes` and `Scale` state its value); the contract only restates `Valid()`: the stored width times the height is the pixel count |
| `EmbeddedImage.Image.Color` | src/lib.rs:86-88 | returns the stored tag (a plain field read); `FromBytes`, `ToColor` and `Scale` state its value |
| `EmbeddedImage.Image.Pixels` | src/lib.rs:90-92 | returns the stored buffer (a plain field read; `FromBytes`, `ToColor` and `Scale` state its contents); the contract only restates `Valid()`: the buffer holds exactly `width * height` pixels |
| `EmbeddedImage.Dispatch` | src/lib.rs:102-130 | classifies all 25 (source, target) pairs: a pair is unimplemented exactly when it involves Display P3 without AsIs and is not P3 to P3, or is "simple" sRGB to linear or to itself; a pair keeps values exactly when either side is AsIs or it is sRGB, linear or P3 to itself |
| `EmbeddedImage.Convert` | src/lib.rs:100-131 | an implemented conversion keeps the pixel's alpha, and a keeping pair returns the pixel unchanged |
| `EmbeddedImage.CurvePairs` | src/lib.rs:103-115 | the five curve pairs apply the named curve or composition independently to each of R, G and B and leave alpha alone: sRGB to linear `srgb_to_rgb`, sRGB to simple `rgb_to_gamma . srgb_to_rgb`, linear to sRGB `rgb_to_srgb`, linear to simple `rgb_to_gamma`, simple to sRGB `rgb_to_srgb . gamma_to_rgb` |
| `EmbeddedImage.LinearRoundTrip` | src/lib.rs:103-109 | converting a pixel sRGB to linear and back restores it, given the laws of exponentiation and colour channels that each meet `SrgbInvertible`: non-negative and at most `12.92 * 0.0031308`, or above `0.04045` with the decoded value above `0.0031308` |
| `EmbeddedImage.ChannelSimpleRoundTrip` | src/lib.rs:104-116 | one channel taken sRGB to simple and back is restored, given the laws of exponentiation and a channel meeting `SrgbInvertible` (as for `LinearRoundTrip`) |
| `EmbeddedImage.SimpleRoundTrip` | src/lib.rs:104-116 | converting a pixel sRGB to simple and back restores it, given the laws of exponentiation and colour channels that each meet `SrgbInvertible` (as for `LinearRoundTrip`) |
| `EmbeddedImage.Image.ToColor` | src/lib.rs:98-134 | requires an implemented pair unless the buffer is empty; afterwards the resolution and pixel count are unchanged, the tag is the target, every pixel is its old value through the pair's conversion, every alpha is unchanged, and keeping pairs leave the buffer unchanged |
| `EmbeddedImage.RowMajor` | src/lib.rs:153 | the index `y * w + x` of pixel (x, y) in a w-by-h buffer is below `w * h`, and x and y are its remainder and quotient by w, so distinct pixels have distinct indices |
| `EmbeddedImage.RowMajorOnto` | src/lib.rs:147-156 | every index below `w * h` is the row-major index of a pixel, so with `RowMajor` the indexing is a bijection and each buffer slot is written once |
| `EmbeddedImage.ResampleRows` | src/lib.rs:147-156 | the nested loops return a buffer of exactly `w * h` pixels in which pixel (x, y), at index `y * w + x`, is the sampler's value for (x, y). Beyond the contract, the loop invariants (ghost `next`) show that the loops write the indices 0, 1, 2, ... in turn, and the u32 index arithmetic is checked not to overflow |
| `EmbeddedImage.Image.Scale` | src/lib.rs:136-159 | an unchanged resolution changes nothing; otherwise it requires every dimension to be at least 1 and the new pixel count to fit in u32, and afterwards the resolution is the target, the buffer holds `new_w * new_h` pixels, pixel (x, y) is `bilinear((x, y), (new_w - 1 over w - 1, new_h - 1 over h - 1), (w, h), old pixels)`, and the colour tag is unchanged |

## Left out

- `powf`, `round`, `floor` and `ceil` (the `F32` trait, src/lib.rs:167-198) wrap an external maths library. `pow` is a parameter, and `round`, `floor` and `ceil` are unused by the core. f32 rounding, NaN and infinities are not modelled.
- Transforms.SrgbRoundTrip: weaker than "for all c in [0, 1]". `pow` is abstract, so the round trip is proved only under the laws of exponentiation. It also excludes the band (12.92 * 0.0031308, 0.04045], where the decoder's linear segment feeds the encoder's power segment. Above 0.04045 it further assumes that the decoded value exceeds 0.0031308. That holds for real exponentiation, but the two laws assumed do not imply it.
- EmbeddedImage.LinearRoundTrip: weaker in the same way as Transforms.SrgbRoundTrip. Each colour channel must be at most 12.92 * 0.0031308, or above 0.04045 with a decoded value above 0.0031308, and the laws of exponentiation are assumed.
- EmbeddedImage.ChannelSimpleRoundTrip: weaker in the same way as Transforms.SrgbRoundTrip, for its one channel.
- EmbeddedImage.SimpleRoundTrip: weaker in the same way as Transforms.SrgbRoundTrip, for each colour channel.
- The unsafe reinterpretation of the byte pointer as `[u8; 4]` records (src/lib.rs:66-70) is modelled as decoding the byte sequence in chunks of four. Memory layout is not modelled.
- The `nalgebra` `Matrix3x1` holding R, G and B during a conversion is the three colour fields of `WorkPixel`.
- The body of `bilinear` (src/lib.rs:162-165) is a `todo!()` stub, so it is a parameter. As written, every resize to a new non-empty resolution panics at the first call. The model does not capture that panic. No interpolation is modelled, so corner exactness and the midpoint values are not stated.
- Display P3 gamut matrices and any conversion through a reference space do not exist in the source. Those pairs are the `Todo` arms.
- The f32 scale factors are kept as `Ratio(num, den)`, the operands of the division. When a source dimension is 1 the quotient is infinite or NaN. That quotient is never evaluated.
- Release-build wrap-around of u32 arithmetic is not modelled. The model follows debug builds, where overflow panics, and turns that panic into a precondition.
- The `todo!()` arms of `to_color` and the failed length check of `from_bytes` abort the program. They are preconditions, not error outcomes, because the source offers no recoverable error.
