/** Scalar transfer curves between display-encoded and linear-light channel values
    (src/transforms.rs). Channel values are reals; the source's f32 rounding is not modelled.

    The source computes powers with `powf` from an external maths library. Nothing about that
    function is assumed by the curves themselves: every curve takes it as the parameter `pow`,
    and the round-trip lemmas state, as a hypothesis, the two laws of real exponentiation they
    rely on (PowLaws). */
module Transforms {

  /** Stands for `powf(base, exponent)`. */
  type Pow = (real, real) -> real

  /** The sRGB curve constants, shared by both directions. */
  const A: real := 0.055
  const Gamma: real := 2.4
  const Phi: real := 12.92
  /** Where the display-to-linear curve leaves its linear segment. */
  const DecodeKnee: real := 0.04045
  /** Where the linear-to-display curve leaves its linear segment. */
  const EncodeKnee: real := 0.0031308
  /** The flat gamma of "simple" sRGB. */
  const SimpleGamma: real := 2.2

  /** The laws of real exponentiation on non-negative bases that the round trips need:
      raising to `e` and then to `1/e` gives the base back, and powers of non-negative
      bases are non-negative. */
  ghost predicate PowLaws(pow: Pow)
  {
    && (forall x: real, e: real :: 0.0 <= x && 0.0 < e ==> pow(pow(x, e), 1.0 / e) == x)
    && (forall x: real, e: real :: 0.0 <= x ==> 0.0 <= pow(x, e))
  }

  /** Transform sRGB into linear RGB. */
  function SrgbToRgb(pow: Pow, c: real): (r: real)
    // On the linear segment the result is the value that the inverse curve's
    // linear segment scales back to `c`.
    ensures c <= DecodeKnee ==> Phi * r == c
    ensures 0.0 <= c <= DecodeKnee ==> 0.0 <= r <= c
    ensures DecodeKnee < c ==> r == pow((c + A) / (1.0 + A), Gamma)
  {
    if c <= DecodeKnee then c / Phi else pow((c + A) / (1.0 + A), Gamma)
  }

  /** Transform linear RGB into sRGB. */
  function RgbToSrgb(pow: Pow, c: real): (r: real)
    ensures c <= EncodeKnee ==> r == Phi * c
    ensures 0.0 <= c <= EncodeKnee ==> c <= r <= DecodeKnee
    ensures EncodeKnee < c ==> r + A == (1.0 + A) * pow(c, 1.0 / Gamma)
  {
    if c <= EncodeKnee then Phi * c else (1.0 + A) * pow(c, 1.0 / Gamma) - A
  }

  /** Gamma / "simple" RGB to linear RGB. */
  function GammaToRgb(pow: Pow, c: real): (r: real)
    ensures PowLaws(pow) && 0.0 <= c ==> 0.0 <= r
  {
    pow(c, SimpleGamma)
  }

  /** Gamma / "simple" RGB from linear RGB. */
  function RgbToGamma(pow: Pow, c: real): (r: real)
    ensures PowLaws(pow) && 0.0 <= c ==> 0.0 <= r
  {
    pow(c, 1.0 / SimpleGamma)
  }

  /** The two sRGB curves undo each other on their linear segments, for every `pow`.
      The segments do not quite line up: see KneesDisagree. */
  lemma LinearSegmentRoundTrip(pow: Pow, c: real)
    ensures c <= Phi * EncodeKnee ==> RgbToSrgb(pow, SrgbToRgb(pow, c)) == c
    ensures c <= EncodeKnee ==> SrgbToRgb(pow, RgbToSrgb(pow, c)) == c
  {
  }

  /** The display-encoded knee, divided by the slope, lies above the linear-light knee:
      on (Phi * EncodeKnee, DecodeKnee] the forward curve is linear but the inverse curve
      takes its power segment, so the linear round trip stops short of DecodeKnee. */
  lemma KneesDisagree(pow: Pow)
    ensures Phi * EncodeKnee < DecodeKnee
    ensures EncodeKnee < SrgbToRgb(pow, DecodeKnee)
  {
  }

  /** The two sRGB curves undo each other on their power segments, given the laws of
      exponentiation, wherever the intermediate value falls on the matching segment. */
  lemma PowerSegmentRoundTrip(pow: Pow, c: real)
    requires PowLaws(pow)
    ensures DecodeKnee < c && EncodeKnee < SrgbToRgb(pow, c) ==>
              RgbToSrgb(pow, SrgbToRgb(pow, c)) == c
    ensures EncodeKnee < c && DecodeKnee < RgbToSrgb(pow, c) ==>
              SrgbToRgb(pow, RgbToSrgb(pow, c)) == c
  {
    if DecodeKnee < c && EncodeKnee < SrgbToRgb(pow, c) {
      var s := (c + A) / (1.0 + A);
      assert pow(pow(s, Gamma), 1.0 / Gamma) == s;
    }
    if EncodeKnee < c && DecodeKnee < RgbToSrgb(pow, c) {
      var t := pow(c, 1.0 / Gamma);
      assert (RgbToSrgb(pow, c) + A) / (1.0 + A) == t;
      assert 1.0 / (1.0 / Gamma) == Gamma;
      assert pow(pow(c, 1.0 / Gamma), 1.0 / (1.0 / Gamma)) == c;
    }
  }

  /** The non-negative display-encoded values for which decoding and re-encoding lands on
      matching segments of the two sRGB curves: the forward curve's linear segment below
      Phi * EncodeKnee, and its power segment wherever the linear value lands on the
      inverse's power segment. */
  ghost predicate SrgbInvertible(pow: Pow, c: real)
  {
    0.0 <= c && (c <= Phi * EncodeKnee || (DecodeKnee < c && EncodeKnee < SrgbToRgb(pow, c)))
  }

  /** The sRGB round trip (display to linear and back) holds wherever the segments match.
      Above DecodeKnee that is a hypothesis: it is true of real exponentiation, but PowLaws
      does not imply it. */
  lemma SrgbRoundTrip(pow: Pow, c: real)
    requires PowLaws(pow)
    requires SrgbInvertible(pow, c)
    ensures RgbToSrgb(pow, SrgbToRgb(pow, c)) == c
  {
    if c <= Phi * EncodeKnee {
      LinearSegmentRoundTrip(pow, c);
    } else {
      PowerSegmentRoundTrip(pow, c);
    }
  }

  /** The simple gamma curves undo each other on non-negative values, in both orders. */
  lemma GammaRoundTrip(pow: Pow, c: real)
    requires PowLaws(pow)
    requires 0.0 <= c
    ensures RgbToGamma(pow, GammaToRgb(pow, c)) == c
    ensures GammaToRgb(pow, RgbToGamma(pow, c)) == c
  {
    assert pow(pow(c, SimpleGamma), 1.0 / SimpleGamma) == c;
    assert 1.0 / (1.0 / SimpleGamma) == SimpleGamma;
    assert pow(pow(c, 1.0 / SimpleGamma), 1.0 / (1.0 / SimpleGamma)) == c;
  }
}
