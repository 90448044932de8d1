/**
 * Colour handling of the video output: RGB channels are masked to the
 * configured depth and moved to the top of the byte, YUV samples go through
 * the fixed-point transform `yuv2rgb` with saturation.
 */
module ColorConvert {
  import opened Bits

  /** A pixel of the 24-bit BMP (the alpha byte is never written). */
  datatype Rgb = Rgb(red: u8, green: u8, blue: u8)

  /**
   * The (bit_mask, bit_shift) pairs the constructor can set up: the mask keeps
   * the `8 - shift` low bits of a sample.
   */
  predicate DepthPair(mask: int, shift: int)
  {
    0 <= shift <= 8 && mask == Pow2(8 - shift) - 1
  }

  lemma {:induction false} Pow2Monotone(a: nat, b: nat)
    requires a <= b
    ensures Pow2(a) <= Pow2(b)
  {
    if a < b {
      Pow2Monotone(a, b - 1);
    }
  }

  /** A value of k bits moved up by `8 - k` still fits in a byte. */
  lemma ShiftedFits(a: nat, k: nat)
    requires k <= 8 && a < Pow2(k)
    ensures a * Pow2(8 - k) <= 255
  {
    Pow2Add(k, 8 - k);
    assert Pow2(8) == 256;
    MulMonotone(Pow2(k) - 1, a, Pow2(8 - k));
    assert (Pow2(k) - 1) * Pow2(8 - k) == 256 - Pow2(8 - k);
  }

  /** One RGB channel, `(value & bit_mask) << bit_shift`. */
  function RgbChannel(value: u8, mask: u8, shift: nat): nat
    requires DepthPair(mask, shift)
  {
    Shl(BitAnd(value, mask), shift)
  }

  /**
   * The channel is the low `8 - shift` bits of the sample moved to the top
   * of the byte: its value is `(value mod 2^(8-shift)) * 2^shift`, its
   * `shift` low bits are zero and it always fits in a byte.
   */
  lemma RgbChannelValue(value: u8, mask: u8, shift: nat)
    requires DepthPair(mask, shift)
    ensures RgbChannel(value, mask, shift) == (value % Pow2(8 - shift)) * Pow2(shift)
    ensures RgbChannel(value, mask, shift) % Pow2(shift) == 0
    ensures RgbChannel(value, mask, shift) <= 255
  {
    BitAndLowMask(value, 8 - shift);
    ShlIsMul(BitAnd(value, mask), shift);
    ShiftedFits(value % Pow2(8 - shift), 8 - shift);
    DivModUnique(RgbChannel(value, mask, shift), Pow2(shift), value % Pow2(8 - shift), 0);
  }

  /** Saturation of a converted channel to [0, 255]. */
  function Clamp(x: int): (c: u8)
    ensures 0 <= x <= 255 ==> c == x
    ensures x < 0 ==> c == 0
    ensures x > 255 ==> c == 255
  {
    if x < 0 then 0 else if x > 255 then 255 else x
  }

  /**
   * `yuv2rgb`: luma and both chroma samples are masked and shifted like an
   * RGB channel (luma by seven more bits), then combined with the integer
   * BT.601 coefficients and saturated. The chroma values are the indices of
   * the constructor's tables `v_to_r`, `u_to_g`, `v_to_g` and `u_to_b`, so
   * they lie in [0, 255]. `/ 128` is the arithmetic `>> 7`.
   */
  function Yuv2Rgb(mask: u8, shift: nat, lum: u8, cb: u8, cr: u8): (p: Rgb)
    requires DepthPair(mask, shift)
  {
    var y := RgbChannel(lum, mask, shift) * 128;
    var u := RgbChannel(cb, mask, shift);
    var v := RgbChannel(cr, mask, shift);
    Rgb(Clamp((y + 180 * v - 22906) / 128),
        Clamp((y - 44 * u - 91 * v + 17264) / 128),
        Clamp((y + 226 * u - 28928) / 128))
  }

  /**
   * C's integer `/`, which rounds toward zero. (On a negative `int`, `>>`
   * is an arithmetic shift on the targets in question and rounds toward
   * minus infinity, like Dafny's `/`.)
   */
  function TruncDiv(x: int, d: nat): int
    requires d > 0
  {
    if x >= 0 then x / d else -((-x) / d)
  }

  /** The transform of `yuv2rgb` computed with C's truncating division in place of `>> 7`. */
  function TruncatingTransform(y: int, u: int, v: int): Rgb
  {
    Rgb(Clamp(TruncDiv(y + 180 * v - 22906, 128)),
        Clamp(TruncDiv(y - 44 * u - 91 * v + 17264, 128)),
        Clamp(TruncDiv(y + 226 * u - 28928, 128)))
  }

  /**
   * The pixel does not depend on how `>> 7` rounds: the transform with
   * truncating division gives the same pixel for every sample.
   */
  lemma Yuv2RgbTruncating(mask: u8, shift: nat, lum: u8, cb: u8, cr: u8)
    requires DepthPair(mask, shift)
    ensures Yuv2Rgb(mask, shift, lum, cb, cr)
              == TruncatingTransform(RgbChannel(lum, mask, shift) * 128, RgbChannel(cb, mask, shift), RgbChannel(cr, mask, shift))
  {
    var y := RgbChannel(lum, mask, shift) * 128;
    var u := RgbChannel(cb, mask, shift);
    var v := RgbChannel(cr, mask, shift);
    ClampedShiftRounding(y + 180 * v - 22906);
    ClampedShiftRounding(y - 44 * u - 91 * v + 17264);
    ClampedShiftRounding(y + 226 * u - 28928);
  }

  /**
   * The transform does not depend on how `>> 7` rounds a negative sum: a
   * negative sum saturates to 0 either way.
   */
  lemma ClampedShiftRounding(x: int)
    ensures Clamp(x / 128) == Clamp(TruncDiv(x, 128))
  {
    if x < 0 {
      assert x / 128 < 0;
      assert TruncDiv(x, 128) <= 0;
    }
  }

  /**
   * Neutral chroma (both chroma channels at mid-scale) gives a grey: blue
   * equals the scaled luma, red is one above and green one below, saturated.
   */
  lemma NeutralChromaIsGrey(mask: u8, shift: nat, lum: u8, cb: u8, cr: u8)
    requires DepthPair(mask, shift)
    requires RgbChannel(cb, mask, shift) == 128 && RgbChannel(cr, mask, shift) == 128
    ensures var y := RgbChannel(lum, mask, shift);
            Yuv2Rgb(mask, shift, lum, cb, cr)
              == Rgb(Clamp(y + 1), Clamp(y - 1), Clamp(y))
  {
    RgbChannelValue(lum, mask, shift);
    var y: int := RgbChannel(lum, mask, shift);
    var p := Yuv2Rgb(mask, shift, lum, cb, cr);
    var r: int, g: int, b: int := y * 128 + 23040 - 22906, y * 128 - 5632 - 11648 + 17264, y * 128 + 28928 - 28928;
    assert p == Rgb(Clamp(r / 128), Clamp(g / 128), Clamp(b / 128));
    DivModUnique(r, 128, y + 1, 6);
    DivModUnique(g, 128, y - 1, 112);
    DivModUnique(b, 128, y, 0);
  }

  /** At depth 8, mid-scale Y, Cb and Cr give (129, 127, 128). */
  lemma MidScaleExample()
    ensures Yuv2Rgb(255, 0, 128, 128, 128) == Rgb(129, 127, 128)
  {
    assert DepthPair(255, 0);
    assert RgbChannel(128, 255, 0) == 128;
    NeutralChromaIsGrey(255, 0, 128, 128, 128);
  }
}
