/** The fixed-point colour conversion of the agent's scaler (RGB to full-range Y'CbCr). */
module Colour {
  import opened Basics

  /** Go's `clamp8`: saturate to a byte. */
  function Clamp8(v: int): (r: Byte)
    ensures 0 <= v <= 255 ==> r == v
    ensures r == 0 || r <= v
    ensures r == 255 || r >= v
  {
    if v < 0 then 0 else if v > 255 then 255 else v
  }

  /** The 16.16 sums before saturation. `/` rounds down for the positive divisor, as `>>` does. */
  function RawLuma(r: int, g: int, b: int): int { (19595 * r + 38470 * g + 7471 * b + 32768) / 65536 }

  function RawCb(r: int, g: int, b: int): int { (-11056 * r - 21712 * g + 32768 * b + 257 * 32768) / 65536 }

  function RawCr(r: int, g: int, b: int): int { (32768 * r - 27440 * g - 5328 * b + 257 * 32768) / 65536 }

  function Luma(r: int, g: int, b: int): Byte {
    var yy := RawLuma(r, g, b);
    if yy < 0 then 0 else if yy > 255 then 255 else yy
  }

  function Cb(r: int, g: int, b: int): Byte { Clamp8(RawCb(r, g, b)) }

  function Cr(r: int, g: int, b: int): Byte { Clamp8(RawCr(r, g, b)) }

  /** Luma never needs its clamps: it lies between the darkest and the brightest channel, and a grey is itself. */
  lemma LumaNeedsNoClamp(r: Byte, g: Byte, b: Byte, lo: Byte, hi: Byte)
    requires lo <= r <= hi && lo <= g <= hi && lo <= b <= hi
    ensures Luma(r, g, b) == RawLuma(r, g, b) && lo <= RawLuma(r, g, b) <= hi
  {
  }

  /** Chroma before saturation lies in [1, 256], and 256 is reached by pure blue (Cb) and pure red (Cr) alone. */
  lemma ChromaRange(r: Byte, g: Byte, b: Byte)
    ensures 1 <= RawCb(r, g, b) <= 256 && (RawCb(r, g, b) == 256 <==> r == 0 && g == 0 && b == 255)
    ensures 1 <= RawCr(r, g, b) <= 256 && (RawCr(r, g, b) == 256 <==> r == 255 && g == 0 && b == 0)
  {
  }

  /** So the saturation is exact but for those two colours, where it costs one. */
  lemma ChromaSaturation(r: Byte, g: Byte, b: Byte)
    ensures Cb(r, g, b) == if r == 0 && g == 0 && b == 255 then 255 else RawCb(r, g, b)
    ensures Cr(r, g, b) == if r == 255 && g == 0 && b == 0 then 255 else RawCr(r, g, b)
  {
    ChromaRange(r, g, b);
  }

  /** `v` is `x` / 65536 rounded to the nearest integer, halves up. */
  predicate Rounds(v: int, x: int) { -32768 <= x - 65536 * v < 32768 }

  /** Each sum is its weighted channels, in units of 1/65536, rounded to the nearest; chroma around 128. */
  lemma SumsAreRounded(r: Byte, g: Byte, b: Byte)
    ensures Rounds(RawLuma(r, g, b), 19595 * r + 38470 * g + 7471 * b)
    ensures Rounds(RawCb(r, g, b) - 128, -11056 * r - 21712 * g + 32768 * b)
    ensures Rounds(RawCr(r, g, b) - 128, 32768 * r - 27440 * g - 5328 * b)
  {
  }

  lemma GreyIsNeutral(v: Byte)
    ensures Luma(v, v, v) == v && Cb(v, v, v) == 128 && Cr(v, v, v) == 128
  {
  }

  /** The luma weights of section 2.5.1 of ITU-R BT.601-7, in exact arithmetic. */
  function ExactLuma(r: int, g: int, b: int): real {
    0.299 * r as real + 0.587 * g as real + 0.114 * b as real
  }

  function Distance(a: real, b: real): real { if a < b then b - a else a - b }

  /** The integer conversion is the exact one, rounded: never more than 0.502 off in luma, or 0.51 in the
      colour differences (B - Y) / 1.772 and (R - Y) / 1.402 around 128. */
  lemma MatchesBT601(r: Byte, g: Byte, b: Byte)
    ensures Distance(Luma(r, g, b) as real, ExactLuma(r, g, b)) <= 0.502
    ensures Distance(RawCb(r, g, b) as real, 128.0 + (b as real - ExactLuma(r, g, b)) / 1.772) <= 0.51
    ensures Distance(RawCr(r, g, b) as real, 128.0 + (r as real - ExactLuma(r, g, b)) / 1.402) <= 0.51
  {
  }
}
