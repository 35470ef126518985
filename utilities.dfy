/** The integer YUV to RGB conversion of the capture utilities: fixed-point
    coefficients scaled by 256 (298/256 for 1.164, 409/256 for 1.596, ...),
    rounded by adding 128 before an arithmetic shift right by 8, then clamped
    into a byte. */
module Utilities {

  /** The three output channels, each an unsigned char. */
  datatype Rgb = Rgb(r: int, g: int, b: int)

  /** C's `x >> 8` on an int, taken as the arithmetic shift the compilers in
      use perform on negative values: division by 256 rounded down. */
  function ShiftRight8(x: int): (q: int)
    ensures q * 256 <= x < q * 256 + 256
  {
    x / 256
  }

  /** The two-step clipping of yuv2rgb: first down to 255, then up to 0. */
  function ClampByte(x: int): (c: int)
    ensures 0 <= c <= 255
    ensures 0 <= x <= 255 ==> c == x
    ensures x > 255 ==> c == 255
    ensures x < 0 ==> c == 0
  {
    var high := if x > 255 then 255 else x;
    if high < 0 then 0 else high
  }

  /** One channel from its scaled sum (256 times the exact value). */
  function Channel(scaled: int): int
  {
    ClampByte(ShiftRight8(scaled + 128))
  }

  /** The scaled sums of the three channels. */
  function RedSum(y: int, u: int, v: int): int { 298 * (y - 16) + 409 * (v - 128) }
  function GreenSum(y: int, u: int, v: int): int { 298 * (y - 16) - 100 * (u - 128) - 208 * (v - 128) }
  function BlueSum(y: int, u: int, v: int): int { 298 * (y - 16) + 516 * (u - 128) }

  /** c is scaled / 256 rounded to the nearest integer (halves upwards) and
      saturated into 0..255. */
  predicate RoundsTo(scaled: int, c: int)
  {
    && 0 <= c <= 255
    && (c == 0 <==> scaled < 128)
    && (c == 255 <==> scaled >= 255 * 256 - 128)
    && (0 < c < 255 ==> 256 * c - 128 <= scaled < 256 * c + 128)
  }

  lemma ChannelRounds(scaled: int)
    ensures RoundsTo(scaled, Channel(scaled))
  {
    var q := ShiftRight8(scaled + 128);
    assert q * 256 <= scaled + 128 < q * 256 + 256;
  }

  /** yuv2rgb: the three channels, each the rounded and saturated value of
      its scaled sum. */
  function Yuv2Rgb(y: int, u: int, v: int): (rgb: Rgb)
    ensures RoundsTo(RedSum(y, u, v), rgb.r)
    ensures RoundsTo(GreenSum(y, u, v), rgb.g)
    ensures RoundsTo(BlueSum(y, u, v), rgb.b)
  {
    var c, d, e := y - 16, u - 128, v - 128;
    var r1 := ShiftRight8(298 * c + 409 * e + 128);
    var g1 := ShiftRight8(298 * c - 100 * d - 208 * e + 128);
    var b1 := ShiftRight8(298 * c + 516 * d + 128);
    ChannelRounds(RedSum(y, u, v));
    ChannelRounds(GreenSum(y, u, v));
    ChannelRounds(BlueSum(y, u, v));
    Rgb(ClampByte(r1), ClampByte(g1), ClampByte(b1))
  }

  /** RoundsTo pins the channel down: at most one byte satisfies it. */
  lemma RoundsToUnique(scaled: int, c1: int, c2: int)
    requires RoundsTo(scaled, c1) && RoundsTo(scaled, c2)
    ensures c1 == c2
  {
  }

  /** A larger scaled sum never gives a smaller channel. */
  lemma ChannelMonotone(s1: int, s2: int)
    requires s1 <= s2
    ensures Channel(s1) <= Channel(s2)
  {
  }

  /** Red does not depend on u, blue does not depend on v. */
  lemma ChannelIndependence(y: int, u1: int, u2: int, v1: int, v2: int)
    ensures Yuv2Rgb(y, u1, v1).r == Yuv2Rgb(y, u2, v1).r
    ensures Yuv2Rgb(y, u1, v1).b == Yuv2Rgb(y, u1, v2).b
  {
    ChannelRounds(RedSum(y, u1, v1));
    ChannelRounds(RedSum(y, u2, v1));
    RoundsToUnique(RedSum(y, u1, v1), Yuv2Rgb(y, u1, v1).r, Yuv2Rgb(y, u2, v1).r);
    RoundsToUnique(BlueSum(y, u1, v1), Yuv2Rgb(y, u1, v1).b, Yuv2Rgb(y, u1, v2).b);
  }

  /** With u and v fixed, every channel is non-decreasing in y. */
  lemma MonotoneInY(y1: int, y2: int, u: int, v: int)
    requires y1 <= y2
    ensures Yuv2Rgb(y1, u, v).r <= Yuv2Rgb(y2, u, v).r
    ensures Yuv2Rgb(y1, u, v).g <= Yuv2Rgb(y2, u, v).g
    ensures Yuv2Rgb(y1, u, v).b <= Yuv2Rgb(y2, u, v).b
  {
    ChannelMonotone(RedSum(y1, u, v), RedSum(y2, u, v));
    ChannelMonotone(GreenSum(y1, u, v), GreenSum(y2, u, v));
    ChannelMonotone(BlueSum(y1, u, v), BlueSum(y2, u, v));
    ChannelRounds(RedSum(y1, u, v));
    ChannelRounds(RedSum(y2, u, v));
    ChannelRounds(GreenSum(y1, u, v));
    ChannelRounds(GreenSum(y2, u, v));
    ChannelRounds(BlueSum(y1, u, v));
    ChannelRounds(BlueSum(y2, u, v));
    RoundsToUnique(RedSum(y1, u, v), Yuv2Rgb(y1, u, v).r, Channel(RedSum(y1, u, v)));
    RoundsToUnique(RedSum(y2, u, v), Yuv2Rgb(y2, u, v).r, Channel(RedSum(y2, u, v)));
    RoundsToUnique(GreenSum(y1, u, v), Yuv2Rgb(y1, u, v).g, Channel(GreenSum(y1, u, v)));
    RoundsToUnique(GreenSum(y2, u, v), Yuv2Rgb(y2, u, v).g, Channel(GreenSum(y2, u, v)));
    RoundsToUnique(BlueSum(y1, u, v), Yuv2Rgb(y1, u, v).b, Channel(BlueSum(y1, u, v)));
    RoundsToUnique(BlueSum(y2, u, v), Yuv2Rgb(y2, u, v).b, Channel(BlueSum(y2, u, v)));
  }

  /** Neutral chroma (u = v = 128) gives a grey: all three channels equal. */
  lemma NeutralChromaIsGrey(y: int)
    ensures Yuv2Rgb(y, 128, 128).r == Yuv2Rgb(y, 128, 128).g == Yuv2Rgb(y, 128, 128).b
  {
    var rgb := Yuv2Rgb(y, 128, 128);
    RoundsToUnique(RedSum(y, 128, 128), rgb.r, rgb.g);
    RoundsToUnique(RedSum(y, 128, 128), rgb.r, rgb.b);
  }

  /** The video luma range 16..235 at neutral chroma spans the full byte range. */
  lemma LumaRangeIsFullRange()
    ensures Yuv2Rgb(16, 128, 128) == Rgb(0, 0, 0)
    ensures Yuv2Rgb(235, 128, 128) == Rgb(255, 255, 255)
    ensures Yuv2Rgb(234, 128, 128).r < 255
  {
  }
}
