/** Register formats of the BMP280 driver: calibration words and 20-bit samples. */
module Bmp280Trim {
  import opened CInt

  type Byte = b: int | 0 <= b < 0x100
  type Word16 = w: int | 0 <= w < 0x1_0000

  predicate IsU16(x: int) { 0 <= x < 0x1_0000 }

  predicate IsS16(x: int) { -0x8000 <= x < 0x8000 }

  /** dig_t1..dig_p9 as the driver holds them. */
  datatype Trim = Trim(t1: int, t2: int, t3: int,
                       p1: int, p2: int, p3: int, p4: int, p5: int, p6: int, p7: int, p8: int, p9: int)

  /** (s32)((int16_t)w) */
  function SignExtend(w: Word16): int { if w < 0x8000 then w else w - 0x1_0000 }

  /** The 16-bit words of some integers. */
  function Low16(xs: seq<int>): seq<Word16> { seq(|xs|, i requires 0 <= i < |xs| => xs[i] % 0x1_0000) }

  /** The twelve calibration words in register order, 0x88 to 0x9e: only t3, p2, p7 and p8 are signed. */
  function Decode(w: seq<Word16>): (tr: Trim)
    requires |w| == 12
    ensures IsU16(tr.t1) && IsU16(tr.t2) && IsS16(tr.t3)
    ensures IsU16(tr.p1) && IsS16(tr.p2) && IsU16(tr.p3) && IsU16(tr.p4) && IsU16(tr.p5) && IsU16(tr.p6)
    ensures IsS16(tr.p7) && IsS16(tr.p8) && IsU16(tr.p9)
    ensures Low16([tr.t1, tr.t2, tr.t3, tr.p1, tr.p2, tr.p3, tr.p4, tr.p5, tr.p6, tr.p7, tr.p8, tr.p9]) == w
  {
    Trim(w[0], w[1], SignExtend(w[2]),
         w[3], SignExtend(w[4]), w[5], w[6], w[7], w[8], SignExtend(w[9]), SignExtend(w[10]), w[11])
  }

  /** ((d1 << 16) | (d2 << 8) | d3) >> 4; the bytes do not overlap, so the or is a sum. */
  function Sample20(d1: Byte, d2: Byte, d3: Byte): (raw: int)
    ensures 0 <= raw < 0x10_0000
  {
    (d1 * 0x1_0000 + d2 * 0x100 + d3) / 16
  }

  /** The 20 bits are all of the first byte, all of the second, and the upper half of the third. */
  lemma SampleBits(d1: Byte, d2: Byte, d3: Byte)
    ensures var raw := Sample20(d1, d2, d3);
      raw / 0x1000 == d1 && raw / 0x10 % 0x100 == d2 && raw % 0x10 == d3 / 0x10
  {
    var raw, low := Sample20(d1, d2, d3), d3 / 0x10;
    DivUnique(d1 * 0x1_0000 + d2 * 0x100 + d3, 16, d1 * 0x1000 + d2 * 0x10 + low, d3 % 0x10);
    DivUnique(raw, 0x1000, d1, d2 * 0x10 + low);
    DivUnique(raw, 0x10, d1 * 0x100 + d2, low);
    DivUnique(d1 * 0x100 + d2, 0x100, d1, d2);
  }
}
