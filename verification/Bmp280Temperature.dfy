/** read_temperature: the fixed-point form, its overflow freedom and its accuracy. */
module Bmp280Temperature {
  import opened CInt
  import opened Bmp280Trim

  /* The code as written: int is 32 bits, long and s64 are 64. */

  function FineC(tr: Trim, raw: int): int {
    var var1 := S32(S32(raw / 8 - S32(tr.t1 * 2)) * tr.t2) / 0x800;
    var x := S32(raw / 16 - tr.t1);
    var var2 := S64(S32(x * x) / 0x1000 * tr.t3) / 0x4000;
    S32(S64(var1 + var2))
  }

  function CentiC(fine: int): int { S32(S32(fine * 5) + 128) / 0x100 }

  /* The same without word limits. */

  function Linear(tr: Trim, raw: int): int { (raw / 8 - 2 * tr.t1) * tr.t2 / 0x800 }

  function Cut(x: int): int { x * x / 0x1000 }

  function Square(tr: Trim, raw: int): int { Cut(raw / 16 - tr.t1) }

  function Quadratic(tr: Trim, raw: int): int { Square(tr, raw) * tr.t3 / 0x4000 }

  function Fine(tr: Trim, raw: int): int { Linear(tr, raw) + Quadratic(tr, raw) }

  function Centi(fine: int): int { (fine * 5 + 128) / 0x100 }

  /** The sample and trims for which no 32-bit product overflows. */
  predicate InRange(tr: Trim, raw: int) {
    && 0 <= raw < 0x10_0000 && IsU16(tr.t1) && 0 <= tr.t2 <= 0x7FFF && IsS16(tr.t3)
    && -0xFFFF <= raw / 8 - 2 * tr.t1 <= 0xFFFF
  }

  lemma OffsetBound(tr: Trim, raw: int)
    requires InRange(tr, raw)
    ensures -0x8000 <= raw / 16 - tr.t1 <= 0x7FFF
    ensures raw / 8 / 2 == raw / 16
  {
  }

  lemma SquareBound(tr: Trim, raw: int)
    requires InRange(tr, raw)
    ensures var x := raw / 16 - tr.t1; 0 <= x * x <= 0x4000_0000
    ensures 0 <= Square(tr, raw) <= 0x4_0000
  {
    OffsetBound(tr, raw);
    var x := raw / 16 - tr.t1;
    MulBound(x, x, 0x8000, 0x8000);
    assert x * x >= 0;
  }

  /** In range, every intermediate fits its word and the code computes the unlimited formula. */
  lemma TemperatureFits(tr: Trim, raw: int)
    requires InRange(tr, raw)
    ensures InS32((raw / 8 - 2 * tr.t1) * tr.t2) && InS32((raw / 16 - tr.t1) * (raw / 16 - tr.t1))
    ensures InS32(Square(tr, raw) * tr.t3 / 0x4000) && InS32(Fine(tr, raw) * 5 + 128)
    ensures FineC(tr, raw) == Fine(tr, raw) && CentiC(Fine(tr, raw)) == Centi(Fine(tr, raw))
    ensures -0x18_0000 <= Fine(tr, raw) <= 0x18_0000
  {
    OffsetBound(tr, raw);
    SquareBound(tr, raw);
    MulBound(raw / 8 - 2 * tr.t1, tr.t2, 0xFFFF, 0x7FFF);
    MulBound(Square(tr, raw), tr.t3, 0x4_0000, 0x8000);
  }

  /* ---- accuracy ---- */

  /** The exact polynomial behind the shifts, in hundredths of a degree. */
  function ExactCenti(tr: Trim, raw: int): real {
    var x := raw as real / 16.0 - tr.t1 as real;
    var fine := 2.0 * x * tr.t2 as real / 2048.0 + x * x / 4096.0 * tr.t3 as real / 16384.0;
    fine * 5.0 / 256.0
  }

  const SCALE := 0x4_0000_0000  // 2^34

  /** 2^34 times the exact `fine`. */
  function ScaledFine(tr: Trim, raw: int): int {
    var y := raw - 16 * tr.t1;
    y * tr.t2 * 0x10_0000 + y * y * tr.t3
  }

  lemma LinearError(tr: Trim, raw: int)
    requires InRange(tr, raw)
    ensures 0 <= (raw - 16 * tr.t1) * tr.t2 - 0x4000 * Linear(tr, raw) < 15 * 0x4000
  {
    var a, e := raw / 8 - 2 * tr.t1, raw % 8;
    var y := raw - 16 * tr.t1;
    assert y == 8 * a + e;
    assert y * tr.t2 == 8 * (a * tr.t2) + e * tr.t2;
    MulMonotone(0, e, tr.t2);
    MulMonotone(e, 7, tr.t2);
  }

  lemma SquareError(tr: Trim, raw: int)
    requires InRange(tr, raw)
    ensures var y := raw - 16 * tr.t1;
            -0x100_0000 < y * y - 0x10_0000 * Square(tr, raw) < 0x100_0000
  {
    OffsetBound(tr, raw);
    assert raw - 16 * tr.t1 == 16 * (raw / 16 - tr.t1) + raw % 16;
    CutError(raw / 16 - tr.t1, raw % 16);
  }

  lemma CutError(x: int, f: int)
    requires -0x8000 <= x <= 0x7FFF && 0 <= f < 16
    ensures -0x100_0000 < (16 * x + f) * (16 * x + f) - 0x10_0000 * Cut(x) < 0x100_0000
  {
    assert (16 * x + f) * (16 * x + f) == 256 * (x * x) + 32 * (x * f) + f * f;
    MulBound(x, f, 0x8000, 15);
    MulBound(f, f, 15, 15);
    assert f * f >= 0;
  }

  lemma QuadraticError(tr: Trim, raw: int)
    requires InRange(tr, raw)
    ensures var y := raw - 16 * tr.t1;
            -32 * SCALE <= y * y * tr.t3 - SCALE * Quadratic(tr, raw) < 33 * SCALE
  {
    var y, s := raw - 16 * tr.t1, Square(tr, raw);
    var d := y * y - 0x10_0000 * s;
    SquareError(tr, raw);
    MulBound(d, tr.t3, 0x100_0000, 0x8000);
    assert y * y * tr.t3 == 0x10_0000 * (s * tr.t3) + d * tr.t3;
  }

  lemma ExactIsScaled(tr: Trim, raw: int)
    ensures ExactCenti(tr, raw) == ScaledFine(tr, raw) as real * 5.0 / (256.0 * SCALE as real)
  {
    var y := raw - 16 * tr.t1;
    var x, t2, t3 := raw as real / 16.0 - tr.t1 as real, tr.t2 as real, tr.t3 as real;
    var yr := y as real;
    assert yr == 16.0 * x;
    assert (y * tr.t2) as real == yr * t2 && (y * y) as real == yr * yr;
    assert (y * y * tr.t3) as real == yr * yr * t3;
    assert ScaledFine(tr, raw) as real == 1048576.0 * (yr * t2) + yr * yr * t3;
    assert yr * t2 == 16.0 * (x * t2) && yr * yr * t3 == 256.0 * (x * x * t3);
    assert 2.0 * x * t2 / 2048.0 == x * t2 / 1024.0;
    assert x * x / 4096.0 * t3 / 16384.0 == x * x * t3 / 67108864.0;
  }

  lemma FineError(tr: Trim, raw: int)
    requires InRange(tr, raw)
    ensures -32 * SCALE <= ScaledFine(tr, raw) - SCALE * Fine(tr, raw) < 48 * SCALE
  {
    LinearError(tr, raw);
    QuadraticError(tr, raw);
  }

  /** The code's result is within one and a half hundredths of a degree of the exact polynomial. */
  lemma TemperatureAccurate(tr: Trim, raw: int)
    requires InRange(tr, raw)
    ensures -1.5 < CentiC(FineC(tr, raw)) as real - ExactCenti(tr, raw) < 1.5
  {
    hide FineC, CentiC, Fine, ScaledFine, ExactCenti, InRange;
    TemperatureFits(tr, raw);
    FineError(tr, raw);
    ExactIsScaled(tr, raw);
    var fine, scaled, c := Fine(tr, raw), ScaledFine(tr, raw), Centi(Fine(tr, raw));
    assert 256 * c - 128 <= 5 * fine < 256 * c + 128;
    assert -384 * SCALE < 256 * SCALE * c - 5 * scaled < 384 * SCALE;
    var whole := 256.0 * SCALE as real;
    assert (c as real - ExactCenti(tr, raw)) * whole == (256 * SCALE * c - 5 * scaled) as real;
  }
}
