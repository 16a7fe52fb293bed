/** read_pressure: 64-bit overflow freedom, the zero guard and monotonicity in the raw code. */
module Bmp280Pressure {
  import opened CInt
  import opened Bmp280Trim

  const P25 := 0x200_0000
  const P31 := 0x8000_0000
  const P33 := 0x2_0000_0000
  const P35 := 0x8_0000_0000
  const P47 := 0x8000_0000_0000

  /* The code as written: int is 32 bits, long and s64 are 64; `1 << 47` is the 64-bit power. */

  function OffsetC(fine: int): int { S32(fine - 128_000) }

  function Var2C(tr: Trim, v: int): int {
    S64(S64(S64(S64(v * v) * tr.p6) + S64(v * S64(tr.p5 * 0x2_0000))) + S64(tr.p4 * P35))
  }

  function Var1C(tr: Trim, v: int): int {
    S64(S64(S64(v * v) * tr.p3) / 0x100 + S64(S64(v * tr.p2) * 0x1000))
  }

  function DivisorC(tr: Trim, v: int): int { S64(S64(P47 + Var1C(tr, v)) * tr.p1) / P33 }

  function DividendC(tr: Trim, v: int, raw: int): int {
    S64(S64(S64((0x10_0000 - raw) * P31) - Var2C(tr, v)) * 3125)
  }

  function SquareC(tr: Trim, q: int): int { S64(S64(tr.p9 * (q / 0x2000)) * (q / 0x2000)) / P25 }

  function SlopeC(tr: Trim, q: int): int { S64(tr.p8 * q) / 0x8_0000 }

  function RefineC(tr: Trim, q: int): int {
    S64(S64(q + SquareC(tr, q) + SlopeC(tr, q)) / 0x100 + S32(tr.p7 * 16))
  }

  /** C division of signed words by a divisor of either sign. */
  function QuotC(a: int, b: int): int
    requires b != 0
  {
    if b > 0 then TDiv(a, b) else -TDiv(a, -b)
  }

  function PressureC(tr: Trim, fine: int, raw: int): int {
    var v := OffsetC(fine);
    if DivisorC(tr, v) == 0 then 0
    else U32(RefineC(tr, QuotC(DividendC(tr, v, raw), DivisorC(tr, v)))) / 256
  }

  /* The same without word limits. */

  function Var2(tr: Trim, v: int): int { v * v * tr.p6 + v * (tr.p5 * 0x2_0000) + tr.p4 * P35 }

  function Var1(tr: Trim, v: int): int { v * v * tr.p3 / 0x100 + v * tr.p2 * 0x1000 }

  function Divisor(tr: Trim, v: int): int { (P47 + Var1(tr, v)) * tr.p1 / P33 }

  function Dividend(tr: Trim, v: int, raw: int): int { ((0x10_0000 - raw) * P31 - Var2(tr, v)) * 3125 }

  function Square(tr: Trim, q: int): int { tr.p9 * (q / 0x2000) * (q / 0x2000) }

  function Refine(tr: Trim, q: int): int {
    (q + Square(tr, q) / P25 + tr.p8 * q / 0x8_0000) / 0x100 + tr.p7 * 16
  }

  function Quotient(tr: Trim, fine: int, raw: int): int {
    var d := Divisor(tr, fine - 128_000);
    if d > 0 then TDiv(Dividend(tr, fine - 128_000, raw), d) else 0
  }

  /* ---- the calibration box ---- */

  /** Trims for which the intermediates stay in 64 bits, leaving p1 aside. */
  predicate TrimBox(tr: Trim) {
    && IsS16(tr.p2) && IsU16(tr.p3) && 0 <= tr.p4 <= 8192 && 0 <= tr.p5 <= 4096 && 0 <= tr.p6 <= 1024
    && IsS16(tr.p7) && IsS16(tr.p8) && IsU16(tr.p9)
  }

  predicate FineRange(fine: int) { -204_800 <= fine <= 435_200 }

  predicate Box(tr: Trim, fine: int) { TrimBox(tr) && 20_000 <= tr.p1 <= 43_000 && FineRange(fine) }

  const V := 332_800                     // |fine - 128000|
  const VV := 110_755_840_000            // its square
  const TOP2 := 574_000_000_000_000      // |var2|
  const TOP1 := 73_020_722_278_400       // |var1| before the division
  const LOW1 := 44_667_659_878_400       // the largest negative part of var1
  const TOPD := 1_071_000_000            // divisor
  const LOWD := 223_000_000
  const TOPQ := 34_100_000_000           // |quotient|

  lemma OffsetSquare(v: int)
    requires -V <= v <= V
    ensures 0 <= v * v <= VV
  {
    MulBound(v, v, V, V);
    assert v * v >= 0;
  }

  /** The terms of var2. */
  lemma Var2Fits(tr: Trim, v: int)
    requires TrimBox(tr) && -V <= v <= V
    ensures -TOP2 <= v * v * tr.p6 <= TOP2 && -TOP2 <= v * (tr.p5 * 0x2_0000) <= TOP2
    ensures -178_700_000_000_000 <= Var2(tr, v) <= TOP2
    ensures Var2C(tr, v) == Var2(tr, v)
  {
    OffsetSquare(v);
    MulBound(v * v, tr.p6, VV, 1024);
    MulMonotone(0, tr.p6, v * v);
    MulBound(v, tr.p5 * 0x2_0000, V, 0x2000_0000);
  }

  /** The terms of var1. */
  lemma Var1Fits(tr: Trim, v: int)
    requires TrimBox(tr) && -V <= v <= V
    ensures 0 <= v * v * tr.p3 <= VV * 0xFFFF && -V * 0x8000 <= v * tr.p2 <= V * 0x8000
    ensures -LOW1 <= Var1(tr, v) <= TOP1
    ensures Var1C(tr, v) == Var1(tr, v)
  {
    OffsetSquare(v);
    MulBound(v * v, tr.p3, VV, 0xFFFF);
    MulMonotone(0, v * v, tr.p3);
    MulBound(v, tr.p2, V, 0x8000);
  }

  lemma ShiftRange(x: int, p: int)
    requires 0 <= p && (P47 - LOW1) * p <= x <= (P47 + TOP1) * p
    ensures x / P33 == 0 <==> p == 0
    ensures p >= 20_000 ==> x / P33 >= LOWD
    ensures p <= 43_000 ==> x / P33 <= TOPD && x < TWO_63
  {
  }

  /** A value in the range of 2^47 + var1, times p1. */
  lemma ScaleFits(s: int, p: int)
    requires P47 - LOW1 <= s <= P47 + TOP1 && 0 <= p <= 43_000
    ensures 0 <= s * p < TWO_63 && (s * p / P33 == 0 <==> p == 0)
    ensures p >= 20_000 ==> LOWD <= s * p / P33 <= TOPD
  {
    MulMonotone(P47 - LOW1, s, p);
    MulMonotone(s, P47 + TOP1, p);
    ShiftRange(s * p, p);
  }

  lemma DivisorFits(tr: Trim, v: int)
    requires TrimBox(tr) && -V <= v <= V && 0 <= tr.p1 <= 43_000
    ensures InS64((P47 + Var1(tr, v)) * tr.p1)
    ensures DivisorC(tr, v) == Divisor(tr, v)
    ensures Divisor(tr, v) >= 0 && (Divisor(tr, v) == 0 <==> tr.p1 == 0)
    ensures tr.p1 >= 20_000 ==> LOWD <= Divisor(tr, v) <= TOPD
  {
    hide Var1, Var1C;
    Var1Fits(tr, v);
    ScaleFits(P47 + Var1(tr, v), tr.p1);
  }

  lemma DividendFits(tr: Trim, v: int, raw: int)
    requires TrimBox(tr) && -V <= v <= V && 0 <= raw < 0x10_0000
    ensures InS64((0x10_0000 - raw) * P31) && InS64((0x10_0000 - raw) * P31 - Var2(tr, v))
    ensures -TOP2 * 3125 <= Dividend(tr, v, raw) <= 2_431_000_000_000_000 * 3125
    ensures DividendC(tr, v, raw) == Dividend(tr, v, raw)
  {
    Var2Fits(tr, v);
  }

  lemma QuotientFits(a: int, d: int)
    requires -TOP2 * 3125 <= a <= 2_431_000_000_000_000 * 3125 && d >= LOWD
    ensures -TOPQ <= TDiv(a, d) <= TOPQ && QuotC(a, d) == TDiv(a, d)
  {
    var b := if a >= 0 then a else -a;
    MulMonotone(LOWD, d, TOPQ);
    DivMonotone(b, d * TOPQ, d);
    DivUnique(d * TOPQ, d, TOPQ, 0);
  }

  lemma RefineFits(tr: Trim, q: int)
    requires TrimBox(tr) && -TOPQ <= q <= TOPQ
    ensures InS64(tr.p9 * (q / 0x2000)) && InS64(Square(tr, q)) && InS64(tr.p8 * q) && InS32(tr.p7 * 16)
    ensures RefineC(tr, q) == Refine(tr, q)
    ensures -TWO_31 <= Refine(tr, q) < TWO_31
  {
    var h := q / 0x2000;
    MulBound(h, h, 4_163_000, 4_163_000);
    assert h * h >= 0;
    MulBound(tr.p9, h, 0xFFFF, 4_163_000);
    MulBound(tr.p9, h * h, 0xFFFF, 4_163_000 * 4_163_000);
    MulMonotone(0, tr.p9, h * h);
    assert tr.p9 * h * h == tr.p9 * (h * h);
    MulBound(tr.p8, q, 0x8000, TOPQ);
  }

  /** In the box the wrapped code computes the unlimited formula. */
  lemma PressureFits(tr: Trim, fine: int, raw: int)
    requires Box(tr, fine) && 0 <= raw < 0x10_0000
    ensures var v := fine - 128_000;
            && OffsetC(fine) == v && Var2C(tr, v) == Var2(tr, v) && Var1C(tr, v) == Var1(tr, v)
            && DividendC(tr, v, raw) == Dividend(tr, v, raw)
            && DivisorC(tr, v) == Divisor(tr, v) && Divisor(tr, v) > 0
            && RefineC(tr, Quotient(tr, fine, raw)) == Refine(tr, Quotient(tr, fine, raw))
            && -TWO_31 <= Refine(tr, Quotient(tr, fine, raw)) < TWO_31
    ensures PressureC(tr, fine, raw) == U32(Refine(tr, Quotient(tr, fine, raw))) / 256
  {
    hide Var1, Var2, Var1C, Var2C, Divisor, DivisorC, Dividend, DividendC, Refine, RefineC, TDiv, QuotC;
    var v := fine - 128_000;
    Var2Fits(tr, v);
    Var1Fits(tr, v);
    DivisorFits(tr, v);
    DividendFits(tr, v, raw);
    QuotientFits(Dividend(tr, v, raw), Divisor(tr, v));
    RefineFits(tr, Quotient(tr, fine, raw));
  }

  /** The products and sums of var2, stage by stage. */
  lemma Var2Stages(tr: Trim, v: int)
    requires TrimBox(tr) && -V <= v <= V
    ensures InS64(v * v) && InS64(v * v * tr.p6) && InS64(tr.p5 * 0x2_0000) && InS64(v * (tr.p5 * 0x2_0000))
    ensures InS64(v * v * tr.p6 + v * (tr.p5 * 0x2_0000)) && InS64(tr.p4 * P35) && InS64(Var2(tr, v))
  {
    OffsetSquare(v);
    Var2Fits(tr, v);
  }

  /** Those of var1 and of the divisor. */
  lemma Var1Stages(tr: Trim, v: int)
    requires TrimBox(tr) && -V <= v <= V && 0 <= tr.p1 <= 43_000
    ensures InS64(v * v * tr.p3) && InS64(v * tr.p2) && InS64(v * tr.p2 * 0x1000) && InS64(Var1(tr, v))
    ensures InS64(P47 + Var1(tr, v)) && InS64((P47 + Var1(tr, v)) * tr.p1)
  {
    Var1Fits(tr, v);
    DivisorFits(tr, v);
  }

  /** Those of the dividend, the quotient and the refinement. */
  lemma RefineStages(tr: Trim, fine: int, raw: int)
    requires Box(tr, fine) && 0 <= raw < 0x10_0000
    ensures var v, q := fine - 128_000, Quotient(tr, fine, raw);
            && InS64((0x10_0000 - raw) * P31) && InS64((0x10_0000 - raw) * P31 - Var2(tr, v))
            && InS64(Dividend(tr, v, raw)) && InS64(q)
            && InS64(tr.p9 * (q / 0x2000)) && InS64(Square(tr, q)) && InS64(tr.p8 * q)
            && InS64(q + Square(tr, q) / P25) && InS64(q + Square(tr, q) / P25 + tr.p8 * q / 0x8_0000)
            && InS32(tr.p7 * 16) && InS32(Refine(tr, q))
  {
    var v, q := fine - 128_000, Quotient(tr, fine, raw);
    DividendFits(tr, v, raw);
    DivisorFits(tr, v);
    QuotientFits(Dividend(tr, v, raw), Divisor(tr, v));
    hide Divisor, Dividend, Var2;
    RefineFits(tr, q);
    hide Square;
  }

  /** No intermediate of read_pressure overflows its 32 or 64 bits anywhere in the box, and the divisor is positive. */
  lemma NothingOverflows(tr: Trim, fine: int, raw: int)
    requires Box(tr, fine) && 0 <= raw < 0x10_0000
    ensures var v := fine - 128_000;
            && InS32(v)
            && InS64(v * v) && InS64(v * v * tr.p6) && InS64(tr.p5 * 0x2_0000) && InS64(v * (tr.p5 * 0x2_0000))
            && InS64(v * v * tr.p6 + v * (tr.p5 * 0x2_0000)) && InS64(tr.p4 * P35) && InS64(Var2(tr, v))
            && InS64(v * v * tr.p3) && InS64(v * tr.p2) && InS64(v * tr.p2 * 0x1000) && InS64(Var1(tr, v))
            && InS64(P47 + Var1(tr, v)) && InS64((P47 + Var1(tr, v)) * tr.p1) && 0 < Divisor(tr, v) < TWO_31
    ensures var v, q := fine - 128_000, Quotient(tr, fine, raw);
            && InS64((0x10_0000 - raw) * P31) && InS64((0x10_0000 - raw) * P31 - Var2(tr, v))
            && InS64(Dividend(tr, v, raw)) && InS64(q)
            && InS64(tr.p9 * (q / 0x2000)) && InS64(Square(tr, q)) && InS64(tr.p8 * q)
            && InS64(q + Square(tr, q) / P25) && InS64(q + Square(tr, q) / P25 + tr.p8 * q / 0x8_0000)
            && InS32(tr.p7 * 16) && InS32(Refine(tr, q))
  {
    hide Divisor, Dividend, Var1, Var2, Quotient, Refine, Square;
    Var2Stages(tr, fine - 128_000);
    Var1Stages(tr, fine - 128_000);
    DivisorFits(tr, fine - 128_000);
    RefineStages(tr, fine, raw);
  }

  /** With p1 allowed down to 0, the guard against division by zero fires exactly for p1 = 0, and then 0 is read. */
  lemma ZeroGuard(tr: Trim, fine: int, raw: int)
    requires TrimBox(tr) && 0 <= tr.p1 <= 43_000 && FineRange(fine)
    ensures DivisorC(tr, OffsetC(fine)) == 0 <==> tr.p1 == 0
    ensures tr.p1 == 0 ==> PressureC(tr, fine, raw) == 0
  {
    hide DivisorC, DividendC, RefineC;
    DivisorFits(tr, fine - 128_000);
  }

  /* ---- monotonicity ---- */

  /** The negative p8 term cannot outweigh the quotient itself: it takes back at most a sixteenth of a rise. */
  lemma SlopeStep(p8: int, q: int, g: int)
    requires IsS16(p8) && g >= 0
    ensures q + g + p8 * (q + g) / 0x8_0000 >= q + p8 * q / 0x8_0000 + g - g / 16 - 1
  {
    assert p8 * (q + g) == p8 * q + p8 * g;
    FloorSum(p8 * q, p8 * g, 0x8_0000);
    MulMonotone(-0x8000, p8, g);
    DivMonotone(-0x8000 * g, p8 * g, 0x8_0000);
  }

  const STEP := P31 * 3125               // one raw code in the dividend
  const LOWG := 6_000                    // in the quotient
  const TOPG := 30_100

  lemma TDivBounds(a: int, d: int)
    requires d > 0
    ensures -d < TDiv(a, d) * d - a < d
  {
    var b := if a >= 0 then a else -a;
    assert b == b / d * d + b % d;
    assert (-(b / d)) * d == -(b / d * d);
  }

  lemma Below(x: int, y: int, d: int)
    requires d > 0 && x * d < y * d
    ensures x < y
  {
    if x >= y {
      MulMonotone(y, x, d);
    }
  }

  /** One raw code moves the quotient by g, and a negative quotient is at most 267291 (g + 2) below zero. */
  lemma QuotientStep(a: int, d: int)
    requires LOWD <= d <= TOPD && a >= -TOP2 * 3125 + STEP
    ensures var q, g := TDiv(a, d), TDiv(a + STEP, d) - TDiv(a, d);
            LOWG <= g <= TOPG && -q <= 267_291 * (g + 2)
  {
    var q, g := TDiv(a, d), TDiv(a + STEP, d) - TDiv(a, d);
    TDivBounds(a, d);
    TDivBounds(a + STEP, d);
    hide TDiv;
    assert g * d == (q + g) * d - q * d;
    assert (g + 2) * d == g * d + 2 * d;
    Below(LOWG + 1, g + 2, d);
    Below(g, TOPG + 1, d);
    assert (267_290 * (g + 2) + 1) * d == 267_290 * ((g + 2) * d) + d;
    assert -q * d == -(q * d);
    Below(-q, 267_290 * (g + 2) + 1, d);
  }

  /** The p9 square, which grows again below zero, takes back less than the quotient gives. */
  lemma SquareStep(tr: Trim, q: int, g: int)
    requires IsU16(tr.p9) && LOWG <= g <= TOPG && -q <= 267_291 * (g + 2)
    ensures Square(tr, q) / P25 - Square(tr, q + g) / P25 <= g - g / 16 - 2
  {
    var h, k := q / 0x2000, (q + g) / 0x2000 - q / 0x2000;
    var n := if h < 0 then -h else 0;
    assert 0 <= k <= 4;
    SquareFall(h, k, n);
    SquareRise(tr.p9, h, k, n);
    hide Square;
    SquareShift(Square(tr, q), Square(tr, q + g), n, g);
  }

  lemma SquareRise(p9: int, h: int, k: int, n: int)
    requires IsU16(p9) && n >= 0 && h * h - (h + k) * (h + k) <= 8 * n
    ensures p9 * h * h - p9 * (h + k) * (h + k) <= 0xFFFF * (8 * n)
  {
    var rise := h * h - (h + k) * (h + k);
    assert p9 * h * h == p9 * (h * h) && p9 * (h + k) * (h + k) == p9 * ((h + k) * (h + k));
    assert p9 * (h * h) == p9 * ((h + k) * (h + k)) + p9 * rise;
    MulMonotone(rise, 8 * n, p9);
    MulMonotone(p9, 0xFFFF, 8 * n);
  }

  lemma SquareShift(s: int, s': int, n: int, g: int)
    requires s - s' <= 0xFFFF * (8 * n) && n >= 0 && LOWG <= g <= TOPG && 0x2000 * n <= 267_291 * (g + 2) + 0x1FFF
    ensures s / P25 - s' / P25 <= g - g / 16 - 2
  {
  }

  lemma SquareFall(h: int, k: int, n: int)
    requires 0 <= k <= 4 && n >= 0 && n >= -h
    ensures h * h - (h + k) * (h + k) <= 8 * n
  {
    assert (h + k) * (h + k) == h * h + 2 * (h * k) + k * k;
    assert h * k >= -(n * k) by { MulMonotone(-n, h, k); }
    MulMonotone(k, 4, n);
    assert k * k >= 0;
  }

  lemma RefineStep(tr: Trim, q: int, g: int)
    requires TrimBox(tr) && LOWG <= g <= TOPG && -q <= 267_291 * (g + 2)
    ensures Refine(tr, q) <= Refine(tr, q + g)
  {
    hide Square;
    SquareStep(tr, q, g);
    SlopeStep(tr.p8, q, g);
  }

  lemma PressureStep(tr: Trim, fine: int, raw: int)
    requires Box(tr, fine) && 0 <= raw < 0xF_FFFF
    ensures Refine(tr, Quotient(tr, fine, raw + 1)) <= Refine(tr, Quotient(tr, fine, raw))
  {
    hide Divisor, Refine, TDiv, Var2;
    var v := fine - 128_000;
    Var2Fits(tr, v);
    DivisorFits(tr, v);
    QuotientStep(Dividend(tr, v, raw + 1), Divisor(tr, v));
    RefineStep(tr, Quotient(tr, fine, raw + 1), Quotient(tr, fine, raw) - Quotient(tr, fine, raw + 1));
  }

  /** Over the whole box the compensated value is non-increasing in the raw code. */
  lemma {:induction false} RefineMonotone(tr: Trim, fine: int, raw: int, raw': int)
    requires Box(tr, fine) && 0 <= raw <= raw' < 0x10_0000
    ensures Refine(tr, Quotient(tr, fine, raw')) <= Refine(tr, Quotient(tr, fine, raw))
    decreases raw' - raw
  {
    hide Refine, Quotient, Box;
    if raw < raw' {
      PressureStep(tr, fine, raw);
      RefineMonotone(tr, fine, raw + 1, raw');
    }
  }

  /** Order survives the u32 cast and the division unless zero lies between. */
  lemma CastOrder(a: int, a': int)
    requires -TWO_31 <= a' <= a < TWO_31
    ensures U32(a') / 256 <= U32(a) / 256 <==> a' >= 0 || a < 0
  {
    assert a < 0 ==> U32(a) == a + TWO_32;
    assert a' < 0 ==> U32(a') == a' + TWO_32;
  }

  lemma QuotientRange(tr: Trim, fine: int, raw: int)
    requires Box(tr, fine) && 0 <= raw < 0x10_0000
    ensures -TOPQ <= Quotient(tr, fine, raw) <= TOPQ
    ensures Dividend(tr, fine - 128_000, raw) >= 0 ==> Quotient(tr, fine, raw) >= 0
  {
    hide Divisor, Dividend;
    DivisorFits(tr, fine - 128_000);
    DividendFits(tr, fine - 128_000, raw);
    QuotientFits(Dividend(tr, fine - 128_000, raw), Divisor(tr, fine - 128_000));
    if Dividend(tr, fine - 128_000, raw) >= 0 {
      DivMonotone(0, Dividend(tr, fine - 128_000, raw), Divisor(tr, fine - 128_000));
    }
  }

  /** In the box a larger raw code reads no higher pressure exactly when the compensated value does not cross zero:
      a negative one wraps in the u32 cast. */
  lemma PressureMonotone(tr: Trim, fine: int, raw: int, raw': int)
    requires Box(tr, fine) && 0 <= raw <= raw' < 0x10_0000
    ensures PressureC(tr, fine, raw') <= PressureC(tr, fine, raw)
       <==> Refine(tr, Quotient(tr, fine, raw')) >= 0 || Refine(tr, Quotient(tr, fine, raw)) < 0
  {
    hide Divisor, Quotient, PressureC, Refine;
    PressureFits(tr, fine, raw);
    PressureFits(tr, fine, raw');
    RefineMonotone(tr, fine, raw, raw');
    CastOrder(Refine(tr, Quotient(tr, fine, raw)), Refine(tr, Quotient(tr, fine, raw')));
  }

  const RISING := Trim(0, 0, 0, 36_477, 0, 0, 0, 0, 0, -7, 0, 0)

  lemma RisingDivisor()
    ensures Divisor(RISING, 0) == 597_639_168
  {
    RisingVar1();
    hide Var1;
    ScaledDivisor(P47 + Var1(RISING, 0), 36_477, 597_639_168);
  }

  lemma RisingVar1()
    ensures Var1(RISING, 0) == 0
  {
  }

  lemma ScaledDivisor(s: int, p: int, q: int)
    requires s * p == P33 * q
    ensures s * p / P33 == q
  {
    DivUnique(s * p, P33, q, 0);
  }

  lemma RisingDividend(raw: int)
    ensures Dividend(RISING, 0, raw) == (0x10_0000 - raw) * STEP
  {
    assert Var2(RISING, 0) == 0;
    hide Var2;
  }

  lemma RisingQuotient(raw: int, q: int, r: int)
    requires 0 <= raw < 0x10_0000 && (0x10_0000 - raw) * STEP == 597_639_168 * q + r && 0 <= r < 597_639_168
    ensures Quotient(RISING, 128_000, raw) == q
  {
    hide Dividend, Divisor;
    RisingDivisor();
    RisingDividend(raw);
    var a := Dividend(RISING, 0, raw);
    DivUnique(a, 597_639_168, q, r);
  }

  lemma RisingRefine(q: int)
    ensures Refine(RISING, q) == q / 0x100 - 112
  {
    assert Square(RISING, q) == 0;
    hide Square;
  }

  lemma RisingBox()
    ensures Box(RISING, 128_000)
  {
  }

  lemma RisingValue(raw: int, q: int, r: int)
    requires 0 <= raw < 0x10_0000 && (0x10_0000 - raw) * STEP == 597_639_168 * q + r && 0 <= r < 597_639_168
    ensures Refine(RISING, Quotient(RISING, 128_000, raw)) == q / 0x100 - 112
  {
    hide Refine, Quotient;
    RisingQuotient(raw, q, r);
    RisingRefine(q);
  }

  /** Such a crossing exists in the box: the larger of two codes reads a pressure near the top of the u32 range. */
  lemma PressureCanRise()
    ensures Box(RISING, 128_000) && PressureC(RISING, 128_000, 0xF_FFFF) > PressureC(RISING, 128_000, 0xF_0000)
  {
    hide PressureC, Quotient, Refine, Box;
    RisingBox();
    RisingValue(0xF_FFFF, 11_228, 593_821_696);
    RisingValue(0xF_0000, 735_903_325, 228_966_400);
    PressureMonotone(RISING, 128_000, 0xF_0000, 0xF_FFFF);
  }
}
