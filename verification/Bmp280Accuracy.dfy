/** How far read_pressure lies from the exact rational value of the formula behind its shifts. */
module Bmp280Accuracy {
  import opened CInt
  import opened Bmp280Trim
  import opened Bmp280Pressure

  /* ---- the exact formula, with every constant written out ---- */

  /** The raw code after subtracting the p6, p5 and p4 terms of the offset, counted down from 2^20. */
  function ExactRaw(tr: Trim, fine: int, raw: int): real {
    var v := fine as real - 128000.0;
    1048576.0 - raw as real
    - v * v * tr.p6 as real / 2147483648.0 - v * tr.p5 as real / 16384.0 - 16.0 * tr.p4 as real
  }

  function ExactDivisor(tr: Trim, fine: int): real {
    var v := fine as real - 128000.0;
    (140737488355328.0 + v * v * tr.p3 as real / 256.0 + v * tr.p2 as real * 4096.0) * tr.p1 as real / 8589934592.0
  }

  /** The quotient without rounding; 6710886400000 is 2^31 times 3125. */
  function ExactQuotient(tr: Trim, fine: int, raw: int): real {
    if ExactDivisor(tr, fine) > 0.0 then ExactRaw(tr, fine, raw) * 6710886400000.0 / ExactDivisor(tr, fine) else 0.0
  }

  const R51 := 2251799813685248.0
  const R19 := 524288.0

  /** The refinement polynomial without rounding. */
  function Polynomial(tr: Trim, x: real): real { x + tr.p9 as real * (x * x) / R51 + tr.p8 as real * x / R19 }

  function ExactPascal(tr: Trim, x: real): real { (Polynomial(tr, x) / 256.0 + tr.p7 as real * 16.0) / 256.0 }

  /* ---- the code against it ---- */

  const P41 := 0x200_0000_0000

  /** 2^41 times the exact divisor. */
  function ScaledDivisor(tr: Trim, v: int): int {
    (0x100 * P47 + v * v * tr.p3 + v * tr.p2 * 0x10_0000) * tr.p1
  }

  lemma RealProduct(x: int, y: int)
    ensures (x * y) as real == x as real * y as real
  {
  }

  lemma LinearDividend(raw: int, a: int, b: int, p4: int)
    ensures (((0x10_0000 - raw) * P31 - (a + 0x2_0000 * b + p4 * P35)) * 3125) as real
         == (1048576.0 - raw as real - a as real / 2147483648.0 - b as real / 16384.0 - 16.0 * p4 as real)
            * 6710886400000.0
  {
  }

  lemma DividendIsExact(tr: Trim, fine: int, raw: int)
    ensures Dividend(tr, fine - 128_000, raw) as real == ExactRaw(tr, fine, raw) * 6710886400000.0
  {
    var v := fine - 128_000;
    RealProduct(v, v);
    RealProduct(v * v, tr.p6);
    RealProduct(v, tr.p5);
    assert v as real == fine as real - 128000.0;
    assert v * (tr.p5 * 0x2_0000) == 0x2_0000 * (v * tr.p5);
    LinearDividend(raw, v * v * tr.p6, v * tr.p5, tr.p4);
  }

  lemma LinearDivisor(a: int, b: int)
    ensures (0x100 * P47 + a + b * 0x10_0000) as real
         == 256.0 * (140737488355328.0 + a as real / 256.0 + b as real * 4096.0)
  {
  }

  lemma DivisorIsExact(tr: Trim, fine: int)
    ensures ScaledDivisor(tr, fine - 128_000) as real == ExactDivisor(tr, fine) * 2199023255552.0
  {
    var v := fine - 128_000;
    RealProduct(v, v);
    RealProduct(v * v, tr.p3);
    RealProduct(v, tr.p2);
    assert v as real == fine as real - 128000.0;
    var s := 0x100 * P47 + v * v * tr.p3 + v * tr.p2 * 0x10_0000;
    LinearDivisor(v * v * tr.p3, v * tr.p2);
    RealProduct(s, tr.p1);
    var vr := v as real;
    var sr := 140737488355328.0 + vr * vr * tr.p3 as real / 256.0 + vr * tr.p2 as real * 4096.0;
    assert s as real == 256.0 * sr;
    Scaled(sr, tr.p1 as real);
  }

  lemma Scaled(s: real, p: real)
    ensures 256.0 * s * p == s * p / 8589934592.0 * 2199023255552.0
  {
  }

  lemma QuotientIsExact(tr: Trim, fine: int, raw: int)
    requires ScaledDivisor(tr, fine - 128_000) > 0
    ensures ExactQuotient(tr, fine, raw)
         == (Dividend(tr, fine - 128_000, raw) * P41) as real / ScaledDivisor(tr, fine - 128_000) as real
    ensures ExactRaw(tr, fine, raw) >= 0.0 <==> Dividend(tr, fine - 128_000, raw) >= 0
  {
    hide ExactRaw, ExactDivisor, ScaledDivisor, Dividend;
    DividendIsExact(tr, fine, raw);
    DivisorIsExact(tr, fine);
    var n, d := ExactRaw(tr, fine, raw) * 6710886400000.0, ExactDivisor(tr, fine);
    assert d > 0.0;
    Cancel(n, d, 2199023255552.0);
  }

  lemma Cancel(n: real, d: real, k: real)
    requires d > 0.0 && k > 0.0
    ensures n / d == n * k / (d * k)
  {
    var x := n / d;
    assert x * d == n;
    assert x * (d * k) == n * k;
  }

  /** The rounded divisor is below the exact one by little more than one. */
  lemma DivisorError(tr: Trim, v: int)
    requires TrimBox(tr) && -V <= v <= V && 20_000 <= tr.p1 <= 43_000
    ensures P41 * Divisor(tr, v) <= ScaledDivisor(tr, v) < P41 * Divisor(tr, v) + P41 + 0x100_0000
    ensures ScaledDivisor(tr, v) >= P41 * LOWD
  {
    DivisorFits(tr, v);
    var a, b, p := v * v * tr.p3, v * tr.p2 * 0x1000, tr.p1;
    var s := P47 + a / 0x100 + b;
    assert v * tr.p2 * 0x10_0000 == 0x100 * b;
    assert ScaledDivisor(tr, v) == (0x100 * s + a % 0x100) * p;
    assert (0x100 * s + a % 0x100) * p == 0x100 * (s * p) + a % 0x100 * p;
    MulBound(a % 0x100, p, 0xFF, 43_000);
    MulMonotone(0, a % 0x100, p);
    assert Divisor(tr, v) == s * p / P33;
  }

  /** The truncated quotient against the exact one, multiplied out. */
  lemma QuotientError(n: int, d: int, e: int, q: int)
    requires n >= 0 && d >= LOWD && q == n / d && q <= TOPQ
    requires P41 * d <= e < P41 * d + P41 + 0x100_0000
    ensures -153 * e <= n * P41 - q * e < e
    ensures q >= 0
  {
    assert n == d * q + n % d;
    assert q >= 0 by { DivMonotone(0, n, d); }
    assert P41 * (d * q) == P41 * d * q;
    MulMonotone(P41 * d, e, q);
    MulMonotone(e, P41 * d + P41 + 0x100_0000, q);
    assert (P41 * d + P41 + 0x100_0000) * q == P41 * d * q + (P41 + 0x100_0000) * q;
    assert P41 * (n % d) < P41 * d;
  }

  /** For a negative dividend, whose quotient cannot be as large: `n` is minus the dividend, `q` minus the quotient. */
  lemma NegativeError(n: int, d: int, e: int, q: int)
    requires 0 <= n <= TOP2 * 3125 && d >= LOWD && q == n / d
    requires P41 * d <= e < P41 * d + P41 + 0x100_0000
    ensures -37 * e < n * P41 - q * e < e
  {
    assert n == d * q + n % d;
    if q > 8_050_000_000 {
      MulMonotone(LOWD, d, q);
    }
    assert q >= 0 by { DivMonotone(0, n, d); }
    assert P41 * (d * q) == P41 * d * q;
    MulMonotone(P41 * d, e, q);
    MulMonotone(e, P41 * d + P41 + 0x100_0000, q);
    assert (P41 * d + P41 + 0x100_0000) * q == P41 * d * q + (P41 + 0x100_0000) * q;
    assert P41 * (n % d) < P41 * d;
  }

  /** How far the exact quotient lies above the truncated one, multiplied out. */
  lemma SignedError(n: int, d: int, e: int, q: int)
    requires -TOP2 * 3125 <= n && d >= LOWD && q == TDiv(n, d) && q <= TOPQ
    requires P41 * d <= e < P41 * d + P41 + 0x100_0000
    ensures e > 0 && -153 * e <= n * P41 - q * e < 37 * e
    ensures n >= 0 ==> n * P41 - q * e < e && q >= 0
  {
    if n >= 0 {
      QuotientError(n, d, e, q);
    } else {
      NegativeError(-n, d, e, -q);
      assert -n * P41 - -q * e == -(n * P41 - q * e);
    }
  }

  /** The truncated quotient lies at most 153 above the exact one, and less than 37 below it; less than 1 below it
      when the dividend is not negative. */
  lemma QuotientGap(tr: Trim, fine: int, raw: int)
    requires Box(tr, fine) && 0 <= raw < 0x10_0000
    ensures var x, q := ExactQuotient(tr, fine, raw), Quotient(tr, fine, raw);
            && -TOPQ <= q <= TOPQ && q as real - 153.0 <= x < q as real + 37.0
            && (ExactRaw(tr, fine, raw) >= 0.0 ==> q >= 0 && x >= 0.0 && x < q as real + 1.0)
  {
    hide Divisor, Dividend, ScaledDivisor, ExactQuotient, ExactRaw, TDiv;
    var v := fine - 128_000;
    DivisorFits(tr, v);
    DivisorError(tr, v);
    DividendFits(tr, v, raw);
    QuotientRange(tr, fine, raw);
    var n, e, q := Dividend(tr, v, raw), ScaledDivisor(tr, v), Quotient(tr, fine, raw);
    SignedError(n, Divisor(tr, v), e, q);
    QuotientIsExact(tr, fine, raw);
    RealQuotient(n * P41, e, q, 153, 37);
    if n >= 0 {
      RealQuotient(n * P41, e, q, 153, 1);
    }
  }

  lemma RealQuotient(n: int, e: int, q: int, below: int, above: int)
    requires e > 0 && -below * e <= n - q * e < above * e
    ensures q as real - below as real <= n as real / e as real < q as real + above as real
    ensures n >= 0 ==> n as real / e as real >= 0.0
  {
    var x, er, qr := n as real / e as real, e as real, q as real;
    assert x * er == n as real;
    assert (q * e) as real == qr * er;
    assert (-below * e) as real == -below as real * er && (above * e) as real == above as real * er;
    assert (x - (qr - below as real)) * er == x * er - qr * er + below as real * er;
    assert ((qr + above as real) - x) * er == qr * er + above as real * er - x * er;
    PositiveFactor(x, er);
    PositiveFactor(x - (qr - below as real), er);
    PositiveFactor((qr + above as real) - x, er);
  }

  lemma PositiveFactor(x: real, e: real)
    requires e > 0.0
    ensures x * e >= 0.0 ==> x >= 0.0
    ensures x * e > 0.0 ==> x > 0.0
  {
  }

  lemma RealBound(x: real, y: real, boundX: real, boundY: real)
    requires -boundX <= x <= boundX && 0.0 <= y <= boundY
    ensures -(boundX * boundY) <= x * y <= boundX * boundY
  {
    assert (boundX - x) * y >= 0.0 && (boundX + x) * y >= 0.0;
    assert boundX * (boundY - y) >= 0.0;
  }

  /** The same for a second factor of either sign. */
  lemma SignedBound(x: real, y: real, boundX: real, boundY: real)
    requires -boundX <= x <= boundX && -boundY <= y <= boundY
    ensures -(boundX * boundY) <= x * y <= boundX * boundY
  {
    if y >= 0.0 {
      RealBound(x, y, boundX, boundY);
    } else {
      RealBound(-x, -y, boundX, boundY);
      assert -x * -y == x * y;
    }
  }

  lemma P9Bound(p9: real, x: real, q: real)
    requires 0.0 <= p9 <= 65535.0 && -TOPQ as real <= q <= TOPQ as real && q - 153.0 <= x < q + 37.0
    ensures -304.0 < p9 * (x * x) / R51 - p9 * (q * q) / R51 < 304.0
  {
    var d, s := x - q, x + q;
    assert p9 * (x * x) - p9 * (q * q) == d * s * p9 by { assert x * x - q * q == d * s; }
    SignedBound(d, s, 153.0, 68_200_000_153.0);
    RealBound(d * s, p9, 153.0 * 68_200_000_153.0, 65535.0);
  }

  lemma P8Gap(p8: real, x: real, q: real)
    requires -32768.0 <= p8 <= 32767.0 && q - 153.0 <= x < q + 37.0
    ensures -162.6 < (x + p8 * x / R19) - (q + p8 * q / R19) < 162.6
  {
    assert p8 * x - p8 * q == p8 * (x - q);
    SignedBound(p8, x - q, 32768.0, 153.0);
    P8Bound(p8, x - q);
  }

  lemma P8Bound(p8: real, d: real)
    requires -32768.0 <= p8 <= 32767.0 && -153.0 <= d < 37.0
    ensures -162.6 < d + p8 * d / R19 < 162.6
  {
    SignedBound(p8, d, 32768.0, 153.0);
  }

  /** Moving the quotient by its error moves the polynomial by less than 467. */
  lemma PolynomialGap(tr: Trim, x: real, q: int)
    requires TrimBox(tr) && -TOPQ <= q <= TOPQ && q as real - 153.0 <= x < q as real + 37.0
    ensures -467.0 < Polynomial(tr, x) - Polynomial(tr, q as real) < 467.0
  {
    P9Bound(tr.p9 as real, x, q as real);
    P8Gap(tr.p8 as real, x, q as real);
  }

  const LOWQ := 8_050_000_000  // how far a quotient of the box can lie below zero

  lemma QuotientLow(tr: Trim, fine: int, raw: int)
    requires Box(tr, fine) && 0 <= raw < 0x10_0000
    ensures -LOWQ <= Quotient(tr, fine, raw) <= TOPQ
  {
    hide Divisor, Dividend;
    var n, d := Dividend(tr, fine - 128_000, raw), Divisor(tr, fine - 128_000);
    DivisorFits(tr, fine - 128_000);
    DividendFits(tr, fine - 128_000, raw);
    QuotientRange(tr, fine, raw);
    TDivBounds(n, d);
    hide TDiv, Quotient;
    if TDiv(n, d) < -LOWQ {
      MulMonotone(LOWD, d, LOWQ);
      MulMonotone(TDiv(n, d), -LOWQ - 1, d);
    }
  }

  /** Cutting 13 bits before squaring; below zero the cut makes the square larger. */
  lemma CutSquare(q: int)
    requires -LOWQ <= q <= TOPQ
    ensures var extra := q * q - 0x400_0000 * (q / 0x2000 * (q / 0x2000));
            && (if q >= 0 then 0 else -0x4000 * 0x1FFF * 982_700) <= extra
            && extra <= 0x4000 * 0x1FFF * 4_163_000 + 0x1FFF * 0x1FFF
  {
    var h, t := q / 0x2000, q % 0x2000;
    assert q == 0x2000 * h + t;
    assert q * q == 0x400_0000 * (h * h) + 0x4000 * (h * t) + t * t;
    if h >= 0 {
      MulMonotone(t, 0x1FFF, h);
      MulMonotone(0, t, h);
    } else {
      MulMonotone(h, 0, t);
      MulMonotone(-982_700, h, t);
    }
    MulBound(t, t, 0x1FFF, 0x1FFF);
    assert t * t >= 0;
  }

  lemma SquareLoss(p9: int, q: int)
    requires IsU16(p9) && -LOWQ <= q <= TOPQ
    ensures var a, sq := p9 * (q * q), p9 * (q / 0x2000) * (q / 0x2000);
            && a - 0x8_0000_0000_0000 * (sq / P25) < 16270 * 0x8_0000_0000_0000
            && (if q >= 0 then 0 else -3839) * 0x8_0000_0000_0000 <= a - 0x8_0000_0000_0000 * (sq / P25)
  {
    var h := q / 0x2000;
    CutSquare(q);
    var extra := q * q - 0x400_0000 * (h * h);
    MulBound(p9, extra, 0xFFFF, 0x4000 * 0x1FFF * 4_163_000 + 0x1FFF * 0x1FFF);
    if q >= 0 {
      MulMonotone(0, p9, extra);
    } else {
      MulMonotone(-0x4000 * 0x1FFF * 982_700, extra, p9);
      MulMonotone(p9, 0xFFFF, 0x4000 * 0x1FFF * 982_700);
    }
    assert p9 * h * h == p9 * (h * h);
    assert p9 * (q * q) == 0x400_0000 * (p9 * (h * h)) + p9 * extra;
  }

  /** The shifts inside the refinement lose less than 16272, and below zero gain at most 3839. */
  lemma RefineLoss(tr: Trim, q: int)
    requires TrimBox(tr) && -LOWQ <= q <= TOPQ
    ensures var whole := q + Square(tr, q) / P25 + tr.p8 * q / 0x8_0000;
            (if q >= 0 then 0.0 else -3839.0) <= Polynomial(tr, q as real) - whole as real < 16272.0
  {
    hide Polynomial;
    SquareLoss(tr.p9, q);
    RealForms(tr, q);
    RealShifts(if q >= 0 then 0 else -3839,
               tr.p9 * (q * q), Square(tr, q) / P25, tr.p8 * q, tr.p8 * q / 0x8_0000);
  }

  lemma RealShifts(low: int, a: int, sa: int, b: int, sb: int)
    requires low * 0x8_0000_0000_0000 <= a - 0x8_0000_0000_0000 * sa < 16270 * 0x8_0000_0000_0000
    requires 0 <= b - 0x8_0000 * sb < 0x8_0000
    ensures low as real <= a as real / R51 - sa as real < 16270.0 && 0.0 <= b as real / R19 - sb as real < 1.0
  {
  }

  lemma RealForms(tr: Trim, q: int)
    ensures Polynomial(tr, q as real) == q as real + (tr.p9 * (q * q)) as real / R51 + (tr.p8 * q) as real / R19
  {
    assert (q * q) as real == q as real * q as real;
    assert (tr.p9 * (q * q)) as real == tr.p9 as real * (q * q) as real;
    assert (tr.p8 * q) as real == tr.p8 as real * q as real;
  }

  /** What the exact formula gives, in pascals. */
  function ExactPressure(tr: Trim, fine: int, raw: int): real { ExactPascal(tr, ExactQuotient(tr, fine, raw)) }

  /** How far a reading can lie above the exact value: more when the offset exceeds the sample. */
  function Above(tr: Trim, fine: int, raw: int): real { if ExactRaw(tr, fine, raw) >= 0.0 then 0.01 else 0.07 }

  /** `p` is the exact value cut to whole units: less than 1.26 below it, and at most a hundredth or seven above it; or
      the value is negative, or all but, and `p` is that much off 2^24 more, where the u32 cast has taken it. */
  predicate Close(tr: Trim, fine: int, raw: int, p: int) {
    var x, above := ExactPressure(tr, fine, raw), Above(tr, fine, raw);
    || (x > -0.07 && -above < x - p as real < 1.26)
    || (x < 1.26 && -above < x + 16777216.0 - p as real < 1.26)
  }

  /** Before the cast. */
  lemma CompensatedAccurate(tr: Trim, fine: int, raw: int)
    requires Box(tr, fine) && 0 <= raw < 0x10_0000
    ensures var c := Refine(tr, Quotient(tr, fine, raw)) / 256;
            -Above(tr, fine, raw) < ExactPressure(tr, fine, raw) - c as real < 1.26
  {
    hide Divisor, Dividend, ScaledDivisor, Quotient, ExactQuotient, ExactRaw, Polynomial, Square;
    QuotientGap(tr, fine, raw);
    QuotientLow(tr, fine, raw);
    var x, q := ExactQuotient(tr, fine, raw), Quotient(tr, fine, raw);
    PolynomialGap(tr, x, q);
    RefineLoss(tr, q);
    var whole := q + Square(tr, q) / P25 + tr.p8 * q / 0x8_0000;
    assert Refine(tr, q) == whole / 0x100 + tr.p7 * 16;
    var c := Refine(tr, q) / 256;
    assert 0 <= whole + tr.p7 * 16 * 256 - 0x1_0000 * c < 0x1_0000;
    assert (whole + tr.p7 * 16 * 256 - 0x1_0000 * c) as real
        == whole as real + tr.p7 as real * 4096.0 - 65536.0 * c as real;
  }

  /** In the whole box the reading is close to the exact formula. */
  lemma PressureAccurate(tr: Trim, fine: int, raw: int)
    requires Box(tr, fine) && 0 <= raw < 0x10_0000
    ensures Close(tr, fine, raw, PressureC(tr, fine, raw))
  {
    hide Divisor, Dividend, Quotient, Refine, PressureC, ExactPressure, Box;
    CompensatedAccurate(tr, fine, raw);
    PressureFits(tr, fine, raw);
    CastOfFloor(Refine(tr, Quotient(tr, fine, raw)));
  }

  lemma CastOfFloor(n: int)
    requires -TWO_31 <= n < TWO_31
    ensures U32(n) / 256 == n / 256 + if n >= 0 then 0 else 0x100_0000
    ensures n >= 0 <==> n / 256 >= 0
  {
    assert n < 0 ==> U32(n) == n + TWO_32;
  }
}
