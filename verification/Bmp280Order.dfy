/** When read_temperature keeps the order of its raw codes: an exact condition on the trims. */
module Bmp280Order {
  import opened CInt
  import opened Bmp280Trim
  import opened Bmp280Temperature
  import opened Bmp280Steps

  lemma LinearStep(tr: Trim, raw: int)
    requires InRange(tr, raw) && InRange(tr, raw + 1)
    ensures Linear(tr, raw + 1) >= Linear(tr, raw) + (if (raw + 1) % 8 == 0 then tr.t2 / 0x800 else 0)
  {
    var a := raw / 8 - 2 * tr.t1;
    if (raw + 1) % 8 == 0 {
      assert (a + 1) * tr.t2 == a * tr.t2 + tr.t2;
      FloorSum(a * tr.t2, tr.t2, 0x800);
    } else {
      assert (raw + 1) / 8 == raw / 8;
    }
  }

  /** The next code takes the squared term down by more than the linear term is sure to go up. */
  predicate StepDrops(tr: Trim, raw: int) {
    (raw + 1) % 16 == 0 && Drops(tr.t2 / 0x800, tr.t3, raw / 16 - tr.t1)
  }

  lemma QuadraticStep(tr: Trim, raw: int)
    requires InRange(tr, raw) && InRange(tr, raw + 1) && !StepDrops(tr, raw)
    ensures Quadratic(tr, raw + 1) >= Quadratic(tr, raw) - (if (raw + 1) % 16 == 0 then tr.t2 / 0x800 else 0)
  {
    OffsetBound(tr, raw);
    OffsetBound(tr, raw + 1);
    hide InRange, Cut;
    if (raw + 1) % 16 == 0 {
      assert (raw + 1) / 16 == raw / 16 + 1;
    } else {
      assert (raw + 1) / 16 == raw / 16;
    }
  }

  lemma Eighth(n: int)
    ensures n % 16 == 0 ==> n % 8 == 0
  {
  }

  lemma FineStep(tr: Trim, raw: int)
    requires InRange(tr, raw) && InRange(tr, raw + 1) && !StepDrops(tr, raw)
    ensures Fine(tr, raw) <= Fine(tr, raw + 1)
  {
    assert tr.t2 / 0x800 >= 0;
    hide Linear, Quadratic, InRange, StepDrops;
    LinearStep(tr, raw);
    QuadraticStep(tr, raw);
    Eighth(raw + 1);
  }

  lemma InRangeNext(tr: Trim, raw: int, raw': int)
    requires InRange(tr, raw) && InRange(tr, raw') && raw < raw'
    ensures InRange(tr, raw + 1)
  {
  }

  lemma SteadyStep(tr: Trim, raw: int)
    requires InRange(tr, raw) && InRange(tr, raw + 1) && Steady(tr.t2 / 0x800, tr.t3)
    ensures !StepDrops(tr, raw)
  {
    OffsetBound(tr, raw);
    OffsetBound(tr, raw + 1);
  }

  lemma {:induction false} FineMonotone(tr: Trim, raw: int, raw': int)
    requires InRange(tr, raw) && InRange(tr, raw') && raw <= raw' && Steady(tr.t2 / 0x800, tr.t3)
    ensures Fine(tr, raw) <= Fine(tr, raw')
    decreases raw' - raw
  {
    hide Fine, InRange, Steady;
    if raw < raw' {
      InRangeNext(tr, raw, raw');
      SteadyStep(tr, raw);
      FineStep(tr, raw);
      FineMonotone(tr, raw + 1, raw');
    }
  }

  /** Warmer codes never read colder when the linear trim dominates. */
  lemma TemperatureMonotone(tr: Trim, raw: int, raw': int)
    requires InRange(tr, raw) && InRange(tr, raw') && raw <= raw' && LinearDominates(tr.t2 / 0x800, tr.t3)
    ensures FineC(tr, raw) <= FineC(tr, raw') && CentiC(FineC(tr, raw)) <= CentiC(FineC(tr, raw'))
  {
    hide FineC, CentiC, Fine, Steady, LinearDominates;
    TemperatureFits(tr, raw);
    TemperatureFits(tr, raw');
    SteadyExactly(tr.t2 / 0x800, tr.t3);
    FineMonotone(tr, raw, raw');
  }

  /** Every trim with these high bits of t2 and this t3 keeps the order of `fine` over its whole range. */
  ghost predicate KeepsOrder(k: int, t3: int) {
    forall tr, raw, raw' ::
      InRange(tr, raw) && InRange(tr, raw') && raw <= raw' && tr.t2 / 0x800 == k && tr.t3 == t3 ==>
        FineC(tr, raw) <= FineC(tr, raw')
  }

  /** A trim with no low bits in t2, and the last sample whose upper bits give x. */
  function DropTrim(k: int, t3: int, x: int): Trim {
    Trim(if x < 0 then 0x8000 else 0, 0x800 * k, t3, 0, 0, 0, 0, 0, 0, 0, 0, 0)
  }

  function DropRaw(x: int): int { 16 * (if x < 0 then x + 0x8000 else x) + 15 }

  lemma DropRange(k: int, t3: int, x: int)
    requires 0 <= k < 16 && IsS16(t3) && -0x8000 <= x < 0x7FFF
    ensures var tr, raw := DropTrim(k, t3, x), DropRaw(x);
            && InRange(tr, raw) && InRange(tr, raw + 1)
            && raw / 16 - tr.t1 == x && (raw + 1) / 16 - tr.t1 == x + 1
            && raw / 8 - 2 * tr.t1 == 2 * x + 1 && (raw + 1) / 8 - 2 * tr.t1 == 2 * x + 2
  {
  }

  lemma WholeSteps(a: int, k: int)
    ensures a * (0x800 * k) / 0x800 == a * k
  {
    assert a * (0x800 * k) == 0x800 * (a * k);
    DivUnique(a * (0x800 * k), 0x800, a * k, 0);
  }

  lemma FineAt(tr: Trim, raw: int, k: int)
    requires InRange(tr, raw) && tr.t2 == 0x800 * k
    ensures FineC(tr, raw) == (raw / 8 - 2 * tr.t1) * k + Cut(raw / 16 - tr.t1) * tr.t3 / 0x4000
  {
    TemperatureFits(tr, raw);
    hide InRange, FineC, Cut;
    WholeSteps(raw / 8 - 2 * tr.t1, k);
  }

  /** A drop of the squared term shows in `fine`. */
  lemma DropShows(k: int, t3: int, x: int)
    requires 0 <= k < 16 && IsS16(t3) && -0x8000 <= x < 0x7FFF && Drops(k, t3, x)
    ensures !KeepsOrder(k, t3)
  {
    var tr, raw := DropTrim(k, t3, x), DropRaw(x);
    DropRange(k, t3, x);
    hide InRange, FineC, DropRaw, Cut;
    FineAt(tr, raw, k);
    FineAt(tr, raw + 1, k);
    assert (2 * x + 2) * k == (2 * x + 1) * k + k;
    assert tr.t2 / 0x800 == k;
    assert FineC(tr, raw + 1) < FineC(tr, raw);
  }

  /** The exact condition: `fine` follows the raw code for all trims with k = t2 / 2048 and t3, over the whole range,
      if and only if |t3| is at most 1024 k or (k, t3) is one of five pairs just below -1024 k. */
  lemma TemperatureOrderExactly(k: int, t3: int)
    requires 0 <= k < 16 && IsS16(t3)
    ensures KeepsOrder(k, t3) <==> LinearDominates(k, t3)
  {
    hide LinearDominates, FineC, Drops;
    SteadyExactly(k, t3);
    if Steady(k, t3) {
      hide Steady;
      forall tr, raw, raw' | InRange(tr, raw) && InRange(tr, raw') && raw <= raw' && tr.t2 / 0x800 == k && tr.t3 == t3
        ensures FineC(tr, raw) <= FineC(tr, raw')
      {
        TemperatureMonotone(tr, raw, raw');
      }
    } else {
      var x :| -0x8000 <= x < 0x7FFF && Drops(k, t3, x);
      DropShows(k, t3, x);
    }
  }

  /* ---- the reading, which rounds ---- */

  /** The linear trim dominates, with either sign of the five lucky trims. */
  predicate ReadingDominates(k: int, t3: int) {
    LinearDominates(k, t3) || Lucky(k, t3 - 0x400 * k)
  }

  /** At the lowest step of all x is -2^15 and the square falls from 2^18 by 16. */
  lemma LowestStep(k: int, c: int)
    requires 0 < c < 0x400
    ensures var t3 := 0x400 * k + c;
            Cut(-0x8000) * t3 / 0x4000 == 16 * t3 && Cut(-0x7FFF) * t3 / 0x4000 == 16 * t3 - k - 1
  {
    var t3 := 0x400 * k + c;
    assert Cut(-0x8000) == 0x4_0000 && Cut(-0x7FFF) == 0x3_FFF0;
    hide Cut;
    DivUnique(0x4_0000 * t3, 0x4000, 16 * t3, 0);
    DivUnique(0x3_FFF0 * t3, 0x4000, 16 * t3 - k - 1, 0x4000 - 16 * c);
  }

  lemma LowestLinear(t2: int, k: int, r: int)
    requires t2 == 0x800 * k + r && 0 <= r < 0x800
    ensures -0xFFFF * t2 / 0x800 == -0xFFFF * k - 32 * r
    ensures -0xFFFE * t2 / 0x800 == -0xFFFE * k - 32 * r + (if r < 0x400 then 0 else 1)
  {
    DivUnique(-0xFFFF * t2, 0x800, -0xFFFF * k - 32 * r, r);
    if r < 0x400 {
      DivUnique(-0xFFFE * t2, 0x800, -0xFFFE * k - 32 * r, 2 * r);
    } else {
      DivUnique(-0xFFFE * t2, 0x800, -0xFFFE * k - 32 * r + 1, 2 * r - 0x800);
    }
  }

  /** There `fine` is 16 + k modulo 32, where a fall by one does not reach the next hundredth. */
  lemma LowestRounds(k: int, c: int, v: int, r: int)
    requires Lucky(k, c) && v == 16 * (0x400 * k + c) - 0xFFFF * k - 32 * r
    ensures Centi(v - 1) == Centi(v)
  {
    var z := 0x200 * k - 0x800 * k + (c - 1) / 2 - r;
    assert v == 32 * z + 16 + k;
    assert (5 * v + 128) % 32 == (16 + 5 * k) % 32 by { assert 5 * v + 128 == 32 * (5 * z + 6) + 16 + 5 * k; }
    ModOfMod(5 * v + 128);
  }

  lemma ModOfMod(n: int)
    ensures n % 256 % 32 == n % 32
  {
  }

  /** With a positive lucky t3 the reading keeps its order at every step, although `fine` does not. */
  lemma LuckyReadingStep(tr: Trim, raw: int)
    requires InRange(tr, raw) && InRange(tr, raw + 1) && Lucky(tr.t2 / 0x800, tr.t3 - 0x400 * (tr.t2 / 0x800))
    ensures Centi(Fine(tr, raw)) <= Centi(Fine(tr, raw + 1))
  {
    var k, r := tr.t2 / 0x800, tr.t2 % 0x800;
    var c := tr.t3 - 0x400 * k;
    OffsetBound(tr, raw);
    OffsetBound(tr, raw + 1);
    if StepDrops(tr, raw) {
      LuckyAbove(k, c, raw / 16 - tr.t1);
      LowestOffsets(tr, raw);
      LowestStep(k, c);
      LowestLinear(tr.t2, k, r);
      hide InRange, Cut, Lucky, StepDrops;
      assert Fine(tr, raw) == -0xFFFF * k - 32 * r + 16 * tr.t3;
      LowestRounds(k, c, Fine(tr, raw), r);
      CentiOrder(Fine(tr, raw) - 1, Fine(tr, raw + 1));
    } else {
      FineStep(tr, raw);
      CentiOrder(Fine(tr, raw), Fine(tr, raw + 1));
    }
  }

  lemma LowestOffsets(tr: Trim, raw: int)
    requires (raw + 1) % 16 == 0 && raw / 16 - tr.t1 == -0x8000
    ensures raw / 8 - 2 * tr.t1 == -0xFFFF && (raw + 1) / 8 - 2 * tr.t1 == -0xFFFE && (raw + 1) / 16 - tr.t1 == -0x7FFF
  {
  }

  lemma CentiOrder(v: int, v': int)
    requires v <= v'
    ensures Centi(v) <= Centi(v')
  {
  }

  lemma {:induction false} LuckyReading(tr: Trim, raw: int, raw': int)
    requires InRange(tr, raw) && InRange(tr, raw') && raw <= raw'
    requires Lucky(tr.t2 / 0x800, tr.t3 - 0x400 * (tr.t2 / 0x800))
    ensures Centi(Fine(tr, raw)) <= Centi(Fine(tr, raw'))
    decreases raw' - raw
  {
    hide Fine, Centi, InRange, Lucky;
    if raw < raw' {
      InRangeNext(tr, raw, raw');
      LuckyReadingStep(tr, raw);
      LuckyReading(tr, raw + 1, raw');
    }
  }

  /** Warmer codes never read colder when the linear trim dominates; nor at the five lucky trims of either sign. */
  lemma ReadingMonotone(tr: Trim, raw: int, raw': int)
    requires InRange(tr, raw) && InRange(tr, raw') && raw <= raw' && ReadingDominates(tr.t2 / 0x800, tr.t3)
    ensures CentiC(FineC(tr, raw)) <= CentiC(FineC(tr, raw'))
  {
    hide FineC, CentiC, Fine, Centi, LinearDominates, Lucky;
    if LinearDominates(tr.t2 / 0x800, tr.t3) {
      TemperatureMonotone(tr, raw, raw');
    } else {
      TemperatureFits(tr, raw);
      TemperatureFits(tr, raw');
      LuckyReading(tr, raw, raw');
    }
  }

  const JUST_ABOVE := Trim(0x8000, 2_101, 1_025, 0, 0, 0, 0, 0, 0, 0, 0, 0)
  const JUST_BELOW := Trim(0, 2_057, -1_025, 0, 0, 0, 0, 0, 0, 0, 0, 0)

  /** The reading from the floors of its linear term `l`, its cut square `c` and its quadratic term `q`. */
  lemma ReadingIs(tr: Trim, raw: int, a: int, x: int, l: int, c: int, q: int)
    requires InRange(tr, raw) && raw / 8 - 2 * tr.t1 == a && raw / 16 - tr.t1 == x
    requires 0 <= a * tr.t2 - 0x800 * l < 0x800
    requires 0 <= x * x - 0x1000 * c < 0x1000 && 0 <= c * tr.t3 - 0x4000 * q < 0x4000
    ensures CentiC(FineC(tr, raw)) == ((l + q) * 5 + 128) / 0x100
  {
    DivUnique(a * tr.t2, 0x800, l, a * tr.t2 - 0x800 * l);
    DivUnique(x * x, 0x1000, c, x * x - 0x1000 * c);
    DivUnique(c * tr.t3, 0x4000, q, c * tr.t3 - 0x4000 * q);
    TemperatureFits(tr, raw);
    hide FineC, CentiC, InRange;
  }

  /** Elsewhere the reading itself can fall: here one unit of t3 past the bound. */
  lemma ReadingCanFallAbove()
    ensures InRange(JUST_ABOVE, 1_039) && CentiC(FineC(JUST_ABOVE, 1_039)) == -991
    ensures InRange(JUST_ABOVE, 1_040) && CentiC(FineC(JUST_ABOVE, 1_040)) == -992
  {
    assert InRange(JUST_ABOVE, 1_039) && InRange(JUST_ABOVE, 1_040);
    hide FineC, CentiC, InRange;
    ReadingIs(JUST_ABOVE, 1_039, -65_407, -32_704, -67_100, 261_121, 16_336);
    ReadingIs(JUST_ABOVE, 1_040, -65_406, -32_703, -67_099, 261_105, 16_334);
  }

  /** And on the negative side. */
  lemma ReadingCanFallBelow()
    ensures InRange(JUST_BELOW, 510_815) && CentiC(FineC(JUST_BELOW, 510_815)) == 949
    ensures InRange(JUST_BELOW, 510_816) && CentiC(FineC(JUST_BELOW, 510_816)) == 948
  {
    assert InRange(JUST_BELOW, 510_815) && InRange(JUST_BELOW, 510_816);
    hide FineC, CentiC, InRange;
    ReadingIs(JUST_BELOW, 510_815, 63_851, 31_925, 64_131, 248_829, -15_567);
    ReadingIs(JUST_BELOW, 510_816, 63_852, 31_926, 64_132, 248_845, -15_569);
  }
}
