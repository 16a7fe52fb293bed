/** The steps of read_temperature's squared term: for which t3 none of them drops by more than k.

    Only a step of 16 can drop too far, and whether one does depends on t3 times the square modulo 2^14. Where the
    steps of 16 lie is a matter of numbers: two tables, of roots and of spots, settle the trims near the bound. */
module Bmp280Steps {
  import opened CInt
  import opened Bmp280Trim
  import opened Bmp280Temperature

  /** No step of the squared term drops by more than `k`. */
  ghost predicate Steady(k: int, t3: int) {
    forall x :: -0x8000 <= x < 0x7FFF ==> !Drops(k, t3, x)
  }

  predicate Drops(k: int, t3: int, x: int) { Cut(x + 1) * t3 / 0x4000 < Cut(x) * t3 / 0x4000 - k }

  /** Five quadratic trims that are a little too large, and still never find a place to drop. */
  predicate Lucky(k: int, c: int) { (c == 1 && (k == 3 || k == 5 || k == 9 || k == 15)) || (c == 3 && k == 13) }

  /** The linear trim, in whole steps k = t2 / 2048, outweighs the quadratic one. */
  predicate LinearDominates(k: int, t3: int) {
    -0x400 * k <= t3 <= 0x400 * k || Lucky(k, -t3 - 0x400 * k)
  }

  /** A step of the square is at most 16 either way, and 16 up only near the top of the range. */
  lemma CutStep(x: int)
    requires -0x8000 <= x < 0x7FFF
    ensures -16 <= Cut(x + 1) - Cut(x) <= 16
    ensures x < 0 ==> Cut(x + 1) <= Cut(x)
    ensures x >= 0 ==> Cut(x + 1) >= Cut(x)
    ensures Cut(x + 1) - Cut(x) == 16 ==> x >= 30_720
  {
    assert (x + 1) * (x + 1) == x * x + 2 * x + 1;
  }

  /** The drop of one step is at most k when the move of the square times t3 is. */
  lemma DropBound(s: int, s': int, t3: int, k: int)
    requires (s' - s) * t3 >= -0x4000 * k
    ensures s' * t3 / 0x4000 >= s * t3 / 0x4000 - k
  {
    assert s' * t3 == s * t3 + (s' - s) * t3;
    FloorSum(s * t3, (s' - s) * t3, 0x4000);
  }

  lemma DominatedIsSteady(k: int, t3: int)
    requires k >= 0 && -0x400 * k <= t3 <= 0x400 * k
    ensures Steady(k, t3)
  {
    forall x | -0x8000 <= x < 0x7FFF ensures !Drops(k, t3, x) {
      CutStep(x);
      MulBound(Cut(x + 1) - Cut(x), t3, 16, 0x400 * k);
      DropBound(Cut(x), Cut(x + 1), t3, k);
    }
  }

  /* ---- the five lucky trims ---- */

  /** The largest x whose square, cut by 12 bits, is at most 2^18 - 1024 q / 3. */
  function Root(q: int): int {
    match q
    case 0 => 32768 case 1 => 32746 case 2 => 32725 case 3 => 32703 case 4 => 32682 case 5 => 32661 case 6 => 32639
    case 7 => 32618 case 8 => 32596 case 9 => 32575 case 10 => 32553 case 11 => 32532 case 12 => 32511
    case 13 => 32489 case 14 => 32468 case 15 => 32446 case 16 => 32424 case 17 => 32403 case 18 => 32381
    case 19 => 32360 case 20 => 32338 case 21 => 32316 case 22 => 32295 case 23 => 32273 case 24 => 32251
    case 25 => 32230 case 26 => 32208 case 27 => 32186 case 28 => 32165 case 29 => 32143 case 30 => 32121
    case 31 => 32099 case 32 => 32078 case 33 => 32056 case 34 => 32034 case 35 => 32012 case 36 => 31990
    case 37 => 31968 case 38 => 31947 case 39 => 31925 case 40 => 31903 case 41 => 31881 case 42 => 31859
    case 43 => 31837 case 44 => 31815 case 45 => 31793 case 46 => 31771 case 47 => 31749 case 48 => 31727
    case 49 => 31705 case 50 => 31683 case 51 => 31661 case 52 => 31639 case 53 => 31617 case 54 => 31595
    case 55 => 31572 case 56 => 31550 case 57 => 31528 case 58 => 31506 case 59 => 31484 case 60 => 31462
    case 61 => 31439 case 62 => 31417 case 63 => 31395 case 64 => 31372 case 65 => 31350 case 66 => 31328
    case 67 => 31306 case 68 => 31283 case 69 => 31261 case 70 => 31239 case 71 => 31216 case 72 => 31194
    case 73 => 31171 case 74 => 31149 case 75 => 31126 case 76 => 31104 case 77 => 31082 case 78 => 31059
    case 79 => 31036 case 80 => 31014 case 81 => 30991 case 82 => 30969 case 83 => 30946 case 84 => 30924
    case 85 => 30901 case 86 => 30878 case 87 => 30856 case 88 => 30833 case 89 => 30810 case 90 => 30788
    case 91 => 30765 case 92 => 30742 case 93 => 30720 case 94 => 30697 case 95 => 30674
    case _ => 0
  }

  function Top(q: int): int { 0x4_0000 - (1024 * q + 2) / 3 }

  predicate IsRoot(q: int, y: int) { 0 <= y && y * y < 0x1000 * (Top(q) + 1) <= (y + 1) * (y + 1) }

  /** At row q the lucky trim of k = 13 would drop only from the cut square 2^18 - (1024 q + r) / 3 where r is 17 q
      modulo 48; those of k = 15, 5, 3 and 9 only where q is a multiple of 3 and r is q, 3 q, 5 q or 7 q modulo 48. */
  predicate Misses(q: int, m: int, y: int) {
    y < 0x7FFF && Cut(y + 1) - Cut(y) == 16 ==> 3 * (0x4_0000 - Cut(y)) - 1024 * q != m * q % 48
  }

  lemma Roots0(q: int)
    requires 0 <= q < 32
    ensures IsRoot(q, Root(q))
  {
    assert q == 0 || q == 1 || q == 2 || q == 3 || q == 4 || q == 5 || q == 6 || q == 7 || q == 8 || q == 9
        || q == 10 || q == 11 || q == 12 || q == 13 || q == 14 || q == 15 || q == 16 || q == 17 || q == 18
        || q == 19 || q == 20 || q == 21 || q == 22 || q == 23 || q == 24 || q == 25 || q == 26 || q == 27
        || q == 28 || q == 29 || q == 30 || q == 31;
  }

  lemma Roots32(q: int)
    requires 32 <= q < 64
    ensures IsRoot(q, Root(q))
  {
    assert q == 32 || q == 33 || q == 34 || q == 35 || q == 36 || q == 37 || q == 38 || q == 39 || q == 40
        || q == 41 || q == 42 || q == 43 || q == 44 || q == 45 || q == 46 || q == 47 || q == 48 || q == 49
        || q == 50 || q == 51 || q == 52 || q == 53 || q == 54 || q == 55 || q == 56 || q == 57 || q == 58
        || q == 59 || q == 60 || q == 61 || q == 62 || q == 63;
  }

  lemma Roots64(q: int)
    requires 64 <= q < 96
    ensures IsRoot(q, Root(q))
  {
    assert q == 64 || q == 65 || q == 66 || q == 67 || q == 68 || q == 69 || q == 70 || q == 71 || q == 72
        || q == 73 || q == 74 || q == 75 || q == 76 || q == 77 || q == 78 || q == 79 || q == 80 || q == 81
        || q == 82 || q == 83 || q == 84 || q == 85 || q == 86 || q == 87 || q == 88 || q == 89 || q == 90
        || q == 91 || q == 92 || q == 93 || q == 94 || q == 95;
  }

  lemma Thirds0(q: int)
    requires 0 <= q < 16
    ensures Misses(q, 17, Root(q))
  {
    assert q == 0 || q == 1 || q == 2 || q == 3 || q == 4 || q == 5 || q == 6 || q == 7 || q == 8 || q == 9
        || q == 10 || q == 11 || q == 12 || q == 13 || q == 14 || q == 15;
  }

  lemma Thirds16(q: int)
    requires 16 <= q < 32
    ensures Misses(q, 17, Root(q))
  {
    assert q == 16 || q == 17 || q == 18 || q == 19 || q == 20 || q == 21 || q == 22 || q == 23 || q == 24
        || q == 25 || q == 26 || q == 27 || q == 28 || q == 29 || q == 30 || q == 31;
  }

  lemma Thirds32(q: int)
    requires 32 <= q < 48
    ensures Misses(q, 17, Root(q))
  {
    assert q == 32 || q == 33 || q == 34 || q == 35 || q == 36 || q == 37 || q == 38 || q == 39 || q == 40
        || q == 41 || q == 42 || q == 43 || q == 44 || q == 45 || q == 46 || q == 47;
  }

  lemma Thirds48(q: int)
    requires 48 <= q < 64
    ensures Misses(q, 17, Root(q))
  {
    assert q == 48 || q == 49 || q == 50 || q == 51 || q == 52 || q == 53 || q == 54 || q == 55 || q == 56
        || q == 57 || q == 58 || q == 59 || q == 60 || q == 61 || q == 62 || q == 63;
  }

  lemma Thirds64(q: int)
    requires 64 <= q < 80
    ensures Misses(q, 17, Root(q))
  {
    assert q == 64 || q == 65 || q == 66 || q == 67 || q == 68 || q == 69 || q == 70 || q == 71 || q == 72
        || q == 73 || q == 74 || q == 75 || q == 76 || q == 77 || q == 78 || q == 79;
  }

  lemma Thirds80(q: int)
    requires 80 <= q < 88
    ensures Misses(q, 17, Root(q))
  {
    assert q == 80 || q == 81 || q == 82 || q == 83 || q == 84 || q == 85 || q == 86 || q == 87;
  }

  lemma Thirds88(q: int)
    requires 88 <= q < 96
    ensures Misses(q, 17, Root(q))
  {
    assert q == 88 || q == 89 || q == 90 || q == 91 || q == 92 || q == 93 || q == 94 || q == 95;
  }

  lemma LowOnes(q: int)
    requires 0 <= q < 48 && q % 3 == 0
    ensures Misses(q, 1, Root(q))
  {
    assert q == 0 || q == 3 || q == 6 || q == 9 || q == 12 || q == 15 || q == 18 || q == 21 || q == 24 || q == 27
        || q == 30 || q == 33 || q == 36 || q == 39 || q == 42 || q == 45;
  }

  lemma HighOnes(q: int)
    requires 48 <= q < 96 && q % 3 == 0
    ensures Misses(q, 1, Root(q))
  {
    assert q == 48 || q == 51 || q == 54 || q == 57 || q == 60 || q == 63 || q == 66 || q == 69 || q == 72
        || q == 75 || q == 78 || q == 81 || q == 84 || q == 87 || q == 90 || q == 93;
  }

  lemma LowThrees(q: int)
    requires 0 <= q < 48 && q % 3 == 0
    ensures Misses(q, 3, Root(q))
  {
    assert q == 0 || q == 3 || q == 6 || q == 9 || q == 12 || q == 15 || q == 18 || q == 21 || q == 24 || q == 27
        || q == 30 || q == 33 || q == 36 || q == 39 || q == 42 || q == 45;
  }

  lemma HighThrees(q: int)
    requires 48 <= q < 96 && q % 3 == 0
    ensures Misses(q, 3, Root(q))
  {
    assert q == 48 || q == 51 || q == 54 || q == 57 || q == 60 || q == 63 || q == 66 || q == 69 || q == 72
        || q == 75 || q == 78 || q == 81 || q == 84 || q == 87 || q == 90 || q == 93;
  }

  lemma LowFives(q: int)
    requires 0 <= q < 48 && q % 3 == 0
    ensures Misses(q, 5, Root(q))
  {
    assert q == 0 || q == 3 || q == 6 || q == 9 || q == 12 || q == 15 || q == 18 || q == 21 || q == 24 || q == 27
        || q == 30 || q == 33 || q == 36 || q == 39 || q == 42 || q == 45;
  }

  lemma HighFives(q: int)
    requires 48 <= q < 96 && q % 3 == 0
    ensures Misses(q, 5, Root(q))
  {
    assert q == 48 || q == 51 || q == 54 || q == 57 || q == 60 || q == 63 || q == 66 || q == 69 || q == 72
        || q == 75 || q == 78 || q == 81 || q == 84 || q == 87 || q == 90 || q == 93;
  }

  lemma LowSevens(q: int)
    requires 0 <= q < 48 && q % 3 == 0
    ensures Misses(q, 7, Root(q))
  {
    assert q == 0 || q == 3 || q == 6 || q == 9 || q == 12 || q == 15 || q == 18 || q == 21 || q == 24 || q == 27
        || q == 30 || q == 33 || q == 36 || q == 39 || q == 42 || q == 45;
  }

  lemma HighSevens(q: int)
    requires 48 <= q < 96 && q % 3 == 0
    ensures Misses(q, 7, Root(q))
  {
    assert q == 48 || q == 51 || q == 54 || q == 57 || q == 60 || q == 63 || q == 66 || q == 69 || q == 72
        || q == 75 || q == 78 || q == 81 || q == 84 || q == 87 || q == 90 || q == 93;
  }

  lemma RootRows(q: int)
    requires 0 <= q < 96
    ensures IsRoot(q, Root(q))
  {
    hide IsRoot, Root;
    if q < 32 { Roots0(q); } else if q < 64 { Roots32(q); } else { Roots64(q); }
  }

  lemma MissRows(q: int, m: int)
    requires 0 <= q < 96 && (m == 17 || (q % 3 == 0 && (m == 1 || m == 3 || m == 5 || m == 7)))
    ensures Misses(q, m, Root(q))
  {
    hide Misses, Root;
    if m == 17 {
      if q < 16 { Thirds0(q); } else if q < 32 { Thirds16(q); } else if q < 48 { Thirds32(q); }
      else if q < 64 { Thirds48(q); } else if q < 80 { Thirds64(q); } else if q < 88 { Thirds80(q); }
      else { Thirds88(q); }
    } else if q < 48 {
      if m == 1 { LowOnes(q); } else if m == 3 { LowThrees(q); } else if m == 5 { LowFives(q); } else { LowSevens(q); }
    } else {
      if m == 1 { HighOnes(q); } else if m == 3 { HighThrees(q); } else if m == 5 { HighFives(q); }
      else { HighSevens(q); }
    }
  }

  /** A step of 16 that starts just below the top of row q starts at its root. */
  lemma StartsAtRoot(q: int, y: int, x: int)
    requires 0 <= x
    ensures IsRoot(q, y) && Cut(x + 1) - Cut(x) == 16 && Top(q) - 15 <= Cut(x) <= Top(q) ==> x == y
  {
    if IsRoot(q, y) && Cut(x + 1) - Cut(x) == 16 && Top(q) - 15 <= Cut(x) <= Top(q) {
      assert x * x < (y + 1) * (y + 1) && y * y < (x + 1) * (x + 1);
      if x > y {
        SquareOrder(y + 1, x);
      } else if x < y {
        SquareOrder(x + 1, y);
      }
    }
  }

  lemma SquareOrder(a: int, b: int)
    requires 0 <= a <= b
    ensures a * a <= b * b
  {
    MulMonotone(a, b, a);
    MulMonotone(a, b, b);
  }

  /** A drop at a step of 16: t times 2^18 - s is less than 16 c above a multiple of 2^14, where t = 1024 k + c. */
  lemma DropsExactly(k: int, c: int, x: int)
    requires Cut(x + 1) - Cut(x) == 16
    ensures Drops(k, -(0x400 * k + c), x) <==> (0x400 * k + c) * (0x4_0000 - Cut(x)) % 0x4000 < 16 * c
  {
    var t, s := 0x400 * k + c, Cut(x);
    var u := 0x4_0000 - s;
    var n, r := t * u / 0x4000, t * u % 0x4000;
    assert s * -t == 0x4000 * (n - 16 * t) + r by { assert t * u == 0x4_0000 * t - t * s; }
    DivUnique(s * -t, 0x4000, n - 16 * t, r);
    assert (s + 16) * -t == s * -t - 0x4000 * k - 16 * c;
    assert ((s + 16) * -t) / 0x4000 == (r - 16 * c) / 0x4000 + (n - 16 * t - k);
  }

  /** `m` and `e` invert k modulo 16. */
  lemma LuckyOne(k: int, m: int, e: int, x: int)
    requires m * k + 1 == 16 * e && (m == 1 || m == 3 || m == 5 || m == 7) && k >= 0
    requires 30_720 <= x < 0x7FFF && Cut(x + 1) - Cut(x) == 16
    ensures !Drops(k, -(0x400 * k + 1), x)
  {
    hide Root, Drops, Cut;
    DropsExactly(k, 1, x);
    var u := 0x4_0000 - Cut(x);
    CutRange(x);
    var n, r := (0x400 * k + 1) * u / 0x4000, (0x400 * k + 1) * u % 0x4000;
    RowOf(k, u, n, r);
    if r < 16 {
      var q := 16 * n - k * u;
      assert 0 <= q < 32;
      RootRows(3 * q);
      MissRows(3 * q, m);
      StartsAtRoot(3 * q, Root(3 * q), x);
      Inverse(k, m, e, n, u);
    }
  }

  lemma RowOf(k: int, u: int, n: int, r: int)
    requires (0x400 * k + 1) * u == 0x4000 * n + r
    ensures u == 1024 * (16 * n - k * u) + r
  {
    assert (0x400 * k + 1) * u == 0x400 * (k * u) + u;
  }

  lemma Inverse(k: int, m: int, e: int, n: int, u: int)
    requires m * k + 1 == 16 * e
    ensures var q := 16 * n - k * u; var r := u - 1024 * q; 0 <= r < 16 ==> m * (3 * q) % 48 == 3 * r
  {
    var q := 16 * n - k * u;
    var r := u - 1024 * q;
    assert m * (k * u) == (16 * e - 1) * u;
    assert m * q == m * (16 * n) - m * (k * u);
    assert m * (3 * q) == 48 * (m * n + 64 * q - e * u) + 3 * r;
    if 0 <= r < 16 {
      DivUnique(m * (3 * q), 48, m * n + 64 * q - e * u, 3 * r);
    }
  }

  lemma CutRange(x: int)
    requires 30_720 <= x < 0x7FFF
    ensures 0 < 0x4_0000 - Cut(x) < 0x8000
  {
    SquareOrder(30_720, x);
    SquareOrder(x, 0x7FFE);
  }

  lemma LuckyThird(x: int)
    requires 30_720 <= x < 0x7FFF && Cut(x + 1) - Cut(x) == 16
    ensures !Drops(13, -13_315, x)
  {
    hide Root, Drops;
    DropsExactly(13, 3, x);
    var u := 0x4_0000 - Cut(x);
    CutRange(x);
    var n, r := 13_315 * u / 0x4000, 13_315 * u % 0x4000;
    var q := 16 * n - 13 * u;
    assert 3 * u == 1024 * q + r;
    if r < 48 {
      assert 0 <= q < 96;
      RootRows(q);
      MissRows(q, 17);
      StartsAtRoot(q, Root(q), x);
      DivUnique(17 * q, 48, 347 * n - 282 * u, r);
    }
  }

  lemma LuckyIsSteady(k: int, c: int)
    requires Lucky(k, c)
    ensures Steady(k, -(0x400 * k + c))
  {
    var t3 := -(0x400 * k + c);
    forall x | -0x8000 <= x < 0x7FFF ensures !Drops(k, t3, x) {
      CutStep(x);
      if Cut(x + 1) - Cut(x) < 16 {
        SmallStep(k, c, Cut(x + 1) - Cut(x));
        DropBound(Cut(x), Cut(x + 1), -(0x400 * k + c), k);
      } else if c == 1 {
        LuckyOne(k, if k == 3 then 5 else if k == 5 then 3 else if k == 9 then 7 else 1, if k == 9 then 4 else 1, x);
      } else {
        LuckyThird(x);
      }
    }
  }

  lemma SmallStep(k: int, c: int, d: int)
    requires Lucky(k, c) && d <= 15
    ensures d * -(0x400 * k + c) >= -0x4000 * k
  {
    MulMonotone(d, 15, 0x400 * k + c);
  }

  /* ---- the same five with a positive t3 ---- */

  /** An odd factor does not help to be divisible by 2^14; `inv` inverts it. */
  lemma OddDivides(t: int, inv: int, m: int, z: int)
    requires t * inv == 1 + 0x4000 * m && t * z % 0x4000 == 0
    ensures z % 0x4000 == 0
  {
    var n := t * z / 0x4000;
    assert t * z == 0x4000 * n;
    assert inv * (t * z) == z + 0x4000 * (m * z) by { assert inv * (t * z) == (t * inv) * z; }
    assert z == 0x4000 * (inv * n - m * z) by { assert inv * (0x4000 * n) == 0x4000 * (inv * n); }
    DivUnique(z, 0x4000, inv * n - m * z, 0);
  }

  lemma LuckyOdd(k: int, c: int, z: int)
    requires Lucky(k, c) && (0x400 * k + c) * z % 0x4000 == 0
    ensures z % 0x4000 == 0
  {
    if k == 3 {
      OddDivides(3_073, 13_313, 2_497, z);
    } else if k == 5 {
      OddDivides(5_121, 11_265, 3_521, z);
    } else if k == 9 {
      OddDivides(9_217, 7_169, 4_033, z);
    } else if k == 15 {
      OddDivides(15_361, 1_025, 961, z);
    } else {
      OddDivides(13_315, 5_803, 4_716, z);
    }
  }

  /** A drop at a step of 16 down, in terms of the step up that mirrors it. */
  lemma DropsDown(k: int, c: int, y: int)
    requires 0 < 16 * c < 0x4000
    ensures var r := (0x400 * k + c) * (0x4_0000 - Cut(y)) % 0x4000;
            Cut(y + 1) - Cut(y) == 16 ==> (Drops(k, 0x400 * k + c, -y - 1) <==> 0 < r <= 16 * c)
  {
    if Cut(y + 1) - Cut(y) == 16 {
      var t, s := 0x400 * k + c, Cut(y);
      var u := 0x4_0000 - s;
      var n, r := t * u / 0x4000, t * u % 0x4000;
      assert (-y - 1) * (-y - 1) == (y + 1) * (y + 1) && (-y - 1 + 1) * (-y - 1 + 1) == y * y;
      assert Cut(-y - 1) == s + 16 && Cut(-y - 1 + 1) == s;
      hide Cut;
      assert s * t == 0x4000 * (16 * t - n) - r by { assert t * u == 0x4_0000 * t - t * s; }
      assert (s + 16) * t == 0x4000 * (16 * t - n + k) + 16 * c - r by { assert (s + 16) * t == s * t + 16 * t; }
      assert s * t / 0x4000 == 16 * t - n + (if r == 0 then 0 else -1);
      assert (s + 16) * t / 0x4000 == 16 * t - n + k + (16 * c - r) / 0x4000;
    }
  }

  /** Where the cut square is 2^18 - 16, and that it is never 2^18 - 16400. */
  lemma CutNotThere(y: int)
    requires 0 <= y < 0x7FFF
    ensures Cut(y) != 0x4_0000 - 16 && Cut(y) != 0x4_0000 - 16_400
  {
    SquareOrder(y, 0x7FFE);
    if y >= 31_727 {
      SquareOrder(31_727, y);
    } else {
      SquareOrder(y, 31_726);
    }
  }

  /** With a positive t3 the five lucky trims drop at one place only, the lowest step of all. */
  lemma LuckyAbove(k: int, c: int, x: int)
    requires Lucky(k, c) && -0x8000 <= x < 0x7FFF
    ensures Drops(k, 0x400 * k + c, x) ==> x == -0x8000
  {
    var t, y, d := 0x400 * k + c, -x - 1, Cut(x) - Cut(x + 1);
    CutStep(x);
    MirrorStep(x);
    if x != -0x8000 && Drops(k, t, x) {
      if d <= 15 {
        SmallStep(k, c, d);
        assert -d * t == d * -t;
        DropBound(Cut(x), Cut(x + 1), t, k);
      } else {
        LuckyIsSteady(k, c);
        CutStep(y);
        DropsDown(k, c, y);
        DropsExactly(k, c, y);
        CutNotThere(y);
        CutRange(y);
        Offset16(t, k, c, 0x4_0000 - Cut(y));
        LuckyOdd(k, c, 0x4_0000 - Cut(y) - 16);
      }
    }
  }

  lemma MirrorStep(x: int)
    requires -0x8000 <= x < 0x7FFF
    ensures Cut(-x - 1) == Cut(x + 1) && Cut(-x - 1 + 1) == Cut(x)
  {
    assert (-x - 1) * (-x - 1) == (x + 1) * (x + 1) && -x * -x == x * x;
  }

  lemma Offset16(t: int, k: int, c: int, u: int)
    requires t == 0x400 * k + c && t * u % 0x4000 == 16 * c
    ensures t * (u - 16) % 0x4000 == 0
  {
    assert t * u == 0x4000 * (t * u / 0x4000) + 16 * c;
    assert t * (u - 16) == t * u - 0x4000 * k - 16 * c;
    DivUnique(t * (u - 16), 0x4000, t * u / 0x4000 - k, 0);
  }

  /* ---- every other trim drops somewhere ---- */

  lemma DropsAbove(k: int, t3: int)
    requires k >= 0 && t3 > 0x400 * k
    ensures !Steady(k, t3)
  {
    var e, r := -16 * t3 / 0x4000, -16 * t3 % 0x4000;
    DivUnique(0x4_0000 * t3, 0x4000, 16 * t3, 0);
    DivUnique(0x3_FFF0 * t3, 0x4000, 16 * t3 + e, r);
    assert Cut(-0x8000) == 0x4_0000 && Cut(-0x7FFF) == 0x3_FFF0;
    hide Cut;
    assert Drops(k, t3, -0x8000);
  }

  /** The step of 16 up from 2^18 - u, at y, is a drop for t3 = -(1024 k + c) when k is i modulo m. */
  predicate Spot(c: int, m: int, i: int, y: int, u: int) {
    && y * y / 0x1000 == 0x4_0000 - u && (y + 1) * (y + 1) / 0x1000 == 0x4_0000 - u + 16
    && 0 <= y < 0x7FFF && m > 0 && m * u % 16 == 0 && (0x400 * i + c) * u % 0x4000 < 16 * c
  }

  predicate IsMod(k: int, m: int, i: int) { m > 0 && k % m == i }

  /** The residues of an odd k below 16. */
  lemma OddResidues(k: int)
    requires 0 <= k < 16 && IsMod(k, 2, 1)
    ensures IsMod(k, 1, 0) && IsMod(k, 16, k) && (IsMod(k, 4, 1) || IsMod(k, 4, 3))
    ensures k == 1 || k == 9 ==> IsMod(k, 8, 1)
    ensures k == 3 || k == 11 ==> IsMod(k, 8, 3)
    ensures k == 5 || k == 13 ==> IsMod(k, 8, 5)
    ensures k == 7 || k == 15 ==> IsMod(k, 8, 7)
    ensures k == 1 || k == 3 || k == 5 || k == 7 || k == 9 || k == 11 || k == 13 || k == 15
    ensures IsMod(k, 4, 1) <==> k == 1 || k == 5 || k == 9 || k == 13
  {
  }

  lemma DropAt(k: int, c: int, m: int, i: int, y: int, u: int)
    ensures Spot(c, m, i, y, u) && IsMod(k, m, i) ==> !Steady(k, -(0x400 * k + c))
  {
    if Spot(c, m, i, y, u) && IsMod(k, m, i) {
      var a, b, h := m * u / 16, k / m, (0x400 * i + c) * u;
      assert k * u == 16 * a * b + i * u by {
        assert k == m * b + i;
        assert k * u == m * b * u + i * u;
        assert m * b * u == m * u * b;
      }
      assert (0x400 * k + c) * u == 0x400 * (k * u) + c * u && h == 0x400 * (i * u) + c * u;
      DivUnique((0x400 * k + c) * u, 0x4000, a * b + h / 0x4000, h % 0x4000);
      DropsExactly(k, c, y);
    }
  }

  lemma Spots0()
    ensures Spot(1, 16, 1, 31_925, 13_315)
    ensures Spot(1, 16, 7, 32_316, 7_183)
    ensures Spot(1, 16, 13, 32_446, 5_127)
    ensures Spot(1, 16, 11, 32_575, 3_079)
    ensures Spot(2, 4, 3, 32_381, 6_156)
    ensures Spot(2, 4, 1, 32_639, 2_060)
  {
  }

  lemma Spots1()
    ensures Spot(3, 8, 7, 31_239, 23_894)
    ensures Spot(3, 8, 1, 32_295, 7_514)
    ensures Spot(3, 16, 11, 31_306, 22_871)
    ensures Spot(3, 16, 3, 31_925, 13_315)
    ensures Spot(3, 16, 5, 32_273, 7_861)
  {
  }

  lemma Spots2()
    ensures Spot(5, 4, 1, 31_247, 23_772)
    ensures Spot(5, 8, 7, 32_277, 7_798)
    ensures Spot(5, 16, 11, 31_819, 14_965)
    ensures Spot(5, 16, 3, 32_290, 7_593)
    ensures Spot(6, 2, 1, 32_165, 9_560)
  {
  }

  lemma Spots3()
    ensures Spot(7, 8, 7, 31_821, 14_934)
    ensures Spot(7, 8, 5, 32_158, 9_670)
    ensures Spot(7, 8, 3, 32_603, 2_634)
    ensures Spot(7, 16, 9, 31_547, 19_173)
    ensures Spot(7, 16, 1, 32_205, 8_931)
  {
  }

  lemma Spots4()
    ensures Spot(9, 1, 0, 32_194, 9_104)
    ensures Spot(10, 4, 3, 32_381, 6_156)
    ensures Spot(10, 4, 1, 32_639, 2_060)
    ensures Spot(11, 4, 1, 31_703, 16_764)
    ensures Spot(11, 8, 7, 31_181, 24_778)
    ensures Spot(11, 8, 3, 32_145, 9_874)
  {
  }

  lemma Spots5()
    ensures Spot(13, 4, 1, 32_031, 11_660)
    ensures Spot(13, 4, 3, 32_271, 7_892)
    ensures Spot(14, 1, 0, 31_651, 17_568)
    ensures Spot(15, 4, 3, 31_247, 23_772)
    ensures Spot(15, 4, 1, 32_476, 4_652)
  {
  }

  lemma EvenDrops(k: int, c: int)
    requires k % 2 == 0 && 1 <= c <= 16
    ensures !Steady(k, -(0x400 * k + c))
  {
    DivUnique(c * 16_392, 0x4000, c, 8 * c);
    DropAt(k, c, 2, 0, 31_727, 16_392);
  }

  lemma FourDrops(k: int, c: int)
    requires c % 4 == 0 && 1 <= c <= 16
    ensures !Steady(k, -(0x400 * k + c))
  {
    DivUnique(c * 4_096, 0x4000, c / 4, 0);
    DropAt(k, c, 1, 0, 32_511, 4_096);
  }

  lemma LowDrops(k: int, c: int)
    requires 0 <= k < 16 && IsMod(k, 2, 1) && 1 <= c < 4 && !Lucky(k, c)
    ensures !Steady(k, -(0x400 * k + c))
  {
    hide Steady, Spot, IsMod;
    OddResidues(k);
    Spots0();
    Spots1();
    match c
    case 1 =>
      DropAt(k, 1, 16, 1, 31_925, 13_315);
      DropAt(k, 1, 16, 7, 32_316, 7_183);
      DropAt(k, 1, 16, 13, 32_446, 5_127);
      DropAt(k, 1, 16, 11, 32_575, 3_079);
    case 2 =>
      DropAt(k, 2, 4, 3, 32_381, 6_156);
      DropAt(k, 2, 4, 1, 32_639, 2_060);
    case _ =>
      DropAt(k, 3, 8, 7, 31_239, 23_894);
      DropAt(k, 3, 8, 1, 32_295, 7_514);
      DropAt(k, 3, 16, 11, 31_306, 22_871);
      DropAt(k, 3, 16, 3, 31_925, 13_315);
      DropAt(k, 3, 16, 5, 32_273, 7_861);
  }

  lemma MiddleDrops(k: int, c: int)
    requires 0 <= k < 16 && IsMod(k, 2, 1) && 4 < c < 8
    ensures !Steady(k, -(0x400 * k + c))
  {
    hide Steady, Spot, IsMod;
    OddResidues(k);
    Spots2();
    Spots3();
    match c
    case 5 =>
      DropAt(k, 5, 4, 1, 31_247, 23_772);
      DropAt(k, 5, 8, 7, 32_277, 7_798);
      DropAt(k, 5, 16, 11, 31_819, 14_965);
      DropAt(k, 5, 16, 3, 32_290, 7_593);
    case 6 =>
      DropAt(k, 6, 2, 1, 32_165, 9_560);
    case _ =>
      DropAt(k, 7, 8, 7, 31_821, 14_934);
      DropAt(k, 7, 8, 5, 32_158, 9_670);
      DropAt(k, 7, 8, 3, 32_603, 2_634);
      DropAt(k, 7, 16, 9, 31_547, 19_173);
      DropAt(k, 7, 16, 1, 32_205, 8_931);
  }

  lemma HighDrops(k: int, c: int)
    requires 0 <= k < 16 && IsMod(k, 2, 1) && 8 < c < 16 && c != 12
    ensures !Steady(k, -(0x400 * k + c))
  {
    hide Steady, Spot, IsMod;
    OddResidues(k);
    Spots4();
    Spots5();
    match c
    case 9 =>
      DropAt(k, 9, 1, 0, 32_194, 9_104);
    case 10 =>
      DropAt(k, 10, 4, 3, 32_381, 6_156);
      DropAt(k, 10, 4, 1, 32_639, 2_060);
    case 11 =>
      DropAt(k, 11, 4, 1, 31_703, 16_764);
      DropAt(k, 11, 8, 7, 31_181, 24_778);
      DropAt(k, 11, 8, 3, 32_145, 9_874);
    case 13 =>
      DropAt(k, 13, 4, 1, 32_031, 11_660);
      DropAt(k, 13, 4, 3, 32_271, 7_892);
    case 14 =>
      DropAt(k, 14, 1, 0, 31_651, 17_568);
    case _ =>
      DropAt(k, 15, 4, 3, 31_247, 23_772);
      DropAt(k, 15, 4, 1, 32_476, 4_652);
  }

  lemma SmallDrops(k: int, c: int)
    requires 0 <= k < 16 && 1 <= c <= 16 && !Lucky(k, c)
    ensures !Steady(k, -(0x400 * k + c))
  {
    hide Steady, Lucky;
    if k % 2 == 0 {
      EvenDrops(k, c);
    } else if c % 4 == 0 {
      FourDrops(k, c);
    } else if c < 4 {
      LowDrops(k, c);
    } else if c < 8 {
      MiddleDrops(k, c);
    } else {
      HighDrops(k, c);
    }
  }

  /** The squares next to the top of the range fall by 16 at each step. */
  lemma CutNearTop(j: int)
    requires 0 <= j <= 61
    ensures Cut(0x8000 - j) == 0x4_0000 - 16 * j
  {
    MulBound(j, j, 61, 61);
    MulMonotone(0, j, j);
    var x := 0x8000 - j;
    assert x * x == 0x1000 * (0x4_0000 - 16 * j) + j * j;
    DivUnique(x * x, 0x1000, 0x4_0000 - 16 * j, j * j);
  }

  /** From c = 17 on, the first j with c j >= 1024 is near enough to the top. */
  lemma LargeDrops(k: int, c: int)
    requires 17 <= c < 0x400
    ensures !Steady(k, -(0x400 * k + c))
  {
    var j := (0x3FF + c) / c;
    FirstMultiple(c, j);
    CutNearTop(j);
    CutNearTop(j - 1);
    LargeDrop(k, c, j);
    hide Cut, Drops;
    DropsExactly(k, c, 0x8000 - j);
  }

  lemma FirstMultiple(c: int, j: int)
    requires 17 <= c < 0x400 && j == (0x3FF + c) / c
    ensures c * j >= 0x400 > c * (j - 1) && 2 <= j <= 61
  {
    assert 0x3FF + c == c * j + (0x3FF + c) % c;
    assert c * (j - 1) == c * j - c;
    if j > 61 {
      MulMonotone(17, c, 61);
      MulMonotone(61, j - 1, c);
    } else if j < 2 {
      MulMonotone(j, 1, c);
    }
  }

  lemma HugeDrops(k: int, c: int)
    requires c >= 0x400
    ensures !Steady(k, -(0x400 * k + c))
  {
    CutNearTop(2);
    CutNearTop(1);
    hide Cut, Drops;
    DropsExactly(k, c, 0x7FFE);
  }

  lemma LargeDrop(k: int, c: int, j: int)
    requires c > 0 && c * j >= 0x400 > c * (j - 1)
    ensures (0x400 * k + c) * (16 * j) % 0x4000 < 16 * c
  {
    var t, r := (0x400 * k + c) * (16 * j), 16 * (c * j) - 0x4000;
    assert c * (j - 1) == c * j - c;
    assert t == 0x4000 * (k * j + 1) + r;
    if r < 0x4000 {
      DivUnique(t, 0x4000, k * j + 1, r);
    } else {
      assert t % 0x4000 < 0x4000 <= 16 * c;
    }
  }

  /** The squared term is steady exactly when the linear trim dominates. */
  lemma SteadyExactly(k: int, t3: int)
    requires 0 <= k < 16 && IsS16(t3)
    ensures Steady(k, t3) <==> LinearDominates(k, t3)
  {
    hide Steady, Lucky;
    var c := -t3 - 0x400 * k;
    if t3 > 0x400 * k {
      LuckyIsBelow(k, c);
      DropsAbove(k, t3);
    } else if c <= 0 {
      DominatedIsSteady(k, t3);
    } else if Lucky(k, c) {
      LuckyIsSteady(k, c);
    } else if c <= 16 {
      SmallDrops(k, c);
    } else if c < 0x400 {
      LargeDrops(k, c);
    } else {
      HugeDrops(k, c);
    }
  }

  lemma LuckyIsBelow(k: int, c: int)
    ensures Lucky(k, c) ==> c > 0 && k > 0
  {
  }
}
