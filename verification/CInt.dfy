/** C integer arithmetic: two's-complement words, arithmetic shifts, truncating division. */
module CInt {

  function Pow2(n: nat): (p: nat)
    ensures p >= 1
  {
    if n == 0 then 1 else 2 * Pow2(n - 1)
  }

  const TWO_31 := 0x8000_0000
  const TWO_32 := 0x1_0000_0000
  const TWO_63 := 0x8000_0000_0000_0000
  const TWO_64 := 0x1_0000_0000_0000_0000

  predicate InS32(x: int) { -TWO_31 <= x < TWO_31 }

  predicate InS64(x: int) { -TWO_63 <= x < TWO_63 }

  /** The value a 32-bit signed word holds after computing `x`. */
  function S32(x: int): (r: int)
    ensures InS32(r) && (InS32(x) ==> r == x)
  {
    (x + TWO_31) % TWO_32 - TWO_31
  }

  /** The value a 64-bit signed word holds after computing `x`. */
  function S64(x: int): (r: int)
    ensures InS64(r) && (InS64(x) ==> r == x)
  {
    (x + TWO_63) % TWO_64 - TWO_63
  }

  /** Conversion to a 32-bit unsigned word. */
  function U32(x: int): (r: nat)
    ensures r < TWO_32 && (0 <= x < TWO_32 ==> r == x)
  {
    x % TWO_32
  }

  /** The words: sizes, and that a value outside its word is off by a multiple of the word's size. */
  lemma Words(x: int)
    ensures TWO_31 == 2147483648 && TWO_32 == 4294967296
    ensures TWO_63 == 9223372036854775808 && TWO_64 == 18446744073709551616
    ensures (S32(x) - x) % TWO_32 == 0 && (S64(x) - x) % TWO_64 == 0 && (U32(x) - x) % TWO_32 == 0
  {
    Wraps(x + TWO_31, TWO_32);
    Wraps(x + TWO_63, TWO_64);
    Wraps(x, TWO_32);
  }

  lemma Wraps(x: int, d: int)
    requires d > 0
    ensures (x % d - x) % d == 0
  {
    assert x % d - x == d * -(x / d);
    DivUnique(x % d - x, d, -(x / d), 0);
  }

  /** C's `/` on a positive divisor: the quotient is truncated toward zero. */
  function TDiv(a: int, b: int): int
    requires b > 0
  {
    if a >= 0 then a / b else -((-a) / b)
  }

  /** C's `%`: the remainder has the sign of the dividend. */
  function TRem(a: int, b: int): int
    requires b > 0
  {
    a - TDiv(a, b) * b
  }

  lemma DivMonotone(a: int, a': int, b: int)
    requires b > 0 && a <= a'
    ensures a / b <= a' / b
  {
    if a / b > a' / b {
      MulMonotone(a' / b + 1, a / b, b);
    }
  }

  lemma MulMonotone(x: int, y: int, k: int)
    requires x <= y && k >= 0
    ensures x * k <= y * k
  {
    assert (y - x) * k >= 0;
  }

  /** A product of bounded factors is bounded. */
  lemma MulBound(x: int, y: int, boundX: int, boundY: int)
    requires -boundX <= x <= boundX && -boundY <= y <= boundY
    ensures -(boundX * boundY) <= x * y <= boundX * boundY
  {
    var ax, ay := if x < 0 then -x else x, if y < 0 then -y else y;
    MulMonotone(ax, boundX, ay);
    MulMonotone(ay, boundY, boundX);
    assert x * y == ax * ay || x * y == -(ax * ay);
  }

  /** Dividing by 2p is halving, then dividing by p. */
  lemma DivTwice(x: int, p: int)
    requires p > 0
    ensures x / (2 * p) == (x / 2) / p
  {
    var q, r := x / (2 * p), x % (2 * p);
    assert x == 2 * p * q + r;
    var h := x / 2;
    assert h == p * q + r / 2;
    assert 0 <= r / 2 < p;
    DivUnique(h, p, q, r / 2);
  }

  lemma DivUnique(x: int, d: int, q: int, r: int)
    requires d > 0 && 0 <= r < d && x == d * q + r
    ensures x / d == q && x % d == r
  {
    var q', r' := x / d, x % d;
    assert x == d * q' + r';
    if q < q' {
      MulMonotone(q + 1, q', d);
    } else if q > q' {
      MulMonotone(q' + 1, q, d);
    }
  }

  /** Floors of a sum. */
  lemma FloorSum(a: int, b: int, d: int)
    requires d > 0
    ensures (a + b) / d >= a / d + b / d
  {
    var qa, qb := a / d, b / d;
    assert a == d * qa + a % d && b == d * qb + b % d;
    assert d * (qa + qb) == d * qa + d * qb;
    DivUnique(d * (qa + qb), d, qa + qb, 0);
    DivMonotone(d * (qa + qb), a + b, d);
  }
}
