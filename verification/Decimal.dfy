/** Decimal text: what "%d" prints and what digit readers make of it. */
module Decimal {
  import opened CInt

  predicate IsDigit(c: char) { '0' <= c <= '9' }

  predicate IsSpace(c: char) { c == ' ' || c == '\t' || c == '\n' || c == '\r' }

  predicate AllDigits(s: string) { forall k :: 0 <= k < |s| ==> IsDigit(s[k]) }

  function DigitChar(d: nat): char
    requires d < 10
  {
    '0' + d as char
  }

  function DigitValue(c: char): nat
    requires IsDigit(c)
  {
    (c - '0') as nat
  }

  function Pow10(n: nat): (p: nat)
    ensures p >= 1
  {
    if n == 0 then 1 else 10 * Pow10(n - 1)
  }

  /** The digits of a natural number, without leading zeros. */
  function Digits(n: nat): (s: string)
    ensures AllDigits(s) && |s| >= 1
  {
    if n < 10 then [DigitChar(n)] else Digits(n / 10) + [DigitChar(n % 10)]
  }

  /** The number a digit string denotes; the empty string denotes 0. */
  function Value(s: string): nat
    requires AllDigits(s)
  {
    if s == "" then 0 else Value(s[..|s| - 1]) * 10 + DigitValue(s[|s| - 1])
  }

  /** "%d" */
  function Print(x: int): string { if x < 0 then "-" + Digits(-x) else Digits(x) }

  /** The number of leading digits. */
  function DigitRun(s: string): (n: nat)
    ensures n <= |s| && AllDigits(s[..n]) && (n < |s| ==> !IsDigit(s[n]))
  {
    if s == "" || !IsDigit(s[0]) then 0
    else
      var n := DigitRun(s[1..]);
      assert forall k :: 0 < k < n + 1 ==> s[k] == s[1..][k - 1];
      n + 1
  }

  function SkipSpace(s: string): (r: string)
    ensures |r| <= |s| && (r == "" || !IsSpace(r[0]))
  {
    if s != "" && IsSpace(s[0]) then SkipSpace(s[1..]) else s
  }

  function LeadingValue(neg: bool, u: string): int {
    var v: int := Value(u[..DigitRun(u)]);
    if neg then -v else v
  }

  /** atoi on a buffer: blanks, an optional sign, then digits up to the first other character. */
  function Atoi(s: string): int {
    var t := SkipSpace(s);
    if t != "" && (t[0] == '-' || t[0] == '+') then LeadingValue(t[0] == '-', t[1..]) else LeadingValue(false, t)
  }

  lemma {:induction false} NoSkip(s: string)
    requires s != "" && !IsSpace(s[0])
    ensures SkipSpace(s) == s
  {
  }

  lemma {:induction false} ValueSnoc(s: string, c: char)
    requires AllDigits(s) && IsDigit(c)
    ensures AllDigits(s + [c]) && Value(s + [c]) == Value(s) * 10 + DigitValue(c)
  {
    assert (s + [c])[..|s|] == s;
  }

  lemma {:induction false} DigitsValue(n: nat)
    ensures Value(Digits(n)) == n
  {
    if n >= 10 {
      DigitsValue(n / 10);
      ValueSnoc(Digits(n / 10), DigitChar(n % 10));
    } else {
      ValueSnoc("", DigitChar(n));
      assert Digits(n) == "" + [DigitChar(n)];
    }
  }

  lemma {:induction false} ValueConcat(a: string, b: string)
    requires AllDigits(a) && AllDigits(b)
    ensures AllDigits(a + b) && Value(a + b) == Value(a) * Pow10(|b|) + Value(b)
  {
    hide Value, Pow10;
    if b == "" {
      assert a + b == a;
      ValueEmpty(a);
    } else {
      var b', c := b[..|b| - 1], b[|b| - 1];
      ValueConcat(a, b');
      assert a + b == (a + b') + [c] && b == b' + [c];
      ValueSnoc(a + b', c);
      ValueSnoc(b', c);
      ShiftTen(Value(a), |b'|);
    }
  }

  lemma {:induction false} ValueEmpty(a: string)
    requires AllDigits(a)
    ensures Value("") == 0 && Value(a) * Pow10(0) == Value(a)
  {
  }

  lemma ShiftTen(v: nat, n: nat)
    ensures v * Pow10(n) * 10 == v * Pow10(n + 1)
  {
  }

  /** A digit string is cut off by the first character that is not a digit. */
  lemma {:induction false} DigitRunOf(a: string, rest: string)
    requires AllDigits(a) && (rest == "" || !IsDigit(rest[0]))
    ensures DigitRun(a + rest) == |a| && (a + rest)[..|a|] == a && (a + rest)[|a|..] == rest
  {
    var n := DigitRun(a + rest);
    assert forall k :: 0 <= k < |a| ==> (a + rest)[k] == a[k];
    assert rest != "" ==> (a + rest)[|a|] == rest[0];
  }

  /** The digit of n at position k from the right. */
  lemma {:induction false} DigitAt(n: nat, k: nat)
    requires k < |Digits(n)|
    ensures Digits(n)[|Digits(n)| - 1 - k] == "0123456789"[n / Pow10(k) % 10]
  {
    if k == 0 {
      DigitName(n % 10);
    } else if n >= 10 {
      DigitAt(n / 10, k - 1);
      DivTen(n, Pow10(k - 1));
    }
  }

  lemma DigitName(d: nat)
    requires d < 10
    ensures DigitChar(d) == "0123456789"[d]
  {
  }

  /** The number of digits of n fixes its magnitude. */
  lemma {:induction false} DigitsLength(n: nat)
    ensures n < Pow10(|Digits(n)|)
    ensures n > 0 ==> n >= Pow10(|Digits(n)| - 1)
  {
    if n >= 10 {
      DigitsLength(n / 10);
    }
  }

  lemma {:induction false} Pow10Monotone(m: nat, n: nat)
    requires m <= n
    ensures Pow10(m) <= Pow10(n)
  {
    if m < n {
      Pow10Monotone(m, n - 1);
    }
  }

  lemma DigitsAtMost(n: nat, k: nat)
    requires n < Pow10(k) && k > 0
    ensures |Digits(n)| <= k
  {
    DigitsLength(n);
    if |Digits(n)| > k {
      Pow10Monotone(k, |Digits(n)| - 1);
    }
  }

  /** The first k digits of n are n with the others divided away. */
  lemma {:induction false} DigitsPrefix(n: nat, k: nat)
    requires 0 < k <= |Digits(n)|
    ensures Value(Digits(n)[..k]) == n / Pow10(|Digits(n)| - k)
  {
    var len := |Digits(n)|;
    if k == len {
      assert Digits(n)[..k] == Digits(n);
      DigitsValue(n);
    } else {
      assert Digits(n)[..k] == Digits(n / 10)[..k];
      DigitsPrefix(n / 10, k);
      DivTen(n, Pow10(len - 1 - k));
    }
  }

  lemma DivTen(n: nat, p: nat)
    requires p > 0
    ensures n / 10 / p == n / (10 * p)
  {
    var q, r := n / 10 / p, n / 10 % p;
    assert n / 10 == p * q + r;
    assert n == 10 * (p * q + r) + n % 10;
    assert 10 * (p * q) == 10 * p * q;
    DivUnique(n, 10 * p, q, 10 * r + n % 10);
  }
}
