/** The text get_bmp_info_str prints and sensor_thread scans back with "%f %f". */
module SensorText {
  import opened CInt
  import opened Decimal

  /** "%d.%d" on a value in hundredths, with C's `/` and `%`, followed by `rest`. */
  function Field(x: int, rest: string): string {
    Print(TDiv(x, 100)) + ("." + (Print(TRem(x, 100)) + rest))
  }

  /** "%d.%d %d.%d" */
  function Text(temp: int, press: int): string { Field(temp, " " + Field(press, "")) }

  const BUFFER := 20

  /** scnprintf keeps at most 19 characters of a 20-byte buffer. */
  function Printed(temp: int, press: int): string {
    var s := Text(temp, press);
    if |s| < BUFFER then s else s[..BUFFER - 1]
  }

  /** A scanned decimal: its digits as one number, and how many of them follow the point. */
  datatype Scanned = Scanned(neg: bool, digits: nat, scale: nat)

  function ToReal(d: Scanned): real {
    (if d.neg then -(d.digits as real) else d.digits as real) / Pow10(d.scale) as real
  }

  datatype Option<T> = None | Some(value: T)

  /** Digits, a point, digits; at least one digit. */
  function ScanUnsigned(neg: bool, u: string): Option<(Scanned, string)> {
    var a := DigitRun(u);
    var v := if a < |u| && u[a] == '.' then u[a + 1..] else u[a..];
    var b := if a < |u| && u[a] == '.' then DigitRun(v) else 0;
    if a + b == 0 then None else Some((Scanned(neg, Value(u[..a] + v[..b]), b), v[b..]))
  }

  /** "%f" without exponents: blanks, a sign, then an unsigned decimal. */
  function ScanFloat(s: string): Option<(Scanned, string)> {
    var t := SkipSpace(s);
    if t != "" && (t[0] == '-' || t[0] == '+') then ScanUnsigned(t[0] == '-', t[1..])
    else ScanUnsigned(false, t)
  }

  /** "%f %f" */
  function Scan(s: string): Option<(real, real)> {
    match ScanFloat(s)
    case None => None
    case Some((temp, rest)) =>
      match ScanFloat(SkipSpace(rest))
      case None => None
      case Some((press, _)) => Some((ToReal(temp), ToReal(press)))
  }

  lemma {:induction false} ScanDecimal(neg: bool, a: string, b: string, rest: string)
    requires AllDigits(a) && |a| > 0 && AllDigits(b) && (rest == "" || !IsDigit(rest[0]))
    ensures AllDigits(a + b)
    ensures ScanUnsigned(neg, a + ("." + (b + rest))) == Some((Scanned(neg, Value(a + b), |b|), rest))
  {
    hide Value;
    var tail := "." + (b + rest);
    var u := a + tail;
    DigitRunOf(a, tail);
    assert u[|a|] == '.';
    assert u[|a| + 1..] == b + rest;
    DigitRunOf(b, rest);
  }

  /** A digit first, or a minus sign and then anything. */
  lemma {:induction false} ScanSign(s: string, u: string)
    requires (u != "" && IsDigit(u[0]) && s == u) || s == "-" + u
    ensures ScanFloat(s) == ScanUnsigned(s != u, u)
  {
    NoSkip(s);
    assert s == "-" + u ==> s[1..] == u && s != u;
  }

  function Minus(yes: bool): string { if yes then "-" else "" }

  lemma PrintPart(neg: bool, m: int)
    requires m >= 0
    ensures Print(if neg then -m else m) == Minus(neg && m > 0) + Digits(m)
  {
    hide Digits;
    assert "" + Digits(m) == Digits(m);
  }

  lemma TruncatedParts(x: int, n: nat)
    requires n == if x < 0 then -x else x
    ensures TDiv(x, 100) == (if x < 0 then -(n / 100) else n / 100)
    ensures TRem(x, 100) == (if x < 0 then -(n % 100) else n % 100)
  {
  }

  lemma {:induction false} Concatenated(a: string, b: string, c: string, d: string, rest: string)
    ensures (a + b) + ("." + ((c + d) + rest)) == a + b + "." + c + d + rest
  {
  }

  /** The text of a field, character for character: no leading zero after the point, and a second minus sign there
      for a negative value with hundredths, whose first one is missing when the whole part is 0. */
  lemma {:induction false} FieldText(x: int, rest: string)
    ensures var n := if x < 0 then -x else x;
            Field(x, rest) == (if x <= -100 then "-" else "") + Digits(n / 100) + "."
                              + (if x < 0 && n % 100 > 0 then "-" else "") + Digits(n % 100) + rest
  {
    var n: int := if x < 0 then -x else x;
    var q: nat, r: nat := n / 100, n % 100;
    TruncatedParts(x, n);
    hide Digits, Print, TDiv, TRem;
    PrintPart(x < 0, q);
    PrintPart(x < 0, r);
    Concatenated(Minus(x < 0 && q > 0), Digits(q), Minus(x < 0 && r > 0), Digits(r), rest);
    assert x <= -100 <==> x < 0 && q > 0;
  }

  /** A remainder the text does not distort: no hundredths, or at least ten of them. */
  predicate Clean(x: int) { x % 100 == 0 || (x >= 0 && x % 100 >= 10) }

  lemma TwoDigits(r: nat)
    requires r < 100
    ensures |Digits(r)| == if r < 10 then 1 else 2
  {
  }

  /** What q "." r is read as: one digit after the point is tenths, two are hundredths. */
  function Shown(q: nat, r: nat): real { q as real + if r < 10 then r as real / 10.0 else r as real / 100.0 }

  lemma ReadBack(neg: bool, q: nat, r: nat)
    requires r < 100
    ensures AllDigits(Digits(q) + Digits(r))
    ensures var d := ToReal(Scanned(neg, Value(Digits(q) + Digits(r)), |Digits(r)|));
            d == if neg then -Shown(q, r) else Shown(q, r)
  {
    hide Value, Digits;
    ValueConcat(Digits(q), Digits(r));
    DigitsValue(q);
    DigitsValue(r);
    TwoDigits(r);
    assert Pow10(1) == 10 && Pow10(2) == 100;
  }

  /** What a non-negative field scans as, and where the scan stops. */
  lemma {:induction false} ScanNonNegative(x: nat, rest: string)
    requires rest == "" || !IsDigit(rest[0])
    ensures var f := ScanFloat(Field(x, rest));
            f.Some? && f.value.1 == rest && ToReal(f.value.0) == Shown(x / 100, x % 100)
  {
    hide ToReal, Value, Digits, ScanFloat, ScanUnsigned, Shown;
    var q, r := x / 100, x % 100;
    ScanDecimal(false, Digits(q), Digits(r), rest);
    ScanSign(Field(x, rest), Field(x, rest));
    ReadBack(false, q, r);
  }

  /** A negative field without hundredths scans as its value; otherwise the second minus sign cuts the text, and the
      whole part is all that is scanned. */
  lemma {:induction false} ScanNegative(n: int, rest: string)
    requires n > 0 && rest != "" && !IsDigit(rest[0])
    ensures var f := ScanFloat(Field(-n, rest));
            && f.Some? && ToReal(f.value.0) == -((n / 100) as real)
            && f.value.1 == if n % 100 == 0 then rest else "-" + Digits(n % 100) + rest
  {
    hide ToReal, Value, Digits, ScanFloat, ScanUnsigned;
    var q: int, r: int := n / 100, n % 100;
    var unsigned := Digits(q) + ("." + (Print(-r) + rest));
    NegativeField(n, rest);
    ScanSign(Field(-n, rest), unsigned);
    hide Field, Print;
    if r == 0 {
      assert Print(0) == Digits(0) by { PrintZero(); }
      ScanDecimal(true, Digits(q), Digits(0), rest);
      ReadBack(true, q, 0);
    } else {
      PrintMinus(r);
      assert Print(-r) + rest == "" + (Print(-r) + rest);
      assert !IsDigit((Print(-r) + rest)[0]);
      ScanDecimal(q > 0, Digits(q), "", Print(-r) + rest);
      WholePart(q > 0, q);
    }
  }

  lemma PrintZero()
    ensures Print(0) == Digits(0)
  {
  }

  lemma PrintMinus(r: int)
    requires r > 0
    ensures Print(-r) == "-" + Digits(r)
  {
  }

  /** The text of a negative field: a minus sign in front only when the whole part is not 0. */
  lemma {:induction false} NegativeField(n: int, rest: string)
    requires n > 0
    ensures var unsigned := Digits(n / 100) + ("." + (Print(-(n % 100)) + rest));
            && Field(-n, rest) == (if n / 100 > 0 then "-" + unsigned else unsigned)
            && unsigned != "" && IsDigit(unsigned[0])
  {
    var q: int, r: int := n / 100, n % 100;
    TruncatedParts(-n, n);
    hide Digits, Print, TDiv, TRem;
    var tail := "." + (Print(-r) + rest);
    assert Field(-n, rest) == Print(-q) + tail;
    hide Field;
    NegativePrint(q, tail);
  }

  lemma {:induction false} NegativePrint(q: int, tail: string)
    requires q >= 0
    ensures Print(-q) + tail == if q > 0 then "-" + (Digits(q) + tail) else Digits(q) + tail
    ensures Digits(q) + tail != "" && IsDigit((Digits(q) + tail)[0])
  {
    hide Digits;
    assert q > 0 ==> ("-" + Digits(q)) + tail == "-" + (Digits(q) + tail);
  }

  /** Digits q with nothing after the point denote q. */
  lemma WholePart(neg: bool, q: int)
    requires q >= 0
    ensures AllDigits(Digits(q) + "")
    ensures ToReal(Scanned(neg, Value(Digits(q) + ""), 0)) == if neg then -(q as real) else q as real
  {
    assert Digits(q) + "" == Digits(q);
    DigitsValue(q);
    assert Pow10(0) == 1;
  }

  /** What is left of a cut field scans as minus its hundredths. */
  lemma {:induction false} ScanRemainder(r: nat, rest: string)
    requires r > 0 && rest != "" && !IsDigit(rest[0]) && rest[0] != '.'
    ensures var s := "-" + Digits(r) + rest;
            && SkipSpace(s) == s && ScanFloat(s).Some? && ToReal(ScanFloat(s).value.0) == -(r as real)
  {
    hide Digits, Value, ToReal;
    var s, u := "-" + Digits(r) + rest, Digits(r) + rest;
    assert s == "-" + u;
    NoSkip(s);
    DigitRunOf(Digits(r), rest);
    assert u[|Digits(r)|] == rest[0];
    assert u[..|Digits(r)|] == Digits(r);
    ScanSign(s, u);
    WholePart(true, r);
  }

  lemma {:induction false} SkipBlank(s: string)
    requires s != "" && !IsSpace(s[0])
    ensures SkipSpace(" " + s) == s
  {
    assert (" " + s)[1..] == s;
  }

  /** What the sensor thread makes of the text: a non-negative reading loses the leading zero of its hundredths; below
      zero a temperature with hundredths is cut to its whole part, and its hundredths are taken for the pressure. */
  function ReadAs(temp: int, press: nat): (real, real) {
    var n := if temp < 0 then -temp else temp;
    if temp >= 0 then (Shown(temp / 100, temp % 100), Shown(press / 100, press % 100))
    else if n % 100 == 0 then (-((n / 100) as real), Shown(press / 100, press % 100))
    else (-((n / 100) as real), -((n % 100) as real))
  }

  /** The scan of every text that fits, exactly. */
  lemma ScanReads(temp: int, press: nat)
    requires |Text(temp, press)| < BUFFER
    ensures Scan(Printed(temp, press)) == Some(ReadAs(temp, press))
  {
    hide ToReal, Value, Digits, ScanFloat, ScanUnsigned, Field, Print, SkipSpace, Shown;
    var p := Field(press, "");
    ScanNonNegative(press, "");
    FieldStart(press, "");
    SkipBlank(p);
    if temp >= 0 {
      ScanNonNegative(temp, " " + p);
    } else {
      ScanNegative(-temp, " " + p);
      if -temp % 100 != 0 {
        ScanRemainder(-temp % 100, " " + p);
      }
    }
  }

  /** Hence print then scan recovers both values exactly when both remainders survive the text. */
  lemma ScanPrinted(temp: int, press: nat)
    requires |Text(temp, press)| < BUFFER
    ensures Scan(Printed(temp, press)) == Some((temp as real / 100.0, press as real / 100.0))
       <==> Clean(temp) && Clean(press)
  {
    hide Scan, Printed, Text;
    ScanReads(temp, press);
    ShownExactly(press);
    if temp >= 0 {
      ShownExactly(temp);
    } else {
      WholeExactly(-temp);
    }
  }

  lemma ShownExactly(x: nat)
    ensures Shown(x / 100, x % 100) == x as real / 100.0 <==> Clean(x)
  {
    assert x as real == 100.0 * (x / 100) as real + (x % 100) as real;
  }

  lemma WholeExactly(n: int)
    requires n > 0
    ensures -((n / 100) as real) == (-n) as real / 100.0 <==> n % 100 == 0
    ensures Clean(-n) <==> n % 100 == 0
  {
    assert n as real == 100.0 * (n / 100) as real + (n % 100) as real;
    assert -n % 100 == 0 <==> n % 100 == 0;
  }

  /** The buffer holds the text, or its first 19 characters. */
  lemma PrintedKeeps(temp: int, press: int)
    ensures Printed(temp, press) <= Text(temp, press)
    ensures |Printed(temp, press)| == if |Text(temp, press)| <= 19 then |Text(temp, press)| else 19
  {
  }

  lemma {:induction false} FieldStart(x: nat, rest: string)
    ensures var f := Field(x, rest); f != "" && !IsSpace(f[0])
  {
  }

  /** Readings below 1000 degrees and 1000000 hPa never need truncation. */
  lemma TextFits(temp: int, press: nat)
    requires -100_000 < temp < 100_000 && press < 100_000_000
    ensures |Text(temp, press)| < BUFFER
  {
    assert Pow10(2) == 100 && Pow10(3) == 1000 && Pow10(6) == 1_000_000;
    var n := if temp < 0 then -temp else temp;
    DigitsAtMost(n / 100, 3);
    DigitsAtMost(n % 100, 2);
    DigitsAtMost(press / 100, 6);
    DigitsAtMost(press % 100, 2);
  }
}
