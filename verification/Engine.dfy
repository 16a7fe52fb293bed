/** Motor speeds: set by ioctl, shown through sysfs, read back by the system process. */
module Engine {
  import opened CInt
  import opened Decimal

  const SPEED_BASE := 500
  const SPEED_MAX := 10_000

  function CalibrateMs(ms: int): (speed: int)
    ensures 1 <= speed <= SPEED_MAX
    ensures speed == ms || speed == SPEED_BASE
    ensures speed == ms <==> 1 <= ms <= SPEED_MAX
  {
    if ms < 1 || ms > SPEED_MAX then SPEED_BASE else ms
  }

  /** The ioctl argument travels as unsigned long and is read as long. */
  function AsLong(args: int): int { S64(args) }

  datatype Command = Motor1SetSpeed | Motor2SetSpeed | OtherCommand

  /** show_engine_class: scnprintf into sizeof(int) + 1 bytes keeps four characters. */
  function Shown(speed: int): string {
    var s := Print(speed);
    if |s| <= 4 then s else s[..4]
  }

  /** The reader's ten-byte buffer, zeroed, after read() of at most sizeof(int) bytes. */
  function ReadBuffer(shown: string): (buf: string)
    ensures |buf| == 10
  {
    seq(10, i requires i >= 0 => if i < |shown| && i < 4 then shown[i] else '\0')
  }

  function ReadBack(speed: int): int { Atoi(ReadBuffer(Shown(speed))) }

  /** What the kernel makes of an ioctl argument, any unsigned 64-bit word: from 2^63 on it is negative as a long. */
  lemma SpeedSet(args: int)
    ensures 0 <= args < 0x1_0000_0000_0000_0000 ==>
              CalibrateMs(AsLong(args)) == if 1 <= args <= 10_000 then args else 500
  {
    assert args >= 0x8000_0000_0000_0000 && args < 0x1_0000_0000_0000_0000 ==> AsLong(args) == args - TWO_64;
  }

  class EngineDriver {
    var motor1: int
    var motor2: int

    constructor ()
      ensures motor1 == 500 && motor2 == 500
    {
      motor1, motor2 := SPEED_BASE, SPEED_BASE;
    }

    method Ioctl(cmd: Command, args: int)
      modifies this
      ensures motor1 == if cmd == Motor1SetSpeed then CalibrateMs(AsLong(args)) else old(motor1)
      ensures motor2 == if cmd == Motor2SetSpeed then CalibrateMs(AsLong(args)) else old(motor2)
      ensures 0 <= args < 0x1_0000_0000_0000_0000 && cmd == Motor1SetSpeed ==>
                motor1 == if 1 <= args <= 10_000 then args else 500
      ensures 0 <= args < 0x1_0000_0000_0000_0000 && cmd == Motor2SetSpeed ==>
                motor2 == if 1 <= args <= 10_000 then args else 500
    {
      SpeedSet(args);
      hide CalibrateMs, AsLong;
      match cmd {
        case Motor1SetSpeed => motor1 := CalibrateMs(AsLong(args));
        case Motor2SetSpeed => motor2 := CalibrateMs(AsLong(args));
        case OtherCommand =>
      }
    }

    /** The motor 2 half of get_engine_info. */
    method ReadMotor2() returns (speed: int)
      ensures speed == ReadBack(motor2)
    {
      var shown := Shown(motor2);
      var buf := new char[10](_ => '\0');
      for i := 0 to if |shown| < 4 then |shown| else 4
        invariant buf[..] == seq(10, k requires k >= 0 => if k < i then shown[k] else '\0')
      {
        buf[i] := shown[i];
      }
      assert buf[..] == ReadBuffer(shown);
      speed := Atoi(buf[..]);
    }
  }

  lemma {:induction false} AtoiSigned(neg: bool, digits: string, rest: string)
    requires AllDigits(digits) && |digits| > 0 && (rest == "" || !IsDigit(rest[0]))
    ensures Atoi((if neg then "-" else "") + digits + rest) == if neg then -(Value(digits) as int) else Value(digits)
  {
    hide Value, DigitRun, LeadingValue, SkipSpace;
    var u := digits + rest;
    var s := (if neg then "-" else "") + digits + rest;
    assert s == if neg then "-" + u else u;
    assert neg ==> s[1..] == u;
    assert s[0] == if neg then '-' else digits[0];
    NoSkip(s);
    LeadingDigits(neg, digits, rest);
  }

  lemma {:induction false} LeadingDigits(neg: bool, digits: string, rest: string)
    requires AllDigits(digits) && (rest == "" || !IsDigit(rest[0]))
    ensures LeadingValue(neg, digits + rest) == if neg then -(Value(digits) as int) else Value(digits)
  {
    DigitRunOf(digits, rest);
  }

  /** The buffer is the shown text and then zero bytes. */
  lemma {:induction false} BufferText(shown: string)
    requires |shown| <= 4
    ensures exists rest: string :: rest != "" && !IsDigit(rest[0]) && ReadBuffer(shown) == shown + rest
  {
    var rest := seq(10 - |shown|, _ => '\0');
    assert ReadBuffer(shown) == shown + rest;
  }

  /** How many digits the four characters cut off. */
  function Lost(speed: int): nat {
    var len := |Print(speed)|;
    if len <= 4 then 0 else len - 4
  }

  /** Reading back truncates the stored speed to its first four characters, as a number. */
  lemma ReadBackTruncates(speed: int)
    ensures ReadBack(speed) == TDiv(speed, Pow10(Lost(speed)))
  {
    hide Value, Digits, Atoi;
    var neg := speed < 0;
    var digits := Digits(if neg then -speed else speed);
    var k := |digits| - Lost(speed);
    var n: int := if neg then -speed else speed;
    assert Shown(speed) == (if neg then "-" else "") + digits[..k];
    BufferText(Shown(speed));
    var rest :| rest != "" && !IsDigit(rest[0]) && ReadBuffer(Shown(speed)) == Shown(speed) + rest;
    AtoiSigned(neg, digits[..k], rest);
    DigitsPrefix(n, k);
  }

  lemma FourDigits(n: nat, k: nat)
    requires k >= 1
    ensures |Digits(n)| <= k <==> n < Pow10(k)
  {
    DigitsLength(n);
    if n < Pow10(k) {
      DigitsAtMost(n, k);
    } else {
      if |Digits(n)| <= k {
        Pow10Monotone(|Digits(n)|, k);
      }
    }
  }

  /** The stored speed survives exactly in -999..9999. */
  lemma ReadBackExact(speed: int)
    ensures ReadBack(speed) == speed <==> -999 <= speed <= 9999
  {
    hide ReadBack, Digits, Pow10;
    ReadBackTruncates(speed);
    var n: int := if speed < 0 then -speed else speed;
    Tens();
    FourDigits(n, 3);
    FourDigits(n, 4);
    if Lost(speed) > 0 {
      Pow10Monotone(1, Lost(speed));
      SmallerByTen(n, Pow10(Lost(speed)));
    }
  }

  lemma Tens()
    ensures Pow10(0) == 1 && Pow10(1) == 10 && Pow10(3) == 1000 && Pow10(4) == 10_000 && Pow10(5) == 100_000
  {
  }

  lemma SmallerByTen(n: int, p: int)
    requires n > 0 && p >= 10
    ensures n / p < n
  {
    if n / p >= n {
      MulMonotone(n, n / p, p);
      MulMonotone(10, p, n);
    }
  }

  /** Of every speed an ioctl can set, only the maximum reads back wrong: as a tenth of itself. */
  lemma SetThenRead(args: int)
    ensures var speed := CalibrateMs(AsLong(args));
            ReadBack(speed) == if speed == 10_000 then 1000 else speed
    ensures 0 <= args < 0x1_0000_0000_0000_0000 ==>
              ReadBack(CalibrateMs(AsLong(args)))
              == if args == 10_000 then 1000 else if 1 <= args < 10_000 then args else 500
  {
    SpeedSet(args);
    var speed := CalibrateMs(AsLong(args));
    ReadBackExact(speed);
    if speed == SPEED_MAX {
      ReadBackTruncates(speed);
      Tens();
      FourDigits(speed, 4);
      FourDigits(speed, 5);
    }
  }
}
