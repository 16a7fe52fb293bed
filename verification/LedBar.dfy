/** The shifting LED register `cur_led` and the eight outputs it drives. */
module LedBar {
  import opened CInt
  import opened SwitchTable

  const OUTPUTS := 8

  /** `cur_led` after an action; additions and shifts happen in a 32-bit signed int. */
  function ActLed(a: Action, led: int): int {
    match a
    case Nop => led
    case Stamp => led
    case LedOnStraight => S32(S32(led * 2) + 1)
    case LedOnLeft4 => 0x0F
    case LedOnReverse => led / 2
    case LedOnLeft6 => 0x3F
    case LedOnAll => 0xFF
    case LedOffAll => 0x00
  }

  function ActLeds(log: seq<Action>, led: int): int {
    if log == [] then led else ActLed(log[|log| - 1], ActLeds(log[..|log| - 1], led))
  }

  lemma {:induction false} LoggedLed(log: seq<Action>, a: Action)
    ensures ActLeds(Logged(log, a), 0) == ActLed(a, ActLeds(log, 0))
  {
    hide S32;
    if IsLed(a) {
      assert (log + [a])[..|log|] == log;
    }
  }

  /** Bit `i` of the unsigned char that set_bit_led receives. */
  predicate LedBit(led: int, i: nat) { led % 256 / Pow2(i) % 2 == 1 }

  function LedBits(led: int): seq<bool> { seq(OUTPUTS, i requires 0 <= i => LedBit(led, i)) }

  /** The outputs of a bar lit from the left. */
  function LeftPrefix(h: nat): seq<bool> { seq(OUTPUTS, i => i < h) }

  /** A bar of the `h` lowest bits; a bar of all 32 bits is -1. */
  function BarValue(h: nat): int { if h >= 32 then -1 else Pow2(h) - 1 }

  /** The same actions on a thermometer of height 0..32; a full thermometer no longer shrinks. */
  function NextHeight(a: Action, h: nat): (r: nat)
    ensures h <= 32 ==> r <= 32
  {
    match a
    case Nop => h
    case Stamp => h
    case LedOnStraight => if h >= 32 then 32 else h + 1
    case LedOnLeft4 => 4
    case LedOnReverse => if h == 0 then 0 else if h >= 32 then 32 else h - 1
    case LedOnLeft6 => 6
    case LedOnAll => 8
    case LedOffAll => 0
  }

  function Height(log: seq<Action>, h: nat): nat {
    if log == [] then h else NextHeight(log[|log| - 1], Height(log[..|log| - 1], h))
  }

  lemma {:induction false} Pow2Monotone(m: nat, n: nat)
    requires m <= n
    ensures Pow2(m) <= Pow2(n)
  {
    if m < n {
      Pow2Monotone(m, n - 1);
    }
  }

  lemma Pow2Literals()
    ensures Pow2(4) == 16 && Pow2(6) == 64 && Pow2(8) == 256 && Pow2(31) == 0x8000_0000
  {
    assert Pow2(8) == 256;
    assert Pow2(16) == 65536;
    assert Pow2(24) == 0x100_0000;
  }

  lemma StraightFits(x: int)
    requires 1 <= x && 2 * x <= 0x8000_0000
    ensures S32(S32((x - 1) * 2) + 1) == 2 * x - 1
  {
  }

  /** One action on the register is one action on the thermometer. */
  lemma ActIsHeight(a: Action, h: nat)
    requires h <= 32
    ensures ActLed(a, BarValue(h)) == BarValue(NextHeight(a, h))
  {
    Pow2Literals();
    if a == LedOnStraight && h < 31 {
      Pow2Monotone(h + 1, 31);
      StraightFits(Pow2(h));
    }
  }

  /** Bits of a bar by repeated halving. */
  lemma {:induction false} BarBit(h: nat, i: nat)
    ensures (Pow2(h) - 1) / Pow2(i) % 2 == 1 <==> i < h
  {
    if i == 0 {
      assert (Pow2(h) - 1) / 1 == Pow2(h) - 1;
    } else {
      DivTwice(Pow2(h) - 1, Pow2(i - 1));
      if h == 0 {
        BarBit(0, i - 1);
        assert (Pow2(0) - 1) / 2 == 0;
      } else {
        assert (Pow2(h) - 1) / 2 == Pow2(h - 1) - 1;
        BarBit(h - 1, i - 1);
      }
    }
  }

  /** A bar longer than eight bits truncates to eight set bits. */
  lemma {:induction false} BarByte(h: nat)
    requires h <= 32
    ensures BarValue(h) % 256 == Pow2(if h < 8 then h else 8) - 1
  {
    Pow2Literals();
    if h <= 8 {
      Pow2Monotone(h, 8);
    } else if h < 32 {
      BarByte(h - 1);
      assert BarValue(h) == 2 * BarValue(h - 1) + 1;
      hide BarValue, Pow2;
      DoubleByte(BarValue(h - 1));
    }
  }

  lemma DoubleByte(x: int)
    requires x % 256 == 255
    ensures (2 * x + 1) % 256 == 255
  {
  }

  /** The outputs of a bar of height `h` are a left prefix of length min(h, 8). */
  lemma BarOutputs(h: nat)
    requires h <= 32
    ensures LedBits(BarValue(h)) == LeftPrefix(h)
    ensures |LedBits(BarValue(h))| == 8 && forall i :: 0 <= i < 8 ==> LedBits(BarValue(h))[i] == (i < h)
  {
    BarByte(h);
    forall i: nat | i < OUTPUTS ensures LedBit(BarValue(h), i) == (i < h) {
      BarBit(if h < 8 then h else 8, i);
    }
  }

  /** Thermometer invariant: after any actions from a dark bar, the register is 2^h - 1 with h <= 31 or -1,
      the outputs are a left prefix, and the height follows the thermometer. */
  lemma {:induction false} Thermometer(log: seq<Action>)
    ensures var h := Height(log, 0);
            && h <= 32
            && ActLeds(log, 0) == BarValue(h)
            && LedBits(ActLeds(log, 0)) == LeftPrefix(h)
  {
    if log != [] {
      Thermometer(log[..|log| - 1]);
      ActIsHeight(log[|log| - 1], Height(log[..|log| - 1], 0));
    }
    BarOutputs(Height(log, 0));
  }

  /** -1 is absorbing: shifts never leave it. */
  lemma {:induction false} AllOnesAbsorbs(log: seq<Action>)
    requires forall k :: 0 <= k < |log| ==> log[k] in {Nop, Stamp, LedOnStraight, LedOnReverse}
    ensures ActLeds(log, -1) == -1
  {
    if log != [] {
      AllOnesAbsorbs(log[..|log| - 1]);
    }
  }

  /** A double short press takes back a short press, except on the one register value 2^31 - 1. */
  lemma {:induction false} ReverseUndoesStraight(log: seq<Action>)
    ensures ActLeds(log + [LedOnStraight] + [LedOnReverse], 0) == ActLeds(log, 0)
       <==> ActLeds(log, 0) != 0x7FFF_FFFF
  {
    var h := Height(log, 0);
    Thermometer(log);
    var log1 := log + [LedOnStraight];
    assert log1[..|log|] == log && (log1 + [LedOnReverse])[..|log1|] == log1;
    ActIsHeight(LedOnStraight, h);
    ActIsHeight(LedOnReverse, NextHeight(LedOnStraight, h));
    Pow2Literals();
    if h < 31 {
      Pow2Monotone(h + 1, 31);
    }
  }
}
