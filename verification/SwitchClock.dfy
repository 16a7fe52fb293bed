/** What the switch thread owes to its clock: wrap-around, sampling gaps and a time budget. */
module SwitchClock {
  import opened CInt
  import opened SwitchTable
  import opened LedBar
  import opened TimedSwitch

  function Ideal(cfg: Config): Config { cfg.(counter := Unbounded) }

  predicate Timed(s: State) { Waiting(s) || Pressing(s) }

  /** After a sample taken at guard time `g`, `pre` is recent whenever the state looks at it. */
  predicate Recent(cfg: Config, m: Machine, smp: Sample) {
    Timed(m.state) ==>
      && m.pre <= smp.actAt
      && (smp.guardAt - m.pre) * cfg.tickMs < 1000
      && (cfg.guard.AsCoded? && Waiting(m.state) ==> smp.guardAt <= m.pre)
  }

  lemma Spread(a: int, b: int, c: int, k: int)
    ensures (c - a) * k == (c - b) * k + (b - a) * k
  {
  }

  lemma NonPositive(d: int, k: int)
    requires d <= 0 && k > 0
    ensures d * k <= 0
  {
  }

  /** With gaps below 500 ms the next guard reading is less than 1500 ms after `pre`. */
  lemma NextElapsed(cfg: Config, m: Machine, smp: Sample, next: Sample)
    requires Supported(cfg) && Recent(cfg, m, smp) && Timed(m.state)
    requires smp.actAt <= next.guardAt && (next.guardAt - smp.guardAt) * cfg.tickMs < 500
    ensures m.pre <= next.guardAt && 0 <= (next.guardAt - m.pre) * cfg.tickMs < 1500
    ensures cfg.guard.AsCoded? && Waiting(m.state) ==> (next.guardAt - m.pre) * cfg.tickMs < 500
  {
    Spread(m.pre, smp.guardAt, next.guardAt, cfg.tickMs);
    NonPositive(m.pre - next.guardAt, cfg.tickMs);
    if smp.guardAt <= m.pre {
      NonPositive(smp.guardAt - m.pre, cfg.tickMs);
    }
  }

  lemma StepRecent(cfg: Config, m: Machine, smp: Sample, next: Sample)
    requires Supported(cfg) && cfg.counter.Unbounded? && Recent(cfg, m, smp)
    requires smp.actAt <= next.guardAt <= next.actAt && (next.guardAt - smp.guardAt) * cfg.tickMs < 500
    ensures Recent(cfg, Step(cfg, m, next), next)
  {
    NonPositive(next.guardAt - next.actAt, cfg.tickMs);
    if Timed(m.state) {
      NextElapsed(cfg, m, smp, next);
    }
  }

  lemma {:induction false} RunRecent(cfg: Config, w: seq<Sample>)
    requires Supported(cfg) && cfg.counter.Unbounded? && w != []
    requires Chronological(w) && GapsBelow(cfg.tickMs, w, 500)
    ensures Recent(cfg, Run(cfg, START, w), w[|w| - 1])
  {
    var n := |w| - 1;
    if n == 0 {
      NonPositive(w[0].guardAt - w[0].actAt, cfg.tickMs);
      assert Run(cfg, START, w[..0]) == START;
    } else {
      RunRecent(cfg, w[..n]);
      StepRecent(cfg, Run(cfg, START, w[..n]), w[n - 1], w[n]);
    }
  }

  lemma ModDifference(a: nat, b: nat, modulus: nat)
    requires b <= a < b + modulus
    ensures (a % modulus - b % modulus) % modulus == a - b
  {
    var x, y := a % modulus - b % modulus, a / modulus - b / modulus;
    assert a == modulus * (a / modulus) + a % modulus && b == modulus * (b / modulus) + b % modulus;
    assert a - b == modulus * y + x by { Distribute(modulus, a / modulus, b / modulus); }
    DivUnique(x, modulus, -y, a - b);
  }

  lemma Distribute(m: int, x: int, y: int)
    ensures m * (x - y) == m * x - m * y
  {
  }

  /** Two machines that differ only in how their counters wrap. */
  predicate Same(cfg: Config, wrapped: Machine, ideal: Machine)
    requires Supported(cfg)
  {
    && wrapped.state == ideal.state && wrapped.led == ideal.led && wrapped.log == ideal.log
    && (Timed(ideal.state) ==> wrapped.pre == Jiffies(cfg, ideal.pre))
  }

  lemma SameElapsed(cfg: Config, now: nat, pre: nat)
    requires Supported(cfg) && pre <= now && (now - pre) * cfg.tickMs < TWO_32
    ensures ElapsedMs(cfg, Jiffies(cfg, now), Jiffies(cfg, pre)) == (now - pre) * cfg.tickMs
  {
    var d, k := now - pre, cfg.tickMs;
    MulMonotone(1, k, d);
    assert d <= d * k;
    if cfg.counter.Word? {
      ModDifference(now, pre, cfg.counter.modulus);
      assert 0 <= d * k < TWO_32;
    }
  }

  lemma StepSame(cfg: Config, wrapped: Machine, ideal: Machine, smp: Sample)
    requires Supported(cfg) && Same(cfg, wrapped, ideal)
    requires Timed(ideal.state) ==> ideal.pre <= smp.guardAt && (smp.guardAt - ideal.pre) * cfg.tickMs < TWO_32
    ensures Same(cfg, Step(cfg, wrapped, smp), Step(Ideal(cfg), ideal, smp))
    ensures Classify(cfg, wrapped, smp) == Classify(Ideal(cfg), ideal, smp)
  {
    if Timed(ideal.state) {
      SameElapsed(cfg, smp.guardAt, ideal.pre);
    }
  }

  /** Where the ideal run stands just before its last sample. */
  lemma {:induction false} LastIsNear(cfg: Config, w: seq<Sample>)
    requires Supported(cfg) && cfg.counter.Unbounded? && w != []
    requires Chronological(w) && GapsBelow(cfg.tickMs, w, 500)
    ensures var m, now := Run(cfg, START, w[..|w| - 1]), w[|w| - 1].guardAt;
            Timed(m.state) ==>
              && m.pre <= now && 0 <= (now - m.pre) * cfg.tickMs < 1500
              && (cfg.guard.AsCoded? && Waiting(m.state) ==> (now - m.pre) * cfg.tickMs < 500)
  {
    hide Step;
    var n := |w| - 1;
    if n == 0 {
      assert Run(cfg, START, w[..0]) == START;
    } else {
      var v := w[..n];
      RunRecent(cfg, v);
      assert v[n - 1] == w[n - 1];
      assert w[n - 1].actAt <= w[n].guardAt && (w[n].guardAt - w[n - 1].guardAt) * cfg.tickMs < 500;
      hide Run, Chronological, GapsBelow, Recent;
      if Timed(Run(cfg, START, v).state) {
        NextElapsed(cfg, Run(cfg, START, v), w[n - 1], w[n]);
      }
    }
  }

  /** With sampling gaps below 500 ms the wrapping counter and an ideal clock give the same run,
      however often the counter wraps. */
  lemma {:induction false} WrappedClockIsIdeal(cfg: Config, w: seq<Sample>)
    requires Supported(cfg) && Chronological(w) && GapsBelow(cfg.tickMs, w, 500)
    ensures Same(cfg, Run(cfg, START, w), Run(Ideal(cfg), START, w))
  {
    hide Step;
    if w != [] {
      var n := |w| - 1;
      WrappedClockIsIdeal(cfg, w[..n]);
      LastIsNear(Ideal(cfg), w);
      StepSame(cfg, Run(cfg, START, w[..n]), Run(Ideal(cfg), START, w[..n]), w[n]);
    }
  }

  /* ---- the gap of 500 ms is exact ---- */

  /** A press, a release and then OFF samples every `e` ticks. */
  function Drowsy(e: nat, n: nat): seq<Sample> {
    [Sample(true, 0, 0, false), Sample(false, 0, 0, false)] + Offs(e, n)
  }

  function Offs(e: nat, n: nat): seq<Sample> {
    seq(n, i requires i >= 0 => Sample(false, e * (i + 1), e * (i + 1), false))
  }

  /** The same up to 2^32 ticks, with the last sample exactly there. */
  function FullRound(e: nat): seq<Sample>
    requires e > 0
  {
    Drowsy(e, TWO_32 / e) + [Sample(false, TWO_32, TWO_32, false)]
  }

  const WAITING := Machine(Short, 0, 0, [])

  lemma PressedOnce(cfg: Config, e: nat)
    requires Supported(cfg)
    ensures Run(cfg, START, Drowsy(e, 0)) == WAITING
  {
    hide Step;
    var on, off := Sample(true, 0, 0, false), Sample(false, 0, 0, false);
    assert Drowsy(e, 0) == [] + [on] + [off];
    RunSnoc(cfg, START, [], on);
    RunSnoc(cfg, START, [] + [on], off);
    StepInit(cfg, START, on);
    StepLit(cfg, Machine(Lit, 0, 0, []), off);
  }

  lemma DrowsySnoc(e: nat, n: nat)
    requires n > 0
    ensures Drowsy(e, n) == Drowsy(e, n - 1) + [Sample(false, e * n, e * n, false)]
  {
  }

  /** The ideal clock never sees SHORT younger than 500 ms. */
  lemma {:induction false} IdealWaits(cfg: Config, e: nat, n: nat)
    requires Supported(cfg) && cfg.counter.Unbounded? && cfg.guard.AsCoded? && e * cfg.tickMs >= 500
    ensures Run(cfg, START, Drowsy(e, n)) == WAITING
  {
    hide Step, Drowsy;
    if n == 0 {
      PressedOnce(cfg, e);
    } else {
      var smp := Sample(false, e * n, e * n, false);
      IdealWaits(cfg, e, n - 1);
      DrowsySnoc(e, n);
      RunSnoc(cfg, START, Drowsy(e, n - 1), smp);
      IdealStays(cfg, smp, e, n);
    }
  }

  lemma IdealStays(cfg: Config, smp: Sample, e: nat, n: nat)
    requires Supported(cfg) && cfg.counter.Unbounded? && cfg.guard.AsCoded? && e * cfg.tickMs >= 500
    requires !smp.level && smp.guardAt >= e
    ensures Step(cfg, WAITING, smp) == WAITING
  {
    MulMonotone(e, smp.guardAt, cfg.tickMs);
    StepWaiting(cfg, WAITING, smp);
  }

  /** An action once logged stays logged. */
  lemma StepKeepsLog(cfg: Config, m: Machine, smp: Sample)
    requires Supported(cfg) && m.log != []
    ensures Step(cfg, m, smp).log != []
  {
    hide Classify, ActLed, Transition;
  }

  /** Any OFF sample leaves a waiting machine waiting or logs an action. */
  lemma StepFromWaiting(cfg: Config, smp: Sample)
    requires Supported(cfg) && cfg.guard.AsCoded? && !smp.level
    ensures var m := Step(cfg, WAITING, smp);
            m == WAITING || m.log != []
  {
    StepWaiting(cfg, WAITING, smp);
  }

  lemma {:induction false} WrappedWaitsOrActs(cfg: Config, e: nat, n: nat)
    requires Supported(cfg) && cfg.guard.AsCoded?
    ensures var m := Run(cfg, START, Drowsy(e, n)); m == WAITING || m.log != []
  {
    hide Step, Drowsy;
    if n == 0 {
      PressedOnce(cfg, e);
    } else {
      var smp := Sample(false, e * n, e * n, false);
      WrappedWaitsOrActs(cfg, e, n - 1);
      DrowsySnoc(e, n);
      RunSnoc(cfg, START, Drowsy(e, n - 1), smp);
      StepFromWaiting(cfg, smp);
      if Run(cfg, START, Drowsy(e, n - 1)).log != [] {
        StepKeepsLog(cfg, Run(cfg, START, Drowsy(e, n - 1)), smp);
      }
    }
  }

  /** 2^32 ticks after the release, a 32-bit counter, or the 32-bit count of milliseconds, reads 0 elapsed. */
  lemma RoundReadsZero(cfg: Config, smp: Sample)
    requires Supported(cfg) && cfg.counter.Word? && cfg.guard.AsCoded? && smp.guardAt == TWO_32
    ensures Step(cfg, WAITING, smp).log == [LedOnStraight]
  {
    assert ElapsedMs(cfg, Jiffies(cfg, TWO_32), 0) == 0 by {
      if cfg.counter.modulus == TWO_64 {
        DivUnique(TWO_32 * cfg.tickMs, TWO_32, cfg.tickMs, 0);
      }
    }
    StepWaiting(cfg, WAITING, smp);
  }

  lemma FullRoundGap(e: nat, i: nat)
    requires e > 0 && i + 1 < |FullRound(e)|
    ensures var w := FullRound(e);
            && w[i].actAt == w[i].guardAt
            && w[i].guardAt <= w[i + 1].guardAt <= w[i].guardAt + e
  {
    var n := TWO_32 / e;
    assert TWO_32 == e * n + TWO_32 % e;
    if 2 <= i < n + 1 {
      assert e * i == e * (i - 1) + e;
    }
  }

  lemma FullRoundClock(tickMs: nat, e: nat)
    requires e > 0 && tickMs > 0
    ensures Chronological(FullRound(e)) && GapsBelow(tickMs, FullRound(e), e * tickMs + 1)
  {
    var w := FullRound(e);
    hide FullRound;
    forall i, j | 0 <= i < j < |w| && j == i + 1
      ensures w[i].actAt <= w[j].guardAt && (w[j].guardAt - w[i].guardAt) * tickMs < e * tickMs + 1
    {
      FullRoundGap(e, i);
      MulMonotone(w[j].guardAt - w[i].guardAt, e, tickMs);
    }
    forall i | 0 <= i < |w| ensures w[i].guardAt <= w[i].actAt {
      FullRoundSamples(e, i);
    }
  }

  lemma FullRoundSamples(e: nat, i: nat)
    requires e > 0 && i < |FullRound(e)|
    ensures FullRound(e)[i].guardAt == FullRound(e)[i].actAt
  {
  }

  /** Once samples may be 500 ms apart, some run tells the wrapping counter from an ideal clock. */
  lemma FullRoundParts(cfg: Config, e: nat)
    requires Supported(cfg) && cfg.counter.Word? && cfg.guard.AsCoded? && 500 <= e * cfg.tickMs < 1500
    ensures !Same(cfg, Run(cfg, START, FullRound(e)), Run(Ideal(cfg), START, FullRound(e)))
  {
    hide Step, Drowsy;
    var before, smp := Drowsy(e, TWO_32 / e), Sample(false, TWO_32, TWO_32, false);
    IdealWaits(Ideal(cfg), e, TWO_32 / e);
    RunSnoc(Ideal(cfg), START, before, smp);
    MulMonotone(1, cfg.tickMs, e);
    IdealStays(Ideal(cfg), smp, e, 1);
    WrappedWaitsOrActs(cfg, e, TWO_32 / e);
    RunSnoc(cfg, START, before, smp);
    if Run(cfg, START, before).log != [] {
      StepKeepsLog(cfg, Run(cfg, START, before), smp);
    } else {
      RoundReadsZero(cfg, smp);
    }
  }

  lemma {:induction false} GapsRelax(tickMs: nat, w: seq<Sample>, ms: nat, ms': nat)
    requires GapsBelow(tickMs, w, ms) && ms <= ms'
    ensures GapsBelow(tickMs, w, ms')
  {
  }

  /** The least number of ticks that reaches 500 ms. */
  lemma SmallestGap(tickMs: nat, d: nat, e: nat)
    requires 1 <= tickMs <= 1000 && d * tickMs >= 500 && e == (499 + tickMs) / tickMs
    ensures 500 <= e * tickMs < 1500 && e * tickMs <= d * tickMs
  {
    var x := 499 + tickMs;
    assert x == tickMs * e + x % tickMs;
    if d < e {
      MulMonotone(d, e - 1, tickMs);
      Distribute(tickMs, e, 1);
    } else {
      MulMonotone(e, d, tickMs);
    }
  }

  /** When wrap-around stays invisible under the coded guard: for samples at most `d` ticks apart, every run on the
      wrapping counter is the run on the ideal clock if and only if `d` ticks stay below 500 ms. */
  lemma WrapHiddenExactly(cfg: Config, d: nat)
    requires Supported(cfg) && cfg.counter.Word? && cfg.guard.AsCoded?
    ensures (forall w :: Chronological(w) && GapsBelow(cfg.tickMs, w, d * cfg.tickMs + 1) ==>
               Same(cfg, Run(cfg, START, w), Run(Ideal(cfg), START, w)))
       <==> d * cfg.tickMs < 500
  {
    hide Run, Chronological, GapsBelow, Same, FullRound;
    if d * cfg.tickMs < 500 {
      forall w | Chronological(w) && GapsBelow(cfg.tickMs, w, d * cfg.tickMs + 1)
        ensures Same(cfg, Run(cfg, START, w), Run(Ideal(cfg), START, w))
      {
        GapsRelax(cfg.tickMs, w, d * cfg.tickMs + 1, 500);
        WrappedClockIsIdeal(cfg, w);
      }
    } else {
      var e := (499 + cfg.tickMs) / cfg.tickMs;
      SmallestGap(cfg.tickMs, d, e);
      FullRoundClock(cfg.tickMs, e);
      GapsRelax(cfg.tickMs, FullRound(e), e * cfg.tickMs + 1, d * cfg.tickMs + 1);
      FullRoundParts(cfg, e);
    }
  }

  /* ---- the documented guard and the wrap ---- */

  /** With the documented guard no timed state outlives the first sample at or past 1000 ms, whatever the gaps. */
  lemma StepTimely(cfg: Config, m: Machine, smp: Sample)
    requires Supported(cfg) && cfg.counter.Unbounded? && cfg.guard.AsDocumented? && smp.guardAt <= smp.actAt
    requires Timed(m.state) ==> m.pre <= smp.guardAt
    ensures Recent(cfg, Step(cfg, m, smp), smp)
  {
    NonPositive(smp.guardAt - smp.actAt, cfg.tickMs);
  }

  lemma {:induction false} RunTimely(cfg: Config, w: seq<Sample>)
    requires Supported(cfg) && cfg.counter.Unbounded? && cfg.guard.AsDocumented? && Chronological(w) && w != []
    ensures Recent(cfg, Run(cfg, START, w), w[|w| - 1])
  {
    hide Step;
    var n := |w| - 1;
    if n == 0 {
      assert Run(cfg, START, w[..0]) == START;
    } else {
      RunTimely(cfg, w[..n]);
      assert w[..n][n - 1] == w[n - 1];
    }
    StepTimely(cfg, Run(cfg, START, w[..n]), w[n]);
  }

  /** The first count of ticks, past 1000 ms, at which the 32-bit count of milliseconds is small again. */
  function FirstWrap(tickMs: nat): nat
    requires tickMs > 0
  {
    (TWO_32 + tickMs - 1) / tickMs
  }

  lemma BelowFirstWrap(tickMs: nat, n: nat)
    requires 1 <= tickMs <= 1000 && n < FirstWrap(tickMs)
    ensures n * tickMs < TWO_32
  {
    var x := TWO_32 + tickMs - 1;
    assert x == tickMs * FirstWrap(tickMs) + x % tickMs;
    MulMonotone(n + 1, FirstWrap(tickMs), tickMs);
  }

  /** What was recent at one sample is, `d` ticks later, still short of the wrap. */
  lemma StillShort(cfg: Config, m: Machine, smp: Sample, next: Sample, d: nat)
    requires Supported(cfg) && Recent(cfg, m, smp) && Timed(m.state) && smp.actAt <= next.guardAt
    requires next.guardAt - smp.guardAt <= d && d + 999 / cfg.tickMs < FirstWrap(cfg.tickMs)
    ensures m.pre <= next.guardAt && (next.guardAt - m.pre) * cfg.tickMs < TWO_32
  {
    var k, a := cfg.tickMs, smp.guardAt - m.pre;
    var most: int := 999 / k;
    assert 999 == k * most + 999 % k;
    if a > most {
      MulMonotone(most + 1, a, k);
    }
    BelowFirstWrap(k, next.guardAt - m.pre);
  }

  lemma {:induction false} DocumentedIsIdeal(cfg: Config, w: seq<Sample>, d: nat)
    requires Supported(cfg) && cfg.guard.AsDocumented? && Chronological(w)
    requires GapsBelow(cfg.tickMs, w, d * cfg.tickMs + 1) && d + 999 / cfg.tickMs < FirstWrap(cfg.tickMs)
    ensures Same(cfg, Run(cfg, START, w), Run(Ideal(cfg), START, w))
  {
    hide Step, FirstWrap;
    if w != [] {
      var n := |w| - 1;
      DocumentedIsIdeal(cfg, w[..n], d);
      if n == 0 {
        assert Run(Ideal(cfg), START, w[..0]) == START;
      } else {
        RunTimely(Ideal(cfg), w[..n]);
        assert w[..n][n - 1] == w[n - 1];
        GapTicks(cfg.tickMs, w[n].guardAt - w[n - 1].guardAt, d);
        if Timed(Run(Ideal(cfg), START, w[..n]).state) {
          StillShort(Ideal(cfg), Run(Ideal(cfg), START, w[..n]), w[n - 1], w[n], d);
        }
      }
      hide GapsBelow, Chronological, Recent;
      StepSame(cfg, Run(cfg, START, w[..n]), Run(Ideal(cfg), START, w[..n]), w[n]);
    }
  }

  lemma GapTicks(tickMs: nat, gap: int, d: nat)
    requires tickMs > 0 && gap * tickMs < d * tickMs + 1
    ensures gap <= d
  {
    if gap > d {
      MulMonotone(d + 1, gap, tickMs);
    }
  }

  /** ON, ON just before 1000 ms, and ON again at the first wrap. */
  function LongHold(tickMs: nat): seq<Sample>
    requires tickMs > 0
  {
    var a, b := 999 / tickMs, FirstWrap(tickMs);
    [Sample(true, 0, 0, false), Sample(true, a, a, false), Sample(true, b, b, false)]
  }

  lemma FirstWrapRange(tickMs: nat)
    requires 1 <= tickMs <= 1000
    ensures TWO_32 <= FirstWrap(tickMs) * tickMs < TWO_32 + tickMs && FirstWrap(tickMs) <= TWO_32
    ensures 999 / tickMs * tickMs <= 999 && 999 / tickMs <= 999 && FirstWrap(tickMs) > 999
  {
    var x: int, n: int := TWO_32 + tickMs - 1, FirstWrap(tickMs);
    assert x == tickMs * n + x % tickMs;
    assert 999 == tickMs * (999 / tickMs) + 999 % tickMs;
    if n > TWO_32 {
      MulMonotone(TWO_32 + 1, n, tickMs);
      MulMonotone(1, tickMs, TWO_32);
    } else if n <= 999 {
      MulMonotone(n, 999, tickMs);
    }
  }

  /** At the first wrap a press that is far too long looks short to the wrapping counter, and long to an ideal one. */
  lemma WrapLooksShort(cfg: Config)
    requires Supported(cfg) && cfg.counter.Word?
    ensures var now := FirstWrap(cfg.tickMs);
            IsShortPush(cfg, Jiffies(cfg, now), 0, 1000) && !IsShortPush(Ideal(cfg), now, 0, 1000)
  {
    var k, n := cfg.tickMs, FirstWrap(cfg.tickMs);
    FirstWrapRange(k);
    hide FirstWrap;
    if n == TWO_32 && cfg.counter.modulus == TWO_32 {
      assert Jiffies(cfg, n) == 0;
    } else {
      assert Jiffies(cfg, n) == n;
      DivUnique(n * k, TWO_32, 1, n * k - TWO_32);
    }
  }

  lemma LongHoldClock(tickMs: nat, d: nat)
    requires 1 <= tickMs <= 1000 && d + 999 / tickMs >= FirstWrap(tickMs)
    ensures Chronological(LongHold(tickMs)) && GapsBelow(tickMs, LongHold(tickMs), d * tickMs + 1)
  {
    FirstWrapRange(tickMs);
    var a, b := 999 / tickMs, FirstWrap(tickMs);
    hide FirstWrap;
    assert a <= d by { SmallWrap(tickMs); }
    MulMonotone(a, d, tickMs);
    MulMonotone(b - a, d, tickMs);
  }

  lemma SmallWrap(tickMs: nat)
    requires 1 <= tickMs <= 1000
    ensures FirstWrap(tickMs) >= 1998
  {
    FirstWrapRange(tickMs);
    var n: int := FirstWrap(tickMs);
    if n < 1998 {
      MulMonotone(n, 1998, tickMs);
    }
  }

  lemma LongHoldParts(cfg: Config)
    requires Supported(cfg) && cfg.counter.Word?
    ensures !Same(cfg, Run(cfg, START, LongHold(cfg.tickMs)), Run(Ideal(cfg), START, LongHold(cfg.tickMs)))
  {
    var ideal := Ideal(cfg);
    HoldStays(cfg);
    HoldStays(ideal);
    WrapLooksShort(cfg);
    var before, last := LongHold(cfg.tickMs)[..2], LongHold(cfg.tickMs)[2];
    assert LongHold(cfg.tickMs) == before + [last];
    hide Step, IsShortPush, FirstWrap;
    RunSnoc(cfg, START, before, last);
    RunSnoc(ideal, START, before, last);
    StepLit(cfg, PRESSED, last);
    StepLit(ideal, PRESSED, last);
  }

  const PRESSED := Machine(Lit, 0, 0, [])

  lemma HoldStays(cfg: Config)
    requires Supported(cfg)
    ensures Run(cfg, START, LongHold(cfg.tickMs)[..2]) == PRESSED
  {
    var a := 999 / cfg.tickMs;
    var first, second := Sample(true, 0, 0, false), Sample(true, a, a, false);
    FirstWrapRange(cfg.tickMs);
    assert LongHold(cfg.tickMs)[..2] == [] + [first] + [second];
    assert IsShortPush(cfg, Jiffies(cfg, a), 0, 1000);
    hide Step, IsShortPush;
    RunSnoc(cfg, START, [], first);
    RunSnoc(cfg, START, [] + [first], second);
    StepInit(cfg, START, first);
    StepLit(cfg, PRESSED, second);
  }

  /** The same question for the documented guard: wrap-around stays invisible for samples at most `d` ticks apart if
      and only if even a state still short of 1000 ms cannot, `d` ticks later, have reached 2^32 ms. */
  lemma DocumentedWrapHiddenExactly(cfg: Config, d: nat)
    requires Supported(cfg) && cfg.counter.Word? && cfg.guard.AsDocumented?
    ensures (forall w :: Chronological(w) && GapsBelow(cfg.tickMs, w, d * cfg.tickMs + 1) ==>
               Same(cfg, Run(cfg, START, w), Run(Ideal(cfg), START, w)))
       <==> d + 999 / cfg.tickMs < FirstWrap(cfg.tickMs)
  {
    hide Run, Chronological, GapsBelow, Same, LongHold, FirstWrap;
    if d + 999 / cfg.tickMs < FirstWrap(cfg.tickMs) {
      forall w | Chronological(w) && GapsBelow(cfg.tickMs, w, d * cfg.tickMs + 1)
        ensures Same(cfg, Run(cfg, START, w), Run(Ideal(cfg), START, w))
      {
        DocumentedIsIdeal(cfg, w, d);
      }
    } else {
      LongHoldClock(cfg.tickMs, d);
      LongHoldParts(cfg);
    }
  }

  /* ---- two-press gestures ---- */

  predicate OnePress(s: State) { s == Init || s == Lit || s == Short || s == Long }

  predicate OnePressLog(log: seq<Action>) {
    forall k :: 0 <= k < |log| ==> log[k] == LedOnStraight || log[k] == LedOnLeft4
  }

  lemma {:induction false} IdealNeverPairs(cfg: Config, w: seq<Sample>)
    requires Supported(cfg) && cfg.counter.Unbounded? && cfg.guard.AsCoded?
    requires Chronological(w) && GapsBelow(cfg.tickMs, w, 500)
    ensures var m := Run(cfg, START, w); OnePress(m.state) && OnePressLog(m.log)
  {
    if w != [] {
      IdealNeverPairs(cfg, w[..|w| - 1]);
      LastIsNear(cfg, w);
    }
  }

  /** As coded, with gaps below 500 ms no run ever starts a two-press gesture:
      SHORT and LONG time out at the first sample after they are entered. */
  lemma {:induction false} CodedGuardNeverPairs(cfg: Config, w: seq<Sample>)
    requires Supported(cfg) && cfg.guard.AsCoded? && Chronological(w) && GapsBelow(cfg.tickMs, w, 500)
    ensures var m := Run(cfg, START, w); OnePress(m.state) && OnePressLog(m.log)
  {
    WrappedClockIsIdeal(cfg, w);
    IdealNeverPairs(Ideal(cfg), w);
  }

  function TwoPresses(d: nat): seq<Sample> {
    [Sample(true, 0, 0, false), Sample(false, 0, 0, false), Sample(true, d, d, false), Sample(false, d, d, false)]
  }

  lemma TwoPressesClock(tickMs: nat, d: nat)
    ensures Chronological(TwoPresses(d)) && GapsBelow(tickMs, TwoPresses(d), d * tickMs + 1)
  {
  }

  /** A gap of 500 ms is enough for one: press, release, then nothing sampled for `d` ticks, press, release. */
  lemma CodedGuardPairsAcrossGap(cfg: Config, d: nat)
    requires Supported(cfg) && cfg.guard.AsCoded? && 500 <= d * cfg.tickMs < TWO_32
    ensures Run(cfg, START, TwoPresses(d)).log == [LedOnReverse]
  {
    var on, off := Sample(true, d, d, false), Sample(false, d, d, false);
    var before, pair := Drowsy(d, 0), Machine(ShortShort, d, 0, []);
    assert d <= d * cfg.tickMs by { MulMonotone(1, cfg.tickMs, d); }
    assert Jiffies(cfg, d) == d;
    hide Step, Run, Jiffies;
    PressedOnce(cfg, d);
    assert TwoPresses(d) == before + [on] + [off];
    RunSnoc(cfg, START, before, on);
    RunSnoc(cfg, START, before + [on], off);
    StepWaiting(cfg, WAITING, on);
    StepSecondPress(cfg, pair, off);
    assert !IsShortPush(cfg, d, 0, 500) && IsShortPush(cfg, d, d, 1000);
  }

  /** Exactly when the coded guard can recognise a two-press gesture: for samples at most `d` ticks apart,
      some run logs one if and only if `d` ticks reach 500 ms. */
  lemma TwoPressExactly(cfg: Config, d: nat)
    requires Supported(cfg) && cfg.guard.AsCoded?
    ensures (exists w :: Chronological(w) && GapsBelow(cfg.tickMs, w, d * cfg.tickMs + 1)
                         && !OnePressLog(Run(cfg, START, w).log))
       <==> d * cfg.tickMs >= 500
  {
    hide Run, Chronological, GapsBelow;
    if d * cfg.tickMs >= 500 {
      var e := (499 + cfg.tickMs) / cfg.tickMs;
      SmallestGap(cfg.tickMs, d, e);
      CodedGuardPairsAcrossGap(cfg, e);
      TwoPressesClock(cfg.tickMs, e);
      GapsRelax(cfg.tickMs, TwoPresses(e), e * cfg.tickMs + 1, d * cfg.tickMs + 1);
      assert !OnePressLog([LedOnReverse]) by { assert [LedOnReverse][0] == LedOnReverse; }
    } else {
      forall w | Chronological(w) && GapsBelow(cfg.tickMs, w, d * cfg.tickMs + 1)
        ensures OnePressLog(Run(cfg, START, w).log)
      {
        GapsRelax(cfg.tickMs, w, d * cfg.tickMs + 1, 500);
        CodedGuardNeverPairs(cfg, w);
      }
    }
  }

  /* ---- time budget ---- */

  /** The press time an action stands for, in milliseconds. */
  function Credit(a: Action): nat {
    match a
    case LedOnLeft4 => 1000
    case LedOnAll => 1000
    case LedOnLeft6 => 1000
    case LedOffAll => 2000
    case _ => 0
  }

  function Credits(log: seq<Action>): nat {
    if log == [] then 0 else Credits(log[..|log| - 1]) + Credit(log[|log| - 1])
  }

  /** Press time earned by the unfinished gesture. */
  function Banked(s: State): nat {
    match s
    case Long => 1000
    case LongShort => 1000
    case ShortLong => 1000
    case LongLong => 2000
    case _ => 0
  }

  /** All credit lies between `t0` and the entry time of the current timed state. */
  predicate Solvent(cfg: Config, m: Machine, t0: nat, smp: Sample) {
    && Credits(m.log) + Banked(m.state) <= ((if Timed(m.state) then m.pre else smp.guardAt) - t0) * cfg.tickMs
    && (Timed(m.state) ==> m.pre <= smp.actAt)
  }

  lemma {:induction false} LoggedCredits(log: seq<Action>, a: Action)
    ensures Credits(Logged(log, a)) == Credits(log) + Credit(a)
  {
    if IsLed(a) {
      assert (log + [a])[..|log|] == log;
    }
  }

  /** A table step banks or pays at most the 1000 ms that a timeout of a press state proves. */
  lemma EntryCredit(s: State, i: Input)
    ensures var e := Transition(s, i);
            Credit(e.action) + Banked(e.next) <= Banked(s) + if Pressing(s) && i == Timeout then 1000 else 0
    ensures var e := Transition(s, i); Timed(e.next) && e.action != Stamp ==>
              e.next == s && !(Pressing(s) && i == Timeout)
  {
  }

  lemma TimeoutIsLate(cfg: Config, m: Machine, smp: Sample)
    requires Supported(cfg) && cfg.counter.Unbounded? && Pressing(m.state) && Classify(cfg, m, smp) == Timeout
    ensures (smp.guardAt - m.pre) * cfg.tickMs >= 1000
  {
  }

  lemma StepSolvent(cfg: Config, m: Machine, t0: nat, smp: Sample, next: Sample)
    requires Supported(cfg) && cfg.counter.Unbounded? && Solvent(cfg, m, t0, smp)
    requires smp.guardAt <= smp.actAt <= next.guardAt <= next.actAt
    ensures Solvent(cfg, Step(cfg, m, next), t0, next)
  {
    hide Transition, Classify, Credits, Credit, Banked, ActLed;
    var k, i := cfg.tickMs, Classify(cfg, m, next);
    var e := Transition(m.state, i);
    EntryCredit(m.state, i);
    LoggedCredits(m.log, e.action);
    var from := if Timed(m.state) then m.pre else smp.guardAt;
    MulMonotone(from - t0, next.guardAt - t0, k);
    MulMonotone(next.guardAt - t0, next.actAt - t0, k);
    Spread(t0, from, next.guardAt, k);
    if Pressing(m.state) && i == Timeout {
      TimeoutIsLate(cfg, m, next);
    }
  }

  lemma FirstSolvent(cfg: Config, smp: Sample)
    requires Supported(cfg) && cfg.counter.Unbounded? && smp.guardAt <= smp.actAt
    ensures Solvent(cfg, Step(cfg, START, smp), smp.guardAt, smp)
  {
    StepInit(cfg, START, smp);
    MulMonotone(0, smp.actAt - smp.guardAt, cfg.tickMs);
  }

  lemma SolventBound(cfg: Config, m: Machine, t0: nat, smp: Sample)
    requires Supported(cfg) && Solvent(cfg, m, t0, smp) && smp.guardAt <= smp.actAt
    ensures Credits(m.log) <= (smp.actAt - t0) * cfg.tickMs
  {
    MulMonotone((if Timed(m.state) then m.pre else smp.guardAt) - t0, smp.actAt - t0, cfg.tickMs);
  }

  /** Time potential: whatever the guard and however irregular the clock, the LED actions never claim more
      press time than has elapsed. */
  lemma {:induction false} TimePotential(cfg: Config, w: seq<Sample>)
    requires Supported(cfg) && cfg.counter.Unbounded? && Chronological(w) && w != []
    ensures Solvent(cfg, Run(cfg, START, w), w[0].guardAt, w[|w| - 1])
    ensures Credits(Run(cfg, START, w).log) <= (w[|w| - 1].actAt - w[0].guardAt) * cfg.tickMs
  {
    hide Step, Solvent, Credits;
    var n, t0 := |w| - 1, w[0].guardAt;
    if n == 0 {
      assert Run(cfg, START, w[..0]) == START;
      FirstSolvent(cfg, w[0]);
    } else {
      TimePotential(cfg, w[..n]);
      StepSolvent(cfg, Run(cfg, START, w[..n]), t0, w[n - 1], w[n]);
    }
    SolventBound(cfg, Run(cfg, START, w), t0, w[n]);
  }

  /** The same budget for the wrapping counter, under the sampling gap that keeps it ideal. */
  lemma {:induction false} WrappedTimePotential(cfg: Config, w: seq<Sample>)
    requires Supported(cfg) && Chronological(w) && GapsBelow(cfg.tickMs, w, 500) && w != []
    ensures Credits(Run(cfg, START, w).log) <= (w[|w| - 1].actAt - w[0].guardAt) * cfg.tickMs
  {
    WrappedClockIsIdeal(cfg, w);
    TimePotential(Ideal(cfg), w);
  }
}
