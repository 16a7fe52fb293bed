/** What the switch makes of held and repeated presses sampled at a fixed period. */
module HoldDecoding {
  import opened CInt
  import opened SwitchTable
  import opened TimedSwitch
  import opened SwitchClock

  /** Levels sampled every `p` ticks from time `t0`, with one clock reading per iteration. */
  function Sampled(levels: seq<bool>, t0: nat, p: nat): seq<Sample> {
    seq(|levels|, i requires 0 <= i < |levels| => Tick(levels[i], t0 + i * p))
  }

  function Tick(level: bool, now: nat): Sample { Sample(level, now, now, false) }

  function Level(b: bool, n: nat): seq<bool> { seq(n, _ => b) }

  /** The number of periods that reach `ms` milliseconds. */
  function Periods(cfg: Config, p: nat, ms: nat): nat
    requires cfg.tickMs > 0 && p > 0
  {
    (ms + p * cfg.tickMs - 1) / (p * cfg.tickMs)
  }

  ghost predicate Period(cfg: Config, p: nat) { Supported(cfg) && p > 0 && p * cfg.tickMs < 500 }

  lemma PeriodsExact(cfg: Config, p: nat, ms: nat, n: nat)
    requires cfg.tickMs > 0 && p > 0
    ensures n >= Periods(cfg, p, ms) <==> n * p * cfg.tickMs >= ms
  {
    var q := p * cfg.tickMs;
    var c := Periods(cfg, p, ms);
    assert n * p * cfg.tickMs == n * q;
    var x := ms + q - 1;
    assert x == q * c + x % q && 0 <= x % q < q;
    if n >= c {
      MulMonotone(c, n, q);
    } else {
      MulMonotone(n, c - 1, q);
      Distribute(q, c, 1);
    }
  }

  /** Sampled levels on either side of a cut. */
  lemma {:induction false} SampledConcat(a: seq<bool>, b: seq<bool>, t0: nat, p: nat)
    ensures Sampled(a + b, t0, p) == Sampled(a, t0, p) + Sampled(b, t0 + |a| * p, p)
  {
    forall i | 0 <= i < |b|
      ensures t0 + |a| * p + i * p == t0 + (|a| + i) * p
    {
    }
  }

  lemma {:induction false} SampledSnoc(a: seq<bool>, level: bool, t0: nat, p: nat)
    ensures Sampled(a + [level], t0, p) == Sampled(a, t0, p) + [Tick(level, t0 + |a| * p)]
  {
  }

  lemma LevelSnoc(b: bool, n: nat)
    ensures Level(b, n + 1) == Level(b, n) + [b]
  {
  }

  lemma {:induction false} SampledClock(cfg: Config, levels: seq<bool>, t0: nat, p: nat)
    requires Period(cfg, p)
    ensures Chronological(Sampled(levels, t0, p)) && GapsBelow(cfg.tickMs, Sampled(levels, t0, p), 500)
  {
    var w := Sampled(levels, t0, p);
    forall i, j | 0 <= i < j < |w| && j == i + 1
      ensures w[j].guardAt - w[i].guardAt == p
    {
    }
  }

  /** One more sample, at `i` periods after `t0`. */
  lemma {:induction false} RunSample(cfg: Config, m: Machine, a: seq<bool>, level: bool, t0: nat, p: nat)
    requires Supported(cfg)
    ensures Run(cfg, m, Sampled(a + [level], t0, p))
         == Step(cfg, Run(cfg, m, Sampled(a, t0, p)), Tick(level, t0 + |a| * p))
  {
    SampledSnoc(a, level, t0, p);
    RunSnoc(cfg, m, Sampled(a, t0, p), Tick(level, t0 + |a| * p));
  }

  lemma RunNothing(cfg: Config, m: Machine, t0: nat, p: nat)
    requires Supported(cfg)
    ensures Run(cfg, m, Sampled(Level(true, 0), t0, p)) == m
  {
  }

  /** The clock test of an ideal machine whose `pre` lies `d` periods back. */
  lemma LateAfter(cfg: Config, m: Machine, now: nat, p: nat, d: nat, ms: nat, level: bool)
    requires Supported(cfg) && cfg.counter.Unbounded? && p > 0
    requires now == m.pre + d * p
    ensures Late(cfg, m, Tick(level, now), ms) <==> d >= Periods(cfg, p, ms)
  {
    PeriodsExact(cfg, p, ms, d);
  }

  /* ---- the guard as coded ---- */

  function Longs(n: nat): seq<Action> { seq(n, _ => LedOnLeft4) }

  /** Ticks of a hold cycle: LIT for `t` samples, LONG for one, INIT for one. */
  function Cycle(t: nat): nat { t + 2 }

  /** After `n` ON samples from ST_INIT, with the next sample due at `now`. */
  ghost predicate Holding(m0: Machine, m: Machine, now: nat, p: nat, t: nat, n: nat) {
    var q, r := n / Cycle(t), n % Cycle(t);
    && m.log == m0.log + Longs(q)
    && (r == 0 ==> m.state == Init)
    && (1 <= r <= t ==> m.state == Lit && m.pre + r * p == now)
    && (r == t + 1 ==> m.state == Long && m.pre + p == now)
  }

  lemma NextInCycle(n: nat, c: nat)
    requires c > 0
    ensures n % c == c - 1 ==> (n + 1) / c == n / c + 1 && (n + 1) % c == 0
    ensures n % c < c - 1 ==> (n + 1) / c == n / c && (n + 1) % c == n % c + 1
  {
    var q, r := n / c, n % c;
    assert n == c * q + r;
    if r == c - 1 {
      assert n + 1 == c * (q + 1);
      DivUnique(n + 1, c, q + 1, 0);
    } else {
      DivUnique(n + 1, c, q, r + 1);
    }
  }

  lemma {:induction false} LongsSnoc(log: seq<Action>, q: nat)
    ensures log + Longs(q + 1) == log + Longs(q) + [LedOnLeft4]
  {
  }

  lemma StepHolding(cfg: Config, m0: Machine, m: Machine, now: nat, p: nat, n: nat)
    requires Period(cfg, p) && cfg.counter.Unbounded? && cfg.guard.AsCoded?
    requires Holding(m0, m, now, p, Periods(cfg, p, 1000), n)
    ensures Holding(m0, Step(cfg, m, Tick(true, now)), now + p, p, Periods(cfg, p, 1000), n + 1)
  {
    hide Step, Periods, Late, Longs;
    var t, r := Periods(cfg, p, 1000), n % Cycle(Periods(cfg, p, 1000));
    NextInCycle(n, Cycle(t));
    if r == 0 {
      StepInit(cfg, m, Tick(true, now));
      assert t >= 1 by { PeriodsExact(cfg, p, 1000, 0); }
    } else if r <= t {
      StepLit(cfg, m, Tick(true, now));
      LateAfter(cfg, m, now, p, r, 1000, true);
      assert (r + 1) * p == r * p + p;
    } else {
      StepWaiting(cfg, m, Tick(true, now));
      assert !Late(cfg, m, Tick(true, now), 500) by { LateSoon(cfg, m, now, p, true); }
      LongsSnoc(m0.log, n / Cycle(t));
    }
  }

  lemma LateSoon(cfg: Config, m: Machine, now: nat, p: nat, level: bool)
    requires Period(cfg, p) && cfg.counter.Unbounded? && now == m.pre + p
    ensures !Late(cfg, m, Tick(level, now), 500)
  {
  }

  lemma HoldingStart(m0: Machine, t0: nat, p: nat, t: nat)
    requires m0.state == Init
    ensures Holding(m0, m0, t0, p, t, 0)
  {
    assert m0.log + Longs(0) == m0.log;
  }

  lemma {:induction false} RunHolding(cfg: Config, m0: Machine, t0: nat, p: nat, n: nat)
    requires Period(cfg, p) && cfg.counter.Unbounded? && cfg.guard.AsCoded? && m0.state == Init
    ensures Holding(m0, Run(cfg, m0, Sampled(Level(true, n), t0, p)), t0 + n * p, p, Periods(cfg, p, 1000), n)
  {
    hide Step, Periods, Run, Holding, Sampled;
    if n == 0 {
      RunNothing(cfg, m0, t0, p);
      HoldingStart(m0, t0, p, Periods(cfg, p, 1000));
    } else {
      RunHolding(cfg, m0, t0, p, n - 1);
      LevelSnoc(true, n - 1);
      RunSample(cfg, m0, Level(true, n - 1), true, t0, p);
      StepHolding(cfg, m0, Run(cfg, m0, Sampled(Level(true, n - 1), t0, p)), t0 + (n - 1) * p, p, n - 1);
      assert t0 + (n - 1) * p + p == t0 + n * p;
    }
  }

  /** A hold of `n` samples, where `t` samples reach 1000 ms: repeated long presses, then at most one short. */
  function DecodedHold(t: nat, n: nat): seq<Action> {
    var longs := (n + 2) / Cycle(t);
    Longs(longs) + if n > Cycle(t) * longs then [LedOnStraight] else []
  }

  lemma HoldShares(t: nat, n: nat)
    requires t >= 1
    ensures var q, r := n / Cycle(t), n % Cycle(t);
            && (n + 2) / Cycle(t) == (if r >= t then q + 1 else q)
            && (n > Cycle(t) * ((n + 2) / Cycle(t)) <==> 1 <= r < t)
  {
    var c := Cycle(t);
    var q, r := n / c, n % c;
    assert n == c * q + r;
    if r >= t {
      Distribute(c, q + 1, q);
      DivUnique(n + 2, c, q + 1, r + 2 - c);
    } else {
      DivUnique(n + 2, c, q, r + 2);
    }
  }

  /** Two OFF samples in LIT: long if the press reached `t` periods by the first of them, short otherwise. */
  lemma ReleaseLit(cfg: Config, m: Machine, now: nat, p: nat, r: nat)
    requires Period(cfg, p) && cfg.counter.Unbounded? && cfg.guard.AsCoded?
    requires m.state == Lit && m.pre + r * p == now
    ensures var settled := Step(cfg, Step(cfg, m, Tick(false, now)), Tick(false, now + p));
            && settled.state == Init
            && settled.log == m.log + [if r >= Periods(cfg, p, 1000) then LedOnLeft4 else LedOnStraight]
  {
    hide Step, Periods, Late;
    var m1 := Step(cfg, m, Tick(false, now));
    StepLit(cfg, m, Tick(false, now));
    LateAfter(cfg, m, now, p, r, 1000, false);
    StepWaiting(cfg, m1, Tick(false, now + p));
    LateSoon(cfg, m1, now + p, p, false);
  }

  /** Two OFF samples in LONG. */
  lemma ReleaseLong(cfg: Config, m: Machine, now: nat, p: nat)
    requires Period(cfg, p) && cfg.counter.Unbounded? && cfg.guard.AsCoded?
    requires m.state == Long && m.pre + p == now
    ensures var settled := Step(cfg, Step(cfg, m, Tick(false, now)), Tick(false, now + p));
            settled.state == Init && settled.log == m.log + [LedOnLeft4]
  {
    hide Step, Late;
    StepWaiting(cfg, m, Tick(false, now));
    LateSoon(cfg, m, now, p, false);
    StepInit(cfg, Step(cfg, m, Tick(false, now)), Tick(false, now + p));
  }

  /** Two OFF samples settle a hold. */
  lemma StepRelease(cfg: Config, m0: Machine, m: Machine, now: nat, p: nat, n: nat)
    requires Period(cfg, p) && cfg.counter.Unbounded? && cfg.guard.AsCoded?
    requires Holding(m0, m, now, p, Periods(cfg, p, 1000), n)
    ensures var settled := Step(cfg, Step(cfg, m, Tick(false, now)), Tick(false, now + p));
            settled.state == Init && settled.log == m0.log + DecodedHold(Periods(cfg, p, 1000), n)
  {
    hide Step, Periods, Longs;
    var t := Periods(cfg, p, 1000);
    var q, r := n / Cycle(t), n % Cycle(t);
    assert t >= 1 by { PeriodsExact(cfg, p, 1000, 0); }
    HoldShares(t, n);
    LongsSnoc(m0.log, q);
    if r == 0 {
      StepInit(cfg, m, Tick(false, now));
      StepInit(cfg, m, Tick(false, now + p));
    } else if r <= t {
      ReleaseLit(cfg, m, now, p, r);
    } else {
      ReleaseLong(cfg, m, now, p);
    }
  }

  lemma {:induction false} IdleStays(cfg: Config, m: Machine, t0: nat, p: nat, n: nat)
    requires Supported(cfg) && m.state == Init
    ensures Run(cfg, m, Sampled(Level(false, n), t0, p)) == m
  {
    hide Step;
    if n > 0 {
      IdleStays(cfg, m, t0, p, n - 1);
      LevelSnoc(false, n - 1);
      RunSample(cfg, m, Level(false, n - 1), false, t0, p);
      StepInit(cfg, m, Tick(false, t0 + (n - 1) * p));
    }
  }

  /** ON for `on` samples, then OFF for `off` samples. */
  datatype Push = Push(on: nat, off: nat)

  function PushLevels(push: Push): seq<bool> { Level(true, push.on) + Level(false, push.off) }

  lemma RunSettled(cfg: Config, m0: Machine, t0: nat, p: nat, n: nat)
    requires Period(cfg, p) && cfg.counter.Unbounded? && cfg.guard.AsCoded? && m0.state == Init
    ensures var m := Run(cfg, m0, Sampled(Level(true, n) + [false] + [false], t0, p));
            m.state == Init && m.log == m0.log + DecodedHold(Periods(cfg, p, 1000), n)
  {
    hide Step, Periods, Run, Holding, DecodedHold;
    var on := Level(true, n);
    RunHolding(cfg, m0, t0, p, n);
    StepRelease(cfg, m0, Run(cfg, m0, Sampled(on, t0, p)), t0 + n * p, p, n);
    RunSample(cfg, m0, on, false, t0, p);
    RunSample(cfg, m0, on + [false], false, t0, p);
    assert t0 + n * p + p == t0 + (n + 1) * p;
  }

  lemma RunPush(cfg: Config, m0: Machine, t0: nat, p: nat, push: Push)
    requires Period(cfg, p) && cfg.counter.Unbounded? && cfg.guard.AsCoded? && m0.state == Init && push.off >= 2
    ensures var m := Run(cfg, m0, Sampled(PushLevels(push), t0, p));
            m.state == Init && m.log == m0.log + DecodedHold(Periods(cfg, p, 1000), push.on)
  {
    hide Step, Periods, Run, DecodedHold, Sampled;
    var settled, rest := Level(true, push.on) + [false] + [false], Level(false, push.off - 2);
    RunSettled(cfg, m0, t0, p, push.on);
    assert PushLevels(push) == settled + rest;
    SampledConcat(settled, rest, t0, p);
    RunConcat(cfg, m0, Sampled(settled, t0, p), Sampled(rest, t0 + |settled| * p, p));
    IdleStays(cfg, Run(cfg, m0, Sampled(settled, t0, p)), t0 + |settled| * p, p, push.off - 2);
  }

  function Levels(pushes: seq<Push>): seq<bool> {
    if pushes == [] then [] else Levels(pushes[..|pushes| - 1]) + PushLevels(pushes[|pushes| - 1])
  }

  function Decoded(t: nat, pushes: seq<Push>): seq<Action> {
    if pushes == [] then []
    else Decoded(t, pushes[..|pushes| - 1]) + DecodedHold(t, pushes[|pushes| - 1].on)
  }

  lemma {:induction false} RunPushes(cfg: Config, t0: nat, p: nat, pushes: seq<Push>)
    requires Period(cfg, p) && cfg.counter.Unbounded? && cfg.guard.AsCoded?
    requires forall k :: 0 <= k < |pushes| ==> pushes[k].off >= 2
    ensures var m := Run(cfg, START, Sampled(Levels(pushes), t0, p));
            m.state == Init && m.log == Decoded(Periods(cfg, p, 1000), pushes)
  {
    hide Step, Run, Sampled, DecodedHold, PushLevels, Periods;
    if pushes == [] {
      RunNothing(cfg, START, t0, p);
      assert Levels(pushes) == Level(true, 0);
    } else {
      var before, push := pushes[..|pushes| - 1], pushes[|pushes| - 1];
      RunPushes(cfg, t0, p, before);
      var a, b := Levels(before), PushLevels(push);
      SampledConcat(a, b, t0, p);
      RunConcat(cfg, START, Sampled(a, t0, p), Sampled(b, t0 + |a| * p, p));
      RunPush(cfg, Run(cfg, START, Sampled(a, t0, p)), t0 + |a| * p, p, push);
    }
  }

  /** Exact decode, as coded, on the wrapping counter: any series of holds, each followed by at least two
      OFF samples, sampled every p ticks with p ticks below 500 ms. With t = ceil(1000 / period), a hold of n
      samples performs act_long (n + 2) / (t + 2) times, then act_short once iff n > (t + 2) * that number. */
  lemma {:induction false} HoldsDecodeExactly(cfg: Config, t0: nat, p: nat, pushes: seq<Push>)
    requires Period(cfg, p) && cfg.guard.AsCoded?
    requires forall k :: 0 <= k < |pushes| ==> pushes[k].off >= 2
    ensures var m := Run(cfg, START, Sampled(Levels(pushes), t0, p));
            m.state == Init && m.log == Decoded(Periods(cfg, p, 1000), pushes)
  {
    SampledClock(cfg, Levels(pushes), t0, p);
    WrappedClockIsIdeal(cfg, Sampled(Levels(pushes), t0, p));
    RunPushes(Ideal(cfg), t0, p, pushes);
  }
}
