/** The same thread with the timeout guard the driver's README describes: SHORT and LONG end after
    500 ms without input. Not what the code does; HoldDecoding covers that. */
module DocumentedGuard {
  import opened SwitchTable
  import opened TimedSwitch
  import opened SwitchClock
  import opened HoldDecoding

  ghost predicate Documented(cfg: Config, p: nat) { Period(cfg, p) && cfg.guard.AsDocumented? }

  ghost predicate IdealDocumented(cfg: Config, p: nat) { Documented(cfg, p) && cfg.counter.Unbounded? }

  /** After `n` ON samples from ST_INIT with the next sample due at `now`; `t` samples reach 1000 ms. */
  ghost predicate Pressed(m: Machine, now: nat, p: nat, t: nat, n: nat) {
    && m.log == []
    && (n == 0 ==> m.state == Init)
    && (1 <= n <= t ==> m.state == Lit && m.pre + n * p == now)
    && (n == t + 1 ==> m.state == Long && m.pre + p == now)
    && (t + 2 <= n <= 2 * t + 1 ==> m.state == LongShort && m.pre + (n - t - 1) * p == now)
    && (n >= 2 * t + 2 ==> m.state == LongLong)
  }

  lemma StepPressed(cfg: Config, m: Machine, now: nat, p: nat, n: nat)
    requires IdealDocumented(cfg, p) && Pressed(m, now, p, Periods(cfg, p, 1000), n)
    ensures Pressed(Step(cfg, m, Tick(true, now)), now + p, p, Periods(cfg, p, 1000), n + 1)
  {
    hide Step, Periods, Late;
    var t := Periods(cfg, p, 1000);
    var smp := Tick(true, now);
    assert t >= 1 by { PeriodsExact(cfg, p, 1000, 0); }
    if n == 0 {
      StepInit(cfg, m, smp);
    } else if n <= t {
      StepLit(cfg, m, smp);
      LateAfter(cfg, m, now, p, n, 1000, true);
      assert (n + 1) * p == n * p + p;
    } else if n == t + 1 {
      StepWaiting(cfg, m, smp);
      LateSoon(cfg, m, now, p, true);
    } else if n <= 2 * t + 1 {
      StepSecondPress(cfg, m, smp);
      LateAfter(cfg, m, now, p, n - t - 1, 1000, true);
      assert (n - t) * p == (n - t - 1) * p + p;
    } else {
      StepHeld(cfg, m, smp);
    }
  }

  lemma {:induction false} RunPressed(cfg: Config, t0: nat, p: nat, n: nat)
    requires IdealDocumented(cfg, p)
    ensures Pressed(Run(cfg, START, Sampled(Level(true, n), t0, p)), t0 + n * p, p, Periods(cfg, p, 1000), n)
  {
    hide Step, Periods, Run, Sampled;
    if n == 0 {
      RunNothing(cfg, START, t0, p);
    } else {
      RunPressed(cfg, t0, p, n - 1);
      LevelSnoc(true, n - 1);
      RunSample(cfg, START, Level(true, n - 1), true, t0, p);
      StepPressed(cfg, Run(cfg, START, Sampled(Level(true, n - 1), t0, p)), t0 + (n - 1) * p, p, n - 1);
      assert t0 + (n - 1) * p + p == t0 + n * p;
    }
  }

  function WaitingAction(m: Machine): Action { if m.state == Long then LedOnLeft4 else LedOnStraight }

  /** SHORT and LONG under OFF samples: nothing until 500 ms have passed since `pre`, then the action. */
  lemma {:induction false} RunWaiting(cfg: Config, m: Machine, now: nat, p: nat, d: nat, j: nat)
    requires IdealDocumented(cfg, p) && Waiting(m.state) && m.pre + d * p == now && d <= Periods(cfg, p, 500)
    ensures Run(cfg, m, Sampled(Level(false, j), now, p)) ==
            if d + j > Periods(cfg, p, 500) then Finishing(m, WaitingAction(m)) else m
  {
    hide Step, Periods, Run, Sampled, Late;
    if j == 0 {
      assert Level(false, 0) == Level(true, 0);
      RunNothing(cfg, m, now, p);
    } else {
      RunWaiting(cfg, m, now, p, d, j - 1);
      LevelSnoc(false, j - 1);
      RunSample(cfg, m, Level(false, j - 1), false, now, p);
      var smp := Tick(false, now + (j - 1) * p);
      if d + j - 1 > Periods(cfg, p, 500) {
        StepInit(cfg, Finishing(m, WaitingAction(m)), smp);
      } else {
        StepWaiting(cfg, m, smp);
        assert d * p + (j - 1) * p == (d + j - 1) * p;
        LateAfter(cfg, m, smp.guardAt, p, d + j - 1, 500, false);
      }
    }
  }

  /** The one LED action a single hold of `n` samples earns under the documented guard. */
  function HoldAction(t: nat, n: nat): Action {
    if n < t then LedOnStraight
    else if n <= t + 1 then LedOnLeft4
    else if n <= 2 * t then LedOnAll
    else LedOffAll
  }

  /** The first OFF sample after a hold. */
  lemma StepLift(cfg: Config, m: Machine, now: nat, p: nat, n: nat)
    requires IdealDocumented(cfg, p) && Pressed(m, now, p, Periods(cfg, p, 1000), n) && n >= 1
    ensures var t, m1 := Periods(cfg, p, 1000), Step(cfg, m, Tick(false, now));
            if n <= t then m1 == m.(state := if n < t then Short else Long, pre := now)
            else if n == t + 1 then m1 == m
            else if n == 2 * t + 1 then m1 == m.(state := LongLong)
            else m1 == Finishing(m, HoldAction(t, n))
  {
    hide Step, Periods, Late;
    var t := Periods(cfg, p, 1000);
    var smp := Tick(false, now);
    if n <= t {
      StepLit(cfg, m, smp);
      LateAfter(cfg, m, now, p, n, 1000, false);
    } else if n == t + 1 {
      StepWaiting(cfg, m, smp);
      LateSoon(cfg, m, now, p, false);
    } else if n <= 2 * t + 1 {
      StepSecondPress(cfg, m, smp);
      LateAfter(cfg, m, now, p, n - t - 1, 1000, false);
    } else {
      StepHeld(cfg, m, smp);
    }
  }

  lemma RunFinal(cfg: Config, m: Machine, now: nat, p: nat, j: nat)
    requires IdealDocumented(cfg, p) && m.state == LongLong && j >= 1
    ensures Run(cfg, m, Sampled(Level(false, j), now, p)) == Finishing(m, LedOffAll)
  {
    hide Step, Periods, Run, Sampled;
    var off := [] + [false];
    assert Level(false, j) == off + Level(false, j - 1) && Level(true, 0) == [];
    SampledConcat(off, Level(false, j - 1), now, p);
    RunConcat(cfg, m, Sampled(off, now, p), Sampled(Level(false, j - 1), now + p, p));
    RunSample(cfg, m, [], false, now, p);
    RunNothing(cfg, m, now, p);
    StepHeld(cfg, m, Tick(false, now));
    IdleStays(cfg, Finishing(m, LedOffAll), now + p, p, j - 1);
  }

  lemma RunLifted(cfg: Config, m: Machine, now: nat, p: nat, n: nat, j: nat)
    requires IdealDocumented(cfg, p) && Pressed(m, now, p, Periods(cfg, p, 1000), n) && n >= 1
    requires j >= Periods(cfg, p, 500)
    ensures var m2 := Run(cfg, Step(cfg, m, Tick(false, now)), Sampled(Level(false, j), now + p, p));
            m2.state == Init && m2.log == [HoldAction(Periods(cfg, p, 1000), n)]
  {
    hide Step, Periods, Run, Sampled;
    var t, m1 := Periods(cfg, p, 1000), Step(cfg, m, Tick(false, now));
    PeriodsExact(cfg, p, 500, 1);
    StepLift(cfg, m, now, p, n);
    if n <= t {
      RunWaiting(cfg, m1, now + p, p, 1, j);
    } else if n == t + 1 {
      RunWaiting(cfg, m1, now + p, p, 2, j);
    } else if n == 2 * t + 1 {
      RunFinal(cfg, m1, now + p, p, j);
    } else {
      IdleStays(cfg, m1, now + p, p, j);
    }
  }

  /** Under the documented guard a single hold of n samples, once released for more than 500 ms, performs
      exactly one action: a hold past t + 1 samples already counts as a two-press gesture. */
  lemma DocumentedHold(cfg: Config, t0: nat, p: nat, n: nat, off: nat)
    requires Documented(cfg, p) && n >= 1 && off > Periods(cfg, p, 500)
    ensures var m := Run(cfg, START, Sampled(Level(true, n) + Level(false, off), t0, p));
            m.state == Init && m.log == [HoldAction(Periods(cfg, p, 1000), n)]
  {
    hide Step, Periods, Run, Sampled, Pressed;
    var ideal := Ideal(cfg);
    var on, rest := Level(true, n), Level(false, off - 1);
    assert Level(true, n) + Level(false, off) == on + [false] + rest;
    SampledClock(cfg, on + [false] + rest, t0, p);
    WrappedClockIsIdeal(cfg, Sampled(on + [false] + rest, t0, p));
    SamePeriods(cfg, p);
    RunPressed(ideal, t0, p, n);
    RunSample(ideal, START, on, false, t0, p);
    SampledConcat(on + [false], rest, t0, p);
    RunConcat(ideal, START, Sampled(on + [false], t0, p), Sampled(rest, t0 + (n + 1) * p, p));
    assert t0 + (n + 1) * p == t0 + n * p + p;
    RunLifted(ideal, Run(ideal, START, Sampled(on, t0, p)), t0 + n * p, p, n, off - 1);
  }

  /* ---- two presses ---- */

  /** The action of two presses, by which of them were long. */
  function PairAction(long1: bool, long2: bool): Action {
    if long1 then (if long2 then LedOffAll else LedOnAll) else (if long2 then LedOnLeft6 else LedOnReverse)
  }

  /** After `k` ON samples of the second press, with the next sample due at `now`. */
  ghost predicate Repressed(m: Machine, now: nat, p: nat, t: nat, long: bool, k: nat) {
    && m.log == []
    && (k <= t ==> m.state == (if long then LongShort else ShortShort) && m.pre + k * p == now)
    && (k > t ==> m.state == if long then LongLong else ShortLong)
  }

  /** `d` periods after SHORT or LONG was entered, and still within the 500 ms. */
  ghost predicate WaitsStill(cfg: Config, m: Machine, now: nat, p: nat, d: nat) {
    && IdealDocumented(cfg, p) && Waiting(m.state) && m.log == [] && m.pre + d * p == now && d < Periods(cfg, p, 500)
  }

  lemma {:induction false} RunRepressed(cfg: Config, m: Machine, now: nat, p: nat, d: nat, k: nat)
    requires WaitsStill(cfg, m, now, p, d) && k >= 1
    ensures Repressed(Run(cfg, m, Sampled(Level(true, k), now, p)), now + k * p, p, Periods(cfg, p, 1000),
                      m.state == Long, k)
  {
    hide Step, Periods, Run, Sampled, Late;
    var t, smp := Periods(cfg, p, 1000), Tick(true, now + (k - 1) * p);
    LevelSnoc(true, k - 1);
    RunSample(cfg, m, Level(true, k - 1), true, now, p);
    assert t >= 1 by { PeriodsExact(cfg, p, 1000, 0); }
    assert k * p == (k - 1) * p + p;
    if k == 1 {
      RunNothing(cfg, m, now, p);
      StepWaiting(cfg, m, smp);
      LateAfter(cfg, m, now, p, d, 500, true);
    } else {
      RunRepressed(cfg, m, now, p, d, k - 1);
      var m1 := Run(cfg, m, Sampled(Level(true, k - 1), now, p));
      if k - 1 <= t {
        StepSecondPress(cfg, m1, smp);
        LateAfter(cfg, m1, smp.guardAt, p, k - 1, 1000, true);
      } else {
        StepHeld(cfg, m1, smp);
      }
    }
  }

  /** Two OFF samples end the second press. */
  lemma ReleaseSecond(cfg: Config, m: Machine, now: nat, p: nat, long: bool, k: nat)
    requires IdealDocumented(cfg, p) && Repressed(m, now, p, Periods(cfg, p, 1000), long, k) && k >= 1
    ensures var settled := Step(cfg, Step(cfg, m, Tick(false, now)), Tick(false, now + p));
            settled.state == Init && settled.log == [PairAction(long, k >= Periods(cfg, p, 1000))]
  {
    hide Step, Periods, Late;
    var t, m1 := Periods(cfg, p, 1000), Step(cfg, m, Tick(false, now));
    if k <= t {
      StepSecondPress(cfg, m, Tick(false, now));
      LateAfter(cfg, m, now, p, k, 1000, false);
    } else {
      StepHeld(cfg, m, Tick(false, now));
    }
    if k == t {
      StepHeld(cfg, m1, Tick(false, now + p));
    } else {
      StepInit(cfg, m1, Tick(false, now + p));
    }
  }

  lemma RunSecond(cfg: Config, m: Machine, now: nat, p: nat, d: nat, k: nat, off: nat)
    requires WaitsStill(cfg, m, now, p, d) && k >= 1 && off >= 2
    ensures var settled := Run(cfg, m, Sampled(Level(true, k) + Level(false, off), now, p));
            && settled.state == Init
            && settled.log == [PairAction(m.state == Long, k >= Periods(cfg, p, 1000))]
  {
    hide Step, Periods, Run, Sampled, Repressed;
    var on, rest := Level(true, k), Level(false, off - 2);
    assert on + Level(false, off) == on + [false] + [false] + rest;
    RunRepressed(cfg, m, now, p, d, k);
    RunSample(cfg, m, on, false, now, p);
    RunSample(cfg, m, on + [false], false, now, p);
    assert now + k * p + p == now + (k + 1) * p;
    ReleaseSecond(cfg, Run(cfg, m, Sampled(on, now, p)), now + k * p, p, m.state == Long, k);
    var both := on + [false] + [false];
    SampledConcat(both, rest, now, p);
    RunConcat(cfg, m, Sampled(both, now, p), Sampled(rest, now + |both| * p, p));
    IdleStays(cfg, Run(cfg, m, Sampled(both, now, p)), now + |both| * p, p, off - 2);
  }

  /** Sampling periods between the entry of SHORT or LONG and the second press: a press of t + 1 samples enters LONG
      one period before it is released. */
  function GapPeriods(t: nat, n: nat, gap: nat): nat { if n <= t then gap else gap + 1 }

  /** The first press and the gap. */
  lemma RunFirst(cfg: Config, t0: nat, p: nat, n: nat, gap: nat)
    requires IdealDocumented(cfg, p) && 1 <= n <= Periods(cfg, p, 1000) + 1 && gap >= 1
    requires GapPeriods(Periods(cfg, p, 1000), n, gap) < Periods(cfg, p, 500)
    ensures var m := Run(cfg, START, Sampled(Level(true, n) + Level(false, gap), t0, p));
            && WaitsStill(cfg, m, t0 + (n + gap) * p, p, GapPeriods(Periods(cfg, p, 1000), n, gap))
            && (m.state == Long <==> n >= Periods(cfg, p, 1000))
  {
    hide Step, Periods, Run, Sampled;
    var t, on, rest := Periods(cfg, p, 1000), Level(true, n), Level(false, gap - 1);
    var m := Run(cfg, START, Sampled(on, t0, p));
    var now := t0 + n * p;
    assert on + Level(false, gap) == on + [false] + rest;
    RunPressed(cfg, t0, p, n);
    StepLift(cfg, m, now, p, n);
    RunSample(cfg, START, on, false, t0, p);
    SampledConcat(on + [false], rest, t0, p);
    assert t0 + (n + 1) * p == now + p;
    RunConcat(cfg, START, Sampled(on + [false], t0, p), Sampled(rest, now + p, p));
    var m1, d := Step(cfg, m, Tick(false, now)), GapPeriods(t, n, 1);
    RunWaiting(cfg, m1, now + p, p, d, gap - 1);
    assert now + p + (gap - 1) * p == t0 + (n + gap) * p;
    assert m1.pre + d * p == now + p;
    assert (d + (gap - 1)) * p == d * p + (gap - 1) * p;
  }

  /** Two presses under the documented guard: a first press of at most t + 1 samples, a gap that stays below 500 ms
      and a second press perform exactly one action, chosen by which presses reached 1000 ms. */
  lemma DocumentedPair(cfg: Config, t0: nat, p: nat, n: nat, gap: nat, k: nat, off: nat)
    requires Documented(cfg, p) && 1 <= n <= Periods(cfg, p, 1000) + 1 && gap >= 1 && k >= 1 && off >= 2
    requires GapPeriods(Periods(cfg, p, 1000), n, gap) < Periods(cfg, p, 500)
    ensures var t := Periods(cfg, p, 1000);
            var levels := Level(true, n) + Level(false, gap) + (Level(true, k) + Level(false, off));
            var m := Run(cfg, START, Sampled(levels, t0, p));
            m.state == Init && m.log == [PairAction(n >= t, k >= t)]
  {
    hide Step, Periods, Run, Sampled;
    var ideal := Ideal(cfg);
    var a, b := Level(true, n) + Level(false, gap), Level(true, k) + Level(false, off);
    SampledClock(cfg, a + b, t0, p);
    WrappedClockIsIdeal(cfg, Sampled(a + b, t0, p));
    SamePeriods(cfg, p);
    RunFirst(ideal, t0, p, n, gap);
    SampledConcat(a, b, t0, p);
    assert |a| == n + gap;
    RunConcat(ideal, START, Sampled(a, t0, p), Sampled(b, t0 + (n + gap) * p, p));
    RunSecond(ideal, Run(ideal, START, Sampled(a, t0, p)), t0 + (n + gap) * p, p,
              GapPeriods(Periods(cfg, p, 1000), n, gap), k, off);
  }

  lemma SamePeriods(cfg: Config, p: nat)
    requires Documented(cfg, p)
    ensures IdealDocumented(Ideal(cfg), p)
    ensures Periods(Ideal(cfg), p, 1000) == Periods(cfg, p, 1000) && Periods(Ideal(cfg), p, 500) == Periods(cfg, p, 500)
  {
  }
}
