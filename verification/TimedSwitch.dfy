/** One iteration of the switch thread with its clock, and whole runs of iterations. */
module TimedSwitch {
  import opened CInt
  import opened SwitchTable
  import opened LedBar
  import Grammar = GestureGrammar

  /** The SHORT/LONG timeout test: as the code has it (elapsed below 500 ms), or as the driver's
      README describes it (500 ms without input). */
  datatype Guard = AsCoded | AsDocumented

  /** The jiffies counter: an ideal one, or an unsigned long that wraps. */
  datatype Counter = Unbounded | Word(modulus: nat)

  datatype Config = Config(guard: Guard, tickMs: nat, counter: Counter)

  /** What one iteration observes: the input level, the times at which the guard and the action read the
      clock, and whether the flag test that ends the iteration sees EXIT or NEXT. */
  datatype Sample = Sample(level: bool, guardAt: nat, actAt: nat, quit: bool)

  datatype Machine = Machine(state: State, pre: nat, led: int, log: seq<Action>)

  /** unsigned long has 32 or 64 bits; a tick is 1000 / HZ milliseconds. */
  predicate Supported(cfg: Config) {
    1 <= cfg.tickMs <= 1000 && (cfg.counter.Word? ==> cfg.counter.modulus == TWO_32 || cfg.counter.modulus == TWO_64)
  }

  function Jiffies(cfg: Config, t: nat): nat
    requires Supported(cfg)
  {
    if cfg.counter.Unbounded? then t else t % cfg.counter.modulus
  }

  /** jiffies_to_msecs(now - start); the C version subtracts in unsigned long and returns unsigned int. */
  function ElapsedMs(cfg: Config, now: nat, start: nat): int
    requires Supported(cfg)
  {
    if cfg.counter.Unbounded? then (now - start) * cfg.tickMs
    else U32((now - start) % cfg.counter.modulus * cfg.tickMs)
  }

  predicate IsShortPush(cfg: Config, now: nat, start: nat, ms: nat)
    requires Supported(cfg)
  {
    ElapsedMs(cfg, now, start) < ms
  }

  predicate Waiting(s: State) { s == Short || s == Long }

  predicate Pressing(s: State) { s == Lit || s == ShortShort || s == LongShort }

  function Classify(cfg: Config, m: Machine, smp: Sample): Input
    requires Supported(cfg)
  {
    var now := Jiffies(cfg, smp.guardAt);
    if Waiting(m.state) && IsShortPush(cfg, now, m.pre, 500) == cfg.guard.AsCoded? then Timeout
    else if Pressing(m.state) && !IsShortPush(cfg, now, m.pre, 1000) then Timeout
    else if smp.level then On
    else Off
  }

  function Step(cfg: Config, m: Machine, smp: Sample): Machine
    requires Supported(cfg)
  {
    var e := Transition(m.state, Classify(cfg, m, smp));
    Machine(e.next,
            if e.action == Stamp then Jiffies(cfg, smp.actAt) else m.pre,
            ActLed(e.action, m.led),
            Logged(m.log, e.action))
  }

  function Run(cfg: Config, m: Machine, w: seq<Sample>): Machine
    requires Supported(cfg)
  {
    if w == [] then m else Step(cfg, Run(cfg, m, w[..|w| - 1]), w[|w| - 1])
  }

  const START := Machine(Init, 0, 0, [])

  /** The clock never goes back. */
  ghost predicate Chronological(w: seq<Sample>) {
    && (forall i :: 0 <= i < |w| ==> w[i].guardAt <= w[i].actAt)
    && (forall i, j :: 0 <= i < j < |w| && j == i + 1 ==> w[i].actAt <= w[j].guardAt)
  }

  /** Consecutive samples are less than `ms` milliseconds apart. */
  ghost predicate GapsBelow(tickMs: nat, w: seq<Sample>, ms: nat) {
    forall i, j :: 0 <= i < j < |w| && j == i + 1 ==> (w[j].guardAt - w[i].guardAt) * tickMs < ms
  }

  /** When a step enters a timed state, `pre` is what its action reads from the clock; it does not change otherwise. */
  lemma EntryTime(cfg: Config, m: Machine, smp: Sample)
    requires Supported(cfg)
    ensures var m' := Step(cfg, m, smp);
            m'.pre == if m'.state != m.state && m'.state in {Lit, Short, Long, ShortShort, LongShort}
                      then (if cfg.counter.Unbounded? then smp.actAt else smp.actAt % cfg.counter.modulus)
                      else m.pre
  {
    hide Classify, ActLed;
  }

  /* What one step does in each state, by the outcome of its clock test. */

  predicate Late(cfg: Config, m: Machine, smp: Sample, ms: nat)
    requires Supported(cfg)
  {
    !IsShortPush(cfg, Jiffies(cfg, smp.guardAt), m.pre, ms)
  }

  function Entering(cfg: Config, m: Machine, smp: Sample, s: State): Machine
    requires Supported(cfg)
  {
    m.(state := s, pre := Jiffies(cfg, smp.actAt))
  }

  function Finishing(m: Machine, a: Action): Machine {
    Machine(Init, m.pre, ActLed(a, m.led), m.log + [a])
  }

  lemma StepInit(cfg: Config, m: Machine, smp: Sample)
    requires Supported(cfg) && m.state == Init
    ensures Step(cfg, m, smp) == if smp.level then Entering(cfg, m, smp, Lit) else m
  {
  }

  lemma StepLit(cfg: Config, m: Machine, smp: Sample)
    requires Supported(cfg) && m.state == Lit
    ensures Step(cfg, m, smp) ==
            if Late(cfg, m, smp, 1000) then Entering(cfg, m, smp, Long)
            else if smp.level then m
            else Entering(cfg, m, smp, Short)
  {
  }

  /** SHORT and LONG: the coded guard fires while the state is young, the documented one when it is old. */
  lemma StepWaiting(cfg: Config, m: Machine, smp: Sample)
    requires Supported(cfg) && Waiting(m.state)
    ensures Step(cfg, m, smp) ==
            if Late(cfg, m, smp, 500) == cfg.guard.AsDocumented?
            then Finishing(m, if m.state == Long then LedOnLeft4 else LedOnStraight)
            else if smp.level then Entering(cfg, m, smp, if m.state == Long then LongShort else ShortShort)
            else m
  {
  }

  lemma StepSecondPress(cfg: Config, m: Machine, smp: Sample)
    requires Supported(cfg) && (m.state == ShortShort || m.state == LongShort)
    ensures Step(cfg, m, smp) ==
            if Late(cfg, m, smp, 1000) then m.(state := if m.state == LongShort then LongLong else ShortLong)
            else if smp.level then m
            else Finishing(m, if m.state == LongShort then LedOnAll else LedOnReverse)
  {
  }

  lemma StepHeld(cfg: Config, m: Machine, smp: Sample)
    requires Supported(cfg) && (m.state == ShortLong || m.state == LongLong)
    ensures Step(cfg, m, smp) ==
            if smp.level then m else Finishing(m, if m.state == LongLong then LedOffAll else LedOnLeft6)
  {
  }

  lemma {:induction false} RunSnoc(cfg: Config, m: Machine, w: seq<Sample>, smp: Sample)
    requires Supported(cfg)
    ensures Run(cfg, m, w + [smp]) == Step(cfg, Run(cfg, m, w), smp)
  {
    assert (w + [smp])[..|w|] == w;
  }

  lemma {:induction false} RunConcat(cfg: Config, m: Machine, v: seq<Sample>, w: seq<Sample>)
    requires Supported(cfg)
    ensures Run(cfg, m, v + w) == Run(cfg, Run(cfg, m, v), w)
  {
    if w == [] {
      assert v + w == v;
    } else {
      assert (v + w)[..|v + w| - 1] == v + w[..|w| - 1];
      RunConcat(cfg, m, v, w[..|w| - 1]);
    }
  }

  /** The inputs the classifier feeds to the table during a run from ST_INIT. */
  function Inputs(cfg: Config, w: seq<Sample>): seq<Input>
    requires Supported(cfg)
  {
    if w == [] then []
    else
      var before := w[..|w| - 1];
      Inputs(cfg, before) + [Classify(cfg, Run(cfg, START, before), w[|w| - 1])]
  }

  /** A timed run is the table loop on its classified inputs, and its register is the LED fold of its log. */
  lemma {:induction false} RunIsTableRun(cfg: Config, w: seq<Sample>)
    requires Supported(cfg)
    ensures var m, o := Run(cfg, START, w), TableRun(Inputs(cfg, w));
            m.state == o.state && m.log == o.log && m.led == ActLeds(o.log, 0)
  {
    if w != [] {
      var before := w[..|w| - 1];
      RunIsTableRun(cfg, before);
      var i := Classify(cfg, Run(cfg, START, before), w[|w| - 1]);
      assert Inputs(cfg, w)[..|Inputs(cfg, before)|] == Inputs(cfg, before);
      var a := Transition(Run(cfg, START, before).state, i).action;
      var log := Run(cfg, START, before).log;
      assert (log + [a])[..|log|] == log;
    }
  }

  /** Whatever the clock and guard, a run performs exactly the actions of the gestures in its classified inputs,
      and its register shows their thermometer. */
  lemma {:induction false} RunReadsGestures(cfg: Config, w: seq<Sample>)
    requires Supported(cfg)
    ensures var m, r := Run(cfg, START, w), Grammar.Read(Inputs(cfg, w));
            && m.log == Grammar.Meanings(r.items) && m.state == Grammar.Phase(r.open)
            && m.led == BarValue(Height(m.log, 0))
  {
    RunIsTableRun(cfg, w);
    Grammar.TableReadsGestures(Grammar.Read(Inputs(cfg, w)));
    Thermometer(Run(cfg, START, w).log);
  }
}
