/** How many LED updates the pattern thread makes after a stored KEY: exactly when KEY is worth one. */
module LedUpdates {
  import opened LedPatterns
  import opened LedDelivery

  /** In the wait or on its way into the sleep. */
  predicate InWait(loc: Loc) { loc.CheckCond? || loc.Enqueue? || loc.Recheck? || loc.Sleep? }

  /** In a waiting pattern, not leaving it, with nothing but KEY or WAIT in the flag. */
  predicate Going(s: State) {
    && Waits(s.pattern) && !Leaving(s.loc) && !Ended(s.loc) && !s.loc.Reset?
    && (s.loc.Writing? ==> s.loc.after.StoreWait?)
    && (s.flag == Key || s.flag == Wait)
  }

  /** The LED updates still to come if nothing else is stored: one that is due anyway, or one for a KEY that the wait
      is going to see. */
  function Due(s: State): nat {
    if s.loc.Entry? || s.loc.Body? || s.loc.TestNext? || s.loc.TestExit? then 1
    else if InWait(s.loc) && s.flag == Key then 1
    else 0
  }

  /** LED updates begun during a run. */
  function Updates(s: State, w: seq<Move>): nat {
    if w == [] then 0
    else
      var m := w[|w| - 1];
      Updates(s, w[..|w| - 1]) + if m.Thread? && Run(s, w[..|w| - 1]).loc.Body? then 1 else 0
  }

  lemma ChooseGoing(s: State, bit: bool)
    requires Going(s) && Located(s) && Choosing(s.loc)
    ensures var s' := Choose(s, bit);
            Going(s') && s'.flag == s.flag && Due(s) == Due(s') + if s.loc.Body? then 1 else 0
  {
    hide Update;
  }

  lemma WriteGoing(s: State)
    requires Going(s) && Located(s) && s.loc.Writing?
    ensures var s' := WritePin(s); Going(s') && s'.flag == s.flag && Due(s') == Due(s) == 0 && !InWait(s'.loc)
  {
    hide SetPin;
  }

  lemma AwaitGoing(s: State)
    requires Going(s) && AwaitPoint(s.loc)
    ensures Going(Await(s)) && Due(Await(s)) == Due(s)
  {
  }

  lemma DecideGoing(s: State)
    requires Going(s) && Deciding(s.loc)
    ensures Going(Decide(s)) && Due(Decide(s)) == Due(s) && Decide(s).log == s.log
  {
    hide SwitchOff;
  }

  /** The count is a potential: each step keeps it, but for the one that begins an update and takes one off. */
  lemma StepGoing(s: State, m: Move)
    requires Going(s) && Located(s) && Quiet(m)
    ensures Going(Step(s, m)) && Step(s, m).log == s.log
    ensures Due(s) == Due(Step(s, m)) + if m.Thread? && s.loc.Body? then 1 else 0
  {
    hide WritePin, Choose, Await, Decide, Located;
    if m.Thread? {
      if s.loc.Writing? {
        WriteGoing(s);
        WriteIsQuiet(s);
      } else if Choosing(s.loc) {
        ChooseGoing(s, m.bit);
        ChooseIsQuiet(s, m.bit);
      } else if Deciding(s.loc) {
        DecideGoing(s);
      } else {
        AwaitGoing(s);
        AwaitIsQuiet(s);
      }
    }
  }

  lemma {:induction false} RunGoing(s: State, w: seq<Move>)
    requires Going(s) && LedsOk(s) && Located(s) && Undisturbed(w)
    ensures var r := Run(s, w);
            Going(r) && LedsOk(r) && Located(r) && r.log == s.log && Updates(s, w) + Due(r) == Due(s)
  {
    hide Going, LedsOk, Located, Step, Due;
    if w != [] {
      var r, m := Run(s, w[..|w| - 1]), w[|w| - 1];
      UndisturbedPrefix(w);
      RunGoing(s, w[..|w| - 1]);
      StepGoing(r, m);
      MoveKeepsLeds(r, m);
    }
  }

  /** Steps to the sleep with the flag at WAIT, within one update. */
  function Steps(s: State): nat {
    match s.loc
    case Entry => 2
    case Body => 1
    case Writing(pin, groups, _) => if groups == [] then 13 else 13 + 4 * |groups| - (if pin < 3 then pin else 3)
    case StoreWait => 12
    case CheckCond => 11
    case Recheck => if s.queued then 5 else 10
    case Sleep => 9
    case Enqueue => 8
    case TestNext => 4
    case TestExit => 3
    case _ => 0
  }

  lemma WriteSteps(s: State)
    requires Going(s) && Located(s) && s.loc.Writing?
    ensures Steps(WritePin(s)) < Steps(s)
  {
    hide SetPin;
  }

  lemma AwaitSteps(s: State)
    requires Going(s) && AwaitPoint(s.loc) && !Blocked(s)
    ensures var s' := Await(s);
            (!Blocked(s') && Steps(s') < Steps(s)) || (Blocked(s') && s'.flag == Wait)
  {
  }

  lemma OtherSteps(s: State)
    requires Going(s) && Located(s) && (Choosing(s.loc) || Deciding(s.loc)) && !s.loc.Body?
    ensures Steps(ThreadStep(s, false)) < Steps(s)
  {
    hide Update, SwitchOff;
  }

  /** The thread alone makes the updates that are due and then sleeps with the flag at WAIT. */
  lemma {:induction false} FindSleep(s: State) returns (w: seq<Move>)
    requires Going(s) && LedsOk(s) && Located(s) && (Blocked(s) ==> s.flag == Wait)
    ensures Undisturbed(w) && Blocked(Run(s, w)) && Run(s, w).flag == Wait
    decreases Due(s), if Blocked(s) then 0 else Steps(s) + 1
  {
    hide Going, LedsOk, Located, Due, Steps, WritePin, Choose, Await, Decide;
    w := [];
    if !Blocked(s) {
      var m := Thread(false);
      StepGoing(s, m);
      MoveKeepsLeds(s, m);
      RunOne(s, m);
      SleepSteps(s);
      var rest := FindSleep(Step(s, m));
      w := [m] + rest;
      RunConcat(s, [m], rest);
    }
  }

  lemma SleepSteps(s: State)
    requires Going(s) && Located(s) && !Blocked(s)
    ensures var s' := ThreadStep(s, false);
            (Blocked(s') && s'.flag == Wait) || (!Blocked(s') && (s.loc.Body? || Steps(s') < Steps(s)))
  {
    hide WritePin, Choose, Await, Decide, Steps, Going;
    if s.loc.Writing? {
      WriteSteps(s);
      WriteDoesNotBlock(s);
    } else if AwaitPoint(s.loc) {
      AwaitSteps(s);
    } else {
      OthersDoNotBlock(s, false);
      if !s.loc.Body? {
        OtherSteps(s);
      }
    }
  }

  lemma WakeUndisturbed(s: State)
    requires Going(s) && LedsOk(s) && Located(s) && (Blocked(s) && s.flag == Key ==> s.pendingWakes > 0)
    ensures var s' := Step(s, WakeUp);
            Going(s') && LedsOk(s') && Located(s') && (Blocked(s') ==> s'.flag == Wait) && Due(s') == Due(s)
  {
    hide LedsOk, Located, Due;
    StepGoing(s, WakeUp);
    MoveKeepsLeds(s, WakeUp);
  }

  lemma {:induction false} AllUpdates(s: State) returns (w: seq<Move>)
    requires Going(s) && LedsOk(s) && Located(s) && (Blocked(s) && s.flag == Key ==> s.pendingWakes > 0)
    ensures Undisturbed(w) && Updates(s, w) == Due(s) && Blocked(Run(s, w)) && Run(s, w).flag == Wait
  {
    hide Step, LedsOk, Located;
    WakeUndisturbed(s);
    RunOne(s, WakeUp);
    var rest := FindSleep(Step(s, WakeUp));
    w := [WakeUp] + rest;
    RunConcat(s, [WakeUp], rest);
    RunGoing(s, w);
  }

  lemma StoreGoes(s: State, f: Flag)
    requires (f == Key || f == Wait) && Waits(s.pattern) && !Leaving(s.loc) && !Ended(s.loc)
    requires Located(s) && WaitOk(s)
    ensures var s1 := Step(s, StoreFlag(f));
            && Going(s1) && (Blocked(s1) && s1.flag == Key ==> s1.pendingWakes > 0)
            && Due(s1) == Due(s.(flag := Wait)) + if f == Key && InWait(s.loc) then 1 else 0
  {
  }

  /** Exactly when a KEY leads to one more LED update. From any reachable state of patterns 1 to 3 that is not leaving,
      the thread makes, after a stored KEY or WAIT that no other store disturbs, at most this many updates, and in some
      run exactly this many before it sleeps with the flag at WAIT: the one already due, if any, and one more if and
      only if KEY was stored while the thread was in the wait. */
  lemma {:induction false} KeyUpdatesExactly(moves: seq<Move>, f: Flag)
    requires f == Key || f == Wait
    requires var s := Run(INITIAL, moves); Waits(s.pattern) && !Leaving(s.loc) && !Ended(s.loc)
    ensures var s := Run(INITIAL, moves);
            var s1, n := Step(s, StoreFlag(f)), Due(s.(flag := Wait)) + if f == Key && InWait(s.loc) then 1 else 0;
            && (forall w :: Undisturbed(w) ==> Updates(s1, w) <= n && Run(s1, w).log == s.log)
            && (exists w :: Undisturbed(w) && Updates(s1, w) == n && Blocked(Run(s1, w)) && Run(s1, w).flag == Wait)
  {
    hide LedsOk, Located, Undisturbed, Run, Going, Due, Blocked, WaitOk;
    var s := Run(INITIAL, moves);
    var s1 := Step(s, StoreFlag(f));
    RunKeepsLeds(moves);
    OnlyEarlyPatternsWait(moves);
    MoveKeepsLeds(s, StoreFlag(f));
    StoreGoes(s, f);
    forall w | Undisturbed(w) ensures Updates(s1, w) <= Due(s1) && Run(s1, w).log == s.log {
      RunGoing(s1, w);
    }
    var w := AllUpdates(s1);
  }
}
