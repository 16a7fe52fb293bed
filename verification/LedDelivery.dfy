/** What becomes of a flag once a writer has stored it: delivered, erased by the thread's own WAIT, or never seen. */
module LedDelivery {
  import opened LedPatterns

  /* ---- which stores are seen ---- */

  /** The stores that ask for something lasting: NEXT, the EXIT of the handler's default branch, and module exit. */
  predicate IsStore(m: Move) { m == StoreFlag(Next) || m == StoreFlag(Exit) || m == ExitModule }

  function Stored(m: Move): Flag { if m == StoreFlag(Next) then Next else Exit }

  /** Moves that store no flag: thread steps on any inputs, and wake-ups still owed. */
  ghost predicate Undisturbed(w: seq<Move>) { forall k :: 0 <= k < |w| ==> Quiet(w[k]) }

  predicate Quiet(m: Move) { m.Thread? || m.WakeUp? }

  /** The thread is past its last look at the flag and will store WAIT before the next one. */
  predicate Lossy(s: State, f: Flag) {
    || s.loc.Entry? || s.loc.Reset? || s.loc.StoreWait? || (s.loc.Writing? && s.loc.after.StoreWait?)
    || (Waits(s.pattern) && (s.loc.Body? || (f == Next && s.loc.TestExit?)))
  }

  /** An EXIT stored without a wake-up while the thread sleeps and nobody else is about to wake it. */
  predicate Strands(s: State, m: Move) { Blocked(s) && s.pendingWakes == 0 && m == StoreFlag(Exit) }

  /** Asleep with nobody left to wake it. */
  predicate Stuck(s: State) { Blocked(s) && s.pendingWakes == 0 }

  /** The next event after `before` is a test or return that saw `f`. */
  predicate Seen(before: State, f: Flag, s: State) {
    && |s.log| > |before.log| && s.log[..|before.log|] == before.log
    && (s.log[|before.log|] == Tested(f) || s.log[|before.log|] == Returned(f))
  }

  /** WAIT is back in the flag with nothing tested or returned since `before`. */
  predicate Erased(before: State, s: State) { s.log == before.log && s.flag == Wait }

  /** Stored, not yet seen, and on the way to being seen. */
  predicate Kept(before: State, f: Flag, s: State) {
    s.log == before.log && s.flag == f && !Lossy(s, f) && !Ended(s.loc)
  }

  /** On the way to being erased, or erased: in either case the thread stays in its pattern. */
  predicate Doomed(before: State, f: Flag, s: State) {
    s.log == before.log && !Leaving(s.loc) && !Ended(s.loc) && (s.flag == Wait || (s.flag == f && Lossy(s, f)))
  }

  /** How many steps the thread is from its next look at the flag, or its next store of WAIT. */
  function Rank(s: State, f: Flag): nat {
    match s.loc
    case Entry => 15
    case Reset => 1
    case Body => 11
    case ReadOld => 13
    case ReadNew => if s.oldInput then 12 else 14
    case Writing(pin, groups, _) => if groups == [] then 2 else 2 + 4 * |groups| - (if pin < 3 then pin else 3)
    case StoreWait => 1
    case CheckCond => 2
    case Enqueue => 3
    case Recheck => 2
    case Sleep => 4
    case TestNext => 1
    case TestExit => if f == Exit then 0 else 15
    case Return => 1
    case Done => 0
  }

  /** No step changes the flag, the log or the kind of point while a group is being written. */
  lemma WriteAdvances(s: State, f: Flag)
    requires s.loc.Writing? && Located(s)
    ensures var s' := WritePin(s);
            s'.flag == s.flag && !Blocked(s') && Lossy(s', f) == Lossy(s, f) && Rank(s', f) < Rank(s, f)
  {
    hide SetPin;
  }

  lemma ChooseAdvances(s: State, f: Flag, bit: bool)
    requires Choosing(s.loc) && Located(s)
    ensures var s' := Choose(s, bit);
            && !Blocked(s') && (s'.flag == s.flag || s'.flag == Wait)
            && (!Lossy(s, f) ==> s'.flag == s.flag && !Lossy(s', f))
            && (Lossy(s, f) && s'.flag != Wait ==> Lossy(s', f))
            && (bit == s.loc.ReadOld? && !s.loc.Reset? ==> Rank(s', f) < Rank(s, f))
            && (s.loc.Reset? ==> s'.flag == Wait)
  {
    assert |Update(s.pattern, s.lit, bit).0| <= 2;
    hide Update;
  }

  lemma AwaitAdvances(s: State, f: Flag)
    requires AwaitPoint(s.loc) && !s.loc.Done?
    ensures var s' := Await(s);
            && (s.flag == Wait ==> s'.flag == Wait)
            && (s.loc.StoreWait? ==> s'.flag == Wait)
            && (!s.loc.StoreWait? ==> s'.flag == s.flag && !Lossy(s', f))
            && (!s.loc.StoreWait? && !Blocked(s) && s.flag != Wait ==> !Blocked(s') && Rank(s', f) < Rank(s, f))
  {
  }

  lemma DecideKeeps(s: State, f: Flag)
    requires Deciding(s.loc) && Located(s) && Kept(s, f, s) && (f == Next || f == Exit)
    ensures var s' := Decide(s);
            Seen(s, f, s') || (Kept(s, f, s') && !Blocked(s') && Rank(s', f) < Rank(s, f))
  {
    hide SwitchOff;
    assert Decide(s).log != s.log ==> Decide(s).log[..|s.log|] == s.log;
  }

  lemma DecideDooms(s: State, f: Flag)
    requires Deciding(s.loc) && Located(s) && Doomed(s, f, s) && (f == Next || f == Exit)
    ensures var s' := Decide(s);
            Doomed(s, f, s') && s'.flag == s.flag && (Lossy(s, f) ==> Rank(s', f) < Rank(s, f))
  {
    hide SwitchOff;
  }

  /** A kept store stays kept until it is seen. */
  lemma KeptThread(before: State, f: Flag, s: State, bit: bool)
    requires Located(s) && (f == Next || f == Exit) && Kept(before, f, s)
    ensures var s' := ThreadStep(s, bit);
            || Seen(before, f, s')
            || (Kept(before, f, s')
                && (bit == s.loc.ReadOld? && !Blocked(s) ==> !Blocked(s') && Rank(s', f) < Rank(s, f)))
  {
    hide WritePin, Choose, Await, Decide, Rank;
    if s.loc.Writing? {
      WriteAdvances(s, f);
      WriteIsQuiet(s);
    } else if Choosing(s.loc) {
      ChooseAdvances(s, f, bit);
      ChooseIsQuiet(s, bit);
    } else if Deciding(s.loc) {
      DecideKeeps(s, f);
    } else {
      AwaitAdvances(s, f);
      AwaitIsQuiet(s);
    }
  }

  /** A doomed store is erased before anything is tested or returned, and the thread stays in its pattern. */
  lemma DoomedThread(before: State, f: Flag, s: State, bit: bool)
    requires Located(s) && (f == Next || f == Exit) && Doomed(before, f, s)
    ensures var s' := ThreadStep(s, bit);
            && Doomed(before, f, s')
            && (s.flag == f && bit == s.loc.ReadOld? ==> s'.flag == Wait || Rank(s', f) < Rank(s, f))
  {
    hide WritePin, Choose, Await, Decide, Rank;
    if s.loc.Writing? {
      WriteAdvances(s, f);
      WriteIsQuiet(s);
    } else if Choosing(s.loc) {
      ChooseAdvances(s, f, bit);
      ChooseIsQuiet(s, bit);
    } else if Deciding(s.loc) {
      DecideDooms(s, f);
    } else {
      AwaitAdvances(s, f);
      AwaitIsQuiet(s);
    }
  }

  lemma {:induction false} RunConcat(s: State, a: seq<Move>, b: seq<Move>)
    ensures Run(s, a + b) == Run(Run(s, a), b)
  {
    hide Step;
    if b == [] {
      assert a + b == a;
    } else {
      assert (a + b)[..|a + b| - 1] == a + b[..|b| - 1];
      RunConcat(s, a, b[..|b| - 1]);
    }
  }

  lemma RunTwo(s: State, a: Move, b: Move)
    ensures Run(s, [a, b]) == Step(Step(s, a), b)
  {
    hide Step;
    assert [a, b][..1] == [a] && [a][..0] == [];
    assert Run(s, [a]) == Step(s, a);
  }

  lemma RunOne(s: State, m: Move)
    ensures Run(s, [m]) == Step(s, m)
  {
    hide Step;
    assert [m][..0] == [];
  }

  lemma {:induction false} UndisturbedPrefix(w: seq<Move>)
    requires Undisturbed(w) && w != []
    ensures Undisturbed(w[..|w| - 1]) && Quiet(w[|w| - 1])
  {
  }

  /** The log only grows. */
  lemma MoveExtendsLog(s: State, m: Move)
    requires Located(s)
    ensures s.log <= Step(s, m).log
  {
    hide WritePin, Choose, Await, SwitchOff;
    if s.loc.Writing? {
      WriteIsQuiet(s);
    } else if m.Thread? && Choosing(s.loc) {
      ChooseIsQuiet(s, m.bit);
    } else if AwaitPoint(s.loc) {
      AwaitIsQuiet(s);
    }
  }

  lemma SeenStays(before: State, f: Flag, s: State, m: Move)
    requires Located(s) && Seen(before, f, s)
    ensures Seen(before, f, Step(s, m))
  {
    MoveExtendsLog(s, m);
    hide Step;
  }

  lemma WakeKeeps(before: State, f: Flag, s: State)
    ensures Kept(before, f, s) ==> Kept(before, f, Step(s, WakeUp))
    ensures Doomed(before, f, s) ==> Doomed(before, f, Step(s, WakeUp))
    ensures !Stuck(s) ==> !Blocked(Step(s, WakeUp))
  {
  }

  /** Until it is seen, a store that is not lossy stands. */
  lemma {:induction false} KeptRun(before: State, f: Flag, s: State, w: seq<Move>)
    requires LedsOk(s) && Located(s) && (f == Next || f == Exit) && Kept(before, f, s) && Undisturbed(w)
    ensures var r := Run(s, w); LedsOk(r) && Located(r) && (Kept(before, f, r) || Seen(before, f, r))
  {
    hide Step, LedsOk, Located, Kept, Seen;
    if w != [] {
      var r, m := Run(s, w[..|w| - 1]), w[|w| - 1];
      UndisturbedPrefix(w);
      KeptRun(before, f, s, w[..|w| - 1]);
      MoveKeepsLeds(r, m);
      if Seen(before, f, r) {
        SeenStays(before, f, r, m);
      } else {
        WakeKeeps(before, f, r);
        QuietKeeps(before, f, r, m);
      }
    }
  }

  lemma QuietKeeps(before: State, f: Flag, s: State, m: Move)
    requires Located(s) && (f == Next || f == Exit) && Quiet(m)
    ensures Kept(before, f, s) ==> Kept(before, f, Step(s, m)) || Seen(before, f, Step(s, m))
    ensures Doomed(before, f, s) ==> Doomed(before, f, Step(s, m))
  {
    hide ThreadStep, Located, Kept, Seen, Doomed;
    WakeKeeps(before, f, s);
    if m.Thread? {
      if Kept(before, f, s) {
        KeptThread(before, f, s, m.bit);
      }
      if Doomed(before, f, s) {
        DoomedThread(before, f, s, m.bit);
      }
    }
  }

  /** A doomed store is never seen, however the run goes on undisturbed. */
  lemma {:induction false} DoomedRun(before: State, f: Flag, s: State, w: seq<Move>)
    requires LedsOk(s) && Located(s) && (f == Next || f == Exit) && Doomed(before, f, s) && Undisturbed(w)
    ensures var r := Run(s, w); LedsOk(r) && Located(r) && Doomed(before, f, r)
  {
    hide Step, LedsOk, Located, Doomed;
    if w != [] {
      var r, m := Run(s, w[..|w| - 1]), w[|w| - 1];
      UndisturbedPrefix(w);
      DoomedRun(before, f, s, w[..|w| - 1]);
      MoveKeepsLeds(r, m);
      QuietKeeps(before, f, r, m);
    }
  }

  /** A stuck thread with an unseen flag stays as it is. */
  lemma {:induction false} StuckRun(s: State, w: seq<Move>)
    requires Stuck(s) && Undisturbed(w)
    ensures Run(s, w) == s
  {
    if w != [] {
      UndisturbedPrefix(w);
      StuckRun(s, w[..|w| - 1]);
    }
  }

  /** Thread steps alone bring a kept store to a look at the flag, if pattern 6 is shown falling edges. */
  lemma {:induction false} FindSeen(before: State, f: Flag, s: State) returns (w: seq<Move>)
    requires LedsOk(s) && Located(s) && (f == Next || f == Exit) && Kept(before, f, s) && !Blocked(s)
    ensures Undisturbed(w) && Seen(before, f, Run(s, w))
    decreases Rank(s, f)
  {
    hide LedsOk, Located, Kept, Seen, Rank, ThreadStep;
    var m := Thread(s.loc.ReadOld?);
    var s' := Step(s, m);
    w := [m];
    KeptThread(before, f, s, s.loc.ReadOld?);
    MoveKeepsLeds(s, m);
    RunOne(s, m);
    if !Seen(before, f, s') {
      var rest := FindSeen(before, f, s');
      w := [m] + rest;
      RunConcat(s, [m], rest);
    }
  }

  /** And a doomed one to the store of WAIT. */
  lemma {:induction false} FindErased(before: State, f: Flag, s: State) returns (w: seq<Move>)
    requires LedsOk(s) && Located(s) && (f == Next || f == Exit) && Doomed(before, f, s)
    ensures Undisturbed(w) && Erased(before, Run(s, w))
    decreases if s.flag == Wait then 0 else Rank(s, f) + 1
  {
    hide LedsOk, Located, Rank, ThreadStep;
    w := [];
    if s.flag != Wait {
      var m := Thread(s.loc.ReadOld?);
      var s' := Step(s, m);
      DoomedThread(before, f, s, s.loc.ReadOld?);
      MoveKeepsLeds(s, m);
      RunOne(s, m);
      var rest := FindErased(before, f, s');
      w := [m] + rest;
      RunConcat(s, [m], rest);
    }
  }

  lemma KeptIsFound(before: State, f: Flag, s: State) returns (w: seq<Move>)
    requires LedsOk(s) && Located(s) && (f == Next || f == Exit) && Kept(before, f, s) && !Stuck(s)
    ensures Undisturbed(w) && Seen(before, f, Run(s, w))
  {
    hide LedsOk, Located, Kept, Seen, Step;
    WakeKeeps(before, f, s);
    MoveKeepsLeds(s, WakeUp);
    RunOne(s, WakeUp);
    var rest := FindSeen(before, f, Step(s, WakeUp));
    w := [WakeUp] + rest;
    RunConcat(s, [WakeUp], rest);
  }

  lemma StoreStands(s: State, m: Move)
    requires IsStore(m) && !Ended(s.loc)
    ensures var s1, f := Step(s, m), Stored(m);
            && (Lossy(s, f) ==> Doomed(s, f, s1)) && (!Lossy(s, f) ==> Kept(s, f, s1))
            && Stuck(s1) == Strands(s, m) && (Stuck(s1) ==> !Lossy(s, f))
  {
  }

  /** Exactly which stores are seen. From any reachable state in which the thread has not ended, a stored NEXT or
      EXIT that no other store disturbs
      - can be seen by a test or by the return if and only if it is neither lossy nor stranded, and
      - can be erased by the thread's own WAIT if and only if it is lossy. */
  lemma {:induction false} StoreSeenExactly(moves: seq<Move>, m: Move)
    requires IsStore(m) && !Ended(Run(INITIAL, moves).loc)
    ensures var s, f := Run(INITIAL, moves), Stored(m);
            (exists w :: Undisturbed(w) && Seen(s, f, Run(Step(s, m), w))) <==> !Lossy(s, f) && !Strands(s, m)
    ensures var s, f := Run(INITIAL, moves), Stored(m);
            (exists w :: Undisturbed(w) && Erased(s, Run(Step(s, m), w))) <==> Lossy(s, f)
  {
    hide LedsOk, Located, Step, Lossy, Strands, Undisturbed, Run;
    var s, f := Run(INITIAL, moves), Stored(m);
    var s1 := Step(s, m);
    RunKeepsLeds(moves);
    MoveKeepsLeds(s, m);
    StoreStands(s, m);
    if Lossy(s, f) {
      var w := FindErased(s, f, s1);
      forall w | Undisturbed(w) ensures !Seen(s, f, Run(s1, w)) {
        DoomedRun(s, f, s1, w);
      }
    } else {
      forall w | Undisturbed(w) ensures !Erased(s, Run(s1, w)) {
        KeptRun(s, f, s1, w);
      }
      if Stuck(s1) {
        forall w | Undisturbed(w) ensures !Seen(s, f, Run(s1, w)) {
          StuckRun(s1, w);
        }
      } else {
        var w := KeptIsFound(s, f, s1);
      }
    }
  }

  /* ---- which patterns wait ---- */

  predicate AwaitsUpdate(loc: Loc) {
    || loc.StoreWait? || loc.CheckCond? || loc.Enqueue? || loc.Recheck? || loc.Sleep?
    || (loc.Writing? && loc.after.StoreWait?)
  }

  /** Only patterns 1 to 3 wait after an update, and they always do. */
  predicate WaitOk(s: State) {
    && (AwaitsUpdate(s.loc) ==> Waits(s.pattern))
    && (s.loc.Writing? && s.loc.after.TestNext? ==> !Waits(s.pattern))
  }

  lemma WriteKeepsAwait(s: State)
    requires s.loc.Writing? && Located(s) && WaitOk(s)
    ensures WaitOk(WritePin(s))
  {
    hide SetPin;
  }

  lemma ThreadKeepsAwait(s: State, bit: bool)
    requires !s.loc.Writing? && WaitOk(s)
    ensures Choosing(s.loc) ==> WaitOk(Choose(s, bit))
    ensures Deciding(s.loc) ==> WaitOk(Decide(s))
  {
    hide Update, SwitchOff;
  }

  lemma WaitKeepsAwait(s: State)
    requires AwaitPoint(s.loc) && WaitOk(s)
    ensures WaitOk(Await(s))
  {
  }

  lemma MoveKeepsAwait(s: State, m: Move)
    requires Located(s) && WaitOk(s)
    ensures WaitOk(Step(s, m))
  {
    hide WritePin, Choose, Decide, Await;
    if m.Thread? {
      if s.loc.Writing? {
        WriteKeepsAwait(s);
      } else if AwaitPoint(s.loc) {
        WaitKeepsAwait(s);
      } else {
        ThreadKeepsAwait(s, m.bit);
      }
    }
  }

  lemma {:induction false} OnlyEarlyPatternsWait(moves: seq<Move>)
    ensures WaitOk(Run(INITIAL, moves))
  {
    hide Step, Located;
    if moves != [] {
      var before := moves[..|moves| - 1];
      OnlyEarlyPatternsWait(before);
      RunKeepsLeds(before);
      MoveKeepsAwait(Run(INITIAL, before), moves[|moves| - 1]);
    }
  }

  /* ---- undisturbed progress ---- */

  /** `n` steps of the thread alone, with all inputs low. */
  function Drive(s: State, n: nat): State
    decreases n
  {
    if n == 0 then s else Drive(ThreadStep(s, false), n - 1)
  }

  function ThreadMoves(n: nat): seq<Move> { seq(n, _ => Thread(false)) }

  lemma {:induction false} DriveIsRun(s: State, n: nat)
    ensures Drive(s, n) == Run(s, ThreadMoves(n))
    decreases n
  {
    hide ThreadStep;
    if n > 0 {
      DriveIsRun(ThreadStep(s, false), n - 1);
      assert ThreadMoves(n) == [Thread(false)] + ThreadMoves(n - 1);
      RunConcat(s, [Thread(false)], ThreadMoves(n - 1));
      assert [Thread(false)][..0] == [];
      assert Run(s, [Thread(false)]) == Step(s, Thread(false));
    }
  }

  lemma DriveStep(s: State, next: State, n: nat)
    requires n > 0 && ThreadStep(s, false) == next
    ensures Drive(s, n) == Drive(next, n - 1)
  {
    hide ThreadStep;
  }

  /** Four steps write one group. */
  lemma DriveGroup(s: State, n: nat)
    requires s.loc.Writing? && s.loc.pin == 0 && s.loc.groups != [] && n >= 4
    ensures var g, on := s.loc.groups[0], s.loc.groups[0].on;
            var quad := Quad(on, on, on, on);
            Drive(s, n) ==
            Drive(State(s.pattern,
                        if |s.loc.groups| > 1 then Writing(0, s.loc.groups[1..], s.loc.after) else s.loc.after,
                        s.lit, s.oldInput, if g.left then quad else s.left, if g.left then s.right else quad,
                        s.flag, s.queued, s.pendingWakes, s.log), n - 4)
  {
    var groups, after := s.loc.groups, s.loc.after;
    var s1 := WritePin(s);
    assert s1.loc == Writing(1, groups, after);
    var s2 := WritePin(s1);
    assert s2.loc == Writing(2, groups, after);
    var s3 := WritePin(s2);
    assert s3.loc == Writing(3, groups, after);
    var s4 := WritePin(s3);
    hide Drive;
    DriveStep(s, s1, n);
    DriveStep(s1, s2, n - 1);
    DriveStep(s2, s3, n - 2);
    DriveStep(s3, s4, n - 3);
  }

  lemma {:induction false} DriveSplit(s: State, m: nat, n: nat)
    ensures Drive(s, m + n) == Drive(Drive(s, m), n)
    decreases m
  {
    hide ThreadStep;
    if m > 0 {
      DriveSplit(ThreadStep(s, false), m - 1, n);
    }
  }

  lemma DriveNothing(s: State)
    ensures Drive(s, 0) == s
  {
  }

  /** Switching a pattern off takes four steps a group and leaves everything dark. */
  lemma DriveSwitchOff(s: State)
    requires LedsOk(s) && s.loc == Writing(0, SwitchOff(s.pattern), Return)
    ensures Drive(s, 4 * |SwitchOff(s.pattern)|) == s.(loc := Return, left := DARK, right := DARK)
  {
    var groups := SwitchOff(s.pattern);
    DriveGroup(s, 4 * |groups|);
    if |groups| == 2 {
      var s1 := s.(loc := Writing(0, groups[1..], Return), left := DARK);
      DriveGroup(s1, 4);
    }
  }

  /** A woken thread that finds NEXT: four steps to the switch-off writes. */
  lemma DriveToSwitchOff(s: State)
    requires s.loc.Sleep? && !s.queued && s.flag == Next
    ensures Drive(s, 4) ==
            s.(queued := false, loc := Writing(0, SwitchOff(s.pattern), Return), log := s.log + [Tested(Next)])
  {
    hide SwitchOff, Drive;
    var s1 := s.(loc := Enqueue);
    var s2 := s.(loc := Recheck, queued := true);
    var s3 := s.(loc := TestNext);
    var s4 := s.(queued := false, loc := Writing(0, SwitchOff(s.pattern), Return), log := s.log + [Tested(Next)]);
    DriveStep(s, s1, 4);
    DriveStep(s1, s2, 3);
    DriveStep(s2, s3, 2);
    DriveStep(s3, s4, 1);
    DriveNothing(s4);
  }

  lemma WakeWithNext(s: State)
    requires Blocked(s)
    ensures Run(s, [StoreFlag(Next), WakeUp]) == s.(flag := Next, queued := false)
  {
    RunTwo(s, StoreFlag(Next), WakeUp);
  }

  lemma DriveReturn(s: State)
    requires s.loc.Return? && s.flag != Exit
    ensures Drive(s, 1) == s.(pattern := NextPattern(s.pattern), loc := Entry,
                              log := s.log + [Returned(s.flag), Entered(NextPattern(s.pattern))])
  {
    assert Drive(s, 1) == Drive(ThreadStep(s, false), 0);
  }

  /** From a woken thread that finds NEXT to the entry of the next pattern. */
  lemma DriveToNext(s: State)
    requires LedsOk(s) && s.loc.Sleep? && !s.queued && s.flag == Next
    ensures var done := Drive(s, 5 + 4 * |SwitchOff(s.pattern)|);
            && done.loc.Entry? && done.pattern == NextPattern(s.pattern) && AllDark(done)
            && done.log == s.log + [Tested(Next), Returned(Next), Entered(done.pattern)]
  {
    hide Drive, LedsOk, SwitchOff;
    var g := |SwitchOff(s.pattern)|;
    var off := s.(queued := false, loc := Writing(0, SwitchOff(s.pattern), Return), log := s.log + [Tested(Next)]);
    DriveToSwitchOff(s);
    SleepSwitchesOff(s, off);
    DriveSwitchOff(off);
    DriveSplit(s, 4, 4 * g + 1);
    DriveSplit(off, 4 * g, 1);
    DriveReturn(off.(loc := Return, left := DARK, right := DARK));
    assert s.log + [Tested(Next)] + [Returned(Next), Entered(NextPattern(s.pattern))]
        == s.log + [Tested(Next), Returned(Next), Entered(NextPattern(s.pattern))];
  }

  /** NEXT is delivered: from any reachable blocked state, a NEXT write whose wake-up is not disturbed takes the
      thread, by its own steps alone, into the next pattern with all LEDs off. */
  lemma {:induction false} NextDelivers(moves: seq<Move>)
    requires Blocked(Run(INITIAL, moves))
    ensures var s := Run(INITIAL, moves);
            var done := Drive(Run(s, [StoreFlag(Next), WakeUp]), 5 + 4 * |SwitchOff(s.pattern)|);
            && done.loc.Entry? && done.pattern == NextPattern(s.pattern) && AllDark(done)
            && done.log == s.log + [Tested(Next), Returned(Next), Entered(done.pattern)]
  {
    hide Drive, Run, LedsOk, SwitchOff;
    var s := Run(INITIAL, moves);
    RunKeepsLeds(moves);
    WakeWithNext(s);
    var woken := s.(flag := Next, queued := false);
    assert LedsOk(woken) by { FlagsDoNotMatter(s, woken); }
    DriveToNext(woken);
  }

  /* ---- KEY and module exit from a blocked state ---- */

  lemma DriveToTestExit(s: State)
    requires s.loc.Sleep? && !s.queued && (s.flag == Key || s.flag == Exit)
    ensures Drive(s, 4) == s.(queued := false, loc := TestExit)
  {
    hide Drive;
    var s1 := s.(loc := Enqueue);
    var s2 := s.(loc := Recheck, queued := true);
    var s3 := s.(loc := TestNext);
    var s4 := s.(loc := TestExit);
    DriveStep(s, s1, 4);
    DriveStep(s1, s2, 3);
    DriveStep(s2, s3, 2);
    DriveStep(s3, s4, 1);
    DriveNothing(s4);
  }

  lemma DriveOne(s: State)
    ensures Drive(s, 1) == ThreadStep(s, false)
  {
    hide ThreadStep;
    assert Drive(s, 1) == Drive(ThreadStep(s, false), 0);
  }

  function Flip(q: Quad): Quad { Quad(!q.p0, !q.p1, !q.p2, !q.p3) }

  /** The picture after one more LED update in a waiting pattern: its groups inverted, the other one unchanged. */
  function Toggled(s: State): State {
    s.(lit := !s.lit, left := if s.pattern == 2 then s.left else Flip(s.left),
       right := if s.pattern == 1 then s.right else Flip(s.right))
  }

  /** At the head of a waiting pattern `lit` says what the LEDs show. */
  lemma HeadShows(s: State)
    requires LedsOk(s) && s.loc.Body? && Waits(s.pattern)
    requires s.left.p0 != s.right.p0 || s.pattern <= 2
    ensures Uniform(s.left) && Uniform(s.right) && 1 <= s.pattern <= 3
    ensures if s.pattern == 2 then s.right.p0 == s.lit else s.left.p0 == s.lit
    ensures s.pattern == 3 ==> s.right.p0 == !s.lit
  {
  }

  /** An update of one group. */
  lemma DriveOneGroup(s: State, left: bool)
    requires s.loc.Body? && s.pattern == (if left then 1 else 2)
    requires Uniform(s.left) && Uniform(s.right) && (if left then s.left.p0 else s.right.p0) == s.lit
    ensures Drive(s, 5) == Toggled(s).(loc := StoreWait)
  {
    var s1 := s.(loc := Writing(0, [GroupWrite(left, !s.lit)], StoreWait), lit := !s.lit);
    assert ThreadStep(s, false) == s1;
    var on, quad := !s.lit, Quad(!s.lit, !s.lit, !s.lit, !s.lit);
    var s2 := s1.(loc := StoreWait, left := if left then quad else s.left, right := if left then s.right else quad);
    assert s2 == Toggled(s).(loc := StoreWait);
    hide Drive, ThreadStep, Toggled, Uniform;
    DriveStep(s, s1, 5);
    DriveGroup(s1, 4);
    DriveNothing(s2);
  }

  /** An update of both. */
  lemma DriveBothGroups(s: State)
    requires s.loc.Body? && s.pattern == 3
    requires Uniform(s.left) && Uniform(s.right) && s.left.p0 == s.lit && s.right.p0 == !s.lit
    ensures Drive(s, 9) == Toggled(s).(loc := StoreWait)
  {
    var lit, on, off := s.lit, Quad(!s.lit, !s.lit, !s.lit, !s.lit), Quad(s.lit, s.lit, s.lit, s.lit);
    var groups := [GroupWrite(true, !lit), GroupWrite(false, lit)];
    var s1 := s.(loc := Writing(0, groups, StoreWait), lit := !lit);
    assert ThreadStep(s, false) == s1;
    assert groups[1..] == [GroupWrite(false, lit)];
    var s2 := s1.(loc := Writing(0, groups[1..], StoreWait), left := on);
    var s3 := s2.(loc := StoreWait, right := off);
    assert s3 == Toggled(s).(loc := StoreWait);
    hide Drive, ThreadStep, Toggled, Uniform;
    DriveStep(s, s1, 9);
    DriveGroup(s1, 8);
    DriveGroup(s2, 4);
    DriveNothing(s3);
  }

  lemma DriveUpdate(s: State)
    requires LedsOk(s) && s.loc.Body? && Waits(s.pattern)
    requires s.left.p0 != s.right.p0 || s.pattern <= 2
    ensures Drive(s, 1 + 4 * |Update(s.pattern, s.lit, false).0|) == Toggled(s).(loc := StoreWait)
  {
    HeadShows(s);
    hide LedsOk, Drive, Toggled;
    if s.pattern <= 2 {
      DriveOneGroup(s, s.pattern == 1);
    } else {
      DriveBothGroups(s);
    }
  }

  /** KEY is delivered: from any reachable blocked state, a KEY write whose wake-up is not disturbed takes the thread,
      by its own steps alone, through the next LED update of the same pattern. */
  lemma {:induction false} KeyDelivers(moves: seq<Move>)
    requires Blocked(Run(INITIAL, moves))
    ensures var s := Run(INITIAL, moves);
            Drive(Run(s, [StoreFlag(Key), WakeUp]), 6 + 4 * |Update(s.pattern, s.lit, false).0|)
            == Toggled(s).(flag := Key, queued := false, loc := StoreWait)
  {
    hide Drive, Run, LedsOk, Update, Shape;
    var s := Run(INITIAL, moves);
    RunKeepsLeds(moves);
    OnlyEarlyPatternsWait(moves);
    RunTwo(s, StoreFlag(Key), WakeUp);
    var woken := s.(flag := Key, queued := false);
    var body := woken.(loc := Body);
    var g := |Update(s.pattern, s.lit, false).0|;
    DriveToTestExit(woken);
    DriveOne(woken.(loc := TestExit));
    DriveSplit(woken, 4, 1);
    DriveSplit(woken, 5, 1 + 4 * g);
    SleepIsHead(s, body);
    DriveUpdate(body);
  }

  lemma SleepIsHead(s: State, body: State)
    requires LedsOk(s) && s.loc.Sleep? && body.loc.Body? && body.left == s.left && body.right == s.right
    requires body.pattern == s.pattern && body.lit == s.lit
    ensures LedsOk(body) && (body.left.p0 != body.right.p0 || body.pattern <= 2)
  {
    UpdatedIsHead(s.pattern, s.lit, s.left.p0, s.right.p0);
  }

  /** Module exit is delivered: from any reachable blocked state, an undisturbed exit ends the thread with all LEDs
      off. */
  lemma {:induction false} ExitDelivers(moves: seq<Move>)
    requires Blocked(Run(INITIAL, moves))
    ensures var s := Run(INITIAL, moves);
            Drive(Run(s, [ExitModule, WakeUp]), 14 + 4 * |SwitchOff(s.pattern)|)
            == s.(flag := Exit, queued := false, loc := Done, left := DARK, right := DARK,
                  log := s.log + [Tested(Exit), Returned(Exit)])
  {
    hide Drive, Run, LedsOk, SwitchOff;
    var s := Run(INITIAL, moves);
    var g := |SwitchOff(s.pattern)|;
    RunKeepsLeds(moves);
    RunTwo(s, ExitModule, WakeUp);
    var woken := s.(flag := Exit, queued := false);
    var off := woken.(loc := Writing(0, SwitchOff(s.pattern), Return), log := s.log + [Tested(Exit)]);
    DriveToTestExit(woken);
    DriveOne(woken.(loc := TestExit));
    SleepSwitchesOff(s, off);
    DriveSwitchOff(off);
    DriveToDone(off.(loc := Return, left := DARK, right := DARK));
    DriveSplit(woken, 4, 1);
    DriveSplit(woken, 5, 4 * g + 9);
    DriveSplit(off, 4 * g, 9);
    assert s.log + [Tested(Exit)] + [Returned(Exit)] == s.log + [Tested(Exit), Returned(Exit)];
  }

  lemma DriveToDone(s: State)
    requires s.loc.Return? && s.flag == Exit && AllDark(s)
    ensures Drive(s, 9) == s.(loc := Done, log := s.log + [Returned(Exit)])
  {
    hide Drive;
    OffBoth();
    var s1 := s.(loc := Writing(0, SwitchOff(3), Done), log := s.log + [Returned(Exit)]);
    DriveStep(s, s1, 9);
    DriveGroup(s1, 8);
    DriveGroup(s1.(loc := Writing(0, [GroupWrite(false, false)], Done)), 4);
    DriveNothing(s1.(loc := Done));
  }

  lemma FlagsDoNotMatter(s: State, s': State)
    requires LedsOk(s) && s'.left == s.left && s'.right == s.right
    requires s'.pattern == s.pattern && s'.lit == s.lit && s'.loc == s.loc
    ensures LedsOk(s')
  {
  }

  lemma SleepSwitchesOff(s: State, off: State)
    requires LedsOk(s) && s.loc.Sleep? && off.left == s.left && off.right == s.right
    requires off.pattern == s.pattern && off.lit == s.lit && off.loc == Writing(0, SwitchOff(s.pattern), Return)
    ensures LedsOk(off)
  {
    hide SwitchOff, Settled, Shape;
    SwitchOffShape(s.pattern, s.lit, s.left, s.right);
  }

  /** A blocked thread does nothing by itself. */
  lemma {:induction false} BlockedStays(s: State, n: nat)
    requires Blocked(s)
    ensures Drive(s, n) == s
    decreases n
  {
    if n > 0 {
      BlockedStays(s, n - 1);
    }
  }

  const FIRST_UPDATE :=
    State(1, StoreWait, true, false, Quad(true, true, true, true), DARK, Wait, false, 0, [Entered(1)])

  const FIRST_SLEEP := FIRST_UPDATE.(loc := Sleep, queued := true)

  lemma DriveFirstUpdate()
    ensures Drive(INITIAL, 6) == FIRST_UPDATE
  {
    hide Drive;
    var s1 := INITIAL.(loc := Body);
    var s2 := s1.(loc := Writing(0, [GroupWrite(true, true)], StoreWait), lit := true);
    DriveStep(INITIAL, s1, 6);
    DriveStep(s1, s2, 5);
    DriveGroup(s2, 4);
    DriveNothing(FIRST_UPDATE);
  }

  lemma DriveFirstSleep(f: Flag)
    ensures Drive(FIRST_UPDATE.(flag := f), 4) == FIRST_SLEEP
  {
    hide Drive;
    var t0, t1 := FIRST_UPDATE.(flag := f), FIRST_UPDATE.(loc := CheckCond);
    var t2, t3 := FIRST_UPDATE.(loc := Enqueue), FIRST_UPDATE.(loc := Recheck, queued := true);
    DriveStep(t0, t1, 4);
    DriveStep(t1, t2, 3);
    DriveStep(t2, t3, 2);
    DriveStep(t3, FIRST_SLEEP, 1);
    DriveNothing(FIRST_SLEEP);
  }

  /** The default branch can strand the thread: some run leaves it blocked for good with the flag at EXIT. */
  lemma ExitCanStrand()
    ensures exists moves :: var s := Run(INITIAL, moves);
              && Blocked(s) && s.flag == Exit && s.pendingWakes == 0
              && forall n :: Drive(s, n) == s
  {
    hide Step, ThreadStep, Drive;
    var moves := ThreadMoves(10) + [StoreFlag(Exit)];
    DriveIsRun(INITIAL, 10);
    DriveSplit(INITIAL, 6, 4);
    DriveFirstUpdate();
    DriveFirstSleep(Wait);
    assert Run(INITIAL, ThreadMoves(10)) == FIRST_SLEEP;
    assert moves[..10] == ThreadMoves(10);
    var s := Run(INITIAL, moves);
    assert s == Step(FIRST_SLEEP, StoreFlag(Exit));
    StoreExit(FIRST_SLEEP);
    forall n ensures Drive(s, n) == s { BlockedStays(s, n); }
  }

  lemma StoreExit(s: State)
    ensures Step(s, StoreFlag(Exit)) == s.(flag := Exit)
  {
  }

  /** A NEXT written while the thread is between its LED update and its own store of WAIT is lost: some run in
      which the only writer stores NEXT and wakes leaves the thread blocked in pattern 1, flag WAIT. */
  lemma NextCanBeLost()
    ensures Run(INITIAL, ThreadMoves(6) + [StoreFlag(Next), WakeUp] + ThreadMoves(4)) == FIRST_SLEEP
    ensures Blocked(FIRST_SLEEP) && FIRST_SLEEP.flag == Wait && FIRST_SLEEP.log == [Entered(1)]
  {
    hide Drive, Step, ThreadStep, Run, ThreadMoves;
    var v, w := ThreadMoves(6), [StoreFlag(Next), WakeUp];
    DriveFirstUpdate();
    DriveIsRun(INITIAL, 6);
    LoseNext();
    RunConcat(INITIAL, v, w);
    RunConcat(INITIAL, v + w, ThreadMoves(4));
    DriveIsRun(FIRST_UPDATE.(flag := Next), 4);
    DriveFirstSleep(Next);
  }

  lemma LoseNext()
    ensures Run(FIRST_UPDATE, [StoreFlag(Next), WakeUp]) == FIRST_UPDATE.(flag := Next)
  {
    RunTwo(FIRST_UPDATE, StoreFlag(Next), WakeUp);
  }
}
