/** What each LED update shows, pattern by pattern, and when pattern 6 makes one. */
module LedPictures {
  import opened LedPatterns
  import opened LedDelivery

  function All(on: bool): Quad { Quad(on, on, on, on) }

  /** An update begun on input `bit` and followed by `n` further steps of the thread. */
  function AfterUpdate(s: State, bit: bool, n: nat): State { Run(s, [Thread(bit)] + ThreadMoves(n)) }

  lemma UpdateIsDrive(s: State, bit: bool, n: nat)
    ensures AfterUpdate(s, bit, n) == Drive(ThreadStep(s, bit), n)
  {
    hide ThreadStep, Drive;
    RunConcat(s, [Thread(bit)], ThreadMoves(n));
    RunOne(s, Thread(bit));
    DriveIsRun(ThreadStep(s, bit), n);
  }

  /** Four steps write the only group, or the first of two. */
  lemma FirstGroup(s: State)
    requires s.loc.Writing? && s.loc.pin == 0 && s.loc.groups != []
    ensures var g, r := s.loc.groups[0], Drive(s, 4);
            && r.left == (if g.left then All(g.on) else s.left) && r.right == (if g.left then s.right else All(g.on))
            && r.loc == (if |s.loc.groups| > 1 then Writing(0, s.loc.groups[1..], s.loc.after) else s.loc.after)
            && r == s.(left := r.left, right := r.right, loc := r.loc)
  {
    hide Drive;
    DriveGroup(s, 4);
    var g, on := s.loc.groups[0], s.loc.groups[0].on;
    DriveNothing(s.(loc := if |s.loc.groups| > 1 then Writing(0, s.loc.groups[1..], s.loc.after) else s.loc.after,
                    left := if g.left then Quad(on, on, on, on) else s.left,
                    right := if g.left then s.right else Quad(on, on, on, on)));
  }

  /** Eight write the left group and then the right one. */
  lemma BothGroups(s: State, l: bool, r: bool)
    requires s.loc.Writing? && s.loc.pin == 0 && s.loc.groups == [GroupWrite(true, l), GroupWrite(false, r)]
    ensures var half := Drive(s, 4);
            && half.left == All(l) && half.right == s.right
            && Drive(s, 8) == s.(left := All(l), right := All(r), loc := s.loc.after)
  {
    hide Drive;
    FirstGroup(s);
    FirstGroup(Drive(s, 4));
    DriveSplit(s, 4, 4);
  }

  /** Patterns 1 and 2 invert their own group and leave the other one dark. */
  lemma {:induction false} BlinkPicture(moves: seq<Move>, bit: bool)
    requires var s := Run(INITIAL, moves); s.loc.Body? && s.pattern <= 2
    ensures var s := Run(INITIAL, moves);
            s.pattern == 1 ==>
              AfterUpdate(s, bit, 4).left == All(!s.left.p0) && AfterUpdate(s, bit, 4).right == DARK
    ensures var s := Run(INITIAL, moves);
            s.pattern == 2 ==>
              AfterUpdate(s, bit, 4).left == DARK && AfterUpdate(s, bit, 4).right == All(!s.right.p0)
    ensures var s := Run(INITIAL, moves); AfterUpdate(s, bit, 4).loc.StoreWait?
  {
    var s := Run(INITIAL, moves);
    RunKeepsLeds(moves);
    HeadPicture(s);
    UpdateIsDrive(s, bit, 4);
    FirstGroup(ThreadStep(s, bit));
    hide Drive, AfterUpdate, Run, LedsOk, Located;
  }

  lemma HeadPicture(s: State)
    requires LedsOk(s) && s.loc.Body?
    ensures Uniform(s.left) && Uniform(s.right) && 1 <= s.pattern <= 6
    ensures s.pattern == 1 ==> s.left.p0 == s.lit && !s.right.p0
    ensures s.pattern == 2 ==> !s.left.p0 && s.right.p0 == s.lit
    ensures s.pattern >= 3 && s.pattern != 5 && s.left.p0 != s.right.p0 ==> s.left.p0 == s.lit
    ensures s.pattern >= 3 ==> s.left.p0 != s.right.p0 || (!s.left.p0 && !s.right.p0 && (s.pattern <= 4 ==> !s.lit))
  {
  }

  /** Patterns 3, 4 and 6 write the left group first and then the right one. Once one of them is lit they change places
      at every update; the first update lights the left group in patterns 3 and 4, and one of them in pattern 6. */
  lemma {:induction false} SwapPicture(moves: seq<Move>, bit: bool)
    requires var s := Run(INITIAL, moves); s.loc.Body? && s.pattern in {3, 4, 6}
    ensures var s := Run(INITIAL, moves);
            var half, done := AfterUpdate(s, bit, 4), AfterUpdate(s, bit, 8);
            && half.left == done.left && half.right == s.right
            && done.left == All(done.left.p0) && done.right == All(!done.left.p0)
            && (s.left.p0 != s.right.p0 ==> done.left.p0 == s.right.p0)
            && (s.left.p0 == s.right.p0 && s.pattern != 6 ==> done.left.p0)
            && (if s.pattern == 3 then done.loc.StoreWait? else done.loc.TestNext?)
  {
    var s := Run(INITIAL, moves);
    RunKeepsLeds(moves);
    HeadPicture(s);
    UpdateIsDrive(s, bit, 4);
    UpdateIsDrive(s, bit, 8);
    BothGroups(ThreadStep(s, bit), !s.lit, s.lit);
    hide Drive, AfterUpdate, Run, LedsOk, Located;
  }

  /** Pattern 5 shows its input: the left group while it is ON, the right one while it is OFF. */
  lemma {:induction false} InputPicture(moves: seq<Move>, bit: bool)
    requires var s := Run(INITIAL, moves); s.loc.Body? && s.pattern == 5
    ensures var s := Run(INITIAL, moves);
            var half, done := AfterUpdate(s, bit, 4), AfterUpdate(s, bit, 8);
            && half.left == Quad(bit, bit, bit, bit) && half.right == s.right
            && done.left == Quad(bit, bit, bit, bit) && done.right == Quad(!bit, !bit, !bit, !bit)
            && done.loc.TestNext?
  {
    var s := Run(INITIAL, moves);
    UpdateIsDrive(s, bit, 4);
    UpdateIsDrive(s, bit, 8);
    BothGroups(ThreadStep(s, bit), bit, !bit);
    hide Drive, AfterUpdate, Run;
  }

  /** Between updates and switching off nothing changes an output. */
  lemma OnlyWritesChange(s: State, m: Move)
    requires !s.loc.Writing? || !m.Thread?
    ensures Step(s, m).left == s.left && Step(s, m).right == s.right
  {
    hide Update, SwitchOff;
  }

  /* ---- the falling edge of pattern 6 ---- */

  /** What the input readings of pattern 6 have returned so far. */
  function Readings(moves: seq<Move>): seq<bool> {
    if moves == [] then []
    else
      var before, m := moves[..|moves| - 1], moves[|moves| - 1];
      var loc := Run(INITIAL, before).loc;
      if m.Thread? && (loc.ReadOld? || loc.ReadNew?) then Readings(before) + [m.bit] else Readings(before)
  }

  /** After the first of two readings the local holds it; before an update both are known. */
  ghost predicate EdgeOk(s: State, readings: seq<bool>) {
    && (s.loc.ReadNew? ==> readings != [] && readings[|readings| - 1] == s.oldInput)
    && (s.loc.Body? && s.pattern == 6 ==>
          |readings| >= 2 && readings[|readings| - 2] && !readings[|readings| - 1])
  }

  lemma {:induction false} ChooseEdge(s: State, bit: bool, readings: seq<bool>)
    requires Located(s) && EdgeOk(s, readings) && Choosing(s.loc)
    ensures EdgeOk(Choose(s, bit), if s.loc.ReadOld? || s.loc.ReadNew? then readings + [bit] else readings)
  {
    hide Update;
  }

  /** No other step leads into the readings' end or to an update of pattern 6. */
  predicate OffEdge(s: State) { !s.loc.ReadNew? && (s.loc.Body? ==> s.pattern != 6) }

  lemma WriteOffEdge(s: State)
    requires Located(s) && s.loc.Writing?
    ensures OffEdge(WritePin(s))
  {
    hide SetPin;
  }

  lemma OtherOffEdge(s: State)
    ensures Deciding(s.loc) ==> OffEdge(Decide(s))
    ensures AwaitPoint(s.loc) ==> OffEdge(Await(s))
  {
    hide SwitchOff;
  }

  lemma OtherSteps(s: State, bit: bool)
    requires Located(s) && !Choosing(s.loc)
    ensures OffEdge(ThreadStep(s, bit))
  {
    hide WritePin, Decide, Await, OffEdge, Located;
    if s.loc.Writing? {
      WriteOffEdge(s);
    } else {
      OtherOffEdge(s);
    }
  }

  lemma {:induction false} StepEdge(s: State, m: Move, readings: seq<bool>)
    requires Located(s) && EdgeOk(s, readings)
    ensures EdgeOk(Step(s, m),
                   if m.Thread? && (s.loc.ReadOld? || s.loc.ReadNew?) then readings + [m.bit] else readings)
  {
    if m.Thread? && Choosing(s.loc) {
      hide Choose, EdgeOk;
      ChooseEdge(s, m.bit, readings);
    } else if m.Thread? {
      OtherSteps(s, m.bit);
      hide ThreadStep;
    }
  }

  /** Pattern 6 updates exactly on a falling edge: the thread comes to an update only when the last two readings were ON
      and then OFF, and it comes to one from its second reading whenever they are. */
  lemma {:induction false} FallingEdge(moves: seq<Move>)
    ensures var s, r := Run(INITIAL, moves), Readings(moves);
            s.pattern == 6 && s.loc.Body? ==> |r| >= 2 && r[|r| - 2] == true && r[|r| - 1] == false
    ensures var s, r := Run(INITIAL, moves), Readings(moves);
            s.loc.ReadNew? ==> r != [] && forall bit :: Step(s, Thread(bit)).loc.Body? <==> r[|r| - 1] && !bit
  {
    EdgeAlways(moves);
  }

  lemma {:induction false} EdgeAlways(moves: seq<Move>)
    ensures EdgeOk(Run(INITIAL, moves), Readings(moves))
  {
    hide Step, Located, EdgeOk;
    if moves == [] {
      assert EdgeOk(INITIAL, []) by { EdgeStart(); }
    } else {
      var before := moves[..|moves| - 1];
      EdgeAlways(before);
      RunKeepsLeds(before);
      StepEdge(Run(INITIAL, before), moves[|moves| - 1], Readings(before));
    }
  }

  lemma EdgeStart()
    ensures EdgeOk(INITIAL, [])
  {
  }
}
