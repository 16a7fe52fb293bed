/** The LED pattern thread and its writers as interleaved steps.

    Every flag read, flag write, wake-up and single GPIO write is a step of its own. `wait_event_interruptible`
    tests its condition, enqueues itself, tests again and only then sleeps; a wake-up dequeues a sleeper. */
module LedPatterns {

  datatype Flag = Wait | Key | Next | Exit

  /** One LEFT_/RIGHT_LED_GROUP_ON/OFF macro: four GPIO writes. */
  datatype GroupWrite = GroupWrite(left: bool, on: bool)

  /** The four outputs of one group. */
  datatype Quad = Quad(p0: bool, p1: bool, p2: bool, p3: bool)

  const DARK := Quad(false, false, false, false)

  datatype Loc =
    | Entry                 // read the LED to initialise `led`/`left`
    | Reset                 // patterns 4 to 6: flag := WAIT before the loop
    | Body                  // choose the next LED update
    | ReadOld | ReadNew     // pattern 6: the two input readings of the do-while
    | Writing(pin: nat, groups: seq<GroupWrite>, after: Loc)
    | StoreWait             // patterns 1 to 3: flag := WAIT after the update
    | CheckCond | Enqueue | Recheck | Sleep   // wait_event_interruptible
    | TestNext | TestExit   // the flag test, one read for each operand
    | Return                // `return wait_queue_flag`, compared with EXIT by the caller
    | Done

  /** What the thread did, as far as pattern order is concerned. */
  datatype Event = Entered(pattern: nat) | Tested(seen: Flag) | Returned(seen: Flag)

  datatype State = State(
    pattern: nat,
    loc: Loc,
    lit: bool,              // the local `led` or `left`
    oldInput: bool,
    left: Quad,
    right: Quad,
    flag: Flag,
    queued: bool,           // the thread is on the wait queue
    pendingWakes: nat,      // writers between their flag store and their wake-up
    log: seq<Event>)

  datatype Move =
    | Thread(bit: bool)     // one thread step; `bit` is what a GPIO input, or an uninitialised local, reads
    | StoreFlag(f: Flag)    // a writer's flag store
    | ExitModule            // simple_io_module_exit: flag := EXIT, then a wake-up
    | WakeUp                // wake_up_interruptible by some writer that has stored its flag

  const INITIAL := State(1, Entry, false, false, DARK, DARK, Wait, false, 0, [Entered(1)])

  function SetPin(q: Quad, pin: nat, on: bool): Quad {
    match pin
    case 0 => q.(p0 := on)
    case 1 => q.(p1 := on)
    case 2 => q.(p2 := on)
    case _ => q.(p3 := on)
  }

  function NextPattern(p: nat): nat { if p >= 6 then 1 else p + 1 }

  predicate Waits(p: nat) { p <= 3 }

  /** The group writes of one LED update, and the new `led`/`left`. */
  function Update(p: nat, lit: bool, bit: bool): (seq<GroupWrite>, bool) {
    if p == 1 then ([GroupWrite(true, !lit)], !lit)
    else if p == 2 then ([GroupWrite(false, !lit)], !lit)
    else if p == 5 then ([GroupWrite(true, bit), GroupWrite(false, !bit)], lit)
    else ([GroupWrite(true, !lit), GroupWrite(false, lit)], !lit)
  }

  function SwitchOff(p: nat): seq<GroupWrite> {
    if p == 1 then [GroupWrite(true, false)]
    else if p == 2 then [GroupWrite(false, false)]
    else [GroupWrite(true, false), GroupWrite(false, false)]
  }

  function LoopHead(p: nat): Loc { if p == 6 then ReadOld else Body }

  /** One GPIO write of a group macro. */
  function WritePin(s: State): State
    requires s.loc.Writing?
  {
    var pin, groups, after := s.loc.pin, s.loc.groups, s.loc.after;
    if groups == [] then s.(loc := after)
    else
      var loc := if pin < 3 then Writing(pin + 1, groups, after)
                 else if |groups| > 1 then Writing(0, groups[1..], after)
                 else after;
      if groups[0].left then s.(left := SetPin(s.left, pin, groups[0].on), loc := loc)
      else s.(right := SetPin(s.right, pin, groups[0].on), loc := loc)
  }

  /** From the entry of a pattern to the choice of its next LED update. */
  function Choose(s: State, bit: bool): State {
    match s.loc
    case Entry =>
      var led := if s.pattern == 2 then s.right.p0 else s.left.p0;
      s.(loc := if Waits(s.pattern) then Body else Reset,
         lit := if s.pattern == 5 then s.lit else if s.pattern == 6 then bit else led)
    case Reset => s.(flag := Wait, loc := LoopHead(s.pattern))
    case ReadOld => s.(oldInput := bit, loc := ReadNew)
    case ReadNew => s.(loc := if bit == s.oldInput || bit then ReadOld else Body)
    case Body =>
      var (groups, lit) := Update(s.pattern, s.lit, bit);
      s.(loc := Writing(0, groups, if Waits(s.pattern) then StoreWait else TestNext), lit := lit)
    case _ => s
  }

  /** Storing WAIT and waiting for a writer to change it. */
  function Await(s: State): State {
    match s.loc
    case StoreWait => s.(flag := Wait, loc := CheckCond)
    case CheckCond => s.(loc := if s.flag != Wait then TestNext else Enqueue)
    case Enqueue => s.(queued := true, loc := Recheck)
    case Recheck => if s.flag != Wait then s.(queued := false, loc := TestNext) else s.(loc := Sleep)
    case Sleep => if s.queued then s else s.(loc := Enqueue)
    case _ => s
  }

  /** The flag tests, the return and the step to the next pattern. */
  function Decide(s: State): State {
    match s.loc
    case TestNext =>
      if s.flag == Next then s.(loc := Writing(0, SwitchOff(s.pattern), Return), log := s.log + [Tested(Next)])
      else s.(loc := TestExit)
    case TestExit =>
      if s.flag == Exit then s.(loc := Writing(0, SwitchOff(s.pattern), Return), log := s.log + [Tested(Exit)])
      else s.(loc := LoopHead(s.pattern))
    case Return =>
      if s.flag == Exit then
        s.(loc := Writing(0, SwitchOff(3), Done), log := s.log + [Returned(Exit)])
      else
        var p := NextPattern(s.pattern);
        s.(pattern := p, loc := Entry, log := s.log + [Returned(s.flag), Entered(p)])
    case _ => s
  }

  predicate Choosing(loc: Loc) { loc.Entry? || loc.Reset? || loc.ReadOld? || loc.ReadNew? || loc.Body? }

  predicate Deciding(loc: Loc) { loc.TestNext? || loc.TestExit? || loc.Return? }

  /** One step of the pattern thread. */
  function ThreadStep(s: State, bit: bool): State {
    if s.loc.Writing? then WritePin(s)
    else if Choosing(s.loc) then Choose(s, bit)
    else if Deciding(s.loc) then Decide(s)
    else Await(s)
  }

  function Step(s: State, m: Move): State {
    match m
    case Thread(bit) => ThreadStep(s, bit)
    case StoreFlag(f) =>
      s.(flag := f, pendingWakes := if f == Key || f == Next then s.pendingWakes + 1 else s.pendingWakes)
    case ExitModule => s.(flag := Exit, pendingWakes := s.pendingWakes + 1)
    case WakeUp => if s.pendingWakes == 0 then s else s.(pendingWakes := s.pendingWakes - 1, queued := false)
  }

  function Run(s: State, moves: seq<Move>): State {
    if moves == [] then s else Step(Run(s, moves[..|moves| - 1]), moves[|moves| - 1])
  }

  /* ---- LED safety ---- */

  predicate Uniform(q: Quad) { q.p0 == q.p1 == q.p2 == q.p3 }

  /** What the settled LEDs look like at a point of a pattern. */
  datatype Kind = Dark | Fresh | Head | Updated

  function KindOf(loc: Loc): Kind {
    if loc.Entry? || loc.Return? || loc.Done? then Dark
    else if loc.Reset? then Fresh
    else if loc.Body? || loc.ReadOld? || loc.ReadNew? then Head
    else Updated
  }

  /** The settled pictures each pattern allows, with `l` and `r` the two groups. */
  predicate Shape(p: nat, kind: Kind, lit: bool, l: bool, r: bool) {
    match kind
    case Dark => !l && !r
    case Fresh => !l && !r && (p == 4 ==> !lit)
    case Head =>
      if p == 1 then l == lit && !r
      else if p == 2 then !l && r == lit
      else (!l && !r && (p <= 4 ==> !lit)) || (l != r && (p != 5 ==> l == lit))
    case Updated =>
      if p == 1 then l == lit && !r
      else if p == 2 then !l && r == lit
      else l != r && (p != 5 ==> l == lit)
  }

  /** A group's value once the pending writes are done; `q` is its present state. */
  function Settled(q: Quad, groups: seq<GroupWrite>, left: bool): bool {
    if |groups| > 1 && groups[1].left == left then groups[1].on
    else if |groups| > 0 && groups[0].left == left then groups[0].on
    else q.p0
  }

  /** A group whose first `pin` outputs are written and whose others still agree. */
  predicate Partly(q: Quad, pin: nat, on: bool) {
    match pin
    case 0 => Uniform(q)
    case 1 => q.p0 == on && q.p1 == q.p2 == q.p3
    case 2 => q.p0 == on && q.p1 == on && q.p2 == q.p3
    case 3 => q.p0 == on && q.p1 == on && q.p2 == on
    case _ => false
  }

  /** In the middle of group writes: the head group is written up to `pin`, the other one is uniform. */
  predicate Midway(s: State, pin: nat, groups: seq<GroupWrite>) {
    && 1 <= |groups| <= 2 && (|groups| == 2 ==> groups[1].left != groups[0].left)
    && Partly(if groups[0].left then s.left else s.right, pin, groups[0].on)
    && Uniform(if groups[0].left then s.right else s.left)
  }

  /** The LED invariant: at every point the outputs are, or are about to become, an allowed picture. */
  predicate LedsOk(s: State) {
    && 1 <= s.pattern <= 6
    && if s.loc.Writing? then
         && Midway(s, s.loc.pin, s.loc.groups)
         && Shape(s.pattern, KindOf(s.loc.after), s.lit,
                  Settled(s.left, s.loc.groups, true), Settled(s.right, s.loc.groups, false))
       else
         && Uniform(s.left) && Uniform(s.right)
         && Shape(s.pattern, KindOf(s.loc), s.lit, s.left.p0, s.right.p0)
  }

  /** LED updates happen only at the loop body of the matching patterns. */
  predicate Located(s: State) {
    && (s.loc.Reset? ==> !Waits(s.pattern))
    && (s.loc.ReadOld? || s.loc.ReadNew? ==> s.pattern == 6)
    && (s.loc.Writing? ==> s.loc.after.Return? || s.loc.after.Done? || s.loc.after.StoreWait? || s.loc.after.TestNext?)
  }

  lemma SetPinPartly(q: Quad, pin: nat, on: bool)
    requires Partly(q, pin, on)
    ensures pin <= 3
    ensures pin < 3 ==> Partly(SetPin(q, pin, on), pin + 1, on)
    ensures pin == 3 ==> SetPin(q, pin, on) == Quad(on, on, on, on)
  {
  }

  /** Writing the next output of the head group. */
  lemma WriteWithin(s: State)
    requires LedsOk(s) && Located(s) && s.loc.Writing? && s.loc.pin < 3
    ensures LedsOk(WritePin(s)) && Located(WritePin(s))
  {
    hide Shape, Partly, SetPin;
    var pin, groups := s.loc.pin, s.loc.groups;
    SetPinPartly(if groups[0].left then s.left else s.right, pin, groups[0].on);
  }

  /** Writing the last output of the last group. */
  lemma WriteEnd(s: State)
    requires LedsOk(s) && Located(s) && s.loc.Writing? && s.loc.pin >= 3 && |s.loc.groups| <= 1
    ensures LedsOk(WritePin(s)) && Located(WritePin(s))
  {
    hide Shape, Partly, SetPin, KindOf;
    var pin, groups := s.loc.pin, s.loc.groups;
    SetPinPartly(if groups[0].left then s.left else s.right, pin, groups[0].on);
  }

  /** And of the one before. */
  lemma WriteNext(s: State)
    requires LedsOk(s) && Located(s) && s.loc.Writing? && s.loc.pin >= 3 && |s.loc.groups| > 1
    ensures LedsOk(WritePin(s)) && Located(WritePin(s))
  {
    hide Shape, Partly, SetPin, KindOf;
    var pin, groups := s.loc.pin, s.loc.groups;
    SetPinPartly(if groups[0].left then s.left else s.right, pin, groups[0].on);
    PartlyZero(if groups[0].left then s.right else s.left);
  }

  lemma PartlyZero(q: Quad)
    ensures forall on :: Partly(q, 0, on) == Uniform(q)
  {
  }

  /** An update leads from a loop head to an updated picture. */
  lemma UpdateShape(p: nat, lit: bool, bit: bool, left: Quad, right: Quad)
    requires 1 <= p <= 6 && Shape(p, Head, lit, left.p0, right.p0)
    ensures var (groups, lit') := Update(p, lit, bit);
            && 1 <= |groups| <= 2 && (|groups| == 2 ==> groups[1].left != groups[0].left)
            && Shape(p, Updated, lit', Settled(left, groups, true), Settled(right, groups, false))
  {
  }

  lemma SwitchOffShape(p: nat, lit: bool, left: Quad, right: Quad)
    requires 1 <= p <= 6 && Shape(p, Updated, lit, left.p0, right.p0)
    ensures var groups := SwitchOff(p);
            && 1 <= |groups| <= 2 && (|groups| == 2 ==> groups[1].left != groups[0].left)
            && Shape(p, Dark, lit, Settled(left, groups, true), Settled(right, groups, false))
  {
  }

  lemma ChooseKeepsLeds(s: State, bit: bool)
    requires LedsOk(s) && Located(s) && Choosing(s.loc)
    ensures LedsOk(Choose(s, bit)) && Located(Choose(s, bit))
  {
    hide Update, Settled;
    if s.loc.Body? {
      hide Shape;
      UpdateShape(s.pattern, s.lit, bit, s.left, s.right);
    }
  }

  /** A step that touches no LED keeps the invariant if it stays at the same kind of point. */
  lemma QuietLeds(s: State, s': State)
    requires LedsOk(s) && !s.loc.Writing? && !s'.loc.Writing?
    requires s'.left == s.left && s'.right == s.right && s'.pattern == s.pattern && s'.lit == s.lit
    requires KindOf(s'.loc) == KindOf(s.loc)
    ensures LedsOk(s')
  {
  }

  lemma AwaitKeepsLeds(s: State)
    requires LedsOk(s) && Located(s) && !s.loc.Writing? && !Choosing(s.loc) && !Deciding(s.loc)
    ensures LedsOk(Await(s)) && Located(Await(s))
  {
    hide LedsOk;
    QuietLeds(s, Await(s));
  }

  lemma ReturnKeepsLeds(s: State)
    requires LedsOk(s) && Located(s) && s.loc.Return?
    ensures LedsOk(Decide(s)) && Located(Decide(s))
  {
    hide SwitchOff, Settled;
    OffBoth();
    SettledOff(s.left, s.right);
  }

  /** A test that goes to the switch-off writes. */
  lemma LeaveKeepsLeds(s: State)
    requires LedsOk(s) && Located(s) && (s.loc.TestNext? || s.loc.TestExit?)
    requires s.flag == (if s.loc.TestNext? then Next else Exit)
    ensures LedsOk(Decide(s)) && Located(Decide(s))
  {
    hide SwitchOff, Settled, Shape;
    SwitchOffShape(s.pattern, s.lit, s.left, s.right);
  }

  /** And one that goes on. */
  lemma StayKeepsLeds(s: State)
    requires LedsOk(s) && Located(s) && (s.loc.TestNext? || s.loc.TestExit?)
    requires s.flag != (if s.loc.TestNext? then Next else Exit)
    ensures LedsOk(Decide(s)) && Located(Decide(s))
  {
    hide Settled, Shape;
    UpdatedIsHead(s.pattern, s.lit, s.left.p0, s.right.p0);
  }

  lemma TestKeepsLeds(s: State)
    requires LedsOk(s) && Located(s) && (s.loc.TestNext? || s.loc.TestExit?)
    ensures LedsOk(Decide(s)) && Located(Decide(s))
  {
    hide LedsOk, Located, Decide;
    if s.flag == (if s.loc.TestNext? then Next else Exit) {
      LeaveKeepsLeds(s);
    } else {
      StayKeepsLeds(s);
    }
  }

  lemma UpdatedIsHead(p: nat, lit: bool, l: bool, r: bool)
    requires Shape(p, Updated, lit, l, r)
    ensures Shape(p, Head, lit, l, r)
  {
  }

  lemma OffBoth()
    ensures SwitchOff(3) == [GroupWrite(true, false), GroupWrite(false, false)]
  {
  }

  lemma SettledOff(left: Quad, right: Quad)
    ensures var groups := [GroupWrite(true, false), GroupWrite(false, false)];
            !Settled(left, groups, true) && !Settled(right, groups, false)
  {
  }

  lemma ThreadKeepsLeds(s: State, bit: bool)
    requires LedsOk(s) && Located(s)
    ensures LedsOk(ThreadStep(s, bit)) && Located(ThreadStep(s, bit))
  {
    hide LedsOk, Located, WritePin, Choose, Await, Decide;
    if s.loc.Writing? {
      if s.loc.pin < 3 {
        WriteWithin(s);
      } else if |s.loc.groups| > 1 {
        WriteNext(s);
      } else {
        WriteEnd(s);
      }
    } else if Choosing(s.loc) {
      ChooseKeepsLeds(s, bit);
    } else if Deciding(s.loc) {
      if s.loc.Return? {
        ReturnKeepsLeds(s);
      } else {
        TestKeepsLeds(s);
      }
    } else {
      AwaitKeepsLeds(s);
    }
  }

  lemma MoveKeepsLeds(s: State, m: Move)
    requires LedsOk(s) && Located(s)
    ensures LedsOk(Step(s, m)) && Located(Step(s, m))
  {
    hide ThreadStep, Shape;
    if m.Thread? {
      ThreadKeepsLeds(s, m.bit);
    }
  }

  /** Over every interleaving the LEDs stay within the pictures of the current pattern. */
  lemma {:induction false} RunKeepsLeds(moves: seq<Move>)
    ensures LedsOk(Run(INITIAL, moves)) && Located(Run(INITIAL, moves))
  {
    hide Step;
    if moves != [] {
      RunKeepsLeds(moves[..|moves| - 1]);
      MoveKeepsLeds(Run(INITIAL, moves[..|moves| - 1]), moves[|moves| - 1]);
    }
  }

  predicate AllDark(s: State) { s.left == DARK && s.right == DARK }

  /** LED safety over every interleaving of the thread with any number of writers. */
  lemma {:induction false} LedSafety(moves: seq<Move>)
    ensures var s := Run(INITIAL, moves);
            // all eight off at every pattern entry and at thread exit
            && (s.loc.Entry? || s.loc.Done? ==> AllDark(s))
            // between group writes both groups are uniform
            && (!s.loc.Writing? || s.loc.pin == 0 ==> Uniform(s.left) && Uniform(s.right))
            // patterns 1 and 2 light only their own group
            && (!s.loc.Writing? && s.pattern == 1 ==> s.right == DARK)
            && (!s.loc.Writing? && s.pattern == 2 ==> s.left == DARK)
            // patterns 3 to 6: exactly one group is lit after each update
            && (!s.loc.Writing? && s.pattern >= 3 && KindOf(s.loc) == Updated ==> s.left.p0 != s.right.p0)
            // and while waiting for the next one, either that or still all off
            && (!s.loc.Writing? && s.pattern >= 3 ==> AllDark(s) || s.left.p0 != s.right.p0)
  {
    RunKeepsLeds(moves);
  }

  /* ---- wake-ups ---- */

  predicate Blocked(s: State) { s.loc.Sleep? && s.queued }

  predicate WakeOwed(s: State) { Blocked(s) && (s.flag == Key || s.flag == Next) ==> s.pendingWakes > 0 }

  lemma MoveKeepsWake(s: State, m: Move)
    requires WakeOwed(s) && Located(s)
    ensures WakeOwed(Step(s, m))
  {
    hide Choose, WritePin, Decide;
    if m.Thread? && s.loc.Writing? {
      assert !Blocked(WritePin(s)) by { WriteDoesNotBlock(s); }
    } else if m.Thread? && !AwaitPoint(s.loc) {
      OthersDoNotBlock(s, m.bit);
    }
  }

  predicate AwaitPoint(loc: Loc) { !loc.Writing? && !Choosing(loc) && !Deciding(loc) }

  lemma WriteDoesNotBlock(s: State)
    requires s.loc.Writing? && Located(s)
    ensures !WritePin(s).loc.Sleep?
  {
  }

  lemma OthersDoNotBlock(s: State, bit: bool)
    requires !s.loc.Writing?
    ensures Choosing(s.loc) ==> !Choose(s, bit).loc.Sleep?
    ensures Deciding(s.loc) ==> !Decide(s).loc.Sleep?
  {
  }

  /** No missed wake-up for KEY and NEXT: a thread blocked while no writer is between its flag store and its
      wake-up sees WAIT, or the EXIT that the write handler's default branch stores without a wake-up. */
  lemma {:induction false} NoMissedWakeup(moves: seq<Move>)
    ensures WakeOwed(Run(INITIAL, moves))
    ensures var s := Run(INITIAL, moves);
            Blocked(s) && s.pendingWakes == 0 ==> s.flag == Wait || s.flag == Exit
  {
    hide Step;
    if moves != [] {
      var before := moves[..|moves| - 1];
      NoMissedWakeup(before);
      RunKeepsLeds(before);
      MoveKeepsWake(Run(INITIAL, before), moves[|moves| - 1]);
    }
  }

  /* ---- pattern order ---- */

  /** The log is Entered(1) Tested Returned Entered(2) Tested Returned ..., where only the last event can be
      Returned(Exit), every test saw NEXT or EXIT, and the patterns go round 1..6. */
  ghost predicate Ordered(log: seq<Event>) {
    forall i :: 0 <= i < |log| ==>
      && (i % 3 == 0 ==> log[i] == Entered(i / 3 % 6 + 1))
      && (i % 3 == 1 ==> log[i] == Tested(Next) || log[i] == Tested(Exit))
      && (i % 3 == 2 ==> log[i].Returned? && (log[i].seen == Exit ==> i == |log| - 1))
  }

  predicate Leaving(loc: Loc) { loc.Return? || (loc.Writing? && loc.after.Return?) }

  predicate Ended(loc: Loc) { loc.Done? || (loc.Writing? && loc.after.Done?) }

  ghost predicate OrderOk(s: State) {
    && Ordered(s.log) && |s.log| > 0
    && s.pattern == (|s.log| - 1) / 3 % 6 + 1
    && |s.log| % 3 == (if Leaving(s.loc) then 2 else if Ended(s.loc) then 0 else 1)
    && (Ended(s.loc) ==> s.log[|s.log| - 1] == Returned(Exit))
  }

  lemma {:induction false} OrderedSnoc(log: seq<Event>, e: Event)
    requires Ordered(log) && (|log| > 0 ==> log[|log| - 1] != Returned(Exit))
    requires EventFits(|log|, e)
    ensures Ordered(log + [e])
  {
  }

  /** The event that may stand at position `i`. */
  predicate EventFits(i: nat, e: Event) {
    && (i % 3 == 0 ==> e == Entered(i / 3 % 6 + 1))
    && (i % 3 == 1 ==> e == Tested(Next) || e == Tested(Exit))
    && (i % 3 == 2 ==> e.Returned?)
  }

  lemma NextRound(n: nat)
    requires n % 3 == 2
    ensures (n + 1) % 3 == 0 && (n + 2) % 3 == 1 && n / 3 == (n - 1) / 3
    ensures NextPattern((n - 1) / 3 % 6 + 1) == (n + 1) / 3 % 6 + 1
    ensures forall f :: EventFits(n, Returned(f))
    ensures EventFits(n + 1, Entered(NextPattern((n - 1) / 3 % 6 + 1)))
  {
    var q := (n - 1) / 3;
    assert (n + 1) / 3 == q + 1;
  }

  lemma ReturnEnds(s: State)
    requires OrderOk(s) && s.loc.Return? && s.flag == Exit
    ensures OrderOk(Decide(s))
  {
    hide SwitchOff, Ordered, EventFits, NextPattern;
    LastIsTest(s.log);
    NextRound(|s.log|);
    OrderedSnoc(s.log, Returned(Exit));
  }

  lemma ReturnAdvances(s: State)
    requires OrderOk(s) && s.loc.Return? && s.flag != Exit
    ensures OrderOk(Decide(s))
  {
    hide SwitchOff, Ordered, EventFits, NextPattern;
    var n, next := |s.log|, NextPattern(s.pattern);
    LastIsTest(s.log);
    NextRound(n);
    OrderedSnoc(s.log, Returned(s.flag));
    OrderedSnoc(s.log + [Returned(s.flag)], Entered(next));
    assert s.log + [Returned(s.flag)] + [Entered(next)] == s.log + [Returned(s.flag), Entered(next)];
  }

  lemma ReturnKeepsOrder(s: State)
    requires OrderOk(s) && s.loc.Return?
    ensures OrderOk(Decide(s))
  {
    hide OrderOk, Decide;
    if s.flag == Exit {
      ReturnEnds(s);
    } else {
      ReturnAdvances(s);
    }
  }

  lemma {:induction false} LastIsTest(log: seq<Event>)
    requires Ordered(log) && |log| % 3 == 2
    ensures log[|log| - 1].Tested?
  {
  }

  lemma {:induction false} LastIsEntered(log: seq<Event>)
    requires Ordered(log) && |log| % 3 == 1
    ensures log[|log| - 1].Entered?
  {
  }

  lemma TestKeepsOrder(s: State)
    requires OrderOk(s) && (s.loc.TestNext? || s.loc.TestExit?)
    ensures OrderOk(Decide(s))
  {
    hide SwitchOff, Ordered;
    LastIsEntered(s.log);
    OrderedSnoc(s.log, Tested(Next));
    OrderedSnoc(s.log, Tested(Exit));
  }

  /** A step that leaves pattern and log alone keeps the order if it stays on the same side of the return. */
  lemma QuietStep(s: State, s': State)
    requires OrderOk(s) && s'.log == s.log && s'.pattern == s.pattern
    requires Leaving(s'.loc) == Leaving(s.loc) && Ended(s'.loc) == Ended(s.loc)
    ensures OrderOk(s')
  {
  }

  lemma ChooseIsQuiet(s: State, bit: bool)
    requires Choosing(s.loc)
    ensures var s' := Choose(s, bit);
            s'.log == s.log && s'.pattern == s.pattern && !Leaving(s'.loc) && !Ended(s'.loc)
  {
    hide Update;
  }

  lemma AwaitIsQuiet(s: State)
    requires AwaitPoint(s.loc)
    ensures var s' := Await(s);
            s'.log == s.log && s'.pattern == s.pattern && !Leaving(s'.loc) && Ended(s'.loc) == Ended(s.loc)
  {
  }

  lemma WriteIsQuiet(s: State)
    requires s.loc.Writing? && Located(s)
    ensures var s' := WritePin(s);
            && s'.log == s.log && s'.pattern == s.pattern
            && Leaving(s'.loc) == Leaving(s.loc) && Ended(s'.loc) == Ended(s.loc)
  {
    hide SetPin;
  }

  lemma MoveKeepsOrder(s: State, m: Move)
    requires OrderOk(s) && Located(s)
    ensures OrderOk(Step(s, m))
  {
    hide Decide, Choose, Await, WritePin, OrderOk;
    if m.Thread? && s.loc.Return? {
      ReturnKeepsOrder(s);
    } else if m.Thread? && Deciding(s.loc) {
      TestKeepsOrder(s);
    } else {
      if s.loc.Writing? {
        WriteIsQuiet(s);
      } else if Choosing(s.loc) && m.Thread? {
        ChooseIsQuiet(s, m.bit);
      } else if AwaitPoint(s.loc) {
        AwaitIsQuiet(s);
      }
      QuietStep(s, Step(s, m));
    }
  }

  /** Pattern order over every interleaving: patterns are entered in the order 1, 2, 3, 4, 5, 6, 1, ...; each is
      left after a test that saw NEXT or EXIT, and the thread ends exactly when the second read saw EXIT. */
  lemma {:induction false} PatternOrder(moves: seq<Move>)
    ensures OrderOk(Run(INITIAL, moves))
    ensures var s := Run(INITIAL, moves);
            s.log[|s.log| - 1] == Returned(Exit) <==> Ended(s.loc)
  {
    hide Step;
    if moves != [] {
      var before := moves[..|moves| - 1];
      PatternOrder(before);
      RunKeepsLeds(before);
      MoveKeepsOrder(Run(INITIAL, before), moves[|moves| - 1]);
    }
  }
}
