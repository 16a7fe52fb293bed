/** The hand-off of sensor samples to the monitor: an unlocked shared cell plus a bounded message queue.

    The sensor thread writes `temp`, writes `press`, then sends; the command thread may send DUMP_STATE at any
    time; the monitor receives and, for SENSOR_DATA, reads the cell field by field, once to print and once to
    publish, each time in either order: the two reads are operands of one call. Each of these is a step. Samples are
    numbered 1, 2, ...; 0 is the cell's initial content. */
module SensorHandoff {

  const MSG_COUNT := 10

  datatype Message = SensorData | DumpState

  datatype Sensor = Sampling | TempWritten | Sending

  datatype Field = Temp | Press

  /** A read made while handling the `message`-th SENSOR_DATA. */
  datatype Read = Read(field: Field, message: nat, version: nat)

  datatype State = State(
    temp: nat, press: nat,      // sample numbers in the shared cell
    sensor: Sensor,
    sent: nat,                  // SENSOR_DATA messages sent
    queue: seq<Message>,
    handled: nat,               // SENSOR_DATA messages received
    toRead: nat,                // reads left for the message in hand: 4 after a SENSOR_DATA
    seen: seq<Read>)

  /** `pressFirst` says which field the monitor reads first when it starts on a pair. */
  datatype Move = SensorStep | Dump | MonitorStep(pressFirst: bool)

  const INITIAL := State(0, 0, Sampling, 0, [], 0, 0, [])

  /** The field of the monitor's next read: its choice to start a pair, and the other one to complete it. */
  function NextField(s: State, pressFirst: bool): Field {
    if s.toRead % 2 == 0 || s.seen == [] then (if pressFirst then Press else Temp)
    else if s.seen[|s.seen| - 1].field == Temp then Press
    else Temp
  }

  /** mq_send blocks while the queue is full; a blocked step leaves the state alone. */
  function Step(s: State, m: Move): State {
    match m
    case SensorStep =>
      (match s.sensor
       case Sampling => s.(temp := s.sent + 1, sensor := TempWritten)
       case TempWritten => s.(press := s.sent + 1, sensor := Sending)
       case Sending =>
         if |s.queue| >= MSG_COUNT then s
         else s.(queue := s.queue + [SensorData], sent := s.sent + 1, sensor := Sampling))
    case Dump => if |s.queue| >= MSG_COUNT then s else s.(queue := s.queue + [DumpState])
    case MonitorStep(pressFirst) =>
      if s.toRead > 0 then
        var field := NextField(s, pressFirst);
        s.(toRead := s.toRead - 1,
           seen := s.seen + [Read(field, s.handled, if field == Temp then s.temp else s.press)])
      else if s.queue == [] then s
      else if s.queue[0] == SensorData then s.(queue := s.queue[1..], handled := s.handled + 1, toRead := 4)
      else s.(queue := s.queue[1..])
  }

  function Run(s: State, moves: seq<Move>): State {
    if moves == [] then s else Step(Run(s, moves[..|moves| - 1]), moves[|moves| - 1])
  }

  function Pending(queue: seq<Message>): (n: nat)
    ensures n <= |queue|
  {
    if queue == [] then 0 else (if queue[0] == SensorData then 1 else 0) + Pending(queue[1..])
  }

  lemma {:induction false} PendingSnoc(queue: seq<Message>, m: Message)
    ensures Pending(queue + [m]) == Pending(queue) + if m == SensorData then 1 else 0
  {
    if queue == [] {
      assert [] + [m] == [m] && [m][1..] == [];
    } else {
      assert (queue + [m])[1..] == queue[1..] + [m];
      PendingSnoc(queue[1..], m);
    }
  }

  /** The cell against the counters: what is written but not yet sent is at most one sample. */
  predicate CellOk(s: State) {
    match s.sensor
    case Sampling => s.temp == s.sent && s.press == s.sent
    case TempWritten => s.temp == s.sent + 1 && s.press == s.sent
    case Sending => s.temp == s.sent + 1 && s.press == s.sent + 1
  }

  /** No message is lost or invented: sent ones are queued or handled. */
  predicate Conserved(s: State) { s.sent == s.handled + Pending(s.queue) && |s.queue| <= MSG_COUNT }

  predicate ReadOk(r: Read) { r.message <= r.version <= r.message + MSG_COUNT + 1 }

  /** What two reads of one pair, in the order they were made, can differ by from below. */
  predicate PairOk(first: Read, second: Read) {
    && first.field != second.field
    && first.version <= second.version + (if first.field == Temp then 1 else 0)
  }

  /** Four reads a message, in two pairs of different fields. */
  ghost predicate ReadsOk(s: State) {
    && s.toRead <= 4 && |s.seen| + s.toRead == 4 * s.handled
    && (forall i :: 0 <= i < |s.seen| ==> s.seen[i].message == i / 4 + 1 && ReadOk(s.seen[i]))
    && (forall i, j :: 0 <= i < j < |s.seen| && j == i + 1 && i % 2 == 0 ==> PairOk(s.seen[i], s.seen[j]))
    && (s.toRead % 2 == 1 ==> s.seen != [] && HalfPair(s, s.seen[|s.seen| - 1]))
  }

  /** The first read of an unfinished pair is no newer than its field is now. */
  predicate HalfPair(s: State, r: Read) { r.version <= (if r.field == Temp then s.temp else s.press) }

  ghost predicate Ok(s: State) { CellOk(s) && Conserved(s) && ReadsOk(s) }

  lemma SensorKeeps(s: State)
    requires Ok(s)
    ensures Ok(Step(s, SensorStep))
  {
    PendingSnoc(s.queue, SensorData);
  }

  lemma ReadCount(n: nat, handled: nat, toRead: nat)
    requires 0 < toRead <= 4 && n + toRead == 4 * handled
    ensures n / 4 + 1 == handled && n % 2 == toRead % 2
  {
    var rest := 4 - toRead;
    assert n == 4 * (handled - 1) + rest;
    assert toRead == 1 || toRead == 2 || toRead == 3 || toRead == 4;
  }

  /** The cell is fresh for the message in hand, and not too far ahead. */
  lemma CellIsFresh(s: State)
    requires CellOk(s) && Conserved(s) && s.toRead > 0
    ensures ReadOk(Read(Temp, s.handled, s.temp)) && ReadOk(Read(Press, s.handled, s.press))
  {
  }

  lemma MonitorReads(s: State, pressFirst: bool)
    requires Ok(s) && s.toRead > 0
    ensures Ok(Step(s, MonitorStep(pressFirst)))
  {
    var field := NextField(s, pressFirst);
    var r := Read(field, s.handled, if field == Temp then s.temp else s.press);
    CellIsFresh(s);
    ReadCount(|s.seen|, s.handled, s.toRead);
    if s.toRead % 2 == 1 {
      Completes(s, r);
    }
    hide CellOk, Conserved, ReadOk, PairOk, NextField;
    ReadAdded(s, r);
  }

  lemma Completes(s: State, r: Read)
    requires CellOk(s) && s.toRead % 2 == 1 && s.seen != [] && HalfPair(s, s.seen[|s.seen| - 1])
    requires r.field != s.seen[|s.seen| - 1].field && r.version == (if r.field == Temp then s.temp else s.press)
    ensures PairOk(s.seen[|s.seen| - 1], r)
  {
  }

  lemma ReadAdded(s: State, r: Read)
    requires ReadsOk(s) && s.toRead > 0 && r.message == |s.seen| / 4 + 1 && ReadOk(r) && |s.seen| % 2 == s.toRead % 2
    requires r.version == (if r.field == Temp then s.temp else s.press)
    requires s.toRead % 2 == 1 ==> PairOk(s.seen[|s.seen| - 1], r)
    ensures ReadsOk(s.(toRead := s.toRead - 1, seen := s.seen + [r]))
  {
    hide ReadOk, PairOk;
  }

  lemma MonitorReceives(s: State, pressFirst: bool)
    requires Ok(s) && s.toRead == 0
    ensures Ok(Step(s, MonitorStep(pressFirst)))
  {
  }

  lemma MoveKeeps(s: State, m: Move)
    requires Ok(s)
    ensures Ok(Step(s, m))
  {
    hide Ok, Step;
    match m
    case SensorStep => SensorKeeps(s);
    case Dump => DumpKeeps(s);
    case MonitorStep(pressFirst) =>
      if s.toRead > 0 {
        MonitorReads(s, pressFirst);
      } else {
        MonitorReceives(s, pressFirst);
      }
  }

  lemma DumpKeeps(s: State)
    requires Ok(s)
    ensures Ok(Step(s, Dump))
  {
    PendingSnoc(s.queue, DumpState);
  }

  lemma InitiallyOk()
    ensures Ok(INITIAL)
  {
  }

  lemma {:induction false} RunKeeps(moves: seq<Move>)
    ensures Ok(Run(INITIAL, moves))
  {
    hide Step, Ok;
    if moves == [] {
      InitiallyOk();
    } else {
      RunKeeps(moves[..|moves| - 1]);
      MoveKeeps(Run(INITIAL, moves[..|moves| - 1]), moves[|moves| - 1]);
    }
  }

  /** Freshness and bounded staleness over every interleaving: each temp and press the monitor reads for its
      r-th SENSOR_DATA is sample r or newer, and at most MSG_COUNT + 1 samples newer. */
  lemma {:induction false} FreshAndBounded(moves: seq<Move>, i: nat)
    requires i < |Run(INITIAL, moves).seen|
    ensures var r := Run(INITIAL, moves).seen[i];
            && r.message == i / 4 + 1
            && r.message <= r.version <= r.message + MSG_COUNT + 1
  {
    RunKeeps(moves);
  }

  /** At any instant the temperature in the cell is the pressure's sample or the next one. */
  lemma {:induction false} TempLeadsByOne(moves: seq<Move>)
    ensures var s := Run(INITIAL, moves); s.press <= s.temp <= s.press + 1
  {
    RunKeeps(moves);
  }

  /* ---- every message, of both kinds, in order ---- */

  /** The messages the two producers get into the queue during a run: a sensor that has written both fields sends
      SENSOR_DATA, a dump command DUMP_STATE, each if the queue holds fewer than ten. */
  function Posted(moves: seq<Move>): seq<Message> {
    if moves == [] then []
    else
      var before, m := moves[..|moves| - 1], moves[|moves| - 1];
      var s := Run(INITIAL, before);
      if |s.queue| >= 10 then Posted(before)
      else if m.SensorStep? && s.sensor.Sending? then Posted(before) + [SensorData]
      else if m.Dump? then Posted(before) + [DumpState]
      else Posted(before)
  }

  /** The messages the monitor takes out: one at each of its steps that finds no reads outstanding and the queue not
      empty. */
  function Received(moves: seq<Move>): seq<Message> {
    if moves == [] then []
    else
      var before, m := moves[..|moves| - 1], moves[|moves| - 1];
      var s := Run(INITIAL, before);
      if m.MonitorStep? && s.toRead == 0 && s.queue != [] then Received(before) + [s.queue[0]] else Received(before)
  }

  /** How a step changes the queue and the counters. */
  lemma StepQueue(s: State, m: Move)
    ensures var s' := Step(s, m);
            if |s.queue| < 10 && m.SensorStep? && s.sensor.Sending? then
              s'.queue == s.queue + [SensorData] && s'.sent == s.sent + 1 && s'.handled == s.handled
            else if |s.queue| < 10 && m.Dump? then
              s'.queue == s.queue + [DumpState] && s'.sent == s.sent && s'.handled == s.handled
            else if m.MonitorStep? && s.toRead == 0 && s.queue != [] then
              && s'.queue == s.queue[1..] && s'.sent == s.sent
              && s'.handled == s.handled + (if s.queue[0] == SensorData then 1 else 0)
              && s'.toRead == (if s.queue[0] == SensorData then 4 else 0)
            else s'.queue == s.queue && s'.sent == s.sent && s'.handled == s.handled
  {
  }

  lemma {:induction false} Queued(received: seq<Message>, queue: seq<Message>, m: Message)
    ensures received + queue + [m] == received + (queue + [m])
    ensures queue != [] ==> received + [queue[0]] + queue[1..] == received + queue
  {
  }

  /** Nothing is lost, invented or overtaken: over every interleaving the messages posted, of both kinds and in order,
      are those received followed by those still queued. */
  lemma {:induction false} QueueIsFifo(moves: seq<Move>)
    ensures Posted(moves) == Received(moves) + Run(INITIAL, moves).queue
    ensures var s := Run(INITIAL, moves);
            s.sent == Pending(Posted(moves)) && s.handled == Pending(Received(moves))
  {
    hide Step, Pending;
    if moves == [] {
      NonePending();
    } else {
      var before, m := moves[..|moves| - 1], moves[|moves| - 1];
      var s := Run(INITIAL, before);
      QueueIsFifo(before);
      StepQueue(s, m);
      PendingSnoc(Posted(before), SensorData);
      PendingSnoc(Posted(before), DumpState);
      if s.queue != [] {
        PendingSnoc(Received(before), s.queue[0]);
      }
      Queued(Received(before), s.queue, SensorData);
      Queued(Received(before), s.queue, DumpState);
    }
  }

  /** Nothing sent is lost: every message of either kind is still queued or has been received, in its place, and every
      SENSOR_DATA is counted once. */
  lemma {:induction false} MessagesConserved(moves: seq<Move>)
    ensures Posted(moves) == Received(moves) + Run(INITIAL, moves).queue
    ensures var s := Run(INITIAL, moves);
            s.sent == Pending(Posted(moves)) == s.handled + Pending(s.queue) && |s.queue| <= 10
  {
    QueueIsFifo(moves);
    RunKeeps(moves);
  }

  lemma NonePending()
    ensures Pending([]) == 0
  {
  }

  /** A printed or published pair is a temp and a press read for one message. Read first, the temp is at most one
      sample ahead of the press and at most MSG_COUNT + 1 samples behind it; read second, it is never behind the press
      and at most MSG_COUNT + 1 samples ahead. */
  lemma {:induction false} TornPairBound(moves: seq<Move>, i: nat)
    requires i % 2 == 0 && i + 1 < |Run(INITIAL, moves).seen|
    ensures var first, second := Run(INITIAL, moves).seen[i], Run(INITIAL, moves).seen[i + 1];
            && first.message == second.message && first.field != second.field
            && first.version <= second.version + (if first.field == Temp then 1 else 0)
            && second.version <= first.version + MSG_COUNT + 1
  {
    hide Run, Step, CellOk, Conserved;
    RunKeeps(moves);
    FreshAndBounded(moves, i);
    FreshAndBounded(moves, i + 1);
    PairRead(Run(INITIAL, moves), i);
  }

  lemma PairRead(s: State, i: nat)
    requires ReadsOk(s) && i % 2 == 0 && i + 1 < |s.seen|
    ensures s.seen[i].message == s.seen[i + 1].message && PairOk(s.seen[i], s.seen[i + 1])
  {
    hide ReadOk, PairOk;
    EvenPair(i);
    var j := i + 1;
    assert s.seen[i].message == i / 4 + 1 && s.seen[j].message == j / 4 + 1;
  }

  lemma EvenPair(i: nat)
    requires i % 2 == 0
    ensures i / 4 == (i + 1) / 4
  {
  }

  /* ---- the bound is attained ---- */

  function Datas(n: nat): seq<Message> { seq(n, _ => SensorData) }

  function Cycles(n: nat): seq<Move> {
    if n == 0 then [] else Cycles(n - 1) + [SensorStep, SensorStep, SensorStep]
  }

  lemma {:induction false} RunThree(s: State, v: seq<Move>, a: Move, b: Move, c: Move)
    ensures Run(s, v + [a, b, c]) == Step(Step(Step(Run(s, v), a), b), c)
  {
    hide Step;
    assert v + [a, b, c] == v + [a] + [b] + [c];
    RunSnoc(s, v, a);
    RunSnoc(s, v + [a], b);
    RunSnoc(s, v + [a] + [b], c);
  }

  lemma {:induction false} RunSnoc(s: State, v: seq<Move>, m: Move)
    ensures Run(s, v + [m]) == Step(Run(s, v), m)
  {
    assert (v + [m])[..|v|] == v;
  }

  /** `n` full samples in a row fill the queue with `n` messages. */
  lemma {:induction false} RunCycles(s: State, n: nat)
    requires s.sensor == Sampling && s.temp == s.sent && s.press == s.sent && |s.queue| + n <= MSG_COUNT
    ensures Run(s, Cycles(n)) == s.(temp := s.sent + n, press := s.sent + n, sent := s.sent + n,
                                    queue := s.queue + Datas(n))
  {
    if n == 0 {
      assert s.queue + Datas(0) == s.queue;
    } else {
      RunCycles(s, n - 1);
      RunThree(s, Cycles(n - 1), SensorStep, SensorStep, SensorStep);
      assert s.queue + Datas(n - 1) + [SensorData] == s.queue + Datas(n);
    }
  }

  lemma {:induction false} RunConcat(s: State, a: seq<Move>, b: seq<Move>)
    ensures Run(s, a + b) == Run(Run(s, a), b)
  {
    hide Step;
    if b == [] {
      assert a + b == a;
    } else {
      assert (a + b)[..|a + b| - 1] == a + b[..|b| - 1];
      RunConcat(s, a, b[..|b| - 1]);
    }
  }

  lemma {:induction false} FirstReceived()
    ensures Run(INITIAL, Cycles(1) + [MonitorStep(false)])
         == INITIAL.(temp := 1, press := 1, sent := 1, handled := 1, toRead := 4)
  {
    hide Step;
    RunCycles(INITIAL, 1);
    RunConcat(INITIAL, Cycles(1), [MonitorStep(false)]);
    RunOne(Run(INITIAL, Cycles(1)), MonitorStep(false));
    ReceiveFirst();
  }

  lemma RunOne(s: State, m: Move)
    ensures Run(s, [m]) == Step(s, m)
  {
    hide Step;
    assert [m][..0] == [];
  }

  lemma ReceiveFirst()
    ensures Step(INITIAL.(temp := 1, press := 1, sent := 1, queue := [] + Datas(1)), MonitorStep(false))
         == INITIAL.(temp := 1, press := 1, sent := 1, handled := 1, toRead := 4)
  {
  }

  /** Neither bound of FreshAndBounded can be improved, nor that of a temp read first: handling the first message, the
      monitor can read a temp that is MSG_COUNT + 1 samples newer together with a press that is one sample older. */
  lemma StalenessAttained()
    ensures exists moves ::
              Run(INITIAL, moves).seen == [Read(Temp, 1, MSG_COUNT + 2), Read(Press, 1, MSG_COUNT + 1)]
  {
    hide Step;
    var first, read := Cycles(1) + [MonitorStep(false)], MonitorStep(false);
    var s1 := INITIAL.(temp := 1, press := 1, sent := 1, handled := 1, toRead := 4);
    FirstReceived();
    RunConcat(INITIAL, first, Cycles(MSG_COUNT));
    RunCycles(s1, MSG_COUNT);
    var s2 := s1.(temp := 11, press := 11, sent := 11, queue := [] + Datas(10));
    var filled := first + Cycles(MSG_COUNT);
    RunThree(INITIAL, filled, SensorStep, read, read);
    ReadTorn(s2);
    assert Run(INITIAL, filled + [SensorStep, read, read]).seen
        == [Read(Temp, 1, MSG_COUNT + 2), Read(Press, 1, MSG_COUNT + 1)];
  }

  lemma ReadTorn(s: State)
    requires s.sensor == Sampling && s.sent == MSG_COUNT + 1 == s.press && s.handled == 1 && s.toRead == 4
    requires s.seen == []
    ensures Step(Step(Step(s, SensorStep), MonitorStep(false)), MonitorStep(false)).seen
         == [Read(Temp, 1, MSG_COUNT + 2), Read(Press, 1, MSG_COUNT + 1)]
  {
  }

  function Other(field: Field): Field { if field == Temp then Press else Temp }

  /** Nor can the bounds on how far the second read is ahead: either field of the first sample can be read before the
      queue fills up, and the other one after. */
  lemma TearAttained(field: Field)
    ensures exists moves ::
              Run(INITIAL, moves).seen == [Read(field, 1, 1), Read(Other(field), 1, MSG_COUNT + 2)]
  {
    hide Step;
    var first, read := Cycles(1) + [MonitorStep(false)], MonitorStep(field == Press);
    var s1 := INITIAL.(temp := 1, press := 1, sent := 1, handled := 1, toRead := 4);
    FirstReceived();
    var s2 := s1.(toRead := 3, seen := [Read(field, 1, 1)]);
    RunConcat(INITIAL, first, [read]);
    RunOne(s1, read);
    ReadFirst(field);
    var filled := first + [read] + Cycles(MSG_COUNT);
    RunConcat(INITIAL, first + [read], Cycles(MSG_COUNT));
    RunCycles(s2, MSG_COUNT);
    RunThree(INITIAL, filled, SensorStep, SensorStep, read);
    ReadAhead(Run(INITIAL, filled), field);
    assert Run(INITIAL, filled + [SensorStep, SensorStep, read]).seen
        == [Read(field, 1, 1), Read(Other(field), 1, MSG_COUNT + 2)];
  }

  lemma ReadFirst(field: Field)
    ensures Step(INITIAL.(temp := 1, press := 1, sent := 1, handled := 1, toRead := 4), MonitorStep(field == Press))
         == INITIAL.(temp := 1, press := 1, sent := 1, handled := 1, toRead := 3, seen := [Read(field, 1, 1)])
  {
  }

  lemma ReadAhead(s: State, field: Field)
    requires s.sensor == Sampling && s.sent == MSG_COUNT + 1 && s.handled == 1 && s.toRead == 3
    requires s.seen == [Read(field, 1, 1)]
    ensures Step(Step(Step(s, SensorStep), SensorStep), MonitorStep(field == Press)).seen
         == [Read(field, 1, 1), Read(Other(field), 1, MSG_COUNT + 2)]
  {
  }
}
