/** The six switch gestures as words over {OFF, ON, TIMEOUT}, independent of the transition table.

    A word is a series of complete gestures (and idle samples) followed by an unfinished one.
    Every word has exactly one such reading, and the table loop performs exactly that reading. */
module GestureGrammar {
  import opened SwitchTable

  /** A completed stretch of input. `a`, `b`, `c` count repeated samples after the first;
      `long` says that the first press lasted until a timeout. */
  datatype Item =
    | Idle(i: Input)
    | One(long: bool, a: nat, b: nat)
    | TwoShort(long: bool, a: nat, b: nat, c: nat)
    | TwoLong(long: bool, a: nat, b: nat, c: nat, tail: seq<Input>)

  /** The gesture still in progress. */
  datatype Open =
    | NoPress
    | Press(a: nat)
    | Gap(long: bool, a: nat, b: nat)
    | Second(long: bool, a: nat, b: nat, c: nat)
    | Held(long: bool, a: nat, b: nat, c: nat, tail: seq<Input>)

  datatype Reading = Reading(items: seq<Item>, open: Open)

  function Rep(i: Input, n: nat): seq<Input> { seq(n, _ => i) }

  function PressWord(a: nat): seq<Input> { Rep(On, a + 1) }

  function GapWord(long: bool, a: nat, b: nat): seq<Input> {
    PressWord(a) + [if long then Timeout else Off] + Rep(Off, b)
  }

  function SecondWord(long: bool, a: nat, b: nat, c: nat): seq<Input> { GapWord(long, a, b) + PressWord(c) }

  function HeldWord(long: bool, a: nat, b: nat, c: nat, tail: seq<Input>): seq<Input> {
    SecondWord(long, a, b, c) + [Timeout] + tail
  }

  function OpenWord(o: Open): seq<Input> {
    match o
    case NoPress => []
    case Press(a) => PressWord(a)
    case Gap(l, a, b) => GapWord(l, a, b)
    case Second(l, a, b, c) => SecondWord(l, a, b, c)
    case Held(l, a, b, c, t) => HeldWord(l, a, b, c, t)
  }

  function ItemWord(it: Item): seq<Input> {
    match it
    case Idle(i) => [i]
    case One(l, a, b) => GapWord(l, a, b) + [Timeout]
    case TwoShort(l, a, b, c) => SecondWord(l, a, b, c) + [Off]
    case TwoLong(l, a, b, c, t) => HeldWord(l, a, b, c, t) + [Off]
  }

  function ItemsWord(items: seq<Item>): seq<Input> {
    if items == [] then [] else ItemsWord(items[..|items| - 1]) + ItemWord(items[|items| - 1])
  }

  function Word(r: Reading): seq<Input> { ItemsWord(r.items) + OpenWord(r.open) }

  predicate WfItem(it: Item) { (it.Idle? ==> it.i != On) && (it.TwoLong? ==> Off !in it.tail) }

  /** Idle samples are not ON; a held second press contains no OFF. */
  predicate Wf(r: Reading) {
    && (forall k :: 0 <= k < |r.items| ==> WfItem(r.items[k]))
    && (r.open.Held? ==> Off !in r.open.tail)
  }

  /** The LED action each gesture asks for. */
  function Meaning(it: Item): seq<Action> {
    match it
    case Idle(_) => []
    case One(l, _, _) => [if l then LedOnLeft4 else LedOnStraight]
    case TwoShort(l, _, _, _) => [if l then LedOnAll else LedOnReverse]
    case TwoLong(l, _, _, _, _) => [if l then LedOffAll else LedOnLeft6]
  }

  function Meanings(items: seq<Item>): seq<Action> {
    if items == [] then [] else Meanings(items[..|items| - 1]) + Meaning(items[|items| - 1])
  }

  /** How far the unfinished gesture has got. */
  function Phase(o: Open): State {
    match o
    case NoPress => Init
    case Press(_) => Lit
    case Gap(l, _, _) => if l then Long else Short
    case Second(l, _, _, _) => if l then LongShort else ShortShort
    case Held(l, _, _, _, _) => if l then LongLong else ShortLong
  }

  /** The effect of one more input on the gesture in progress. */
  datatype Progress = Continue(open: Open) | Complete(item: Item)

  function Grow(o: Open, i: Input): Progress {
    match o
    case NoPress => if i == On then Continue(Press(0)) else Complete(Idle(i))
    case Press(a) => Continue(if i == On then Press(a + 1) else Gap(i == Timeout, a, 0))
    case Gap(l, a, b) =>
      (match i
       case Off => Continue(Gap(l, a, b + 1))
       case On => Continue(Second(l, a, b, 0))
       case Timeout => Complete(One(l, a, b)))
    case Second(l, a, b, c) =>
      (match i
       case Off => Complete(TwoShort(l, a, b, c))
       case On => Continue(Second(l, a, b, c + 1))
       case Timeout => Continue(Held(l, a, b, c, [])))
    case Held(l, a, b, c, t) =>
      if i == Off then Complete(TwoLong(l, a, b, c, t)) else Continue(Held(l, a, b, c, t + [i]))
  }

  /** The gesture one input earlier, and that input. */
  function Reopen(it: Item): (Open, Input) {
    match it
    case Idle(i) => (NoPress, i)
    case One(l, a, b) => (Gap(l, a, b), Timeout)
    case TwoShort(l, a, b, c) => (Second(l, a, b, c), Off)
    case TwoLong(l, a, b, c, t) => (Held(l, a, b, c, t), Off)
  }

  function Shrink(o: Open): (Open, Input)
    requires !o.NoPress?
  {
    match o
    case Press(a) => (if a == 0 then NoPress else Press(a - 1), On)
    case Gap(l, a, b) => if b == 0 then (Press(a), if l then Timeout else Off) else (Gap(l, a, b - 1), Off)
    case Second(l, a, b, c) => (if c == 0 then Gap(l, a, b) else Second(l, a, b, c - 1), On)
    case Held(l, a, b, c, t) =>
      if t == [] then (Second(l, a, b, c), Timeout) else (Held(l, a, b, c, t[..|t| - 1]), t[|t| - 1])
  }

  /** Reading one more input. */
  function Extend(r: Reading, i: Input): Reading {
    match Grow(r.open, i)
    case Continue(o) => Reading(r.items, o)
    case Complete(it) => Reading(r.items + [it], NoPress)
  }

  predicate IsEmpty(r: Reading) { r.items == [] && r.open.NoPress? }

  /** Un-reading the last input. */
  function Retract(r: Reading): (Reading, Input)
    requires !IsEmpty(r)
  {
    if r.open.NoPress? then
      var (o, i) := Reopen(r.items[|r.items| - 1]);
      (Reading(r.items[..|r.items| - 1], o), i)
    else
      var (o, i) := Shrink(r.open);
      (Reading(r.items, o), i)
  }

  lemma RepSnoc(i: Input, n: nat)
    ensures Rep(i, n + 1) == Rep(i, n) + [i]
  {
  }

  lemma {:induction false} ItemsWordSnoc(items: seq<Item>, it: Item)
    ensures ItemsWord(items + [it]) == ItemsWord(items) + ItemWord(it)
    ensures Meanings(items + [it]) == Meanings(items) + Meaning(it)
  {
    assert (items + [it])[..|items|] == items;
  }

  lemma GrowWord(o: Open, i: Input)
    ensures var g := Grow(o, i);
            (if g.Continue? then OpenWord(g.open) else ItemWord(g.item)) == OpenWord(o) + [i]
  {
    match o
    case NoPress =>
    case Press(a) => if i == On { RepSnoc(On, a + 1); } else { assert Rep(Off, 0) == []; }
    case Gap(l, a, b) => if i == Off { RepSnoc(Off, b); } else if i == On { assert Rep(On, 1) == [On]; }
    case Second(l, a, b, c) => if i == On { RepSnoc(On, c + 1); }
    case Held(l, a, b, c, t) =>
  }

  lemma ExtendWf(r: Reading, i: Input)
    requires Wf(r)
    ensures Wf(Extend(r, i))
  {
  }

  lemma ExtendWord(r: Reading, i: Input)
    ensures Word(Extend(r, i)) == Word(r) + [i]
  {
    GrowWord(r.open, i);
    var whole := ItemsWord(r.items);
    match Grow(r.open, i)
    case Continue(o) =>
      Assoc(whole, OpenWord(r.open), [i]);
    case Complete(it) =>
      ItemsWordSnoc(r.items, it);
      Assoc(whole, OpenWord(r.open), [i]);
      assert Word(Extend(r, i)) == ItemsWord(r.items + [it]) + [];
  }

  lemma {:induction false} Assoc(a: seq<Input>, b: seq<Input>, c: seq<Input>)
    ensures a + b + c == a + (b + c)
  {
  }

  lemma GrowBack(o: Open, i: Input)
    ensures !o.NoPress? ==> Grow(Shrink(o).0, Shrink(o).1) == Continue(o) || (o.Held? && Off in o.tail)
  {
    if o.Held? && o.tail != [] {
      assert o.tail == o.tail[..|o.tail| - 1] + [o.tail[|o.tail| - 1]];
    }
  }

  /** Taking the last input back and reading it again changes nothing. */
  lemma RetractExtends(r: Reading)
    requires Wf(r) && !IsEmpty(r)
    ensures var (before, i) := Retract(r);
            Wf(before) && Extend(before, i) == r && Word(r) == Word(before) + [i]
  {
    var (before, i) := Retract(r);
    if r.open.NoPress? {
      var last := r.items[|r.items| - 1];
      assert WfItem(last);
      assert Grow(before.open, i) == Complete(last);
      assert r.items == before.items + [last];
    } else {
      GrowBack(r.open, i);
    }
    ExtendWord(before, i);
  }

  lemma {:induction false} ReadLast(r: Reading, w: seq<Input>)
    requires w != [] && Wf(r) && Word(r) == w[..|w| - 1]
    ensures Wf(Extend(r, w[|w| - 1])) && Word(Extend(r, w[|w| - 1])) == w
  {
    hide Word, Extend, Wf;
    ExtendWord(r, w[|w| - 1]);
    ExtendWf(r, w[|w| - 1]);
    assert w == w[..|w| - 1] + [w[|w| - 1]];
  }

  /** Every word has a reading. */
  function Read(w: seq<Input>): (r: Reading)
    ensures Wf(r) && Word(r) == w
  {
    if w == [] then Reading([], NoPress)
    else
      var r := Read(w[..|w| - 1]);
      ReadLast(r, w);
      Extend(r, w[|w| - 1])
  }

  lemma {:induction false} SnocInjective(u: seq<Input>, i: Input, w: seq<Input>)
    requires w == u + [i]
    ensures w != [] && w[..|w| - 1] == u && w[|w| - 1] == i
  {
  }

  /** The reading of a word is unique. */
  lemma {:induction false} ReadingUnique(r: Reading, w: seq<Input>)
    requires Wf(r) && Word(r) == w
    ensures r == Read(w)
    decreases |w|
  {
    if !IsEmpty(r) {
      RetractExtends(r);
      var (before, i) := Retract(r);
      SnocInjective(Word(before), i, w);
      ReadingUnique(before, w[..|w| - 1]);
    }
  }

  /** The table agrees with the grammar on one gesture. */
  lemma GrowIsTransition(o: Open, i: Input)
    ensures var e, g := Transition(Phase(o), i), Grow(o, i);
            && e.next == (if g.Continue? then Phase(g.open) else Init)
            && Logged([], e.action) == (if g.Continue? then [] else Meaning(g.item))
  {
  }

  /** Reading one more input is one step of the table. */
  lemma ExtendIsTableStep(r: Reading, i: Input)
    ensures Advance(Outcome(Phase(r.open), Meanings(r.items)), i)
         == Outcome(Phase(Extend(r, i).open), Meanings(Extend(r, i).items))
  {
    GrowIsTransition(r.open, i);
    var e := Transition(Phase(r.open), i);
    assert Logged(Meanings(r.items), e.action) == Meanings(r.items) + Logged([], e.action);
    var g := Grow(r.open, i);
    if g.Complete? {
      ItemsWordSnoc(r.items, g.item);
    }
  }

  /** The table loop performs, in order, exactly the LED actions of the gestures in its input,
      and its state is the phase of the gesture left unfinished. */
  lemma {:induction false} TableReadsGestures(r: Reading)
    requires Wf(r)
    ensures TableRun(Word(r)) == Outcome(Phase(r.open), Meanings(r.items))
    decreases |Word(r)|
  {
    if !IsEmpty(r) {
      RetractExtends(r);
      var (before, i) := Retract(r);
      SnocInjective(Word(before), i, Word(r));
      TableReadsGestures(before);
      ExtendIsTableStep(before, i);
    }
  }

  /** Every LED action ends a gesture and returns to ST_INIT. */
  lemma {:induction false} LedActionsEndGestures(w: seq<Input>, i: Input)
    requires |TableRun(w + [i]).log| > |TableRun(w).log|
    ensures TableRun(w + [i]).state == Init
    ensures exists it: Item :: !it.Idle? && Read(w + [i]) == Reading(Read(w).items + [it], NoPress)
  {
    SnocInjective(w, i, w + [i]);
    TableReadsGestures(Read(w));
    GrowIsTransition(Read(w).open, i);
    var g := Grow(Read(w).open, i);
    assert Read(w + [i]) == Extend(Read(w), i);
    assert g.Complete? && !g.item.Idle?;
  }
}
