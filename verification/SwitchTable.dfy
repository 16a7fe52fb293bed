/** The push-switch transition table and the table loop without its clock. */
module SwitchTable {

  datatype Input = Off | On | Timeout

  datatype State = Init | Lit | Short | Long | ShortShort | ShortLong | LongShort | LongLong

  datatype Action =
    | Nop
    | Stamp          // AT_INIT: remember the current time
    | LedOnStraight
    | LedOnLeft4
    | LedOnReverse
    | LedOnLeft6
    | LedOnAll
    | LedOffAll

  datatype Entry = Entry(next: State, action: Action)

  function Transition(s: State, i: Input): Entry {
    match s
    case Init =>
      (match i
       case Off => Entry(Init, Nop)
       case On => Entry(Lit, Stamp)
       case Timeout => Entry(Init, Nop))
    case Lit =>
      (match i
       case Off => Entry(Short, Stamp)
       case On => Entry(Lit, Nop)
       case Timeout => Entry(Long, Stamp))
    case Short =>
      (match i
       case Off => Entry(Short, Nop)
       case On => Entry(ShortShort, Stamp)
       case Timeout => Entry(Init, LedOnStraight))
    case Long =>
      (match i
       case Off => Entry(Long, Nop)
       case On => Entry(LongShort, Stamp)
       case Timeout => Entry(Init, LedOnLeft4))
    case ShortShort =>
      (match i
       case Off => Entry(Init, LedOnReverse)
       case On => Entry(ShortShort, Nop)
       case Timeout => Entry(ShortLong, Nop))
    case ShortLong =>
      (match i
       case Off => Entry(Init, LedOnLeft6)
       case On => Entry(ShortLong, Nop)
       case Timeout => Entry(ShortLong, Nop))
    case LongShort =>
      (match i
       case Off => Entry(Init, LedOnAll)
       case On => Entry(LongShort, Nop)
       case Timeout => Entry(LongLong, Nop))
    case LongLong =>
      (match i
       case Off => Entry(Init, LedOffAll)
       case On => Entry(LongLong, Nop)
       case Timeout => Entry(LongLong, Nop))
  }

  predicate IsLed(a: Action) { a != Nop && a != Stamp }

  function Logged(log: seq<Action>, a: Action): seq<Action> {
    if IsLed(a) then log + [a] else log
  }

  datatype Outcome = Outcome(state: State, log: seq<Action>)

  function Advance(o: Outcome, i: Input): Outcome {
    var e := Transition(o.state, i);
    Outcome(e.next, Logged(o.log, e.action))
  }

  /** The table loop from ST_INIT on a word of classified inputs: final state and LED actions. */
  function TableRun(w: seq<Input>): Outcome {
    if w == [] then Outcome(Init, []) else Advance(TableRun(w[..|w| - 1]), w[|w| - 1])
  }
}
