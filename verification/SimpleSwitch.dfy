/** The switch driver's thread as an object updated in place. */
module SimpleSwitch {
  import opened CInt
  import opened SwitchTable
  import opened LedBar
  import opened TimedSwitch

  class SwitchDriver {
    const cfg: Config
    var preJiffies: nat
    var curLed: int
    const outputs: array<bool>   // gpio_outputs
    ghost var log: seq<Action>   // LED actions performed so far

    ghost predicate Valid()
      reads this, outputs
    {
      && Supported(cfg)
      && outputs.Length == OUTPUTS
      && curLed == ActLeds(log, 0)
      && outputs[..] == LedBits(curLed)
    }

    ghost function Abstract(state: State): Machine
      reads this
    {
      Machine(state, preJiffies, curLed, log)
    }

    constructor (cfg: Config)
      requires Supported(cfg)
      ensures Valid() && fresh(outputs)
      ensures this.cfg == cfg && Abstract(Init) == START
    {
      this.cfg := cfg;
      preJiffies, curLed, log := 0, 0, [];
      outputs := new bool[OUTPUTS](_ => false);
      new;
      BarOutputs(0);
      assert outputs[..] == LedBits(0);
    }

    method SetBitLed(led: int)
      requires outputs.Length == OUTPUTS
      modifies outputs
      ensures outputs[..] == LedBits(led)
    {
      for i := 0 to outputs.Length
        invariant forall k :: 0 <= k < i ==> outputs[k] == LedBit(led, k)
      {
        outputs[i] := led % 256 / Pow2(i) % 2 == 1;
      }
    }

    /** actions[a](); `now` is what act_init reads. */
    method Act(a: Action, now: nat)
      requires Valid()
      modifies this, outputs
      ensures Valid()
      ensures preJiffies == (if a == Stamp then Jiffies(cfg, now) else old(preJiffies))
      ensures curLed == ActLed(a, old(curLed)) && log == Logged(old(log), a)
    {
      hide ActLeds, LedBits, Pow2;
      LoggedLed(log, a);
      match a {
        case Nop =>
        case Stamp => preJiffies := Jiffies(cfg, now);
        case LedOnStraight => curLed := S32(S32(curLed * 2) + 1);
        case LedOnLeft4 => curLed := 0x0F;
        case LedOnReverse => curLed := curLed / 2;
        case LedOnLeft6 => curLed := 0x3F;
        case LedOnAll => curLed := 0xFF;
        case LedOffAll => curLed := 0x00;
      }
      log := Logged(log, a);
      if a != Nop && a != Stamp {
        SetBitLed(curLed);
      }
    }

    /** One pass of the loop body up to the flag test. */
    method Iterate(state: State, smp: Sample) returns (next: State)
      requires Valid()
      modifies this, outputs
      ensures Valid() && Abstract(next) == Step(cfg, old(Abstract(state)), smp)
    {
      var input := if smp.level then On else Off;
      var now := Jiffies(cfg, smp.guardAt);
      if Waiting(state) && IsShortPush(cfg, now, preJiffies, 500) == cfg.guard.AsCoded? {
        input := Timeout;
      } else if Pressing(state) && !IsShortPush(cfg, now, preJiffies, 1000) {
        input := Timeout;
      }
      Act(Transition(state, input).action, smp.actAt);
      next := Transition(state, input).next;
    }

    /** The thread loop on an arbitrary series of observations: it stops at the first that quits,
        with all outputs off, and has otherwise run on all of them. */
    method WaitThread(w: seq<Sample>) returns (state: State, n: nat)
      requires Valid() && Abstract(Init) == START
      modifies this, outputs
      ensures n <= |w| && Abstract(state) == Run(cfg, START, w[..n])
      ensures forall k :: 0 <= k < n - 1 ==> !w[k].quit
      ensures if n > 0 && w[n - 1].quit then outputs[..] == LeftPrefix(0)
              else n == |w| && outputs[..] == LeftPrefix(Height(log, 0))
    {
      state, n := Init, 0;
      while n < |w|
        invariant n <= |w| && Valid()
        invariant Abstract(state) == Run(cfg, START, w[..n])
        invariant forall k :: 0 <= k < n ==> !w[k].quit
      {
        state := Iterate(state, w[n]);
        RunSnoc(cfg, START, w[..n], w[n]);
        assert w[..n] + [w[n]] == w[..n + 1];
        n := n + 1;
        if w[n - 1].quit {
          SetBitLed(0x00);
          BarOutputs(0);
          return;
        }
      }
      Thermometer(log);
    }
  }
}
