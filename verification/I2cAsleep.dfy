/**
 * The call whose interrupts come only while the processor sleeps: its single steps do exactly what the wait
 * loop and the recovery are specified to do in one go.
 */
module I2cAsleep {
  import opened Words
  import opened I2c
  import opened I2cSteps
  import Clock
  import DelaySteps
  import I2cData

  predicate Sleeps(pc: Pc) {
    pc == Sleeping || (pc.Pause? && pc.at == DelaySteps.Asleep)
  }

  /** Interrupts come only while the processor sleeps, and ticks only from a running clock. */
  predicate OnlyAsleep(s: State, steps: seq<Step>)
    requires Bounded(s.world)
    decreases |steps|
  {
    steps != [] ==> AsleepStep(s, steps[0]) && OnlyAsleep(Take(s, steps[0]), steps[1..])
  }

  predicate AsleepStep(s: State, step: Step) {
    step.Happens? ==> Sleeps(s.pc) && (step.irq == Tick ==> s.world.clock.enabled)
  }

  /** The interrupts of some steps. */
  function Irqs(steps: seq<Step>): seq<Irq> {
    if steps == [] then []
    else if steps[0].Happens? then [steps[0].irq] + Irqs(steps[1..])
    else Irqs(steps[1..])
  }

  // ----- The loop -----------------------------------------------------------------------------

  function Later(o: Outcome, n: nat): Outcome {
    match o
    case Returned(code, w, used) => Returned(code, w, used + n)
    case Asleep(w) => o
  }

  /** What is left of the wait at a position of the loop. */
  function Rest(s: State, wakes: seq<Irq>): Outcome
    requires InLoop(s.pc) && Safe(s.world)
  {
    if s.pc == LookClock && s.world.clock.timestamp >= Deadline(s) then Returned(-1, Recover(s.world), 0)
    else Await(s.world, s.start, wakes)
  }

  predicate Loops(s: State) {
    InLoop(s.pc) && Safe(s.world) && (s.pc == Drowsy || s.pc == Sleeping ==> s.world.driver.mode != Waiting)
  }

  lemma GoKeepsRest(s: State, wakes: seq<Irq>)
    requires Loops(s)
    ensures Bounded(s.world) && (Loops(Advance(s)) || Advance(s).pc == RequestStop || Advance(s).pc == Out(0))
    ensures var t := Advance(s);
            && (Loops(t) ==> Rest(t, wakes) == Rest(s, wakes))
            && (t.pc == RequestStop ==> Rest(s, wakes) == Returned(-1, Recover(t.world), 0))
            && (t.pc == Out(0) ==> Rest(s, wakes) == Returned(0, t.world, 0))
  {
    SafeIsBounded(s.world);
    hide Safe, Bounded, Recover;
    var once := Await(s.world, s.start, wakes);
  }

  lemma SafeIsBounded(w: World)
    requires Safe(w)
    ensures Bounded(w)
  {
  }

  lemma WakeKeepsRest(s: State, irq: Irq, wakes: seq<Irq>)
    requires Loops(s) && s.pc == Sleeping && (irq == Tick ==> s.world.clock.enabled)
    ensures Bounded(s.world) && Loops(Happen(s, irq))
    ensures Rest(s, [irq] + wakes) == Later(Rest(Happen(s, irq), wakes), 1)
  {
    SafeIsBounded(s.world);
    SafeReaction(s.world, irq);
    assert ([irq] + wakes)[1..] == wakes;
    hide Safe, Bounded, Recover, React, Interrupt;
  }

  lemma LoopEnds(s: State)
    requires Loops(s) && s.pc == Sleeping
    ensures Rest(s, []) == Asleep(s.world)
  {
  }

  /** An outcome says where a loop has come to after n interrupts. */
  predicate Explains(o: Outcome, t: State, n: nat)
    requires Clock.ValidPeriod(t.world.clock)
  {
    && (t.pc == Out(0) ==> o == Returned(0, t.world, n))
    && (t.pc == RequestStop ==> o == Returned(-1, Recover(t.world), n))
    && (t.pc == Sleeping ==> o == Asleep(t.world))
  }

  lemma LaterExplains(o: Outcome, t: State, n: nat)
    requires Clock.ValidPeriod(t.world.clock) && Explains(o, t, n)
    ensures Explains(Later(o, 1), t, n + 1)
  {
    hide Recover;
  }

  lemma {:induction false} LoopIsRest(s: State, steps: seq<Step>)
    requires Bounded(s.world) && Loops(s) && OnlyAsleep(s, steps)
    ensures Explains(Rest(s, Irqs(steps)), Run(s, steps), |Irqs(steps)|)
    decreases |steps|
  {
    if steps == [] {
      if s.pc == Sleeping {
        LoopEnds(s);
      }
      hide Rest, Bounded, Safe, Recover;
      return;
    }
    var next, irqs := Take(s, steps[0]), Irqs(steps[1..]);
    match steps[0] {
      case Happens(irq) =>
        WakeKeepsRest(s, irq, irqs);
        hide Take, Rest, Bounded, Loops, Recover, Explains, Later;
        LoopIsRest(next, steps[1..]);
        LaterExplains(Rest(next, irqs), Run(next, steps[1..]), |irqs|);
      case Go =>
        GoKeepsRest(s, irqs);
        hide Rest, Bounded, Advance, Recover, Safe;
        if Loops(next) {
          LoopIsRest(next, steps[1..]);
          hide Explains;
        } else {
          LeftStaysLeft(next, steps[1..]);
        }
    }
  }

  /** After the loop there is no interrupt before the recovery's pauses. */
  lemma {:induction false} LeftStaysLeft(s: State, steps: seq<Step>)
    requires Bounded(s.world) && (s.pc == Out(0) || !(s.pc == Sample || InLoop(s.pc))) && OnlyAsleep(s, steps)
    ensures var t := Run(s, steps);
            && !InLoop(t.pc) && (s.pc == Out(0) ==> t == s && Irqs(steps) == [])
            && (t.pc == RequestStop ==> t == s && steps == [])
            && (s.pc != Out(0) ==> t.pc != Out(0))
    decreases |steps|
  {
    if steps != [] {
      LeftStep(s, steps[0]);
      hide Take, Bounded;
      LeftStaysLeft(Take(s, steps[0]), steps[1..]);
    }
  }

  lemma LeftStep(s: State, step: Step)
    requires Bounded(s.world) && (s.pc == Out(0) || !(s.pc == Sample || InLoop(s.pc))) && AsleepStep(s, step)
    ensures var t := Take(s, step);
            && !(t.pc == Sample || InLoop(t.pc)) && t.pc != RequestStop
            && (if s.pc == Out(0) then t == s && !step.Happens? else t.pc != Out(0))
            && (s.pc == RequestStop ==> !step.Happens?)
  {
    hide React, Bounded;
  }

  /** If interrupts come only while the processor sleeps, the looks, sleeps and interrupts of the loop do
      what the wait is specified to do with these interrupts. */
  lemma AsleepLoopIsAwait(s: State, steps: seq<Step>)
    requires Safe(s.world) && s.pc == LookState
    ensures Bounded(s.world)
    ensures OnlyAsleep(s, steps) ==>
              var t, o := Run(s, steps), Await(s.world, s.start, Irqs(steps));
              && (t.pc == Out(0) ==> o == Returned(0, t.world, |Irqs(steps)|))
              && (t.pc == RequestStop ==> o == Returned(-1, Recover(t.world), |Irqs(steps)|))
              && (t.pc == Sleeping ==> o == Asleep(t.world))
  {
    SafeIsBounded(s.world);
    if OnlyAsleep(s, steps) {
      LoopIsRest(s, steps);
    }
  }

  // ----- The recovery -------------------------------------------------------------------------

  function Off(w: World): World {
    Disable(w.(driver := w.driver.(mode := Waiting), bus := w.bus.(stopRequest := true)))
  }

  /** The state of the lines and of the clock after the first pause, and after the second. */
  function Low(w: World): World
    requires Clock.ValidPeriod(w.clock)
  {
    var off := Off(w);
    off.(clock := Paused(off.clock), bus := off.bus.(trace := off.bus.trace + [Scl(false), Sda(false)]))
  }

  function High(w: World): World
    requires Clock.ValidPeriod(w.clock)
  {
    var low := Low(w);
    low.(clock := Paused(low.clock), bus := low.bus.(trace := low.bus.trace + [Scl(true), Sda(true)]))
  }

  /** A pause of a millisecond takes the next tick. */
  function Paused(c: Clock.ClockState): Clock.ClockState {
    if c.enabled then Clock.Tick(c) else c
  }

  lemma PauseIsDelay(c: Clock.ClockState)
    requires Clock.ValidPeriod(c)
    ensures Paused(c) == Clock.AfterDelay(c, 1) && Clock.ValidPeriod(Paused(c))
    ensures Sub32(Clock.Tick(c).timestamp, c.timestamp) >= 1
  {
    if c.enabled {
      var period := c.msPerInterrupt;
      assert Clock.Shown(period, 0) == 0 && Clock.Shown(period, 1) == period;
      hide Clock.Bound;
      assert Clock.DelayTicks(period, 1) == 1;
      assert Clock.Ticks(c, 1) == Clock.Tick(Clock.Ticks(c, 0));
    }
  }

  lemma RecoveryInOneGo(w: World)
    requires Safe(w) && w.driver.enabled
    ensures Enable(High(w)) == Recover(w)
  {
    var off := Off(w);
    PauseIsDelay(off.clock);
    PauseIsDelay(Clock.AfterDelay(off.clock, 1));
    hide Clock.AfterDelay, Clock.Tick, Safe, Paused;
    assert off.bus.trace + [Scl(false), Sda(false)] + [Scl(true), Sda(true)]
           == off.bus.trace + ([Scl(false), Sda(false)] + [Scl(true), Sda(true)]);
  }

  /** The lines are low for one tick, and one passes before they are. */
  lemma RecoveryTakesTwoTicks(w: World)
    requires Safe(w) && w.driver.enabled
    ensures Recover(w).clock == Paused(Paused(w.clock))
  {
    RecoveryInOneGo(w);
    OffClock(w);
    hide Recover, Clock.Tick, Safe;
  }

  /** Where a recovery stands that began in a world. */
  predicate Recovering(w: World, s: State)
    requires Clock.ValidPeriod(w.clock)
  {
    var marked := w.(bus := w.bus.(stopRequest := true));
    match s.pc
    case RequestStop => s.world == w
    case MarkWaiting => s.world == marked
    case TurnOff => s.world == marked.(driver := w.driver.(mode := Waiting))
    case PauseStart(second) => s.world == if second then Low(w) else Off(w)
    case Pause(second, from, at) => Pausing(if second then Low(w) else Off(w), s.world, from, at)
    case PullLow => s.world == Off(w).(clock := Paused(w.clock))
    case LetHigh => s.world == Low(w).(clock := Paused(Low(w).clock))
    case TurnOn => s.world == High(w)
    case Out(_) => s.world == Enable(High(w))
    case _ => false
  }

  predicate Pausing(before: World, now: World, from: u32, at: DelaySteps.Pc) {
    && before.clock.enabled && from == before.clock.timestamp
    && now == before.(clock := now.clock)
    && (now.clock == before.clock || (at == DelaySteps.Look && now.clock == Clock.Tick(before.clock)))
    && at != DelaySteps.Out
  }

  lemma RecoveryStep(w: World, s: State, step: Step)
    requires Safe(w) && w.driver.enabled && Bounded(s.world) && Recovering(w, s) && AsleepStep(s, step)
    ensures Recovering(w, Take(s, step))
  {
    if s.pc.Pause? {
      PauseStep(w, s, step);
    } else if s.pc.RequestStop? || s.pc.MarkWaiting? || s.pc.TurnOff? {
      GivingUpStep(w, s);
    } else {
      LinesStep(w, s);
    }
    hide Advance, Recovering, Safe, Bounded;
  }

  lemma GivingUpStep(w: World, s: State)
    requires Bounded(s.world) && Clock.ValidPeriod(w.clock) && Recovering(w, s)
    requires s.pc == RequestStop || s.pc == MarkWaiting || s.pc == TurnOff
    ensures Recovering(w, Advance(s))
  {
    hide Bounded, Low, High, Paused, Clock.Tick;
  }

  lemma LinesStep(w: World, s: State)
    requires Safe(w) && Bounded(s.world) && Recovering(w, s) && !s.pc.Pause?
    requires !(s.pc == RequestStop || s.pc == MarkWaiting || s.pc == TurnOff)
    ensures Recovering(w, Advance(s))
  {
    OffClock(w);
    hide Bounded, Safe, Off, Clock.Tick, Enable;
  }

  lemma OffClock(w: World)
    requires Safe(w)
    ensures Off(w).clock == w.clock && Low(w).clock == Paused(w.clock)
    ensures Clock.ValidPeriod(Paused(w.clock))
  {
  }

  lemma PauseStep(w: World, s: State, step: Step)
    requires Safe(w) && w.driver.enabled && Bounded(s.world) && Recovering(w, s) && AsleepStep(s, step) && s.pc.Pause?
    ensures Recovering(w, Take(s, step))
  {
    var before := if s.pc.second then Low(w) else Off(w);
    OffClock(w);
    assert before.bus.phase == Idle && before.driver.mode == Waiting;
    assert Clock.ValidPeriod(before.clock);
    match step {
      case Happens(irq) => WokenPause(before, s, irq);
      case Go => GoingOnPause(before, s);
    }
    hide Off, Low, High, Safe, Bounded, Advance, Happen;
    if step == Go && Advance(s).pc == AfterPause(s.pc.second) {
      assert Advance(s).world == before.(clock := Paused(before.clock));
    }
  }

  lemma WokenPause(before: World, s: State, irq: Irq)
    requires Bounded(s.world) && s.pc.Pause? && Pausing(before, s.world, s.pc.from, s.pc.at)
    requires AsleepStep(s, Happens(irq)) && before.bus.phase == Idle && before.driver.mode == Waiting
    ensures var t := Happen(s, irq);
            t.pc.Pause? && t.pc.second == s.pc.second && Pausing(before, t.world, t.pc.from, t.pc.at)
  {
    IdleReaction(s.world, irq);
    hide React, Clock.Tick, Bounded;
  }

  lemma GoingOnPause(before: World, s: State)
    requires Bounded(s.world) && s.pc.Pause? && Pausing(before, s.world, s.pc.from, s.pc.at)
    requires Clock.ValidPeriod(before.clock)
    ensures var t := Advance(s);
            if t.pc.Pause? then t.pc.second == s.pc.second && Pausing(before, t.world, t.pc.from, t.pc.at)
            else t.pc == AfterPause(s.pc.second) && t.world == before.(clock := Paused(before.clock))
  {
    PauseIsDelay(before.clock);
    assert Sub32(before.clock.timestamp, before.clock.timestamp) == 0;
    hide Clock.Tick, Sub32, Bounded;
  }

  lemma IdleReaction(w: World, irq: Irq)
    requires Bounded(w)
    ensures w.bus.phase == Idle && w.driver.mode == Waiting ==>
              React(w, irq) == w.(clock := if irq == Tick && w.clock.enabled then Clock.Tick(w.clock) else w.clock)
  {
  }

  lemma {:induction false} RunRecovers(w: World, s: State, steps: seq<Step>)
    requires Safe(w) && w.driver.enabled && Bounded(s.world) && Recovering(w, s) && OnlyAsleep(s, steps)
    ensures Recovering(w, Run(s, steps))
    decreases |steps|
  {
    if steps != [] {
      RecoveryStep(w, s, steps[0]);
      hide Take, Recovering, Safe, Bounded, AsleepStep;
      RunRecovers(w, Take(s, steps[0]), steps[1..]);
    }
  }

  /** If interrupts come only while the processor sleeps, the statements of the recovery add up to the
      specified recovery. */
  lemma AsleepRecoveryIsRecover(s: State, steps: seq<Step>)
    requires Safe(s.world) && s.world.driver.enabled && s.pc == RequestStop
    ensures Bounded(s.world)
    ensures OnlyAsleep(s, steps) && Run(s, steps).pc.Out? ==> Run(s, steps).world == Recover(s.world)
  {
    SafeIsBounded(s.world);
    if OnlyAsleep(s, steps) {
      RunRecovers(s.world, s, steps);
      RecoveryInOneGo(s.world);
    }
  }

  // ----- The recovery comes to its end --------------------------------------------------------

  predicate InRecovery(s: State) {
    && Orderly(s) && !(s.pc == Sample || InLoop(s.pc))
    && (s.pc.Pause? ==> s.world.clock.enabled && s.pc.at != DelaySteps.Out)
  }

  /** The steps that a pause still needs; a clock that has come round to the start of the pause takes
      another tick. */
  function PauseAhead(shown: u32, period: u16, at: DelaySteps.Pc): nat {
    var wraps := Add32(shown, period) == 0;
    match at
    case Look => if shown >= 1 then 1 else 5
    case Drowsy => if wraps then 8 else 4
    case Asleep => if wraps then 7 else 3
    case Out => 0
  }

  function RecoveryAhead(s: State): nat {
    match s.pc
    case RequestStop => 36
    case MarkWaiting => 35
    case TurnOff => 34
    case PauseStart(second) => if second then 13 else 33
    case Pause(second, from, at) =>
      (if second then 4 else 20) + PauseAhead(Sub32(s.world.clock.timestamp, from), s.world.clock.msPerInterrupt, at)
    case PullLow => 19
    case LetHigh => 3
    case TurnOn => 2
    case _ => 0
  }

  function RecoveryNext(pc: Pc): Step {
    if pc.Pause? && pc.at == DelaySteps.Asleep then Happens(Tick) else Go
  }

  lemma RecoveryGoesOn(s: State)
    requires InRecovery(s) && !s.pc.Out?
    ensures var t := Take(s, RecoveryNext(s.pc));
            InRecovery(t) && RecoveryAhead(t) < RecoveryAhead(s)
  {
    TakeKeepsOrder(s, RecoveryNext(s.pc));
    if s.pc.Pause? {
      PauseGoesOn(s);
    } else {
      hide Orderly, Bounded, PauseAhead, Disable, Enable;
      OutOfPauseGoesOn(s);
    }
  }

  lemma OutOfPauseGoesOn(s: State)
    requires Bounded(s.world) && !(s.pc == Sample || InLoop(s.pc)) && !s.pc.Out? && !s.pc.Pause?
    ensures var t := Advance(s);
            && !(t.pc == Sample || InLoop(t.pc)) && RecoveryAhead(t) < RecoveryAhead(s)
            && (t.pc.Pause? ==> t.world.clock.enabled && t.pc.at != DelaySteps.Out)
  {
    hide Disable, Enable;
  }

  lemma PauseGoesOn(s: State)
    requires Bounded(s.world) && s.pc.Pause? && s.world.clock.enabled && s.pc.at != DelaySteps.Out
    ensures var t := Take(s, RecoveryNext(s.pc));
            && (t.pc.Pause? || t.pc == PullLow || t.pc == LetHigh) && RecoveryAhead(t) < RecoveryAhead(s)
            && (t.pc.Pause? ==> t.world.clock.enabled && t.pc.at != DelaySteps.Out)
  {
    ReactionClock(s.world, Tick);
    assert Clock.ValidPeriod(s.world.clock);
    ShownAfterTick(s.world.clock, s.pc.from);
    hide React, Bounded, Clock.Tick, Sub32, Add32;
  }

  lemma ShownAfterTick(c: Clock.ClockState, from: u32)
    requires Clock.ValidPeriod(c)
    ensures Clock.Tick(c).enabled == c.enabled && Clock.Tick(c).msPerInterrupt == c.msPerInterrupt
    ensures Sub32(Clock.Tick(c).timestamp, from) == Add32(Sub32(c.timestamp, from), c.msPerInterrupt)
    ensures Add32(0, c.msPerInterrupt) != 0
  {
  }

  /** From every moment of a recovery, whatever interrupts have come so far, its own statements and a few
      ticks bring it to its return. */
  lemma {:induction false} RecoveryReturns(s: State) returns (steps: seq<Step>)
    requires InRecovery(s)
    ensures Run(s, steps).pc.Out?
    decreases RecoveryAhead(s)
  {
    if s.pc.Out? {
      return [];
    }
    RecoveryGoesOn(s);
    var step := RecoveryNext(s.pc);
    hide InRecovery, Take, RecoveryNext, RecoveryAhead;
    var rest := RecoveryReturns(Take(s, step));
    steps := [step] + rest;
    assert steps[1..] == rest;
  }

  lemma StepKeepsRecovery(s: State, step: Step)
    requires Orderly(s) && (s.pc.Pause? ==> s.world.clock.enabled && s.pc.at != DelaySteps.Out)
    ensures var t := Take(s, step);
            Orderly(t) && (t.pc.Pause? ==> t.world.clock.enabled && t.pc.at != DelaySteps.Out)
  {
    TakeKeepsOrder(s, step);
    match step
    case Happens(irq) =>
      ReactionClock(s.world, irq);
      hide React, Orderly, Clock.Tick;
      assert Clock.Tick(s.world.clock).enabled == s.world.clock.enabled by {
        TickKeepsEnabled(s.world.clock);
      }
    case Go => hide Orderly, Disable, Enable;
  }

  lemma TickKeepsEnabled(c: Clock.ClockState)
    ensures Clock.Tick(c).enabled == c.enabled
  {
  }

  lemma {:induction false} RunKeepsRecovery(s: State, steps: seq<Step>)
    requires Orderly(s) && (s.pc.Pause? ==> s.world.clock.enabled && s.pc.at != DelaySteps.Out)
    ensures var t := Run(s, steps);
            Orderly(t) && (t.pc.Pause? ==> t.world.clock.enabled && t.pc.at != DelaySteps.Out)
    decreases |steps|
  {
    if steps != [] {
      StepKeepsRecovery(s, steps[0]);
      hide Take, Orderly;
      RunKeepsRecovery(Take(s, steps[0]), steps[1..]);
    }
  }

  /** So a call that has left its loop can always return, in every interleaving. */
  lemma EveryRecoveryReturns(b: World, steps: seq<Step>) returns (more: seq<Step>)
    requires I2cData.Begun(b)
    ensures Bounded(b)
    ensures var s := Run(Enter(b), steps);
            s.pc == Sample || InLoop(s.pc) || Run(s, more).pc.Out?
  {
    RunKeepsRecovery(Enter(b), steps);
    var s := Run(Enter(b), steps);
    more := [];
    if !(s.pc == Sample || InLoop(s.pc)) {
      more := RecoveryReturns(s);
    }
  }
}
