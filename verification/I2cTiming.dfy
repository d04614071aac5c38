/**
 * How long a transfer call waits when interrupts come at any moment: a bound for schedules with one interrupt
 * beside the waking one, where it fails, and the runs in which interrupts come only during sleep.
 */
module I2cTiming {
  import opened Words
  import opened I2c
  import opened I2cData
  import opened I2cSteps
  import Clock

  /** Between two looks at the clock at most one interrupt comes beside the one that wakes the
      processor, and none that the routine ignores. */
  predicate Loose(s: State, steps: seq<Step>)
    requires Bounded(s.world)
    decreases |steps|
  {
    steps != [] ==> LooseStep(s, steps[0]) && Loose(Take(s, steps[0]), steps[1..])
  }

  predicate LooseStep(s: State, step: Step) {
    step.Happens? ==> step.irq != Ignored && (!InLoop(s.pc) || s.pc == Sleeping || s.extra == 0)
  }

  /** The interrupts that the loop may take: the due ticks and one more, and those of the transfer. */
  function Allowance(b: World): nat
    requires Begun(b)
  {
    DueTicks(b.clock.msPerInterrupt) + 1 + Steps(b)
  }

  /** No two ticks can step over the deadline to the end of the 32-bit range. */
  predicate DeadlineIsSafe(start: u32, period: Clock.Period)
  {
    start + TIMEOUT_MS >= TWO_32 || start + Clock.Span(period, DueTicks(period) + 1) < TWO_32
  }

  // ----- The bound ----------------------------------------------------------------------------

  /** How far a loop has come, by its position. */
  predicate Paced(b: World, s: State)
    requires Begun(b) && Safe(s.world)
  {
    var due, n := DueTicks(b.clock.msPerInterrupt), Steps(b);
    && s.extra <= 1
    && (s.world.driver.mode != Waiting ==> s.used + Remaining(s.world) <= s.ticks + n)
    && match s.pc
       case Sample => s.used == s.ticks == s.extra == 0
       case LookState => s.ticks < due + s.extra && (s.world.driver.mode == Waiting ==> s.used <= due + n + s.extra)
       case LookClock =>
         s.ticks <= due + s.extra && (s.world.driver.mode == Waiting ==> s.used + 1 <= due + n + s.extra)
       case _ =>
         s.ticks < due + s.extra && (s.world.driver.mode == Waiting ==> s.extra == 1 && s.used < due + n)
  }

  predicate InPace(b: World, s: State)
    requires Begun(b)
  {
    if s.pc == Sample || InLoop(s.pc) then Safe(s.world) && ClockShows(b, s) && Paced(b, s)
    else s.used <= Allowance(b)
  }

  lemma PacedIsAllowed(b: World, s: State)
    requires Begun(b) && InPace(b, s)
    ensures s.used <= Allowance(b)
  {
  }

  /** What an interrupt does to the interrupts still needed. */
  lemma ReactionProgress(w: World, irq: Irq)
    requires Safe(w) && irq != Ignored
    ensures var r := Interrupt(w, irq);
            && (w.driver.mode == Waiting ==> r.driver.mode == Waiting)
            && (irq == Tick ==> r.driver.mode == w.driver.mode && Remaining(r) == Remaining(w))
            && (irq != Tick && w.driver.mode != Waiting ==> Remaining(r) < Remaining(w))
            && (r.driver.mode == Waiting ==> Remaining(r) == 0)
            && (w.driver.mode != Waiting ==> Remaining(w) > 0)
  {
    if irq == Protocol && w.driver.mode != Waiting {
      ProtocolMakesProgress(w);
    }
  }

  lemma HappenKeepsPace(b: World, s: State, irq: Irq)
    requires Begun(b) && b.clock.enabled && (s.pc == Sample || InLoop(s.pc))
    requires InPace(b, s) && LooseStep(s, Happens(irq))
    ensures Bounded(s.world) && InPace(b, Happen(s, irq))
  {
    SafeReaction(s.world, irq);
    ReactionProgress(s.world, irq);
    HappenShows(b, s, irq);
    hide React, Interrupt, Remaining, Begun, Safe, ClockShows, Clock.Cover;
  }

  /** A look at or after the due ticks sees the deadline. */
  lemma LookSeesDeadline(b: World, s: State)
    requires Begun(b) && ClockShows(b, s) && s.pc == LookClock && DeadlineIsSafe(s.start, b.clock.msPerInterrupt)
    requires DueTicks(b.clock.msPerInterrupt) <= s.ticks <= DueTicks(b.clock.msPerInterrupt) + 1
    ensures s.world.clock.timestamp >= Deadline(s)
  {
    DelaySteps.ShownBeforeWrap(b.clock.msPerInterrupt, s.ticks);
    hide Clock.Shown;
  }

  lemma AdvanceKeepsPace(b: World, s: State)
    requires Begun(b) && Bounded(s.world) && InPace(b, s)
    requires s.pc != Sample ==> DeadlineIsSafe(s.start, b.clock.msPerInterrupt)
    ensures InPace(b, Advance(s))
  {
    if s.pc == Sample || InLoop(s.pc) {
      LoopKeepsWorld(s);
      PacedIsAllowed(b, s);
      if s.pc == LookClock && s.ticks >= DueTicks(b.clock.msPerInterrupt) {
        LookSeesDeadline(b, s);
      }
    }
    hide Begun, Safe, Remaining, Bounded;
  }

  lemma HappenOutside(b: World, s: State, irq: Irq)
    requires Begun(b) && Bounded(s.world) && InPace(b, s) && !(s.pc == Sample || InLoop(s.pc))
    ensures InPace(b, Happen(s, irq))
  {
    hide React, Begun;
  }

  lemma {:induction false} LooseKeepsPace(b: World, s: State, steps: seq<Step>)
    requires Begun(b) && b.clock.enabled && Bounded(s.world) && InPace(b, s) && Loose(s, steps)
    requires s.pc != Sample && DeadlineIsSafe(s.start, b.clock.msPerInterrupt)
    ensures Run(s, steps).used <= Allowance(b)
    decreases |steps|
  {
    if steps == [] {
      PacedIsAllowed(b, s);
    } else {
      match steps[0] {
        case Go => AdvanceKeepsPace(b, s);
        case Happens(irq) =>
          if InLoop(s.pc) {
            HappenKeepsPace(b, s, irq);
          } else {
            HappenOutside(b, s, irq);
          }
      }
      StartStays(s, steps[0]);
      hide Take, InPace, Begun, Bounded, DeadlineIsSafe, LooseStep;
      LooseKeepsPace(b, Take(s, steps[0]), steps[1..]);
    }
  }

  lemma StartStays(s: State, step: Step)
    requires Bounded(s.world) && s.pc != Sample
    ensures Take(s, step).start == s.start && Take(s, step).pc != Sample
  {
    hide React;
  }

  /** Interrupts between the START and the sample of the clock. */
  predicate Early(steps: seq<Step>) {
    forall step :: step in steps ==> step.Happens? && step.irq != Ignored
  }

  lemma {:induction false} EarlyKeepsPace(b: World, s: State, steps: seq<Step>)
    requires Begun(b) && b.clock.enabled && Bounded(s.world) && s.pc == Sample && InPace(b, s) && Early(steps)
    ensures Run(s, steps).pc == Sample && InPace(b, Run(s, steps))
    decreases |steps|
  {
    if steps != [] {
      assert steps[0] in steps;
      HappenKeepsPace(b, s, steps[0].irq);
      assert Happen(s, steps[0].irq).pc == Sample by {
        hide React;
      }
      hide Happen, InPace, Begun, Bounded;
      EarlyKeepsPace(b, Take(s, steps[0]), steps[1..]);
    }
  }

  lemma EntryIsPaced(b: World)
    requires Begun(b)
    ensures Bounded(b) && InPace(b, Enter(b))
  {
  }

  // ----- Where the bound fails ----------------------------------------------------------------

  lemma {:induction false} InParts(s: State, first: seq<Step>, rest: seq<Step>)
    requires Bounded(s.world)
    ensures Run(s, first + rest) == Run(Run(s, first), rest)
    ensures Loose(s, first + rest) <==> Loose(s, first) && Loose(Run(s, first), rest)
    decreases |first|
  {
    hide Take, LooseStep;
    if first == [] {
      assert first + rest == rest;
    } else {
      assert (first + rest)[1..] == first[1..] + rest;
      InParts(Take(s, first[0]), first[1..], rest);
    }
  }

  lemma OneStep(s: State, step: Step)
    requires Bounded(s.world)
    ensures Run(s, [step]) == Take(s, step) && (Loose(s, [step]) <==> LooseStep(s, step))
  {
    hide Take, LooseStep;
    assert [step][1..] == [];
    assert Run(Take(s, step), []) == Take(s, step);
  }

  lemma FourSteps(s: State, x: Step, y: Step, z: Step, u: Step)
    requires Bounded(s.world)
    ensures Run(s, [x, y] + [z, u]) == Take(Take(Take(Take(s, x), y), z), u)
    ensures Loose(s, [x, y] + [z, u])
            <==> && LooseStep(s, x) && LooseStep(Take(s, x), y)
                 && LooseStep(Take(Take(s, x), y), z) && LooseStep(Take(Take(Take(s, x), y), z), u)
  {
    hide Take, LooseStep;
    var s1, s2 := Take(s, x), Take(Take(s, x), y);
    OneStep(s, x);
    OneStep(s1, y);
    OneStep(s2, z);
    OneStep(Take(s2, z), u);
    InParts(s, [x], [y]);
    InParts(s2, [z], [u]);
    assert [x] + [y] == [x, y] && [z] + [u] == [z, u];
    InParts(s, [x, y], [z, u]);
  }

  /** A loop about to sleep, still in its transfer. */
  predicate AboutToSleep(b: World, s: State)
    requires Begun(b)
  {
    s.pc == Drowsy && Safe(s.world) && s.world.driver.mode != Waiting && ClockShows(b, s)
  }

  function StampAt(b: World, s: State, ticks: nat): u32
    requires Begun(b)
  {
    Add32(s.start, Clock.Shown(b.clock.msPerInterrupt, ticks))
  }

  lemma TickAlone(w: World)
    requires Safe(w) && w.clock.enabled
    ensures React(w, Tick) == w.(clock := Clock.Tick(w.clock)) && Safe(React(w, Tick))
  {
  }

  /** One round of the loop: it sleeps, a tick wakes it, and it sees the clock below its deadline. */
  lemma TickRound(b: World, s: State) returns (t: State)
    requires Begun(b) && b.clock.enabled && AboutToSleep(b, s)
    requires StampAt(b, s, s.ticks + 1) < Deadline(s)
    ensures Bounded(s.world)
    ensures t == Run(s, [Go, Happens(Tick)] + [Go, Go]) && Loose(s, [Go, Happens(Tick)] + [Go, Go])
    ensures AboutToSleep(b, t) && t.start == s.start && t.ticks == s.ticks + 1 && t.used == s.used + 1
    ensures t.refused == s.refused && t.extra == 0
  {
    TickAlone(s.world);
    FourSteps(s, Go, Happens(Tick), Go, Go);
    var s1 := Advance(s);
    assert s1 == s.(pc := Sleeping);
    HappenShows(b, s1, Tick);
    var s2 := Happen(s1, Tick);
    assert s2.pc == LookClock && s2.ticks == s.ticks + 1 && s2.refused == s.refused;
    t := Run(s, [Go, Happens(Tick)] + [Go, Go]);
    hide Safe, React, ClockShows, Run, Clock.Shown, Clock.Tick;
    assert Advance(s2).pc == LookState;
    assert t == Advance(Advance(s2));
    assert ClockShows(b, t) by {
      ShowsSame(b, s2, t);
    }
  }

  lemma ShowsSame(b: World, s: State, t: State)
    requires Begun(b) && ClockShows(b, s) && s.pc != Sample && t.pc != Sample
    requires t.world == s.world && t.start == s.start && t.ticks == s.ticks
    ensures ClockShows(b, t)
  {
  }

  /** Two ticks between two looks: one comes between the look and the sleep. */
  lemma DoubleRound(b: World, s: State) returns (t: State)
    requires Begun(b) && b.clock.enabled && AboutToSleep(b, s) && s.extra == 0
    requires StampAt(b, s, s.ticks + 2) < Deadline(s)
    ensures Bounded(s.world)
    ensures t == Run(s, [Happens(Tick)] + ([Go, Happens(Tick)] + [Go, Go]))
    ensures Loose(s, [Happens(Tick)] + ([Go, Happens(Tick)] + [Go, Go]))
    ensures AboutToSleep(b, t) && t.start == s.start && t.ticks == s.ticks + 2 && t.used == s.used + 2 && t.extra == 0
  {
    var s1 := TickUnnoticed(b, s);
    hide AboutToSleep, Begun, Run, Loose, Take, Bounded;
    OneStep(s, Happens(Tick));
    InParts(s, [Happens(Tick)], [Go, Happens(Tick)] + [Go, Go]);
    t := TickRound(b, s1);
  }

  lemma TickUnnoticed(b: World, s: State) returns (t: State)
    requires Begun(b) && b.clock.enabled && AboutToSleep(b, s)
    ensures Bounded(s.world) && t == Take(s, Happens(Tick))
    ensures AboutToSleep(b, t) && t.start == s.start && t.ticks == s.ticks + 1 && t.used == s.used + 1
  {
    TickAlone(s.world);
    HappenShows(b, s, Tick);
    t := Happen(s, Tick);
    hide React, Clock.Tick, ClockShows, Begun;
  }

  /** When two ticks can step over the deadline, the looks before it and those soon after the wrap see
      the clock below it. */
  lemma StampsBelow(b: World, s: State, ticks: nat)
    requires Begun(b) && !DeadlineIsSafe(s.start, b.clock.msPerInterrupt)
    requires ticks <= DueTicks(b.clock.msPerInterrupt) + 300 && ticks != DueTicks(b.clock.msPerInterrupt)
    ensures StampAt(b, s, ticks) < Deadline(s)
  {
    DelaySteps.ShownBeforeWrap(b.clock.msPerInterrupt, ticks);
    hide Clock.Shown;
  }

  lemma {:induction false} WaitsOn(b: World, s: State) returns (steps: seq<Step>)
    requires Begun(b) && b.clock.enabled && AboutToSleep(b, s) && s.used == s.ticks && s.extra == 0
    requires !DeadlineIsSafe(s.start, b.clock.msPerInterrupt) && s.ticks != DueTicks(b.clock.msPerInterrupt)
    ensures Bounded(s.world) && Loose(s, steps) && Run(s, steps).used > Allowance(b)
    decreases Allowance(b) + 1 - s.ticks
  {
    assert Allowance(b) <= DueTicks(b.clock.msPerInterrupt) + 258;
    if s.ticks > Allowance(b) {
      return [];
    }
    hide Begun, AboutToSleep, DueTicks, Loose, Run, Allowance, DeadlineIsSafe;
    var t: State, round: seq<Step>;
    if s.ticks + 1 == DueTicks(b.clock.msPerInterrupt) {
      StampsBelow(b, s, s.ticks + 2);
      t := DoubleRound(b, s);
      round := [Happens(Tick)] + ([Go, Happens(Tick)] + [Go, Go]);
    } else {
      StampsBelow(b, s, s.ticks + 1);
      t := TickRound(b, s);
      round := [Go, Happens(Tick)] + [Go, Go];
    }
    var rest := WaitsOn(b, t);
    InParts(s, round, rest);
    steps := round + rest;
  }

  /** A call that has sampled the clock, after some interrupts since its START. */
  function AfterSample(b: World, early: seq<Step>): (s: State)
    requires Begun(b) && Early(early)
    ensures Bounded(b) && Bounded(s.world)
  {
    Advance(Run(Enter(b), early))
  }

  /** With the clock running and at most one interrupt beside the waking one between two looks, every
      schedule leaves the loop within due + 1 + n + 2 interrupts, if and only if no two ticks can
      step over the deadline, unless the transfer was over at the sample already. */
  lemma LooseLoopExactly(b: World, early: seq<Step>)
    requires Begun(b) && b.clock.enabled && Early(early)
    ensures var s := AfterSample(b, early);
            s.world.driver.mode != Waiting ==>
              ((forall steps :: Loose(s, steps) ==> Run(s, steps).used <= Allowance(b))
               <==> DeadlineIsSafe(s.start, b.clock.msPerInterrupt))
  {
    var s := AfterSample(b, early);
    EntryIsPaced(b);
    EarlyKeepsPace(b, Enter(b), early);
    if s.world.driver.mode != Waiting {
      if DeadlineIsSafe(s.start, b.clock.msPerInterrupt) {
        forall steps | Loose(s, steps)
          ensures Run(s, steps).used <= Allowance(b)
        {
          AfterSampleIsPaced(b, Run(Enter(b), early));
          LooseKeepsPace(b, s, steps);
        }
      } else {
        var more := StepsOver(b, Run(Enter(b), early));
        assert Loose(s, more);
      }
    }
  }

  lemma AfterSampleIsPaced(b: World, s: State)
    requires Begun(b) && Bounded(s.world) && InPace(b, s) && s.pc == Sample
    ensures InPace(b, Advance(s)) && Advance(s).pc == LookState
  {
    AdvanceKeepsPace(b, s);
  }

  lemma StepsOver(b: World, s: State) returns (steps: seq<Step>)
    requires Begun(b) && b.clock.enabled && Bounded(s.world) && InPace(b, s) && s.pc == Sample
    requires s.world.driver.mode != Waiting && !DeadlineIsSafe(s.world.clock.timestamp, b.clock.msPerInterrupt)
    ensures Loose(Advance(s), steps) && Run(Advance(s), steps).used > Allowance(b)
  {
    var s1 := Advance(s);
    var s2 := Advance(s1);
    assert AboutToSleep(b, s2) && s2.used == s2.ticks == s2.extra == 0 && s2.start == s.world.clock.timestamp;
    var rest := WaitsOn(b, s2);
    OneStep(s1, Go);
    InParts(s1, [Go], rest);
    steps := [Go] + rest;
  }

  /** In fast mode one start is shut out, 2^32 - 2501; in slow mode those from 2^32 - 5997 to
      2^32 - 2501. */
  lemma UnsafeStarts(start: u32, period: Clock.Period)
    ensures DeadlineIsSafe(start, period)
            <==> if period == Clock.FAST_MS then start != TWO_32 - 2501
                 else !(TWO_32 - 5997 <= start < TWO_32 - 2500)
  {
  }

  // ----- A finished transfer that is given up -------------------------------------------------

  /** One round of the loop with an interrupt of the transfer, not its last. */
  lemma ProtocolRound(b: World, s: State) returns (t: State)
    requires Begun(b) && AboutToSleep(b, s) && Remaining(s.world) > 1
    requires StampAt(b, s, s.ticks) < Deadline(s)
    ensures Bounded(s.world)
    ensures t == Run(s, [Go, Happens(Protocol)] + [Go, Go]) && Loose(s, [Go, Happens(Protocol)] + [Go, Go])
    ensures AboutToSleep(b, t) && t.start == s.start && t.ticks == s.ticks && t.refused == s.refused
    ensures Remaining(t.world) == Remaining(s.world) - 1 && t.extra == 0
  {
    SafeReaction(s.world, Protocol);
    ProtocolMakesProgress(s.world);
    FourSteps(s, Go, Happens(Protocol), Go, Go);
    var s1 := Advance(s);
    assert s1 == s.(pc := Sleeping);
    HappenShows(b, s1, Protocol);
    var s2 := Happen(s1, Protocol);
    assert s2.pc == LookClock && s2.ticks == s.ticks;
    t := Run(s, [Go, Happens(Protocol)] + [Go, Go]);
    assert s2.world.driver.mode != Waiting;
    hide Safe, React, ClockShows, Run, Clock.Shown, Interrupt, Remaining;
    assert Advance(s2).pc == LookState;
    assert t == Advance(Advance(s2));
    ShowsSame(b, s2, t);
  }

  lemma {:induction false} UpToLastInterrupt(b: World, s: State) returns (steps: seq<Step>)
    requires Begun(b) && AboutToSleep(b, s) && s.extra == 0 && StampAt(b, s, s.ticks) < Deadline(s)
    ensures Bounded(s.world) && Loose(s, steps)
    ensures var t := Run(s, steps);
            && AboutToSleep(b, t) && Remaining(t.world) == 1 && t.extra == 0
            && t.start == s.start && t.ticks == s.ticks && t.refused == s.refused
    decreases Remaining(s.world)
  {
    ReactionProgress(s.world, Tick);
    if Remaining(s.world) == 1 {
      return [];
    }
    hide Begun, AboutToSleep, Loose, Run, Remaining;
    var t := ProtocolRound(b, s);
    var rest := UpToLastInterrupt(b, t);
    InParts(s, [Go, Happens(Protocol)] + [Go, Go], rest);
    steps := [Go, Happens(Protocol)] + [Go, Go] + rest;
  }

  lemma {:induction false} UpToLastTick(b: World, s: State) returns (steps: seq<Step>)
    requires Begun(b) && b.clock.enabled && AboutToSleep(b, s) && s.extra == 0
    requires s.ticks < DueTicks(b.clock.msPerInterrupt)
    requires s.start + TIMEOUT_MS < TWO_32
    ensures Bounded(s.world) && Loose(s, steps)
    ensures var t := Run(s, steps);
            && AboutToSleep(b, t) && t.start == s.start && t.refused == s.refused && t.extra == 0
            && t.ticks == DueTicks(b.clock.msPerInterrupt) - 1
    decreases DueTicks(b.clock.msPerInterrupt) - s.ticks
  {
    if s.ticks + 1 == DueTicks(b.clock.msPerInterrupt) {
      return [];
    }
    EarlyStamp(b, s, s.ticks + 1);
    hide Begun, AboutToSleep, Loose, Run, DueTicks;
    var t := TickRound(b, s);
    var rest := UpToLastTick(b, t);
    InParts(s, [Go, Happens(Tick)] + [Go, Go], rest);
    steps := [Go, Happens(Tick)] + [Go, Go] + rest;
  }

  lemma EarlyStamp(b: World, s: State, ticks: nat)
    requires Begun(b) && s.start + TIMEOUT_MS < TWO_32 && ticks < DueTicks(b.clock.msPerInterrupt)
    ensures StampAt(b, s, ticks) < Deadline(s)
  {
    DelaySteps.ShownBeforeWrap(b.clock.msPerInterrupt, ticks);
    hide Clock.Shown;
  }

  /** The last interrupt of the transfer wakes the loop, and a tick comes before the look. */
  lemma TickBeforeLook(b: World, s: State)
    requires Begun(b) && b.clock.enabled && AboutToSleep(b, s) && Remaining(s.world) == 1 && s.extra == 0
    requires s.ticks + 1 == DueTicks(b.clock.msPerInterrupt) && DeadlineIsSafe(s.start, b.clock.msPerInterrupt)
    ensures Bounded(s.world) && Loose(s, [Go, Happens(Protocol)] + [Happens(Tick), Go])
    ensures var t := Run(s, [Go, Happens(Protocol)] + [Happens(Tick), Go]);
            t.pc == RequestStop && t.world.driver.mode == Waiting && t.refused == s.refused
  {
    SafeReaction(s.world, Protocol);
    ProtocolMakesProgress(s.world);
    FourSteps(s, Go, Happens(Protocol), Happens(Tick), Go);
    var s1 := Advance(s);
    assert s1 == s.(pc := Sleeping);
    HappenShows(b, s1, Protocol);
    var s2 := Happen(s1, Protocol);
    assert s2.pc == LookClock && s2.ticks == s.ticks && s2.extra == 0;
    ReactionProgress(s.world, Protocol);
    assert Remaining(s2.world) == 0 && Safe(s2.world);
    NothingRemains(s2.world);
    WaitingStays(s2.world, Tick);
    HappenShows(b, s2, Tick);
    var s3 := Happen(s2, Tick);
    assert s3.pc == LookClock && s3.ticks == s.ticks + 1 && s3.start == s.start;
    LookSeesDeadline(b, s3);
    hide React, Run, Interrupt, Remaining, Safe, Begun, ClockShows;
    assert Run(s, [Go, Happens(Protocol)] + [Happens(Tick), Go]) == Advance(s3);
    assert Loose(s, [Go, Happens(Protocol)] + [Happens(Tick), Go]);
  }

  lemma NothingRemains(w: World)
    requires Safe(w) && Remaining(w) == 0
    ensures w.driver.mode == Waiting
  {
  }

  /** Every transfer can be finished, without a refusal and before its time is over, and be given up all
      the same: it takes one tick between the interrupt that finishes it and the look at the clock. */
  lemma FinishedCallIsGivenUp(b: World) returns (steps: seq<Step>)
    requires Begun(b) && b.clock.enabled && b.clock.timestamp + TIMEOUT_MS < TWO_32
    requires DeadlineIsSafe(b.clock.timestamp, b.clock.msPerInterrupt)
    ensures var s := AfterSample(b, []);
            && Loose(s, steps)
            && Run(s, steps).pc == RequestStop && Finished(b, Run(s, steps).world)
  {
    var s := AfterSample(b, []);
    var s1 := Advance(s);
    EntryIsPaced(b);
    assert Run(Enter(b), []) == Enter(b);
    assert AboutToSleep(b, s1) && s1.ticks == 0 && s1.start == b.clock.timestamp && !s1.refused;
    var first := UpToLastTick(b, s1);
    var s2 := Run(s1, first);
    EarlyStamp(b, s2, s2.ticks);
    var second := UpToLastInterrupt(b, s2);
    var s3 := Run(s2, second);
    var last := [Go, Happens(Protocol)] + [Happens(Tick), Go];
    TickBeforeLook(b, s3);
    hide Begun, AboutToSleep, Loose, Run, DueTicks, Remaining, DeadlineIsSafe;
    InParts(s2, second, last);
    InParts(s1, first, second + last);
    OneStep(s, Go);
    InParts(s, [Go], first + (second + last));
    steps := [Go] + (first + (second + last));
    EntryIsExplained(b);
    AdvanceIsExplained(b, Enter(b));
    assert s == Advance(Enter(b));
    RunIsExplained(b, s, steps);
    GivenUpButFinished(b, Run(s, steps));
  }

  lemma GivenUpButFinished(b: World, s: State)
    requires Begun(b) && Explained(b, s) && s.pc == RequestStop && s.world.driver.mode == Waiting && !s.refused
    ensures Finished(b, s.world)
  {
    if s.protocol < Steps(b) {
      TransferStep(b, s.protocol);
      assert false;
    }
    hide At;
  }
}
