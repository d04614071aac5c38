/**
 * The blocking delay as the interrupts see it. It looks at the clock, decides to sleep, and goes to sleep;
 * an interrupt that comes in between is counted but wakes nobody.
 */
module DelaySteps {
  import opened Words
  import opened Clock

  // Drowsy is after a look that decided to sleep, and before the processor does.
  datatype Pc = Look | Drowsy | Asleep | Out

  /** One statement of a delay, given the milliseconds that show. */
  function Next(pc: Pc, shown: u32, num: u32): Pc {
    match pc
    case Look => if shown < num then Drowsy else Out
    case Drowsy => Asleep
    case Asleep => Asleep
    case Out => Out
  }

  function Woken(pc: Pc): Pc {
    if pc == Asleep then Look else pc
  }

  /** A delay, with the ticks since its start and the interrupts since the last look that woke
      nobody. */
  datatype State = State(clock: ClockState, start: u32, pc: Pc, ticks: nat, extra: nat)

  // An interrupt is the timer's tick or another one, which wakes the processor as well.
  datatype Step = Go | Irq(tick: bool)

  function Begin(c: ClockState): State {
    State(c, c.timestamp, Look, 0, 0)
  }

  function Take(s: State, num: u32, step: Step): State {
    match step
    case Go =>
      s.(pc := Next(s.pc, Sub32(s.clock.timestamp, s.start), num), extra := if s.pc == Look then 0 else s.extra)
    case Irq(tick) =>
      if s.pc == Out then s
      else
        s.(clock := if tick then Tick(s.clock) else s.clock,
           pc := Woken(s.pc),
           ticks := if tick then s.ticks + 1 else s.ticks,
           extra := if s.pc == Asleep then s.extra else s.extra + 1)
  }

  function Run(s: State, num: u32, steps: seq<Step>): State
    decreases |steps|
  {
    if steps == [] then s else Run(Take(s, num, steps[0]), num, steps[1..])
  }

  // ----- No delay is too short ----------------------------------------------------------------

  predicate Inv(s: State, c: ClockState, num: u32)
    requires ValidPeriod(c)
  {
    && s.clock == Ticks(c, s.ticks) && s.start == c.timestamp
    && (s.pc == Out ==> num <= Shown(c.msPerInterrupt, s.ticks))
  }

  lemma TakeKeepsInv(s: State, c: ClockState, num: u32, step: Step)
    requires ValidPeriod(c) && Inv(s, c, num)
    ensures Inv(Take(s, num, step), c, num)
    ensures Sub32(s.clock.timestamp, s.start) == Shown(c.msPerInterrupt, s.ticks)
  {
    TicksAdvance(c, s.ticks);
    hide Tick, Shown, Sub32;
  }

  lemma {:induction false} RunKeepsInv(s: State, c: ClockState, num: u32, steps: seq<Step>)
    requires ValidPeriod(c) && Inv(s, c, num)
    ensures Inv(Run(s, num, steps), c, num)
    decreases |steps|
  {
    if steps != [] {
      TakeKeepsInv(s, c, num, steps[0]);
      hide Take, Inv;
      RunKeepsInv(Take(s, num, steps[0]), c, num, steps[1..]);
    }
  }

  /** In every interleaving, a delay that is over has seen at least its time pass. */
  lemma NoDelayReturnsEarly(c: ClockState, num: u32, steps: seq<Step>)
    requires ValidPeriod(c)
    ensures var s := Run(Begin(c), num, steps);
            s.pc == Out ==> Span(c.msPerInterrupt, s.ticks) >= num
  {
    RunKeepsInv(Begin(c), c, num, steps);
    var wraps := ShownIsSpan(c.msPerInterrupt, Run(Begin(c), num, steps).ticks);
    hide Run, Shown;
  }

  // ----- Interrupts that come only while the processor sleeps ---------------------------------

  predicate OnlyAsleep(s: State, num: u32, steps: seq<Step>)
    decreases |steps|
  {
    steps != [] ==> (steps[0].Irq? ==> s.pc == Asleep) && OnlyAsleep(Take(s, num, steps[0]), num, steps[1..])
  }

  /** Before its end such a delay has always seen less than its time. */
  predicate OnTheWay(s: State, period: Period, num: u32)
  {
    var due := DelayTicks(period, num);
    && (s.pc == Look || s.pc == Out ==> s.ticks <= due)
    && (s.pc == Drowsy || s.pc == Asleep ==> s.ticks < due)
    && (s.pc == Out ==> s.ticks == due)
  }

  lemma {:induction false} AsleepKeepsOnTheWay(s: State, c: ClockState, num: u32, steps: seq<Step>)
    requires ValidPeriod(c) && Inv(s, c, num) && OnTheWay(s, c.msPerInterrupt, num) && OnlyAsleep(s, num, steps)
    ensures OnTheWay(Run(s, num, steps), c.msPerInterrupt, num)
    decreases |steps|
  {
    if steps != [] {
      TakeKeepsInv(s, c, num, steps[0]);
      StepKeepsOnTheWay(s, c, num, steps[0]);
      hide Take, Inv, OnTheWay;
      AsleepKeepsOnTheWay(Take(s, num, steps[0]), c, num, steps[1..]);
    }
  }

  lemma StepKeepsOnTheWay(s: State, c: ClockState, num: u32, step: Step)
    requires ValidPeriod(c) && OnTheWay(s, c.msPerInterrupt, num) && (step.Irq? ==> s.pc == Asleep)
    requires Sub32(s.clock.timestamp, s.start) == Shown(c.msPerInterrupt, s.ticks)
    ensures OnTheWay(Take(s, num, step), c.msPerInterrupt, num)
  {
    var due := DelayTicks(c.msPerInterrupt, num);
    assert s.ticks < due ==> Shown(c.msPerInterrupt, s.ticks) < num;
    hide DelayTicks, Bound, Shown, Tick;
  }

  /** If interrupts come only while the processor sleeps, a delay is over after exactly the specified
      number of ticks, in the specified state. */
  lemma AsleepDelayIsExact(c: ClockState, num: u32, steps: seq<Step>)
    requires ValidPeriod(c) && c.enabled && OnlyAsleep(Begin(c), num, steps)
    ensures var s, due := Run(Begin(c), num, steps), DelayTicks(c.msPerInterrupt, num);
            && s.ticks <= due
            && (s.pc == Out ==> s.ticks == due && s.clock == AfterDelay(c, num))
  {
    AsleepKeepsOnTheWay(Begin(c), c, num, steps);
    RunKeepsInv(Begin(c), c, num, steps);
    hide Run, OnlyAsleep, DelayTicks;
  }

  // ----- One interrupt beside the waking one --------------------------------------------------

  /** Between two looks at most one interrupt comes beside the one that wakes the processor. */
  predicate Loose(s: State, num: u32, steps: seq<Step>)
    decreases |steps|
  {
    steps != [] ==>
      && (steps[0].Irq? ==> s.pc == Asleep || s.extra == 0)
      && Loose(Take(s, num, steps[0]), num, steps[1..])
  }

  /** A delay that is over after the ticks that cover its time or one more, and not on its way after
      that. */
  predicate InTime(s: State, period: Period, num: u32)
  {
    s.ticks <= Cover(period, num) + 1 && (s.pc == Out ==> Cover(period, num) <= s.ticks)
  }

  predicate LooseInv(s: State, period: Period, num: u32)
  {
    var cover := Cover(period, num);
    && s.extra <= 1 && InTime(s, period, num)
    && (s.pc == Look ==> s.ticks <= cover + s.extra)
    && (s.pc == Drowsy || s.pc == Asleep ==> s.ticks + 1 <= cover + s.extra)
  }

  lemma ShownBeforeWrap(period: Period, n: nat)
    requires Span(period, n) < TWO_32
    ensures Shown(period, n) == Span(period, n)
  {
    var wraps := ShownIsSpan(period, n);
    hide Shown;
  }

  lemma StepKeepsLoose(s: State, c: ClockState, num: u32, step: Step)
    requires ValidPeriod(c) && LooseInv(s, c.msPerInterrupt, num)
    requires Span(c.msPerInterrupt, Cover(c.msPerInterrupt, num) + 1) < TWO_32
    requires step.Irq? ==> s.pc == Asleep || s.extra == 0
    requires Sub32(s.clock.timestamp, s.start) == Shown(c.msPerInterrupt, s.ticks)
    ensures LooseInv(Take(s, num, step), c.msPerInterrupt, num)
  {
    ShownBeforeWrap(c.msPerInterrupt, s.ticks);
    hide Shown, Tick, Sub32;
  }

  lemma {:induction false} LooseKeepsTime(s: State, c: ClockState, num: u32, steps: seq<Step>)
    requires ValidPeriod(c) && Inv(s, c, num) && LooseInv(s, c.msPerInterrupt, num) && Loose(s, num, steps)
    requires Span(c.msPerInterrupt, Cover(c.msPerInterrupt, num) + 1) < TWO_32
    ensures InTime(Run(s, num, steps), c.msPerInterrupt, num)
    decreases |steps|
  {
    if steps != [] {
      TakeKeepsInv(s, c, num, steps[0]);
      StepKeepsLoose(s, c, num, steps[0]);
      hide Take, Inv, LooseInv, InTime;
      LooseKeepsTime(Take(s, num, steps[0]), c, num, steps[1..]);
    }
  }

  /** Rounds of a delay from one decision to sleep to the next, one tick each. */
  function Rounds(n: nat): seq<Step> {
    if n == 0 then [] else [Go, Irq(true), Go] + Rounds(n - 1)
  }

  function DrowsyAt(c: ClockState, j: nat): State {
    State(Ticks(c, j), c.timestamp, Drowsy, j, 0)
  }

  lemma TakeFirst(s: State, num: u32, step: Step, rest: seq<Step>)
    ensures Run(s, num, [step] + rest) == Run(Take(s, num, step), num, rest)
    ensures Loose(s, num, [step] + rest)
            <==> (step.Irq? ==> s.pc == Asleep || s.extra == 0) && Loose(Take(s, num, step), num, rest)
  {
    hide Take;
    assert ([step] + rest)[1..] == rest;
  }

  lemma TakeThree(s: State, num: u32, a: Step, b: Step, c: Step, rest: seq<Step>)
    ensures Run(s, num, [a, b, c] + rest) == Run(Take(Take(Take(s, num, a), num, b), num, c), num, rest)
    ensures Loose(s, num, [a, b, c] + rest)
            <==> && (a.Irq? ==> s.pc == Asleep || s.extra == 0)
                 && (b.Irq? ==> Take(s, num, a).pc == Asleep || Take(s, num, a).extra == 0)
                 && (c.Irq? ==> Take(Take(s, num, a), num, b).pc == Asleep || Take(Take(s, num, a), num, b).extra == 0)
                 && Loose(Take(Take(Take(s, num, a), num, b), num, c), num, rest)
  {
    hide Take, Run, Loose;
    assert [a, b, c] + rest == [a] + ([b] + ([c] + rest));
    TakeFirst(s, num, a, [b] + ([c] + rest));
    TakeFirst(Take(s, num, a), num, b, [c] + rest);
    TakeFirst(Take(Take(s, num, a), num, b), num, c, rest);
  }

  lemma {:induction false} RoundsGoOn(c: ClockState, num: u32, j: nat, n: nat, rest: seq<Step>)
    requires ValidPeriod(c) && Span(c.msPerInterrupt, j + n) < num
    ensures Run(DrowsyAt(c, j), num, Rounds(n) + rest) == Run(DrowsyAt(c, j + n), num, rest)
    ensures Loose(DrowsyAt(c, j), num, Rounds(n) + rest) <==> Loose(DrowsyAt(c, j + n), num, rest)
    decreases n
  {
    if n == 0 {
      assert Rounds(0) + rest == rest;
    } else {
      assert Rounds(n) + rest == [Go, Irq(true), Go] + (Rounds(n - 1) + rest);
      TakeThree(DrowsyAt(c, j), num, Go, Irq(true), Go, Rounds(n - 1) + rest);
      TicksAdvance(c, j + 1);
      ShownBeforeWrap(c.msPerInterrupt, j + 1);
      assert Take(Take(Take(DrowsyAt(c, j), num, Go), num, Irq(true)), num, Go) == DrowsyAt(c, j + 1);
      hide Run, Loose, Take, Shown;
      RoundsGoOn(c, num, j + 1, n - 1, rest);
    }
  }

  const LastSteps: seq<Step> := [Irq(true), Go, Irq(true)] + ([Go, Irq(true), Go] + [])

  /** Two ticks between two looks, and a look at a timestamp that has wrapped. */
  lemma LastRound(c: ClockState, num: u32, j: nat)
    requires ValidPeriod(c) && Shown(c.msPerInterrupt, j + 2) < num
    ensures Loose(DrowsyAt(c, j), num, LastSteps)
    ensures var s := Run(DrowsyAt(c, j), num, LastSteps); s.pc != Out && s.ticks == j + 3
  {
    var d := DrowsyAt(c, j);
    TakeThree(d, num, Irq(true), Go, Irq(true), [Go, Irq(true), Go] + []);
    var woken := Take(Take(Take(d, num, Irq(true)), num, Go), num, Irq(true));
    assert woken == State(Ticks(c, j + 2), c.timestamp, Look, j + 2, 1);
    TicksAdvance(c, j + 2);
    TakeThree(woken, num, Go, Irq(true), Go, []);
    hide Shown, Tick, Ticks, Sub32;
    assert Take(woken, num, Go) == State(woken.clock, c.timestamp, Drowsy, j + 2, 0);
  }

  lemma WrappedIsBelow(period: Period, num: u32)
    requires Span(period, Cover(period, num) + 1) >= TWO_32
    ensures Cover(period, num) > 0 && Span(period, Cover(period, num) - 1) < num
    ensures Shown(period, Cover(period, num) + 1) < num
  {
    var wraps := ShownIsSpan(period, Cover(period, num) + 1);
    hide Shown;
  }

  /** When the clock wraps at the tick after the covering one, two ticks between the last two looks
      step over the end. */
  lemma SteppedOver(c: ClockState, num: u32) returns (steps: seq<Step>)
    requires ValidPeriod(c) && Span(c.msPerInterrupt, Cover(c.msPerInterrupt, num) + 1) >= TWO_32
    ensures Loose(Begin(c), num, steps) && !InTime(Run(Begin(c), num, steps), c.msPerInterrupt, num)
  {
    var cover := Cover(c.msPerInterrupt, num);
    WrappedIsBelow(c.msPerInterrupt, num);
    steps := [Go] + (Rounds(cover - 1) + LastSteps);
    TakeFirst(Begin(c), num, Go, Rounds(cover - 1) + LastSteps);
    assert Take(Begin(c), num, Go) == DrowsyAt(c, 0);
    hide Shown, Rounds, Run, Loose;
    RoundsGoOn(c, num, 0, cover - 1, LastSteps);
    LastRound(c, num, cover - 1);
  }

  /** With at most one interrupt beside the waking one between two looks, every schedule of a delay is
      over after ceil(num/period) ticks or one more, if and only if that many periods and one more
      stay below 2^32. */
  lemma LooseDelayExactly(c: ClockState, num: u32)
    requires ValidPeriod(c)
    ensures (forall steps :: Loose(Begin(c), num, steps) ==> InTime(Run(Begin(c), num, steps), c.msPerInterrupt, num))
            <==> Span(c.msPerInterrupt, Cover(c.msPerInterrupt, num) + 1) < TWO_32
  {
    if Span(c.msPerInterrupt, Cover(c.msPerInterrupt, num) + 1) < TWO_32 {
      forall steps | Loose(Begin(c), num, steps)
        ensures InTime(Run(Begin(c), num, steps), c.msPerInterrupt, num)
      {
        LooseKeepsTime(Begin(c), c, num, steps);
      }
    } else {
      var steps := SteppedOver(c, num);
    }
  }

  /** One millisecond can take two ticks: the first comes between the look and the sleep. */
  lemma OneMillisecondTakesTwo()
    ensures var s := Run(Begin(Initial), 1, [Go, Irq(true), Go] + ([Irq(true)] + ([Go] + [])));
            s.pc == Out && s.ticks == 2
  {
    var s1 := Begin(Initial);
    TakeThree(s1, 1, Go, Irq(true), Go, [Irq(true)] + ([Go] + []));
    var s4 := Take(Take(Take(s1, 1, Go), 1, Irq(true)), 1, Go);
    assert s4.pc == Asleep && s4.ticks == 1 && s4.clock.timestamp == 1;
    TakeFirst(s4, 1, Irq(true), [Go] + []);
    TakeFirst(Take(s4, 1, Irq(true)), 1, Go, []);
    assert Take(s4, 1, Irq(true)).clock.timestamp == 2;
  }
}
