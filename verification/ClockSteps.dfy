/**
 * The calls into the millisecond clock as the timer interrupt sees them. The interrupt is enabled while
 * a call is under way, so a call is here a series of single reads and stores, and the interrupt comes
 * between any two of them. The delay, which waits for the interrupt, has a module of its own.
 */
module ClockSteps {
  import opened Words
  import opened Clock

  // The next read or store of the call under way; a sum has been read but is not stored yet. Initialisation
  // enables the clock, if it is not, and then goes on with its own stores.
  datatype Pc =
    | Outside
    | RegisterSum(cb: Callback, ms: u32) | RegisterCount(cb: Callback, sum: u32) | RegisterCallback(cb: Callback)
    | CancelCallback | CancelCount
    | SwitchTicks(slow: bool) | SwitchCompare(slow: bool) | SwitchPeriod(slow: bool) | SwitchSum | SwitchCount(sum: u32)
    | EnableTicks(init: bool) | EnableCompare(init: bool) | EnableTimer(init: bool) | EnablePeriod(init: bool)
    | EnableSum(init: bool) | EnableCount(init: bool, sum: u32) | EnableDone(init: bool)
    | DisableTimer | DisableDone
    | InitTimestamp | InitCallback | InitCount

  /** timer says whether the timer runs and raises interrupts. */
  datatype State = State(clock: ClockState, timer: bool, pc: Pc)

  datatype Step = Irq | Go | Call(event: Event) | Initialise

  const Start: State := State(Clock.Initial, true, Outside)

  function Rounded(base: u32, c: ClockState): u32 {
    Add32(base, if c.msPerInterrupt == FAST_MS then 0 else Leftover(SLOW_MS, c.remaining))
  }

  /** Enters a call: which branch it takes is decided at once. */
  function Enter(s: State, e: Event): State {
    s.(pc := match e
             case Interrupt => Outside
             case SlowTimer(slow) => SwitchTicks(slow)
             case Register(cb, ms) => if cb.None? || ms == 0 then CancelCallback else RegisterSum(cb.value, ms)
             case Enable => if s.clock.enabled then Outside else EnableTicks(false)
             case Disable => if s.clock.enabled then DisableTimer else Outside)
  }

  /** One read or store. */
  function Advance(s: State): State {
    var c := s.clock;
    match s.pc
    case Outside => s
    case RegisterSum(cb, ms) => s.(pc := RegisterCount(cb, Rounded(ms, c)))
    case RegisterCount(cb, sum) => s.(clock := c.(remaining := sum), pc := RegisterCallback(cb))
    case RegisterCallback(cb) => s.(clock := c.(callback := Some(cb)), pc := Outside)
    case CancelCallback => s.(clock := c.(callback := None), pc := CancelCount)
    case CancelCount => s.(clock := c.(remaining := 0), pc := Outside)
    case SwitchTicks(slow) =>
      s.(clock := c.(ticksPerInterrupt := if slow then SLOW_TICKS else FAST_TICKS), pc := SwitchCompare(slow))
    case SwitchCompare(slow) => s.(clock := c.(compare := c.ticksPerInterrupt), pc := SwitchPeriod(slow))
    case SwitchPeriod(slow) =>
      s.(clock := c.(msPerInterrupt := if slow then SLOW_MS else FAST_MS), pc := if slow then SwitchSum else Outside)
    case SwitchSum => s.(pc := SwitchCount(Rounded(c.remaining, c)))
    case SwitchCount(sum) => s.(clock := c.(remaining := sum), pc := Outside)
    case EnableTicks(init) => s.(clock := c.(ticksPerInterrupt := FAST_TICKS), pc := EnableCompare(init))
    case EnableCompare(init) => s.(clock := c.(compare := c.ticksPerInterrupt), pc := EnableTimer(init))
    case EnableTimer(init) => s.(timer := true, pc := EnablePeriod(init))
    case EnablePeriod(init) => s.(clock := c.(msPerInterrupt := FAST_MS), pc := EnableSum(init))
    case EnableSum(init) => s.(pc := EnableCount(init, Rounded(c.remaining, c)))
    case EnableCount(init, sum) => s.(clock := c.(remaining := sum), pc := EnableDone(init))
    case EnableDone(init) => s.(clock := c.(enabled := true), pc := if init then InitTimestamp else Outside)
    case DisableTimer => s.(timer := false, pc := DisableDone)
    case DisableDone => s.(clock := c.(enabled := false), pc := Outside)
    case InitTimestamp => s.(clock := c.(timestamp := 0), pc := InitCallback)
    case InitCallback => s.(clock := c.(callback := None), pc := InitCount)
    case InitCount => s.(clock := c.(remaining := 0), pc := Outside)
  }

  function Take(s: State, step: Step): State {
    match step
    case Irq => if s.timer then s.(clock := Tick(s.clock)) else s
    case Go => Advance(s)
    case Call(e) => if s.pc.Outside? then Enter(s, e) else s
    case Initialise =>
      if s.pc.Outside? then s.(pc := if s.clock.enabled then InitTimestamp else EnableTicks(true)) else s
  }

  function RunSteps(s: State, steps: seq<Step>): State
    decreases |steps|
  {
    if steps == [] then s else RunSteps(Take(s, steps[0]), steps[1..])
  }

  // ----- A call that is not interrupted -------------------------------------------------------

  function Advances(s: State, n: nat): State
    decreases n
  {
    if n == 0 then s else Advances(Advance(s), n - 1)
  }

  predicate AtRest(s: State) {
    s.pc.Outside? && s.timer == s.clock.enabled && ValidPeriod(s.clock)
  }

  /** With interrupts masked, the reads and stores of a call add up to the call as one event. */
  lemma MaskedCallIsOneEvent(s: State, e: Event)
    requires AtRest(s) && e != Interrupt
    ensures var t := Advances(Take(s, Call(e)), 7);
            AtRest(t) && t.clock == Apply(s.clock, e)
  {
    var s0 := Take(s, Call(e));
    if e == Enable && !s.clock.enabled {
      EnableStores(s0, false, 0);
    } else {
      ThreeAdvances(s0, 4);
      var s3 := Advance(Advance(Advance(s0)));
      ThreeAdvances(s3, 1);
      var s6 := Advance(Advance(Advance(s3)));
      OneAdvance(s6);
      ShortCall(s, e);
      hide Advances;
      assert s6 == (if s3.pc == SwitchSum then Advance(Advance(s3)) else s3);
    }
  }

  /** An enabled clock, after the seven steps of enabling. */
  function Enabled(s: State, init: bool): State {
    State(s.clock.(ticksPerInterrupt := FAST_TICKS, compare := FAST_TICKS, msPerInterrupt := FAST_MS, enabled := true),
          true, if init then InitTimestamp else Outside)
  }

  lemma EnableStores(s: State, init: bool, n: nat)
    requires s.pc == EnableTicks(init)
    ensures Advances(s, n + 7) == Advances(Enabled(s, init), n)
  {
    ThreeAdvances(s, n + 4);
    var s3 := Advance(Advance(Advance(s)));
    assert s3.pc == EnablePeriod(init) && s3.timer && s3.clock.enabled == s.clock.enabled;
    ThreeAdvances(s3, n + 1);
    var s6 := Advance(Advance(Advance(s3)));
    assert s6 == s3.(clock := s3.clock.(msPerInterrupt := FAST_MS), pc := EnableDone(init));
    assert Advances(s6, n + 1) == Advances(Advance(s6), n);
    hide Advances, Rounded;
  }

  /** With interrupts masked, an initialisation leaves the clock enabled at timestamp zero, with neither
      countdown nor callback. */
  lemma MaskedInitialisation(s: State)
    requires AtRest(s)
    ensures var t := Advances(Take(s, Initialise), if s.clock.enabled then 3 else 10);
            && AtRest(t)
            && t.clock == Apply(s.clock, Enable).(timestamp := 0, callback := None, remaining := 0)
  {
    var s0 := Take(s, Initialise);
    if s.clock.enabled {
      InitialStores(s0);
    } else {
      EnableStores(s0, true, 3);
      var s7 := Enabled(s0, true);
      InitialStores(s7);
    }
    hide Advances, Rounded;
  }

  lemma InitialStores(s: State)
    requires s.pc == InitTimestamp
    ensures Advances(s, 3)
            == s.(clock := s.clock.(timestamp := 0, callback := None, remaining := 0), pc := Outside)
  {
    ThreeAdvances(s, 0);
    var t := Advance(Advance(Advance(s)));
    assert Advances(t, 0) == t;
  }

  /** Any other call is over after three steps, or five for a change to slow mode. */
  lemma ShortCall(s: State, e: Event)
    requires AtRest(s) && e != Interrupt && !(e == Enable && !s.clock.enabled)
    ensures var s3 := Advance(Advance(Advance(Take(s, Call(e)))));
            var t := if s3.pc == SwitchSum then Advance(Advance(s3)) else s3;
            AtRest(t) && t.clock == Apply(s.clock, e)
  {
  }

  lemma OneAdvance(s: State)
    ensures Advances(s, 1) == Advance(s)
  {
    hide Advance;
    assert Advances(Advance(s), 0) == Advance(s);
  }

  lemma ThreeAdvances(s: State, n: nat)
    ensures Advances(s, n + 3) == Advances(Advance(Advance(Advance(s))), n)
  {
    hide Advance;
    assert Advances(Advance(s), n + 2) == Advances(Advance(Advance(s)), n + 1);
  }

  // ----- What every interleaving keeps --------------------------------------------------------

  predicate Sizes(s: State) {
    var c := s.clock;
    match s.pc
    case SwitchCompare(slow) =>
      c.ticksPerInterrupt == (if slow then SLOW_TICKS else FAST_TICKS) && c.msPerInterrupt in {FAST_MS, SLOW_MS}
    case SwitchPeriod(slow) =>
      c.ticksPerInterrupt == (if slow then SLOW_TICKS else FAST_TICKS) && c.msPerInterrupt in {FAST_MS, SLOW_MS}
    case EnableCompare(_) => c.ticksPerInterrupt == FAST_TICKS && c.msPerInterrupt in {FAST_MS, SLOW_MS}
    case EnableTimer(_) => c.ticksPerInterrupt == FAST_TICKS && c.msPerInterrupt in {FAST_MS, SLOW_MS}
    case EnablePeriod(_) => c.ticksPerInterrupt == FAST_TICKS && c.msPerInterrupt in {FAST_MS, SLOW_MS}
    case _ => ValidPeriod(c)
  }

  predicate TimerOn(s: State) {
    match s.pc
    case EnableTicks(_) => !s.timer && !s.clock.enabled
    case EnableCompare(_) => !s.timer && !s.clock.enabled
    case EnableTimer(_) => !s.timer && !s.clock.enabled
    case EnablePeriod(_) => s.timer && !s.clock.enabled
    case EnableSum(_) => s.timer && !s.clock.enabled
    case EnableCount(_, _) => s.timer && !s.clock.enabled
    case EnableDone(_) => s.timer && !s.clock.enabled
    case DisableTimer => s.timer && s.clock.enabled
    case DisableDone => !s.timer && s.clock.enabled
    case InitTimestamp => s.timer && s.clock.enabled
    case InitCallback => s.timer && s.clock.enabled
    case InitCount => s.timer && s.clock.enabled
    case _ => s.timer == s.clock.enabled
  }

  /** Between the two stores of a registration, of a cancellation, or of an initialisation. */
  predicate HalfDone(pc: Pc) {
    pc.RegisterCallback? || pc.CancelCount? || pc.InitCount?
  }

  /** The sum that the next store puts into the countdown of a kept callback. */
  function Pending(pc: Pc): u32 {
    match pc
    case SwitchCount(sum) => sum
    case EnableCount(_, sum) => sum
    case _ => 0
  }

  predicate Inv(s: State) {
    && Sizes(s) && TimerOn(s)
    && (s.clock.remaining != 0 && !HalfDone(s.pc) ==> s.clock.callback.Some?)
    && (Pending(s.pc) != 0 ==> s.clock.callback.Some?)
  }

  lemma TakeKeepsInv(s: State, step: Step)
    requires Inv(s)
    ensures Inv(Take(s, step))
  {
    if step == Go {
      AdvanceKeepsSizes(s);
      AdvanceKeepsTimer(s);
      AdvanceKeepsCallback(s);
      hide Advance, Sizes, TimerOn, HalfDone, Pending;
    }
  }

  lemma AdvanceKeepsSizes(s: State)
    requires Sizes(s)
    ensures Sizes(Advance(s))
  {
    hide Rounded;
  }

  lemma AdvanceKeepsTimer(s: State)
    requires TimerOn(s)
    ensures TimerOn(Advance(s))
  {
    hide Rounded;
  }

  lemma AdvanceKeepsCallback(s: State)
    requires Inv(s)
    ensures var t := Advance(s);
            && (t.clock.remaining != 0 && !HalfDone(t.pc) ==> t.clock.callback.Some?)
            && (Pending(t.pc) != 0 ==> t.clock.callback.Some?)
  {
    hide Sizes, TimerOn;
  }

  lemma {:induction false} StepsKeepInv(s: State, steps: seq<Step>)
    requires Inv(s)
    ensures Inv(RunSteps(s, steps))
    decreases |steps|
  {
    if steps != [] {
      TakeKeepsInv(s, steps[0]);
      hide Take, Inv;
      StepsKeepInv(Take(s, steps[0]), steps[1..]);
    }
  }

  // ----- When a null callback is called -------------------------------------------------------

  /** In every interleaving an interrupt calls a null callback if and only if it comes between the two
      stores of a registration, cancellation or initialisation, with no callback stored and one step left to count. */
  lemma NullIsCalledExactlyBetweenStores(steps: seq<Step>)
    ensures var s := RunSteps(Start, steps);
            var c := s.clock;
            Take(s, Irq).clock.calls == c.calls + [None]
            <==> s.timer && HalfDone(s.pc) && c.callback == None && c.remaining == c.msPerInterrupt
  {
    StepsKeepInv(Start, steps);
    var s := RunSteps(Start, steps);
    hide RunSteps;
    assert s.clock.calls + [s.clock.callback] == s.clock.calls + [None] <==> s.clock.callback == None by {
      assert (s.clock.calls + [s.clock.callback])[|s.clock.calls|] == s.clock.callback;
    }
    assert s.clock.calls != s.clock.calls + [None];
  }

  /** No interrupt of a run comes between the two stores of a registration, cancellation or
      initialisation. */
  predicate Undisturbed(s: State, steps: seq<Step>)
    decreases |steps|
  {
    steps != [] ==> !(steps[0] == Irq && HalfDone(s.pc)) && Undisturbed(Take(s, steps[0]), steps[1..])
  }

  /** It is enough to mask interrupts between those two stores: then no run calls a null callback,
      wherever else interrupts fall. */
  lemma {:induction false} UndisturbedNeverCallsNull(s: State, steps: seq<Step>)
    requires Inv(s) && None !in s.clock.calls && Undisturbed(s, steps)
    ensures None !in RunSteps(s, steps).clock.calls
    decreases |steps|
  {
    if steps != [] {
      TakeKeepsInv(s, steps[0]);
      UndisturbedStep(s, steps[0]);
      hide Take, Inv, HalfDone;
      UndisturbedNeverCallsNull(Take(s, steps[0]), steps[1..]);
    }
  }

  lemma UndisturbedStep(s: State, step: Step)
    requires Inv(s) && None !in s.clock.calls && !(step == Irq && HalfDone(s.pc))
    ensures None !in Take(s, step).clock.calls
  {
  }

  function Irqs(s: State, k: nat): State {
    if k == 0 then s else Take(Irqs(s, k - 1), Irq)
  }

  lemma {:induction false} IrqsAreTicks(s: State, k: nat)
    ensures Irqs(s, k) == if s.timer then s.(clock := Ticks(s.clock, k)) else s
  {
    if k != 0 {
      IrqsAreTicks(s, k - 1);
      hide Tick;
    }
  }

  /** Whether one of k interrupts takes a countdown to zero. */
  predicate Fires(period: Period, count: u32, k: nat)
  {
    count != 0 && FiringTick(period, count) <= k
  }

  /** Before the whole 32-bit range has been counted through, that is when the countdown is a multiple
      of the period and so many periods have passed. */
  lemma FiresExactly(period: Period, count: u32, k: nat)
    requires Span(period, k) < count + TWO_32
    ensures Fires(period, count, k)
            <==> count != 0 && Leftover(period, count) == 0 && Cover(period, count) <= k
  {
    if count != 0 {
      FiringTickExactly(period, count);
    }
  }

  lemma IrqsFire(s: State, k: nat)
    requires ValidPeriod(s.clock)
    ensures var c, t := s.clock, Irqs(s, k);
            var fired := s.timer && Fires(c.msPerInterrupt, c.remaining, k);
            && t.pc == s.pc && t.timer == s.timer && t.clock.callback == c.callback
            && t.clock.calls == (if fired then c.calls + [c.callback] else c.calls)
            && (fired ==> t.clock.remaining == 0)
  {
    IrqsAreTicks(s, k);
    if s.clock.remaining == 0 {
      StaysSilent(s.clock, k);
      KeepsCallback(s.clock, k);
    } else {
      FiresExactlyOnce(s.clock, k);
    }
    hide FiringTick;
  }

  lemma {:induction false} KeepsCallback(c: ClockState, k: nat)
    ensures Ticks(c, k).callback == c.callback
  {
    if k != 0 {
      KeepsCallback(c, k - 1);
    }
  }

  /** A registration with k interrupts between its two stores: if the new countdown runs out there,
      the callback that it finds is the one stored before, an older one or none at all, and
      the new one is left with no countdown. */
  lemma RegistrationWindow(s: State, cb: Callback, ms: u32, k: nat)
    requires AtRest(s) && ms != 0
    ensures var c, sum := s.clock, Rounded(ms, s.clock);
            var t := Advance(Irqs(Advances(Take(s, Call(Register(Some(cb), ms))), 2), k));
            var fired := c.enabled && Fires(c.msPerInterrupt, sum, k);
            && t.pc.Outside? && t.clock.callback == Some(cb)
            && t.clock.calls == (if fired then c.calls + [c.callback] else c.calls)
            && (fired ==> t.clock.remaining == 0)
  {
    var s1 := Advance(Take(s, Call(Register(Some(cb), ms))));
    OneAdvance(s1);
    IrqsFire(Advance(s1), k);
    hide Fires;
  }

  /** A cancellation with k interrupts between its two stores: the old countdown finds no callback. */
  lemma CancellationWindow(s: State, cb: Option<Callback>, ms: u32, k: nat)
    requires AtRest(s) && (cb.None? || ms == 0)
    ensures var c := s.clock;
            var t := Advance(Irqs(Advance(Take(s, Call(Register(cb, ms)))), k));
            && t.pc.Outside? && t.clock.callback == None && t.clock.remaining == 0
            && t.clock.calls
               == (if c.enabled && Fires(c.msPerInterrupt, c.remaining, k) then c.calls + [None] else c.calls)
  {
    IrqsFire(Advance(Take(s, Call(Register(cb, ms)))), k);
    hide Fires;
  }

  /** An initialisation of a running clock, with k interrupts between its last two stores: the old
      countdown finds no callback either. */
  lemma InitialisationWindow(s: State, k: nat)
    requires AtRest(s) && s.clock.enabled
    ensures var c := s.clock;
            var t := Advance(Irqs(Advances(Take(s, Initialise), 2), k));
            && t.pc.Outside? && t.clock.callback == None && t.clock.remaining == 0
            && t.clock.calls
               == (if Fires(c.msPerInterrupt, c.remaining, k) then c.calls + [None] else c.calls)
  {
    var s1 := Advance(Take(s, Initialise));
    OneAdvance(s1);
    IrqsFire(Advance(s1), k);
    hide Fires;
  }

  /** So a registration calls a null callback if and only if the clock runs, none was stored before, and
      k interrupts are enough for the new countdown, which has to be a multiple of the period. */
  lemma RegistrationCallsNullExactly(s: State, cb: Callback, ms: u32, k: nat)
    requires AtRest(s) && ms != 0 && None !in s.clock.calls
    requires Span(s.clock.msPerInterrupt, k) < Rounded(ms, s.clock) + TWO_32
    ensures var c, sum := s.clock, Rounded(ms, s.clock);
            var t := Advance(Irqs(Advances(Take(s, Call(Register(Some(cb), ms))), 2), k));
            None in t.clock.calls
            <==> c.enabled && c.callback == None
                 && sum != 0 && Leftover(c.msPerInterrupt, sum) == 0 && Cover(c.msPerInterrupt, sum) <= k
  {
    RegistrationWindow(s, cb, ms, k);
    FiresExactly(s.clock.msPerInterrupt, Rounded(ms, s.clock), k);
    hide Fires, Advance, Irqs, Advances, Take;
  }

  /** A null call for one millisecond registered on a fresh clock, and one for its cancellation. */
  lemma NullIsCalled(cb: Callback)
    ensures RunSteps(Start, [Call(Register(Some(cb), 1)), Go, Go, Irq]).clock.calls == [None]
    ensures RunSteps(Start, [Call(Register(Some(cb), 1)), Go, Go, Go] + [Call(Register(None, 0)), Go, Irq]).clock.calls == [None]
  {
    var s1 := Take(Start, Call(Register(Some(cb), 1)));
    var s2 := Advance(s1);
    var s3 := Advance(s2);
    assert s3.pc == RegisterCallback(cb) && s3.clock == Clock.Initial.(remaining := 1);
    StepsUnfold(Start, [Call(Register(Some(cb), 1)), Go, Go, Irq]);
    StepsUnfold(s1, [Go, Go, Irq]);
    StepsUnfold(s2, [Go, Irq]);
    StepsUnfold(s3, [Irq]);
    var all := [Call(Register(Some(cb), 1)), Go, Go, Go] + [Call(Register(None, 0)), Go, Irq];
    var s4 := Advance(s3);
    var s5 := Take(s4, Call(Register(None, 0)));
    var s6 := Advance(s5);
    StepsUnfold(Start, all);
    assert all[1..] == [Go, Go, Go] + [Call(Register(None, 0)), Go, Irq];
    StepsUnfold(s1, all[1..]);
    assert all[1..][1..] == [Go, Go] + [Call(Register(None, 0)), Go, Irq];
    StepsUnfold(s2, all[1..][1..]);
    StepsUnfold(s3, [Go, Call(Register(None, 0)), Go, Irq]);
    StepsUnfold(s4, [Call(Register(None, 0)), Go, Irq]);
    StepsUnfold(s5, [Go, Irq]);
    StepsUnfold(s6, [Irq]);
  }

  lemma StepsUnfold(s: State, steps: seq<Step>)
    requires steps != []
    ensures RunSteps(s, steps) == RunSteps(Take(s, steps[0]), steps[1..])
    ensures |steps| == 1 ==> RunSteps(s, steps) == Take(s, steps[0])
  {
  }

  // ----- A change of mode ---------------------------------------------------------------------

  /** Interrupts between reading and storing the countdown of a change to slow mode are lost on it: a
      callback that they call is due again, with the whole sum that was read before. */
  lemma SwitchForgetsInterrupts(s: State, sum: u32, k: nat)
    requires Inv(s) && s.pc == SwitchCount(sum)
    ensures var c, t := s.clock, Advance(Irqs(s, k));
            && t.pc.Outside? && t.clock.remaining == sum && t.clock.callback == c.callback
            && t.clock.calls
               == (if s.timer && Fires(c.msPerInterrupt, c.remaining, k) then c.calls + [c.callback] else c.calls)
  {
    IrqsFire(s, k);
    hide Fires;
  }

  /** The interrupts of a run, by the two step sizes that were in force at each; when an initialisation
      has reset the timestamp, those since the last time it did. */
  datatype Parts = Parts(fast: nat, slow: nat, slowTicks: nat, slowMs: nat, increments: nat, reset: bool)

  function Tallied(s: State, steps: seq<Step>): Parts
    decreases |steps|
  {
    if steps == [] then Parts(0, 0, 0, 0, 0, false)
    else Joined(s, steps[0], Tallied(Take(s, steps[0]), steps[1..]))
  }

  /** One step put before a tally. */
  function Joined(s: State, step: Step, rest: Parts): Parts {
    if rest.reset then rest
    else if step == Go && s.pc == InitTimestamp then rest.(reset := true)
    else if step == Irq && s.timer then Counted(rest, s.clock)
    else rest
  }

  /** One interrupt more. */
  function Counted(p: Parts, c: ClockState): Parts {
    var more := p.(increments := p.increments + c.ticksPerInterrupt);
    if c.msPerInterrupt == FAST_MS then
      if c.ticksPerInterrupt == FAST_TICKS then more.(fast := p.fast + 1) else more.(slowTicks := p.slowTicks + 1)
    else if c.ticksPerInterrupt == FAST_TICKS then more.(slowMs := p.slowMs + 1)
    else more.(slow := p.slow + 1)
  }

  lemma CountedMilliseconds(p: Parts, c: ClockState)
    requires c.msPerInterrupt == FAST_MS || c.msPerInterrupt == SLOW_MS
    ensures Milliseconds(Counted(p, c)) == c.msPerInterrupt + Milliseconds(p)
  {
  }

  function Milliseconds(p: Parts): nat {
    p.fast + p.slowTicks + 1999 * (p.slow + p.slowMs)
  }

  /** The two step sizes differ only between their stores. */
  lemma SizesDifferOnlyInSwitch(steps: seq<Step>)
    ensures var s := RunSteps(Start, steps);
            s.timer && !ValidPeriod(s.clock) ==> s.pc.SwitchCompare? || s.pc.SwitchPeriod? || s.pc.EnablePeriod?
  {
    StepsKeepInv(Start, steps);
    hide RunSteps;
  }

  lemma {:induction false} IncrementsInEveryInterleaving(s: State, steps: seq<Step>)
    requires Inv(s)
    ensures var p := Tallied(s, steps);
            p.increments == 32 * (p.fast + p.slowMs) + 65535 * (p.slow + p.slowTicks)
    decreases |steps|
  {
    if steps != [] {
      TakeKeepsInv(s, steps[0]);
      IncrementsInEveryInterleaving(Take(s, steps[0]), steps[1..]);
      hide Take, HalfDone, Pending;
    }
  }

  function StepMilliseconds(s: State, step: Step): u16 {
    if step == Irq && s.timer then s.clock.msPerInterrupt else 0
  }

  lemma StepMovesTimestamp(s: State, step: Step)
    requires Inv(s)
    ensures Take(s, step).clock.timestamp
            == if step == Go && s.pc == InitTimestamp then 0
               else Add32(s.clock.timestamp, StepMilliseconds(s, step))
    ensures s.clock.msPerInterrupt == FAST_MS || s.clock.msPerInterrupt == SLOW_MS
  {
    hide Rounded, Pending, HalfDone, TimerOn, Sub32;
  }

  lemma JoinedMilliseconds(s: State, step: Step, rest: Parts)
    requires s.clock.msPerInterrupt == FAST_MS || s.clock.msPerInterrupt == SLOW_MS
    ensures var p := Joined(s, step, rest);
            && (rest.reset ==> p == rest)
            && (!rest.reset && step == Go && s.pc == InitTimestamp ==> p.reset && Milliseconds(p) == Milliseconds(rest))
            && (!rest.reset && !(step == Go && s.pc == InitTimestamp) ==>
                  !p.reset && Milliseconds(p) == StepMilliseconds(s, step) + Milliseconds(rest))
  {
    CountedMilliseconds(rest, s.clock);
    hide Counted;
  }

  lemma StepsFirst(s: State, steps: seq<Step>)
    requires steps != []
    ensures RunSteps(s, steps) == RunSteps(Take(s, steps[0]), steps[1..])
    ensures Tallied(s, steps) == Joined(s, steps[0], Tallied(Take(s, steps[0]), steps[1..]))
  {
  }

  lemma NothingTallied(s: State)
    ensures RunSteps(s, []) == s && Milliseconds(Tallied(s, [])) == 0 && !Tallied(s, []).reset
  {
  }

  /** The timestamp that the tallied interrupts have moved. */
  function Base(s: State, steps: seq<Step>): u32 {
    if Tallied(s, steps).reset then 0 else s.clock.timestamp
  }

  lemma {:induction false} TimestampInEveryInterleaving(s: State, steps: seq<Step>)
    requires Inv(s)
    ensures RunSteps(s, steps).clock.timestamp
            == (Base(s, steps) + Milliseconds(Tallied(s, steps))) % 0x1_0000_0000
    decreases |steps|
  {
    hide Take, Inv, Tallied, Milliseconds, StepMilliseconds, RunSteps, Joined;
    if steps == [] {
      NothingTallied(s);
      NoWrapExactly(s.clock.timestamp);
      return;
    }
    var next, ms := Take(s, steps[0]), StepMilliseconds(s, steps[0]);
    StepsFirst(s, steps);
    StepMovesTimestamp(s, steps[0]);
    JoinedMilliseconds(s, steps[0], Tallied(next, steps[1..]));
    TakeKeepsInv(s, steps[0]);
    TimestampInEveryInterleaving(next, steps[1..]);
    AddFirst32(s.clock.timestamp, ms, Milliseconds(Tallied(next, steps[1..])));
    hide Add32;
  }

  // ----- The compare register -----------------------------------------------------------------

  /** What a step stores in the compare register anew. */
  function Restores(s: State, step: Step): Option<u16> {
    if step != Go then None
    else
      match s.pc
      case SwitchCompare(slow) => Some(if slow then 0xFFFF else 32)
      case EnableCompare(_) => Some(32)
      case _ => None
  }

  /** What it adds: an interrupt the tick size in force. */
  function Adds(s: State, step: Step): u16 {
    if step == Irq && s.timer then s.clock.ticksPerInterrupt else 0
  }

  function SinceStored(s: State, steps: seq<Step>): Since
    decreases |steps|
  {
    if steps == [] then Since(None, 0)
    else
      var rest := SinceStored(Take(s, steps[0]), steps[1..]);
      if rest.stored.Some? then rest
      else if Restores(s, steps[0]).Some? then rest.(stored := Restores(s, steps[0]))
      else rest.(added := rest.added + Adds(s, steps[0]))
  }

  lemma StepMovesCompareRegister(s: State, step: Step)
    requires Inv(s)
    ensures Take(s, step).clock.compare
            == if Restores(s, step).Some? then Restores(s, step).value else Add16(s.clock.compare, Adds(s, step))
  {
    hide Rounded, Pending, HalfDone, TimerOn, Sub32;
  }

  /** In every interleaving the compare register is what was stored last plus all that the interrupts
      since have added, modulo 2^16. */
  lemma {:induction false} CompareInEveryInterleaving(s: State, steps: seq<Step>)
    requires Inv(s)
    ensures var since := SinceStored(s, steps);
            RunSteps(s, steps).clock.compare == (BaseOf(s.clock, since) + since.added) % 0x1_0000
    decreases |steps|
  {
    if steps != [] {
      TakeKeepsInv(s, steps[0]);
      StepMovesCompareRegister(s, steps[0]);
      var next := Take(s, steps[0]);
      hide Take, Inv, Restores, Adds, Add16;
      CompareInEveryInterleaving(next, steps[1..]);
      AddFirst16(s.clock.compare, Adds(s, steps[0]), SinceStored(next, steps[1..]).added);
    }
  }

  lemma {:induction false} AllIsAdded(s: State, steps: seq<Step>)
    requires Inv(s)
    ensures SinceStored(s, steps).stored.None? && !Tallied(s, steps).reset ==>
              SinceStored(s, steps).added == Tallied(s, steps).increments
    decreases |steps|
  {
    if steps != [] {
      TakeKeepsInv(s, steps[0]);
      AllIsAdded(Take(s, steps[0]), steps[1..]);
      hide Take, HalfDone, Pending, Sizes, TimerOn;
    }
  }

  /** What the timestamp is off from the summed compare increments, in units of 1/32768 ms. Beside
      the drift of the two modes, each interrupt that falls into a change of mode throws it
      off by two seconds of the clock, one way or the other. */
  lemma DriftInEveryInterleaving(steps: seq<Step>)
    ensures var p, stamp := Tallied(Start, steps), RunSteps(Start, steps).clock.timestamp;
            && (stamp == Milliseconds(p) <==> Milliseconds(p) < TWO_32)
            && (stamp == Milliseconds(p) ==>
                  32768 * stamp - 1000 * p.increments
                  == 768 * p.fast - 31768 * p.slow - 65502232 * p.slowTicks + 65471232 * p.slowMs)
    ensures SinceStored(Start, steps).stored.None? && !Tallied(Start, steps).reset ==>
              RunSteps(Start, steps).clock.compare == (32 + Tallied(Start, steps).increments) % 0x1_0000
  {
    CompareFromStart(steps);
    assert Base(Start, steps) == 0;
    hide RunSteps, Tallied, Milliseconds, SinceStored, Base;
    TimestampInEveryInterleaving(Start, steps);
    NoWrapExactly(Milliseconds(Tallied(Start, steps)));
    IncrementsInEveryInterleaving(Start, steps);
    DriftArithmetic(Tallied(Start, steps));
  }

  lemma CompareFromStart(steps: seq<Step>)
    ensures SinceStored(Start, steps).stored.None? && !Tallied(Start, steps).reset ==>
              RunSteps(Start, steps).clock.compare == (32 + Tallied(Start, steps).increments) % 0x1_0000
  {
    hide RunSteps, Tallied, SinceStored;
    CompareInEveryInterleaving(Start, steps);
    AllIsAdded(Start, steps);
  }

  lemma DriftArithmetic(p: Parts)
    requires p.increments == 32 * (p.fast + p.slowMs) + 65535 * (p.slow + p.slowTicks)
    ensures 32768 * Milliseconds(p) - 1000 * p.increments
            == 768 * p.fast - 31768 * p.slow - 65502232 * p.slowTicks + 65471232 * p.slowMs
  {
  }
}
