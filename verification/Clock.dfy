/**
 * The millisecond clock of the MSP430 system layer: a 32-bit timestamp that a timer interrupt
 * advances by 1 ms (fast mode) or 1999 ms (slow mode), a one-shot countdown and a blocking delay.
 */
module Clock {
  import opened Words

  // The 32.768 kHz crystal behind ACLK, and the two interrupt periods derived from it.
  const ACLK_HZ: int := 32768
  const FAST_TICKS: u16 := 32
  const SLOW_TICKS: u16 := 0xFFFF
  const FAST_MS: u16 := 1
  const SLOW_MS: u16 := 1999 // 0xFFFF * 1000 / ACLK_HZ, truncated

  // The milliseconds between two interrupts, in either mode.
  type Period = p: u16 | p == 1 || p == 1999 witness 1

  // A callback is known by its identity; calling it is recorded in the state's log.
  type Callback = nat

  datatype ClockState = ClockState(
    timestamp: u32,
    msPerInterrupt: u16,
    ticksPerInterrupt: u16,
    enabled: bool,
    remaining: u32,
    callback: Option<Callback>,
    compare: u16,
    calls: seq<Option<Callback>>)

  datatype Event =
    | Interrupt
    | SlowTimer(slow: bool)
    | Register(callback: Option<Callback>, ms: u32)
    | Enable
    | Disable

  const Initial: ClockState := ClockState(0, FAST_MS, FAST_TICKS, true, 0, None, FAST_TICKS, [])

  /** The timer interrupt. */
  function Tick(s: ClockState): ClockState {
    var left := if s.remaining == 0 then 0 else Sub32(s.remaining, s.msPerInterrupt);
    s.(compare := Add16(s.compare, s.ticksPerInterrupt),
       timestamp := Add32(s.timestamp, s.msPerInterrupt),
       remaining := left,
       calls := if s.remaining != 0 && left == 0 then s.calls + [s.callback] else s.calls)
  }

  /** The milliseconds that n interrupts of a period span. */
  function Span(period: Period, n: int): int
  {
    if period == FAST_MS then n else 1999 * n
  }

  /** What is left of a time after whole periods are taken out. */
  function Leftover(period: Period, ms: nat): u16
  {
    if period == FAST_MS then 0 else ms % 1999
  }

  lemma PeriodArithmetic(period: Period, n: int, ms: nat)
    ensures Span(period, n) == n * period
    ensures Leftover(period, ms) == ms % period
  {
  }

  /** The number of interrupts of a period that it takes to cover a time. */
  function Cover(period: Period, ms: nat): (n: nat)
    ensures Span(period, n) >= ms && forall j: nat :: j < n ==> Span(period, j) < ms
    ensures Leftover(period, ms) == 0 <==> Span(period, n) == ms
  {
    if period == FAST_MS then ms else (ms + 1998) / 1999
  }

  predicate ValidPeriod(s: ClockState) {
    || (s.msPerInterrupt == FAST_MS && s.ticksPerInterrupt == FAST_TICKS)
    || (s.msPerInterrupt == SLOW_MS && s.ticksPerInterrupt == SLOW_TICKS)
  }

  /** What every call sequence keeps: the two step sizes go together, and a running countdown
      has a callback to fire. */
  predicate Valid(s: ClockState) {
    ValidPeriod(s) && (s.remaining != 0 ==> s.callback.Some?)
  }

  /** One interrupt or one call into the clock; a disabled clock raises no interrupt. */
  function Apply(s: ClockState, e: Event): ClockState
    requires ValidPeriod(s)
  {
    match e
    case Interrupt => if s.enabled then Tick(s) else s
    case SlowTimer(true) =>
      s.(ticksPerInterrupt := SLOW_TICKS, compare := SLOW_TICKS, msPerInterrupt := SLOW_MS,
         remaining := Add32(s.remaining, Leftover(SLOW_MS, s.remaining)))
    case SlowTimer(false) =>
      s.(ticksPerInterrupt := FAST_TICKS, compare := FAST_TICKS, msPerInterrupt := FAST_MS)
    case Register(cb, ms) =>
      if cb.None? || ms == 0 then s.(callback := None, remaining := 0)
      else s.(remaining := Add32(ms, Leftover(s.msPerInterrupt, s.remaining)), callback := cb)
    case Enable =>
      if s.enabled then s
      else s.(ticksPerInterrupt := FAST_TICKS, compare := FAST_TICKS, msPerInterrupt := FAST_MS,
              remaining := Add32(s.remaining, Leftover(FAST_MS, s.remaining)), enabled := true)
    case Disable => s.(enabled := false)
  }

  function Run(s: ClockState, events: seq<Event>): ClockState
    requires Valid(s)
    decreases |events|
  {
    if events == [] then s
    else
      StepKeepsValid(s, events[0]);
      Run(Apply(s, events[0]), events[1..])
  }

  lemma StepKeepsValid(s: ClockState, e: Event)
    requires Valid(s)
    ensures Valid(Apply(s, e))
  {
  }

  // ----- Calls that no interrupt breaks into call no null callback ----------------------------

  lemma {:induction false} NeverCallsNull(s: ClockState, events: seq<Event>)
    requires Valid(s) && None !in s.calls
    ensures Valid(Run(s, events)) && None !in Run(s, events).calls
    decreases |events|
  {
    if events != [] {
      StepKeepsValid(s, events[0]);
      NeverCallsNull(Apply(s, events[0]), events[1..]);
    }
  }

  // ----- Timestamp and drift over runs -------------------------------------------------------

  /** The interrupts of a run, counted by the mode they were taken in. */
  datatype Tally = Tally(fast: nat, slow: nat, compareTicks: nat)

  function Count(s: ClockState, events: seq<Event>): Tally
    requires Valid(s)
    decreases |events|
  {
    if events == [] then Tally(0, 0, 0)
    else
      StepKeepsValid(s, events[0]);
      var rest := Count(Apply(s, events[0]), events[1..]);
      if events[0] != Interrupt || !s.enabled then rest
      else if s.msPerInterrupt == FAST_MS
      then rest.(fast := rest.fast + 1, compareTicks := rest.compareTicks + s.ticksPerInterrupt)
      else rest.(slow := rest.slow + 1, compareTicks := rest.compareTicks + s.ticksPerInterrupt)
  }

  function Elapsed(t: Tally): nat {
    t.fast + 1999 * t.slow
  }

  lemma {:induction false} CompareCountsInterrupts(s: ClockState, events: seq<Event>)
    requires Valid(s)
    ensures Count(s, events).compareTicks == 32 * Count(s, events).fast + 65535 * Count(s, events).slow
    decreases |events|
  {
    if events != [] {
      StepKeepsValid(s, events[0]);
      CompareCountsInterrupts(Apply(s, events[0]), events[1..]);
    }
  }

  lemma {:induction false} TimestampCountsInterrupts(s: ClockState, events: seq<Event>)
    requires Valid(s)
    ensures Run(s, events).timestamp == (s.timestamp + Elapsed(Count(s, events))) % 0x1_0000_0000
    decreases |events|
  {
    hide Apply, Run, Count, StepMs, Elapsed;
    if events == [] {
      NothingHappened(s);
      NoWrapExactly(s.timestamp);
      return;
    }
    CountStep(s, events);
    var next, ms := Apply(s, events[0]), StepMs(s, events[0]);
    StepMovesTimestamp(s, events[0]);
    TimestampCountsInterrupts(next, events[1..]);
    AddFirst32(s.timestamp, ms, Elapsed(Count(next, events[1..])));
    hide Add32;
  }

  lemma NothingHappened(s: ClockState)
    requires Valid(s)
    ensures Run(s, []) == s && Elapsed(Count(s, [])) == 0
  {
  }

  function StepMs(s: ClockState, e: Event): u16 {
    if e == Interrupt && s.enabled then s.msPerInterrupt else 0
  }

  lemma CountStep(s: ClockState, events: seq<Event>)
    requires Valid(s) && events != []
    ensures Valid(Apply(s, events[0]))
    ensures Run(s, events) == Run(Apply(s, events[0]), events[1..])
    ensures Elapsed(Count(s, events)) == StepMs(s, events[0]) + Elapsed(Count(Apply(s, events[0]), events[1..]))
  {
    StepKeepsValid(s, events[0]);
    var rest := Count(Apply(s, events[0]), events[1..]);
  }

  lemma StepMovesTimestamp(s: ClockState, e: Event)
    requires Valid(s)
    ensures Apply(s, e).timestamp == Add32(s.timestamp, StepMs(s, e))
  {
  }

  // ----- The compare register -----------------------------------------------------------------

  /** The register since the last call that stored it anew: what was stored, and what the interrupts
      since have added. */
  datatype Since = Since(stored: Option<u16>, added: nat)

  /** What a call stores in the compare register: a slow or a fast period, when the clock's mode is set. */
  function Stores(e: Event, enabled: bool): Option<u16> {
    match e
    case SlowTimer(slow) => Some(if slow then 0xFFFF else 32)
    case Enable => if enabled then None else Some(32)
    case _ => None
  }

  function CompareSince(s: ClockState, events: seq<Event>): Since
    requires Valid(s)
    decreases |events|
  {
    if events == [] then Since(None, 0)
    else
      StepKeepsValid(s, events[0]);
      var rest := CompareSince(Apply(s, events[0]), events[1..]);
      if rest.stored.Some? then rest
      else if Stores(events[0], s.enabled).Some? then rest.(stored := Stores(events[0], s.enabled))
      else rest.(added := rest.added + Added(s, events[0]))
  }

  /** What an event adds to the register: an interrupt of a running clock the ticks of its period. */
  function Added(s: ClockState, e: Event): u16 {
    if e == Interrupt && s.enabled then (if s.msPerInterrupt == FAST_MS then 32 else 0xFFFF) else 0
  }

  function BaseOf(s: ClockState, since: Since): u16 {
    if since.stored.Some? then since.stored.value else s.compare
  }

  lemma StepMovesCompare(s: ClockState, e: Event)
    requires Valid(s)
    ensures Apply(s, e).compare
            == if Stores(e, s.enabled).Some? then Stores(e, s.enabled).value else Add16(s.compare, Added(s, e))
  {
  }

  /** After any run the compare register, which times the next interrupt, is what was stored last plus
      all that the interrupts since have added, modulo 2^16. */
  lemma {:induction false} CompareIsKept(s: ClockState, events: seq<Event>)
    requires Valid(s)
    ensures var since := CompareSince(s, events);
            Run(s, events).compare == (BaseOf(s, since) + since.added) % 0x1_0000
    decreases |events|
  {
    if events != [] {
      StepKeepsValid(s, events[0]);
      StepMovesCompare(s, events[0]);
      var next := Apply(s, events[0]);
      hide Apply, Stores, Added, Add16;
      CompareIsKept(next, events[1..]);
      AddFirst16(s.compare, Added(s, events[0]), CompareSince(next, events[1..]).added);
    }
  }

  lemma {:induction false} AddedIsCounted(s: ClockState, events: seq<Event>)
    requires Valid(s)
    ensures CompareSince(s, events).stored.None? ==> CompareSince(s, events).added == Count(s, events).compareTicks
    decreases |events|
  {
    if events != [] {
      StepKeepsValid(s, events[0]);
      AddedIsCounted(Apply(s, events[0]), events[1..]);
      hide Apply;
    }
  }

  // ----- What the calls leave behind ----------------------------------------------------------

  /** What some calls come to: whether the clock runs, in which mode, and for which callback. */
  datatype Settings = Settings(enabled: bool, slow: bool, callback: Option<Callback>)

  function SetBy(x: Settings, events: seq<Event>): Settings
    decreases |events|
  {
    if events == [] then x
    else
      var y := match events[0]
               case Interrupt => x
               case SlowTimer(slow) => x.(slow := slow)
               case Register(cb, ms) => x.(callback := if ms == 0 then None else cb)
               case Enable => if x.enabled then x else Settings(true, false, x.callback)
               case Disable => x.(enabled := false);
      SetBy(y, events[1..])
  }

  /** After any run the clock runs if it was enabled last, steps as it was told last, and keeps the
      callback that was registered last. */
  lemma {:induction false} CallsDecideSettings(s: ClockState, events: seq<Event>)
    requires Valid(s)
    ensures var t := Run(s, events);
            Settings(t.enabled, t.msPerInterrupt == SLOW_MS, t.callback)
            == SetBy(Settings(s.enabled, s.msPerInterrupt == SLOW_MS, s.callback), events)
    decreases |events|
  {
    if events != [] {
      StepKeepsValid(s, events[0]);
      CallsDecideSettings(Apply(s, events[0]), events[1..]);
    }
  }

  /** No call moves the timestamp or calls a callback; enabling, disabling and going back to fast mode
      leave the countdown running where it was, and a stopped clock does nothing at all. */
  lemma CallsKeepTheRest(s: ClockState, e: Event)
    requires Valid(s) && e != Interrupt
    ensures var t := Apply(s, e);
            && t.timestamp == s.timestamp && t.calls == s.calls
            && (e in {Enable, Disable, SlowTimer(false)} ==> t.remaining == s.remaining && t.callback == s.callback)
            && (!s.enabled ==> Apply(s, Interrupt) == s)
  {
  }

  /** The clock's drift against the crystal, in units of 1/32768 ms, before the timestamp wraps. */
  lemma DriftIsExact(events: seq<Event>)
    ensures var t, stamp := Count(Initial, events), Run(Initial, events).timestamp;
            && (stamp == Elapsed(t) <==> Elapsed(t) < TWO_32)
            && (stamp == Elapsed(t) ==> 32768 * stamp - 1000 * t.compareTicks == 768 * t.fast - 31768 * t.slow)
    ensures CompareSince(Initial, events).stored.None? ==>
              Run(Initial, events).compare == (32 + Count(Initial, events).compareTicks) % 0x1_0000
  {
    hide Apply, Run, Count, CompareSince, Elapsed;
    TimestampCountsInterrupts(Initial, events);
    NoWrapExactly(Elapsed(Count(Initial, events)));
    CompareCountsInterrupts(Initial, events);
    CompareIsKept(Initial, events);
    AddedIsCounted(Initial, events);
    DriftArithmetic(Count(Initial, events));
  }

  lemma DriftArithmetic(t: Tally)
    requires t.compareTicks == 32 * t.fast + 65535 * t.slow
    ensures 32768 * Elapsed(t) - 1000 * t.compareTicks == 768 * t.fast - 31768 * t.slow
  {
  }

  // ----- The one-shot countdown --------------------------------------------------------------

  function Ticks(s: ClockState, n: nat): ClockState {
    if n == 0 then s else Tick(Ticks(s, n - 1))
  }

  /** A 32-bit count that has been counted down by ms, less than the whole range below zero. */
  function Below(count: u32, ms: nat): u32
    requires ms < count + TWO_32
  {
    if ms <= count then count - ms else count - ms + TWO_32
  }

  /** Until it reaches zero the countdown is an ordinary 32-bit wrapping subtraction. */
  lemma {:induction false} CountdownValue(s: ClockState, n: nat)
    requires ValidPeriod(s) && s.remaining != 0
    requires Span(s.msPerInterrupt, n) < s.remaining + TWO_32
    requires Leftover(s.msPerInterrupt, s.remaining) != 0 || Span(s.msPerInterrupt, n) < s.remaining
    ensures var t := Ticks(s, n);
            && t == s.(timestamp := t.timestamp, compare := t.compare, remaining := t.remaining)
            && t.remaining == Below(s.remaining, Span(s.msPerInterrupt, n)) != 0
  {
    if n != 0 {
      CountdownValue(s, n - 1);
    }
  }

  /** A countdown that is a multiple of the period fires once, on interrupt remaining/period, and
      stays silent after. */
  lemma {:induction false} FiresOnceOnTime(s: ClockState, n: nat)
    requires ValidPeriod(s) && s.remaining != 0 && Leftover(s.msPerInterrupt, s.remaining) == 0
    ensures var due, t := Cover(s.msPerInterrupt, s.remaining), Ticks(s, n);
            && t.calls == (if n < due then s.calls else s.calls + [s.callback])
            && t.remaining == (if n < due then s.remaining - Span(s.msPerInterrupt, n) else 0)
            && t.callback == s.callback && t.msPerInterrupt == s.msPerInterrupt
  {
    var due := Cover(s.msPerInterrupt, s.remaining);
    if n <= due {
      CountdownValue(s, if n < due then n else n - 1);
    } else {
      FiresOnceOnTime(s, n - 1);
    }
  }

  /** Exactly the multiples fire on time: any other countdown is stepped over, wraps below zero and
      stays silent until the whole 32-bit range has been counted down as well. */
  lemma FiresOnTimeExactlyForMultiples(s: ClockState)
    requires ValidPeriod(s) && s.remaining != 0
    ensures Ticks(s, Cover(s.msPerInterrupt, s.remaining)).calls != s.calls
            <==> Leftover(s.msPerInterrupt, s.remaining) == 0
    ensures Leftover(s.msPerInterrupt, s.remaining) != 0 ==>
              forall n: nat :: Span(s.msPerInterrupt, n) < s.remaining + TWO_32 ==>
                Ticks(s, n).calls == s.calls && Ticks(s, n).remaining != 0
  {
    var due := Cover(s.msPerInterrupt, s.remaining);
    if Leftover(s.msPerInterrupt, s.remaining) == 0 {
      FiresOnceOnTime(s, due);
    } else {
      forall n: nat | Span(s.msPerInterrupt, n) < s.remaining + TWO_32
        ensures Ticks(s, n).calls == s.calls && Ticks(s, n).remaining != 0
      {
        CountdownValue(s, n);
      }
      assert Span(s.msPerInterrupt, due) < s.remaining + TWO_32;
    }
  }

  /** With the millisecond interrupt a registered callback is called by the num_ms-th interrupt
      after registration and by no other. */
  lemma RegisteredCallbackFiresAfterItsDelay(s: ClockState, cb: Callback, ms: u32, n: nat)
    requires Valid(s) && s.msPerInterrupt == FAST_MS && ms != 0
    ensures var t := Apply(s, Register(Some(cb), ms));
            Ticks(t, n).calls == if n < ms then s.calls else s.calls + [Some(cb)]
  {
    FiresOnceOnTime(Apply(s, Register(Some(cb), ms)), n);
  }

  /** In any mode the registered callback is called by the first interrupt at or after its time if
      and only if the delay plus the left-over of the countdown it replaces is a multiple of the
      interrupt period. */
  lemma RegisteredCallbackOnTimeExactly(s: ClockState, cb: Callback, ms: u32)
    requires Valid(s) && ms != 0
    ensures var due := ms + Leftover(s.msPerInterrupt, s.remaining);
            var t := Apply(s, Register(Some(cb), ms));
            Ticks(t, Cover(s.msPerInterrupt, due)).calls != s.calls <==> Leftover(s.msPerInterrupt, due) == 0
  {
    var due := ms + Leftover(s.msPerInterrupt, s.remaining);
    var t := Apply(s, Register(Some(cb), ms));
    if due < TWO_32 {
      FiresOnTimeExactlyForMultiples(t);
    } else if due == TWO_32 {
      StaysSilent(t, Cover(s.msPerInterrupt, due));
    } else {
      // The sum has wrapped to less than one period: the first interrupt takes it below zero.
      assert s.msPerInterrupt == SLOW_MS && 0 < t.remaining < SLOW_MS;
      CountdownValue(t, Cover(SLOW_MS, due) - 1);
    }
  }

  lemma {:induction false} StaysSilent(s: ClockState, n: nat)
    requires ValidPeriod(s) && s.remaining == 0
    ensures Ticks(s, n).calls == s.calls && Ticks(s, n).remaining == 0
  {
    if n != 0 {
      StaysSilent(s, n - 1);
    }
  }

  /** Slowing the timer is meant to leave a multiple of the new period. It does so exactly when the
      countdown was one already, with one exception: 2^32 - 1926 wraps to zero, which cancels it. */
  lemma SlowTimerKeepsDivisibilityExactly(s: ClockState)
    requires Valid(s)
    ensures Leftover(SLOW_MS, Apply(s, SlowTimer(true)).remaining) == 0
            <==> Leftover(SLOW_MS, s.remaining) == 0 || s.remaining == TWO_32 - 1926
    ensures Leftover(SLOW_MS, s.remaining) == 0 ==> Apply(s, SlowTimer(true)).remaining == s.remaining
    ensures s.remaining == TWO_32 - 1926 ==> Apply(s, SlowTimer(true)).remaining == 0
  {
    DoubledLeftover(s.remaining / 1999, s.remaining % 1999);
  }

  lemma DoubledLeftover(q: nat, k: nat)
    requires k < 1999
    ensures (1999 * q + 2 * k) % 1999 == 0 <==> k == 0
  {
    assert (1999 * q + 2 * k) % 1999 == (2 * k) % 1999;
  }

  // ----- The blocking delay ------------------------------------------------------------------

  /** The milliseconds that a 32-bit clock shows to have passed after n interrupts. */
  function Shown(period: Period, n: nat): u32
  {
    if n == 0 then 0 else Add32(Shown(period, n - 1), period)
  }

  lemma {:induction false} ShownIsSpan(period: Period, n: nat) returns (wraps: nat)
    ensures Shown(period, n) + 0x1_0000_0000 * wraps == Span(period, n)
  {
    wraps := 0;
    if n != 0 {
      wraps := ShownIsSpan(period, n - 1);
      if Shown(period, n) < Shown(period, n - 1) {
        wraps := wraps + 1;
      }
    }
  }

  // 1999 * 382443311 == 1 (modulo 2^32): the timestamp visits every value, so a delay ends.
  lemma EveryTimeIsShown(period: Period, num: u32, k: nat)
    requires k == if period == FAST_MS then num else 382443311 * num
    ensures Shown(period, k) == num
  {
    var wraps := ShownIsSpan(period, k);
    hide Shown;
    Residue(Shown(period, k), wraps, Span(period, k));
    if period == SLOW_MS {
      assert Span(period, k) == num + 0x1_0000_0000 * (178 * num);
      Residue(num, 178 * num, Span(period, k));
    }
  }

  /** An interrupt count after which exactly num milliseconds show. */
  function Bound(period: Period, num: u32): (k: nat)
    ensures Shown(period, k) == num
  {
    var k := if period == FAST_MS then num else 382443311 * num;
    EveryTimeIsShown(period, num, k);
    k
  }

  /** The interrupt on which a countdown reaches zero, however often it wraps on the way. */
  function FiringTick(period: Period, count: u32, from: nat := 0): (n: nat)
    requires from <= Bound(period, count)
    ensures from <= n <= Bound(period, count) && Shown(period, n) == count
    ensures forall j :: from <= j < n ==> Shown(period, j) != count
    decreases Bound(period, count) - from
  {
    if Shown(period, from) == count then from else FiringTick(period, count, from + 1)
  }

  /** Every countdown, multiple of the period or not, fires exactly once, on that interrupt. */
  lemma {:induction false} FiresExactlyOnce(s: ClockState, n: nat)
    requires ValidPeriod(s) && s.remaining != 0
    ensures var due, t := FiringTick(s.msPerInterrupt, s.remaining), Ticks(s, n);
            && t.calls == (if n < due then s.calls else s.calls + [s.callback])
            && t.remaining == (if n < due then Sub32(s.remaining, Shown(s.msPerInterrupt, n)) else 0)
            && t.callback == s.callback && t.msPerInterrupt == s.msPerInterrupt
  {
    var period, due := s.msPerInterrupt, FiringTick(s.msPerInterrupt, s.remaining);
    hide FiringTick, Bound;
    if n == 0 {
      assert Shown(period, 0) == 0;
    } else {
      FiresExactlyOnce(s, n - 1);
      if n <= due {
        assert Shown(period, n) == Add32(Shown(period, n - 1), period);
        assert Shown(period, n) == s.remaining <==> n == due;
        SubtractedTwice(s.remaining, Shown(period, n - 1), period);
        hide Shown, Add32, Sub32;
      }
    }
  }

  lemma SubtractedTwice(count: u32, shown: u32, step: u16)
    ensures Sub32(Sub32(count, shown), step) == Sub32(count, Add32(shown, step))
    ensures Sub32(count, Add32(shown, step)) == 0 <==> Add32(shown, step) == count
  {
  }

  /** A multiple of the period is counted down in as many periods; anything else has to go through
      the whole 32-bit range first. */
  lemma FiringTickExactly(period: Period, count: u32)
    requires count != 0
    ensures var due := FiringTick(period, count);
            if Leftover(period, count) == 0 then due == Cover(period, count) else Span(period, due) >= count + TWO_32
  {
    var due, cover := FiringTick(period, count), Cover(period, count);
    var wraps := ShownIsSpan(period, due);
    var wrapsAtCover := ShownIsSpan(period, cover);
    hide Bound;
  }

  /** The number of interrupts a delay takes: the first count at which the shown time is not below
      num. */
  function DelayTicks(period: Period, num: u32, from: nat := 0): (n: nat)
    requires from <= Bound(period, num)
    ensures from <= n <= Bound(period, num) && num <= Shown(period, n)
    ensures forall j :: from <= j < n ==> Shown(period, j) < num
    decreases Bound(period, num) - from
  {
    if Shown(period, from) < num then DelayTicks(period, num, from + 1) else from
  }

  function AfterDelay(s: ClockState, num: u32): ClockState
    requires ValidPeriod(s)
  {
    if s.enabled then Ticks(s, DelayTicks(s.msPerInterrupt, num)) else s
  }

  /** If interrupts come only while the processor sleeps, the delay takes ceil(num/period) of them from
      any start timestamp if and only if that many periods stay below 2^32; it never returns before num
      milliseconds have passed. */
  lemma DelayIsWrapSafeExactly(period: Period, num: u32)
    ensures DelayTicks(period, num) == Cover(period, num) <==> Span(period, Cover(period, num)) < TWO_32
    ensures Span(period, DelayTicks(period, num)) >= num
  {
    var ceil, n := Cover(period, num), DelayTicks(period, num);
    var wrapsAtCeil := ShownIsSpan(period, ceil);
    var wraps := ShownIsSpan(period, n);
  }

  lemma {:induction false} TicksAdvance(s: ClockState, n: nat)
    requires ValidPeriod(s)
    ensures Ticks(s, n).msPerInterrupt == s.msPerInterrupt && Ticks(s, n).enabled == s.enabled
    ensures Ticks(s, n).ticksPerInterrupt == s.ticksPerInterrupt
    ensures Sub32(Ticks(s, n).timestamp, s.timestamp) == Shown(s.msPerInterrupt, n)
  {
    if n != 0 {
      TicksAdvance(s, n - 1);
    }
  }

  // ----- The driver ---------------------------------------------------------------------------

  /** The static clock structure of the driver, with the timer's compare register. */
  class MsClock {
    var timestamp: u32
    var msPerInterrupt: u16
    var ticksPerInterrupt: u16
    var enabled: bool
    var remaining: u32
    var callback: Option<Callback>
    var compare: u16
    var calls: seq<Option<Callback>>

    ghost function State(): ClockState
      reads this
    {
      ClockState(timestamp, msPerInterrupt, ticksPerInterrupt, enabled, remaining, callback, compare, calls)
    }

    /** msp430_clock_init. */
    constructor ()
      ensures State() == Initial
    {
      enabled := true;
      ticksPerInterrupt := ACLK_HZ / 1000;
      compare := ACLK_HZ / 1000;
      msPerInterrupt := 1;
      timestamp := 0;
      callback := None;
      remaining := 0;
      calls := [];
    }

    /** TIMERB0_ISR. */
    method Isr()
      modifies this
      ensures State() == Tick(old(State()))
    {
      compare := Add16(compare, ticksPerInterrupt);
      timestamp := Add32(timestamp, msPerInterrupt);
      if remaining != 0 {
        remaining := Sub32(remaining, msPerInterrupt);
        if remaining == 0 {
          calls := calls + [callback];
        }
      }
    }

    method EnableClock()
      requires Valid(State())
      modifies this
      ensures State() == Apply(old(State()), Enable)
    {
      if enabled {
        return;
      }
      ticksPerInterrupt := ACLK_HZ / 1000;
      compare := ticksPerInterrupt;
      msPerInterrupt := 1;
      remaining := Add32(remaining, remaining % msPerInterrupt);
      enabled := true;
    }

    method DisableClock()
      requires Valid(State())
      modifies this
      ensures State() == Apply(old(State()), Disable)
    {
      if !enabled {
        return;
      }
      enabled := false;
    }

    method SlowDown(slow: bool)
      requires Valid(State())
      modifies this
      ensures State() == Apply(old(State()), SlowTimer(slow))
    {
      if slow {
        ticksPerInterrupt := 0xFFFF;
        compare := ticksPerInterrupt;
        msPerInterrupt := 0xFFFF * 1000 / ACLK_HZ;
        PeriodArithmetic(msPerInterrupt, 0, remaining);
        remaining := Add32(remaining, remaining % msPerInterrupt);
      } else {
        ticksPerInterrupt := ACLK_HZ / 1000;
        compare := ticksPerInterrupt;
        msPerInterrupt := 1;
      }
    }

    method RegisterCallback(cb: Option<Callback>, ms: u32)
      requires Valid(State())
      modifies this
      ensures State() == Apply(old(State()), Register(cb, ms))
    {
      if cb.None? || ms == 0 {
        callback := None;
        remaining := 0;
        return;
      }
      PeriodArithmetic(msPerInterrupt, 0, remaining);
      remaining := Add32(ms, remaining % msPerInterrupt);
      callback := cb;
    }

    /** msp430_delay_ms, with interrupts only while the processor sleeps: each sleep ends with the next
        timer interrupt. */
    method Delay(num: u32) returns (ret: int)
      requires ValidPeriod(State())
      modifies this
      ensures ret == if old(enabled) then 0 else -1
      ensures State() == AfterDelay(old(State()), num)
    {
      var start := timestamp;
      if !enabled {
        return -1;
      }
      ghost var n: nat := 0;
      ghost var before := State();
      ghost var last := DelayTicks(msPerInterrupt, num);
      while Sub32(timestamp, start) < num
        invariant n <= last && State() == Ticks(before, n)
        invariant Sub32(timestamp, start) == Shown(before.msPerInterrupt, n)
        decreases last - n
      {
        Isr();
        n := n + 1;
        TicksAdvance(before, n);
      }
      return 0;
    }
  }
}
