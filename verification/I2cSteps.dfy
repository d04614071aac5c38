/**
 * A transfer call as the interrupts see it: every look, the sleep, and every statement of the recovery is a
 * step, and an interrupt can come between any two of them.
 */
module I2cSteps {
  import opened Words
  import opened I2c
  import opened I2cData
  import Clock
  import DelaySteps

  // The next statement of the call; Drowsy is between a look at the state and the sleep. The two pauses of
  // the recovery are delays of one millisecond.
  datatype Pc =
    | Sample | LookState | Drowsy | Sleeping | LookClock
    | RequestStop | MarkWaiting | TurnOff
    | PauseStart(second: bool) | Pause(second: bool, from: u32, at: DelaySteps.Pc)
    | PullLow | LetHigh | TurnOn
    | Out(code: int)

  /** A call with its world. Counted are, from the sample of the clock until the loop is left, the ticks, all
      interrupts, and those since the last look at the clock that woke nobody; from the START on, the
      protocol interrupts; looks are the timestamps that were seen. */
  datatype State = State(
    world: World,
    start: u32,
    pc: Pc,
    ticks: nat,
    used: nat,
    extra: nat,
    protocol: nat,
    refused: bool,
    looks: seq<u32>)

  datatype Step = Go | Happens(irq: Irq)

  /** The call after its START, with its interrupts about to come. */
  function Enter(b: World): State {
    State(b, 0, Sample, 0, 0, 0, 0, false, [])
  }

  predicate InLoop(pc: Pc) {
    pc == LookState || pc == Drowsy || pc == Sleeping || pc == LookClock
  }

  function AfterPause(second: bool): Pc {
    if second then LetHigh else PullLow
  }

  /** The timestamp from which on a look gives the transfer up. */
  function Deadline(s: State): u32 {
    Add32(s.start, TIMEOUT_MS)
  }

  /** One statement of the call. */
  function Advance(s: State): (r: State)
    requires Bounded(s.world)
    ensures Bounded(r.world)
  {
    var w := s.world;
    var now := w.clock.timestamp;
    match s.pc
    case Sample => s.(start := now, pc := LookState)
    case LookState => s.(pc := if w.driver.mode == Waiting then Out(0) else Drowsy)
    case Drowsy => s.(pc := Sleeping)
    case Sleeping => s
    case LookClock =>
      s.(looks := s.looks + [now], extra := 0, pc := if now >= Deadline(s) then RequestStop else LookState)
    case RequestStop => s.(world := w.(bus := w.bus.(stopRequest := true)), pc := MarkWaiting)
    case MarkWaiting => s.(world := w.(driver := w.driver.(mode := Waiting)), pc := TurnOff)
    case TurnOff => s.(world := Disable(w), pc := PauseStart(false))
    case PauseStart(second) =>
      s.(pc := if w.clock.enabled then Pause(second, now, DelaySteps.Look) else AfterPause(second))
    case Pause(second, from, at) =>
      var next := DelaySteps.Next(at, Sub32(now, from), 1);
      s.(pc := if next == DelaySteps.Out then AfterPause(second) else Pause(second, from, next))
    case PullLow =>
      s.(world := w.(bus := w.bus.(trace := w.bus.trace + [Scl(false), Sda(false)])), pc := PauseStart(true))
    case LetHigh =>
      s.(world := w.(bus := w.bus.(trace := w.bus.trace + [Scl(true), Sda(true)])), pc := TurnOn)
    case TurnOn => s.(world := Enable(w), pc := Out(-1))
    case Out(_) => s
  }

  function WokenPc(pc: Pc): Pc {
    match pc
    case Sleeping => LookClock
    case Pause(second, from, at) => Pause(second, from, DelaySteps.Woken(at))
    case _ => pc
  }

  /** One interrupt; a clock that is off raises none, and one after the call's return belongs to the
      next. */
  function Happen(s: State, irq: Irq): (r: State)
    requires Bounded(s.world)
    ensures Bounded(r.world)
  {
    if s.pc.Out? || (irq == Tick && !s.world.clock.enabled) then s
    else
      State(React(s.world, irq), s.start, WokenPc(s.pc),
            if InLoop(s.pc) && irq == Tick then s.ticks + 1 else s.ticks,
            if InLoop(s.pc) then s.used + 1 else s.used,
            if InLoop(s.pc) && s.pc != Sleeping then s.extra + 1 else s.extra,
            if irq == Protocol then s.protocol + 1 else s.protocol,
            s.refused || (irq == Nak && s.world.bus.phase != Idle),
            s.looks)
  }

  function Take(s: State, step: Step): (r: State)
    requires Bounded(s.world)
    ensures Bounded(r.world)
  {
    match step
    case Go => Advance(s)
    case Happens(irq) => Happen(s, irq)
  }

  function Run(s: State, steps: seq<Step>): (r: State)
    requires Bounded(s.world)
    ensures Bounded(r.world)
    decreases |steps|
  {
    if steps == [] then s else Run(Take(s, steps[0]), steps[1..])
  }

  // ----- Every return leaves the driver at rest -----------------------------------------------

  predicate BeforeRecovery(pc: Pc) {
    pc == Sample || InLoop(pc) || pc == RequestStop
  }

  /** The interface is off. */
  predicate TurnedOff(w: World) {
    && !w.driver.enabled && w.driver.mode == Waiting
    && w.bus.phase == Idle && !w.bus.stopRequest
  }

  predicate Orderly(s: State) {
    var w := s.world;
    Bounded(w)
    && match s.pc
       case MarkWaiting => w.driver.enabled
       case TurnOff => w.driver.enabled && w.driver.mode == Waiting
       case PauseStart(_) => TurnedOff(w)
       case Pause(_, _, _) => TurnedOff(w)
       case PullLow => TurnedOff(w)
       case LetHigh => TurnedOff(w)
       case TurnOn => TurnedOff(w)
       case Out(_) => Resting(w) && w.driver.enabled
       case _ => Safe(w) && w.driver.enabled
  }

  lemma SafeReaction(w: World, irq: Irq)
    requires Safe(w)
    ensures Bounded(w) && React(w, irq) == Interrupt(w, irq)
  {
  }

  lemma WaitingStays(w: World, irq: Irq)
    requires Bounded(w) && w.driver.mode == Waiting
    ensures React(w, irq).driver.mode == Waiting
    ensures TurnedOff(w) ==> TurnedOff(React(w, irq))
  {
  }

  lemma HappenKeepsOrder(s: State, irq: Irq)
    requires Orderly(s)
    ensures Orderly(Happen(s, irq))
  {
    if s.world.driver.mode == Waiting {
      WaitingStays(s.world, irq);
    }
    if BeforeRecovery(s.pc) {
      SafeReaction(s.world, irq);
    }
    hide React, Safe, Bounded;
  }

  lemma AdvanceKeepsOrder(s: State)
    requires Orderly(s)
    ensures Orderly(Advance(s))
  {
  }

  lemma TakeKeepsOrder(s: State, step: Step)
    requires Orderly(s)
    ensures Orderly(Take(s, step))
  {
    match step
    case Go => AdvanceKeepsOrder(s);
    case Happens(irq) => HappenKeepsOrder(s, irq);
  }

  lemma {:induction false} RunKeepsOrder(s: State, steps: seq<Step>)
    requires Orderly(s)
    ensures Orderly(Run(s, steps))
    decreases |steps|
  {
    if steps != [] {
      TakeKeepsOrder(s, steps[0]);
      hide Take, Orderly;
      RunKeepsOrder(Take(s, steps[0]), steps[1..]);
    }
  }

  /** In every interleaving, whatever interrupts fall where, a call that has returned leaves the driver
      enabled and waiting. */
  lemma EveryInterleavingRests(b: World, steps: seq<Step>)
    requires Begun(b)
    ensures Bounded(b)
    ensures var s := Run(Enter(b), steps); s.pc.Out? ==> Resting(s.world) && s.world.driver.enabled
  {
    RunKeepsOrder(Enter(b), steps);
  }

  // ----- What has been moved, at every moment -------------------------------------------------

  /** k bytes of the transfer have been moved: k bytes fetched into the caller's buffer and nothing else
      in memory or slave changed, or k bytes stored in the slave and nothing else. */
  predicate Moved(b: World, w: World, k: nat)
    requires Begun(b)
  {
    var d, regs := b.driver, b.bus.slave.regs;
    && k <= d.length
    && (if d.mode == Writing then w.mem == b.mem && w.bus.slave.regs == Stored(regs, d.slaveReg, Prefix(b, k))
        else w.bus.slave.regs == regs
             && w.mem == b.mem[..d.data] + Fetched(regs, d.slaveReg, k) + b.mem[d.data + k..])
  }

  /** Where driver and slave stand in a transfer, whether it is being given up or not. */
  predicate Tracked(b: World, w: World)
    requires Begun(b)
  {
    var d, e, p := b.driver, w.driver, w.bus;
    && e.length <= d.length && e.data == d.data + (d.length - e.length) && e.slaveReg == d.slaveReg
    && (e.mode != Waiting ==> e.mode == d.mode)
    && (p.phase == SlaveSends ==> d.mode == Reading && p.slave.pointer == Nth(d.slaveReg, d.length - e.length))
    && (p.phase == MasterSends ==>
          && (d.mode == Reading || !e.slaveRegWritten ==> e.length == d.length)
          && p.slave.selecting == !e.slaveRegWritten
          && (e.slaveRegWritten ==> p.slave.pointer == Nth(d.slaveReg, d.length - e.length)))
    && Moved(b, w, d.length - e.length)
  }

  lemma SendingIsTracked(b: World, w: World)
    requires Begun(b) && Bounded(w) && Tracked(b, w) && w.bus.phase == MasterSends
    ensures Tracked(b, Sending(w))
  {
    var d, e := b.driver, w.driver;
    var k := d.length - e.length;
    if e.mode == Writing && e.slaveRegWritten && e.length != 0 {
      DataByteIsTracked(b, w);
    } else if e.mode == Writing {
      ControlIsTracked(b, w);
    } else {
      ReadSetupIsTracked(b, w);
    }
  }

  lemma DataByteIsTracked(b: World, w: World)
    requires Begun(b) && Bounded(w) && Tracked(b, w) && w.bus.phase == MasterSends
    requires w.driver.mode == Writing && w.driver.slaveRegWritten && w.driver.length != 0
    ensures Tracked(b, Sending(w))
  {
    DataByteGoesOut(w);
    AcceptData(w.bus.slave, w.mem[w.driver.data]);
    StoresOneMore(b, b.driver.length - w.driver.length);
    hide Stored, Accept, Prefix, Sending, Bounded, Begun;
  }

  lemma StoresOneMore(b: World, k: nat)
    requires Begun(b) && b.driver.mode == Writing && k < b.driver.length
    ensures var d, regs := b.driver, b.bus.slave.regs;
            && I2c.Next(Nth(d.slaveReg, k)) == Nth(d.slaveReg, k + 1)
            && Stored(regs, d.slaveReg, Prefix(b, k + 1))
               == Stored(regs, d.slaveReg, Prefix(b, k))[Nth(d.slaveReg, k) as int := b.mem[d.data + k]]
  {
    PrefixOneMore(b, k);
    StoredOneMore(b.bus.slave.regs, b.driver.slaveReg, Prefix(b, k), b.mem[b.driver.data + k]);
    hide Stored, Prefix;
  }

  lemma DataByteGoesOut(w: World)
    requires Bounded(w) && w.bus.phase == MasterSends
    requires w.driver.mode == Writing && w.driver.slaveRegWritten && w.driver.length != 0
    ensures var v := w.mem[w.driver.data];
            Sending(w) == w.(driver := w.driver.(data := w.driver.data + 1, length := w.driver.length - 1),
                             bus := w.bus.(slave := Accept(w.bus.slave, v), trace := w.bus.trace + [Sent(v)]))
  {
  }

  lemma ControlIsTracked(b: World, w: World)
    requires Begun(b) && Bounded(w) && Tracked(b, w) && w.bus.phase == MasterSends
    requires w.driver.mode == Writing && (!w.driver.slaveRegWritten || w.driver.length == 0)
    ensures Tracked(b, Sending(w))
  {
    hide Stored, Prefix, Fetched;
  }

  lemma ReadSetupIsTracked(b: World, w: World)
    requires Begun(b) && Bounded(w) && Tracked(b, w) && w.bus.phase == MasterSends
    requires w.driver.mode != Writing
    ensures Tracked(b, Sending(w))
  {
    hide Stored, Prefix, Fetched;
  }

  lemma ReceivingIsTracked(b: World, w: World)
    requires Begun(b) && Bounded(w) && Tracked(b, w) && w.bus.phase == SlaveSends
    ensures Tracked(b, Receiving(w))
  {
    ByteIsStored(w);
    FetchesOneMore(b, b.driver.length - w.driver.length);
    hide Receiving, Fetched, Stored, Prefix, Bounded, Begun;
  }

  lemma ByteIsStored(w: World)
    requires Bounded(w) && w.bus.phase == SlaveSends
    ensures var r, p := Receiving(w), w.bus.slave;
            && r.mem == w.mem[w.driver.data := p.regs[p.pointer as int]]
            && r.driver == w.driver.(mode := r.driver.mode, data := w.driver.data + 1, length := w.driver.length - 1)
            && r.driver.mode in {Waiting, w.driver.mode}
            && r.bus.slave == p.(pointer := I2c.Next(p.pointer)) && r.bus.phase in {Idle, SlaveSends}
  {
  }

  lemma FetchesOneMore(b: World, k: nat)
    requires Begun(b) && k < b.driver.length
    ensures var d, regs := b.driver, b.bus.slave.regs;
            && I2c.Next(Nth(d.slaveReg, k)) == Nth(d.slaveReg, k + 1)
            && (b.mem[..d.data] + Fetched(regs, d.slaveReg, k) + b.mem[d.data + k..])
                 [d.data + k := regs[Nth(d.slaveReg, k) as int]]
               == b.mem[..d.data] + Fetched(regs, d.slaveReg, k + 1) + b.mem[d.data + (k + 1)..]
  {
    FetchedOneMore(b.bus.slave.regs, b.driver.slaveReg, k, b.driver.length);
    hide Fetched;
  }

  lemma ReactionIsTracked(b: World, w: World, irq: Irq)
    requires Begun(b) && Bounded(w) && Tracked(b, w)
    ensures Tracked(b, React(w, irq))
  {
    if irq == Protocol && w.bus.phase == MasterSends {
      SendingIsTracked(b, w);
    } else if irq == Protocol && w.bus.phase == SlaveSends {
      ReceivingIsTracked(b, w);
    }
    hide Sending, Receiving, Stored, Fetched, Prefix;
  }

  ghost predicate Accounted(b: World, s: State)
    requires Begun(b)
  {
    Orderly(s) && (Tracked(b, s.world) || (s.pc.Out? && exists k :: Moved(b, s.world, k)))
  }

  lemma TakeIsAccounted(b: World, s: State, step: Step)
    requires Begun(b) && Accounted(b, s)
    ensures Accounted(b, Take(s, step))
  {
    TakeKeepsOrder(s, step);
    if Tracked(b, s.world) {
      match step
      case Happens(irq) =>
        ReactionIsTracked(b, s.world, irq);
        hide React, Tracked, Orderly, Begun, Bounded;
      case Go =>
        if s.pc == TurnOn {
          TurningOnKeeps(b, s);
        } else {
          AdvanceIsTracked(b, s);
        }
        hide Advance, Tracked, Orderly, Begun, Bounded, Moved;
    }
  }

  lemma AdvanceIsTracked(b: World, s: State)
    requires Begun(b) && Orderly(s) && Tracked(b, s.world) && s.pc != TurnOn
    ensures Tracked(b, Advance(s).world)
  {
    hide Stored, Fetched, Prefix, Begun, Bounded;
  }

  lemma TurningOnKeeps(b: World, s: State)
    requires Begun(b) && Bounded(s.world) && Tracked(b, s.world) && s.pc == TurnOn
    ensures Advance(s).pc == Out(-1) && exists k :: Moved(b, Advance(s).world, k)
  {
    hide Stored, Fetched, Prefix, Begun, Bounded;
    assert Moved(b, Enable(s.world), b.driver.length - s.world.driver.length);
  }

  lemma {:induction false} RunIsAccounted(b: World, s: State, steps: seq<Step>)
    requires Begun(b) && Accounted(b, s)
    ensures Accounted(b, Run(s, steps))
    decreases |steps|
  {
    if steps != [] {
      TakeIsAccounted(b, s, steps[0]);
      hide Take, Accounted, Orderly, Begun;
      RunIsAccounted(b, Take(s, steps[0]), steps[1..]);
    }
  }

  lemma EntryIsTracked(b: World)
    requires Begun(b)
    ensures Accounted(b, Enter(b))
  {
    assert Prefix(b, 0) == [];
    assert b.mem == b.mem[..b.driver.data] + Fetched(b.bus.slave.regs, b.driver.slaveReg, 0) + b.mem[b.driver.data..];
  }

  /** At every moment of every interleaving, through refusal, timeout and recovery, some first bytes of the
      transfer have been moved as they should be, and nothing else has changed in memory or slave. */
  lemma EveryMomentIsPartial(b: World, steps: seq<Step>)
    requires Begun(b)
    ensures Bounded(b) && exists k :: Moved(b, Run(Enter(b), steps).world, k)
  {
    EntryIsTracked(b);
    RunIsAccounted(b, Enter(b), steps);
    var s := Run(Enter(b), steps);
    AccountedIsPartial(b, s);
    hide Run, Moved, Accounted, Begun, Bounded;
  }

  lemma AccountedIsPartial(b: World, s: State)
    requires Begun(b) && Accounted(b, s)
    ensures exists k :: Moved(b, s.world, k)
  {
    hide Begun, Orderly, Bounded;
    if Tracked(b, s.world) {
      assert Moved(b, s.world, b.driver.length - s.world.driver.length);
    }
  }

  /** A byte that comes in after the look that gives up is still stored, as long as the interface has
      not been reset. */
  lemma RecoveryStillStores(s: State)
    requires Bounded(s.world) && s.pc in {RequestStop, MarkWaiting, TurnOff} && s.world.bus.phase == SlaveSends
    ensures var w, p := s.world, s.world.bus.slave;
            Happen(s, Protocol).world.mem == w.mem[w.driver.data := p.regs[p.pointer as int]]
  {
  }

  // ----- What a return value means ------------------------------------------------------------

  /** The world is where the protocol interrupts have brought it, or ends in a refusal. */
  predicate Followed(b: World, s: State)
    requires Begun(b)
  {
    var w := s.world;
    if s.refused then w.driver.mode == Waiting && EndsRefused(w)
    else Reached(b, w, s.protocol)
  }

  /** Where some protocol interrupts have brought the transfer. */
  predicate Reached(b: World, w: World, protocol: nat)
    requires Begun(b)
  {
    w == At(b, if protocol <= Steps(b) then protocol else Steps(b)).(clock := w.clock)
  }

  predicate ClockShows(b: World, s: State)
    requires Begun(b)
  {
    var c := s.world.clock;
    && c.msPerInterrupt == b.clock.msPerInterrupt && c.enabled == b.clock.enabled
    && (s.pc != Sample ==> c.timestamp == Add32(s.start, Clock.Shown(c.msPerInterrupt, s.ticks)))
  }

  predicate AllBelow(looks: seq<u32>, deadline: u32) {
    forall x :: x in looks ==> x < deadline
  }

  /** The last look gave up, and no earlier one did. */
  predicate GivenUp(s: State) {
    && |s.looks| > 0 && s.looks[|s.looks| - 1] >= Deadline(s)
    && AllBelow(s.looks[..|s.looks| - 1], Deadline(s))
  }

  /** The ticks have brought the clock to the deadline. */
  predicate Timed(b: World, s: State)
    requires Begun(b)
  {
    Add32(s.start, Clock.Shown(b.clock.msPerInterrupt, s.ticks)) >= Deadline(s)
  }

  predicate Explained(b: World, s: State)
    requires Begun(b)
  {
    && Orderly(s)
    && (BeforeRecovery(s.pc) || s.pc == Out(0) ==> Followed(b, s))
    && (s.pc == Sample || InLoop(s.pc) ==> ClockShows(b, s) && AllBelow(s.looks, Deadline(s)))
    && (s.pc == Sample ==> s.looks == [] && s.ticks == 0)
    && (s.pc == Out(0) ==> AllBelow(s.looks, Deadline(s)))
    && (s.pc.Out? ==> s.pc == Out(0) || s.pc == Out(-1))
    && (!(s.pc == Sample || InLoop(s.pc) || s.pc == Out(0)) ==> GivenUp(s) && Timed(b, s))
  }

  lemma HappenFollows(b: World, s: State, irq: Irq)
    requires Begun(b) && Followed(b, s) && Safe(s.world) && !s.pc.Out?
    ensures Followed(b, Happen(s, irq))
  {
    var w, t := s.world, Happen(s, irq);
    SafeReaction(w, irq);
    NakNeedsBus(w);
    if irq == Tick && !w.clock.enabled {
      return;
    }
    InterruptsAreTaken(s, irq);
    hide Happen, Interrupt, React, Safe, Begun, EndsRefused, Bounded, Reached;
    if s.refused {
      RefusedStays(w, irq);
    } else if irq != Nak {
      ReachedNext(b, w, s.protocol, irq);
    } else if w.bus.phase != Idle {
      NakRefuses(w);
    } else {
      IdleNak(w);
    }
  }

  /** At every moment of a call until its return an interrupt is taken, except the tick of a clock that is
      off, and it wakes the processor if that sleeps. */
  lemma InterruptsAreTaken(s: State, irq: Irq)
    requires Bounded(s.world) && !s.pc.Out? && (irq == Tick ==> s.world.clock.enabled)
    ensures var t := Happen(s, irq);
            && t.world == React(s.world, irq)
            && t.pc != Sleeping && !(t.pc.Pause? && t.pc.at == DelaySteps.Asleep)
            && (s.pc != Sleeping && !s.pc.Pause? ==> t.pc == s.pc)
            && t.protocol == (if irq == Protocol then s.protocol + 1 else s.protocol)
            && (t.refused <==> s.refused || (irq == Nak && s.world.bus.phase != Idle))
  {
    hide React, Bounded;
  }

  lemma ReachedNext(b: World, w: World, protocol: nat, irq: Irq)
    requires Begun(b) && Safe(w) && Reached(b, w, protocol) && irq != Nak
    ensures Reached(b, Interrupt(w, irq), if irq == Protocol then protocol + 1 else protocol)
  {
    hide Interrupt, At, Safe, Begun;
    var k := if protocol <= Steps(b) then protocol else Steps(b);
    var k' := NextAt(b, w, k, irq);
  }

  lemma NextAt(b: World, w: World, k: nat, irq: Irq) returns (k': nat)
    requires Begun(b) && Safe(w) && k <= Steps(b) && w == At(b, k).(clock := w.clock) && irq != Nak
    ensures k' == if irq == Protocol && k < Steps(b) then k + 1 else k
    ensures Interrupt(w, irq) == At(b, k').(clock := Interrupt(w, irq).clock)
  {
    assert Clock.ValidPeriod(w.clock);
    hide Interrupt, At, Safe, Begun, Steps;
    var c': Clock.ClockState;
    k', c' := OneWake(b, k, w.clock, irq);
  }

  lemma NakNeedsBus(w: World)
    requires Safe(w)
    ensures w.bus.phase != Idle <==> w.driver.mode != Waiting
  {
  }

  lemma RefusedStays(w: World, irq: Irq)
    requires Safe(w) && w.driver.mode == Waiting && EndsRefused(w)
    ensures Interrupt(w, irq).driver.mode == Waiting && EndsRefused(Interrupt(w, irq))
  {
  }

  lemma IdleNak(w: World)
    requires Safe(w) && w.bus.phase == Idle
    ensures Interrupt(w, Nak) == w
  {
  }

  lemma HappenShows(b: World, s: State, irq: Irq)
    requires Begun(b) && ClockShows(b, s) && Bounded(s.world) && (s.pc == Sample || InLoop(s.pc))
    ensures ClockShows(b, Happen(s, irq))
  {
    ReactionClock(s.world, irq);
    hide React, Begun, Bounded;
  }

  lemma ReactionClock(w: World, irq: Irq)
    requires Bounded(w)
    ensures React(w, irq).clock == if irq == Tick && w.clock.enabled then Clock.Tick(w.clock) else w.clock
  {
  }

  lemma HappenIsExplained(b: World, s: State, irq: Irq)
    requires Begun(b) && Explained(b, s)
    ensures Explained(b, Happen(s, irq))
  {
    HappenKeepsOrder(s, irq);
    HappenTouches(s, irq);
    if BeforeRecovery(s.pc) {
      HappenFollows(b, s, irq);
      if s.pc != RequestStop {
        HappenShows(b, s, irq);
      }
    }
    hide Happen, Followed, Begun, ClockShows, Bounded, Orderly;
  }

  /** What an interrupt leaves alone. */
  lemma HappenTouches(s: State, irq: Irq)
    requires Bounded(s.world)
    ensures var t := Happen(s, irq);
            && t.start == s.start && t.looks == s.looks && t.pc == (if t == s then s.pc else WokenPc(s.pc))
            && (InLoop(s.pc) || t.ticks == s.ticks)
            && (s.pc == Sample ==> t.pc == Sample) && (InLoop(s.pc) ==> InLoop(t.pc))
            && (s.pc == RequestStop ==> t.pc == RequestStop) && (s.pc.Out? ==> t == s)
            && (!(BeforeRecovery(s.pc) || s.pc.Out?) ==> !(BeforeRecovery(t.pc) || t.pc.Out?))
  {
    hide React, Bounded;
  }

  lemma AdvanceIsExplained(b: World, s: State)
    requires Begun(b) && Explained(b, s)
    ensures Explained(b, Advance(s))
  {
    AdvanceKeepsOrder(s);
    match s.pc
    case Sample => SampleIsExplained(b, s);
    case LookClock => LookIsExplained(b, s);
    case LookState => StateLookIsExplained(b, s);
    case Drowsy => StateLookIsExplained(b, s);
    case Sleeping => StateLookIsExplained(b, s);
    case _ => LeftLoopIsExplained(b, s);
    hide Explained, Advance;
  }

  lemma StateLookIsExplained(b: World, s: State)
    requires Begun(b) && Explained(b, s) && (s.pc == LookState || s.pc == Drowsy || s.pc == Sleeping)
    requires Orderly(Advance(s))
    ensures Explained(b, Advance(s))
  {
    hide Orderly, At, EndsRefused, Begun, Bounded;
  }

  lemma LeftLoopIsExplained(b: World, s: State)
    requires Begun(b) && Explained(b, s) && !(s.pc == Sample || InLoop(s.pc)) && Orderly(Advance(s))
    ensures Explained(b, Advance(s))
  {
    hide Orderly, Followed, ClockShows, Begun, Bounded, Disable, Enable;
  }

  lemma LoopKeepsWorld(s: State)
    requires Bounded(s.world) && (s.pc == Sample || InLoop(s.pc))
    ensures Advance(s).world == s.world
  {
  }

  lemma SampleIsExplained(b: World, s: State)
    requires Begun(b) && Explained(b, s) && s.pc == Sample
    requires Orderly(Advance(s))
    ensures Explained(b, Advance(s))
  {
    hide Orderly, At, EndsRefused, Begun, Bounded;
  }

  lemma LookIsExplained(b: World, s: State)
    requires Begun(b) && Explained(b, s) && s.pc == LookClock
    requires Orderly(Advance(s))
    ensures Explained(b, Advance(s))
  {
    var t := Advance(s);
    assert t.looks[..|t.looks| - 1] == s.looks;
    assert t.world == s.world;
    hide At, EndsRefused, Begun, Bounded, Orderly;
  }

  lemma {:induction false} RunIsExplained(b: World, s: State, steps: seq<Step>)
    requires Begun(b) && Explained(b, s)
    ensures Explained(b, Run(s, steps))
    decreases |steps|
  {
    if steps != [] {
      match steps[0] {
        case Go => AdvanceIsExplained(b, s);
        case Happens(irq) => HappenIsExplained(b, s, irq);
      }
      hide Advance, Happen, Explained, Begun;
      RunIsExplained(b, Take(s, steps[0]), steps[1..]);
    }
  }

  lemma EntryIsExplained(b: World)
    requires Begun(b)
    ensures Explained(b, Enter(b))
  {
  }

  /** In every interleaving the return value tells what the looks at the clock have seen: it is 0 if and
      only if all of them were below the deadline, and -1 if and only if the last one was not. After 0 the
      transfer has had all its interrupts and is finished, unless a byte was refused. After -1, if the
      deadline fits in 32 bits, at least 2500 ms have passed. */
  lemma ReturnTellsLooks(b: World, steps: seq<Step>)
    requires Begun(b)
    ensures Bounded(b)
    ensures var s := Run(Enter(b), steps);
            s.pc.Out? ==>
              && s.pc.code in {0, -1}
              && (s.pc.code == 0 <==> AllBelow(s.looks, Deadline(s)))
              && (s.pc.code == -1 <==> GivenUp(s))
              && (s.pc.code == 0 ==> (Finished(b, s.world) <==> !s.refused))
              && (s.pc.code == 0 && !s.refused ==> s.protocol >= Steps(b))
              && (s.pc.code == -1 && s.start + TIMEOUT_MS < TWO_32 ==>
                    Clock.Span(b.clock.msPerInterrupt, s.ticks) >= TIMEOUT_MS)
  {
    EntryIsExplained(b);
    RunIsExplained(b, Enter(b), steps);
    var s := Run(Enter(b), steps);
    if s.pc == Out(0) {
      FinishedMeansUnrefused(b, s);
      assert s.looks != [] ==> s.looks[|s.looks| - 1] in s.looks;
    } else if s.pc == Out(-1) {
      assert s.looks[|s.looks| - 1] in s.looks;
      var wraps := Clock.ShownIsSpan(b.clock.msPerInterrupt, s.ticks);
    }
    hide Run, Followed, Begun, Bounded, Finished, Orderly, Clock.Shown;
  }

  lemma FinishedMeansUnrefused(b: World, s: State)
    requires Begun(b) && Orderly(s) && s.pc == Out(0) && Followed(b, s)
    ensures Finished(b, s.world) <==> !s.refused
    ensures !s.refused ==> s.protocol >= Steps(b)
  {
    FinishedIsNotRefused(b);
    if !s.refused && s.protocol < Steps(b) {
      TransferStep(b, s.protocol);
      assert false;
    }
    hide At;
  }
}
