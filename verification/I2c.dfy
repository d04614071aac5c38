/**
 * The interrupt-driven I2C master of the MSP430 system layer, together with the bus it drives and
 * a register-file slave. A transfer is advanced by interrupts; a foreground loop sleeps, is woken
 * by each interrupt, and gives up 2500 ms after the start. The bus trace follows the I2C-bus
 * specification, NXP UM10204, sections 3.1.4 (START, STOP), 3.1.6 (ACK, NACK) and 3.1.10.
 */
module I2c {
  import opened Words
  import Clock

  const TIMEOUT_MS: u32 := 2500

  datatype Mode = Waiting | Reading | Writing

  /** The static structure of the driver; data is an address in memory. */
  datatype Driver = Driver(
    mode: Mode,
    slaveReg: byte,
    slaveRegWritten: bool,
    data: nat,
    length: u16,
    enabled: bool)

  /** What can be seen on the bus, and on its two pins while they are driven by hand. A reset of the
      interface comes with a STOP requested, when a transfer is given up, or without. */
  datatype BusEvent =
    | Start(address: byte, read: bool)
    | Sent(value: byte)
    | Received(value: byte, ack: bool)
    | Refused
    | Stop
    | Reset(stopping: bool)
    | Scl(high: bool)
    | Sda(high: bool)

  /** Who sends the next byte; Idle when no transfer is on the bus. */
  datatype Phase = Idle | MasterSends | SlaveSends

  /** A register file: the first byte of a write selects a register, every data byte moves on. */
  datatype Slave = Slave(regs: seq<byte>, pointer: byte, selecting: bool)

  /** The serial interface (its control bits and buffers), the slave behind it, and the trace. */
  datatype Bus = Bus(
    phase: Phase,
    address: byte,
    transmit: bool,
    startRequest: bool,
    stopRequest: bool,
    txbuf: Option<byte>,
    rxbuf: byte,
    slave: Slave,
    trace: seq<BusEvent>)

  datatype World = World(driver: Driver, mem: seq<byte>, bus: Bus, clock: Clock.ClockState)

  /** What wakes the processor: the clock, the next interrupt of the transfer, a refused byte, or
      an interrupt vector that the driver ignores. */
  datatype Irq = Tick | Protocol | Nak | Ignored

  // ----- The hardware -------------------------------------------------------------------------

  function Next(register: byte): byte {
    if register == 255 then 0 else register + 1
  }

  function SendStart(bus: Bus): Bus {
    bus.(phase := if bus.transmit then MasterSends else SlaveSends,
         startRequest := false,
         slave := bus.slave.(selecting := bus.transmit),
         trace := bus.trace + [Start(bus.address, !bus.transmit)])
  }

  function SendStop(bus: Bus): Bus {
    bus.(phase := Idle, startRequest := false, stopRequest := false, txbuf := None,
         trace := bus.trace + [Stop])
  }

  function Accept(slave: Slave, value: byte): Slave
    requires |slave.regs| == 256
  {
    if slave.selecting then slave.(pointer := value, selecting := false)
    else slave.(regs := slave.regs[slave.pointer as int := value], pointer := Next(slave.pointer))
  }

  /** What the transmitter does once the interrupt routine returns: a buffered byte goes out first,
      then a requested START, then a requested STOP. */
  function Transmit(bus: Bus): Bus
    requires |bus.slave.regs| == 256
  {
    match bus.txbuf
    case Some(v) => bus.(txbuf := None, slave := Accept(bus.slave, v), trace := bus.trace + [Sent(v)])
    case None =>
      if bus.startRequest then SendStart(bus)
      else if bus.stopRequest then SendStop(bus)
      else bus
  }

  /** The receiver takes a byte; a STOP requested before its end makes it the last one. */
  function Receive(bus: Bus): Bus
    requires |bus.slave.regs| == 256
  {
    var v := bus.slave.regs[bus.slave.pointer as int];
    var taken := bus.(rxbuf := v,
                      slave := bus.slave.(pointer := Next(bus.slave.pointer)),
                      trace := bus.trace + [Received(v, !bus.stopRequest)]);
    if bus.stopRequest then SendStop(taken) else taken
  }

  // ----- The interrupt routine ----------------------------------------------------------------

  /** What holds at every moment, and keeps every access inside the caller's buffer. */
  predicate Bounded(w: World) {
    var d, b := w.driver, w.bus;
    && |b.slave.regs| == 256 && Clock.ValidPeriod(w.clock)
    && b.txbuf == None && !b.startRequest
    && (d.mode != Waiting || b.phase != Idle ==> d.data + d.length <= |w.mem|)
    && (b.phase != Idle ==> d.enabled)
    && (d.mode == Reading || b.phase == SlaveSends ==> d.length >= 1)
    && (b.phase == SlaveSends && d.length == 1 ==> b.stopRequest)
  }

  /** What holds between interrupts while a call waits, and between calls. */
  predicate Safe(w: World) {
    var d, b := w.driver, w.bus;
    && |b.slave.regs| == 256 && Clock.ValidPeriod(w.clock)
    && (d.mode == Waiting <==> b.phase == Idle)
    && b.txbuf == None && !b.startRequest
    && (b.stopRequest <==> b.phase == SlaveSends && d.length == 1)
    && (d.mode != Waiting ==> d.enabled && d.data + d.length <= |w.mem|)
    && (d.mode == Writing ==> b.phase == MasterSends)
    && (d.mode == Reading ==> d.length >= 1 && (b.phase == SlaveSends ==> d.slaveRegWritten))
    && (b.phase == MasterSends ==> b.transmit)
  }

  function TxInterrupt(w: World): World
    requires |w.bus.slave.regs| == 256 && w.bus.txbuf == None
    requires w.driver.mode == Writing && w.driver.length != 0 ==> w.driver.data < |w.mem|
  {
    var d, b := w.driver, w.bus;
    match d.mode
    case Writing =>
      if !d.slaveRegWritten then
        w.(driver := d.(slaveRegWritten := true), bus := b.(txbuf := Some(d.slaveReg)))
      else if d.length != 0 then
        w.(driver := d.(data := d.data + 1, length := d.length - 1), bus := b.(txbuf := Some(w.mem[d.data])))
      else
        w.(driver := d.(mode := Waiting), bus := b.(stopRequest := true))
    case Reading =>
      if !d.slaveRegWritten then
        w.(driver := d.(slaveRegWritten := true), bus := b.(txbuf := Some(d.slaveReg)))
      else
        var restart := b.(transmit := false, startRequest := true);
        w.(bus := if d.length == 1 then Transmit(restart).(stopRequest := true) else restart)
    case Waiting => w
  }

  function RxInterrupt(w: World): World
    requires w.driver.length >= 1 && w.driver.data < |w.mem|
  {
    var d, b := w.driver, w.bus;
    w.(driver := d.(mode := if d.length == 1 then Waiting else d.mode, data := d.data + 1, length := d.length - 1),
       mem := w.mem[d.data := b.rxbuf],
       bus := if d.length == 2 then b.(stopRequest := true) else b)
  }

  function NakInterrupt(w: World): World {
    w.(driver := w.driver.(mode := Waiting), bus := w.bus.(stopRequest := true))
  }

  /** The refusal's branch ends the transfer and requests a STOP, and does nothing else. */
  lemma RefusalRequestsStop(w: World)
    ensures var n := NakInterrupt(w);
            && n.driver.mode == Waiting && n.bus.stopRequest
            && n == w.(driver := w.driver.(mode := n.driver.mode), bus := w.bus.(stopRequest := n.bus.stopRequest))
  {
  }

  predicate Same(r: World, w: World) {
    Bounded(r) && |r.mem| == |w.mem| && r.driver.enabled == w.driver.enabled
  }

  /** A transmit interrupt, and what the transmitter then does. */
  function Sending(w: World): (r: World)
    requires Bounded(w) && w.bus.phase == MasterSends
    ensures Same(r, w)
  {
    var t := TxInterrupt(w);
    if t.bus.phase == MasterSends then t.(bus := Transmit(t.bus)) else t
  }

  /** A byte from the receiver, and its interrupt. */
  function Receiving(w: World): (r: World)
    requires Bounded(w) && w.bus.phase == SlaveSends
    ensures Same(r, w)
  {
    RxInterrupt(w.(bus := Receive(w.bus)))
  }

  /** A byte that the slave refuses, and its interrupt. */
  function Refusing(w: World): (r: World)
    requires Bounded(w) && w.bus.phase != Idle
    ensures Same(r, w)
  {
    var n := NakInterrupt(w.(bus := w.bus.(trace := w.bus.trace + [Refused])));
    if n.bus.stopRequest then n.(bus := SendStop(n.bus)) else n
  }

  /** One interrupt, from the hardware that raises it to the hardware that acts on it. */
  function React(w: World, irq: Irq): (r: World)
    requires Bounded(w)
    ensures Same(r, w)
  {
    match irq
    case Tick => w.(clock := if w.clock.enabled then Clock.Tick(w.clock) else w.clock)
    case Protocol =>
      (match w.bus.phase
       case Idle => if w.driver.mode == Waiting then TxInterrupt(w) else w // one that was still pending
       case MasterSends => Sending(w)
       case SlaveSends => Receiving(w))
    case Nak => if w.bus.phase == Idle then w else Refusing(w)
    case Ignored => w
  }

  /** The same while a call waits. */
  function Interrupt(w: World, irq: Irq): (r: World)
    requires Safe(w)
    ensures Safe(r) && |r.mem| == |w.mem| && r.driver.enabled == w.driver.enabled
  {
    React(w, irq)
  }

  // ----- Calls into the driver ----------------------------------------------------------------

  function Enable(w: World): World {
    if w.driver.enabled then w
    else
      w.(driver := Driver(Waiting, 0, false, 0, 0, true),
         bus := w.bus.(transmit := false, trace := w.bus.trace + [Reset(w.bus.stopRequest)]))
  }

  function Disable(w: World): World {
    if !w.driver.enabled then w
    else
      w.(driver := w.driver.(enabled := false),
         bus := w.bus.(phase := Idle, startRequest := false, stopRequest := false, txbuf := None,
                       trace := w.bus.trace + [Reset(w.bus.stopRequest), Scl(true), Sda(true)]))
  }

  /** Gives up a transfer: the interface is reset and the bus lines are pulled low for a while. */
  function Recover(w: World): World
    requires Clock.ValidPeriod(w.clock)
  {
    var off := Disable(w.(driver := w.driver.(mode := Waiting), bus := w.bus.(stopRequest := true)));
    var first := Clock.AfterDelay(off.clock, 1);
    DelayKeepsPeriod(off.clock);
    var pulsed := off.bus.(trace := off.bus.trace + [Scl(false), Sda(false)] + [Scl(true), Sda(true)]);
    Enable(off.(clock := Clock.AfterDelay(first, 1), bus := pulsed))
  }

  lemma DelayKeepsPeriod(c: Clock.ClockState)
    requires Clock.ValidPeriod(c)
    ensures Clock.ValidPeriod(Clock.AfterDelay(c, 1))
  {
    if c.enabled {
      Clock.TicksAdvance(c, Clock.DelayTicks(c.msPerInterrupt, 1));
    }
  }

  /** What a call comes to while interrupts wake the processor one after another. */
  datatype Outcome = Returned(code: int, world: World, used: nat) | Asleep(world: World)

  /** The wait loop, with interrupts only while the processor sleeps: the state is looked at before each
      sleep, the clock after it. */
  function Await(w: World, start: u32, wakes: seq<Irq>): Outcome
    requires Safe(w)
    decreases |wakes|
  {
    if w.driver.mode == Waiting then Returned(0, w, 0)
    else if wakes == [] then Asleep(w)
    else
      var woken := Interrupt(w, wakes[0]);
      if woken.clock.timestamp >= Add32(start, TIMEOUT_MS) then Returned(-1, Recover(woken), 1)
      else
        match Await(woken, start, wakes[1..])
        case Returned(code, r, used) => Returned(code, r, used + 1)
        case Asleep(r) => Asleep(r)
  }

  /** The driver between two calls. */
  predicate Resting(w: World) {
    Safe(w) && w.driver.mode == Waiting
  }

  function Begin(w: World, mode: Mode, address: byte, reg: byte, length: byte, data: nat): (r: World)
    requires Resting(w) && w.driver.enabled && mode != Waiting && length > 0 && data + length <= |w.mem|
    ensures Safe(r)
  {
    w.(driver := Driver(mode, reg, false, data, length, true),
       bus := Transmit(w.bus.(address := address, transmit := true, startRequest := true)))
  }

  /** msp430_i2c_write for mode Writing and msp430_i2c_read for mode Reading. */
  function Transfer(w: World, mode: Mode, address: byte, reg: byte, length: byte, data: nat, wakes: seq<Irq>): Outcome
    requires Resting(w) && mode != Waiting && data + length <= |w.mem|
  {
    if !w.driver.enabled then Returned(-1, w, 0)
    else if length == 0 then Returned(0, w, 0)
    else
      var begun := Begin(w, mode, address, reg, length, data);
      Await(begun, begun.clock.timestamp, wakes)
  }

  // ----- Every call ends, and ends in a driver that can be called again -----------------------

  lemma RecoverRests(w: World)
    requires Safe(w) && w.driver.enabled
    ensures Resting(Recover(w)) && Recover(w).driver.enabled
    ensures Recover(w).mem == w.mem && Recover(w).bus.slave == w.bus.slave
    ensures Recover(w).bus.trace
            == w.bus.trace + [Reset(true), Scl(true), Sda(true), Scl(false), Sda(false), Scl(true), Sda(true), Reset(false)]
  {
    var off := Disable(w.(driver := w.driver.(mode := Waiting), bus := w.bus.(stopRequest := true)));
    DelayKeepsPeriod(off.clock);
    DelayKeepsPeriod(Clock.AfterDelay(off.clock, 1));
  }

  lemma {:induction false} AwaitRests(w: World, start: u32, wakes: seq<Irq>)
    requires Safe(w) && w.driver.enabled
    ensures var o := Await(w, start, wakes);
            && o.world.driver.enabled && |o.world.mem| == |w.mem|
            && (if o.Returned? then Resting(o.world) && o.code in {0, -1} && o.used <= |wakes|
                else Safe(o.world) && o.world.driver.mode != Waiting)
    decreases |wakes|
  {
    if w.driver.mode != Waiting && wakes != [] {
      var woken := Interrupt(w, wakes[0]);
      if woken.clock.timestamp >= Add32(start, TIMEOUT_MS) {
        RecoverRests(woken);
      } else {
        AwaitRests(woken, start, wakes[1..]);
      }
    }
  }

  /** However a call made while the driver is enabled returns, success, refusal or timeout, it
      leaves the driver enabled and waiting for the next one; a disabled driver refuses the call
      and is left as it was. */
  lemma EveryReturnRests(w: World, mode: Mode, address: byte, reg: byte, length: byte, data: nat, wakes: seq<Irq>)
    requires Resting(w) && mode != Waiting && data + length <= |w.mem|
    ensures var o := Transfer(w, mode, address, reg, length, data, wakes);
            && (o.Returned? ==> Resting(o.world) && o.world.driver.enabled == w.driver.enabled)
            && (!w.driver.enabled ==> o == Returned(-1, w, 0))
            && (w.driver.enabled && length == 0 ==> o == Returned(0, w, 0))
  {
    if w.driver.enabled && length != 0 {
      var begun := Begin(w, mode, address, reg, length, data);
      AwaitRests(begun, begun.clock.timestamp, wakes);
    }
  }

  /** Enabling makes a driver at rest ready for calls; after disabling every call is refused. */
  lemma EnabledUntilDisabled(w: World, mode: Mode, address: byte, reg: byte, length: byte, data: nat, wakes: seq<Irq>)
    requires Resting(w) && mode != Waiting && data + length <= |w.mem|
    ensures Resting(Enable(w)) && Enable(w).driver.enabled
    ensures Enable(w).mem == w.mem && Enable(w).bus.slave == w.bus.slave && Enable(w).clock == w.clock
    ensures Resting(Disable(w)) && Disable(w).mem == w.mem && Disable(w).bus.slave == w.bus.slave
    ensures Transfer(Disable(w), mode, address, reg, length, data, wakes) == Returned(-1, Disable(w), 0)
  {
  }

  /** The interrupts that a transfer still needs. */
  function Remaining(w: World): nat
    requires Safe(w)
  {
    match w.driver.mode
    case Waiting => 0
    case Writing => (if w.driver.slaveRegWritten then 1 else 2) + w.driver.length
    case Reading =>
      if w.bus.phase == SlaveSends then w.driver.length
      else (if w.driver.slaveRegWritten then 1 else 2) + w.driver.length
  }

  lemma ProtocolMakesProgress(w: World)
    requires Safe(w) && w.driver.mode != Waiting
    ensures Remaining(Interrupt(w, Protocol)) == Remaining(w) - 1
    ensures Interrupt(w, Protocol).clock == w.clock
  {
  }

  /** The ticks that cover the time allowed to a transfer. */
  function DueTicks(period: Clock.Period): nat
  {
    Clock.Cover(period, TIMEOUT_MS)
  }

  /** The timestamp after some ticks, which wrap at most once. */
  function StampAfter(start: u32, period: Clock.Period, ticks: nat): u32
    requires Clock.Span(period, ticks) < TWO_32
  {
    var sum := start + Clock.Span(period, ticks);
    if sum < TWO_32 then sum else sum - TWO_32
  }

  /** No tick can step over the deadline to the end of the 32-bit range: either the deadline has wrapped
      itself, or the last of the due ticks has not. */
  predicate DeadlineIsMet(start: u32, period: Clock.Period)
  {
    start + TIMEOUT_MS >= TWO_32 || start + Clock.Span(period, DueTicks(period)) < TWO_32
  }

  /** With the clock running, in either mode, and interrupts only during sleep, a loop whose every wake-up is a tick or belongs to the
      transfer ends within the ticks left plus the interrupts left. */
  lemma {:induction false} AwaitEnds(w: World, start: u32, wakes: seq<Irq>, ticks: nat)
    requires Safe(w) && w.clock.enabled && DeadlineIsMet(start, w.clock.msPerInterrupt)
    requires ticks < DueTicks(w.clock.msPerInterrupt)
    requires w.clock.timestamp == StampAfter(start, w.clock.msPerInterrupt, ticks)
    requires Ignored !in wakes && |wakes| >= DueTicks(w.clock.msPerInterrupt) - ticks + Remaining(w)
    ensures Await(w, start, wakes).Returned?
    ensures Await(w, start, wakes).used <= DueTicks(w.clock.msPerInterrupt) - ticks + Remaining(w)
    decreases |wakes|
  {
    if w.driver.mode != Waiting {
      var woken := Interrupt(w, wakes[0]);
      WakeMovesOn(w, start, wakes[0], ticks);
      assert forall irq :: irq in wakes[1..] ==> irq in wakes;
      hide Interrupt, Remaining, Safe, StampAfter, DeadlineIsMet;
      if woken.clock.timestamp < Add32(start, TIMEOUT_MS) {
        AwaitEnds(woken, start, wakes[1..], if wakes[0] == Tick then ticks + 1 else ticks);
      }
    }
  }

  lemma WakeMovesOn(w: World, start: u32, irq: Irq, ticks: nat)
    requires Safe(w) && w.clock.enabled && w.driver.mode != Waiting && irq != Ignored
    requires ticks < DueTicks(w.clock.msPerInterrupt)
    requires w.clock.timestamp == StampAfter(start, w.clock.msPerInterrupt, ticks)
    ensures var woken, period := Interrupt(w, irq), w.clock.msPerInterrupt;
            && woken.clock.enabled && woken.clock.msPerInterrupt == period
            && woken.clock.timestamp == StampAfter(start, period, if irq == Tick then ticks + 1 else ticks)
            && (irq == Tick ==> Remaining(woken) == Remaining(w))
            && (irq == Protocol ==> Remaining(woken) < Remaining(w))
            && (irq == Nak ==> Remaining(woken) == 0)
            && (irq == Tick && ticks + 1 == DueTicks(period) && DeadlineIsMet(start, period)
                ==> woken.clock.timestamp >= Add32(start, TIMEOUT_MS))
  {
    if irq == Protocol {
      ProtocolMakesProgress(w);
    } else {
      hide TxInterrupt, RxInterrupt, Transmit, Receive;
    }
  }

  /** Whatever the order of ticks, protocol interrupts and refusals during sleep, a call with the clock
      running ends within 2500 + n + 2 wake-ups in fast mode and 2 + n + 2 in slow mode. */
  lemma TransferEnds(w: World, mode: Mode, address: byte, reg: byte, length: byte, data: nat, wakes: seq<Irq>)
    requires Resting(w) && mode != Waiting && data + length <= |w.mem|
    requires w.clock.enabled && DeadlineIsMet(w.clock.timestamp, w.clock.msPerInterrupt)
    requires Ignored !in wakes && |wakes| >= DueTicks(w.clock.msPerInterrupt) + length + 2
    ensures var o := Transfer(w, mode, address, reg, length, data, wakes);
            o.Returned? && o.used <= DueTicks(w.clock.msPerInterrupt) + length + 2
  {
    if w.driver.enabled && length != 0 {
      var begun := Begin(w, mode, address, reg, length, data);
      AwaitEnds(begun, begun.clock.timestamp, wakes, 0);
    }
  }

  /** That number of wake-ups is enough for every such schedule if and only if no tick can step over the
      deadline. It always is in fast mode; in slow mode a start from 2^32 - 3998 to 2^32 - 2501
      shuts it out. */
  lemma TransferEndsExactly(w: World, mode: Mode, address: byte, reg: byte, length: byte, data: nat)
    requires Resting(w) && mode != Waiting && data + length <= |w.mem| && length != 0
    requires w.driver.enabled && w.clock.enabled
    ensures (forall wakes :: Ignored !in wakes && |wakes| == DueTicks(w.clock.msPerInterrupt) + length + 2
               ==> Transfer(w, mode, address, reg, length, data, wakes).Returned?)
            <==> DeadlineIsMet(w.clock.timestamp, w.clock.msPerInterrupt)
    ensures DeadlineIsMet(w.clock.timestamp, w.clock.msPerInterrupt)
            <==> w.clock.msPerInterrupt == Clock.FAST_MS || !(TWO_32 - 3998 <= w.clock.timestamp < TWO_32 - 2500)
  {
    var period := w.clock.msPerInterrupt;
    if DeadlineIsMet(w.clock.timestamp, period) {
      forall wakes | Ignored !in wakes && |wakes| == DueTicks(period) + length + 2
        ensures Transfer(w, mode, address, reg, length, data, wakes).Returned?
      {
        TransferEnds(w, mode, address, reg, length, data, wakes);
      }
    } else {
      var wakes := seq(DueTicks(period) + length + 2, _ => Tick);
      var begun := Begin(w, mode, address, reg, length, data);
      TicksSleepOn(begun, begun.clock.timestamp, 0, DueTicks(period) + length + 2);
      assert Ignored !in wakes && !Transfer(w, mode, address, reg, length, data, wakes).Returned?;
    }
  }

  /** Ticks that have stepped over the deadline find the timestamp below it again. */
  lemma {:induction false} TicksSleepOn(w: World, start: u32, ticks: nat, n: nat)
    requires Safe(w) && w.driver.mode != Waiting && w.clock.enabled && w.clock.msPerInterrupt == Clock.SLOW_MS
    requires TWO_32 - 3998 <= start < TWO_32 - 2500 && ticks + n <= 300
    requires w.clock.timestamp == StampAfter(start, Clock.SLOW_MS, ticks)
    ensures Await(w, start, seq(n, _ => Tick)).Asleep?
    decreases n
  {
    if n != 0 {
      var wakes := seq(n, _ => Tick);
      assert wakes[0] == Tick && wakes[1..] == seq(n - 1, _ => Tick);
      var woken := Interrupt(w, Tick);
      TicksSleepOn(woken, start, ticks + 1, n - 1);
    }
  }

  // ----- Timeouts -----------------------------------------------------------------------------

  function CountTicks(wakes: seq<Irq>): nat {
    if wakes == [] then 0 else (if wakes[0] == Tick then 1 else 0) + CountTicks(wakes[1..])
  }

  lemma {:induction false} TimeoutTakesItsTime(w: World, start: u32, wakes: seq<Irq>, elapsed: nat)
    requires Safe(w) && start + TIMEOUT_MS < TWO_32
    requires start + elapsed < TWO_32 ==> w.clock.timestamp == start + elapsed
    ensures var o := Await(w, start, wakes);
            o.Returned? && o.code == -1 ==>
              && o.used <= |wakes|
              && elapsed + Clock.Span(w.clock.msPerInterrupt, CountTicks(wakes[..o.used])) >= TIMEOUT_MS
    decreases |wakes|
  {
    if w.driver.mode == Waiting || wakes == [] {
      return;
    }
    var woken := Interrupt(w, wakes[0]);
    var step := if wakes[0] == Tick && w.clock.enabled then w.clock.msPerInterrupt else 0;
    WakeTakesItsTime(w, start, wakes[0], elapsed, step);
    var o := Await(w, start, wakes);
    hide Interrupt, Safe;
    if woken.clock.timestamp < start + TIMEOUT_MS {
      TimeoutTakesItsTime(woken, start, wakes[1..], elapsed + step);
    }
    if o.Returned? && o.code == -1 {
      CountFirstTick(wakes, o.used);
    }
  }

  lemma WakeTakesItsTime(w: World, start: u32, irq: Irq, elapsed: nat, step: nat)
    requires Safe(w) && start + TIMEOUT_MS < TWO_32
    requires start + elapsed < TWO_32 ==> w.clock.timestamp == start + elapsed
    requires step == if irq == Tick && w.clock.enabled then w.clock.msPerInterrupt else 0
    ensures var woken := Interrupt(w, irq);
            && woken.clock.msPerInterrupt == w.clock.msPerInterrupt
            && (start + elapsed + step < TWO_32 ==> woken.clock.timestamp == start + elapsed + step)
            && (woken.clock.timestamp >= start + TIMEOUT_MS ==> elapsed + step >= TIMEOUT_MS)
  {
  }

  lemma CountFirstTick(wakes: seq<Irq>, n: nat)
    requires 1 <= n <= |wakes|
    ensures CountTicks(wakes[..n]) == (if wakes[0] == Tick then 1 else 0) + CountTicks(wakes[1..][..n - 1])
  {
    assert wakes[..n][1..] == wakes[1..][..n - 1];
  }

  predicate TimesOutEarly(o: Outcome, period: Clock.Period, wakes: seq<Irq>)
  {
    o.Returned? && o.code == -1
    && o.used <= |wakes| && Clock.Span(period, CountTicks(wakes[..o.used])) < TIMEOUT_MS
  }

  /** A transfer that starts now can return -1 before 2500 ms have passed, whatever wakes it, if and
      only if its deadline does not fit in 32 bits. */
  lemma EarlyTimeoutExactlyWhenDeadlineWraps(w: World, mode: Mode, address: byte, reg: byte, length: byte, data: nat)
    requires Resting(w) && mode != Waiting && data + length <= |w.mem| && length != 0 && w.driver.enabled
    ensures (exists wakes ::
               TimesOutEarly(Transfer(w, mode, address, reg, length, data, wakes), w.clock.msPerInterrupt, wakes))
            <==> w.clock.timestamp + TIMEOUT_MS >= TWO_32
  {
    var begun := Begin(w, mode, address, reg, length, data);
    var start := begun.clock.timestamp;
    if start + TIMEOUT_MS >= TWO_32 {
      var wakes := [Ignored];
      assert Interrupt(begun, Ignored) == begun;
      assert wakes[..1] == wakes && CountTicks(wakes[1..]) == 0;
      assert TimesOutEarly(Transfer(w, mode, address, reg, length, data, wakes), w.clock.msPerInterrupt, wakes);
    } else {
      forall wakes | TimesOutEarly(Transfer(w, mode, address, reg, length, data, wakes), w.clock.msPerInterrupt, wakes)
        ensures false
      {
        TimeoutTakesItsTime(begun, start, wakes, 0);
      }
    }
  }
}
