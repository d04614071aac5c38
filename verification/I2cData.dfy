/**
 * What an acknowledged transfer moves: the driver's state after every protocol interrupt in closed
 * form, and from it the bus trace, the slave's registers and the caller's buffer, for any
 * interleaving with clock ticks.
 */
module I2cData {
  import opened Words
  import opened I2c
  import Clock

  /** The i-th register from reg on, for the slave's auto-incrementing 8-bit pointer. */
  function Nth(reg: byte, i: nat): byte
    requires i <= 256
  {
    if reg + i < 256 then reg + i else reg + i - 256
  }

  /** Registers after data has been stored from reg on. */
  function Stored(regs: seq<byte>, reg: byte, data: seq<byte>): (r: seq<byte>)
    requires |regs| == 256 && |data| <= 256
    ensures |r| == 256
  {
    if data == [] then regs
    else
      var n := |data| - 1;
      Stored(regs, reg, data[..n])[Nth(reg, n) as int := data[n]]
  }

  /** Up to 256 bytes land in different registers, each where it belongs, and nothing else changes. */
  lemma {:induction false} StoredAt(regs: seq<byte>, reg: byte, data: seq<byte>, j: byte)
    requires |regs| == 256 && |data| <= 256
    ensures var i := if reg <= j then j - reg else j + 256 - reg;
            && Nth(reg, i) == j
            && Stored(regs, reg, data)[j as int] == if i < |data| then data[i] else regs[j as int]
  {
    if data != [] {
      StoredAt(regs, reg, data[..|data| - 1], j);
    }
  }

  lemma StoredOneMore(regs: seq<byte>, reg: byte, data: seq<byte>, v: byte)
    requires |regs| == 256 && |data| < 256
    ensures Stored(regs, reg, data + [v]) == Stored(regs, reg, data)[Nth(reg, |data|) as int := v]
  {
    assert (data + [v])[..|data|] == data;
  }

  function Fetched(regs: seq<byte>, reg: byte, n: nat): seq<byte>
    requires |regs| == 256 && n <= 256
  {
    seq(n, i requires 0 <= i < n => regs[Nth(reg, i) as int])
  }

  lemma FetchingStored(regs: seq<byte>, reg: byte, data: seq<byte>)
    requires |regs| == 256 && |data| <= 256
    ensures Fetched(Stored(regs, reg, data), reg, |data|) == data
  {
    forall i | 0 <= i < |data|
      ensures Fetched(Stored(regs, reg, data), reg, |data|)[i] == data[i]
    {
      StoredAt(regs, reg, data, Nth(reg, i));
    }
  }

  lemma StoringFetched(regs: seq<byte>, reg: byte, n: nat)
    requires |regs| == 256 && n <= 256
    ensures Stored(regs, reg, Fetched(regs, reg, n)) == regs
  {
    forall j | 0 <= j < 256
      ensures Stored(regs, reg, Fetched(regs, reg, n))[j] == regs[j]
    {
      StoredAt(regs, reg, Fetched(regs, reg, n), j);
    }
  }

  function SentAll(data: seq<byte>): seq<BusEvent> {
    seq(|data|, i requires 0 <= i < |data| => Sent(data[i]))
  }

  /** Received bytes are acknowledged except the last of the n asked for. */
  function ReceivedAll(data: seq<byte>, n: nat): seq<BusEvent> {
    seq(|data|, i requires 0 <= i < |data| => Received(data[i], i + 1 != n))
  }

  /** A world in which a transfer of n bytes has just been started. */
  predicate Begun(b: World) {
    && Safe(b) && b.driver.mode != Waiting && 1 <= b.driver.length <= 255
    && !b.driver.slaveRegWritten && b.bus.phase == MasterSends && b.bus.slave.selecting
  }

  function Steps(b: World): nat {
    b.driver.length + 2
  }

  /** The first bytes of the caller's buffer. */
  function Prefix(b: World, n: nat): (data: seq<byte>)
    requires b.driver.data + n <= |b.mem|
    ensures |data| == n
  {
    b.mem[b.driver.data..b.driver.data + n]
  }

  /** A write after k interrupts: the register, then a growing prefix of the data, then STOP. */
  function WriteAt(b: World, k: nat): World
    requires Begun(b) && b.driver.mode == Writing && k <= Steps(b)
  {
    if k == 0 then b
    else
      var d, n := b.driver, b.driver.length;
      var sent := if k <= n + 1 then k - 1 else n;
      var data := Prefix(b, sent);
      b.(driver := d.(mode := if k == n + 2 then Waiting else Writing, slaveRegWritten := true,
                      data := d.data + sent, length := n - sent),
         bus := b.bus.(phase := if k == n + 2 then Idle else MasterSends,
                       slave := Slave(Stored(b.bus.slave.regs, d.slaveReg, data), Nth(d.slaveReg, sent), false),
                       trace := b.bus.trace + [Sent(d.slaveReg)] + SentAll(data) + (if k == n + 2 then [Stop] else [])))
  }

  /** A read after k interrupts: the register, a repeated START, then the buffer fills byte by byte;
      STOP is requested exactly while one byte is missing. */
  function ReadAt(b: World, k: nat): World
    requires Begun(b) && b.driver.mode == Reading && k <= Steps(b)
  {
    var d, n := b.driver, b.driver.length;
    var selected := b.bus.slave.(pointer := d.slaveReg, selecting := false);
    if k == 0 then b
    else if k == 1 then
      b.(driver := d.(slaveRegWritten := true),
         bus := b.bus.(slave := selected, trace := b.bus.trace + [Sent(d.slaveReg)]))
    else
      var got := k - 2;
      var values := Fetched(b.bus.slave.regs, d.slaveReg, got);
      b.(driver := d.(mode := if got == n then Waiting else Reading, slaveRegWritten := true,
                      data := d.data + got, length := n - got),
         mem := b.mem[..d.data] + values + b.mem[d.data + got..],
         bus := b.bus.(phase := if got == n then Idle else SlaveSends,
                       transmit := false,
                       stopRequest := n - got == 1,
                       rxbuf := if got == 0 then b.bus.rxbuf else values[got - 1],
                       slave := selected.(pointer := Nth(d.slaveReg, got)),
                       trace := b.bus.trace + [Sent(d.slaveReg), Start(b.bus.address, true)]
                                + ReceivedAll(values, n) + (if got == n then [Stop] else [])))
  }

  function At(b: World, k: nat): World
    requires Begun(b) && k <= Steps(b)
  {
    if b.driver.mode == Writing then WriteAt(b, k) else ReadAt(b, k)
  }

  lemma WriteStep(b: World, k: nat)
    requires Begun(b) && b.driver.mode == Writing && k < Steps(b)
    ensures Safe(WriteAt(b, k)) && Interrupt(WriteAt(b, k), Protocol) == WriteAt(b, k + 1)
  {
    if k == 0 {
      RegisterGoesOut(b);
      assert Prefix(b, 0) == [];
      assert b.bus.trace + [Sent(b.driver.slaveReg)] == WriteAt(b, 1).bus.trace;
    } else if k <= b.driver.length {
      WriteIsSafe(b, k);
      hide Interrupt, Safe, WriteAt;
      WriteByteStep(b, k);
    } else {
      assert Interrupt(WriteAt(b, k), Protocol).bus.trace == WriteAt(b, k + 1).bus.trace;
    }
  }

  lemma RegisterGoesOut(w: World)
    requires Begun(w)
    ensures var d := w.driver;
            Interrupt(w, Protocol)
            == w.(driver := d.(slaveRegWritten := true),
                  bus := w.bus.(slave := w.bus.slave.(pointer := d.slaveReg, selecting := false),
                                trace := w.bus.trace + [Sent(d.slaveReg)]))
  {
  }

  lemma WriteIsSafe(b: World, k: nat)
    requires Begun(b) && b.driver.mode == Writing && k < Steps(b)
    ensures Safe(WriteAt(b, k)) && WriteAt(b, k).driver.mode == Writing
  {
  }

  lemma WriteByteStep(b: World, k: nat)
    requires Begun(b) && b.driver.mode == Writing && 1 <= k <= b.driver.length
    requires Safe(WriteAt(b, k))
    ensures Interrupt(WriteAt(b, k), Protocol) == WriteAt(b, k + 1)
  {
    var d, w := b.driver, WriteAt(b, k);
    var data, v := Prefix(b, k - 1), b.mem[d.data + k - 1];
    WriteShape(b, k);
    WriteShape(b, k + 1);
    ByteGoesOut(w);
    AcceptData(w.bus.slave, v);
    hide Interrupt, Stored, Accept, SentAll, Prefix, Safe, WriteAt, Begun;
    PrefixOneMore(b, k - 1);
    StoredOneMore(b.bus.slave.regs, d.slaveReg, data, v);
    SentOneMore(data, v);
    Append(b.bus.trace + [Sent(d.slaveReg)], SentAll(data), Sent(v));
  }

  lemma Append(first: seq<BusEvent>, rest: seq<BusEvent>, e: BusEvent)
    ensures (first + rest) + [e] == first + (rest + [e])
  {
  }

  /** A write after its register has been sent and before its STOP. */
  lemma WriteShape(b: World, k: nat)
    requires Begun(b) && b.driver.mode == Writing && 1 <= k <= b.driver.length + 1
    ensures var d, data := b.driver, Prefix(b, k - 1);
            WriteAt(b, k)
            == b.(driver := d.(slaveRegWritten := true, data := d.data + (k - 1), length := d.length - (k - 1)),
                  bus := b.bus.(slave := Slave(Stored(b.bus.slave.regs, d.slaveReg, data), Nth(d.slaveReg, k - 1), false),
                                trace := b.bus.trace + [Sent(d.slaveReg)] + SentAll(data)))
  {
    var trace := b.bus.trace + [Sent(b.driver.slaveReg)] + SentAll(Prefix(b, k - 1));
    hide Stored, SentAll, Prefix;
    assert trace + [] == trace;
  }

  lemma PrefixOneMore(b: World, n: nat)
    requires b.driver.data + n < |b.mem|
    ensures Prefix(b, n + 1) == Prefix(b, n) + [b.mem[b.driver.data + n]]
  {
  }

  lemma SentOneMore(data: seq<byte>, v: byte)
    ensures SentAll(data + [v]) == SentAll(data) + [Sent(v)]
  {
  }

  lemma ByteGoesOut(w: World)
    requires Safe(w) && w.driver.mode == Writing && w.driver.slaveRegWritten && w.driver.length != 0
    ensures var d, v := w.driver, w.mem[w.driver.data];
            Interrupt(w, Protocol)
            == w.(driver := d.(data := d.data + 1, length := d.length - 1),
                  bus := w.bus.(slave := Accept(w.bus.slave, v), trace := w.bus.trace + [Sent(v)]))
  {
  }

  lemma AcceptData(slave: Slave, v: byte)
    requires |slave.regs| == 256 && !slave.selecting
    ensures Accept(slave, v) == Slave(slave.regs[slave.pointer as int := v], Next(slave.pointer), false)
  {
  }

  lemma ReadStep(b: World, k: nat)
    requires Begun(b) && b.driver.mode == Reading && k < Steps(b)
    ensures Safe(ReadAt(b, k)) && Interrupt(ReadAt(b, k), Protocol) == ReadAt(b, k + 1)
  {
    hide Interrupt, ReadAt, Safe;
    ReadIsSafe(b, k);
    if k == 0 {
      SelectStep(b);
    } else if k == 1 {
      RestartStep(b);
    } else {
      ReadByteStep(b, k - 2);
    }
  }

  lemma ReadIsSafe(b: World, k: nat)
    requires Begun(b) && b.driver.mode == Reading && k < Steps(b)
    ensures Safe(ReadAt(b, k)) && ReadAt(b, k).driver.mode == Reading
    ensures k >= 2 ==> ReadAt(b, k).bus.phase == SlaveSends
  {
  }

  lemma SelectStep(b: World)
    requires Begun(b) && b.driver.mode == Reading && Safe(ReadAt(b, 0))
    ensures Interrupt(ReadAt(b, 0), Protocol) == ReadAt(b, 1)
  {
    RegisterGoesOut(b);
  }

  lemma RestartStep(b: World)
    requires Begun(b) && b.driver.mode == Reading && Safe(ReadAt(b, 1))
    ensures Interrupt(ReadAt(b, 1), Protocol) == ReadAt(b, 2)
  {
    var d, w, w' := b.driver, ReadAt(b, 1), ReadAt(b, 2);
    ReadRestarts(w);
    hide Interrupt;
    assert b.mem[..d.data] + Fetched(b.bus.slave.regs, d.slaveReg, 0) + b.mem[d.data..] == b.mem;
    assert w.bus.trace + [Start(b.bus.address, true)] == w'.bus.trace;
  }

  lemma ReadRestarts(w: World)
    requires Safe(w) && w.driver.mode == Reading && w.bus.phase == MasterSends && w.driver.slaveRegWritten
    ensures var b := w.bus;
            Interrupt(w, Protocol)
            == w.(bus := b.(phase := SlaveSends, transmit := false, stopRequest := w.driver.length == 1,
                            slave := b.slave.(selecting := false), trace := b.trace + [Start(b.address, true)]))
  {
  }

  lemma ReadByteStep(b: World, got: nat)
    requires Begun(b) && b.driver.mode == Reading && got < b.driver.length
    requires Safe(ReadAt(b, got + 2)) && ReadAt(b, got + 2).bus.phase == SlaveSends
    ensures Interrupt(ReadAt(b, got + 2), Protocol) == ReadAt(b, got + 3)
  {
    var d, n, regs := b.driver, b.driver.length, b.bus.slave.regs;
    var w, w' := ReadAt(b, got + 2), ReadAt(b, got + 3);
    ByteComesIn(w);
    hide Interrupt, Safe, Fetched, ReceivedAll;
    var v := regs[Nth(d.slaveReg, got) as int];
    FetchedOneMore(regs, d.slaveReg, got, n);
    var values, values' := Fetched(regs, d.slaveReg, got), Fetched(regs, d.slaveReg, got + 1);
    assert w.bus.trace + [Received(v, got + 1 != n)] + (if got + 1 == n then [Stop] else []) == w'.bus.trace;
    assert w.mem[d.data + got := v] == w'.mem;
  }

  lemma FetchedOneMore(regs: seq<byte>, reg: byte, got: nat, n: nat)
    requires |regs| == 256 && got < 256
    ensures var v, values := regs[Nth(reg, got) as int], Fetched(regs, reg, got);
            && |values| == got && Fetched(regs, reg, got + 1) == values + [v]
            && ReceivedAll(values + [v], n) == ReceivedAll(values, n) + [Received(v, got + 1 != n)]
  {
  }

  lemma ByteComesIn(w: World)
    requires Safe(w) && w.driver.mode == Reading && w.bus.phase == SlaveSends
    ensures var d, b, v := w.driver, w.bus, w.bus.slave.regs[w.bus.slave.pointer as int];
            var last := d.length == 1;
            Interrupt(w, Protocol)
            == w.(driver := d.(mode := if last then Waiting else Reading, data := d.data + 1, length := d.length - 1),
                  mem := w.mem[d.data := v],
                  bus := b.(phase := if last then Idle else SlaveSends,
                            stopRequest := d.length == 2,
                            rxbuf := v,
                            slave := b.slave.(pointer := Next(b.slave.pointer)),
                            trace := b.trace + [Received(v, !last)] + (if last then [Stop] else [])))
  {
  }

  /** An acknowledged transfer of n bytes is over after exactly n+2 protocol interrupts. */
  lemma TransferStep(b: World, k: nat)
    requires Begun(b) && k < Steps(b)
    ensures Safe(At(b, k)) && At(b, k).driver.mode != Waiting
    ensures Interrupt(At(b, k), Protocol) == At(b, k + 1)
    ensures At(b, Steps(b)).driver.mode == Waiting
  {
    if b.driver.mode == Writing {
      WriteStep(b, k);
    } else {
      ReadStep(b, k);
    }
  }

  lemma TransferIsSafe(b: World, k: nat)
    requires Begun(b) && k <= Steps(b)
    ensures Safe(At(b, k))
  {
    if k < Steps(b) {
      TransferStep(b, k);
    } else {
      TransferStep(b, k - 1);
    }
  }

  // ----- Through the wait loop ----------------------------------------------------------------

  predicate Finished(b: World, r: World)
    requires Begun(b)
  {
    r == At(b, Steps(b)).(clock := r.clock)
  }

  predicate EndsRefused(r: World) {
    var n := |r.bus.trace|;
    n >= 2 && r.bus.trace[n - 2] == Refused && r.bus.trace[n - 1] == Stop
  }

  function CountProtocol(wakes: seq<Irq>): nat {
    if wakes == [] then 0 else (if wakes[0] == Protocol then 1 else 0) + CountProtocol(wakes[1..])
  }

  lemma ClockIsIndependent(w: World, c: Clock.ClockState, irq: Irq)
    requires Safe(w) && Clock.ValidPeriod(c) && irq != Tick
    ensures Interrupt(w.(clock := c), irq) == Interrupt(w, irq).(clock := c)
  {
  }

  lemma TickIsIndependent(w: World)
    requires Safe(w)
    ensures Interrupt(w, Tick) == w.(clock := Interrupt(w, Tick).clock)
    ensures Clock.ValidPeriod(Interrupt(w, Tick).clock) && Interrupt(w, Ignored) == w
  {
  }

  lemma NakRefuses(w: World)
    requires Safe(w) && w.driver.mode != Waiting
    ensures Interrupt(w, Nak).driver.mode == Waiting && EndsRefused(Interrupt(w, Nak))
  {
  }

  lemma FinishedIsNotRefused(b: World)
    requires Begun(b)
    ensures !EndsRefused(At(b, Steps(b)))
  {
    var n := b.driver.length;
    if b.driver.mode == Writing {
      var data := b.mem[b.driver.data..b.driver.data + n];
      assert SentAll(data)[n - 1] == Sent(data[n - 1]);
    } else {
      var values := Fetched(b.bus.slave.regs, b.driver.slaveReg, n);
      assert ReceivedAll(values, n)[n - 1] == Received(values[n - 1], false);
    }
  }

  /** A success return of a transfer that had k interrupts behind it means that it finished, or that
      the slave refused it, and a refusal among the wake-ups tells which. */
  predicate Follows(b: World, k: nat, o: Outcome, wakes: seq<Irq>)
    requires Begun(b)
  {
    o.Returned? && o.code == 0 ==>
      && o.used <= |wakes|
      && (Nak !in wakes[..o.used] ==> Finished(b, o.world) && CountProtocol(wakes[..o.used]) == Steps(b) - k)
      && (Nak in wakes[..o.used] ==> EndsRefused(o.world))
  }

  lemma AwaitUnfolds(w: World, start: u32, wakes: seq<Irq>)
    requires Safe(w) && w.driver.mode != Waiting && wakes != []
    ensures var woken := Interrupt(w, wakes[0]);
            var o, o' := Await(w, start, wakes), Await(woken, start, wakes[1..]);
            o.Returned? && o.code == 0 ==>
              o'.Returned? && o'.code == 0 && o'.world == o.world && o'.used + 1 == o.used <= |wakes|
  {
    if Interrupt(w, wakes[0]).clock.timestamp < Add32(start, TIMEOUT_MS) {
      AwaitRests(Interrupt(w, wakes[0]), start, wakes[1..]);
    }
  }

  lemma FollowsLater(b: World, k: nat, o: Outcome, o': Outcome, wakes: seq<Irq>)
    requires Begun(b) && wakes != [] && wakes[0] != Nak
    requires o.Returned? && o.code == 0 ==> o'.Returned? && o'.code == 0 && o'.world == o.world && o'.used + 1 == o.used <= |wakes|
    requires Follows(b, if wakes[0] == Protocol then k + 1 else k, o', wakes[1..])
    ensures Follows(b, k, o, wakes)
  {
    if o.Returned? && o.code == 0 {
      FirstWake(wakes, o.used);
    }
  }

  lemma {:induction false} AwaitFollowsTransfer(b: World, k: nat, c: Clock.ClockState, start: u32, wakes: seq<Irq>)
    requires Begun(b) && k <= Steps(b) && Clock.ValidPeriod(c)
    ensures Safe(At(b, k).(clock := c))
    ensures Follows(b, k, Await(At(b, k).(clock := c), start, wakes), wakes)
    decreases |wakes|
  {
    hide At, Interrupt, EndsRefused, Await, Follows, Safe, Begun;
    ClockKeepsSafe(b, k, c);
    var w := At(b, k).(clock := c);
    if k == Steps(b) || wakes == [] {
      NoMoreFollows(b, k, c, start, wakes);
      return;
    }
    TransferStep(b, k);
    if wakes[0] == Nak {
      RefusalFollows(b, k, w, start, wakes);
    } else {
      var k', c' := OneWake(b, k, c, wakes[0]);
      AwaitFollowsTransfer(b, k', c', start, wakes[1..]);
      AwaitUnfolds(w, start, wakes);
      FollowsLater(b, k, Await(w, start, wakes), Await(Interrupt(w, wakes[0]), start, wakes[1..]), wakes);
    }
  }

  /** One wake-up of a transfer: its own interrupts move it on until it is over. */
  lemma OneWake(b: World, k: nat, c: Clock.ClockState, irq: Irq) returns (k': nat, c': Clock.ClockState)
    requires Begun(b) && k <= Steps(b) && Clock.ValidPeriod(c) && irq != Nak
    ensures k' == if irq == Protocol && k < Steps(b) then k + 1 else k
    ensures Clock.ValidPeriod(c') && Safe(At(b, k).(clock := c))
    ensures Interrupt(At(b, k).(clock := c), irq) == At(b, k').(clock := c')
  {
    hide At, Interrupt, Safe, Begun;
    ClockKeepsSafe(b, k, c);
    TransferIsSafe(b, k);
    var w := At(b, k).(clock := c);
    k', c' := k, c;
    match irq {
      case Tick =>
        TickIsIndependent(w);
        c' := Interrupt(w, Tick).clock;
      case Ignored =>
        TickIsIndependent(w);
      case Protocol =>
        if k < Steps(b) {
          TransferStep(b, k);
          ClockIsIndependent(At(b, k), c, Protocol);
          k' := k + 1;
        } else {
          TransferStep(b, k - 1);
          LateInterruptIsIdle(w);
        }
    }
  }

  lemma ClockKeepsSafe(b: World, k: nat, c: Clock.ClockState)
    requires Begun(b) && k <= Steps(b) && Clock.ValidPeriod(c)
    ensures Safe(At(b, k).(clock := c))
  {
    TransferIsSafe(b, k);
  }

  lemma NoMoreFollows(b: World, k: nat, c: Clock.ClockState, start: u32, wakes: seq<Irq>)
    requires Begun(b) && k <= Steps(b) && Clock.ValidPeriod(c) && (k == Steps(b) || wakes == [])
    ensures Safe(At(b, k).(clock := c))
    ensures Follows(b, k, Await(At(b, k).(clock := c), start, wakes), wakes)
  {
    ClockKeepsSafe(b, k, c);
    TransferStep(b, if k == Steps(b) then k - 1 else k);
  }

  lemma RefusalFollows(b: World, k: nat, w: World, start: u32, wakes: seq<Irq>)
    requires Begun(b) && Safe(w) && w.driver.mode != Waiting && wakes != [] && wakes[0] == Nak
    ensures Follows(b, k, Await(w, start, wakes), wakes)
  {
    NakRefuses(w);
    assert Nak in wakes[..1];
  }

  lemma FirstWake(wakes: seq<Irq>, n: nat)
    requires 1 <= n <= |wakes|
    ensures Nak in wakes[..n] <==> wakes[0] == Nak || Nak in wakes[1..][..n - 1]
    ensures CountProtocol(wakes[..n]) == (if wakes[0] == Protocol then 1 else 0) + CountProtocol(wakes[1..][..n - 1])
  {
    assert wakes[..n] == [wakes[0]] + wakes[1..][..n - 1];
  }

  function Interrupts(w: World, wakes: seq<Irq>): World
    requires Safe(w)
    decreases |wakes|
  {
    if wakes == [] then w else Interrupts(Interrupt(w, wakes[0]), wakes[1..])
  }

  /** At every moment of an acknowledged transfer, however ticks and ignored interrupts fall between
      its own, driver, bus and buffer are where the number of protocol interrupts says; those that
      come after the last one change nothing. */
  lemma {:induction false} AnyInterleavingFollowsTransfer(b: World, k: nat, c: Clock.ClockState, wakes: seq<Irq>)
    requires Begun(b) && k <= Steps(b) && Clock.ValidPeriod(c) && Nak !in wakes
    ensures Safe(At(b, k).(clock := c))
    ensures var r, m := Interrupts(At(b, k).(clock := c), wakes), k + CountProtocol(wakes);
            r == At(b, if m <= Steps(b) then m else Steps(b)).(clock := r.clock)
    decreases |wakes|
  {
    hide At, Safe, Begun, Interrupt;
    ClockKeepsSafe(b, k, c);
    if wakes != [] {
      var k', c' := OneWake(b, k, c, wakes[0]);
      AnyInterleavingFollowsTransfer(b, k', c', wakes[1..]);
    }
  }

  lemma LateInterruptIsIdle(w: World)
    requires Safe(w) && w.driver.mode == Waiting
    ensures Interrupt(w, Protocol) == w
  {
  }

  // ----- Whole calls --------------------------------------------------------------------------

  lemma BeginIsBegun(w: World, mode: Mode, address: byte, reg: byte, length: byte, data: nat)
    requires Resting(w) && w.driver.enabled && mode != Waiting && length > 0 && data + length <= |w.mem|
    ensures Begun(Begin(w, mode, address, reg, length, data))
  {
  }

  /** A call that returns 0 has moved all its bytes if and only if no byte was refused: a refusal ends
      the transfer, but the call still reports success. */
  lemma SuccessMeansDoneUnlessRefused(w: World, mode: Mode, address: byte, reg: byte, length: byte, data: nat, wakes: seq<Irq>)
    requires Resting(w) && w.driver.enabled && mode != Waiting && length > 0 && data + length <= |w.mem|
    ensures var b := Begin(w, mode, address, reg, length, data);
            var o := Transfer(w, mode, address, reg, length, data, wakes);
            Begun(b) && (o.Returned? && o.code == 0 ==>
              o.used <= |wakes| && (Finished(b, o.world) <==> Nak !in wakes[..o.used]))
  {
    var b := Begin(w, mode, address, reg, length, data);
    BeginIsBegun(w, mode, address, reg, length, data);
    AwaitFollowsTransfer(b, 0, b.clock, b.clock.timestamp, wakes);
    FinishedIsNotRefused(b);
  }

  /** The call returned 0 and nothing was refused on the way. */
  predicate Acknowledged(o: Outcome, wakes: seq<Irq>) {
    o.Returned? && o.code == 0 && o.used <= |wakes| && Nak !in wakes[..o.used]
  }

  /** Wake-ups that bring all interrupts of a transfer of n bytes, and no refusal, within its time. */
  predicate Served(clock: Clock.ClockState, n: nat, head: seq<Irq>)
    requires Clock.ValidPeriod(clock)
  {
    && Nak !in head && CountProtocol(head) >= n + 2
    && (clock.enabled ==> Clock.Span(clock.msPerInterrupt, CountTicks(head)) < TIMEOUT_MS)
  }

  /** The ticks of some wake-ups that count, those of a running clock. */
  function Elapsing(clock: Clock.ClockState, wakes: seq<Irq>): nat {
    if clock.enabled then CountTicks(wakes) else 0
  }

  lemma {:induction false} ServedAwaitSucceeds(b: World, k: nat, c: Clock.ClockState, start: u32, wakes: seq<Irq>,
                                               m: nat, elapsed: nat)
    requires Begun(b) && k <= Steps(b) && Clock.ValidPeriod(c) && m <= |wakes|
    requires start + TIMEOUT_MS < TWO_32 && c.timestamp == start + elapsed
    requires elapsed + Clock.Span(c.msPerInterrupt, Elapsing(c, wakes[..m])) < TIMEOUT_MS
    requires Nak !in wakes[..m] && CountProtocol(wakes[..m]) >= Steps(b) - k
    ensures Safe(At(b, k).(clock := c))
    ensures var o := Await(At(b, k).(clock := c), start, wakes);
            o.Returned? && o.code == 0 && o.used <= m
    decreases m
  {
    hide At, Interrupt, Safe, Begun;
    ClockKeepsSafe(b, k, c);
    TransferIsSafe(b, k);
    TransferStep(b, if k == Steps(b) then k - 1 else k);
    if k < Steps(b) {
      var w := At(b, k).(clock := c);
      var k', c' := OneWake(b, k, c, wakes[0]);
      var step := if wakes[0] == Tick && c.enabled then c.msPerInterrupt else 0;
      FirstWake(wakes, m);
      CountFirstTick(wakes, m);
      WakeTakesItsTime(w, start, wakes[0], elapsed, step);
      ClockRunsOn(w, wakes[0]);
      ServedAwaitSucceeds(b, k', c', start, wakes[1..], m - 1, elapsed + step);
    }
  }

  lemma ClockRunsOn(w: World, irq: Irq)
    requires Safe(w)
    ensures Interrupt(w, irq).clock.enabled == w.clock.enabled
    ensures Interrupt(w, irq).clock.msPerInterrupt == w.clock.msPerInterrupt
  {
  }

  lemma {:induction false} SuccessInTime(w: World, start: u32, wakes: seq<Irq>, ticks: nat)
    requires Safe(w) && w.clock.enabled && start + TIMEOUT_MS < TWO_32 && DeadlineIsMet(start, w.clock.msPerInterrupt)
    requires ticks < DueTicks(w.clock.msPerInterrupt)
    requires w.clock.timestamp == StampAfter(start, w.clock.msPerInterrupt, ticks)
    ensures var o := Await(w, start, wakes);
            o.Returned? && o.code == 0 ==>
              o.used <= |wakes| && ticks + CountTicks(wakes[..o.used]) < DueTicks(w.clock.msPerInterrupt)
    decreases |wakes|
  {
    if w.driver.mode != Waiting && wakes != [] {
      var woken := Interrupt(w, wakes[0]);
      if wakes[0] != Ignored {
        WakeMovesOn(w, start, wakes[0], ticks);
      }
      hide Interrupt, Safe, StampAfter, DeadlineIsMet, Remaining;
      var o := Await(w, start, wakes);
      if o.Returned? && o.code == 0 {
        SuccessInTime(woken, start, wakes[1..], if wakes[0] == Tick then ticks + 1 else ticks);
        CountFirstTick(wakes, o.used);
      }
    }
  }

  /** With interrupts only during sleep, and unless a tick can step over its deadline, a call is
      acknowledged if and only if some first part of its wake-ups brings all n+2 interrupts, no refusal, and less than 2500 ms. */
  lemma AcknowledgedExactly(w: World, mode: Mode, address: byte, reg: byte, length: byte, data: nat, wakes: seq<Irq>)
    requires Resting(w) && w.driver.enabled && mode != Waiting && length > 0 && data + length <= |w.mem|
    requires w.clock.timestamp + TIMEOUT_MS < TWO_32
    ensures (exists m: nat :: m <= |wakes| && Served(w.clock, length, wakes[..m]))
            ==> Acknowledged(Transfer(w, mode, address, reg, length, data, wakes), wakes)
    ensures DeadlineIsMet(w.clock.timestamp, w.clock.msPerInterrupt) ==>
              (Acknowledged(Transfer(w, mode, address, reg, length, data, wakes), wakes)
               ==> exists m: nat :: m <= |wakes| && Served(w.clock, length, wakes[..m]))
  {
    var b := Begin(w, mode, address, reg, length, data);
    var o := Transfer(w, mode, address, reg, length, data, wakes);
    BeginIsBegun(w, mode, address, reg, length, data);
    assert o == Await(b, b.clock.timestamp, wakes);
    if m: nat :| m <= |wakes| && Served(w.clock, length, wakes[..m]) {
      ServedAwaitSucceeds(b, 0, b.clock, b.clock.timestamp, wakes, m, 0);
      assert forall irq :: irq in wakes[..o.used] ==> irq in wakes[..m];
    }
    if DeadlineIsMet(w.clock.timestamp, w.clock.msPerInterrupt) && Acknowledged(o, wakes) {
      AwaitFollowsTransfer(b, 0, b.clock, b.clock.timestamp, wakes);
      if w.clock.enabled {
        SuccessInTime(b, b.clock.timestamp, wakes, 0);
      }
      hide Await, Begun;
      assert Served(w.clock, length, wakes[..o.used]);
    }
  }

  /** An acknowledged write: exactly these bytes in this order on the bus, and exactly these
      registers changed in the slave. */
  lemma WriteStoresData(w: World, address: byte, reg: byte, length: byte, data: nat, wakes: seq<Irq>)
    requires Resting(w) && w.driver.enabled && length > 0 && data + length <= |w.mem|
    requires Acknowledged(Transfer(w, Writing, address, reg, length, data, wakes), wakes)
    ensures var r, bytes := Transfer(w, Writing, address, reg, length, data, wakes).world, w.mem[data..data + length];
            && Resting(r) && r.driver.enabled && r.mem == w.mem
            && r.bus.trace == w.bus.trace + [Start(address, false), Sent(reg)] + SentAll(bytes) + [Stop]
            && r.bus.slave.regs == Stored(w.bus.slave.regs, reg, bytes)
  {
    hide Transfer, Stored, SentAll;
    var b := Begin(w, Writing, address, reg, length, data);
    SuccessMeansDoneUnlessRefused(w, Writing, address, reg, length, data, wakes);
    EveryReturnRests(w, Writing, address, reg, length, data, wakes);
    assert b.bus.trace + [Sent(reg)] == w.bus.trace + [Start(address, false), Sent(reg)];
  }

  /** An acknowledged read: one repeated START, every byte acknowledged but the last, one STOP; the
      buffer holds the slave's registers, and neither other memory nor the slave has changed. */
  lemma ReadFetchesData(w: World, address: byte, reg: byte, length: byte, data: nat, wakes: seq<Irq>)
    requires Resting(w) && w.driver.enabled && length > 0 && data + length <= |w.mem|
    requires Acknowledged(Transfer(w, Reading, address, reg, length, data, wakes), wakes)
    ensures var r, values := Transfer(w, Reading, address, reg, length, data, wakes).world,
                             Fetched(w.bus.slave.regs, reg, length);
            && Resting(r) && r.driver.enabled
            && r.mem == w.mem[..data] + values + w.mem[data + length..]
            && r.bus.slave.regs == w.bus.slave.regs
            && r.bus.trace == w.bus.trace + [Start(address, false), Sent(reg), Start(address, true)]
                              + ReceivedAll(values, length) + [Stop]
  {
    hide Transfer, Fetched, ReceivedAll;
    var b := Begin(w, Reading, address, reg, length, data);
    SuccessMeansDoneUnlessRefused(w, Reading, address, reg, length, data, wakes);
    EveryReturnRests(w, Reading, address, reg, length, data, wakes);
    assert b.bus.trace + [Sent(reg), Start(address, true)]
           == w.bus.trace + [Start(address, false), Sent(reg), Start(address, true)];
  }

  /** Reading back what was written returns it: the two interrupt-driven transfers undo each other,
      at any register, also where the 8-bit register pointer wraps. */
  lemma WriteThenReadRoundTrips(w: World, address: byte, reg: byte, length: byte, source: nat, target: nat,
                                clock: Clock.ClockState, wakes: seq<Irq>, wakes': seq<Irq>)
    requires Resting(w) && w.driver.enabled && length > 0
    requires source + length <= |w.mem| && target + length <= |w.mem|
    requires Acknowledged(Transfer(w, Writing, address, reg, length, source, wakes), wakes)
    requires Clock.ValidPeriod(clock)
    ensures var between := Transfer(w, Writing, address, reg, length, source, wakes).world.(clock := clock);
            && Resting(between) && |between.mem| == |w.mem|
            && var o := Transfer(between, Reading, address, reg, length, target, wakes');
               Acknowledged(o, wakes') ==>
                 o.world.mem == w.mem[..target] + w.mem[source..source + length] + w.mem[target + length..]
  {
    var bytes := w.mem[source..source + length];
    WriteStoresData(w, address, reg, length, source, wakes);
    var between := Transfer(w, Writing, address, reg, length, source, wakes).world.(clock := clock);
    if Acknowledged(Transfer(between, Reading, address, reg, length, target, wakes'), wakes') {
      ReadFetchesData(between, address, reg, length, target, wakes');
      FetchingStored(w.bus.slave.regs, reg, bytes);
    }
  }

  /** And the other way round: writing back what was read leaves the slave's registers alone. */
  lemma ReadThenWriteRestoresSlave(w: World, address: byte, reg: byte, length: byte, data: nat,
                                   clock: Clock.ClockState, wakes: seq<Irq>, wakes': seq<Irq>)
    requires Resting(w) && w.driver.enabled && length > 0 && data + length <= |w.mem|
    requires Acknowledged(Transfer(w, Reading, address, reg, length, data, wakes), wakes)
    requires Clock.ValidPeriod(clock)
    ensures var between := Transfer(w, Reading, address, reg, length, data, wakes).world.(clock := clock);
            && Resting(between) && |between.mem| == |w.mem|
            && var o := Transfer(between, Writing, address, reg, length, data, wakes');
               Acknowledged(o, wakes') ==> o.world.bus.slave.regs == w.bus.slave.regs
  {
    hide Transfer, Stored;
    var regs := w.bus.slave.regs;
    var values := Fetched(regs, reg, length);
    ReadFetchesData(w, address, reg, length, data, wakes);
    var between := Transfer(w, Reading, address, reg, length, data, wakes).world.(clock := clock);
    if Acknowledged(Transfer(between, Writing, address, reg, length, data, wakes'), wakes') {
      WriteStoresData(between, address, reg, length, data, wakes');
      assert between.mem[data..data + length] == values;
      StoringFetched(regs, reg, length);
    }
  }
}
