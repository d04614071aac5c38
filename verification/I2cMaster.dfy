/** The I2C driver as a program: its static fields, its interrupt routine and its blocking calls. */
module I2cMaster {
  import opened Words
  import opened I2c
  import Clock

  class Master {
    // struct msp430_i2c_info
    var mode: Mode
    var slaveReg: byte
    var slaveRegWritten: bool
    var data: nat
    var length: u16
    var enabled: bool

    // Memory, the serial interface with what hangs on it, and the clock.
    const mem: array<byte>
    var bus: Bus
    const clock: Clock.MsClock

    ghost function Now(): World
      reads this, mem, clock
    {
      World(Driver(mode, slaveReg, slaveRegWritten, data, length, enabled), mem[..], bus, clock.State())
    }

    /** Power-on: the driver is disabled until msp430_i2c_enable. */
    constructor (mem: array<byte>, clock: Clock.MsClock, slave: Slave)
      requires |slave.regs| == 256 && Clock.ValidPeriod(clock.State())
      ensures this.mem == mem && this.clock == clock && Resting(Now()) && !enabled
      ensures Now().mem == mem[..] && bus.slave == slave && bus.trace == []
    {
      this.mem := mem;
      this.clock := clock;
      mode := Waiting;
      slaveReg := 0;
      slaveRegWritten := false;
      data := 0;
      length := 0;
      enabled := false;
      bus := Bus(Idle, 0, false, false, false, None, 0, slave, []);
    }

    // ----- I2C_ISR, one method for each interrupt vector it handles ---------------------------

    method NakIsr()
      modifies this
      ensures Now() == NakInterrupt(old(Now()))
    {
      mode := Waiting;
      bus := bus.(stopRequest := true);
    }

    method RxIsr()
      requires length >= 1 && data < mem.Length
      modifies this, mem
      ensures Now() == RxInterrupt(old(Now()))
    {
      length := length - 1;
      if length != 0 {
        if length == 1 {
          bus := bus.(stopRequest := true);
        }
      } else {
        mode := Waiting;
      }
      mem[data] := bus.rxbuf;
      data := data + 1;
    }

    method TxIsr()
      requires Safe(Now()) && bus.phase != SlaveSends
      modifies this
      ensures Now() == TxInterrupt(old(Now()))
    {
      match mode {
        case Writing =>
          if !slaveRegWritten {
            slaveRegWritten := true;
            bus := bus.(txbuf := Some(slaveReg));
          } else if length != 0 {
            var next := mem[data];
            data := data + 1;
            length := length - 1;
            bus := bus.(txbuf := Some(next));
          } else {
            mode := Waiting;
            bus := bus.(stopRequest := true);
          }
        case Reading =>
          if !slaveRegWritten {
            slaveRegWritten := true;
            bus := bus.(txbuf := Some(slaveReg));
          } else {
            bus := bus.(transmit := false, startRequest := true);
            if length == 1 {
              // The routine waits for the START to be sent before it asks for the STOP.
              bus := Transmit(bus);
              bus := bus.(stopRequest := true);
            }
          }
        case Waiting =>
      }
    }

    /** One wake-up: the hardware raises an interrupt, its routine runs, the hardware goes on. */
    method Wake(irq: Irq)
      requires Safe(Now())
      modifies this, mem, clock
      ensures Now() == Interrupt(old(Now()), irq)
    {
      match irq {
        case Tick =>
          if clock.enabled {
            clock.Isr();
          }
        case Protocol =>
          match bus.phase {
            case Idle => TxIsr();
            case MasterSends =>
              TxIsr();
              if bus.phase == MasterSends {
                bus := Transmit(bus);
              }
            case SlaveSends =>
              bus := Receive(bus);
              RxIsr();
          }
        case Nak =>
          if bus.phase != Idle {
            bus := bus.(trace := bus.trace + [Refused]);
            NakIsr();
            if bus.stopRequest {
              bus := SendStop(bus);
            }
          }
        case Ignored =>
      }
    }

    // ----- The calls --------------------------------------------------------------------------

    method EnableI2c() returns (ret: int)
      modifies this
      ensures ret == 0 && Now() == Enable(old(Now()))
    {
      if enabled {
        return 0;
      }
      bus := bus.(transmit := false, trace := bus.trace + [Reset(bus.stopRequest)]);
      mode := Waiting;
      slaveReg := 0;
      slaveRegWritten := false;
      data := 0;
      length := 0;
      enabled := true;
      return 0;
    }

    method DisableI2c() returns (ret: int)
      modifies this
      ensures ret == 0 && Now() == Disable(old(Now()))
    {
      if !enabled {
        return 0;
      }
      bus := bus.(phase := Idle, startRequest := false, stopRequest := false, txbuf := None,
                  trace := bus.trace + [Reset(bus.stopRequest), Scl(true), Sda(true)]);
      enabled := false;
      return 0;
    }

    method GiveUp()
      requires Safe(Now())
      modifies this, clock
      ensures Now() == Recover(old(Now()))
    {
      bus := bus.(stopRequest := true);
      mode := Waiting;
      var _ := DisableI2c();
      DelayKeepsPeriod(clock.State());
      var _ := clock.Delay(1);
      bus := bus.(trace := bus.trace + [Scl(false), Sda(false)]);
      var _ := clock.Delay(1);
      bus := bus.(trace := bus.trace + [Scl(true), Sda(true)]);
      var _ := EnableI2c();
    }

    /** The wait loop that both calls end with; returned is false when the wake-ups run out first. */
    method WaitForTransfer(wakes: seq<Irq>) returns (returned: bool, code: int, used: nat)
      requires Safe(Now())
      modifies this, mem, clock
      ensures var o := Await(old(Now()), old(clock.timestamp), wakes);
              && returned == o.Returned? && Now() == o.world
              && (returned ==> code == o.code && used == o.used)
    {
      var start := clock.timestamp;
      ghost var o := Await(Now(), start, wakes);
      used := 0;
      while mode != Waiting
        invariant Safe(Now()) && used <= |wakes|
        invariant o == Later(Await(Now(), start, wakes[used..]), used)
        decreases |wakes| - used
      {
        if used == |wakes| {
          return false, 0, used;
        }
        assert wakes[used..][1..] == wakes[used + 1..];
        Wake(wakes[used]);
        used := used + 1;
        var cur := clock.timestamp;
        if cur >= Add32(start, TIMEOUT_MS) {
          GiveUp();
          return true, -1, used;
        }
      }
      return true, 0, used;
    }

    method Write(slaveAddr: byte, regAddr: byte, n: byte, source: nat, wakes: seq<Irq>)
      returns (returned: bool, code: int, used: nat)
      requires Resting(Now()) && source + n <= mem.Length
      modifies this, mem, clock
      ensures var o := Transfer(old(Now()), Writing, slaveAddr, regAddr, n, source, wakes);
              && returned == o.Returned? && Now() == o.world
              && (returned ==> code == o.code && used == o.used)
    {
      if !enabled {
        return true, -1, 0;
      }
      if n == 0 {
        return true, 0, 0;
      }
      mode := Writing;
      slaveReg := regAddr;
      slaveRegWritten := false;
      data := source;
      length := n;
      bus := Transmit(bus.(address := slaveAddr, transmit := true, startRequest := true));
      returned, code, used := WaitForTransfer(wakes);
    }

    method Read(slaveAddr: byte, regAddr: byte, n: byte, target: nat, wakes: seq<Irq>)
      returns (returned: bool, code: int, used: nat)
      requires Resting(Now()) && target + n <= mem.Length
      modifies this, mem, clock
      ensures var o := Transfer(old(Now()), Reading, slaveAddr, regAddr, n, target, wakes);
              && returned == o.Returned? && Now() == o.world
              && (returned ==> code == o.code && used == o.used)
    {
      if !enabled {
        return true, -1, 0;
      }
      if n == 0 {
        return true, 0, 0;
      }
      mode := Reading;
      slaveReg := regAddr;
      slaveRegWritten := false;
      data := target;
      length := n;
      bus := Transmit(bus.(address := slaveAddr, transmit := true, startRequest := true));
      returned, code, used := WaitForTransfer(wakes);
    }
  }

  /** An outcome, counted from some wake-ups earlier. */
  ghost function Later(o: Outcome, n: nat): Outcome {
    match o
    case Returned(code, w, used) => Returned(code, w, used + n)
    case Asleep(w) => Asleep(w)
  }
}
