/**
 * The configuration sequence of the MPU-6050: thirteen read-modify-write operations on its register
 * file, any of whose writes can fail and end the sequence. Register numbers and bit positions are
 * those of the i2cdevlib header.
 */
module Device {
  import opened Words

  const SMPLRT_DIV: byte := 0x19
  const CONFIG: byte := 0x1A
  const GYRO_CONFIG: byte := 0x1B
  const ACCEL_CONFIG: byte := 0x1C
  const FIFO_EN: byte := 0x23
  const I2C_MST_CTRL: byte := 0x24
  const INT_PIN_CFG: byte := 0x37
  const INT_ENABLE: byte := 0x38
  const USER_CTRL: byte := 0x6A
  const PWR_MGMT_1: byte := 0x6B

  type Registers = r: seq<bv8> | |r| == 256 witness seq(256, _ => 0)

  // One operation for each step of i2c_mpu6050_device_init, named after its purpose.
  datatype Op =
    | DisableSleep | SetClockSource | SetFilter | SetDivider | EnableThermometer
    | SetGyroRange | SetAccelRange
    | ConfigureFifo | DisableOverflowIrq | EnableFifo
    | ConfigurePin | DisableExternalWait | EnableDataReady

  function Register(op: Op): byte {
    match op
    case DisableSleep => PWR_MGMT_1
    case SetClockSource => PWR_MGMT_1
    case SetFilter => CONFIG
    case SetDivider => SMPLRT_DIV
    case EnableThermometer => PWR_MGMT_1
    case SetGyroRange => GYRO_CONFIG
    case SetAccelRange => ACCEL_CONFIG
    case ConfigureFifo => FIFO_EN
    case DisableOverflowIrq => INT_ENABLE
    case EnableFifo => USER_CTRL
    case ConfigurePin => INT_PIN_CFG
    case DisableExternalWait => I2C_MST_CTRL
    case EnableDataReady => INT_ENABLE
  }

  /** What an operation writes to its register, given what it reads there; None when it does not
      write at all. Several of them mask the value they read before they write it back, which also
      clears the bits they do not mean to touch. */
  function Update(op: Op, reg: bv8): Option<bv8> {
    match op
    case DisableSleep => if reg & 0x40 != 0 then Some(reg & 0x40 & 0xBF) else None
    case SetClockSource => if reg & 0x07 != 1 then Some((reg & 0xF8) | 1) else None
    case SetFilter => if reg & 0x07 != 0 then Some(reg & 0xF8) else None
    case SetDivider => if reg != 0 then Some(0) else None
    case EnableThermometer => if (reg & 0xF7) >> 3 == 1 then Some(reg & 0xF7) else None
    case SetGyroRange => if (reg >> 3) & 0x03 != 3 then Some(reg | 0x30) else None
    case SetAccelRange => if (reg >> 3) & 0x03 != 3 then Some(reg | 0x30) else None
    case ConfigureFifo => if reg & 0xF8 != 0xF8 then Some(reg | 0xF8) else None
    case DisableOverflowIrq => if reg & 0x10 != 0 then Some(reg & 0x10 & 0xEF) else None
    case EnableFifo => if reg & 0x40 == 0 then Some(reg | 0x40) else None
    case ConfigurePin => Some(PinConfig(reg))
    case DisableExternalWait => if reg & 0x40 != 0 then Some(reg & 0x40 & 0xBF) else None
    case EnableDataReady => if reg & 0x01 == 0 then Some((reg & 0x01) | 0x01) else None
  }

  /** The masking chain of the interrupt pin configuration: each test keeps only its own bit. */
  function PinConfig(reg: bv8): bv8 {
    var level := reg & 0x80;
    var r1 := if level != 0 then level & 0x7F else level;
    var drain := r1 & 0x40;
    var r2 := if drain != 0 then drain & 0xBF else drain;
    var latch := r2 & 0x20;
    var r3 := if latch != 0 then latch & 0xDF else latch;
    var clear := r3 & 0x10;
    if clear == 0 then clear | 0x10 else clear
  }

  /** The operations of one call, in order; nofifo and noirq leave a group out. */
  function Program(nofifo: bool, noirq: bool): seq<Op> {
    [DisableSleep, SetClockSource, SetFilter, SetDivider, EnableThermometer, SetGyroRange, SetAccelRange]
    + (if nofifo then [] else [ConfigureFifo, DisableOverflowIrq, EnableFifo])
    + (if noirq then [] else [ConfigurePin, DisableExternalWait, EnableDataReady])
  }

  // What becomes of each write: 0 is success, anything else the error that is returned.
  type Bus = nat -> int

  datatype Outcome = Outcome(error: int, regs: Registers, writes: nat)

  function Perform(op: Op, regs: Registers): Registers {
    match Update(op, regs[Register(op)])
    case None => regs
    case Some(v) => regs[Register(op) := v]
  }

  /** Runs operations until one of their writes fails; a failed write leaves its register alone. */
  function Execute(ops: seq<Op>, regs: Registers, bus: Bus, writes: nat): Outcome {
    if ops == [] then Outcome(0, regs, writes)
    else if Update(ops[0], regs[Register(ops[0])]) == None then Execute(ops[1..], regs, bus, writes)
    else if bus(writes) != 0 then Outcome(bus(writes), regs, writes + 1)
    else Execute(ops[1..], Perform(ops[0], regs), bus, writes + 1)
  }

  function PerformAll(ops: seq<Op>, regs: Registers): Registers {
    if ops == [] then regs else PerformAll(ops[1..], Perform(ops[0], regs))
  }

  function Init(regs: Registers, nofifo: bool, noirq: bool, bus: Bus): Outcome {
    Execute(Program(nofifo, noirq), regs, bus, 0)
  }

  // ----- What a call comes to -----------------------------------------------------------------

  /** A call either does all operations or stops after a prefix of them. */
  lemma {:induction false} ExecutePerformsPrefix(ops: seq<Op>, regs: Registers, bus: Bus, writes: nat) returns (k: nat)
    ensures k <= |ops|
    ensures var o := Execute(ops, regs, bus, writes);
            && o.regs == PerformAll(ops[..k], regs)
            && (o.error == 0 ==> o.regs == PerformAll(ops, regs))
  {
    if ops == [] {
      return 0;
    }
    var done := Update(ops[0], regs[Register(ops[0])]) != None;
    if done && bus(writes) != 0 {
      return 0;
    }
    k := ExecutePerformsPrefix(ops[1..], Perform(ops[0], regs), bus, if done then writes + 1 else writes);
    k := k + 1;
    assert ops[..k][1..] == ops[1..][..k - 1];
  }

  /** The error is that of the first write that fails, which is the last one made; with none that fails
      every operation is done and the call returns 0. */
  lemma {:induction false} ErrorIsFirstFailure(ops: seq<Op>, regs: Registers, bus: Bus, writes: nat)
    ensures var o := Execute(ops, regs, bus, writes);
            && writes <= o.writes <= writes + |ops|
            && (o.error != 0 ==> o.writes > writes && o.error == bus(o.writes - 1))
            && (forall w :: writes <= w < o.writes ==> (bus(w) != 0 <==> o.error != 0 && w == o.writes - 1))
            && (o.error == 0 ==> o.regs == PerformAll(ops, regs))
  {
    if ops != [] {
      var done := Update(ops[0], regs[Register(ops[0])]) != None;
      if !done || bus(writes) == 0 {
        ErrorIsFirstFailure(ops[1..], Perform(ops[0], regs), bus, if done then writes + 1 else writes);
      }
    }
  }

  /** A call succeeds, and configures the device, if and only if none of its writes fails; if the first
      thirteen the bus is asked for succeed, it does. */
  lemma CallSucceedsExactly(regs: Registers, nofifo: bool, noirq: bool, bus: Bus)
    ensures var o := Init(regs, nofifo, noirq, bus);
            && (o.error == 0 <==> forall w :: 0 <= w < o.writes ==> bus(w) == 0)
            && ((forall w :: 0 <= w < 13 ==> bus(w) == 0) ==> o.error == 0)
  {
    ErrorIsFirstFailure(Program(nofifo, noirq), regs, bus, 0);
    hide Execute;
  }

  lemma {:induction false} ExecuteInParts(first: seq<Op>, rest: seq<Op>, regs: Registers, bus: Bus, writes: nat)
    ensures Execute(first + rest, regs, bus, writes)
            == var o := Execute(first, regs, bus, writes);
               if o.error != 0 then o else Execute(rest, o.regs, bus, o.writes)
  {
    if first == [] {
      assert first + rest == rest;
    } else {
      assert (first + rest)[1..] == first[1..] + rest;
      var written := Update(first[0], regs[Register(first[0])]) != None;
      if !written || bus(writes) == 0 {
        ExecuteInParts(first[1..], rest, Perform(first[0], regs), bus, if written then writes + 1 else writes);
      }
    }
  }

  // ----- One register at a time ---------------------------------------------------------------

  function Value(op: Op, reg: bv8): bv8 {
    match Update(op, reg)
    case None => reg
    case Some(v) => v
  }

  /** What a sequence of operations makes of one register. */
  function Through(ops: seq<Op>, register: byte, reg: bv8): bv8 {
    if ops == [] then reg
    else Through(ops[1..], register, if Register(ops[0]) == register then Value(ops[0], reg) else reg)
  }

  lemma {:induction false} RegistersAreIndependent(ops: seq<Op>, regs: Registers, register: byte)
    ensures PerformAll(ops, regs)[register] == Through(ops, register, regs[register])
  {
    if ops != [] {
      RegistersAreIndependent(ops[1..], Perform(ops[0], regs), register);
    }
  }

  function Step(op: Op, register: byte, reg: bv8): bv8 {
    if Register(op) == register then Value(op, reg) else reg
  }

  /** The configuration, register by register: what a complete call makes of any earlier value. */
  function Settled(nofifo: bool, noirq: bool, register: byte, reg: bv8): bv8 {
    if register == PWR_MGMT_1 then (if reg & 0x40 != 0 then 0x01 else (reg & 0xF8) | 0x01)
    else if register == CONFIG then reg & 0xF8
    else if register == SMPLRT_DIV then 0
    else if register == GYRO_CONFIG || register == ACCEL_CONFIG then
      (if reg & 0x18 == 0x18 then reg else reg | 0x30)
    else if register == FIFO_EN && !nofifo then reg | 0xF8
    else if register == USER_CTRL && !nofifo then reg | 0x40
    else if register == INT_PIN_CFG && !noirq then 0x10
    else if register == I2C_MST_CTRL && !noirq then (if reg & 0x40 != 0 then 0 else reg)
    else if register == INT_ENABLE then
      if !nofifo && reg & 0x10 != 0 then (if noirq then 0 else 1)
      else if !noirq && reg & 0x01 == 0 then 1
      else reg
    else reg
  }

  lemma ThroughFirst(op: Op, rest: seq<Op>, register: byte, reg: bv8)
    ensures Through([op] + rest, register, reg) == Through(rest, register, Step(op, register, reg))
  {
    assert ([op] + rest)[1..] == rest;
  }

  lemma ThroughThree(a: Op, b: Op, c: Op, rest: seq<Op>, register: byte, reg: bv8)
    ensures Through([a, b, c] + rest, register, reg)
            == Through(rest, register, Step(c, register, Step(b, register, Step(a, register, reg))))
  {
    hide Step, Through;
    assert [a, b, c] + rest == [a] + ([b] + ([c] + rest));
    ThroughFirst(a, [b] + ([c] + rest), register, reg);
    ThroughFirst(b, [c] + rest, register, Step(a, register, reg));
    ThroughFirst(c, rest, register, Step(b, register, Step(a, register, reg)));
  }

  /** The program, one operation after the other, on one register. */
  function Chain(nofifo: bool, noirq: bool, register: byte, reg: bv8): bv8 {
    var r1 := Step(SetFilter, register, Step(SetClockSource, register, Step(DisableSleep, register, reg)));
    var r2 := Step(SetGyroRange, register, Step(EnableThermometer, register, Step(SetDivider, register, r1)));
    var r3 := Step(SetAccelRange, register, r2);
    var r4 := if nofifo then r3
              else Step(EnableFifo, register, Step(DisableOverflowIrq, register, Step(ConfigureFifo, register, r3)));
    if noirq then r4
    else Step(EnableDataReady, register, Step(DisableExternalWait, register, Step(ConfigurePin, register, r4)))
  }

  lemma ProgramIsChain(nofifo: bool, noirq: bool, register: byte, reg: bv8)
    ensures Through(Program(nofifo, noirq), register, reg) == Chain(nofifo, noirq, register, reg)
  {
    hide Step;
    var irq := if noirq then [] else [ConfigurePin, DisableExternalWait, EnableDataReady];
    var fifo := (if nofifo then [] else [ConfigureFifo, DisableOverflowIrq, EnableFifo]) + irq;
    assert Program(nofifo, noirq)
           == [DisableSleep, SetClockSource, SetFilter]
              + ([SetDivider, EnableThermometer, SetGyroRange] + ([SetAccelRange] + fifo));
    ThroughThree(DisableSleep, SetClockSource, SetFilter,
                 [SetDivider, EnableThermometer, SetGyroRange] + ([SetAccelRange] + fifo), register, reg);
    var r1 := Step(SetFilter, register, Step(SetClockSource, register, Step(DisableSleep, register, reg)));
    ThroughThree(SetDivider, EnableThermometer, SetGyroRange, [SetAccelRange] + fifo, register, r1);
    var r2 := Step(SetGyroRange, register, Step(EnableThermometer, register, Step(SetDivider, register, r1)));
    ThroughFirst(SetAccelRange, fifo, register, r2);
    OptionalGroups(nofifo, noirq, register, Step(SetAccelRange, register, r2));
  }

  lemma OptionalGroups(nofifo: bool, noirq: bool, register: byte, r3: bv8)
    ensures var irq := if noirq then [] else [ConfigurePin, DisableExternalWait, EnableDataReady];
            var fifo := (if nofifo then [] else [ConfigureFifo, DisableOverflowIrq, EnableFifo]) + irq;
            var r4 := if nofifo then r3
                      else Step(EnableFifo, register, Step(DisableOverflowIrq, register, Step(ConfigureFifo, register, r3)));
            Through(fifo, register, r3)
            == if noirq then r4
               else Step(EnableDataReady, register, Step(DisableExternalWait, register, Step(ConfigurePin, register, r4)))
  {
    hide Step;
    var irq := if noirq then [] else [ConfigurePin, DisableExternalWait, EnableDataReady];
    var r4 := r3;
    if nofifo {
      assert [] + irq == irq;
    } else {
      ThroughThree(ConfigureFifo, DisableOverflowIrq, EnableFifo, irq, register, r3);
      r4 := Step(EnableFifo, register, Step(DisableOverflowIrq, register, Step(ConfigureFifo, register, r3)));
    }
    if !noirq {
      assert irq == irq + [];
      ThroughThree(ConfigurePin, DisableExternalWait, EnableDataReady, [], register, r4);
    }
  }

  lemma ProgramSettles(nofifo: bool, noirq: bool, register: byte, reg: bv8)
    ensures Through(Program(nofifo, noirq), register, reg) == Settled(nofifo, noirq, register, reg)
  {
    ProgramIsChain(nofifo, noirq, register, reg);
    ChainSettles(nofifo, noirq, register, reg);
  }

  lemma ChainSettles(nofifo: bool, noirq: bool, register: byte, reg: bv8)
    ensures Chain(nofifo, noirq, register, reg) == Settled(nofifo, noirq, register, reg)
  {
    hide Chain, Settled;
    if register == PWR_MGMT_1 {
      ChainSettlesPower(nofifo, noirq, reg);
    } else if register == GYRO_CONFIG {
      ChainSettlesGyro(nofifo, noirq, reg);
    } else if register == ACCEL_CONFIG {
      ChainSettlesAccel(nofifo, noirq, reg);
    } else if register == INT_ENABLE {
      ChainSettlesInterrupts(nofifo, noirq, reg);
    } else if register == CONFIG {
      ChainSettlesFilter(nofifo, noirq, reg);
    } else if register == SMPLRT_DIV {
      ChainSettlesDivider(nofifo, noirq, reg);
    } else if register == FIFO_EN {
      ChainSettlesFifo(nofifo, noirq, reg);
    } else if register == USER_CTRL {
      ChainSettlesControl(nofifo, noirq, reg);
    } else if register == INT_PIN_CFG || register == I2C_MST_CTRL {
      ChainSettlesPins(nofifo, noirq, register, reg);
    } else {
      ChainLeavesOthers(nofifo, noirq, register, reg);
    }
  }

  lemma ChainSettlesPower(nofifo: bool, noirq: bool, reg: bv8)
    ensures Chain(nofifo, noirq, PWR_MGMT_1, reg) == Settled(nofifo, noirq, PWR_MGMT_1, reg)
  {
  }

  lemma ChainSettlesGyro(nofifo: bool, noirq: bool, reg: bv8)
    ensures Chain(nofifo, noirq, GYRO_CONFIG, reg) == Settled(nofifo, noirq, GYRO_CONFIG, reg)
  {
  }

  lemma ChainSettlesAccel(nofifo: bool, noirq: bool, reg: bv8)
    ensures Chain(nofifo, noirq, ACCEL_CONFIG, reg) == Settled(nofifo, noirq, ACCEL_CONFIG, reg)
  {
  }

  lemma ChainSettlesInterrupts(nofifo: bool, noirq: bool, reg: bv8)
    ensures Chain(nofifo, noirq, INT_ENABLE, reg) == Settled(nofifo, noirq, INT_ENABLE, reg)
  {
  }

  lemma ChainSettlesFilter(nofifo: bool, noirq: bool, reg: bv8)
    ensures Chain(nofifo, noirq, CONFIG, reg) == Settled(nofifo, noirq, CONFIG, reg)
  {
  }

  lemma ChainSettlesDivider(nofifo: bool, noirq: bool, reg: bv8)
    ensures Chain(nofifo, noirq, SMPLRT_DIV, reg) == Settled(nofifo, noirq, SMPLRT_DIV, reg)
  {
  }

  lemma ChainSettlesFifo(nofifo: bool, noirq: bool, reg: bv8)
    ensures Chain(nofifo, noirq, FIFO_EN, reg) == Settled(nofifo, noirq, FIFO_EN, reg)
  {
  }

  lemma ChainSettlesControl(nofifo: bool, noirq: bool, reg: bv8)
    ensures Chain(nofifo, noirq, USER_CTRL, reg) == Settled(nofifo, noirq, USER_CTRL, reg)
  {
  }

  lemma ChainSettlesPins(nofifo: bool, noirq: bool, register: byte, reg: bv8)
    requires register == INT_PIN_CFG || register == I2C_MST_CTRL
    ensures Chain(nofifo, noirq, register, reg) == Settled(nofifo, noirq, register, reg)
  {
  }

  lemma ChainLeavesOthers(nofifo: bool, noirq: bool, register: byte, reg: bv8)
    requires forall op: Op :: Register(op) != register
    ensures Chain(nofifo, noirq, register, reg) == Settled(nofifo, noirq, register, reg) == reg
  {
    assert forall op: Op :: Step(op, register, reg) == reg;
    hide Step;
    assert Register(DisableSleep) != register && Register(SetFilter) != register && Register(SetDivider) != register;
    assert Register(SetGyroRange) != register && Register(SetAccelRange) != register;
    assert Register(ConfigureFifo) != register && Register(EnableFifo) != register;
    assert Register(ConfigurePin) != register && Register(DisableExternalWait) != register;
    assert Register(EnableDataReady) != register;
  }

  // ----- Restarting ---------------------------------------------------------------------------

  /** Doing any one operation of the program first makes no difference to what the program does. */
  lemma ProgramAbsorbsOperation(nofifo: bool, noirq: bool, op: Op, register: byte, reg: bv8)
    requires op in Program(nofifo, noirq)
    ensures Settled(nofifo, noirq, register, Step(op, register, reg)) == Settled(nofifo, noirq, register, reg)
  {
    if Register(op) == register {
      GroupsOfProgram(nofifo, noirq, op);
      hide Settled, Value;
      match op
      case DisableSleep => SettledAbsorbsSleep(nofifo, noirq, reg);
      case SetClockSource => SettledAbsorbsClock(nofifo, noirq, reg);
      case EnableThermometer => SettledAbsorbsThermometer(nofifo, noirq, reg);
      case SetGyroRange => SettledAbsorbsRange(nofifo, noirq, op, reg);
      case SetAccelRange => SettledAbsorbsRange(nofifo, noirq, op, reg);
      case DisableOverflowIrq => SettledAbsorbsInterrupts(nofifo, noirq, op, reg);
      case EnableDataReady => SettledAbsorbsInterrupts(nofifo, noirq, op, reg);
      case _ => SettledAbsorbsSingle(nofifo, noirq, op, reg);
    }
  }

  lemma GroupsOfProgram(nofifo: bool, noirq: bool, op: Op)
    requires op in Program(nofifo, noirq)
    ensures op in {ConfigureFifo, DisableOverflowIrq, EnableFifo} ==> !nofifo
    ensures op in {ConfigurePin, DisableExternalWait, EnableDataReady} ==> !noirq
  {
  }

  lemma SettledAbsorbsSleep(nofifo: bool, noirq: bool, reg: bv8)
    ensures Settled(nofifo, noirq, PWR_MGMT_1, Value(DisableSleep, reg)) == Settled(nofifo, noirq, PWR_MGMT_1, reg)
  {
  }

  lemma SettledAbsorbsClock(nofifo: bool, noirq: bool, reg: bv8)
    ensures Settled(nofifo, noirq, PWR_MGMT_1, Value(SetClockSource, reg)) == Settled(nofifo, noirq, PWR_MGMT_1, reg)
  {
  }

  lemma SettledAbsorbsThermometer(nofifo: bool, noirq: bool, reg: bv8)
    ensures Settled(nofifo, noirq, PWR_MGMT_1, Value(EnableThermometer, reg)) == Settled(nofifo, noirq, PWR_MGMT_1, reg)
  {
  }

  lemma SettledAbsorbsRange(nofifo: bool, noirq: bool, op: Op, reg: bv8)
    requires op == SetGyroRange || op == SetAccelRange
    ensures Settled(nofifo, noirq, Register(op), Value(op, reg)) == Settled(nofifo, noirq, Register(op), reg)
  {
  }

  lemma SettledAbsorbsInterrupts(nofifo: bool, noirq: bool, op: Op, reg: bv8)
    requires (op == DisableOverflowIrq && !nofifo) || (op == EnableDataReady && !noirq)
    ensures Settled(nofifo, noirq, INT_ENABLE, Value(op, reg)) == Settled(nofifo, noirq, INT_ENABLE, reg)
  {
  }

  lemma SettledAbsorbsSingle(nofifo: bool, noirq: bool, op: Op, reg: bv8)
    requires op in {SetFilter, SetDivider} || (op in {ConfigureFifo, EnableFifo} && !nofifo)
             || (op in {ConfigurePin, DisableExternalWait} && !noirq)
    ensures Settled(nofifo, noirq, Register(op), Value(op, reg)) == Settled(nofifo, noirq, Register(op), reg)
  {
  }

  lemma {:induction false} ProgramAbsorbsOperations(nofifo: bool, noirq: bool, ops: seq<Op>, register: byte, reg: bv8)
    requires forall op :: op in ops ==> op in Program(nofifo, noirq)
    ensures Settled(nofifo, noirq, register, Through(ops, register, reg)) == Settled(nofifo, noirq, register, reg)
  {
    hide Settled, Program, Step;
    if ops != [] {
      assert ops[0] in ops;
      assert ops == [ops[0]] + ops[1..];
      ThroughFirst(ops[0], ops[1..], register, reg);
      ProgramAbsorbsOperations(nofifo, noirq, ops[1..], register, Step(ops[0], register, reg));
      ProgramAbsorbsOperation(nofifo, noirq, ops[0], register, reg);
    }
  }

  predicate Configured(nofifo: bool, noirq: bool, from: Registers, to: Registers) {
    forall r :: 0 <= r < 256 ==> to[r] == Settled(nofifo, noirq, r, from[r])
  }

  /** A call that succeeds leaves every register as the configuration says, the untouched ones
      included. */
  lemma SuccessConfigures(regs: Registers, nofifo: bool, noirq: bool, bus: Bus)
    requires Init(regs, nofifo, noirq, bus).error == 0
    ensures Configured(nofifo, noirq, regs, Init(regs, nofifo, noirq, bus).regs)
  {
    hide Settled, Program, Through;
    var k := ExecutePerformsPrefix(Program(nofifo, noirq), regs, bus, 0);
    forall r | 0 <= r < 256
      ensures Init(regs, nofifo, noirq, bus).regs[r] == Settled(nofifo, noirq, r, regs[r])
    {
      RegistersAreIndependent(Program(nofifo, noirq), regs, r);
      ProgramSettles(nofifo, noirq, r, regs[r]);
    }
  }

  /** However a call comes out, configuring afterwards leads where configuring before would have. */
  lemma AnyCallKeepsDestination(regs: Registers, nofifo: bool, noirq: bool, bus: Bus, register: byte)
    ensures var after := Init(regs, nofifo, noirq, bus).regs;
            Settled(nofifo, noirq, register, after[register])
            == Settled(nofifo, noirq, register, regs[register])
  {
    hide Settled, Program, Through;
    var p := Program(nofifo, noirq);
    var k := ExecutePerformsPrefix(p, regs, bus, 0);
    RegistersAreIndependent(p[..k], regs, register);
    ProgramAbsorbsOperations(nofifo, noirq, p[..k], register, regs[register]);
  }

  // ----- The order of the steps ---------------------------------------------------------------

  lemma {:induction false} UntouchedRegister(ops: seq<Op>, register: byte, reg: bv8)
    requires forall op :: op in ops ==> Register(op) != register
    ensures Through(ops, register, reg) == reg
  {
    hide Register;
    if ops != [] {
      assert ops[0] in ops;
      UntouchedRegister(ops[1..], register, reg);
    }
  }

  lemma {:induction false} ThroughInParts(first: seq<Op>, rest: seq<Op>, register: byte, reg: bv8)
    ensures Through(first + rest, register, reg) == Through(rest, register, Through(first, register, reg))
  {
    hide Register, Value;
    if first == [] {
      assert first + rest == rest;
    } else {
      assert (first + rest)[1..] == first[1..] + rest;
      ThroughInParts(first[1..], rest, register, if Register(first[0]) == register then Value(first[0], reg) else reg);
    }
  }

  /** The first m operations do not concern the later register, the others not the earlier one. */
  predicate Apart(p: seq<Op>, m: nat, earlier: byte, later: byte) {
    && m <= |p|
    && (forall i :: 0 <= i < m ==> Register(p[i]) != later)
    && (forall i :: m <= i < |p| ==> Register(p[i]) != earlier)
  }

  lemma ChangedInOrder(regs: Registers, nofifo: bool, noirq: bool, bus: Bus, m: nat, earlier: byte, later: byte)
    requires Apart(Program(nofifo, noirq), m, earlier, later)
    ensures var after := Init(regs, nofifo, noirq, bus).regs;
            after[later] != regs[later] ==> after[earlier] == Settled(nofifo, noirq, earlier, regs[earlier])
  {
    var p := Program(nofifo, noirq);
    var k := ExecutePerformsPrefix(p, regs, bus, 0);
    hide Settled, Program, Through, Register;
    RegistersAreIndependent(p[..k], regs, later);
    RegistersAreIndependent(p[..k], regs, earlier);
    ProgramSettles(nofifo, noirq, earlier, regs[earlier]);
    assert p == p[..k] + p[k..];
    ThroughInParts(p[..k], p[k..], earlier, regs[earlier]);
    if k <= m {
      UntouchedRegister(p[..k], later, regs[later]);
    } else {
      UntouchedRegister(p[k..], earlier, Through(p[..k], earlier, regs[earlier]));
    }
  }

  /** The registers that are configured one after the other, and how many operations come before the
      first of each in a complete call. */
  const InOrder: seq<(byte, nat)> :=
    [(CONFIG, 2), (SMPLRT_DIV, 3), (GYRO_CONFIG, 5), (ACCEL_CONFIG, 6), (FIFO_EN, 7), (USER_CTRL, 9), (INT_PIN_CFG, 10),
     (I2C_MST_CTRL, 11)]

  /** Wherever a complete call fails: once one of these registers has changed, all before it in the order
      hold their configuration. */
  lemma ConfiguresInOrder(regs: Registers, bus: Bus, a: nat, b: nat)
    requires a < b < |InOrder|
    ensures var after, earlier, later := Init(regs, false, false, bus).regs, InOrder[a].0, InOrder[b].0;
            after[later] != regs[later] ==> after[earlier] == Settled(false, false, earlier, regs[earlier])
  {
    var p := Program(false, false);
    var registers := CompleteProgram();
    hide Settled, Init, Program;
    assert Apart(p, InOrder[b].1, InOrder[a].0, InOrder[b].0);
    ChangedInOrder(regs, false, false, bus, InOrder[b].1, InOrder[a].0, InOrder[b].0);
  }

  /** The register of each of the thirteen operations. */
  lemma CompleteProgram() returns (registers: seq<byte>)
    ensures registers == [PWR_MGMT_1, PWR_MGMT_1, CONFIG, SMPLRT_DIV, PWR_MGMT_1, GYRO_CONFIG, ACCEL_CONFIG,
                          FIFO_EN, INT_ENABLE, USER_CTRL, INT_PIN_CFG, I2C_MST_CTRL, INT_ENABLE]
    ensures |Program(false, false)| == 13
    ensures forall i :: 0 <= i < 13 ==> Register(Program(false, false)[i]) == registers[i]
  {
    registers := [PWR_MGMT_1, PWR_MGMT_1, CONFIG, SMPLRT_DIV, PWR_MGMT_1, GYRO_CONFIG, ACCEL_CONFIG,
                  FIFO_EN, INT_ENABLE, USER_CTRL, INT_PIN_CFG, I2C_MST_CTRL, INT_ENABLE];
    assert Program(false, false)
           == [DisableSleep, SetClockSource, SetFilter, SetDivider, EnableThermometer, SetGyroRange, SetAccelRange,
               ConfigureFifo, DisableOverflowIrq, EnableFifo, ConfigurePin, DisableExternalWait, EnableDataReady];
  }

  /** And nothing is written to any other register before the device is awake on its chosen clock. */
  lemma WakesUpFirst(regs: Registers, nofifo: bool, noirq: bool, bus: Bus, register: byte)
    requires register != PWR_MGMT_1
    ensures var after := Init(regs, nofifo, noirq, bus).regs;
            after[register] != regs[register] ==> after[PWR_MGMT_1] & 0x47 == 0x01
  {
    WakeUpSettles(regs, nofifo, noirq, bus, register);
  }

  lemma WakeUpSettles(regs: Registers, nofifo: bool, noirq: bool, bus: Bus, register: byte)
    requires register != PWR_MGMT_1
    ensures var after := Init(regs, nofifo, noirq, bus).regs;
            after[register] != regs[register] ==>
              after[PWR_MGMT_1] == Settled(nofifo, noirq, PWR_MGMT_1, regs[PWR_MGMT_1])
  {
    var p := Program(nofifo, noirq);
    var k := ExecutePerformsPrefix(p, regs, bus, 0);
    PowerComesFirst(nofifo, noirq);
    hide Settled, Program, Through, Init, Register;
    RegistersAreIndependent(p[..k], regs, register);
    RegistersAreIndependent(p[..k], regs, PWR_MGMT_1);
    if k <= 2 {
      assert forall op :: op in p[..k] ==> op in p[..2];
      UntouchedRegister(p[..k], register, regs[register]);
    } else {
      PowerSettlesEarly(nofifo, noirq, k, regs[PWR_MGMT_1]);
    }
  }

  lemma PowerComesFirst(nofifo: bool, noirq: bool)
    ensures var p := Program(nofifo, noirq);
            && |p| > 2 && (forall op :: op in p[..2] ==> Register(op) == PWR_MGMT_1)
            && DisableSleep !in p[2..] && SetClockSource !in p[2..]
  {
    assert Program(nofifo, noirq)[..2] == [DisableSleep, SetClockSource];
  }

  lemma PowerSettlesEarly(nofifo: bool, noirq: bool, k: nat, reg: bv8)
    requires 2 <= k <= |Program(nofifo, noirq)|
    ensures Through(Program(nofifo, noirq)[..k], PWR_MGMT_1, reg) == Settled(nofifo, noirq, PWR_MGMT_1, reg)
  {
    var p := Program(nofifo, noirq);
    PowerComesFirst(nofifo, noirq);
    ProgramSettles(nofifo, noirq, PWR_MGMT_1, reg);
    hide Settled, Program, Through;
    assert p == p[..2] + p[2..] && p[..k] == p[..2] + p[2..k];
    assert forall op :: op in p[2..k] ==> op in p[2..];
    ThroughInParts(p[..2], p[2..], PWR_MGMT_1, reg);
    ThroughInParts(p[..2], p[2..k], PWR_MGMT_1, reg);
    PowerStays(p[2..], Through(p[..2], PWR_MGMT_1, reg));
    PowerStays(p[2..k], Through(p[..2], PWR_MGMT_1, reg));
  }

  /** After the wake-up no operation changes the power register. */
  lemma {:induction false} PowerStays(ops: seq<Op>, reg: bv8)
    requires DisableSleep !in ops && SetClockSource !in ops
    ensures Through(ops, PWR_MGMT_1, reg) == reg
  {
    if ops != [] {
      assert ops[0] in ops;
      assert Step(ops[0], PWR_MGMT_1, reg) == reg;
      hide Register, Value;
      PowerStays(ops[1..], reg);
    }
  }

  /** The register file after a series of calls with the same parameters. */
  function Attempts(regs: Registers, nofifo: bool, noirq: bool, buses: seq<Bus>): Registers
    decreases |buses|
  {
    if buses == [] then regs
    else Attempts(Init(regs, nofifo, noirq, buses[0]).regs, nofifo, noirq, buses[1..])
  }

  /** After any number of calls, each failing at any of its writes or not at all, a call that
      succeeds leaves exactly the register file of one uninterrupted call from the start. */
  lemma {:induction false} RestartsReachTheSameConfiguration(regs: Registers, nofifo: bool, noirq: bool,
                                                            buses: seq<Bus>, last: Bus, direct: Bus)
    requires Init(Attempts(regs, nofifo, noirq, buses), nofifo, noirq, last).error == 0
    requires Init(regs, nofifo, noirq, direct).error == 0
    ensures Init(Attempts(regs, nofifo, noirq, buses), nofifo, noirq, last).regs
            == Init(regs, nofifo, noirq, direct).regs
  {
    hide Settled, Init;
    var before := Attempts(regs, nofifo, noirq, buses);
    var restarted, uninterrupted := Init(before, nofifo, noirq, last).regs, Init(regs, nofifo, noirq, direct).regs;
    SuccessConfigures(before, nofifo, noirq, last);
    SuccessConfigures(regs, nofifo, noirq, direct);
    forall r | 0 <= r < 256
      ensures restarted[r] == uninterrupted[r]
    {
      AttemptsKeepDestination(regs, nofifo, noirq, buses, r);
    }
  }

  lemma {:induction false} AttemptsKeepDestination(regs: Registers, nofifo: bool, noirq: bool, buses: seq<Bus>, register: byte)
    ensures Settled(nofifo, noirq, register, Attempts(regs, nofifo, noirq, buses)[register])
            == Settled(nofifo, noirq, register, regs[register])
    decreases |buses|
  {
    hide Settled, Init;
    if buses != [] {
      AnyCallKeepsDestination(regs, nofifo, noirq, buses[0], register);
      AttemptsKeepDestination(Init(regs, nofifo, noirq, buses[0]).regs, nofifo, noirq, buses[1..], register);
    }
  }

  // ----- What the sequence selects ------------------------------------------------------------

  /** The two-bit full-scale field of the range registers, bits 4 and 3. */
  function RangeField(reg: bv8): bv8 {
    (reg >> 3) & 0x03
  }

  /** The sequence means to select the largest full-scale ranges, 3, but shifts them by the field's
      upper bit: after a successful call the field is 3 exactly if its lower bit was set before, and
      2 otherwise. */
  lemma LargestRangeExactly(regs: Registers, nofifo: bool, noirq: bool, bus: Bus, register: byte)
    requires register == GYRO_CONFIG || register == ACCEL_CONFIG
    requires Init(regs, nofifo, noirq, bus).error == 0
    ensures var before, after := regs[register], Init(regs, nofifo, noirq, bus).regs[register];
            && (RangeField(after) == 3 <==> before & 0x08 != 0)
            && (RangeField(after) == 2 <==> before & 0x08 == 0)
  {
    SuccessConfigures(regs, nofifo, noirq, bus);
    var before := regs[register];
    assert Init(regs, nofifo, noirq, bus).regs[register] == Settled(nofifo, noirq, register, before);
    hide Init, Configured;
  }

  /** The step that means to enable the thermometer never writes: the thermometer stays disabled
      exactly if it was and the device was not asleep. */
  lemma ThermometerStaysDisabledExactly(regs: Registers, nofifo: bool, noirq: bool, bus: Bus)
    requires Init(regs, nofifo, noirq, bus).error == 0
    ensures forall reg :: Update(EnableThermometer, reg) == None
    ensures var before, after := regs[PWR_MGMT_1], Init(regs, nofifo, noirq, bus).regs[PWR_MGMT_1];
            && (after & 0x08 != 0 <==> before & 0x08 != 0 && before & 0x40 == 0)
            && after & 0x40 == 0 && after & 0x07 == 1
  {
    SuccessConfigures(regs, nofifo, noirq, bus);
    var before := regs[PWR_MGMT_1];
    assert Init(regs, nofifo, noirq, bus).regs[PWR_MGMT_1] == Settled(nofifo, noirq, PWR_MGMT_1, before);
    hide Init, Configured;
  }
}
