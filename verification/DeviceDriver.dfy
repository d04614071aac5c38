/** The device as a program: a register file behind a bus, and its configuration call. */
module DeviceDriver {
  import opened Words
  import opened Device

  class Mpu6050 {
    const regs: array<bv8>
    const bus: Bus
    var writes: nat

    ghost predicate Valid()
      reads regs
    {
      regs.Length == 256
    }

    constructor (regs: array<bv8>, bus: Bus)
      requires regs.Length == 256
      ensures this.regs == regs && this.bus == bus && writes == 0
    {
      this.regs := regs;
      this.bus := bus;
      writes := 0;
    }

    /** i2c_smbus_write_byte_data. */
    method WriteByte(register: byte, value: bv8) returns (err: int)
      requires Valid()
      modifies this, regs
      ensures err == bus(old(writes)) && writes == old(writes) + 1
      ensures regs[..] == if err == 0 then old(regs[..])[register := value] else old(regs[..])
    {
      err := bus(writes);
      writes := writes + 1;
      if err == 0 {
        regs[register] := value;
      }
    }

    /** The steps have been carried out up to the first error. */
    twostate predicate Done(ops: seq<Op>, err: int)
      requires Valid()
      reads this, regs
    {
      Outcome(err, regs[..], writes) == Execute(ops, old(regs[..]), bus, old(writes))
    }

    // ----- The steps --------------------------------------------------------------------------

    method DisableSleepMode() returns (err: int)
      requires Valid()
      modifies this, regs
      ensures Done([DisableSleep], err)
    {
      err := 0;
      var reg := regs[PWR_MGMT_1];
      reg := reg & 0x40;
      var value := reg >> 6;
      if value != 0 {
        reg := reg & 0xBF;
        err := WriteByte(PWR_MGMT_1, reg);
      }
    }

    method SetClock() returns (err: int)
      requires Valid()
      modifies this, regs
      ensures Done([SetClockSource], err)
    {
      err := 0;
      var reg := regs[PWR_MGMT_1];
      var value := reg & 0x07;
      if value != 1 {
        reg := reg & 0xF8;
        reg := reg | 1;
        err := WriteByte(PWR_MGMT_1, reg);
      }
    }

    method SetLowPassFilter() returns (err: int)
      requires Valid()
      modifies this, regs
      ensures Done([SetFilter], err)
    {
      err := 0;
      var reg := regs[CONFIG];
      var value := reg & 0x07;
      if value != 0 {
        reg := reg & 0xF8;
        err := WriteByte(CONFIG, reg);
      }
    }

    method SetSampleRateDivider() returns (err: int)
      requires Valid()
      modifies this, regs
      ensures Done([SetDivider], err)
    {
      err := 0;
      var reg := regs[SMPLRT_DIV];
      var value := reg;
      if value != 0 {
        reg := 0;
        err := WriteByte(SMPLRT_DIV, reg);
      }
    }

    method EnableTemperature() returns (err: int)
      requires Valid()
      modifies this, regs
      ensures Done([EnableThermometer], err)
    {
      err := 0;
      var reg := regs[PWR_MGMT_1];
      var value := (reg & 0xF7) >> 3;
      if value == 1 {
        assert false; // bits 7..3 of a byte whose bit 3 has been masked out are never 1
      }
    }

    method SelectGyroRange() returns (err: int)
      requires Valid()
      modifies this, regs
      ensures Done([SetGyroRange], err)
    {
      err := 0;
      var reg := regs[GYRO_CONFIG];
      var value := (reg >> 3) & 0x03;
      if value != 3 {
        reg := reg | 0x30;
        err := WriteByte(GYRO_CONFIG, reg);
      }
    }

    method SelectAccelRange() returns (err: int)
      requires Valid()
      modifies this, regs
      ensures Done([SetAccelRange], err)
    {
      err := 0;
      var reg := regs[ACCEL_CONFIG];
      var value := (reg >> 3) & 0x03;
      if value != 3 {
        reg := reg | 0x30;
        err := WriteByte(ACCEL_CONFIG, reg);
      }
    }

    method SelectFifoContents() returns (err: int)
      requires Valid()
      modifies this, regs
      ensures Done([ConfigureFifo], err)
    {
      err := 0;
      var reg := regs[FIFO_EN];
      var value := (reg & 0x80) >> 7;
      value := value & ((reg & 0x40) >> 6);
      value := value & ((reg & 0x20) >> 5);
      value := value & ((reg & 0x10) >> 4);
      value := value & ((reg & 0x08) >> 3);
      if value == 0 {
        reg := reg | 0x80 | 0x40 | 0x20 | 0x10 | 0x08;
        err := WriteByte(FIFO_EN, reg);
      }
    }

    method DisableOverflowInterrupt() returns (err: int)
      requires Valid()
      modifies this, regs
      ensures Done([DisableOverflowIrq], err)
    {
      err := 0;
      var reg := regs[INT_ENABLE];
      reg := reg & 0x10;
      var value := reg >> 4;
      if value != 0 {
        reg := reg & 0xEF;
        err := WriteByte(INT_ENABLE, reg);
      }
    }

    method TurnFifoOn() returns (err: int)
      requires Valid()
      modifies this, regs
      ensures Done([EnableFifo], err)
    {
      err := 0;
      var reg := regs[USER_CTRL];
      var value := (reg & 0x40) >> 6;
      if value == 0 {
        reg := reg | 0x40;
        err := WriteByte(USER_CTRL, reg);
      }
    }

    method ConfigureInterruptPin() returns (err: int)
      requires Valid()
      modifies this, regs
      ensures Done([ConfigurePin], err)
    {
      err := 0;
      var reg := regs[INT_PIN_CFG];
      reg := reg & 0x80;
      var value := reg >> 7;
      if value != 0 {
        reg := reg & 0x7F;
      }
      reg := reg & 0x40;
      value := reg >> 6;
      if value != 0 {
        reg := reg & 0xBF;
      }
      reg := reg & 0x20;
      value := reg >> 5;
      if value != 0 {
        reg := reg & 0xDF;
      }
      reg := reg & 0x10;
      value := reg >> 4;
      if value == 0 {
        reg := reg | 0x10;
      }
      err := WriteByte(INT_PIN_CFG, reg);
    }

    method DisableWaitForExternalData() returns (err: int)
      requires Valid()
      modifies this, regs
      ensures Done([DisableExternalWait], err)
    {
      err := 0;
      var reg := regs[I2C_MST_CTRL];
      reg := reg & 0x40;
      var value := reg >> 6;
      if value != 0 {
        reg := reg & 0xBF;
        err := WriteByte(I2C_MST_CTRL, reg);
      }
    }

    method EnableDataReadyInterrupt() returns (err: int)
      requires Valid()
      modifies this, regs
      ensures Done([EnableDataReady], err)
    {
      err := 0;
      var reg := regs[INT_ENABLE];
      reg := reg & 0x01;
      var value := reg;
      if value == 0 {
        reg := reg | 0x01;
        err := WriteByte(INT_ENABLE, reg);
      }
    }

    /** Steps 0 and 1. */
    method WakeUp() returns (err: int)
      requires Valid()
      modifies this, regs
      ensures Done([DisableSleep, SetClockSource], err)
    {
      assert [DisableSleep] + [SetClockSource] == [DisableSleep, SetClockSource];
      ExecuteInParts([DisableSleep], [SetClockSource], regs[..], bus, writes);
      err := DisableSleepMode();
      if err != 0 {
        return;
      }
      err := SetClock();
    }

    /** Step 2. */
    method SetSampling() returns (err: int)
      requires Valid()
      modifies this, regs
      ensures Done([SetFilter, SetDivider], err)
    {
      assert [SetFilter] + [SetDivider] == [SetFilter, SetDivider];
      ExecuteInParts([SetFilter], [SetDivider], regs[..], bus, writes);
      err := SetLowPassFilter();
      if err != 0 {
        return;
      }
      err := SetSampleRateDivider();
    }

    /** Step 3. */
    method SetSensors() returns (err: int)
      requires Valid()
      modifies this, regs
      ensures Done([EnableThermometer, SetGyroRange, SetAccelRange], err)
    {
      assert [EnableThermometer] + ([SetGyroRange] + [SetAccelRange]) == [EnableThermometer, SetGyroRange, SetAccelRange];
      ExecuteInParts([EnableThermometer], [SetGyroRange] + [SetAccelRange], regs[..], bus, writes);
      err := EnableTemperature();
      if err != 0 {
        return;
      }
      ExecuteInParts([SetGyroRange], [SetAccelRange], regs[..], bus, writes);
      err := SelectGyroRange();
      if err != 0 {
        return;
      }
      err := SelectAccelRange();
    }

    /** Step 4. */
    method SetUpFifo() returns (err: int)
      requires Valid()
      modifies this, regs
      ensures Done([ConfigureFifo, DisableOverflowIrq, EnableFifo], err)
    {
      assert [ConfigureFifo] + ([DisableOverflowIrq] + [EnableFifo]) == [ConfigureFifo, DisableOverflowIrq, EnableFifo];
      ExecuteInParts([ConfigureFifo], [DisableOverflowIrq] + [EnableFifo], regs[..], bus, writes);
      err := SelectFifoContents();
      if err != 0 {
        return;
      }
      ExecuteInParts([DisableOverflowIrq], [EnableFifo], regs[..], bus, writes);
      err := DisableOverflowInterrupt();
      if err != 0 {
        return;
      }
      err := TurnFifoOn();
    }

    /** Step 5. */
    method SetUpInterrupts() returns (err: int)
      requires Valid()
      modifies this, regs
      ensures Done([ConfigurePin, DisableExternalWait, EnableDataReady], err)
    {
      assert [ConfigurePin] + ([DisableExternalWait] + [EnableDataReady]) == [ConfigurePin, DisableExternalWait, EnableDataReady];
      ExecuteInParts([ConfigurePin], [DisableExternalWait] + [EnableDataReady], regs[..], bus, writes);
      err := ConfigureInterruptPin();
      if err != 0 {
        return;
      }
      ExecuteInParts([DisableExternalWait], [EnableDataReady], regs[..], bus, writes);
      err := DisableWaitForExternalData();
      if err != 0 {
        return;
      }
      err := EnableDataReadyInterrupt();
    }

    /** i2c_mpu6050_device_init. */
    method Initialize(nofifo: bool, noirq: bool) returns (err: int)
      requires Valid()
      modifies this, regs
      ensures Done(Program(nofifo, noirq), err)
      ensures old(writes) == 0 ==> Outcome(err, regs[..], writes) == Init(old(regs[..]), nofifo, noirq, bus)
    {
      ghost var irq := if noirq then [] else [ConfigurePin, DisableExternalWait, EnableDataReady];
      ghost var fifo := if nofifo then [] else [ConfigureFifo, DisableOverflowIrq, EnableFifo];
      ghost var sensors := [EnableThermometer, SetGyroRange, SetAccelRange];
      ghost var sampling := [SetFilter, SetDivider];
      ghost var waking := [DisableSleep, SetClockSource];
      assert Program(nofifo, noirq) == waking + (sampling + (sensors + (fifo + irq)));
      ExecuteInParts(waking, sampling + (sensors + (fifo + irq)), regs[..], bus, writes);
      err := WakeUp();
      if err != 0 {
        return;
      }
      ExecuteInParts(sampling, sensors + (fifo + irq), regs[..], bus, writes);
      err := SetSampling();
      if err != 0 {
        return;
      }
      ExecuteInParts(sensors, fifo + irq, regs[..], bus, writes);
      err := SetSensors();
      if err != 0 {
        return;
      }
      ExecuteInParts(fifo, irq, regs[..], bus, writes);
      if !nofifo {
        err := SetUpFifo();
        if err != 0 {
          return;
        }
      }
      if !noirq {
        err := SetUpInterrupts();
      }
    }
  }
}
