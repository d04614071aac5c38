# Olimex MPU-6050 driver: a verified model

A Dafny model of the stateful core of the MPU-6050 software: the MSP430 system layer (millisecond clock,
interrupt-driven I2C master, GPIO interrupts), the Linux kernel driver (sampling ring, sender threads, device
configuration) and the queues of the viewer. `dafny verify dfyconfig.toml` checks all of it.

Every component is given twice. A value-level specification (a state datatype and step functions) says what
one step does, and lemmas prove what holds over whole runs. A class with the source's own fields and loops is
proved, method by method, to do exactly those steps.

| files | component |
|---|---|
| `Words.dfy` | machine words and their wrap-around |
| `Clock.dfy`, `ClockSteps.dfy`, `DelaySteps.dfy` | timestamp, one-shot countdown, blocking delay; class `MsClock`; the calls store by store, and the delay look by look, under interrupts |
| `I2c.dfy`, `I2cData.dfy`, `I2cMaster.dfy` | the transfer state machine on a bus with a register-file slave; what acknowledged transfers move; class `Master` |
| `I2cSteps.dfy`, `I2cTiming.dfy`, `I2cAsleep.dfy` | a transfer call statement by statement under interrupts: what every interleaving keeps, how long it waits, and its runs with interrupts only during sleep |
| `Readout.dfy`, `Ring.dfy` | sample decoding; ring, FIFO drain and the history the ring refines; class `ClientData` |
| `Pipeline.dfy`, `Records.dfy`, `Handshake.dfy`, `Shutdown.dfy` | producer, clear and two sender threads, interleaved statement by statement; what is in their records; their shutdown, and whether it ends |
| `Viewer.dfy`, `ViewerQueues.dfy` | the event queue and the message stack; class `Queues` |
| `Device.dfy`, `DeviceDriver.dfy` | the restartable configuration sequence; class `Mpu6050` |
| `Gpio.dfy`, `GpioSteps.dfy`, `GpioDriver.dfy` | the registry of pin callbacks and the ports' masks; a registration store by store; class `Interrupts` |

Inputs that the program takes from outside are parameters: the interrupts that wake the processor, the
schedule of the threads, block-read results, write errors, signals, the current time, whether a message could
be duplicated. The bus trace follows the I2C-bus specification, NXP UM10204, sections 3.1.4, 3.1.6 and 3.1.10.

## Where the code differs from what it says

The model follows the code.

- A NACK ends an I2C transfer, and the call returns 0 (`src/ko/3rd_party/msp430/msp430_i2c.c:258-260`; I2cData.SuccessMeansDoneUnlessRefused).
- The I2C deadline is compared without regard to wrap-around (`src/ko/3rd_party/msp430/msp430_i2c.c:195`; I2c.EarlyTimeoutExactlyWhenDeadlineWraps).
- The timer's count is said to be made evenly divisible; adding the remainder does not do that
  (`src/ko/3rd_party/msp430/msp430_clock.c:212-213,229-233`; Clock.SlowTimerKeepsDivisibilityExactly, Clock.RegisteredCallbackOnTimeExactly).
- The timer interrupt calls whatever callback is stored, but registration and cancellation store callback and
  countdown one after the other with the interrupt enabled (`src/ko/3rd_party/msp430/msp430_clock.c:224-225,232-234`;
  ClockSteps.RegistrationCallsNullExactly, ClockSteps.CancellationWindow).
- A tick between the look at the clock and the sleep wakes nobody, so that a delay can take longer than its ticks
  (`src/ko/3rd_party/msp430/msp430_clock.c:198-199`; DelaySteps.LooseDelayExactly, DelaySteps.OneMillisecondTakesTwo).
- At the end of the 32-bit range ticks can step over the I2C deadline (I2cTiming.LooseLoopExactly, I2c.TransferEndsExactly).
- A finished transfer is given up when the look at the clock comes too late (`src/ko/3rd_party/msp430/msp430_i2c.c:193-195`;
  I2cTiming.FinishedCallIsGivenUp), and one that is given up can still store a byte (I2cSteps.RecoveryStillStores).
- The largest sensor ranges are shifted by the upper bit of their field (`src/ko/olimex_mod_mpu6050_device.c:585,621`; Device.LargestRangeExactly).
- The thermometer is said to be enabled; the condition masks out the bit it looks for (`src/ko/olimex_mod_mpu6050_device.c:549`;
  Device.ThermometerStaysDisabledExactly).
- The kernel's decoder swaps all words but the temperature (`src/ko/olimex_mod_mpu6050_device.c:59`; Readout.TemperatureIsRightExactly).
- In register mode a failed block read only warns, its slot stays in use, and it is sent with the error as its size
  (`src/ko/olimex_mod_mpu6050_wq.c:127-131`; Records.FailedReadIsSent, Records.SizeTellsReplies).
- FIFO reads can add up to more than the slot holds, and the sum is the size that is sent
  (`src/ko/olimex_mod_mpu6050_wq.c:114`; Records.OversizedRecordIsSent).
- A pin's falling-edge bit is set for active-low pins and never taken back (`src/ko/3rd_party/msp430/msp430_interrupt.c:209`; Gpio.RegisteringSetsItsPin).
- A thread that cannot allow its signal leaves `running` set, and its shutdown waits for ever
  (`src/ko/olimex_mod_mpu6050_server.c:62-66`; Shutdown.ShutdownCanEndExactly).
- A shutdown that comes before `running` is set does not wait (`src/ko/olimex_mod_mpu6050_server.c:339`;
  Handshake.EarlyFreeExactlyWhenImproper).
- Removing a pin takes its callback before its interrupt (`src/ko/3rd_party/msp430/msp430_interrupt.c:202,224`;
  GpioSteps.NoCallbackExactlyInRemoval).
- Messages are taken newest first while their events are taken oldest first (`src/test_u/olimex_mod_mpu6050_eventhandler.cpp:107-108`;
  Viewer.PendingTogetherLaterFirst).

## Model

| member | source | states |
|---|---|---|
| Clock.NeverCallsNull | src/ko/3rd_party/msp430/msp430_clock.c:55-65 | In every run of interrupts and whole calls that no interrupt breaks into, a null callback is never called: a running countdown always has a callback. |
| Clock.TimestampCountsInterrupts | src/ko/3rd_party/msp430/msp430_clock.c:57-58 | After any run of interrupts and whole calls the timestamp has moved on by k1 + 1999*k2 modulo 2^32 for k1 fast and k2 slow interrupts. |
| Clock.CompareCountsInterrupts | src/ko/3rd_party/msp430/msp430_clock.c:57 | In a run of interrupts and whole calls the periods of the interrupts sum to 32 ticks per fast and 65535 per slow one, independently of the timestamp. |
| Clock.CompareIsKept | src/ko/3rd_party/msp430/msp430_clock.c:57 | After any run of interrupts and whole calls the compare register is what the last mode change or enable stored, 32 or 0xFFFF, plus all that the interrupts since have added, modulo 2^16. |
| Clock.CallsDecideSettings | src/ko/3rd_party/msp430/msp430_clock.c:203-236 | After any run the clock runs exactly if it was enabled last, steps as it was told last, and keeps the callback that was registered last. |
| Clock.CallsKeepTheRest | src/ko/3rd_party/msp430/msp430_clock.c:67-122 | No call moves the timestamp or calls a callback; enabling, disabling and going back to fast mode keep the countdown; a stopped clock does nothing. |
| Clock.DriftIsExact | src/ko/3rd_party/msp430/msp430_clock.c:206-217 | In a run of interrupts and whole calls, exactly until the elapsed time reaches 2^32 ms, the timestamp is off from its summed compare increments by 768 units per fast and -31768 per slow interrupt, in 1/32768 ms; and if no call has stored the compare register anew, it holds 32 plus these increments. |
| Clock.CountdownValue | src/ko/3rd_party/msp430/msp430_clock.c:59-63 | Until it reaches zero the countdown is r - n*step modulo 2^32 after n interrupts, and it fires nothing, also while it is wrapped below zero. |
| Clock.FiresOnceOnTime | src/ko/3rd_party/msp430/msp430_clock.c:59-63 | A countdown that is a multiple of the step calls its callback on interrupt r/step, once, and stays silent for ever after. |
| Clock.FiresOnTimeExactlyForMultiples | src/ko/3rd_party/msp430/msp430_clock.c:59-63 | The callback comes at the first interrupt at or after its time if and only if the countdown is a multiple of the step; otherwise it stays silent through the whole 32-bit range. |
| Clock.FiresExactlyOnce | src/ko/3rd_party/msp430/msp430_clock.c:59-63 | Every countdown, however often it wraps, calls its callback on exactly one interrupt and is silent before and after. |
| Clock.FiringTickExactly | src/ko/3rd_party/msp430/msp430_clock.c:59-63 | That interrupt is number r/step for a multiple of the step, and comes only after another 2^32 ms for anything else. |
| Clock.RegisteredCallbackFiresAfterItsDelay | src/ko/3rd_party/msp430/msp430_clock.c:221-236 | At 1 ms per interrupt a registered callback is called by interrupt num_ms after registration and by no other. |
| Clock.RegisteredCallbackOnTimeExactly | src/ko/3rd_party/msp430/msp430_clock.c:229-234 | In any mode, also where the sum wraps, a registered callback is on time if and only if delay plus left-over of the replaced countdown is a multiple of the step: the divisibility the comment relies on, as an exact condition. |
| Clock.SlowTimerKeepsDivisibilityExactly | src/ko/3rd_party/msp430/msp430_clock.c:211-213 | Switching to slow mode yields a multiple of 1999 exactly if the countdown was one already, or is 2^32-1926, where the addition wraps to zero and cancels it. |
| Clock.EveryTimeIsShown | src/ko/3rd_party/msp430/msp430_clock.c:198 | The wrapping 32-bit clock passes through every elapsed value, so the loop condition of a delay becomes false for every argument. |
| Clock.DelayIsWrapSafeExactly | src/ko/3rd_party/msp430/msp430_clock.c:193-201 | If interrupts come only while the processor sleeps: from any start timestamp a delay takes ceil(num/step) interrupts if and only if that many steps stay below 2^32, and never returns early. |
| Clock.TicksAdvance | src/ko/3rd_party/msp430/msp430_clock.c:57-58 | n interrupts move the timestamp on by the time they show, modulo 2^32, and keep the step. |
| Clock.MsClock.constructor | src/ko/3rd_party/msp430/msp430_clock.c:157-164 | Initialisation leaves the clock running at 1 ms from timestamp zero without a callback. |
| Clock.MsClock.Isr | src/ko/3rd_party/msp430/msp430_clock.c:55-65 | The interrupt routine takes the clock to the next state of the specification, compare register included, and logs the callback that it calls. |
| Clock.MsClock.EnableClock | src/ko/3rd_party/msp430/msp430_clock.c:67-100 | Enabling an enabled clock changes nothing; otherwise the fast step pair is set and the countdown kept. |
| Clock.MsClock.DisableClock | src/ko/3rd_party/msp430/msp430_clock.c:102-122 | Disabling stops interrupts and changes nothing else. |
| Clock.MsClock.SlowDown | src/ko/3rd_party/msp430/msp430_clock.c:203-220 | With interrupts masked, both step sizes change together, so that interrupts, timestamp and countdown go on in the same unit. |
| Clock.MsClock.RegisterCallback | src/ko/3rd_party/msp430/msp430_clock.c:221-236 | With interrupts masked, a null callback or a zero delay cancels, and otherwise callback and countdown are replaced together. |
| Clock.MsClock.Delay | src/ko/3rd_party/msp430/msp430_clock.c:193-201 | If interrupts come only while the processor sleeps: the wait loop ends, after exactly the specified number of interrupts; a disabled clock returns -1 at once. |
| DelaySteps.NoDelayReturnsEarly | src/ko/3rd_party/msp430/msp430_clock.c:195-200 | In every interleaving of interrupts with looks and sleeps, a delay that is over has taken at least its time. |
| DelaySteps.AsleepDelayIsExact | src/ko/3rd_party/msp430/msp430_clock.c:193-201 | If interrupts come only while the processor sleeps, the steps of a delay end after exactly the specified ticks in exactly the specified state. |
| DelaySteps.LooseDelayExactly | src/ko/3rd_party/msp430/msp430_clock.c:198-199 | With at most one interrupt beside the waking one between two looks, every schedule of a delay is over after ceil(num/step) or one more ticks if and only if that many and one more steps stay below 2^32. |
| DelaySteps.OneMillisecondTakesTwo | src/ko/3rd_party/msp430/msp430_clock.c:198-199 | A run in which the tick that would end a delay of a millisecond comes between the look and the sleep, and the delay takes two. |
| ClockSteps.MaskedCallIsOneEvent | src/ko/3rd_party/msp430/msp430_clock.c:67-122 | With interrupts masked, the single reads and stores of each call add up to the whole call of the specification. |
| ClockSteps.MaskedInitialisation | src/ko/3rd_party/msp430/msp430_clock.c:157-164 | With interrupts masked, initialising a clock in any state leaves it enabled at timestamp zero with neither countdown nor callback. |
| ClockSteps.StepsKeepInv | src/ko/3rd_party/msp430/msp430_clock.c:203-236 | In every interleaving of interrupts with single reads and stores, a running countdown has a callback except between the two stores of a registration, cancellation or initialisation. |
| ClockSteps.NullIsCalledExactlyBetweenStores | src/ko/3rd_party/msp430/msp430_clock.c:224-234 | In every interleaving an interrupt calls a null callback if and only if it falls between the two stores of a registration, cancellation or initialisation, none is stored, and one step is left to count. |
| ClockSteps.UndisturbedNeverCallsNull | src/ko/3rd_party/msp430/msp430_clock.c:221-236 | If no interrupt falls between those two stores, no run calls a null callback, wherever else interrupts fall. |
| ClockSteps.RegistrationWindow | src/ko/3rd_party/msp430/msp430_clock.c:232-234 | With k interrupts between the stores of a registration, a countdown that runs out there calls the callback stored before, or null, and the new callback is left without a countdown. |
| ClockSteps.RegistrationCallsNullExactly | src/ko/3rd_party/msp430/msp430_clock.c:232-234 | Those k interrupts call a null callback if and only if the clock runs, none was stored before, and the countdown is a multiple of the step of at most k steps. |
| ClockSteps.CancellationWindow | src/ko/3rd_party/msp430/msp430_clock.c:224-225 | With k interrupts between the stores of a cancellation, null is called exactly if the old countdown runs out there. |
| ClockSteps.InitialisationWindow | src/ko/3rd_party/msp430/msp430_clock.c:161-163 | With k interrupts between the last two stores of an initialisation of a running clock, null is called exactly if the old countdown runs out there. |
| ClockSteps.NullIsCalled | src/ko/3rd_party/msp430/msp430_clock.c:221-236 | Two runs that call null: one millisecond registered on a fresh clock, and the same cancelled. |
| ClockSteps.SwitchForgetsInterrupts | src/ko/3rd_party/msp430/msp430_clock.c:212-213 | Interrupts between reading and storing the countdown of a mode change are lost on it, and a callback that they call is due again. |
| ClockSteps.SizesDifferOnlyInSwitch | src/ko/3rd_party/msp430/msp430_clock.c:206-217 | In every interleaving the two step sizes go together except between their stores in a change of mode. |
| ClockSteps.IncrementsInEveryInterleaving | src/ko/3rd_party/msp430/msp430_clock.c:57 | In every interleaving the increments sum by the tick size in force at each interrupt, the mixed ones of a mode change included. |
| ClockSteps.TimestampInEveryInterleaving | src/ko/3rd_party/msp430/msp430_clock.c:58 | In every interleaving the timestamp moves by the millisecond size in force at each interrupt, modulo 2^32, from its last initialisation on. |
| ClockSteps.CompareInEveryInterleaving | src/ko/3rd_party/msp430/msp430_clock.c:57 | In every interleaving the compare register is what was stored in it last plus all that the interrupts since have added, modulo 2^16. |
| ClockSteps.DriftInEveryInterleaving | src/ko/3rd_party/msp430/msp430_clock.c:206-217 | In every interleaving, exactly until 2^32 ms, the timestamp is off from its summed compare increments by 768 per fast, -31768 per slow, -65502232 and 65471232 per mixed interrupt, in 1/32768 ms; without a mode change or initialisation the compare register holds 32 plus these increments. |
| I2c.Interrupt | src/ko/3rd_party/msp430/msp430_i2c.c:255-326 | Every interrupt in every reachable state keeps the protocol invariant: state and bus phase agree, STOP is requested exactly while one byte is to be received, and all buffer accesses stay inside the caller's buffer. |
| I2c.RefusalRequestsStop | src/ko/3rd_party/msp430/msp430_i2c.c:258-261 | The NACK branch ends the transfer and requests a STOP, and does nothing else; the bus gets its STOP because it is requested. |
| I2c.EnabledUntilDisabled | src/ko/3rd_party/msp430/msp430_i2c.c:120-168 | Enabling a driver at rest makes it ready, disabling makes it refuse every call, and neither touches memory, slave or clock. |
| I2c.ProtocolMakesProgress | src/ko/3rd_party/msp430/msp430_i2c.c:262-312 | Every protocol interrupt of an unfinished transfer brings it one interrupt nearer to its end. |
| I2c.AwaitRests | src/ko/3rd_party/msp430/msp430_i2c.c:191-209 | However the wait loop is woken, when it returns the driver is enabled and WAITING, and while it has not the invariant holds. |
| I2c.RecoverRests | src/ko/3rd_party/msp430/msp430_i2c.c:195-207 | The recovery in one go (STOP requested, disable, delay, both lines low, delay, both high, enable) ends enabled and WAITING; it shows exactly this on the pins and leaves memory and slave alone. |
| I2c.EveryReturnRests | src/ko/3rd_party/msp430/msp430_i2c.c:170-252 | Every return of a call, success, refusal or timeout, leaves the driver WAITING and as enabled as before; a disabled driver returns -1, a call of no bytes 0, and neither changes anything. |
| I2c.AwaitEnds | src/ko/3rd_party/msp430/msp430_i2c.c:192-208 | With the clock running in either mode and interrupts only during sleep, a wait ends within the ticks plus interrupts it has left, unless a tick can step over the deadline. |
| I2c.TransferEnds | src/ko/3rd_party/msp430/msp430_i2c.c:191-209 | If interrupts come only during sleep, a transfer of n bytes ends within 2500 + n + 2 of them in fast mode and 2 + n + 2 in slow mode, in any order, unless a tick can step over the deadline. |
| I2c.TransferEndsExactly | src/ko/3rd_party/msp430/msp430_i2c.c:195 | So many interrupts are enough for every schedule with interrupts only during sleep if and only if no tick can step over the deadline: always in fast mode, and in slow mode except for starts from 2^32-3998 to 2^32-2501. |
| I2c.TimeoutTakesItsTime | src/ko/3rd_party/msp430/msp430_i2c.c:233-249 | With an unwrapped deadline, -1 means that the ticks of the wait span at least 2500 ms. |
| I2c.EarlyTimeoutExactlyWhenDeadlineWraps | src/ko/3rd_party/msp430/msp430_i2c.c:195 | Some schedule makes an enabled call of non-zero length return -1 before 2500 ms if and only if start + 2500 does not fit in 32 bits. |
| I2cData.WriteStep | src/ko/3rd_party/msp430/msp430_i2c.c:275-293 | After k interrupts of a write exactly the register and the first k-1 data bytes have been sent in order; STOP comes once, after all of them. |
| I2cData.ReadStep | src/ko/3rd_party/msp430/msp430_i2c.c:262-312 | After k interrupts of a read the buffer holds exactly the k-2 bytes received; STOP is requested exactly while one byte is missing, for one byte as for many. |
| I2cData.TransferStep | src/ko/3rd_party/msp430/msp430_i2c.c:255-326 | An acknowledged transfer of n bytes is active before its interrupt n+2 and over after it. |
| I2cData.LateInterruptIsIdle | src/ko/3rd_party/msp430/msp430_i2c.c:313-315 | A transmit interrupt that comes after the end changes nothing. |
| I2cData.AnyInterleavingFollowsTransfer | src/ko/3rd_party/msp430/msp430_i2c.c:255-326 | With ticks and ignored vectors anywhere between them, only the number of protocol interrupts decides where driver, bus and buffer are; those beyond n+2 change nothing. |
| I2cData.OneWake | src/ko/3rd_party/msp430/msp430_i2c.c:255-326 | One wake-up other than a NACK moves a transfer on by one step if it is its own, and otherwise touches only the clock. |
| I2cData.AwaitFollowsTransfer | src/ko/3rd_party/msp430/msp430_i2c.c:192-209 | A wait that returns 0 has seen all interrupts of its transfer, or ends in a refused byte and a STOP. |
| I2cData.SuccessMeansDoneUnlessRefused | src/ko/3rd_party/msp430/msp430_i2c.c:258-261 | A call that returns 0 has moved all its bytes if and only if no byte was refused before it returned: a NACK ends the transfer but not with an error. |
| I2cData.AcknowledgedExactly | src/ko/3rd_party/msp430/msp430_i2c.c:191-209 | If interrupts come only during sleep, a call returns 0 unrefused if and only if some first part of them brings all n+2 interrupts, no NACK and less than 2500 ms; the only-if needs that no tick steps over the deadline. |
| I2cData.WriteStoresData | src/ko/3rd_party/msp430/msp430_i2c.c:170-210 | An acknowledged write puts START, register, data in order and one STOP on the bus and nothing else; exactly these registers of the slave change. |
| I2cData.ReadFetchesData | src/ko/3rd_party/msp430/msp430_i2c.c:212-252 | An acknowledged read puts one repeated START and one STOP on the bus, acknowledges all bytes but the last, fills exactly the caller's buffer, and changes neither other memory nor the slave's registers. |
| I2cData.WriteThenReadRoundTrips | src/ko/3rd_party/msp430/msp430_i2c.c:170-326 | Reading back n bytes after writing them returns them, at any register, also across the end of the 8-bit register range, for any interleaving of either call. |
| I2cData.ReadThenWriteRestoresSlave | src/ko/3rd_party/msp430/msp430_i2c.c:170-326 | Writing back what was read leaves the slave's registers as they were. |
| I2cData.StoredAt | src/ko/3rd_party/msp430/msp430_i2c.c:279-289 | What a write leaves in each of the slave's 256 registers: its byte where one belongs, the old value elsewhere. |
| I2cSteps.EveryInterleavingRests | src/ko/3rd_party/msp430/msp430_i2c.c:170-252 | In every interleaving of interrupts with looks, sleeps and recovery statements, a call that has returned leaves the driver enabled and WAITING. |
| I2cSteps.InterruptsAreTaken | src/ko/3rd_party/msp430/msp430_i2c.c:191-209 | At every moment of a call until its return an interrupt is taken, and wakes the processor if it sleeps; only a clock that is off raises none. |
| I2cSteps.EveryMomentIsPartial | src/ko/3rd_party/msp430/msp430_i2c.c:170-326 | At every moment of every interleaving, through refusal, timeout and recovery, some first k bytes have been moved as they should be, and nothing else has changed in memory or in the slave's registers. |
| I2cSteps.RecoveryStillStores | src/ko/3rd_party/msp430/msp430_i2c.c:195-198 | A byte that comes in after the look that gives up, and before the interface is reset, is still stored in the caller's buffer. |
| I2cSteps.ReturnTellsLooks | src/ko/3rd_party/msp430/msp430_i2c.c:192-209 | In every interleaving a call returns 0 if and only if all its looks at the clock were below the deadline, and -1 if and only if the last was not; 0 means finished if and only if nothing was refused; -1 means 2500 ms have passed if the deadline fits in 32 bits. |
| I2cTiming.LooseLoopExactly | src/ko/3rd_party/msp430/msp430_i2c.c:191-209 | With the clock running and at most one interrupt beside the waking one between two looks at it, every schedule leaves the loop within 2500 (slow mode: 2) + 1 + n + 2 interrupts if and only if no two ticks can step over the deadline, as long as the transfer is not over when the clock is sampled. |
| I2cTiming.UnsafeStarts | src/ko/3rd_party/msp430/msp430_i2c.c:195 | The starts that this shuts out: 2^32-2501 in fast mode, 2^32-5997 to 2^32-2501 in slow mode. |
| I2cTiming.FinishedCallIsGivenUp | src/ko/3rd_party/msp430/msp430_i2c.c:193-195 | With the clock running and a deadline that fits and is safe, every transfer has a schedule in which it is finished in time and unrefused, and given up all the same, because a tick comes between the last interrupt and the look at the clock. |
| I2cAsleep.RecoveryTakesTwoTicks | src/ko/3rd_party/msp430/msp430_i2c.c:199-204 | With the clock running one tick passes before the recovery pulls the lines low, and one before it lets them go. |
| I2cAsleep.EveryRecoveryReturns | src/ko/3rd_party/msp430/msp430_i2c.c:196-206 | In every interleaving a call that has left its loop can return: from every moment of a recovery its own statements and a few ticks end it. |
| I2cAsleep.AsleepLoopIsAwait | src/ko/3rd_party/msp430/msp430_i2c.c:192-209 | If interrupts come only during sleep, the single steps of the loop do what the wait is specified to do with them. |
| I2cAsleep.AsleepRecoveryIsRecover | src/ko/3rd_party/msp430/msp430_i2c.c:196-206 | If interrupts come only during sleep, the single steps of the recovery, delays included, add up to the specified recovery. |
| I2cMaster.Master.constructor | src/ko/3rd_party/msp430/msp430_i2c.c:82-84 | At power-on the driver is disabled and at rest. |
| I2cMaster.Master.NakIsr | src/ko/3rd_party/msp430/msp430_i2c.c:258-261 | The NACK branch ends the transfer and requests STOP, upon which alone the bus model sends one. |
| I2cMaster.Master.RxIsr | src/ko/3rd_party/msp430/msp430_i2c.c:262-274 | The receive branch stores the byte, moves the pointer, and requests STOP or ends the transfer by the count that is left. |
| I2cMaster.Master.TxIsr | src/ko/3rd_party/msp430/msp430_i2c.c:275-317 | The transmit branch takes driver and bus to the specified next state in all three states. |
| I2cMaster.Master.Wake | src/ko/3rd_party/msp430/msp430_i2c.c:255-326 | Hardware before the routine, routine and hardware after it together make the specified step. |
| I2cMaster.Master.EnableI2c | src/ko/3rd_party/msp430/msp430_i2c.c:120-156 | Enabling resets driver and interface, once. |
| I2cMaster.Master.DisableI2c | src/ko/3rd_party/msp430/msp430_i2c.c:158-168 | Disabling resets the interface and drives both lines high, once. |
| I2cMaster.Master.GiveUp | src/ko/3rd_party/msp430/msp430_i2c.c:195-206 | If interrupts come only during its delays, the statements of the timeout branch do the specified recovery. |
| I2cMaster.Master.WaitForTransfer | src/ko/3rd_party/msp430/msp430_i2c.c:191-209 | If interrupts come only during sleep, the loop returns what the specification of the wait says, with the same state, code and number of wake-ups. |
| I2cMaster.Master.Write | src/ko/3rd_party/msp430/msp430_i2c.c:170-210 | The call as a whole is the specified transfer, about which the lemmas above speak. |
| I2cMaster.Master.Read | src/ko/3rd_party/msp430/msp430_i2c.c:212-252 | The same for reading. |
| Ring.JumpingIsLooping | src/ko/olimex_mod_mpu6050_wq.c:97-141 | The drain with its two labels and jumps equals one structured loop, from either label. |
| Ring.DrainEnds | src/ko/olimex_mod_mpu6050_wq.c:97-116 | If every read returns between 1 and B bytes, a drain of B bytes ends within B reads and counts at least B and fewer than 2B bytes. |
| Ring.DrainCompletesExactly | src/ko/olimex_mod_mpu6050_wq.c:97-116 | As long as no read fails, a drain completes exactly when the reads add up to enough, so empty reads keep it going. |
| Ring.SampleIsUsedExactly | src/ko/olimex_mod_mpu6050_wq.c:56-151 | A finished run leaves its slot in use exactly in register mode or after a complete drain of a non-empty FIFO; in register mode a failed read leaves the error as the size of a used slot. |
| Ring.DrainKeepsLastBytes | src/ko/olimex_mod_mpu6050_wq.c:103-106 | Every byte that a drain leaves in the slot is that of the last reply that reached it, or the old one if none did. |
| Ring.SampleKeepsLastBytes | src/ko/olimex_mod_mpu6050_wq.c:67-132 | What a finished run has put into its slot, byte by byte, in both modes: the reply of a register read, the last reply of a drain that reached the byte, and else what was there. |
| Ring.RunExtendsHistory | src/ko/olimex_mod_mpu6050_wq.c:58-65 | Adding a run keeps the refinement: position (k-1) mod 64, the last 64 runs in their slots; only the run 64 before it goes. |
| Ring.ClearForgetsNothingElse | src/ko/olimex_mod_mpu6050_sysfs.c:207-210 | A clear forgets the marks of the runs before it and none of their data, sizes and times. |
| Ring.SenderTestIsHasNews | src/ko/olimex_mod_mpu6050_server.c:141-142 | The senders' test on the ring is true exactly if the newest run left its slot in use and has not been cleared, and the slot then is that run. |
| Ring.ClientData.constructor | src/ko/olimex_mod_mpu6050_types.h:50 | The ring starts with 64 unused slots and stands for an empty history. |
| Ring.ClientData.ReadHandler | src/ko/olimex_mod_mpu6050_wq.c:56-150 | The handler changes exactly the next slot, to the specified sample, extends the history by it, and holds the lock afterwards exactly if it has not returned; in register mode the slot holds the bytes read. |
| Ring.ClientData.DrainFifo | src/ko/olimex_mod_mpu6050_wq.c:97-116 | The in-place loop does the specified drain on one slot and leaves all others alone. |
| Ring.ClientData.TakeNewest | src/ko/olimex_mod_mpu6050_server.c:138-175 | Under the lock a sender finds the newest run whole, as bytes and as readings, exactly if there is news; the lock is released on both paths. |
| Ring.ClientData.ReadNewest | src/ko/olimex_mod_mpu6050_sysfs.c:252-291 | The sysfs read decodes the newest run exactly if it left its slot in use and has not been cleared, and releases the lock on both paths. |
| Ring.ClientData.Clear | src/ko/olimex_mod_mpu6050_sysfs.c:192-211 | The loop clears the marks of all 64 slots and nothing else, and keeps the refinement. |
| Readout.MotionIsBigEndian | src/ko/olimex_mod_mpu6050_device.c:38-75 | Each motion channel is the big-endian two's-complement value of its two bytes. |
| Readout.TemperatureIsRightExactly | src/ko/olimex_mod_mpu6050_device.c:59 | The kernel's temperature is the value the device stores, and what the viewer decodes, if and only if both its bytes are equal. |
| Readout.EncodeIsBigEndian | src/ko/olimex_mod_mpu6050_device.c:36-75 | The device's side of the round trip: each reading stands in its two bytes, upper byte first. |
| Readout.ExtractUndoesEncode | src/test_u/olimex_mod_mpu6050_common.cpp:28-67 | Decoding what the device encodes gives the readings back; in the kernel up to the byte order of the temperature. |
| Readout.EncodeUndoesExtract | src/ko/olimex_mod_mpu6050_device.c:29-75 | The readings determine all fourteen bytes: encoding them again gives the block back, in the kernel with the temperature's bytes exchanged. |
| Readout.ExtractData | src/ko/olimex_mod_mpu6050_device.c:29-75 | The pointer walk yields the specified readings in their order. |
| Pipeline.ProducerKeepsInv | src/ko/olimex_mod_mpu6050_wq.c:56-151 | Every single statement of the producer keeps ring, lock, copies and log consistent, also in the middle of its run. |
| Pipeline.ClearKeepsInv | src/ko/olimex_mod_mpu6050_sysfs.c:207-210 | So does every statement of a clear, with part of the slots done. |
| Pipeline.SenderKeepsInv | src/ko/olimex_mod_mpu6050_server.c:121-179 | So does every statement of a sender: what it has copied belongs to the newest slot, and what it sends is honest. |
| Pipeline.RunKeepsInv | src/ko/olimex_mod_mpu6050_wq.c:56-151 | The invariant holds along every interleaving of all threads. |
| Pipeline.EveryRecordIsTheNewestRun | src/ko/olimex_mod_mpu6050_netlink.c:204-230 | In every interleaving every record sent is the newest completed run at that moment, whole, left in use, not cleared since; records never go back to an older run. |
| Pipeline.RingRefinesHistory | src/ko/olimex_mod_mpu6050_wq.c:58-65 | In every interleaving, whenever neither producer nor clear is at work, the ring refines the history of runs. |
| Pipeline.ClearStepsClear | src/ko/olimex_mod_mpu6050_sysfs.c:207-210 | Left alone, the single steps of a clear take the mark from all 64 slots, change nothing else of them, and give the lock back. |
| Pipeline.DrainStepsDrain | src/ko/olimex_mod_mpu6050_wq.c:97-116 | The producer's single steps through labels and loop do the specified drain. |
| Pipeline.ProducerStepsSample | src/ko/olimex_mod_mpu6050_wq.c:56-150 | The producer's single steps from lock to unlock refine the specified atomic sample: same slot, same lock, one run more. |
| Records.EveryRunIsASample | src/ko/olimex_mod_mpu6050_wq.c:56-151 | In every interleaving what each completed run leaves in its slot is the specified sample of what it read from the device, in both modes, and every byte that of the last reply that reached it. |
| Records.RecordHoldsReplies | src/ko/olimex_mod_mpu6050_wq.c:103-106 | In every interleaving every byte of a record is that of the last reply of its run that reached it; a run that read all fourteen bytes in one reply sends these. |
| Records.WholeSampleArrives | src/ko/olimex_mod_mpu6050_netlink.c:275-278 | So such a record decodes to the device's readings, to the viewer all seven and to netlink listeners all but the temperature. |
| Records.EverySenderSends | src/ko/olimex_mod_mpu6050_netlink.c:187-234 | For either thread, in every reachable state at its check without a signal, with the lock free and news in the ring: its own steps send exactly the newest run once and bring it back to its check with the lock free. |
| Records.NoNewsIsNotSent | src/ko/olimex_mod_mpu6050_server.c:138-147 | Without news, or without delivery, the same steps send nothing and change nothing. |
| Records.ThreadStarts | src/ko/olimex_mod_mpu6050_server.c:49-105 | A starting thread comes to its loop, leaves in order when the UDP socket cannot be created, and returns with running set when it cannot allow its signal. |
| Records.SizeTellsReplies | src/ko/olimex_mod_mpu6050_server.c:154-157 | In every interleaving a record's size is the sum of its run's replies: not negative exactly if the reads succeeded; from the FIFO it is at least the count, and with replies up to the count below twice the count, so 1 to 14 for counts up to 7. |
| Records.SampleIsSent | src/ko/olimex_mod_mpu6050_server.c:138-157 | Every sample that leaves its slot in use is sent with its bytes and size, by either thread from its start. |
| Records.FailedReadIsSent | src/ko/olimex_mod_mpu6050_wq.c:122-131 | A run in which a failed register read is sent, with the error as its size. |
| Records.OversizedRecordExactly | src/ko/olimex_mod_mpu6050_wq.c:97-116 | With replies between one byte and the count, a record of more than 14 bytes is possible if and only if the count is at least 8, and whenever it is left in use it is sent. |
| Records.OversizedRecordIsSent | src/ko/olimex_mod_mpu6050_wq.c:97-116 | A run in which two FIFO reads of 13 bytes for a count of 14 are sent as 26 bytes. |
| Handshake.RunKeepsThreads | src/ko/olimex_mod_mpu6050_server.c:55-187 | In every interleaving running is set exactly from a thread's start to its last statement, and for ever if the thread returned because it could not allow its signal. |
| Handshake.RecordIsFreedAfterLastAccess | src/ko/olimex_mod_mpu6050_server.c:331-346 | If shutdowns begin after running is set and signals arrive, no interleaving frees a server record before its thread's last access. |
| Handshake.EarlyFreeExactlyWhenImproper | src/ko/olimex_mod_mpu6050_netlink.c:528-556 | From any state before the thread is gone some schedule frees its record too early if and only if the signal fails or running is not set yet. |
| Handshake.AtMostOneRecordAfterSignal | src/ko/olimex_mod_mpu6050_netlink.c:187-190 | After the signal a thread sends at most the record of the loop body it is in. |
| Handshake.SignalledThreadLeaves | src/ko/olimex_mod_mpu6050_server.c:121-187 | After the signal a thread has returned once it has carried out nine statements of its own, whatever the others do. |
| Shutdown.HolderWorks | src/ko/olimex_mod_mpu6050_wq.c:143-150 | Whoever holds the lock in a reachable state can go on, and comes nearer to giving it back. |
| Shutdown.ShutdownCanEndExactly | src/ko/olimex_mod_mpu6050_server.c:331-340 | In every reachable state a waiting shutdown can still end if and only if its thread has not returned because it could not allow its signal; the threads never lock each other out. |
| Shutdown.ShutdownEndsInTime | src/ko/olimex_mod_mpu6050_server.c:339-340 | In every interleaving an orderly shutdown ends at the first look at running after the thread's remaining statements, nine at most, if and only if the thread has not so returned. |
| Shutdown.AbortedShutdownWaitsForEver | src/ko/olimex_mod_mpu6050_server.c:61-66 | A run in which a thread is signalled before it allows the signal and then cannot allow it: running stays set and no continuation ends the shutdown. |
| Viewer.StepKeepsInv | src/test_u/olimex_mod_mpu6050_gtk_callbacks.cpp:1070-1115 | Every step of network side and user interface keeps the two queues coupled and every message accounted for. |
| Viewer.QueuesStayCoupled | src/test_u/olimex_mod_mpu6050_gtk_callbacks.cpp:1094-1099 | In every reachable state before finalisation there are as many message events as messages, so the pop never meets an empty queue; events are handled in arrival order. |
| Viewer.MessagesAreConserved | src/test_u/olimex_mod_mpu6050_eventhandler.cpp:93-109 | Notified messages are always dropped + processed + pending + flushed; each duplicate is released at most once, and all are in the end. |
| Viewer.EveryCallIsAnnounced | src/test_u/olimex_mod_mpu6050_eventhandler.cpp:44-134 | Until finalisation every call of the network side queues its event in order, and every sensor message of an open session is counted, and dropped only if it could not be duplicated. |
| Viewer.DuplicateIsQueued | src/test_u/olimex_mod_mpu6050_eventhandler.cpp:93-109 | A duplicated message is queued in front of the others, together with its event behind the others. |
| Viewer.PendingIsProcessed | src/test_u/olimex_mod_mpu6050_gtk_callbacks.cpp:1070-1226 | In every reachable state that is still processing, as many rounds as there are events handle all of them and consume and release all pending messages, newest first. |
| Viewer.ProcessingStopsExactly | src/test_u/olimex_mod_mpu6050_gtk_callbacks.cpp:1146-1155 | Processing stops for good exactly when a message cannot be printed. |
| Viewer.FinalizingFlushes | src/test_u/olimex_mod_mpu6050_gtk_callbacks.cpp:617-631 | Finalising releases all pending messages, newest first, and is the end. |
| Viewer.PendingTogetherLaterFirst | src/test_u/olimex_mod_mpu6050_eventhandler.cpp:107-108 | Of two messages ever pending together the later is processed or flushed first, over all runs. |
| Viewer.ArrivalOrderExactlyWhenOnePending | src/test_u/olimex_mod_mpu6050_gtk_callbacks.cpp:1096-1098 | Once all are consumed, messages came in arrival order if and only if no two were ever pending together. |
| ViewerQueues.Queues.StartSession | src/test_u/olimex_mod_mpu6050_eventhandler.cpp:44-56 | Starting opens the session and queues one connect event. |
| ViewerQueues.Queues.NotifySensorMessage | src/test_u/olimex_mod_mpu6050_eventhandler.cpp:67-111 | A message is printed, counted as dropped, or queued together with its event. |
| ViewerQueues.Queues.NotifySessionMessage | src/test_u/olimex_mod_mpu6050_eventhandler.cpp:113-123 | A session message queues its event and no message. |
| ViewerQueues.Queues.EndSession | src/test_u/olimex_mod_mpu6050_eventhandler.cpp:125-134 | Ending queues one disconnect event. |
| ViewerQueues.Queues.ProcessEvent | src/test_u/olimex_mod_mpu6050_gtk_callbacks.cpp:1070-1115 | The locked part takes the oldest event and, exactly for a message event, the newest message. |
| ViewerQueues.Queues.ReleaseMessage | src/test_u/olimex_mod_mpu6050_gtk_callbacks.cpp:1146-1226 | The message in hand is released on the error path as on the normal one. |
| ViewerQueues.Queues.FinalizeUi | src/test_u/olimex_mod_mpu6050_gtk_callbacks.cpp:617-631 | The flush loop releases every queued message once, newest first. |
| Device.ExecutePerformsPrefix | src/ko/olimex_mod_mpu6050_device.c:419-814 | However the writes come out, a call has done a prefix of its operations; success means all. |
| Device.ErrorIsFirstFailure | src/ko/olimex_mod_mpu6050_device.c:430-438 | The error returned is that of the first failing write, which is the last one made; with none every operation is done and 0 returned. |
| Device.CallSucceedsExactly | src/ko/olimex_mod_mpu6050_device.c:401-815 | A call succeeds if and only if none of its writes fails, as it does when the first thirteen writes succeed. |
| Device.ExecuteInParts | src/ko/olimex_mod_mpu6050_device.c:419-814 | A sequence stopped in its first part does nothing of the second. |
| Device.RegistersAreIndependent | src/ko/olimex_mod_mpu6050_device.c:419-814 | Each register ends as the operations on it alone would leave it. |
| Device.ProgramSettles | src/ko/olimex_mod_mpu6050_device.c:419-814 | For every earlier value of every register, the operations in order leave the value the configuration table gives. |
| Device.ProgramAbsorbsOperation | src/ko/olimex_mod_mpu6050_device.c:419-814 | Doing any one of the operations beforehand does not change where the whole sequence leads. |
| Device.SuccessConfigures | src/ko/olimex_mod_mpu6050_device.c:419-814 | A successful call leaves all 256 registers as the configuration says, the untouched ones included. |
| Device.AnyCallKeepsDestination | src/ko/olimex_mod_mpu6050_device.c:433-438 | Wherever a call fails, a later successful one leads where it would have led from the start. |
| Device.RestartsReachTheSameConfiguration | src/ko/olimex_mod_mpu6050_device.c:419-814 | After any number of calls failing anywhere, a successful call leaves exactly the register file of one uninterrupted call. |
| Device.ConfiguresInOrder | src/ko/olimex_mod_mpu6050_device.c:480-788 | Wherever a complete call fails, once a register has changed all registers before it in the sequence hold their configuration. |
| Device.WakesUpFirst | src/ko/olimex_mod_mpu6050_device.c:419-478 | No other register changes before the device is awake on its chosen clock. |
| Device.LargestRangeExactly | src/ko/olimex_mod_mpu6050_device.c:583-589 | The largest full-scale range is selected exactly if the lower bit of the range field was set before; otherwise range 2 is. |
| Device.ThermometerStaysDisabledExactly | src/ko/olimex_mod_mpu6050_device.c:549-555 | The thermometer step never writes; a disabled thermometer stays so exactly if the device was not asleep. |
| DeviceDriver.Mpu6050.WriteByte | src/ko/olimex_mod_mpu6050_device.c:430-431 | A write either changes its one register or fails and changes none. |
| DeviceDriver.Mpu6050.DisableSleepMode | src/ko/olimex_mod_mpu6050_device.c:424-440 | Wakes the device and clears the other power bits, exactly if it is asleep. |
| DeviceDriver.Mpu6050.SetClock | src/ko/olimex_mod_mpu6050_device.c:459-478 | Selects the gyroscope clock and keeps the other bits. |
| DeviceDriver.Mpu6050.SetLowPassFilter | src/ko/olimex_mod_mpu6050_device.c:498-517 | Selects the widest bandwidth and keeps the other bits. |
| DeviceDriver.Mpu6050.SetSampleRateDivider | src/ko/olimex_mod_mpu6050_device.c:522-540 | Removes the divider. |
| DeviceDriver.Mpu6050.EnableTemperature | src/ko/olimex_mod_mpu6050_device.c:547-563 | Never writes: the branch that would is shown unreachable. |
| DeviceDriver.Mpu6050.SelectGyroRange | src/ko/olimex_mod_mpu6050_device.c:578-599 | Sets bits 5 and 4, not 4 and 3, unless the range is the largest. |
| DeviceDriver.Mpu6050.SelectAccelRange | src/ko/olimex_mod_mpu6050_device.c:614-635 | The same for the accelerometer. |
| DeviceDriver.Mpu6050.SelectFifoContents | src/ko/olimex_mod_mpu6050_device.c:648-672 | Writes exactly if one of the five sources is missing, and then sets all five. |
| DeviceDriver.Mpu6050.DisableOverflowInterrupt | src/ko/olimex_mod_mpu6050_device.c:679-695 | Clears the whole register exactly if the overflow interrupt was enabled. |
| DeviceDriver.Mpu6050.TurnFifoOn | src/ko/olimex_mod_mpu6050_device.c:702-718 | Sets the enable bit and keeps the others. |
| DeviceDriver.Mpu6050.ConfigureInterruptPin | src/ko/olimex_mod_mpu6050_device.c:733-763 | Always writes, and the chain of masks always comes to 0x10. |
| DeviceDriver.Mpu6050.DisableWaitForExternalData | src/ko/olimex_mod_mpu6050_device.c:772-788 | Clears the whole register exactly if the wait was enabled. |
| DeviceDriver.Mpu6050.EnableDataReadyInterrupt | src/ko/olimex_mod_mpu6050_device.c:795-811 | Leaves only the data-ready bit set, exactly if it was not set. |
| DeviceDriver.Mpu6050.WakeUp | src/ko/olimex_mod_mpu6050_device.c:419-478 | The first group, stopping at the first error with everything before it done. |
| DeviceDriver.Mpu6050.SetSampling | src/ko/olimex_mod_mpu6050_device.c:480-540 | The second group, likewise. |
| DeviceDriver.Mpu6050.SetSensors | src/ko/olimex_mod_mpu6050_device.c:542-635 | The third group, likewise. |
| DeviceDriver.Mpu6050.SetUpFifo | src/ko/olimex_mod_mpu6050_device.c:638-719 | The FIFO group, likewise. |
| DeviceDriver.Mpu6050.SetUpInterrupts | src/ko/olimex_mod_mpu6050_device.c:722-812 | The interrupt group, likewise. |
| DeviceDriver.Mpu6050.Initialize | src/ko/olimex_mod_mpu6050_device.c:401-815 | The whole call has the error, register file and number of writes of the specified sequence, from any register file, with either group left out. |
| Gpio.PinNumbers | src/ko/3rd_party/msp430/msp430_interrupt.c:47-51 | The pin numbers of the header map to their port and to indices 0 to 7. |
| Gpio.BitIsShifted | src/ko/3rd_party/msp430/msp430_interrupt.c:54-57 | A pin's bit is 1 shifted by its index. |
| Gpio.OneBitChanges | src/ko/3rd_party/msp430/msp430_interrupt.c:54-57 | Setting or clearing a pin's bit changes no other bit of a mask. |
| Gpio.RegisteredBits | src/ko/3rd_party/msp430/msp430_interrupt.c:169-179 | The enable loop sets exactly the bits of the pins that have a callback. |
| Gpio.CallKeepsInv | src/ko/3rd_party/msp430/msp430_interrupt.c:153-273 | Every call and interrupt keeps: an enabled pin has a callback, a pin without one has exit mode NONE. |
| Gpio.MasksAgreeWithCallbacks | src/ko/3rd_party/msp430/msp430_interrupt.c:153-273 | After initialisation and any calls the invariant holds, and from each enable until the next disable the enabled pins are exactly those with a callback. |
| Gpio.MasksAreDecidedByCalls | src/ko/3rd_party/msp430/msp430_interrupt.c:153-273 | After initialisation and any calls a pin's interrupt is enabled if and only if it has a callback and was registered, or all were enabled, since the last disable; its flag is raised if and only if it has one and all were enabled since it was last disabled, registered or served. |
| Gpio.DisableAndEnable | src/ko/3rd_party/msp430/msp430_interrupt.c:160-191 | Directly after a disable no interrupt is enabled and no flag raised; directly after an enable both are exactly the pins with a callback; nothing else changes. |
| Gpio.InitialPin | src/ko/3rd_party/msp430/msp430_interrupt.c:153-158 | An initialised pin has no callback, exit mode NONE and no interrupt, and keeps its level, edge, direction and resistor. |
| Gpio.ServingClearsFlag | src/ko/3rd_party/msp430/msp430_interrupt.c:89-94 | Serving an interrupt takes back its pin's flag and changes nothing else. |
| Gpio.ExitModes | src/ko/3rd_party/msp430/msp430_interrupt.c:96-116 | Exit modes 1 to 5 leave low-power modes 0 to 4, and no other value leaves any. |
| Gpio.InterruptIsServed | src/ko/3rd_party/msp430/msp430_interrupt.c:85-117 | After any whole calls and interrupts between them an enabled pin finds the callback registered last, and a pin without callback leaves no low-power mode. |
| GpioSteps.StoresRegister | src/ko/3rd_party/msp430/msp430_interrupt.c:201-235 | Uninterrupted, the nine stores of a registration are the specified registration. |
| GpioSteps.NoCallbackExactlyInRemoval | src/ko/3rd_party/msp430/msp430_interrupt.c:202-225 | Between two stores an enabled interrupt finds no callback exactly if its own pin is being removed and not disabled yet, and it then leaves the old low-power mode. |
| GpioSteps.EmptyWakeUpExactly | src/ko/3rd_party/msp430/msp430_interrupt.c:216-225 | A removal can be interrupted by a wake-up without callback exactly if the pin was enabled with an exit mode. |
| GpioSteps.InterruptInRegistration | src/ko/3rd_party/msp430/msp430_interrupt.c:201-235 | After any whole calls and k stores of one more registration, an enabled interrupt finds the callback its pin was given last, the one being registered included from the first store on. |
| Gpio.RegisteringTouchesOnePin | src/ko/3rd_party/msp430/msp430_interrupt.c:193-273 | Registering a pin changes no bit, callback or exit mode of any other pin of either port. |
| Gpio.RegisteringSetsItsPin | src/ko/3rd_party/msp430/msp430_interrupt.c:203-235 | All bits of the registered pin are as documented, except the edge: it is right exactly if the pin is active-low or its edge bit was clear before. |
| GpioDriver.Interrupts.IntInit | src/ko/3rd_party/msp430/msp430_interrupt.c:153-158 | Initialisation empties the registry and enables what is left, which is nothing. |
| GpioDriver.Interrupts.IntEnable | src/ko/3rd_party/msp430/msp430_interrupt.c:160-182 | The loop over eight pins leaves both ports' masks equal to the registered callbacks. |
| GpioDriver.Interrupts.IntDisable | src/ko/3rd_party/msp430/msp430_interrupt.c:184-191 | All interrupts off and all flags down on both ports, registry kept. |
| GpioDriver.Interrupts.RegIntCb | src/ko/3rd_party/msp430/msp430_interrupt.c:193-273 | The two symmetric branches do the specified registration on the selected port; a pin of neither port changes nothing. |
| GpioDriver.Interrupts.P1Isr | src/ko/3rd_party/msp430/msp430_interrupt.c:85-117 | Calls the registered callback, clears this pin's flag alone, and leaves the mode its exit asks for. |
| GpioDriver.Interrupts.P2Isr | src/ko/3rd_party/msp430/msp430_interrupt.c:119-151 | The same for port 2. |

## Left out

- I2c.Interrupt: does not model flag bits, baud rate, pin modes, arbitration loss or clock stretching; and a NACK comes only during a transfer.
- I2c.AwaitEnds: takes interrupts only while the processor sleeps; interrupts at any other moment are in I2cSteps and I2cTiming.
- I2c.TransferEndsExactly: likewise.
- I2cData.AcknowledgedExactly: likewise; what the looks at the clock see decides in general, by I2cSteps.ReturnTellsLooks.
- I2c.TransferEnds: likewise. Nothing is said of wake-ups by vectors the routine ignores, nor of a stopped clock, with which a wait can go on without end.
- I2c.RecoverRests: is about the recovery in one go; interrupts between its statements are in I2cSteps.
- I2cSteps.EveryMomentIsPartial: an interface that has sent its STOP raises no further interrupt, and one that is asked for a STOP while it sends first sends a byte that is already buffered.
- I2cMaster.Master.WaitForTransfer: takes interrupts only while the processor sleeps, from a finite list; when it runs out the method says so, where the program would sleep on.
- I2cMaster.Master.GiveUp: is interrupted only in its two delays, by clock ticks.
- Clock.DelayIsWrapSafeExactly: takes interrupts only while the processor sleeps; the others are in DelaySteps.
- Clock.MsClock.Delay: takes interrupts only while the processor sleeps, and only the clock's; the others are in DelaySteps.
- I2cData.SuccessMeansDoneUnlessRefused: the last byte is taken to be answered before the routine ends the transfer; a NACK of it that comes after the state is WAITING, and so after a return of 0, is not modelled.
- Clock.MsClock.SlowDown: as a method it is not interrupted; what interrupts between its stores do is proved in ClockSteps.
- Clock.MsClock.RegisterCallback: likewise.
- ClockSteps.StepsKeepInv: a 32-bit read or store is one step, and a callback does not call into the clock.
- Clock.DriftIsExact: speaks of the summed increments of the compare register, not of the crystal's own count, from which a mode change re-bases the register.
- Gpio.InterruptIsServed: interrupts come between whole calls; those inside a registration are in GpioSteps, those while initialisation wipes the tables are not modelled.
- Clock.MsClock.Isr: a callback is logged, not carried out; what it does to the clock is the business of its own calls.
- Clock.MsClock.EnableClock: clock sources, crystals and the other frequencies are not part of the state.
- Pipeline.ClearKeepsInv: at most one clear is under way at a time; callers that wait for the lock to clear again are not modelled.
- Pipeline.SenderKeepsInv: a sender's slot is copied in two pieces before it is sent; sockets, message headers, attribute encoding and the sequence counter are one answer, delivered or not.
- Ring.ClientData.ReadHandler: the FIFO count is an input, negative for an error; how the device's two bytes make it is not modelled.
- Ring.ClientData.ReadNewest: the text that is printed is not modelled, and a read before the first sample (position -1) is excluded, as the code indexes with the position unchecked.
- Handshake.RecordIsFreedAfterLastAccess: a server whose thread could not be created, and the release of the thread structure, sockets and netlink family, are not modelled.
- Viewer.QueuesStayCoupled: finalisation is the end of a run, as it flushes the messages and not the events.
- ViewerQueues.Queues.ReleaseMessage: what is done with the readings (bias, camera, temperature curve) is not modelled.
- Readout.ExtractUndoesEncode: the viewer's scaling to floating-point units is not modelled.
- Device.SuccessConfigures: register reads always succeed, and a failed write leaves its register alone.
- Gpio.MasksAreDecidedByCalls: flags that the pins' edges raise are not modelled; those are the flags that the driver itself sets and clears.
- Gpio.CallKeepsInv: pins beyond the eight of a port are excluded, for which the code shifts and indexes out of range; a callback's own calls are separate steps.
- The senders' endless loops are step functions, not methods: as interleavings of single statements they are what the lock has to get right; their locked part is the method Ring.ClientData.TakeNewest.
- Device reset, low-power mode, identification, probe and remove: single registers, or case splits over acquire and release without state of their own.
- The user-NMI interrupt routine, timer set-up, kernel registrations, and the viewer's windows, drawing and network streams.
