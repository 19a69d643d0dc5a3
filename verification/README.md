# Verified model of a BCM2835 hardware abstraction layer

The modelled crate drives the peripherals of a single-core BCM2835 without an operating system. Its
difficulty is concurrency: a clock and FIFOs that move by themselves, interrupt handlers that run between
any two instructions of the main program, and asynchronous futures that must not miss their wakeups. This
project states what that code promises as Dafny contracts and proves it.

The protocols that depend on interleaving are step machines (`AlarmProtocol`, `SleepWake`,
`CriticalSection`, `UartOwnership`, `SpiWake`): every register access is one step, the hardware may move between any
two steps, and the theorems speak of all runs. Code that changes state in loops is modelled as classes and
methods over mutable state (`SystemTime`, `UartStreams`, `SpiBus`, `SpiInPlace`, `GpioDetect`,
`GpioSelect`, `MmuTable`, `Interrupts`, `CriticalSection`, `Wakers`); there the hardware moves in
`Elapse`, `Latch` or `Preempt`, which every register access goes through. Futures are objects whose
`Valid` says what holds after any number of polls at any times.

| file | models |
|---|---|
| `AlarmProtocol`, `AlarmInvariant`, `AlarmTheorems` | system timer: `now`, `set_alarm`, the compare interrupts, interleaved with the main program; safety and bounded interrupts |
| `AlarmRuns`, `AlarmHandlers`, `AlarmDelivery` | where schedules lead; the handlers end, and every due alarm is delivered |
| `AlarmReArm`, `AlarmPanics` | exactly which re-arms from callbacks are safe, and which states can panic |
| `SystemTime` | the same driver as code, run with interrupts masked |
| `SleepWake`, `SleepWakeProofs`, `Wakers` | executor loop, critical sections, waker cells, UART interrupt enables, WFI |
| `CriticalSection` | nested masking with a restore flag |
| `UartStreams`, `UartOwnership` | mini UART reader and writer, and who may hold them |
| `SpiEntries`, `SpiStreams`, `SpiBus`, `SpiInPlace`, `SpiWake`, `SpiConfig` | auxiliary SPI entries, streams, transfers and wakeups |
| `GpioDetect`, `GpioSelect` | pin detection with its interrupt handler, and pin functions |
| `Mmu`, `MmuTable` | section descriptors and the translation table |
| `Interrupts` | interrupt sources and dispatch |
| `Registers`, `Options` | register bits as sets, optional values |

A register of which only single bits matter is the set of the numbers of its set bits (`Registers` relates
this to the masks of the code). SPI entries are four byte lanes (`SpiEntries.Bits32` relates them to words).
MMU descriptors and GPIO function-select words are 32-bit vectors.

## Where the code does not do what it is meant to

For each of these, lemmas give the failing inputs and the exact condition.

- A callback that re-arms an alarm whose `set_alarm` call it interrupts past the slot update can have its
  accepted timestamp forgotten (`AlarmReArm.UnguardedReArmIsForgotten`) or its callback run too early
  (`AlarmReArm.UnguardedReArmFiresEarly`). `AlarmReArm.ReArmIsSafeIff` proves, for every reachable state, alarm
  and timestamp, that a request is safe if and only if it does not interrupt such a call, or asks for the
  timestamp that this call is setting, or for one that has passed. (An interrupt that is already bound to panic
  is excepted. For the timestamp being set, a refusal to the outer caller counts as the answer to both:
  `AlarmReArm.SameRequestHasOneAnswer`.)
  `AlarmReArm.InterruptedReArm` says for every point of the outer call and both outcomes of its second check what
  becomes of the alarm if the clock stands still, and `AlarmReArm.UnguardedReArmIsReachable` that the situation
  comes up. A caller avoids all this by masking
  interrupts around `set_alarm`: `AlarmReArm.MaskingLosesNoAlarm`.
- A match of an alarm that was never allocated panics in its handler. A program is safe from this exactly when it
  has allocated both alarms: `AlarmPanics.NeverPanicsIffAllocated`, for every reachable state that has not
  panicked yet. With an alarm unallocated, whatever the compare registers hold and wherever the handlers and the
  main program stand, a panic is at most 2^32 ticks away (`AlarmPanics.UnallocatedCanPanic`). The tick at which it
  becomes possible is one that meets the compare word of an unallocated alarm (`AlarmPanics.PanicNeedsAStrike`,
  `AlarmPanics.StrikeCanPanic`).
- Most-significant-first packing of three bytes shifts the first onto the length:
  `SpiEntries.MsbRoundTripIff` for a chunk; a whole stream decodes to the bytes written if and only if every
  complete chunk begins with the byte 3: `SpiStreams.MsbDecodesIff`.
- The asynchronous in-place transfer sends one empty entry too many exactly when the length is a multiple of
  three, the empty buffer included, although a comment at `src/aux/spi.rs:305` says it is never empty:
  `SpiStreams.InPlaceMatchesBlockingIff`.
- The input bit order is read from the bit that the keep-input setting is written to:
  `SpiConfig.InOrderIsKeepInput`.
- The asynchronous `read_exact`, which the documentation of the reader recommends, passes over a slot of the
  buffer whenever a poll has to wait, and then completes with `Ok` without having filled it:
  `UartStreams.PendingLeavesAGap` for every buffer and slot. It fills the buffer with the next bytes if and only
  if no round of any poll found the FIFO empty (`UartStreams.FilledIffNoGap`), as is certain when the FIFO
  holds all the bytes at the first poll and none was lost (`UartStreams.ReadExactFut.Poll`).

Two further differences are visible in the model, but need no lemma:

- A reader call that ends in an overrun error has taken bytes that the caller is not told about: the
  `swallowed` result of `UartStreams.MiniUart.Read` and `UartStreams.MiniUart.PollRead`.
- `Pin::get` documents pins 0 to 53, its check admits 0 to 52: `GpioSelect.LIMIT`.

## Assumptions

- Volatile accesses are sequentially consistent steps. The 64-bit clock does not wrap.
- Timer: the requests of callbacks meet `AlarmProtocol.Guarded`, the condition just described, which is the
  weakest that will do; every run of callers that mask interrupts around `set_alarm` meets it. The lemmas
  that need no such assumption do not make it. A match of an unallocated alarm is not assumed away: after a
  panic no code runs any more, and the safety theorems hold in that state as well.
- Interrupt lines are level-triggered, and a sleeping core wakes on an asserted line even when masked.
- `SleepWakeProofs.ReadyFutureIsDequeued` counts the executor's steps when unmasked interrupts are taken at once;
  the other theorems on sleeping and waking allow any delay.
- The raw executor: waking enqueues a task and calls the pender at least when the queue was empty; polling
  runs everything that was queued. A task that runs polls its pending futures again or drops them.
- SPI: one received entry for each entry sent, in order, and the receive FIFO does not overflow.
- Blocking loops terminate because the hardware moves in the end: `patience` is the unknown number of
  fruitless status reads before it does. The futures need no such assumption.

## Model

| member | source | states |
|---|---|---|
| AlarmProtocol.NowStepKeeps | src/system_time/driver.rs:88-103 | a call of `now` never returns a future time, and sees every time that the clock had reached when its last round began, however the clock moves between the three reads |
| AlarmInvariant.FrameStepKeeps | src/system_time/driver.rs:135-182 | each step of `set_alarm` keeps its timestamp armed or in hand from the slot update on; when it accepts, the timestamp is armed, and it refuses only what is due |
| AlarmInvariant.ArmedTickKeeps | src/system_time/driver.rs:155-161 | the tick that reaches an armed timestamp, truncated to 32 bits, raises its match |
| AlarmInvariant.StepKeeps | src/system_time/driver.rs:47-206 | every guarded step of main program, handlers and clock keeps the invariant |
| AlarmTheorems.NoAlarmLost | src/system_time/driver.rs:51-84 | in every reachable state an accepted timestamp has its match pending, or its compare register waits for it, or code in progress will deliver, re-arm or refuse it |
| AlarmTheorems.QuietAlarmIsArmed | src/system_time/driver.rs:180-181 | when no code runs, the slot names the owed timestamp and the hardware alone will raise its match; if due, it is pending |
| AlarmTheorems.NeverEarly | src/system_time/driver.rs:71-77 | the callback is called for exactly what is owed and not before the clock reaches it |
| AlarmTheorems.AtMostTwoPasses | src/system_time/driver.rs:70-82 | the handler's loop ends in its second round at the latest, because a refusal makes the next reading of the clock late enough |
| AlarmTheorems.RefusedIsDue | src/system_time/driver.rs:142-176 | `set_alarm`, called by the main program or by a callback, refuses only a due timestamp; past the slot update nothing stays owed for it, before it the alarm is left alone |
| AlarmTheorems.AcceptedReArmStands | src/system_time/driver.rs:72-78 | from the step that accepts a callback's re-arm, under any ticks, further requests for the other alarm and the rest of the interrupt, slot and hardware hold it, until no handler runs or the alarm itself is acknowledged or requested again |
| AlarmTheorems.AlarmsAreIndependent | src/system_time/driver.rs:53-62 | no step for one alarm touches the other's slot, compare register or match bit |
| AlarmTheorems.SetCallbackDrops | src/system_time/driver.rs:121-133 | installing a callback drops what its alarm owed and zeroes the slot; compare register, match bit and the other alarm stay |
| AlarmTheorems.LapsOnTick | src/system_time/driver.rs:159-161 | a tick uses up one of the remaining laps exactly when it meets the truncated timestamp |
| AlarmTheorems.WaitsPersists | src/system_time/driver.rs:70-82 | re-arming never makes the compare register leave what is owed |
| AlarmTheorems.BoundedInterrupts | src/system_time/driver.rs:64-83 | an alarm any number of laps ahead takes at most one interrupt a lap, plus one already pending |
| AlarmRuns.CallStep | src/system_time/driver.rs:135-182 | the steps of `set_alarm` add up to one big step from any point of the call: how long it takes, what becomes of the channel, and that it accepts exactly what it does not see to be due |
| AlarmRuns.HandlerServes | src/system_time/driver.rs:51-84 | at a standing clock an interrupt either fires and zeroes its alarm, if due, or arms the same timestamp again |
| AlarmHandlers.HandlersEnd | src/system_time/driver.rs:64-83 | along every run, an interrupt of one alarm or of both, due or not, whatever its callbacks request, ends after at most 38 steps outside them and three more for each change of the high clock word |
| AlarmDelivery.DueAlarmIsDelivered | src/system_time/driver.rs:51-84 | along every run, from the interrupt of a due alarm to its callback there are at most 25 handler steps and three more for each change of the high clock word, with both alarms pending or one, and the other one's callback setting that alarm as often as it likes |
| AlarmDelivery.DueAlarmHasASchedule | src/system_time/driver.rs:51-84 | such runs exist: every due alarm with its match pending is delivered from every reachable state with interrupts unmasked, inside `set_alarm` or not |
| AlarmDelivery.DueCallRefuses | src/system_time/driver.rs:163-177 | a due alarm without a pending match is in the hands of an interrupted `set_alarm` call, which refuses it when it goes on |
| AlarmReArm.InterruptedReArm | src/system_time/driver.rs:142-182 | for every point of the interrupted call past its slot update and both outcomes of its second check: the re-armed timestamp is forgotten exactly if that call refuses, or has yet to write another compare word and no match is pending |
| AlarmReArm.UnguardedReArmIsForgotten | src/system_time/driver.rs:147-177 | every unguarded re-arm can be accepted and then forgotten; unless the outer call had only the slot left to zero, nothing is left that covers it |
| AlarmReArm.SameRequestHasOneAnswer | src/system_time/driver.rs:163-177 | a request for the timestamp being set can be accepted and then be refused to the outer caller only, with slot and match gone for both |
| AlarmReArm.ReArmIsSafeIff | src/system_time/driver.rs:51-84 | for every reachable state, alarm and timestamp: no continuation of a callback's request ends with a forgotten alarm if and only if the request is guarded |
| AlarmReArm.UnguardedReArmFiresEarly | src/system_time/driver.rs:168-176 | the zeroed slot makes the next match run the callback while the accepted timestamp is still ahead |
| AlarmReArm.UnguardedReArmIsReachable | src/system_time/driver.rs:135-161 | a run from start-up reaches a state in which a request for any timestamp ahead but one is unguarded |
| AlarmReArm.MaskingLosesNoAlarm | src/system_time/driver.rs:135-182 | over every run in which the main program masks interrupts around its calls, every callback's request is guarded and no alarm is ever lost or forgotten |
| AlarmPanics.PanicNeedsAStrike | src/system_time/driver.rs:65-69 | over every run, a panic was preceded by a tick that met the compare word of an unallocated alarm |
| AlarmPanics.UnallocatedMatchPanics | src/system_time/driver.rs:65-69 | from every reachable state, a pending match of an unallocated alarm can panic without another tick, whatever handlers and main program are doing |
| AlarmPanics.StrikeCanPanic | src/system_time/driver.rs:65-69 | every such tick in a reachable state can be fatal at once, also while a handler runs or interrupts are masked |
| AlarmPanics.UnallocatedCanPanic | src/system_time/driver.rs:65-69 | from every reachable state with an unallocated alarm, whatever the registers hold, a panic is at most a lap of the low word away |
| AlarmPanics.NeverPanicsIffAllocated | src/system_time/driver.rs:65-69 | from a reachable state no continuation panics if and only if both alarms are allocated |
| AlarmPanics.IdleStartPanics | src/system_time/driver.rs:65-69 | a program that has allocated nothing yet is exposed like any other |
| SystemTime.Driver.Now | src/system_time/driver.rs:88-103 | the result is the true 64-bit clock at the last low-word read; each retry raises the high word, so it terminates |
| SystemTime.Driver.AllocateAlarm | src/system_time/driver.rs:105-119 | grants each alarm once, C1 first |
| SystemTime.Driver.Disarm | src/system_time/driver.rs:163-176 | the recheck drops exactly this alarm's match and slot |
| SystemTime.Driver.SetAlarm | src/system_time/driver.rs:135-182 | accepting leaves slot and hardware armed, with the timestamp's low word in the compare register, refusing means due with the match dropped; the other alarm sees only time pass |
| SystemTime.RefusedStaysQuiet | src/system_time/driver.rs:164-166 | a refused alarm does not ring in that lap |
| SystemTime.Driver.AlarmInterrupt | src/system_time/driver.rs:51-84 | one callback at or after its time with the slot zeroed unless its callback sets the same alarm again, or none and the timestamp armed again; at most two rounds; a re-arm by the callback stands |
| SystemTime.Driver.Deliver | src/system_time/driver.rs:64-83 | taking every interrupt of an accepted alarm leads to exactly one callback, not before its time, however many laps ahead |
| SystemTime.ArmedPasses | src/system_time/driver.rs:155-161 | what is armed stays armed over any stretch of time |
| CriticalSection.Cpu.Acquire | src/critical_section_impl.rs:12-24 | masks, and asks for a restore exactly if interrupts were unmasked |
| CriticalSection.Cpu.Release | src/critical_section_impl.rs:26-33 | unmasks exactly if asked to restore |
| CriticalSection.Cpu.With | src/critical_section_impl.rs:11-36 | of sections nested to any depth each is opened once and closed again, interrupts are masked as long as any is open, and the entry mask comes back |
| CriticalSection.MaskedWhileOpen | src/critical_section_impl.rs:12-33 | over every run with handlers: masked exactly while a section or handler is open, and only the oldest frame unmasks |
| CriticalSection.HandlersStayOutside | src/critical_section_impl.rs:12-33 | no handler starts inside a section or another handler |
| CriticalSection.MaskedUntilRelease | src/critical_section_impl.rs:12-33 | interrupts stay masked from an acquire to its own release, after which the mask is as before |
| SleepWakeProofs.StepKeeps | src/executor.rs:27-60 | every step of executor, tasks, handler and hardware keeps the invariant |
| SleepWakeProofs.NeverSleepsOnWork | src/executor.rs:30-58 | the core sleeps only with an empty queue and no signal, and no handler runs between the swap and the sleep |
| SleepWakeProofs.IdleCoreSleeps | src/executor.rs:34-57 | with nothing queued or signalled and no interrupt to take, the loop reaches WFI in four steps, masked |
| SleepWakeProofs.StaleSignalIsConsumed | src/executor.rs:48-49 | a signal with nothing behind it costs one round of the loop and is gone |
| SleepWakeProofs.FutureArms | src/aux/uart/reader.rs:212-223 | a future that finds nothing to do becomes pending, with its waker stored and the enable bits of its own side set |
| SleepWakeProofs.SleepingFuturesAreReachable | src/executor.rs:30-58 | the core is reachably asleep with a future of either side pending, both before its hardware is ready and just after |
| SleepWakeProofs.NoLostWakeup | src/executor.rs:34-57 | never asleep with all lines low while a pending read has a byte or a pending write an empty FIFO |
| SleepWakeProofs.ReadyFutureIsSeen | src/aux/uart/reader.rs:212-223 | at any moment a ready pending future is queued, or its line is asserted with its waker stored, or its handler is about to wake it |
| SleepWakeProofs.SidesShareTheRegister | src/aux/uart/writer.rs:261-272 | reader and writer share the enable register and never change each other's bit |
| SleepWakeProofs.HandlerDisables | src/aux/uart.rs:66-77 | the handler only disables, disables each reported side, and queues the task of the waker that it takes |
| SleepWakeProofs.ReadyFutureIsDequeued | src/executor.rs:30-58 | along every run in which interrupts are taken at once, a pending future whose hardware is ready has its task dequeued within six moves of the executor, three from sleep, whatever sides and other devices interrupt |
| SleepWakeProofs.SleeperIsDelivered | src/executor.rs:30-58 | from sleep, a future whose hardware is ready has its task dequeued by the next poll |
| SleepWakeProofs.HandlerServes | src/aux/uart/reader.rs:270-281 | the handler run for a reported side queues exactly the task that waits for it, empties its cell, clears its enable bit only, and unmasks on return |
| Registers.ReadArmWord | src/aux/uart/reader.rs:217-218 | the reader's mask sets the bits that the protocol arms, its own and the two erratum bits, and no other bit of the word |
| Registers.WriteArmWord | src/aux/uart/writer.rs:216-217 | likewise for the writer |
| Registers.ClearBit0 | src/aux/uart/reader.rs:274-277 | the reader's handler clears its bit, and no other bit of the word |
| Registers.ClearBit1 | src/aux/uart/writer.rs:265-268 | the writer's handler clears its bit, and no other bit of the word |
| Registers.TestOwnership | src/aux/uart.rs:35-38 | the ownership test looks at exactly the two enable bits |
| Registers.SetBothBits | src/aux/uart.rs:40 | `pair` takes both locks and changes no other bit of the word |
| Registers.SetBit0 | src/aux/uart/reader.rs:39 | `Reader::get` takes its lock and changes no other bit of the word |
| Registers.SetBit1 | src/aux/uart/writer.rs:42 | `Writer::get` takes its lock and changes no other bit of the word |
| Wakers.WakerCell.SetWaker | src/lib.rs:118-129 | afterwards a wake reaches the given task, by way of the stored waker if that one would wake it already; the result says if the cell was occupied |
| Wakers.WakerCell.Wake | src/lib.rs:131-135 | wakes the stored task once and empties the cell |
| UartStreams.MiniUart.InterruptHandler | src/aux/uart.rs:66-77 | exactly the reported sides are disabled, emptied and woken |
| UartStreams.MiniUart.Read | src/aux/uart/reader.rs:101-119 | success is exactly the next bytes of the stream, waiting only for the first; an overrun error means a loss and says how much was swallowed; a flag set at the call is reported |
| UartStreams.MiniUart.ReadExact | src/aux/uart/reader.rs:121-140 | success fills the buffer with exactly the next bytes |
| UartStreams.MiniUart.PollRead | src/aux/uart/reader.rs:195-226 | Pending has consumed nothing and armed the wakeup, so dropping is safe; Ready is exactly the next bytes, all arrivals in order while none was lost |
| UartStreams.ReadExactFut.Poll | src/aux/uart/reader.rs:235-267 | whatever the schedule, each round uses up one slot and the filled slots hold the next bytes in order, all others what they held before; a poll never waits if the FIFO holds enough for the slots that are left, and takes all that it holds before it waits |
| UartStreams.ReadExactFut.CompletedIff | src/aux/uart/reader.rs:243-264 | on completion the buffer holds exactly the bytes taken, and as many as it is long, if and only if no round of any poll had to do without |
| UartStreams.FilledIffNoGap | src/aux/uart/reader.rs:250-264 | the buffer passed over holds the next bytes if and only if every round found one; the other slots are untouched |
| UartStreams.PendingLeavesAGap | src/aux/uart/reader.rs:250-264 | for every buffer and every slot: a poll just before that slot's byte arrives is Pending, and the next one completes with one byte less and the slot unwritten |
| UartStreams.MiniUart.Write | src/aux/uart/writer.rs:104-126 | a non-empty prefix goes out in order, as much as there was room for |
| UartStreams.MiniUart.Push | src/aux/uart/writer.rs:225-229 | the FIFO never overflows and the bytes follow what was sent before |
| UartStreams.MiniUart.PollWrite | src/aux/uart/writer.rs:201-231 | Pending only at a full FIFO with the wakeup armed; Ready has sent a non-empty prefix |
| UartStreams.WriteAllFut.Poll | src/aux/uart/writer.rs:179-189 | done means all bytes in order and no others; every poll writes at least as much as there was room for, and is done if that suffices; the panic on `Ok(0)` is unreachable |
| UartStreams.WriteAllFut.Run | src/aux/uart/writer.rs:179-189 | for any number of polls at any times, exactly the written prefix has been given to the transmitter |
| UartOwnership.Control.TryPair | src/aux/uart.rs:22-53 | the critical section of `pair` succeeds exactly when no handle lives, then takes both locks, and is a step of the ownership machine |
| UartOwnership.Control.TryReader | src/aux/uart/reader.rs:25-49 | likewise for `Reader::get` |
| UartOwnership.Control.TryWriter | src/aux/uart/writer.rs:28-52 | likewise for `Writer::get` |
| UartOwnership.OwnedAlways | src/aux/uart.rs:55-63 | over every run after `setup`, bit 0 is set exactly when one reader lives and bit 1 when one writer does, never more, and no other bit is |
| UartOwnership.GrantedIffFree | src/aux/uart.rs:34-41 | a constructor succeeds exactly when no handle of either kind lives |
| UartOwnership.OtherBitsSurvive | src/aux/uart/reader.rs:76-90 | no operation after `setup` changes any other bit of the register |
| SpiEntries.ToEntry | src/aux/spi.rs:505-519 | the packing loop computes the entry of the chunk |
| SpiEntries.FromEntryInto | src/aux/spi.rs:521-532 | the unpacking loop overwrites exactly its slice with the entry's bytes |
| SpiEntries.LsbRoundTrip | src/aux/spi.rs:511-532 | least significant first, length and bytes come back |
| SpiEntries.MsbRoundTripIff | src/aux/spi.rs:507-526 | most significant first, exactly when they do |
| SpiEntries.OrIsBitwise | src/aux/spi.rs:505-519 | combining lanes is OR on the words |
| SpiEntries.IntoLaneShifts | src/aux/spi.rs:509-513 | lanes are the shifts of the code |
| SpiEntries.FromLaneShifts | src/aux/spi.rs:521-532 | and so are the lanes that unpacking reads |
| SpiEntries.ByteAtShifts | src/aux/spi.rs:521-532 | of any received entry, the byte read for a position is the one that the shift of the code brings down |
| SpiStreams.OnlyLastThroughIo | src/aux/spi.rs:145-157 | one entry a chunk, and exactly the last through the IO port |
| SpiStreams.DecodesToWords | src/aux/spi.rs:140-160 | least significant first, the stream decodes to the bytes written |
| SpiStreams.MsbDecodesIff | src/aux/spi.rs:507-513 | most significant first, it does so if and only if every complete three-byte chunk begins with the byte 3 |
| SpiStreams.InPlaceMatchesBlockingIff | src/aux/spi.rs:352-366 | the in-place future emits the blocking stream exactly when the length is no multiple of three |
| SpiStreams.InPlaceSendsChunks | src/aux/spi.rs:352-366 | for every length and bit order, each complete chunk goes out with the entry of the blocking stream, through TxHold |
| SpiStreams.InPlaceDecodesToWords | src/aux/spi.rs:352-366 | least significant first, all that the in-place future sends decodes to the bytes of the buffer, for every length |
| SpiBus.Spi1.WriteBlocking | src/aux/spi.rs:140-160 | emits exactly the stream of its words |
| SpiBus.Spi1.Flush | src/aux/spi.rs:204-212 | ends with both FIFOs empty and as many entries received as sent |
| SpiBus.Spi1.PollFlush | src/aux/spi.rs:389-405 | likewise on Ready, which is certain if nothing was in flight; Pending has enabled the idle interrupt, and its waker is stored or its task has been woken since |
| SpiBus.WriteFut.Poll | src/aux/spi.rs:267-300 | Ready has emitted exactly the entries of the blocking `write`, ports included; every poll fills the room there was, and is Ready if that suffices; Pending is armed |
| SpiBus.WriteFut.Run | src/aux/spi.rs:264-301 | for any schedule of polls, what was sent and the stream of the rest make up the whole stream |
| SpiInPlace.TransferInPlace | src/aux/spi.rs:174-202 | sends the stream of the original bytes and leaves the received entries in the buffer, in order |
| SpiInPlace.Transfer | src/aux/spi.rs:163-172 | sends the written bytes, padded or continued, and fills the read buffer |
| SpiInPlace.TransferInPlaceFut.NextChunk | src/aux/spi.rs:355-356 | the next chunk to send has not been overwritten |
| SpiInPlace.TransferInPlaceFut.Receive | src/aux/spi.rs:325-333 | the next entry goes to the next chunk and to no other byte |
| SpiInPlace.TransferInPlaceFut.Poll | src/aux/spi.rs:314-379 | Ready means that all entries encode the original bytes and chunk k holds the k-th received entry; receiving never overtakes sending; Pending has taken all that had arrived and filled the room there was, and is armed for idleness if all was sent before, else for an empty FIFO |
| SpiInPlace.TransferInPlaceFut.Run | src/aux/spi.rs:311-380 | the same for any schedule of polls |
| SpiWake.ArmSuspends | src/aux/spi.rs:288-299 | a poll that arms leaves its future pending with its waker stored and its own interrupt enabled |
| SpiWake.FlushSuspends | src/aux/spi.rs:393-400 | so does a poll of `flush` that finds the SPI busy; interrupted before its register write, its task is woken instead |
| SpiWake.ReadyFutureIsWoken | src/aux/spi.rs:563-574 | over every run, with interrupts between any two steps of `flush`: once the hardware is ready for a pending SPI future its task is queued, or the handler is called, queues exactly that task and releases the line |
| SpiConfig.InOrderIsKeepInput | src/aux/spi.rs:94-98 | the input order read back is the keep-input setting, so right exactly when the two agree |
| SpiConfig.OutOrderReadsBack | src/aux/spi.rs:82-92 | the output order reads back as configured |
| GpioDetect.IterOnes.Next | src/gpio.rs:490-501 | yields the lowest set bit and clears it, so each bit once in increasing order |
| GpioDetect.Gpio.HandlePin | src/gpio.rs:402-425 | exactly one pin loses its waker, six detect bits and status bit, and its task is woken |
| GpioDetect.Gpio.InterruptHandler | src/gpio.rs:396-427 | exactly the pins that were latched when the status was read are handled, whatever is latched meanwhile; all others are untouched |
| GpioDetect.Gpio.Preempt | src/gpio.rs:396-427 | any number of handler runs leave a waiting waker in place with its detect bits, or take it and wake its task |
| GpioDetect.Gpio.SetupDetection | src/gpio.rs:321-337 | with handlers between any two registers: the waker waits with all requested bits set, or its task was woken; no register comes to watch another pin, and none that was not requested this one |
| GpioDetect.Gpio.Poll | src/gpio.rs:340-374 | Ready exactly if nothing was asked or the handler has taken the waker since the first poll; Pending is armed or already woken; all other detectors stay as they were and keep that promise; only requested registers come to watch the pin, and a poll after the first changes none |
| GpioSelect.Get | src/gpio.rs:76-102 | the read-modify-write gives the pin its mode and leaves every other pin's |
| GpioSelect.SelectedField | src/gpio.rs:80-97 | only the pin's own three bits change |
| GpioSelect.RegistersHoldLastModes | src/gpio.rs:76-103 | after any sequence of calls every pin has the mode last requested for it |
| GpioSelect.ModeRoundTrip | src/gpio/state.rs:110-133 | the mode bits are distinct and fit a field |
| GpioSelect.ModeCodes | src/gpio/state.rs:110-133 | the codes are those of the hardware: alternate functions 0 to 3 count up from 0b100, 4 and 5 down from 0b011 |
| GpioSelect.ShiftIsPosition | src/gpio.rs:80-97 | the shift of a pin is three times its place in the word |
| GpioSelect.SlotIsShifted | src/gpio.rs:80-97 | and so is the place at which the hardware reads the pin's field |
| Mmu.New | src/mmu.rs:87-145 | the accumulated word decodes to exactly the settings that it was made from |
| Mmu.UnpackPack | src/mmu.rs:96-144 | no field of a descriptor overlaps another |
| Mmu.DecodesBack | src/mmu.rs:87-145 | an ARMv6 decoder recovers base, permissions, execute, global and memory type |
| Mmu.SingleBits | src/mmu.rs:96-144 | each single-bit setting is where the architecture puts it: supersection 18, not global 17, shareable 16, read-only 15, execute never 4 |
| Mmu.AccessRights | src/mmu.rs:107-115 | the permission bits grant privileged and user code exactly what the permission is called |
| Mmu.MemoryCodes | src/mmu.rs:117-137 | cached memory carries the codes of its outer and inner policy in TEX, and in C and B |
| Mmu.SectionDecodesIff | src/mmu.rs:97 | a section number survives exactly if it is below 4096 |
| Mmu.DescriptorsDiffer | src/mmu.rs:107-137 | different settings never share a word |
| MmuTable.Fill | src/mmu.rs:22-37 | one loop maps its range of sections and nothing else |
| MmuTable.BuildTable | src/mmu.rs:15-75 | the walk of the table that the three loops fill translates every 32-bit address as intended |
| MmuTable.TableMapsAsIntended | src/mmu.rs:15-75 | every 32-bit address: identity below 511 MB, device identity in the MMIO window, section 510 for the stack, a fault elsewhere |
| MmuTable.DescriptorWords | src/mmu.rs:22-72 | the words of the two kinds of entries, bit by bit |
| MmuTable.StackIsMappedTwice | src/mmu.rs:54-72 | the stack's bytes have a second address |
| Interrupts.Setup | src/interrupt.rs:43-60 | enables exactly the five sources of the two tables |
| Interrupts.Dispatch | src/interrupt.rs:104-149 | calls the handlers of the pending sources in table order: the timer's for 1 and 3, the auxiliary one for 29, the GPIO banks' for 49 and 50, and no others |
| Interrupts.DispatchAux | src/aux.rs:29-39 | calls exactly the pending second-level handlers, once each |
| Interrupts.CalledIffPending | src/interrupt.rs:130-149 | a handler is called exactly when its source is pending |
| Interrupts.EnabledIsHandled | src/interrupt.rs:48-53 | of either table, every line that is enabled and pending has its handler called |

## Left out

- UartStreams.MiniUart.Read: the overrun flag may stay set or clear after a status read; which of the two the hardware does is not modelled.
- UartStreams.MiniUart.ReadExact: how a straggling sender behaves is reduced to one `patience` for every byte.
- MmuTable.Fill: one method stands for the three loops, which differ only in range, offset and attributes.
- SleepWake.Apply: bytes are counted here, their values are in `UartStreams`; a task's other work is only its wakes.
- AlarmProtocol.Apply: callbacks only call `set_alarm`; `set_alarm_callback` and allocation happen in the main program.
- The endless loop of the executor is a step machine and not a method, because it never returns.
- Inline assembly, boot code, memory barriers, linker scripts, macros, kernel and bootloader programs.
- UART `flush`: it tests a bit that is always 0 and never completes.
- `get_unchecked`, pull control delays, pin levels, `Detector::block` and the single-word non-blocking interfaces: thin wrappers outside the protocols.
- GPIO exclusivity, because the lock's result is ignored, and the second bank, whose handler takes the wakers of the first.
- Reads and interrupts of SPI entries beyond the depth of the receive FIFO: nothing in the code bounds them.
- Baud rate arithmetic.
