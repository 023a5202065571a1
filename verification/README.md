# casioCAN core in Dafny

A functional model of the firmware core of casioCAN, a clock/alarm unit on an
STM32G0. It receives configuration messages over CAN, keeps time in the RTC
and shows the time and date on a 16x2 LCD. Every C global becomes a field of an
immutable record. Every task call becomes a pure step function from the old
globals to the new globals, plus the calls the task makes into the hardware
drivers, which are recorded as output events in order.

Modules follow the source files:

- `Types` (`types.dfy`) holds the fixed-width integers `byte`, `u16` and `u32`.
  It also holds explicit wrap-around helpers (`ToByte`, `Sub32`, `Inc32`), the
  8-byte frame `NewMessage`, and the `APP_TmTypeDef`/`APP_MsgTypeDef` records.
- `Queue` (`queue.dfy`) models the flag-and-index logic of `hil_queue.c`.
- `Scheduler` (`scheduler.dfy`) models task registration and period changes in
  `hil_scheduler.c`.
- `Serial` (`serial.dfy`) models `app_serial.c`:
  - the seven-state machine `Serial_Task`;
  - the decoder `CanTp_SingleFrameRx`;
  - the receive callback;
  - the OK/ERROR replies, as transmitted frames.
- `Clock` (`clock.dfy`) models `Clock_Task` in `app_clock.c`, with its one-time
  default block and its 1000 ms display trigger. RTC writes are output calls.
  RTC reads are inputs of the step.
- `Display` (`display.dfy`) models the TIME/DATE toggle and the two buffer
  formatters of `app_display.c`. The LCD driver calls are outputs.
- `MainLoop` (`mainloop.dfy`) models `main.c`:
  - the initialisation order;
  - the super-loop order;
  - `heart_beat` and `peth_the_dog`;
  - `safe_state` as a terminal mode;
  - the receive interrupt as a separate event between loop iterations.

## Behaviour as written

The model follows the code, including where the code departs from what its
own comments and names say (a "new message" flag, a "circular buffer"):

- The receive callback sets `flagMessage` to 0, and `CanTp_SingleFrameRx` only
  decodes when the flag is 1. Nothing ever sets it to 1, so from boot the
  serial machine never leaves IDLE. It never replies and never passes a
  message to the clock (`Serial.NeverLeavesIdle`, `MainLoop.QuietForever`).
- The DATE check can leave the machine in DATE with no reply, for example on
  29 February of a non-leap packed year (`Serial.DateStallsForever`). In a
  leap year only February passes.
- The 30-day branch compares the month byte with 0x30 instead of the day, so
  31 April is accepted (`Serial.DateExamples`).
- Range limits such as `0x23` and `0x59` are compared as plain byte
  magnitudes.
- The year is the two bytes packed as `uint16_t`, so the leap test applies to
  the packed value (`0x1910 % 4 == 0`).
- The queue advances its indices without a modulo and copies no data. Its full
  flag can only be raised when it is already raised (`Queue.FullNeverRaised`).
  A read can overtake the write index (`Queue.TailOvertakesHead`).
- `HIL_SCHEDULER_RegisterTask` always writes the first task control block.
  `StopTask` and `StartTask` always return FALSE, and `Init`/`Start` do
  nothing. Nothing in hil_scheduler.c or main.c dispatches the registered
  tasks on a timer or detects a missed deadline, and app_clock.c never derives
  the day of the week.
- Both replies are the fixed two bytes `01 55` (OK) and `01 AA` (ERROR),
  whatever the message kind.
- `Display_DateString` indexes its month and weekday tables with `tm_mon - 1`
  and `tm_wday - 1`. `ClockMsg` starts at zero, so when the first clock task
  call comes less than 1000 ms after `Clock_Init`, the second loop iteration
  reads outside the table. Because `tm_mon` is a `uint32_t`, the subscript is
  0xFFFFFFFF. It reaches the byte before the table only because addresses wrap
  on a 32-bit target. The model enters an `Undefined` mode there
  (`MainLoop.SecondIterationReadsOutOfBounds`).

Constants that the C files use but none of the application headers (app_bsp.h, hil_scheduler.h, hil_queue.h, app_serial.h, app_clock.h, app_display.h) defines are fixed as follows:

- `MULTIPLE` is 0, `NO_TASK` is 0, `TRUE` is 1 and `FALSE` is 0.
- The ASCII code of `'0'` is 48 (`NUM_48`), and the display buffers hold 16 characters (`NUM_16`).
- The LCD row and column values come from the header definitions.
- `TOGGLE_HEART` and `REFRESH_WWDG` are parameters, given by `MainLoop.Config`.
- The vendor HAL codes are `RTC_WEEKDAY_TUESDAY = 2`,
  `RTC_MONTH_JANUARY = 1` and `FDCAN_IT_RX_FIFO0_NEW_MESSAGE = 0x1`.

## Model

| member | source | states |
|---|---|---|
| Types.ToByte | app/hil_scheduler.c:29 | storing into a `uint8_t` keeps values below 256 and otherwise agrees modulo 256 |
| Types.Sub32 | app/main.c:101 | unsigned elapsed time is the plain difference when the clock has not wrapped, and the difference plus 2^32 when it has |
| Types.Inc32 | app/hil_scheduler.c:28 | the 32-bit task counter increments, wrapping from 2^32-1 to 0 |
| Queue.Init | app/hil_queue.c:43-49 | both indices are 0, the queue is empty and not full |
| Queue.Flush | app/hil_queue.c:101-107 | flushing is the same reset as initialisation |
| Queue.Write | app/hil_queue.c:51-69 | when not full: OK, head advances, the empty flag drops. When full: NOT_OK, indices kept, full raised only if head equals tail. The full flag is never raised from a not-full handle |
| Queue.Read | app/hil_queue.c:71-89 | when not empty: OK, tail advances, the full flag drops. When empty: NOT_OK, indices kept, the empty flag re-raised only if head equals tail |
| Queue.IsEmpty | app/hil_queue.c:91-99 | raises the empty flag when the indices agree, never lowers it, and returns the resulting flag |
| Queue.ApplyPreservesReachable | app/hil_queue.c:43-107 | every operation keeps the full-flag-down invariant, and a write on such a handle succeeds |
| Queue.FullNeverRaised | app/hil_queue.c:55-66 | from any reachable handle, no sequence of operations raises the full flag, and every write reports OK |
| Queue.InitReachable | app/hil_queue.c:43-49 | init and flush both produce reachable handles |
| Queue.TailOvertakesHead | app/hil_queue.c:75-81 | write, read, read all report OK and leave the read index past the write index |
| Queue.WriteThenRead | app/hil_queue.c:51-89 | a write then a read move both indices by one and leave the empty flag down |
| Scheduler.Init | app/hil_scheduler.c:12-15 | initialisation leaves the handle unchanged |
| Scheduler.Start | app/hil_scheduler.c:82-85 | starting leaves the handle unchanged |
| Scheduler.RegisterTask | app/hil_scheduler.c:18-33 | an invalid period (not above the tick, or not a multiple of it) returns NO_TASK and changes nothing. A valid period writes block 0 with elapsed 0, leaves the other blocks alone, increments the counter modulo 2^32 and returns it truncated to a byte |
| Scheduler.StopTask | app/hil_scheduler.c:39-44 | always FALSE, with no effect |
| Scheduler.StartTask | app/hil_scheduler.c:51-56 | always FALSE, with no effect |
| Scheduler.PeriodTask | app/hil_scheduler.c:63-74 | an invalid period returns FALSE with no effect. A valid one returns TRUE and sets only the period of block `task`; every other field and block is unchanged |
| Scheduler.ZeroTickZeroPeriod | app/hil_scheduler.c:22 | with a zero tick, a zero period is rejected (NO_TASK, FALSE) and nothing changes, since the comparison fails before the division |
| Scheduler.RegisterAllCounts | app/hil_scheduler.c:18-33 | after a batch of registrations, the counter has grown modulo 2^32 by the number of valid requests |
| Scheduler.RegisterAllKeepsLaterBlocks | app/hil_scheduler.c:24-27 | no batch of registrations, valid or not, changes any control block after the first |
| Scheduler.LastRegistrationWins | app/hil_scheduler.c:22-27 | block 0 holds exactly the last accepted request of a batch |
| Scheduler.PeriodThenRegister | app/hil_scheduler.c:63-74 | changing the period of a later block commutes with a registration |
| Serial.SingleFrameRx | app/app_serial.c:323-363 | with the flag at 1: reports a message, clears the flag, records byte 1 as the kind and copies exactly that kind's fields. Otherwise: reports none and touches nothing |
| Serial.Year | app/app_serial.c:139 | the year's high byte is frame byte 4 and its low byte is frame byte 5 |
| Serial.DateBranchesMatchTable | app/app_serial.c:198-228 | on in-range frames, the nested DATE branches accept exactly when the day is at most the reference table's maximum for that month and leap flag |
| Serial.SerialTask | app/app_serial.c:135-262 | IDLE moves to MESSAGE exactly when a frame is decoded. MESSAGE dispatches on the exact (kind, length) pairs. TIME and ALARM reach OK exactly when their limits hold. DATE reaches ERROR exactly when out of range, and otherwise OK or stays by the table. Only OK/ERROR transmit, one fixed reply each, and return to IDLE. The frame is never changed |
| Serial.RxCallback | app/app_serial.c:277-288 | with the new-message bit set, stores the frame and sets the flag to 0. Otherwise nothing changes. It never raises the flag to 1 |
| Serial.DateStallsForever | app/app_serial.c:198-228 | an in-range date the table rejects keeps the machine in DATE with no reply for any number of calls |
| Serial.FramePipeline | app/app_serial.c:135-262 | from a raised flag, after the right number of calls: an accepted frame yields exactly one OK reply, a rejected one exactly one ERROR reply, and a stalled one none. The fields are decoded in every case |
| Serial.RejectedFrameStillOverwrites | app/app_serial.c:335-339 | a TIME frame with an out-of-range hour is answered ERROR, but its hour is already in the handler |
| Serial.NeverLeavesIdle | app/app_serial.c:281-287 | from IDLE with the flag not 1, under any interleaving of task calls and interrupts, the machine stays IDLE, never transmits and never changes the handler |
| Serial.DateExamples | app/app_serial.c:192-234 | on sample BCD frames: 29 Feb 2024 accepted, 29 Feb 2023 stalls, month 0x13 rejected, 31 Apr accepted, packed year 0x1910 counts as leap |
| Clock.Init | app/app_clock.c:43-55 | records the current tick and changes nothing else |
| Clock.Defaults | app/app_clock.c:75-94 | on the first call: sets the RTC to 23:59:50, Tuesday 31 January (20)23, sets day of year 0x20 and bumps the flag. Afterwards: nothing |
| Clock.ClockTask | app/app_clock.c:69-172 | the default block runs once. WAIT_MESSAGE picks CHANGE_TIME > CHANGE_DATE > CHANGE_ALARM > 1000 ms timeout, always consumes the kind, and moves the display tick to the current tick exactly on the timeout. CHANGE_TIME and CHANGE_DATE pass the handler's fields to the RTC truncated to bytes; all three change states, CHANGE_ALARM included, go to DISPLAY. DISPLAY publishes the RTC reading with kind WAIT_MESSAGE, keeping the day of the year (0x20 after the default block) and the DST flag. CHANGE_DATE changes only the day of the year of `ClockMsg`, to the handler's |
| Clock.QuietClockNeverSetsRtc | app/app_clock.c:96-120 | after the defaults, with no message kind, the machine stays in WAIT_MESSAGE/DISPLAY and never sets the RTC |
| Clock.TimeChangeSequence | app/app_clock.c:98-132 | a time message takes three calls and sets the RTC exactly once, to the handler's hour, minute and second |
| Display.TimeString | app/app_display.c:129-139 | "HH:MM:SS" as base-10 digits of the hour, minute and second; positions 8 and after are untouched |
| Display.DateString | app/app_display.c:151-177 | month abbreviation, ',', day in base 10, ' ', day of year in base 16, year in base 10, ' ', weekday abbreviation; positions 14 and 15 are untouched |
| Display.DisplayTask | app/app_display.c:94-117 | TIME writes the time line at row 2, column 3 and switches to DATE. DATE writes the date line at row 1, column 1 and switches to TIME. Any other state does nothing |
| Display.ToggleReturns | app/app_display.c:96-112 | two calls return the toggle to TIME, after one time line and one date line |
| Display.TwoDigitsRoundTrip | app/app_display.c:131-132 | the two base-10 digits of a value below 100 read back as that value |
| Display.DigitsReadBack | app/app_display.c:167-168 | two digit characters formed from values below 10 read back, in any base, as base times the first plus the second |
| Display.TimeStringRoundTrip | app/app_display.c:129-139 | the time line reads back as the hour, minute and second when each is below 100 |
| Display.TablesDistinct | app/app_display.c:153-156 | the month and weekday abbreviations are pairwise distinct |
| Display.DateStringRoundTrip | app/app_display.c:151-177 | the date line reads back as month, day, day of year, year and weekday, under the stated digit ranges |
| Display.DefaultYdayShowsAsTwenty | app/app_display.c:167-168 | the clock's default day of year 0x20 shows as "20" |
| MainLoop.Periodic | app/main.c:101-105 | fires exactly when the wrapped elapsed time reaches the threshold, and then restamps with the current tick |
| MainLoop.HeartBeat | app/main.c:99-106 | toggles the LED and restamps exactly when TOGGLE_HEART has elapsed; otherwise no effect |
| MainLoop.PethTheDog | app/main.c:154-161 | refreshes the watchdog and restamps exactly when REFRESH_WWDG has elapsed; otherwise no effect |
| MainLoop.FiringsSpaced | app/main.c:101-105 | without tick wrap-around, firings are at least the threshold apart, and the first is at least the threshold after the stamp |
| MainLoop.Boot | app/main.c:44-51 | the five inits run once in order, and each init records its own tick |
| MainLoop.Iterate | app/main.c:53-60 | a running pass runs all five tasks in order, each on the globals the previous one left. The clock reads the handler the serial task just wrote. `heart_beat` and `peth_the_dog` restamp and output exactly when their own tick readings fire. `Display_Task` formats the `ClockMsg` the clock just left. The outputs are the serial, clock, heart, dog and display outputs concatenated in that order. Undefined behaviour is reached exactly when a date display meets an out-of-table month or weekday, and then the display is untouched and outputs nothing |
| MainLoop.SafeState | app/main.c:163-181 | records file, line and error and stops; the globals are unchanged |
| MainLoop.Handle | app/main.c:175-180 | once stopped, no event has any effect |
| MainLoop.StoppedIsTerminal | app/main.c:163-181 | after halting, any sequence of events changes nothing and outputs nothing |
| MainLoop.IterateOutputs | app/main.c:55-59 | the RTC calls of one pass are exactly the clock task's, and a pass transmits on the bus only if the serial task replies |
| MainLoop.HandleKeepsQuiet | app/main.c:53-60 | from a quiet state, one event keeps it quiet, transmits nothing, and sets the RTC only with the defaults on their first run |
| MainLoop.QuietForever | app/main.c:44-60 | from a quiet state, under any interleaving of loop passes, receive interrupts and faults: nothing is ever transmitted, and the RTC is set at most once, with the defaults |
| MainLoop.BootIsQuiet | app/main.c:44-51 | the state after boot is quiet |
| MainLoop.SecondIterationReadsOutOfBounds | app/app_display.c:158-161 | when the first clock call comes less than 1000 ms after boot, the second loop pass reaches undefined behaviour: the date line subscripts the month table with `tm_mon - 1`, which for the `uint32_t` zero is 0xFFFFFFFF |
| MainLoop.FirstPassShowsTime | app/main.c:55-59 | on the first pass, with no message and no timeout, the time is shown, the display moves to DATE and `ClockMsg` keeps month 0 |
| MainLoop.SecondPassShowsDate | app/app_display.c:158-161 | a date display while the clock waits and `ClockMsg` has month 0 is undefined behaviour |

## Left out

- Peripheral set-up is not modelled, because it is vendor register configuration. This covers:
  - `Serial_Init`: the FDCAN configuration, filter and start;
  - the RTC configuration in `Clock_Init`;
  - `Display_Init`;
  - the GPIO and WWDG set-up in `heart_init`/`dog_init`;
  - `HAL_Init`.
- `app_msps.c`, `app_ints.c` and the LCD driver `hel_lcd.c` are not part of this model. The LCD calls are output events.
- The RTC driver's BCD/binary conversion is not modelled. Set calls carry the bytes passed in, and reads are inputs.
- The CAN transmit path inside `HAL_FDCAN_AddMessageToTxFifoQ` is not modelled. A reply is the frame bytes handed to it.
- The queue's `Buffer` pointer store is left out, because it keeps the address of a local argument and carries no data. The four `...ISR` functions are left out because they have empty bodies.
- Scheduler routines are opaque identities, because the function pointers are never called in hil_scheduler.c or main.c.
- True concurrency is not modelled. The receive interrupt is a whole event between loop iterations or task calls.
- MainLoop.HeartBeat, MainLoop.PethTheDog: each call reads `HAL_GetTick()` once. The source reads it a second time when restamping, so the model's stamp may be earlier by the ticks between those two reads.
- Clock.ClockTask: the WAIT_MESSAGE timeout also reads the tick once, for the same reason.
- Queue.Write, Queue.Read: the index fields are unbounded, because neither hil_queue.h nor app_bsp.h defines `QUEUE_HandleTypeDef`. A `uint8_t` index would wrap after 256 steps.
- MainLoop.Iterate: undefined behaviour (a table read outside its bounds) is a terminal `Undefined` mode about which nothing further is claimed.
- Scheduler.RegisterTask, Scheduler.PeriodTask: they require a nonzero tick whenever the period exceeds the tick, because only then does the guard's `&&` reach the `%`, and dividing by zero is undefined in C. They also require the control block written by a valid period to exist, because the C code writes there without a range check. A zero tick with a zero period is handled: it returns NO_TASK or FALSE.
- Display.DateString: it requires a month in 1..12 and a weekday in 1..7, because outside these ranges the C code reads outside its tables.
