/** The clock task of app/app_clock.c: the five-state machine `Clock_Task`
    with its one-time default block and its 1000 ms display trigger. The RTC is
    abstract: `HAL_RTC_SetTime`/`HAL_RTC_SetDate` become output calls, and the
    values `HAL_RTC_GetTime`/`HAL_RTC_GetDate` would return are step inputs. */
module Clock {
  import opened Types

  /** The values of `changes` (app/app_clock.h). */
  datatype Changes = WaitMessage | ChangeTime | ChangeDate | ChangeAlarm | Display

  const WAIT_MESSAGE: byte := 0
  const CHANGE_TIME: byte := 1
  const CHANGE_DATE: byte := 2
  const CHANGE_ALARM: byte := 3
  const DISPLAY: byte := 4

  /** The numeric value of a state, as stored into `ClockMsg.msg`. */
  function Code(c: Changes): (b: byte)
    ensures b <= DISPLAY
  {
    match c
    case WaitMessage => WAIT_MESSAGE
    case ChangeTime => CHANGE_TIME
    case ChangeDate => CHANGE_DATE
    case ChangeAlarm => CHANGE_ALARM
    case Display => DISPLAY
  }

  /** `HAL_GetTick() - tick_display >= 1000` in the source (a literal, not the
      header's `one_second`, whose `uint8_t` cast would make it 232). */
  const DISPLAY_PERIOD_MS: u32 := 1000

  /** Vendor HAL codes used by the default block. */
  const RTC_WEEKDAY_TUESDAY: byte := 0x02
  const RTC_MONTH_JANUARY: byte := 0x01

  /** The fields of `RTC_TimeTypeDef` / `RTC_DateTypeDef` the task uses. */
  datatype RtcTime = RtcTime(hours: byte, minutes: byte, seconds: byte, subSeconds: u32)
  datatype RtcDate = RtcDate(weekDay: byte, month: byte, date: byte, year: byte)

  /** Calls into the RTC driver that set it (in BCD format). */
  datatype RtcCall = SetTime(time: RtcTime) | SetDate(date: RtcDate)

  /** The default time 23:59:50 and date Tuesday, 31 January (20)23, in BCD. */
  const DefaultTime: RtcTime := RtcTime(0x23, 0x59, 0x50, 0x00)
  const DefaultDate: RtcDate := RtcDate(RTC_WEEKDAY_TUESDAY, RTC_MONTH_JANUARY, 0x31, 0x23)
  const DefaultCalls: seq<RtcCall> := [SetTime(DefaultTime), SetDate(DefaultDate)]
  const DEFAULT_YDAY: u32 := 0x20

  /** The module's globals: `changes`, `tick_display`, `default_data`, and the
      display-facing record `ClockMsg` this task writes. */
  datatype Clock = Clock(changes: Changes, tickDisplay: u32, defaultData: byte, clockMsg: Msg)

  /** The globals' static initial values. */
  const Initial: Clock := Clock(WaitMessage, 0, 1, ZeroMsg)

  /** What one `Clock_Task` call leaves behind: the task's globals, the shared
      `MSGHandler`, and the RTC calls made, in order. */
  datatype Step = Step(c: Clock, handler: Msg, rtc: seq<RtcCall>)

  /** `Clock_Init` without the RTC configuration: records the current tick. */
  function Init(c: Clock, now: u32): (r: Clock)
    ensures r.tickDisplay == now && r == c.(tickDisplay := r.tickDisplay)
  {
    c.(tickDisplay := now)
  }

  /** The one-time default block: applies the defaults when `default_data` is 1
      and bumps it (with `uint8_t` wrap-around). */
  function Defaults(c: Clock): (r: (Clock, seq<RtcCall>))
    ensures c.defaultData == 1 ==>
      r.0 == c.(defaultData := 2, clockMsg := c.clockMsg.(tm := c.clockMsg.tm.(yday := DEFAULT_YDAY)))
      && r.1 == DefaultCalls
    ensures c.defaultData != 1 ==> r == (c, [])
  {
    if c.defaultData == 1 then
      var tm := c.clockMsg.tm.(yday := DEFAULT_YDAY);
      (c.(defaultData := ToByte(c.defaultData + 1), clockMsg := c.clockMsg.(tm := tm)), DefaultCalls)
    else
      (c, [])
  }

  /** `Clock_Task`: the default block, then one step of the state machine.
      `now` is the value of `HAL_GetTick()`; `readTime`/`readDate` are what the
      RTC reports in binary format when the DISPLAY state reads it. */
  function ClockTask(c: Clock, handler: Msg, now: u32, readTime: RtcTime, readDate: RtcDate): (r: Step)
    // The default block runs on the first call only.
    ensures c.defaultData == 1 ==> r.c.defaultData == 2 && |r.rtc| >= 2 && r.rtc[..2] == DefaultCalls
    ensures c.defaultData != 1 ==> r.c.defaultData == c.defaultData
    ensures c.changes !in {ChangeTime, ChangeDate} ==> r.rtc == Defaults(c).1
    // WAIT_MESSAGE: priority CHANGE_TIME > CHANGE_DATE > CHANGE_ALARM > timeout > stay,
    // and the message kind is consumed whichever branch is taken.
    ensures c.changes == WaitMessage ==>
      && r.handler == handler.(msg := WAIT_MESSAGE)
      && r.c.changes == (if handler.msg == CHANGE_TIME then ChangeTime
                         else if handler.msg == CHANGE_DATE then ChangeDate
                         else if handler.msg == CHANGE_ALARM then ChangeAlarm
                         else if Sub32(now, c.tickDisplay) >= DISPLAY_PERIOD_MS then Display
                         else WaitMessage)
    // The display tick is restamped with the current tick exactly on the timeout.
    ensures r.c.tickDisplay ==
      (if c.changes == WaitMessage && handler.msg !in {CHANGE_TIME, CHANGE_DATE, CHANGE_ALARM}
          && Sub32(now, c.tickDisplay) >= DISPLAY_PERIOD_MS
       then now else c.tickDisplay)
    ensures c.changes != WaitMessage ==> r.handler == handler && r.c.tickDisplay == c.tickDisplay
    // The change states always go on to DISPLAY.
    ensures c.changes in {ChangeTime, ChangeDate, ChangeAlarm} ==> r.c.changes == Display
    ensures c.changes == ChangeTime ==>
      r.rtc == Defaults(c).1 + [SetTime(RtcTime(ToByte(handler.tm.hour), ToByte(handler.tm.min), ToByte(handler.tm.sec), 0))]
    // CHANGE_DATE overwrites only the day of the year of `ClockMsg`, and with it
    // whatever the default block put there.
    ensures c.changes == ChangeDate ==>
      && r.c.clockMsg == c.clockMsg.(tm := c.clockMsg.tm.(yday := handler.tm.yday))
      && r.rtc == Defaults(c).1 + [SetDate(RtcDate(ToByte(handler.tm.wday), ToByte(handler.tm.mon),
                                                   ToByte(handler.tm.mday), ToByte(handler.tm.year)))]
    // DISPLAY publishes the RTC reading and returns to WAIT_MESSAGE.
    ensures c.changes == Display ==>
      && r.c.changes == WaitMessage
      && r.c.clockMsg.msg == WAIT_MESSAGE
      && r.c.clockMsg.tm.hour == readTime.hours && r.c.clockMsg.tm.min == readTime.minutes
      && r.c.clockMsg.tm.sec == readTime.seconds
      && r.c.clockMsg.tm.mday == readDate.date && r.c.clockMsg.tm.mon == readDate.month
      && r.c.clockMsg.tm.year == readDate.year && r.c.clockMsg.tm.wday == readDate.weekDay
      && r.c.clockMsg.tm.yday == (if c.defaultData == 1 then DEFAULT_YDAY else c.clockMsg.tm.yday)
      && r.c.clockMsg.tm.isdst == c.clockMsg.tm.isdst
    ensures c.changes != Display && c.changes != ChangeDate ==>
      r.c.clockMsg.tm == (if c.defaultData == 1 then c.clockMsg.tm.(yday := DEFAULT_YDAY) else c.clockMsg.tm)
      && r.c.clockMsg.msg == c.clockMsg.msg
  {
    var (d, calls) := Defaults(c);
    match d.changes
    case WaitMessage =>
      var handler' := handler.(msg := WAIT_MESSAGE);
      if handler.msg == CHANGE_TIME then Step(d.(changes := ChangeTime), handler', calls)
      else if handler.msg == CHANGE_DATE then Step(d.(changes := ChangeDate), handler', calls)
      else if handler.msg == CHANGE_ALARM then Step(d.(changes := ChangeAlarm), handler', calls)
      else if Sub32(now, d.tickDisplay) >= DISPLAY_PERIOD_MS then
        Step(d.(tickDisplay := now, changes := Display), handler', calls)
      else Step(d, handler', calls)
    case ChangeTime =>
      var t := RtcTime(ToByte(handler.tm.hour), ToByte(handler.tm.min), ToByte(handler.tm.sec), 0);
      Step(d.(changes := Display), handler, calls + [SetTime(t)])
    case ChangeDate =>
      var msg := d.clockMsg.(tm := d.clockMsg.tm.(yday := handler.tm.yday));
      var dt := RtcDate(ToByte(handler.tm.wday), ToByte(handler.tm.mon), ToByte(handler.tm.mday), ToByte(handler.tm.year));
      Step(d.(changes := Display, clockMsg := msg), handler, calls + [SetDate(dt)])
    case ChangeAlarm =>
      Step(d.(changes := Display), handler, calls)
    case Display =>
      var tm := d.clockMsg.tm.(mday := readDate.date, mon := readDate.month, year := readDate.year,
                               wday := readDate.weekDay, hour := readTime.hours,
                               min := readTime.minutes, sec := readTime.seconds);
      Step(d.(changes := WaitMessage, clockMsg := Msg(Code(WaitMessage), tm)), handler, calls)
  }

  /** One call's inputs: the tick and the RTC reading. */
  datatype Input = Input(now: u32, time: RtcTime, date: RtcDate)

  /** Runs `Clock_Task` once per input, with no one else touching `MSGHandler`. */
  function Run(c: Clock, handler: Msg, ins: seq<Input>): (r: Step)
    decreases |ins|
  {
    if |ins| == 0 then Step(c, handler, [])
    else
      var st := ClockTask(c, handler, ins[0].now, ins[0].time, ins[0].date);
      var rest := Run(st.c, st.handler, ins[1..]);
      Step(rest.c, rest.handler, st.rtc + rest.rtc)
  }

  /** Once the defaults have been applied and while no message kind arrives,
      the machine only alternates between WAIT_MESSAGE and DISPLAY and never
      sets the RTC again. */
  lemma {:induction false} QuietClockNeverSetsRtc(c: Clock, handler: Msg, ins: seq<Input>)
    requires c.defaultData != 1 && c.changes in {WaitMessage, Display}
    requires handler.msg !in {CHANGE_TIME, CHANGE_DATE, CHANGE_ALARM}
    ensures Run(c, handler, ins).rtc == []
    ensures Run(c, handler, ins).c.changes in {WaitMessage, Display}
    ensures Run(c, handler, ins).c.defaultData == c.defaultData
    decreases |ins|
  {
    if |ins| > 0 {
      var st := ClockTask(c, handler, ins[0].now, ins[0].time, ins[0].date);
      QuietClockNeverSetsRtc(st.c, st.handler, ins[1..]);
    }
  }

  /** A time message is handled in three calls: WAIT_MESSAGE consumes the kind,
      CHANGE_TIME passes the handler's hour, minute and second to the RTC
      unchanged with zero subseconds, and DISPLAY publishes the next reading. */
  lemma TimeChangeSequence(c: Clock, handler: Msg, i0: Input, i1: Input, i2: Input)
    requires c.defaultData != 1 && c.changes == WaitMessage && handler.msg == CHANGE_TIME
    requires handler.tm.hour < 0x100 && handler.tm.min < 0x100 && handler.tm.sec < 0x100
    ensures var r := Run(c, handler, [i0, i1, i2]);
      && r.rtc == [SetTime(RtcTime(handler.tm.hour, handler.tm.min, handler.tm.sec, 0))]
      && r.c.changes == WaitMessage
      && r.handler == handler.(msg := WAIT_MESSAGE)
      && r.c.tickDisplay == c.tickDisplay
      && r.c.clockMsg.tm.hour == i2.time.hours && r.c.clockMsg.tm.mon == i2.date.month
  {
    var s0 := ClockTask(c, handler, i0.now, i0.time, i0.date);
    var s1 := ClockTask(s0.c, s0.handler, i1.now, i1.time, i1.date);
    var s2 := ClockTask(s1.c, s1.handler, i2.now, i2.time, i2.date);
    assert [i0, i1, i2][1..] == [i1, i2];
    assert [i1, i2][1..] == [i2];
    assert [i2][1..] == [];
    assert Run(s2.c, s2.handler, []) == Step(s2.c, s2.handler, []);
    assert Run(s1.c, s1.handler, [i2]) == Step(s2.c, s2.handler, s2.rtc);
    assert Run(s0.c, s0.handler, [i1, i2]) == Step(s2.c, s2.handler, s1.rtc + s2.rtc);
  }
}
