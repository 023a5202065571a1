/** The message-processing task of app/app_serial.c: the seven-state machine
    `Serial_Task`, the field decoder `CanTp_SingleFrameRx`, the receive callback
    `HAL_FDCAN_RxFifo0Callback`, and the reply transmission `CanTp_SingleFrameTx`
    as an output event.

    Byte 0 of the frame plays the role of the SingleFrame protocol control
    information of ISO 15765-2: a high nibble of 0 and the
    payload length in the low nibble. The task compares it as a whole byte
    against the length each message kind needs. Time, date and alarm fields are
    range-checked against constants that read like binary-coded decimal
    (`0x23`, `0x59`, ...) but are compared as plain byte magnitudes. */
module Serial {
  import opened Types

  /** `APP_States`. */
  datatype State = Idle | Message | Time | Date | Alarm | Ok | Error

  /** `APP_Messages`. */
  const SERIAL_MSG_NONE: byte := 0
  const SERIAL_MSG_TIME: byte := 1
  const SERIAL_MSG_DATE: byte := 2
  const SERIAL_MSG_ALARM: byte := 3

  /** Range limits from app/app_serial.h. */
  const HEX_23: byte := 0x23
  const HEX_28: byte := 0x28
  const HEX_29: byte := 0x29
  const HEX_30: byte := 0x30
  const HEX_31: byte := 0x31
  const HEX_59: byte := 0x59
  const HEX_1901: u32 := 0x1901
  const HEX_2099: u32 := 0x2099

  /** Month constants from app/app_serial.h; October to December are written as
      `0x10`, `0x11`, `0x12`. */
  const JANUARY: byte := 0x01
  const FEBRUARY: byte := 0x02
  const MARCH: byte := 0x03
  const APRIL: byte := 0x04
  const MAY: byte := 0x05
  const JUNE: byte := 0x06
  const JULY: byte := 0x07
  const AUGUST: byte := 0x08
  const SEPTEMBER: byte := 0x09
  const OCTOBER: byte := 0x10
  const NOVEMBER: byte := 0x11
  const DECEMBER: byte := 0x12

  /** The two replies the task sends. */
  const OK_MESSAGE: seq<byte> := [0x01, 0x55]
  const ERROR_MESSAGE: seq<byte> := [0x01, 0xAA]

  /** The interrupt-source bit `FDCAN_IT_RX_FIFO0_NEW_MESSAGE` of the vendor HAL. */
  const RX_FIFO0_NEW_MESSAGE: bv32 := 0x1

  /** The module's globals: `STATE_CONTROL`, `NewMessage`, `flagMessage`,
      `msgRecieve` and `MSGHandler`. */
  datatype Serial = Serial(state: State, frame: Frame, flag: byte, received: byte, handler: Msg)

  const ZeroFrame: Frame := [0, 0, 0, 0, 0, 0, 0, 0]

  /** The globals' static initial values. */
  const Initial: Serial := Serial(Idle, ZeroFrame, 0, 0, ZeroMsg)

  /** What one `Serial_Task` call leaves behind, with the frames it transmitted. */
  datatype Step = Step(s: Serial, tx: seq<seq<byte>>)

  /** The result of `CanTp_SingleFrameRx`: its return value and the new
      `flagMessage` and `MSGHandler`. */
  datatype Rx = Rx(received: byte, flag: byte, handler: Msg)

  /** `CanTp_SingleFrameRx`: when the flag is 1, records the message kind, copies
      the fields of that kind from the frame (before any validation), clears the
      flag and reports a message; otherwise reports none and touches nothing. */
  function SingleFrameRx(data: Frame, flag: byte, handler: Msg): (r: Rx)
    ensures flag != 1 ==> r == Rx(SERIAL_MSG_NONE, flag, handler)
    ensures flag == 1 ==> r.received == 1 && r.flag == 0 && r.handler.msg == data[1]
    ensures flag == 1 ==> CopiedByKind(data, handler.tm, r.handler.tm)
  {
    if flag == 1 then
      var tm := handler.tm;
      var tm' :=
        if data[1] == SERIAL_MSG_TIME then tm.(hour := data[2], min := data[3], sec := data[4])
        else if data[1] == SERIAL_MSG_DATE then tm.(mday := data[2], mon := data[3], yday := data[4], year := data[5])
        else if data[1] == SERIAL_MSG_ALARM then tm.(hour := data[2], min := data[3])
        else tm;
      Rx(1, 0, Msg(data[1], tm'))
    else
      Rx(SERIAL_MSG_NONE, flag, handler)
  }

  /** Relates the time record before and after a decode: each field equals
      either its old value or the frame byte assigned to it for the message kind
      in byte 1, and exactly the fields of that kind come from the frame. */
  ghost predicate CopiedByKind(data: Frame, before: Tm, after: Tm)
  {
    var kind := data[1];
    && after.hour == (if kind == SERIAL_MSG_TIME || kind == SERIAL_MSG_ALARM then data[2] else before.hour)
    && after.min == (if kind == SERIAL_MSG_TIME || kind == SERIAL_MSG_ALARM then data[3] else before.min)
    && after.sec == (if kind == SERIAL_MSG_TIME then data[4] else before.sec)
    && after.mday == (if kind == SERIAL_MSG_DATE then data[2] else before.mday)
    && after.mon == (if kind == SERIAL_MSG_DATE then data[3] else before.mon)
    && after.yday == (if kind == SERIAL_MSG_DATE then data[4] else before.yday)
    && after.year == (if kind == SERIAL_MSG_DATE then data[5] else before.year)
    && after.wday == before.wday && after.isdst == before.isdst
  }

  /** The `uint16_t` year the task computes from bytes 4 and 5. */
  function Year(f: Frame): (y: u16)
    ensures y / 0x100 == f[4] && y % 0x100 == f[5]
  {
    (f[4] as int) * 0x100 + (f[5] as int)
  }

  /** The first DATE guard: day, month and packed year within their limits. */
  predicate DateInRange(f: Frame)
  {
    && 0x01 <= f[2] <= HEX_31
    && JANUARY <= f[3] <= DECEMBER
    && HEX_1901 <= Year(f) <= HEX_2099
  }

  /** The nested DATE branches as the source writes them, once the range guard
      has passed: `true` moves to OK, `false` leaves the state at DATE. */
  predicate DateBranchesAccept(f: Frame)
  {
    var day := f[2];
    var mon := f[3];
    if Year(f) % 4 == 0 then
      mon == FEBRUARY && day <= HEX_29
    else if mon == FEBRUARY && day <= HEX_28 then
      true
    else if (mon == APRIL || mon == JUNE || mon == SEPTEMBER || mon == NOVEMBER) && mon <= HEX_30 then
      true
    else
      mon == JANUARY || mon == MARCH || mon == MAY || mon == JULY
      || mon == AUGUST || mon == OCTOBER || mon == DECEMBER
  }

  /** A reference table, independent of the branch structure: the largest day
      byte the DATE state accepts for a month byte, in a leap (`year % 4 == 0`
      on the packed value) or other year; 0 means no day is accepted. */
  function MaxDay(mon: byte, leap: bool): byte
  {
    if leap then
      (if mon == 0x02 then 0x29 else 0)
    else if mon == 0x02 then 0x28
    else if mon in {0x01, 0x03, 0x04, 0x05, 0x06, 0x07, 0x08, 0x09, 0x10, 0x11, 0x12} then 0x31
    else 0
  }

  /** The DATE branches agree with the reference table on every in-range frame. */
  lemma DateBranchesMatchTable(f: Frame)
    requires DateInRange(f)
    ensures DateBranchesAccept(f) <==> f[2] <= MaxDay(f[3], Year(f) % 4 == 0)
  {
  }

  /** The TIME guard: hour, minute, second bytes at most 0x23, 0x59, 0x59. */
  predicate TimeFieldsOk(f: Frame)
  {
    f[2] <= HEX_23 && f[3] <= HEX_59 && f[4] <= HEX_59
  }

  /** The ALARM guard: hour, minute bytes at most 0x23, 0x59. */
  predicate AlarmFieldsOk(f: Frame)
  {
    f[2] <= HEX_23 && f[3] <= HEX_59
  }

  /** `Serial_Task`: one step of the state machine. */
  function SerialTask(s: Serial): (r: Step)
    // Only IDLE reads the receiver; every other state keeps flag and handler.
    ensures s.state == Idle ==>
      && (r.s.state == Message <==> s.flag == 1)
      && (r.s.state != Message ==> r.s.state == Idle)
      && (s.flag != 1 ==> r.s == s.(received := SERIAL_MSG_NONE))
    ensures s.state == Idle && s.flag == 1 ==>
      r.s.flag == 0 && r.s.received == 1 && r.s.handler.msg == s.frame[1]
      && CopiedByKind(s.frame, s.handler.tm, r.s.handler.tm)
    ensures s.state != Idle ==> r.s == s.(state := r.s.state)
    ensures r.s.frame == s.frame
    // MESSAGE dispatches on exact (byte 1, byte 0) pairs.
    ensures s.state == Message ==>
      r.s.state == (if (s.frame[1], s.frame[0]) == (1, 4) then Time
                    else if (s.frame[1], s.frame[0]) == (2, 5) then Date
                    else if (s.frame[1], s.frame[0]) == (3, 3) then Alarm
                    else Error)
    ensures s.state == Time ==> (r.s.state == Ok <==> TimeFieldsOk(s.frame)) && r.s.state in {Ok, Error}
    ensures s.state == Alarm ==> (r.s.state == Ok <==> AlarmFieldsOk(s.frame)) && r.s.state in {Ok, Error}
    ensures s.state == Date ==> (r.s.state == Error <==> !DateInRange(s.frame))
    ensures s.state == Date && DateInRange(s.frame) ==>
      r.s.state == (if s.frame[2] <= MaxDay(s.frame[3], Year(s.frame) % 4 == 0) then Ok else Date)
    // Exactly OK and ERROR transmit, one reply each, and return to IDLE.
    ensures s.state == Ok ==> r.tx == [OK_MESSAGE] && r.s.state == Idle
    ensures s.state == Error ==> r.tx == [ERROR_MESSAGE] && r.s.state == Idle
    ensures s.state !in {Ok, Error} ==> r.tx == []
  {
    var f := s.frame;
    match s.state
    case Idle =>
      var rx := SingleFrameRx(f, s.flag, s.handler);
      var next := if rx.received == 1 then Message else Idle;
      Step(s.(state := next, flag := rx.flag, received := rx.received, handler := rx.handler), [])
    case Message =>
      var next :=
        if f[1] == 1 && f[0] == 4 then Time
        else if f[1] == 2 && f[0] == 5 then Date
        else if f[1] == 3 && f[0] == 3 then Alarm
        else Error;
      Step(s.(state := next), [])
    case Time =>
      Step(s.(state := if TimeFieldsOk(f) then Ok else Error), [])
    case Date =>
      var next :=
        if DateInRange(f) then (if DateBranchesAccept(f) then Ok else Date)
        else Error;
      DateBranchesMatchTableIfInRange(f);
      Step(s.(state := next), [])
    case Alarm =>
      Step(s.(state := if AlarmFieldsOk(f) then Ok else Error), [])
    case Ok =>
      Step(s.(state := Idle), [OK_MESSAGE])
    case Error =>
      Step(s.(state := Idle), [ERROR_MESSAGE])
  }

  /** `DateBranchesMatchTable` in the form `SerialTask` needs, for any frame. */
  lemma DateBranchesMatchTableIfInRange(f: Frame)
    ensures DateInRange(f) ==> (DateBranchesAccept(f) <==> f[2] <= MaxDay(f[3], Year(f) % 4 == 0))
  {
    if DateInRange(f) {
      DateBranchesMatchTable(f);
    }
  }

  /** `HAL_FDCAN_RxFifo0Callback`: on a new-message interrupt, stores the frame
      and sets `flagMessage` to 0 (not 1); otherwise does nothing. */
  function RxCallback(s: Serial, its: bv32, data: Frame): (r: Serial)
    ensures its & RX_FIFO0_NEW_MESSAGE != 0 ==> r == s.(frame := data, flag := 0)
    ensures its & RX_FIFO0_NEW_MESSAGE == 0 ==> r == s
    ensures r.flag != 1 || s.flag == 1
  {
    if its & RX_FIFO0_NEW_MESSAGE != 0 then s.(frame := data, flag := 0) else s
  }

  /** `n` consecutive `Serial_Task` calls with no interrupt in between. */
  function Run(s: Serial, n: nat): (r: Step)
    decreases n
  {
    if n == 0 then Step(s, [])
    else
      var st := SerialTask(s);
      var rest := Run(st.s, n - 1);
      Step(rest.s, st.tx + rest.tx)
  }

  /** The outcome a single frame meets once the machine has picked it up. */
  datatype Verdict = Accepted | Rejected | Stalled

  /** A whole-frame classification, stated without reference to the states. */
  function Classify(f: Frame): Verdict
  {
    if f[1] == 1 && f[0] == 4 then (if TimeFieldsOk(f) then Accepted else Rejected)
    else if f[1] == 2 && f[0] == 5 then
      (if !DateInRange(f) then Rejected
       else if f[2] <= MaxDay(f[3], Year(f) % 4 == 0) then Accepted
       else Stalled)
    else if f[1] == 3 && f[0] == 3 then (if AlarmFieldsOk(f) then Accepted else Rejected)
    else Rejected
  }

  /** Steps from IDLE to the reply: frames that fail the dispatch skip the
      field-check state. */
  function StepsToReply(f: Frame): nat
  {
    if (f[1] == 1 && f[0] == 4) || (f[1] == 2 && f[0] == 5) || (f[1] == 3 && f[0] == 3) then 4 else 3
  }

  /** Once a date frame passes the range check but not the month branches, the
      machine stays in DATE, transmits nothing and leaves everything else alone
      for as long as no interrupt replaces the frame. */
  lemma {:induction false} DateStallsForever(s: Serial, n: nat)
    requires s.state == Date && DateInRange(s.frame)
    requires s.frame[2] > MaxDay(s.frame[3], Year(s.frame) % 4 == 0)
    ensures Run(s, n) == Step(s, [])
    decreases n
  {
    if n > 0 {
      assert SerialTask(s).s == s;
      DateStallsForever(s, n - 1);
    }
  }

  /** Running the machine from a raised flag in IDLE: an accepted frame yields
      exactly one OK reply, a rejected one exactly one ERROR reply, each after
      `StepsToReply` calls and back in IDLE; a stalled date frame yields no reply.
      In every case the decoded fields were copied into the handler first. */
  lemma FramePipeline(s: Serial)
    requires s.state == Idle && s.flag == 1
    ensures var r := Run(s, StepsToReply(s.frame));
      && r.s.flag == 0
      && r.s.handler.msg == s.frame[1]
      && CopiedByKind(s.frame, s.handler.tm, r.s.handler.tm)
      && (Classify(s.frame) == Accepted ==> r.s.state == Idle && r.tx == [OK_MESSAGE])
      && (Classify(s.frame) == Rejected ==> r.s.state == Idle && r.tx == [ERROR_MESSAGE])
      && (Classify(s.frame) == Stalled ==> r.s.state == Date && r.tx == [])
  {
    var f := s.frame;
    var s1 := SerialTask(s).s;
    var s2 := SerialTask(s1).s;
    var s3 := SerialTask(s2).s;
    var s4 := SerialTask(s3).s;
    assert Run(s4, 0) == Step(s4, []);
    assert Run(s3, 1) == Step(s4, SerialTask(s3).tx);
    assert Run(s2, 2) == Step(s4, SerialTask(s2).tx + SerialTask(s3).tx);
    assert Run(s1, 3) == Step(s4, SerialTask(s1).tx + SerialTask(s2).tx + SerialTask(s3).tx);
    assert Run(s, 4) == Step(s4, SerialTask(s).tx + SerialTask(s1).tx + SerialTask(s2).tx + SerialTask(s3).tx);
    assert Run(s2, 1) == Step(s3, SerialTask(s2).tx);
    assert Run(s1, 2) == Step(s3, SerialTask(s1).tx + SerialTask(s2).tx);
    assert Run(s, 3) == Step(s3, SerialTask(s).tx + SerialTask(s1).tx + SerialTask(s2).tx);
  }

  /** A frame is decoded into the handler before it is validated: a TIME frame
      whose hour byte is out of range is answered with ERROR, yet the handler
      already holds that hour. */
  lemma RejectedFrameStillOverwrites(s: Serial)
    requires s.state == Idle && s.flag == 1
    requires s.frame[0] == 4 && s.frame[1] == SERIAL_MSG_TIME && s.frame[2] > HEX_23
    ensures Run(s, 4).tx == [ERROR_MESSAGE]
    ensures Run(s, 4).s.handler.tm.hour == s.frame[2]
    ensures Run(s, 4).s.handler.msg == SERIAL_MSG_TIME
  {
    FramePipeline(s);
  }

  /** The events the machine sees: a task call or a receive interrupt. */
  datatype Event = TaskCall | Interrupt(its: bv32, data: Frame)

  /** Replays a sequence of events, collecting the transmitted frames. */
  function Replay(s: Serial, evs: seq<Event>): (r: Step)
    decreases |evs|
  {
    if |evs| == 0 then Step(s, [])
    else
      var st := match evs[0]
        case TaskCall => SerialTask(s)
        case Interrupt(its, data) => Step(RxCallback(s, its, data), []);
      var rest := Replay(st.s, evs[1..]);
      Step(rest.s, st.tx + rest.tx)
  }

  /** Since the callback lowers the flag instead of raising it, a machine that
      starts in IDLE with the flag not 1 (as the static initial state does) stays
      in IDLE under every interleaving of task calls and interrupts: it never
      transmits and never changes the message handler. */
  lemma {:induction false} NeverLeavesIdle(s: Serial, evs: seq<Event>)
    requires s.state == Idle && s.flag != 1
    ensures Replay(s, evs).s.state == Idle
    ensures Replay(s, evs).s.flag != 1
    ensures Replay(s, evs).s.handler == s.handler
    ensures Replay(s, evs).tx == []
    decreases |evs|
  {
    if |evs| > 0 {
      var st := match evs[0]
        case TaskCall => SerialTask(s)
        case Interrupt(its, data) => Step(RxCallback(s, its, data), []);
      NeverLeavesIdle(st.s, evs[1..]);
    }
  }

  /** Worked cases for the DATE check on binary-coded-decimal frames: 29
      February 2024 is accepted; 29 February 2023 is neither accepted nor
      rejected (it stalls); month 0x13 is rejected; 31 April 2023 is accepted
      because the 30-day branch compares the month byte, not the day, with 0x30;
      and the packed year 0x1910 counts as a leap year while 0x1912 does not. */
  lemma DateExamples()
    ensures Classify([5, 2, 0x29, 0x02, 0x20, 0x24, 0, 0]) == Accepted
    ensures Classify([5, 2, 0x29, 0x02, 0x20, 0x23, 0, 0]) == Stalled
    ensures Classify([5, 2, 0x01, 0x13, 0x20, 0x23, 0, 0]) == Rejected
    ensures Classify([5, 2, 0x31, 0x04, 0x20, 0x23, 0, 0]) == Accepted
    ensures Classify([5, 2, 0x29, 0x02, 0x19, 0x10, 0, 0]) == Accepted
    ensures Classify([5, 2, 0x29, 0x02, 0x19, 0x12, 0, 0]) == Stalled
  {
  }
}
