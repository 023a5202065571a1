/** The composition root app/main.c: the fixed initialisation order, the
    super-loop that runs the five tasks in a fixed order forever, the two
    periodic triggers `heart_beat` and `peth_the_dog`, and `safe_state` as a
    terminal state. The receive interrupt is a separate sequential event. */
module MainLoop {
  import opened Types
  import Serial
  import Clock
  import Display

  /** The thresholds `TOGGLE_HEART` and `REFRESH_WWDG`, which main.c uses but
      none of the headers it includes (app_bsp.h, app_serial.h, app_clock.h,
      app_display.h) defines. */
  datatype Config = Config(toggleHeart: u32, refreshWwdg: u32)

  /** Everything the loop does to the outside world, in order. */
  datatype Output =
    | CanTx(frame: seq<byte>)
    | Rtc(rtcCall: Clock.RtcCall)
    | ToggleLed
    | RefreshWatchdog
    | Lcd(lcdCall: Display.LcdCall)

  /** `Running`; stopped in `safe_state` (interrupts off, spinning until reset);
      or past a C operation whose result the language leaves undefined (a table
      read outside its bounds), after which the model claims nothing. */
  datatype Mode = Running | Halted(file: seq<char>, line: u32, error: byte) | Undefined

  /** All globals of the program. `serial.handler` is `MSGHandler`, shared by
      the serial task (writer) and the clock task (reader). */
  datatype System = System(
    mode: Mode,
    serial: Serial.Serial,
    clock: Clock.Clock,
    display: Display.Display,
    tickHeart: u32,
    tickDog: u32)

  /** A timestamp check shared in shape by `heart_beat` and `peth_the_dog`: the
      action fires exactly when the unsigned 32-bit elapsed time since `stamp`
      has reached `threshold`, and then the stamp moves to `now`. */
  function Periodic(stamp: u32, now: u32, threshold: u32): (r: (u32, bool))
    ensures r.1 <==> Sub32(now, stamp) >= threshold
    ensures r.0 == (if r.1 then now else stamp)
  {
    if Sub32(now, stamp) >= threshold then (now, true) else (stamp, false)
  }

  /** `heart_beat`: toggles the LED when `TOGGLE_HEART` ms have elapsed. */
  function HeartBeat(cfg: Config, s: System, now: u32): (r: (System, seq<Output>))
    ensures Sub32(now, s.tickHeart) >= cfg.toggleHeart ==> r == (s.(tickHeart := now), [ToggleLed])
    ensures Sub32(now, s.tickHeart) < cfg.toggleHeart ==> r == (s, [])
  {
    var p := Periodic(s.tickHeart, now, cfg.toggleHeart);
    (s.(tickHeart := p.0), if p.1 then [ToggleLed] else [])
  }

  /** `peth_the_dog`: refreshes the window watchdog when `REFRESH_WWDG` ms have
      elapsed. */
  function PethTheDog(cfg: Config, s: System, now: u32): (r: (System, seq<Output>))
    ensures Sub32(now, s.tickDog) >= cfg.refreshWwdg ==> r == (s.(tickDog := now), [RefreshWatchdog])
    ensures Sub32(now, s.tickDog) < cfg.refreshWwdg ==> r == (s, [])
  {
    var p := Periodic(s.tickDog, now, cfg.refreshWwdg);
    (s.(tickDog := p.0), if p.1 then [RefreshWatchdog] else [])
  }

  /** The firing pattern of a periodic trigger over a sequence of tick readings. */
  function Firings(stamp: u32, nows: seq<u32>, threshold: u32): (r: seq<bool>)
    ensures |r| == |nows|
    decreases |nows|
  {
    if |nows| == 0 then []
    else
      var p := Periodic(stamp, nows[0], threshold);
      [p.1] + Firings(p.0, nows[1..], threshold)
  }

  /** While the tick counter does not wrap (readings non-decreasing from the
      stamp), consecutive firings of a trigger are at least `threshold` ms apart,
      and the first one is at least `threshold` ms after the stamp. */
  lemma {:induction false} FiringsSpaced(stamp: u32, nows: seq<u32>, threshold: u32)
    requires forall i, j :: 0 <= i < j < |nows| ==> nows[i] <= nows[j]
    requires forall i :: 0 <= i < |nows| ==> stamp <= nows[i]
    ensures forall i :: 0 <= i < |nows| && Firings(stamp, nows, threshold)[i] ==> nows[i] - stamp >= threshold
    ensures forall i, j :: 0 <= i < j < |nows| && Firings(stamp, nows, threshold)[i] && Firings(stamp, nows, threshold)[j]
              ==> nows[j] - nows[i] >= threshold
    decreases |nows|
  {
    if |nows| > 0 {
      var p := Periodic(stamp, nows[0], threshold);
      var stamp', fire := p.0, p.1;
      var tail := nows[1..];
      FiringsSpaced(stamp', tail, threshold);
      var r := Firings(stamp, nows, threshold);
      assert r == [fire] + Firings(stamp', tail, threshold);
      forall i | 0 <= i < |nows| && r[i]
        ensures nows[i] - stamp >= threshold
      {
        if i > 0 {
          assert tail[i - 1] == nows[i];
          assert r[i] == Firings(stamp', tail, threshold)[i - 1];
        }
      }
      forall i, j | 0 <= i < j < |nows| && r[i] && r[j]
        ensures nows[j] - nows[i] >= threshold
      {
        assert tail[j - 1] == nows[j];
        assert r[j] == Firings(stamp', tail, threshold)[j - 1];
        if i > 0 {
          assert tail[i - 1] == nows[i];
          assert r[i] == Firings(stamp', tail, threshold)[i - 1];
        }
      }
    }
  }

  /** The initialisation calls of `main`, in the order they are made. */
  datatype InitCall = SerialInit | ClockInit | HeartInit | DogInit | DisplayInit

  const InitOrder: seq<InitCall> := [SerialInit, ClockInit, HeartInit, DogInit, DisplayInit]

  /** The start of `main`: every global at its static initial value, then the
      initialisation calls once, in order. `Clock_Init`, `heart_init` and
      `dog_init` each record their own reading of the tick counter; the
      peripheral set-up they and the other inits perform is not modelled. */
  function Boot(nowClock: u32, nowHeart: u32, nowDog: u32): (r: (System, seq<InitCall>))
    ensures r.1 == InitOrder
    ensures r.0.mode == Running
    ensures r.0.clock.tickDisplay == nowClock && r.0.tickHeart == nowHeart && r.0.tickDog == nowDog
    ensures r.0.serial.state == Serial.Idle && r.0.serial.flag == 0 && r.0.serial.handler == ZeroMsg
    ensures r.0.clock.changes == Clock.WaitMessage && r.0.clock.defaultData == 1
    ensures r.0.display.state == Display.DISPLAY_TIME && r.0.clock.clockMsg == ZeroMsg
  {
    var s := System(Running, Serial.Initial, Clock.Initial, Display.Initial, 0, 0);
    var s1 := s.(clock := Clock.Init(s.clock, nowClock));
    var s2 := s1.(tickHeart := nowHeart);
    var s3 := s2.(tickDog := nowDog);
    (s3, [SerialInit, ClockInit, HeartInit, DogInit, DisplayInit])
  }

  /** The inputs one loop iteration reads: each task's tick reading and the RTC
      reading the clock task gets if it reads the RTC. */
  datatype LoopInput = LoopInput(
    nowClock: u32, nowHeart: u32, nowDog: u32, time: Clock.RtcTime, date: Clock.RtcDate)

  /** Which task produces an output; the loop order is the order of ranks. */
  function Rank(o: Output): nat
  {
    match o
    case CanTx(_) => 0
    case Rtc(_) => 1
    case ToggleLed => 2
    case RefreshWatchdog => 3
    case Lcd(_) => 4
  }

  predicate InLoopOrder(outs: seq<Output>)
  {
    forall i, j :: 0 <= i < j < |outs| ==> Rank(outs[i]) <= Rank(outs[j])
  }

  /** The serial task's transmissions as outputs. */
  function CanOutputs(frames: seq<seq<byte>>): (r: seq<Output>)
    ensures |r| == |frames| && forall i :: 0 <= i < |r| ==> r[i] == CanTx(frames[i])
    decreases |frames|
  {
    if |frames| == 0 then [] else [CanTx(frames[0])] + CanOutputs(frames[1..])
  }

  /** The clock task's RTC calls as outputs. */
  function RtcOutputs(calls: seq<Clock.RtcCall>): (r: seq<Output>)
    ensures |r| == |calls| && forall i :: 0 <= i < |r| ==> r[i] == Rtc(calls[i])
    decreases |calls|
  {
    if |calls| == 0 then [] else [Rtc(calls[0])] + RtcOutputs(calls[1..])
  }

  /** The display task's LCD calls as outputs. */
  function LcdOutputs(calls: seq<Display.LcdCall>): (r: seq<Output>)
    ensures |r| == |calls| && forall i :: 0 <= i < |r| ==> r[i] == Lcd(calls[i])
    decreases |calls|
  {
    if |calls| == 0 then [] else [Lcd(calls[0])] + LcdOutputs(calls[1..])
  }

  /** Appending outputs of later tasks keeps the loop order. */
  lemma OrderedAppend(a: seq<Output>, b: seq<Output>, k: nat, hi: nat)
    requires InLoopOrder(a) && InLoopOrder(b) && k <= hi
    requires forall i :: 0 <= i < |a| ==> Rank(a[i]) <= k
    requires forall j :: 0 <= j < |b| ==> k <= Rank(b[j]) <= hi
    ensures InLoopOrder(a + b)
    ensures forall i :: 0 <= i < |a + b| ==> Rank((a + b)[i]) <= hi
  {
    forall i, j | 0 <= i < j < |a + b|
      ensures Rank((a + b)[i]) <= Rank((a + b)[j])
    {
      if j < |a| {
        assert (a + b)[i] == a[i] && (a + b)[j] == a[j];
      } else if i < |a| {
        assert (a + b)[i] == a[i] && (a + b)[j] == b[j - |a|];
      } else {
        assert (a + b)[i] == b[i - |a|] && (a + b)[j] == b[j - |a|];
      }
    }
  }

  /** The serial and clock tasks of one pass: `Clock_Task` reads the
      `MSGHandler` that `Serial_Task` has just written and writes it back. */
  function SerialThenClock(s: System, inp: LoopInput): (r: (System, seq<Output>))
    ensures r.0 == s.(serial := r.0.serial, clock := r.0.clock)
    ensures InLoopOrder(r.1) && forall i :: 0 <= i < |r.1| ==> Rank(r.1[i]) <= 1
  {
    var ser := Serial.SerialTask(s.serial);
    var clk := Clock.ClockTask(s.clock, ser.s.handler, inp.nowClock, inp.time, inp.date);
    var can, rtc := CanOutputs(ser.tx), RtcOutputs(clk.rtc);
    OrderedAppend(can, rtc, 0, 1);
    (s.(serial := ser.s.(handler := clk.handler), clock := clk.c), can + rtc)
  }

  /** What `heart_beat` and `peth_the_dog` output in one pass: the LED toggle
      when the heart trigger fires, then the watchdog refresh when the dog
      trigger fires. */
  function TriggerOutputs(cfg: Config, s: System, inp: LoopInput): (r: seq<Output>)
    ensures forall i :: 0 <= i < |r| ==> !r[i].Rtc? && !r[i].CanTx?
  {
    (if Periodic(s.tickHeart, inp.nowHeart, cfg.toggleHeart).1 then [ToggleLed] else [])
    + (if Periodic(s.tickDog, inp.nowDog, cfg.refreshWwdg).1 then [RefreshWatchdog] else [])
  }

  /** `heart_beat` then `peth_the_dog`. */
  function Triggers(cfg: Config, s: System, inp: LoopInput): (r: (System, seq<Output>))
    ensures r.0 == s.(tickHeart := r.0.tickHeart, tickDog := r.0.tickDog)
    ensures r.0.tickHeart == Periodic(s.tickHeart, inp.nowHeart, cfg.toggleHeart).0
    ensures r.0.tickDog == Periodic(s.tickDog, inp.nowDog, cfg.refreshWwdg).0
    ensures r.1 == TriggerOutputs(cfg, s, inp)
    ensures InLoopOrder(r.1) && forall i :: 0 <= i < |r.1| ==> 2 <= Rank(r.1[i]) <= 3
    ensures forall i :: 0 <= i < |r.1| ==> r.1[i] in {ToggleLed, RefreshWatchdog}
  {
    var hb := HeartBeat(cfg, s, inp.nowHeart);
    var wd := PethTheDog(cfg, hb.0, inp.nowDog);
    OrderedAppend(hb.1, wd.1, 2, 3);
    (wd.0, hb.1 + wd.1)
  }

  /** The first four tasks of one pass, up to the display task. */
  function FrontTasks(cfg: Config, s: System, inp: LoopInput): (r: (System, seq<Output>))
    ensures r.0.mode == s.mode && r.0.display == s.display
    ensures r.0.serial == SerialThenClock(s, inp).0.serial && r.0.clock == SerialThenClock(s, inp).0.clock
    ensures r.0.tickHeart == Periodic(s.tickHeart, inp.nowHeart, cfg.toggleHeart).0
    ensures r.0.tickDog == Periodic(s.tickDog, inp.nowDog, cfg.refreshWwdg).0
    ensures r.1 == SerialThenClock(s, inp).1 + TriggerOutputs(cfg, s, inp)
    ensures InLoopOrder(r.1) && forall i :: 0 <= i < |r.1| ==> Rank(r.1[i]) <= 3
  {
    var sc := SerialThenClock(s, inp);
    var tr := Triggers(cfg, sc.0, inp);
    OrderedAppend(sc.1, tr.1, 1, 3);
    (tr.0, sc.1 + tr.1)
  }

  /** `Display_Task` within a pass. A date display whose month or weekday is
      outside its table is undefined behaviour. */
  function DisplayPhase(s: System): (r: (System, seq<Output>))
    requires s.mode == Running
    ensures r.0.serial == s.serial && r.0.clock == s.clock
    ensures r.0.tickHeart == s.tickHeart && r.0.tickDog == s.tickDog
    ensures r.0.mode == (if s.display.state == Display.DISPLAY_DATE && !Display.DateIndexable(s.clock.clockMsg.tm)
                         then Undefined else Running)
    ensures r.0.mode == Running ==>
      && r.0.display == Display.DisplayTask(s.display, s.clock.clockMsg).d
      && r.1 == LcdOutputs(Display.DisplayTask(s.display, s.clock.clockMsg).lcd)
    ensures r.0.mode != Running ==> r.0.display == s.display && r.1 == []
    ensures InLoopOrder(r.1) && forall i :: 0 <= i < |r.1| ==> Rank(r.1[i]) == 4
    ensures forall i :: 0 <= i < |r.1| ==> r.1[i].Lcd?
  {
    if s.display.state == Display.DISPLAY_DATE && !Display.DateIndexable(s.clock.clockMsg.tm) then
      (s.(mode := Undefined), [])
    else
      var disp := Display.DisplayTask(s.display, s.clock.clockMsg);
      (s.(display := disp.d), LcdOutputs(disp.lcd))
  }

  /** One pass of the `for( ;; )` body: `Serial_Task`, `Clock_Task`,
      `heart_beat`, `peth_the_dog`, `Display_Task`, each seeing the globals the
      previous one left. A stopped system does nothing; a date display whose
      month or weekday is outside its table leaves the modelled behaviour. */
  function Iterate(cfg: Config, s: System, inp: LoopInput): (r: (System, seq<Output>))
    ensures s.mode != Running ==> r == (s, [])
    ensures InLoopOrder(r.1)
    ensures s.mode == Running ==> r.0.mode in {Running, Undefined}
    ensures s.mode == Running ==>
      && r.0.serial == SerialThenClock(s, inp).0.serial
      && r.0.clock == SerialThenClock(s, inp).0.clock
      && (r.0.mode == Undefined <==>
            s.display.state == Display.DISPLAY_DATE && !Display.DateIndexable(r.0.clock.clockMsg.tm))
    // `heart_beat` and `peth_the_dog` act on their own readings of the tick.
    ensures s.mode == Running ==>
      && r.0.tickHeart == Periodic(s.tickHeart, inp.nowHeart, cfg.toggleHeart).0
      && r.0.tickDog == Periodic(s.tickDog, inp.nowDog, cfg.refreshWwdg).0
    // `Display_Task` formats the `ClockMsg` the clock task has just left.
    ensures s.mode == Running && r.0.mode == Running ==>
      && r.0.display == Display.DisplayTask(s.display, r.0.clock.clockMsg).d
      && r.1 == SerialThenClock(s, inp).1 + TriggerOutputs(cfg, s, inp)
                + LcdOutputs(Display.DisplayTask(s.display, r.0.clock.clockMsg).lcd)
    ensures s.mode == Running && r.0.mode == Undefined ==>
      && r.0.display == s.display
      && r.1 == SerialThenClock(s, inp).1 + TriggerOutputs(cfg, s, inp)
  {
    if s.mode != Running then (s, [])
    else
      var front := FrontTasks(cfg, s, inp);
      var back := DisplayPhase(front.0);
      OrderedAppend(front.1, back.1, 4, 4);
      (back.0, front.1 + back.1)
  }

  /** `safe_state`: records where the fault came from and stops for good. */
  function SafeState(s: System, file: seq<char>, line: u32, error: byte): (r: System)
    ensures r.mode == Halted(file, line, error)
    ensures r == s.(mode := r.mode)
  {
    s.(mode := Halted(file, line, error))
  }

  /** What can happen between two observations of the program: a loop
      iteration, a CAN receive interrupt, or a fatal error. */
  datatype Event =
    | Loop(inp: LoopInput)
    | CanRx(its: bv32, data: Frame)
    | Fatal(file: seq<char>, line: u32, error: byte)

  /** One event. Interrupts and fatal errors are masked once the system has
      stopped (`safe_state` disables interrupts and never returns). */
  function Handle(cfg: Config, s: System, e: Event): (r: (System, seq<Output>))
    ensures s.mode != Running ==> r == (s, [])
  {
    if s.mode != Running then (s, [])
    else
      match e
      case Loop(inp) => Iterate(cfg, s, inp)
      case CanRx(its, data) => (s.(serial := Serial.RxCallback(s.serial, its, data)), [])
      case Fatal(file, line, error) => (SafeState(s, file, line, error), [])
  }

  /** Replays a sequence of events, collecting the outputs. */
  function Replay(cfg: Config, s: System, evs: seq<Event>): (r: (System, seq<Output>))
    decreases |evs|
  {
    if |evs| == 0 then (s, [])
    else
      var h := Handle(cfg, s, evs[0]);
      var rest := Replay(cfg, h.0, evs[1..]);
      (rest.0, h.1 + rest.1)
  }

  /** Once halted (or past undefined behaviour), nothing changes and nothing is
      output, whatever happens afterwards. */
  lemma {:induction false} StoppedIsTerminal(cfg: Config, s: System, evs: seq<Event>)
    requires s.mode != Running
    ensures Replay(cfg, s, evs) == (s, [])
    decreases |evs|
  {
    if |evs| > 0 {
      var h := Handle(cfg, s, evs[0]);
      assert h == (s, []);
      StoppedIsTerminal(cfg, s, evs[1..]);
      var rest := Replay(cfg, s, evs[1..]);
      assert rest == (s, []);
      assert Replay(cfg, s, evs) == (rest.0, h.1 + rest.1);
      assert h.1 + rest.1 == [];
    }
  }

  /** The state the program stays in: the serial machine idle with the receive
      flag down, no message kind pending for the clock, the clock alternating
      between WAIT_MESSAGE and DISPLAY, and the default block either pending or
      done. */
  predicate Quiet(s: System)
  {
    && s.serial.state == Serial.Idle
    && s.serial.flag != 1
    && s.serial.handler.msg == 0
    && s.clock.changes in {Clock.WaitMessage, Clock.Display}
    && s.clock.defaultData in {1, 2}
  }

  /** The RTC calls among a sequence of outputs. */
  function RtcCallsOf(outs: seq<Output>): seq<Clock.RtcCall>
    decreases |outs|
  {
    if |outs| == 0 then []
    else (if outs[0].Rtc? then [outs[0].rtcCall] else []) + RtcCallsOf(outs[1..])
  }

  lemma {:induction false} RtcCallsOfAppend(a: seq<Output>, b: seq<Output>)
    ensures RtcCallsOf(a + b) == RtcCallsOf(a) + RtcCallsOf(b)
    decreases |a|
  {
    if |a| > 0 {
      assert (a + b)[1..] == a[1..] + b;
      RtcCallsOfAppend(a[1..], b);
    } else {
      assert a + b == b;
    }
  }

  lemma {:induction false} RtcCallsOfRtc(calls: seq<Clock.RtcCall>)
    ensures RtcCallsOf(RtcOutputs(calls)) == calls
    decreases |calls|
  {
    if |calls| > 0 {
      assert RtcOutputs(calls)[1..] == RtcOutputs(calls[1..]);
      RtcCallsOfRtc(calls[1..]);
    }
  }

  lemma {:induction false} RtcCallsOfNone(outs: seq<Output>)
    requires forall i :: 0 <= i < |outs| ==> !outs[i].Rtc?
    ensures RtcCallsOf(outs) == []
    decreases |outs|
  {
    if |outs| > 0 {
      RtcCallsOfNone(outs[1..]);
    }
  }

  /** No output of `outs` is a CAN transmission. */
  predicate NoCanTx(outs: seq<Output>)
  {
    forall i :: 0 <= i < |outs| ==> !outs[i].CanTx?
  }

  lemma NoCanTxAppend(a: seq<Output>, b: seq<Output>)
    requires NoCanTx(a) && NoCanTx(b)
    ensures NoCanTx(a + b)
  {
    forall i | 0 <= i < |a + b|
      ensures !(a + b)[i].CanTx?
    {
      if i >= |a| {
        assert (a + b)[i] == b[i - |a|];
      }
    }
  }

  /** The serial and clock tasks output the clock task's RTC calls, and a CAN
      transmission only when the serial task replies. */
  lemma SerialThenClockOutputs(s: System, inp: LoopInput)
    ensures RtcCallsOf(SerialThenClock(s, inp).1) ==
      Clock.ClockTask(s.clock, Serial.SerialTask(s.serial).s.handler, inp.nowClock, inp.time, inp.date).rtc
    ensures Serial.SerialTask(s.serial).tx == [] ==> NoCanTx(SerialThenClock(s, inp).1)
  {
    var ser := Serial.SerialTask(s.serial);
    var clk := Clock.ClockTask(s.clock, ser.s.handler, inp.nowClock, inp.time, inp.date);
    var can, rtc := CanOutputs(ser.tx), RtcOutputs(clk.rtc);
    assert SerialThenClock(s, inp).1 == can + rtc;
    RtcCallsOfAppend(can, rtc);
    RtcCallsOfNone(can);
    RtcCallsOfRtc(clk.rtc);
    if ser.tx == [] {
      NoCanTxAppend(can, rtc);
    }
  }

  /** The RTC calls of one loop pass are exactly the clock task's, and it
      transmits on the bus only when the serial task replies. */
  lemma IterateOutputs(cfg: Config, s: System, inp: LoopInput)
    requires s.mode == Running
    ensures RtcCallsOf(Iterate(cfg, s, inp).1) ==
      Clock.ClockTask(s.clock, Serial.SerialTask(s.serial).s.handler, inp.nowClock, inp.time, inp.date).rtc
    ensures Serial.SerialTask(s.serial).tx == [] ==> NoCanTx(Iterate(cfg, s, inp).1)
  {
    var r := Iterate(cfg, s, inp);
    var sc, tr := SerialThenClock(s, inp).1, TriggerOutputs(cfg, s, inp);
    var lcd := if r.0.mode == Running then LcdOutputs(Display.DisplayTask(s.display, r.0.clock.clockMsg).lcd) else [];
    assert r.1 == sc + tr + lcd;
    SerialThenClockOutputs(s, inp);
    RtcCallsOfAppend(sc, tr);
    RtcCallsOfAppend(sc + tr, lcd);
    RtcCallsOfNone(tr);
    RtcCallsOfNone(lcd);
    if NoCanTx(sc) {
      NoCanTxAppend(sc, tr);
      NoCanTxAppend(sc + tr, lcd);
    }
  }

  /** One loop pass from a quiet state keeps it quiet. */
  lemma IterateKeepsQuiet(cfg: Config, s: System, inp: LoopInput)
    requires Quiet(s) && s.mode == Running
    ensures Quiet(Iterate(cfg, s, inp).0)
    ensures Iterate(cfg, s, inp).0.clock.defaultData ==
      (if s.clock.defaultData == 1 then 2 else s.clock.defaultData)
  {
  }

  /** One event from a quiet state: the state stays quiet, nothing is sent on
      the bus, and the only RTC calls are the defaults, made while the default
      block was still pending. */
  lemma HandleKeepsQuiet(cfg: Config, s: System, e: Event)
    requires Quiet(s)
    ensures Quiet(Handle(cfg, s, e).0)
    ensures NoCanTx(Handle(cfg, s, e).1)
    ensures RtcCallsOf(Handle(cfg, s, e).1) == (if Handle(cfg, s, e).0.clock.defaultData != s.clock.defaultData then Clock.DefaultCalls else [])
    ensures Handle(cfg, s, e).0.clock.defaultData != s.clock.defaultData ==> s.clock.defaultData == 1
  {
    if s.mode == Running && e.Loop? {
      var ser := Serial.SerialTask(s.serial);
      var clk := Clock.ClockTask(s.clock, ser.s.handler, e.inp.nowClock, e.inp.time, e.inp.date);
      assert ser.tx == [];
      IterateOutputs(cfg, s, e.inp);
      IterateKeepsQuiet(cfg, s, e.inp);
    } else if s.mode == Running {
      RtcCallsOfNone([]);
    }
  }

  /** The whole-program consequence of the receive callback lowering the flag:
      from boot, under every interleaving of loop iterations, receive interrupts
      and fatal errors, the serial machine never leaves IDLE and never transmits,
      the clock never leaves WAIT_MESSAGE/DISPLAY, and the RTC is set at most
      once, with the defaults. */
  lemma {:induction false} QuietForever(cfg: Config, s: System, evs: seq<Event>)
    requires Quiet(s)
    ensures Quiet(Replay(cfg, s, evs).0)
    ensures NoCanTx(Replay(cfg, s, evs).1)
    ensures RtcCallsOf(Replay(cfg, s, evs).1) == [] ||
            (s.clock.defaultData == 1 && RtcCallsOf(Replay(cfg, s, evs).1) == Clock.DefaultCalls)
    ensures Replay(cfg, s, evs).0.clock.defaultData == 1 ==> RtcCallsOf(Replay(cfg, s, evs).1) == []
    ensures s.clock.defaultData != 1 ==> Replay(cfg, s, evs).0.clock.defaultData == s.clock.defaultData
    decreases |evs|
  {
    if |evs| > 0 {
      var h := Handle(cfg, s, evs[0]);
      var s', out := h.0, h.1;
      HandleKeepsQuiet(cfg, s, evs[0]);
      QuietForever(cfg, s', evs[1..]);
      var rest := Replay(cfg, s', evs[1..]);
      assert Replay(cfg, s, evs) == (rest.0, out + rest.1);
      RtcCallsOfAppend(out, rest.1);
      NoCanTxAppend(out, rest.1);
    }
  }

  /** Boot leaves the program quiet, so `QuietForever` covers every run. */
  lemma BootIsQuiet(nowClock: u32, nowHeart: u32, nowDog: u32)
    ensures Quiet(Boot(nowClock, nowHeart, nowDog).0)
  {
  }

  /** Two events replay as one `Handle` after the other. */
  lemma ReplayTwo(cfg: Config, s: System, e1: Event, e2: Event)
    ensures Replay(cfg, s, [e1, e2]).0 == Handle(cfg, Handle(cfg, s, e1).0, e2).0
  {
    var evs := [e1, e2];
    assert evs[0] == e1 && evs[1..] == [e2];
    var h1 := Handle(cfg, s, e1);
    assert Replay(cfg, s, evs).0 == Replay(cfg, h1.0, [e2]).0;
    assert [e2][0] == e2 && [e2][1..] == [];
    var h2 := Handle(cfg, h1.0, e2);
    assert Replay(cfg, h1.0, [e2]).0 == Replay(cfg, h2.0, []).0;
  }

  /** The first pass after boot, when the clock task stays in WAIT_MESSAGE: the
      time is shown, the date comes next, and `ClockMsg` is still all zero. */
  lemma FirstPassShowsTime(cfg: Config, s: System, inp: LoopInput)
    requires s.mode == Running && s.display.state == Display.DISPLAY_TIME
    requires s.serial.state == Serial.Idle && s.serial.flag == 0 && s.serial.handler.msg == 0
    requires s.clock.changes == Clock.WaitMessage && s.clock.clockMsg == ZeroMsg
    requires Sub32(inp.nowClock, s.clock.tickDisplay) < Clock.DISPLAY_PERIOD_MS
    ensures Handle(cfg, s, Loop(inp)).0.mode == Running
    ensures Handle(cfg, s, Loop(inp)).0.display.state == Display.DISPLAY_DATE
    ensures Handle(cfg, s, Loop(inp)).0.clock.changes == Clock.WaitMessage
    ensures Handle(cfg, s, Loop(inp)).0.clock.clockMsg.tm.mon == 0
  {
    var ser := Serial.SerialTask(s.serial);
    assert ser.s.handler.msg == 0;
    var clk := Clock.ClockTask(s.clock, ser.s.handler, inp.nowClock, inp.time, inp.date);
    assert clk.c.changes == Clock.WaitMessage && clk.c.clockMsg.tm.mon == 0;
    var sc := SerialThenClock(s, inp).0;
    assert sc.clock == clk.c;
  }

  /** A date display of a `ClockMsg` whose month is 0 is undefined behaviour,
      since the clock task in WAIT_MESSAGE leaves `ClockMsg` alone. */
  lemma SecondPassShowsDate(cfg: Config, s: System, inp: LoopInput)
    requires s.mode == Running && s.display.state == Display.DISPLAY_DATE
    requires s.clock.changes == Clock.WaitMessage && s.clock.clockMsg.tm.mon == 0
    ensures Handle(cfg, s, Loop(inp)).0.mode == Undefined
  {
    var sc := SerialThenClock(s, inp).0;
    assert sc.clock.clockMsg.tm.mon == 0;
  }

  /** The first date display subscripts the month table with `tm_mon - 1`
      while `ClockMsg` still holds its zero initial value. `tm_mon` is a
      `uint32_t`, so the subscript is 0xFFFFFFFF, far past the twelve entries;
      it only lands on the byte before the table because addresses wrap on a
      32-bit target. When less than 1000 ms pass between `Clock_Init` and the
      first `Clock_Task`, the second loop iteration makes that read. */
  lemma SecondIterationReadsOutOfBounds(cfg: Config, nowClock: u32, nowHeart: u32, nowDog: u32, i1: LoopInput, i2: LoopInput)
    requires Sub32(i1.nowClock, nowClock) < Clock.DISPLAY_PERIOD_MS
    ensures Replay(cfg, Boot(nowClock, nowHeart, nowDog).0, [Loop(i1), Loop(i2)]).0.mode == Undefined
  {
    var s0 := Boot(nowClock, nowHeart, nowDog).0;
    FirstPassShowsTime(cfg, s0, i1);
    SecondPassShowsDate(cfg, Handle(cfg, s0, Loop(i1)).0, i2);
    ReplayTwo(cfg, s0, Loop(i1), Loop(i2));
  }
}
