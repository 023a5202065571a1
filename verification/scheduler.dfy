/** The task-registration logic of app/hil_scheduler.c as written: period
    validation against the tick, the task control block update, the task counter
    and the returned id. `Init`, `Start`, `StopTask` and `StartTask` have no
    logic in the source and are modelled as such. */
module Scheduler {
  import opened Types

  /** Names hil_scheduler.c uses but neither hil_scheduler.h nor app_bsp.h defines. */
  const MULTIPLE: u32 := 0
  const NO_TASK: byte := 0
  const TRUE: byte := 1
  const FALSE: byte := 0

  /** A function pointer, modelled as an opaque routine identity. */
  type Routine = nat

  /** `Task_TypeDef`. */
  datatype Tcb = Tcb(period: u32, elapsed: u32, initFunc: Routine, taskFunc: Routine)

  /** `Scheduler_HandleTypeDef`; `tcbs` is the buffer `taskPtr` points at. */
  datatype Handle = Handle(tasks: u32, tick: u32, tasksCount: u32, tcbs: seq<Tcb>)

  /** The result of a call that returns a status byte (or task id). */
  datatype Outcome = Outcome(h: Handle, ret: byte)

  /** The guard shared by `RegisterTask` and `PeriodTask`: the period must be
      strictly longer than the tick and leave remainder `MULTIPLE` when divided
      by it. */
  predicate ValidPeriod(h: Handle, period: u32)
    requires period > h.tick ==> h.tick > 0
  {
    period > h.tick && period % h.tick == MULTIPLE
  }

  /** `HIL_SCHEDULER_Init`: an empty body. */
  function Init(h: Handle): (r: Handle)
    ensures r == h
  {
    h
  }

  /** `HIL_SCHEDULER_Start`: an empty body. */
  function Start(h: Handle): (r: Handle)
    ensures r == h
  {
    h
  }

  /** `HIL_SCHEDULER_RegisterTask`. A valid period always fills the FIRST task
      control block (the source writes through `taskPtr` without indexing it by
      the counter), bumps the 32-bit counter and returns it truncated to a byte.
      The `&&` of the guard skips the division when the period is not above
      the tick; otherwise a zero tick would divide by zero, which is undefined in
      C. The first control block must exist for the write. */
  function RegisterTask(h: Handle, initPtr: Routine, taskPtr: Routine, period: u32): (r: Outcome)
    requires period > h.tick ==> h.tick > 0
    requires ValidPeriod(h, period) ==> |h.tcbs| > 0
    ensures !ValidPeriod(h, period) <==> r == Outcome(h, NO_TASK)
    ensures ValidPeriod(h, period) ==>
      && |r.h.tcbs| == |h.tcbs|
      && r.h.tcbs[0] == Tcb(period, 0, initPtr, taskPtr)
      && (forall i :: 1 <= i < |h.tcbs| ==> r.h.tcbs[i] == h.tcbs[i])
      && r.h.tasksCount == Inc32(h.tasksCount)
      && r.ret == ToByte(r.h.tasksCount)
      && r.h.tasks == h.tasks && r.h.tick == h.tick
  {
    if ValidPeriod(h, period) then
      var count := Inc32(h.tasksCount);
      var tcbs := h.tcbs[0 := Tcb(period, 0, initPtr, taskPtr)];
      Outcome(h.(tcbs := tcbs, tasksCount := count), ToByte(count))
    else
      Outcome(h, NO_TASK)
  }

  /** `HIL_SCHEDULER_StopTask`: always reports `FALSE` and changes nothing. */
  function StopTask(h: Handle, task: u32): (r: Outcome)
    ensures r.ret == FALSE && r.h == h
  {
    Outcome(h, FALSE)
  }

  /** `HIL_SCHEDULER_StartTask`: always reports `FALSE` and changes nothing. */
  function StartTask(h: Handle, task: u32): (r: Outcome)
    ensures r.ret == FALSE && r.h == h
  {
    Outcome(h, FALSE)
  }

  /** `HIL_SCHEDULER_PeriodTask`. With a valid period it sets the period of the
      control block at zero-based offset `task` (the source performs no range
      check, so that block must exist) and reports `TRUE`; otherwise `FALSE`. */
  function PeriodTask(h: Handle, task: u32, period: u32): (r: Outcome)
    requires period > h.tick ==> h.tick > 0
    requires ValidPeriod(h, period) ==> task < |h.tcbs|
    ensures !ValidPeriod(h, period) <==> r == Outcome(h, FALSE)
    ensures ValidPeriod(h, period) ==>
      && r.ret == TRUE
      && |r.h.tcbs| == |h.tcbs|
      && r.h.tcbs[task].period == period
      && r.h.tcbs[task].elapsed == h.tcbs[task].elapsed
      && r.h.tcbs[task].initFunc == h.tcbs[task].initFunc
      && r.h.tcbs[task].taskFunc == h.tcbs[task].taskFunc
      && (forall i :: 0 <= i < |h.tcbs| && i != task ==> r.h.tcbs[i] == h.tcbs[i])
      && r.h.(tcbs := h.tcbs) == h
  {
    if ValidPeriod(h, period) then
      Outcome(h.(tcbs := h.tcbs[task := h.tcbs[task].(period := period)]), TRUE)
    else
      Outcome(h, FALSE)
  }

  /** With a zero tick, a zero period is rejected without dividing: the guard's
      first comparison already fails. */
  lemma ZeroTickZeroPeriod(h: Handle, initPtr: Routine, taskPtr: Routine, task: u32)
    requires h.tick == 0
    ensures RegisterTask(h, initPtr, taskPtr, 0) == Outcome(h, NO_TASK)
    ensures PeriodTask(h, task, 0) == Outcome(h, FALSE)
  {
  }

  /** A registration request: routine pair and period. */
  datatype Request = Request(initPtr: Routine, taskPtr: Routine, period: u32)

  /** Registers `reqs` in order, collecting the returned ids. */
  function RegisterAll(h: Handle, reqs: seq<Request>): (r: (Handle, seq<byte>))
    requires h.tick > 0 && |h.tcbs| > 0
    ensures r.0.tick == h.tick && |r.0.tcbs| == |h.tcbs| && |r.1| == |reqs|
    decreases |reqs|
  {
    if |reqs| == 0 then (h, [])
    else
      var o := RegisterTask(h, reqs[0].initPtr, reqs[0].taskPtr, reqs[0].period);
      var rest := RegisterAll(o.h, reqs[1..]);
      (rest.0, [o.ret] + rest.1)
  }

  /** The number of requests in `reqs` that carry a valid period. */
  function CountValid(tick: u32, reqs: seq<Request>): nat
    requires tick > 0
    decreases |reqs|
  {
    if |reqs| == 0 then 0
    else
      (if reqs[0].period > tick && reqs[0].period % tick == MULTIPLE then 1 else 0)
      + CountValid(tick, reqs[1..])
  }

  /** Adding after a reduction modulo 2^32 is adding before it. */
  lemma AddAfterWrap(x: nat, c: nat)
    ensures (x % TWO_POW_32 + c) % TWO_POW_32 == (x + c) % TWO_POW_32
  {
    var q := x / TWO_POW_32;
    assert x == q * TWO_POW_32 + x % TWO_POW_32;
    assert x + c == (x % TWO_POW_32 + c) + q * TWO_POW_32;
  }

  /** One registration adds 1 to the counter (modulo 2^32) exactly when the
      period is valid. */
  lemma RegisterStep(h: Handle, req: Request)
    requires h.tick > 0 && |h.tcbs| > 0
    ensures var o := RegisterTask(h, req.initPtr, req.taskPtr, req.period).h;
      && o.tasksCount == (h.tasksCount + CountValid(h.tick, [req])) % TWO_POW_32
      && o.tick == h.tick && |o.tcbs| == |h.tcbs|
  {
    assert [req][1..] == [];
  }

  /** The first request of a batch, split off. */
  lemma RegisterAllFirst(h: Handle, reqs: seq<Request>)
    requires h.tick > 0 && |h.tcbs| > 0 && |reqs| > 0
    ensures RegisterAll(h, reqs).0 ==
      RegisterAll(RegisterTask(h, reqs[0].initPtr, reqs[0].taskPtr, reqs[0].period).h, reqs[1..]).0
    ensures CountValid(h.tick, reqs) == CountValid(h.tick, [reqs[0]]) + CountValid(h.tick, reqs[1..])
  {
    assert [reqs[0]][1..] == [];
  }

  /** After a batch of registrations the counter has grown (modulo 2^32) by the
      number of accepted requests. */
  lemma {:induction false} RegisterAllCounts(h: Handle, reqs: seq<Request>)
    requires h.tick > 0 && |h.tcbs| > 0
    ensures RegisterAll(h, reqs).0.tasksCount == (h.tasksCount + CountValid(h.tick, reqs)) % TWO_POW_32
    decreases |reqs|
  {
    if |reqs| > 0 {
      var o := RegisterTask(h, reqs[0].initPtr, reqs[0].taskPtr, reqs[0].period).h;
      RegisterStep(h, reqs[0]);
      RegisterAllFirst(h, reqs);
      RegisterAllCounts(o, reqs[1..]);
      AddAfterWrap(h.tasksCount + CountValid(h.tick, [reqs[0]]), CountValid(h.tick, reqs[1..]));
    }
  }

  /** Every control block after the first is untouched by a batch: all accepted
      requests were written into the first block. */
  lemma {:induction false} RegisterAllKeepsLaterBlocks(h: Handle, reqs: seq<Request>)
    requires h.tick > 0 && |h.tcbs| > 0
    ensures forall i :: 1 <= i < |h.tcbs| ==> RegisterAll(h, reqs).0.tcbs[i] == h.tcbs[i]
    decreases |reqs|
  {
    if |reqs| > 0 {
      var o := RegisterTask(h, reqs[0].initPtr, reqs[0].taskPtr, reqs[0].period);
      assert RegisterAll(h, reqs).0 == RegisterAll(o.h, reqs[1..]).0;
      RegisterAllKeepsLaterBlocks(o.h, reqs[1..]);
    }
  }

  /** When the last request of a batch is accepted, the first control block holds
      exactly that request: earlier registrations have been overwritten. */
  lemma {:induction false} LastRegistrationWins(h: Handle, reqs: seq<Request>)
    requires h.tick > 0 && |h.tcbs| > 0 && |reqs| > 0
    requires ValidPeriod(h, reqs[|reqs| - 1].period)
    ensures RegisterAll(h, reqs).0.tcbs[0] ==
      Tcb(reqs[|reqs| - 1].period, 0, reqs[|reqs| - 1].initPtr, reqs[|reqs| - 1].taskPtr)
    decreases |reqs|
  {
    if |reqs| > 1 {
      var o := RegisterTask(h, reqs[0].initPtr, reqs[0].taskPtr, reqs[0].period);
      assert reqs[1..][|reqs[1..]| - 1] == reqs[|reqs| - 1];
      LastRegistrationWins(o.h, reqs[1..]);
    } else {
      assert reqs[1..] == [];
    }
  }

  /** Reconfiguring a period and then registering a task commute on every block
      but the first: `PeriodTask` never touches the counter, and `RegisterTask`
      only touches block 0. */
  lemma PeriodThenRegister(h: Handle, task: u32, period: u32, req: Request)
    requires h.tick > 0 && 0 < task < |h.tcbs|
    requires ValidPeriod(h, period) && ValidPeriod(h, req.period)
    ensures var a := PeriodTask(h, task, period).h;
            var b := RegisterTask(h, req.initPtr, req.taskPtr, req.period).h;
            RegisterTask(a, req.initPtr, req.taskPtr, req.period).h
              == PeriodTask(b, task, period).h
  {
    var a := PeriodTask(h, task, period).h;
    var b := RegisterTask(h, req.initPtr, req.taskPtr, req.period).h;
    var ab := RegisterTask(a, req.initPtr, req.taskPtr, req.period).h;
    var ba := PeriodTask(b, task, period).h;
    assert ab.tcbs == ba.tcbs;
  }
}
