/** The flag-and-index logic of the queue driver in app/hil_queue.c, exactly as
    written there: indices advance with a plain increment (no modulo), no element
    is copied (the driver only stores the address of its argument), and the full
    flag can only be raised from a state in which it is already raised. */
module Queue {
  import opened Types

  const QUEUE_NOT_OK: byte := 0
  const QUEUE_OK: byte := 1
  const QUEUE_FULL: byte := 1
  const QUEUE_NOT_FULL: byte := 0
  const QUEUE_EMPTY: byte := 1
  const QUEUE_NOT_EMPTY: byte := 0

  /** The part of `QUEUE_HandleTypeDef` the driver's logic touches. Neither
      hil_queue.h nor app_bsp.h defines `QUEUE_HandleTypeDef`, so the width of
      the index fields is unknown and they are unbounded. */
  datatype Queue = Queue(head: nat, tail: nat, empty: byte, full: byte)

  /** Result of an operation that returns a status byte and updates the handle. */
  datatype Outcome = Outcome(q: Queue, status: byte)

  /** The state `HIL_QUEUE_Init` leaves behind. */
  const Initial: Queue := Queue(0, 0, QUEUE_EMPTY, QUEUE_NOT_FULL)

  /** `HIL_QUEUE_Init`: resets both indices and both flags. */
  function Init(q: Queue): (r: Queue)
    ensures r.head == 0 && r.tail == 0
    ensures r.empty == QUEUE_EMPTY && r.full == QUEUE_NOT_FULL
  {
    Initial
  }

  /** `HIL_QUEUE_Flush`: the same reset as `Init`. */
  function Flush(q: Queue): (r: Queue)
    ensures r == Init(q)
  {
    Queue(0, 0, QUEUE_EMPTY, QUEUE_NOT_FULL)
  }

  /** `HIL_QUEUE_Write`. */
  function Write(q: Queue): (r: Outcome)
    ensures q.full == QUEUE_NOT_FULL ==>
      && r.status == QUEUE_OK
      && r.q.head == q.head + 1
      && r.q.empty == QUEUE_NOT_EMPTY
      && r.q.tail == q.tail && r.q.full == q.full
    ensures q.full != QUEUE_NOT_FULL ==>
      && r.status == QUEUE_NOT_OK
      && r.q.head == q.head && r.q.tail == q.tail && r.q.empty == q.empty
      && r.q.full == (if q.head == q.tail then QUEUE_FULL else q.full)
    ensures r.q.full == QUEUE_FULL ==> q.full != QUEUE_NOT_FULL
  {
    if q.full == QUEUE_NOT_FULL then
      Outcome(q.(head := q.head + 1, empty := QUEUE_NOT_EMPTY), QUEUE_OK)
    else if q.head == q.tail then
      Outcome(q.(full := QUEUE_FULL), QUEUE_NOT_OK)
    else
      Outcome(q, QUEUE_NOT_OK)
  }

  /** `HIL_QUEUE_Read`. */
  function Read(q: Queue): (r: Outcome)
    ensures q.empty == QUEUE_NOT_EMPTY ==>
      && r.status == QUEUE_OK
      && r.q.tail == q.tail + 1
      && r.q.full == QUEUE_NOT_FULL
      && r.q.head == q.head && r.q.empty == q.empty
    ensures q.empty != QUEUE_NOT_EMPTY ==>
      && r.status == QUEUE_NOT_OK
      && r.q.head == q.head && r.q.tail == q.tail && r.q.full == q.full
      && r.q.empty == (if q.head == q.tail then QUEUE_EMPTY else q.empty)
  {
    if q.empty == QUEUE_NOT_EMPTY then
      Outcome(q.(tail := q.tail + 1, full := QUEUE_NOT_FULL), QUEUE_OK)
    else if q.head == q.tail then
      Outcome(q.(empty := QUEUE_EMPTY), QUEUE_NOT_OK)
    else
      Outcome(q, QUEUE_NOT_OK)
  }

  /** `HIL_QUEUE_IsEmpty`: recomputes the empty flag from the indices (only ever
      raising it) and returns the flag. */
  function IsEmpty(q: Queue): (r: Outcome)
    ensures r.q.head == q.head && r.q.tail == q.tail && r.q.full == q.full
    ensures q.head == q.tail ==> r.q.empty == QUEUE_EMPTY
    ensures q.head != q.tail ==> r.q.empty == q.empty
    ensures r.status == r.q.empty
  {
    var q' := if q.head == q.tail then q.(empty := QUEUE_EMPTY) else q;
    Outcome(q', q'.empty)
  }

  /** The queue operations a caller can issue. */
  datatype Op = InitOp | WriteOp | ReadOp | IsEmptyOp | FlushOp

  /** One operation applied to the handle; `Init` and `Flush` report `QUEUE_OK`
      here only so that every operation has a status (the C functions are void). */
  function Apply(q: Queue, op: Op): Outcome
  {
    match op
    case InitOp => Outcome(Init(q), QUEUE_OK)
    case WriteOp => Write(q)
    case ReadOp => Read(q)
    case IsEmptyOp => IsEmpty(q)
    case FlushOp => Outcome(Flush(q), QUEUE_OK)
  }

  /** The handle after running `ops` in order from `q`, with every status. */
  function Run(q: Queue, ops: seq<Op>): (r: (Queue, seq<byte>))
    ensures |r.1| == |ops|
    decreases |ops|
  {
    if |ops| == 0 then (q, [])
    else
      var o := Apply(q, ops[0]);
      var rest := Run(o.q, ops[1..]);
      (rest.0, [o.status] + rest.1)
  }

  /** The states reachable from `Init`/`Flush`: the full flag is down, the empty
      flag is a proper boolean, and when it is raised the indices agree. */
  predicate Reachable(q: Queue)
  {
    && q.full == QUEUE_NOT_FULL
    && (q.empty == QUEUE_NOT_EMPTY || (q.empty == QUEUE_EMPTY && q.head == q.tail))
  }

  /** Every operation keeps a reachable handle reachable, and a write on such a
      handle always succeeds. */
  lemma ApplyPreservesReachable(q: Queue, op: Op)
    requires Reachable(q)
    ensures Reachable(Apply(q, op).q)
    ensures op == WriteOp ==> Apply(q, op).status == QUEUE_OK
  {
  }

  /** Starting from any reachable handle (in particular right after `Init`),
      no sequence of operations ever raises the full flag, and every write in the
      sequence reports `QUEUE_OK`. */
  lemma {:induction false} FullNeverRaised(q: Queue, ops: seq<Op>)
    requires Reachable(q)
    ensures Run(q, ops).0.full == QUEUE_NOT_FULL
    ensures forall i :: 0 <= i < |ops| && ops[i] == WriteOp ==> Run(q, ops).1[i] == QUEUE_OK
    decreases |ops|
  {
    if |ops| > 0 {
      var o := Apply(q, ops[0]);
      ApplyPreservesReachable(q, ops[0]);
      FullNeverRaised(o.q, ops[1..]);
      var r := Run(q, ops);
      forall i | 0 <= i < |ops| && ops[i] == WriteOp
        ensures r.1[i] == QUEUE_OK
      {
        if i > 0 {
          assert ops[1..][i - 1] == ops[i];
        }
      }
    }
  }

  /** `Init` leads to a reachable handle, so `FullNeverRaised` applies to every
      sequence of operations issued after it. */
  lemma InitReachable(q: Queue)
    ensures Reachable(Init(q)) && Reachable(Flush(q))
  {
  }

  /** Because the read index advances with no reference to the write index, a
      queue that received one element can be read twice: the second read succeeds
      and leaves the read index ahead of the write index. */
  lemma TailOvertakesHead()
    ensures Run(Initial, [WriteOp, ReadOp, ReadOp]).1 == [QUEUE_OK, QUEUE_OK, QUEUE_OK]
    ensures Run(Initial, [WriteOp, ReadOp, ReadOp]).0 == Queue(1, 2, QUEUE_NOT_EMPTY, QUEUE_NOT_FULL)
  {
    var s1 := Run(Queue(1, 2, QUEUE_NOT_EMPTY, QUEUE_NOT_FULL), []);
    var s2 := Run(Queue(1, 1, QUEUE_NOT_EMPTY, QUEUE_NOT_FULL), [ReadOp]);
    var s3 := Run(Queue(1, 0, QUEUE_NOT_EMPTY, QUEUE_NOT_FULL), [ReadOp, ReadOp]);
    assert [ReadOp, ReadOp][1..] == [ReadOp];
    assert [WriteOp, ReadOp, ReadOp][1..] == [ReadOp, ReadOp];
  }

  /** Running two operations is applying one after the other. */
  lemma RunTwo(q: Queue, a: Op, b: Op)
    ensures Run(q, [a, b]).0 == Apply(Apply(q, a).q, b).q
    ensures Run(q, [a, b]).1 == [Apply(q, a).status, Apply(Apply(q, a).q, b).status]
  {
    var o1 := Apply(q, a);
    var o2 := Apply(o1.q, b);
    assert [b][0] == b && [b][1..] == [];
    assert Run(o2.q, []) == (o2.q, []);
    assert [o2.status] + [] == [o2.status];
    assert Run(o1.q, [b]) == (o2.q, [o2.status]);
    assert [a, b][1..] == [b];
  }

  /** A write followed by a read on a reachable handle moves both indices by one
      and leaves the empty flag lowered: the driver never returns to "empty" on
      its own, only through `IsEmpty`, `Init` or `Flush`. */
  lemma WriteThenRead(q: Queue)
    requires Reachable(q)
    ensures Run(q, [WriteOp, ReadOp]).0 == Queue(q.head + 1, q.tail + 1, QUEUE_NOT_EMPTY, QUEUE_NOT_FULL)
    ensures Run(q, [WriteOp, ReadOp]).1 == [QUEUE_OK, QUEUE_OK]
  {
    RunTwo(q, WriteOp, ReadOp);
  }
}
