/** The part of a buffered table that its mutex guards, and the critical
    sections of inserters, flushers and the worker on it
    (rpd_tracer/OpTable.cpp:154-211, rpd_tracer/BufferedTable.cpp:50-122). */
module RingTable {

  /** OpTable::row; opId is its primary key. */
  datatype OpRow = OpRow(opId: int, apiId: int, gpuId: int, queueId: int, sequenceId: int, start: int, end: int,
                         descriptionId: int, opTypeId: int)

  /** What writeBatch() inserts for a row into rocpd_op and rocpd_api_ops. */
  datatype StoredOp = StoredOp(id: int, gpuId: int, queueId: int, sequenceId: int, start: int, end: int,
                               descriptionId: int, opTypeId: int)

  datatype StoredLink = StoredLink(apiId: int, opId: int)

  function OpOf(r: OpRow, off: int): StoredOp {
    StoredOp(r.opId + off, r.gpuId, r.queueId, r.sequenceId, r.start, r.end, r.descriptionId + off, r.opTypeId + off)
  }

  function LinkOf(r: OpRow, off: int): StoredLink {
    StoredLink(r.apiId + off, r.opId + off)
  }

  /** BUFFERSIZE and BATCHSIZE. */
  datatype Sizes = Sizes(buffer: nat, batch: nat) {
    ghost predicate Valid() {
      buffer > 0 && batch > 0
    }
  }

  datatype Shared = Shared(head: nat, tail: nat, ring: seq<OpRow>, done: bool, workerRunning: bool,
                           flushRequested: bool, flushTarget: nat)

  /** Which of the worker's three loops called writeRows(). */
  datatype Loop = BatchLoop | FlushLoop | DrainLoop

  /** Where the worker stands when it does not hold the mutex.  While Writing,
      rows before `next` have gone to the backend and `end` is the last. */
  datatype Pc =
    | Start
    | ToWrite(loop: Loop)
    | Writing(loop: Loop, next: nat, end: nat)
    | Wrote(loop: Loop)
    | Waiting
    | Exited

  // ---- critical sections as functions ----------------------------------

  predicate Full(z: Sizes, sh: Shared) {
    sh.head - sh.tail >= z.buffer
  }

  function Inserted(z: Sizes, sh: Shared, row: OpRow): Shared
    requires z.Valid() && |sh.ring| == z.buffer
  {
    var head := sh.head + 1;
    sh.(head := head, ring := sh.ring[head % z.buffer := row.(opId := head)])
  }

  /** First section of writeRows(): fix the batch, or return when empty. */
  function Taken(z: Sizes, sh: Shared, l: Loop): Pc {
    if sh.head == sh.tail then Wrote(l)
    else
      var end := sh.tail + z.batch;
      Writing(l, sh.tail + 1, if end > sh.head then sh.head else end)
  }

  function FlushAsked(sh: Shared): Shared {
    sh.(flushTarget := sh.head, flushRequested := true)
  }

  function AtDrain(sh: Shared): (Shared, Pc) {
    if sh.head > sh.tail then (sh, ToWrite(DrainLoop)) else (sh, Exited)
  }

  function AtSleep(sh: Shared): (Shared, Pc) {
    if !sh.done then (sh.(workerRunning := false), Waiting) else AtDrain(sh.(workerRunning := true))
  }

  function AtFlush(sh: Shared): (Shared, Pc) {
    if sh.tail < sh.flushTarget then (sh, ToWrite(FlushLoop)) else AtSleep(sh.(flushRequested := false))
  }

  function AtBatch(z: Sizes, sh: Shared): (Shared, Pc) {
    if sh.head - sh.tail >= z.batch then (sh, ToWrite(BatchLoop))
    else if sh.flushRequested then AtFlush(sh)
    else AtSleep(sh)
  }

  function AtOuter(z: Sizes, sh: Shared): (Shared, Pc) {
    if sh.done then AtDrain(sh) else AtBatch(z, sh)
  }

  /** The worker runs from where it takes the mutex to where it gives it up. */
  function Resumed(z: Sizes, sh: Shared, pc: Pc): (Shared, Pc)
    requires pc.Start? || pc.Waiting? || pc.Wrote?
  {
    match pc
    case Start => AtOuter(z, sh)
    case Waiting => AtOuter(z, sh.(workerRunning := true))
    case Wrote(BatchLoop) => AtBatch(z, sh)
    case Wrote(FlushLoop) => AtFlush(sh)
    case Wrote(DrainLoop) => AtDrain(sh)
  }

  // ---- the same sections on the object ---------------------------------

  class OpTable {
    const z: Sizes
    var m_head: nat
    var m_tail: nat
    var rows: array<OpRow>
    var done: bool
    var running: bool
    var flushRequested: bool
    var flushTarget: nat

    ghost predicate Valid()
      reads this
    {
      z.Valid() && rows.Length == z.buffer
    }

    ghost function View(): Shared
      reads this, rows
    {
      Shared(m_head, m_tail, rows[..], done, running, flushRequested, flushTarget)
    }

    constructor (z: Sizes)
      requires z.Valid()
      ensures Valid() && fresh(rows)
      ensures View() == Shared(0, 0, rows[..], false, true, false, 0)
    {
      this.z := z;
      m_head, m_tail, flushTarget := 0, 0, 0;
      done, running, flushRequested := false, true, false;
      rows := new OpRow[z.buffer](_ => OpRow(0, 0, 0, 0, 0, 0, 0, 0, 0));
    }

    /** insert() once the loop on a full buffer has ended. */
    method Insert(row: OpRow) returns (id: int)
      requires Valid() && !Full(z, View())
      modifies `m_head, rows
      ensures Valid() && View() == Inserted(z, old(View()), row)
      ensures id == m_head == old(m_head) + 1
    {
      m_head := m_head + 1;
      var pos := m_head % z.buffer;
      rows[pos] := row;
      rows[pos] := rows[pos].(opId := m_head);
      id := m_head;
    }

    /** writeBatch() when nobody inserts meanwhile: both inserts for the rows
        start..end in order, keys and references at the offset.  RingRuns
        interleaves it row by row. */
    method WriteBatch(start: nat, end: nat, idOffset: int) returns (ops: seq<StoredOp>, apiOps: seq<StoredLink>)
      requires Valid() && start <= end + 1
      ensures |ops| == |apiOps| == end - start + 1
      ensures forall k :: start <= k <= end ==>
                ops[k - start] == OpOf(rows[k % z.buffer], idOffset)
                && apiOps[k - start] == LinkOf(rows[k % z.buffer], idOffset)
    {
      ops, apiOps := [], [];
      for i := start to end + 1
        invariant |ops| == |apiOps| == i - start
        invariant forall k :: start <= k < i ==>
                    ops[k - start] == OpOf(rows[k % z.buffer], idOffset)
                    && apiOps[k - start] == LinkOf(rows[k % z.buffer], idOffset)
      {
        var r := rows[i % z.buffer];
        ops := ops + [StoredOp(r.opId + idOffset, r.gpuId, r.queueId, r.sequenceId, r.start, r.end,
                               r.descriptionId + idOffset, r.opTypeId + idOffset)];
        apiOps := apiOps + [StoredLink(r.apiId + idOffset, r.opId + idOffset)];
      }
    }

    method TakeBatch() returns (some: bool, start: nat, end: nat)
      requires Valid()
      ensures Taken(z, View(), BatchLoop) == if some then Writing(BatchLoop, start, end) else Wrote(BatchLoop)
    {
      start, end := 0, 0;
      if m_head == m_tail {
        return false, 0, 0;
      }
      start := m_tail + 1;
      end := m_tail + z.batch;
      end := if end > m_head then m_head else end;
      some := true;
    }

    method EndBatch(end: nat)
      requires Valid()
      modifies `m_tail
      ensures Valid() && View() == old(View()).(tail := end)
    {
      m_tail := end;
    }

    method AskFlush()
      requires Valid()
      modifies `flushTarget, `flushRequested
      ensures Valid() && View() == FlushAsked(old(View()))
    {
      flushTarget := m_head;
      flushRequested := true;
    }

    method Finalize()
      requires Valid()
      modifies `done
      ensures Valid() && View() == old(View()).(done := true)
    {
      done := true;
    }

    /** work() from taking the mutex at pc to giving it up. */
    method Work(pc: Pc) returns (next: Pc)
      requires Valid() && (pc.Start? || pc.Waiting? || pc.Wrote?)
      modifies `flushRequested, `running
      ensures Valid() && (View(), next) == Resumed(z, old(View()), pc)
    {
      if pc.Waiting? {
        running := true;
      }
      var outer := pc.Start? || pc.Waiting?;
      if (outer && !done) || pc == Wrote(BatchLoop) {
        if m_head - m_tail >= z.batch {
          return ToWrite(BatchLoop);
        }
      }
      if (outer && !done) || pc == Wrote(BatchLoop) || pc == Wrote(FlushLoop) {
        if flushRequested || pc == Wrote(FlushLoop) {
          if m_tail < flushTarget {
            return ToWrite(FlushLoop);
          }
          flushRequested := false;
        }
        running := false;
        if !done {
          return Waiting;
        }
        running := true;
      }
      next := if m_head > m_tail then ToWrite(DrainLoop) else Exited;
    }
  }
}
