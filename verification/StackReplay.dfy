/** generateCallStacksPython: replay one thread's events on a stack of mutable
    [id, start, child time] slots (rocpd_python/rocpd/call_stacks.py:54-88). */
module StackReplay {
  import opened Wrappers
  import opened CallTrace

  datatype Slot = Slot(id: int, start: int, childCpu: int)

  function SlotIds(stack: seq<Slot>): (ids: seq<int>)
    ensures |ids| == |stack|
    ensures forall i :: 0 <= i < |ids| ==> ids[i] == stack[i].id
  {
    seq(|stack|, i requires 0 <= i < |stack| => stack[i].id)
  }

  /** One row for every id on the path (root first); the last id, the
      returning frame itself, gets depth k. */
  function Emit(path: seq<int>, child: int, k: nat, cpu: int, gpu: int): seq<Row> {
    if path == [] then []
    else
      var n := |path| - 1;
      Emit(path[..n], child, k + 1, cpu, gpu) + [Row(path[n], child, k, cpu, gpu)]
  }

  lemma {:induction false} EmitAt(path: seq<int>, child: int, k: nat, cpu: int, gpu: int)
    ensures |Emit(path, child, k, cpu, gpu)| == |path|
    ensures forall i :: 0 <= i < |path| ==>
              Emit(path, child, k, cpu, gpu)[i] == Row(path[i], child, k + |path| - 1 - i, cpu, gpu)
  {
    if path != [] {
      EmitAt(path[..|path| - 1], child, k + 1, cpu, gpu);
    }
  }

  /** Every slot accumulates the same amount of child time. */
  function Charge(stack: seq<Slot>, cpu: int): (charged: seq<Slot>)
    ensures |charged| == |stack|
    ensures forall i :: 0 <= i < |stack| ==> charged[i] == stack[i].(childCpu := stack[i].childCpu + cpu)
  {
    seq(|stack|, i requires 0 <= i < |stack| => stack[i].(childCpu := stack[i].childCpu + cpu))
  }

  function Prepend(rows: seq<Row>, r: Result<seq<Row>>): Result<seq<Row>> {
    match r
    case Ok(more) => Ok(rows + more)
    case Err => Err
  }

  lemma PrependAgain(a: seq<Row>, b: seq<Row>, r: Result<seq<Row>>)
    ensures Prepend(a, Prepend(b, r)) == Prepend(a + b, r)
    ensures Prepend([], r) == r
  {
    if r.Ok? {
      assert a + (b + r.value) == a + b + r.value;
      assert [] + r.value == r.value;
    }
  }

  /** Exclusive CPU time of the frame on top, ending at `end`. */
  function TopCpu(stack: seq<Slot>, end: int): int
    requires stack != []
  {
    end - stack[|stack| - 1].start - stack[|stack| - 1].childCpu
  }

  function Popped(stack: seq<Slot>, cpu: int): seq<Slot>
    requires stack != []
  {
    Charge(stack[..|stack| - 1], cpu)
  }

  /** Rows produced by the events that remain, given the stack; an end event on
      an empty stack raises IndexError. */
  function Replay(ev: seq<Event>, stack: seq<Slot>, gpu: GpuTimes): Result<seq<Row>> {
    if ev == [] then Ok([])
    else
      var f := ev[0].frame;
      if ev[0].isStart then Replay(ev[1..], stack + [Slot(f.id, f.start, 0)], gpu)
      else if stack == [] then Err
      else
        var cpu := TopCpu(stack, f.end);
        Prepend(Emit(SlotIds(stack), f.id, 0, cpu, GpuOf(gpu, f.id)),
                Replay(ev[1..], Popped(stack, cpu), gpu))
  }

  /** The stack once these events have been replayed on it. */
  function StackAfter(ev: seq<Event>, stack: seq<Slot>): Result<seq<Slot>> {
    if ev == [] then Ok(stack)
    else
      var f := ev[0].frame;
      if ev[0].isStart then StackAfter(ev[1..], stack + [Slot(f.id, f.start, 0)])
      else if stack == [] then Err
      else StackAfter(ev[1..], Popped(stack, TopCpu(stack, f.end)))
  }

  /** The threads of a trace one after the other. */
  function ReplayAll(streams: seq<seq<Event>>, gpu: GpuTimes): Result<seq<Row>> {
    if streams == [] then Ok([])
    else
      match Replay(streams[0], [], gpu)
      case Err => Err
      case Ok(rows) => Prepend(rows, ReplayAll(streams[1..], gpu))
  }

  /** The walk at an end event: charge every slot below the top, emit one row
      per slot, then pop (call_stacks.py:77-86). */
  method ReturnFrame(stack: seq<Slot>, id: int, cpu: int, gpu: int) returns (left: seq<Slot>, rows: seq<Row>)
    requires stack != []
    ensures left == Popped(stack, cpu)
    ensures rows == Emit(SlotIds(stack), id, 0, cpu, gpu)
  {
    var depth := |stack|;
    var slots := stack;
    rows := [];
    var d := depth;
    for i := 0 to depth
      invariant d == depth - i && |slots| == depth && |rows| == i
      invariant forall j :: 0 <= j < depth ==> slots[j].id == stack[j].id
      invariant forall j :: 0 <= j < depth ==>
                  slots[j] == (if d - 1 <= j < depth - 1 then Charge(stack, cpu)[j] else stack[j])
      invariant forall j :: 0 <= j < i ==> rows[j] == Row(stack[j].id, id, depth - 1 - j, cpu, gpu)
    {
      d := d - 1;
      if d > 0 {
        slots := slots[d - 1 := slots[d - 1].(childCpu := slots[d - 1].childCpu + cpu)];
      }
      rows := rows + [Row(slots[i].id, id, d, cpu, gpu)];
    }
    left := slots[..depth - 1];
    EmitAt(SlotIds(stack), id, 0, cpu, gpu);
  }

  lemma OneEvent(ev: seq<Event>, k: nat, stack: seq<Slot>, gpu: GpuTimes)
    requires k < |ev|
    ensures var f, rest := ev[k].frame, ev[k + 1..];
            if ev[k].isStart then
              var next := stack + [Slot(f.id, f.start, 0)];
              Replay(ev[k..], stack, gpu) == Replay(rest, next, gpu)
              && StackAfter(ev[k..], stack) == StackAfter(rest, next)
            else if stack == [] then
              Replay(ev[k..], stack, gpu) == Err
            else
              var cpu := TopCpu(stack, f.end);
              && Replay(ev[k..], stack, gpu)
                 == Prepend(Emit(SlotIds(stack), f.id, 0, cpu, GpuOf(gpu, f.id)),
                            Replay(rest, Popped(stack, cpu), gpu))
              && StackAfter(ev[k..], stack) == StackAfter(rest, Popped(stack, cpu))
  {
    assert ev[k..][1..] == ev[k + 1..];
  }

  method ReplayThread(ev: seq<Event>, gpu: GpuTimes) returns (r: Result<seq<Row>>, stack: seq<Slot>)
    ensures r == Replay(ev, [], gpu)
    ensures r.Ok? ==> StackAfter(ev, []) == Ok(stack)
  {
    hide Replay, StackAfter, Emit, Popped;
    stack := [];
    var callInserts: seq<Row> := [];
    assert ev[0..] == ev;
    PrependAgain([], [], Replay(ev, [], gpu));
    for k := 0 to |ev|
      invariant Prepend(callInserts, Replay(ev[k..], stack, gpu)) == Replay(ev, [], gpu)
      invariant StackAfter(ev[k..], stack) == StackAfter(ev, [])
    {
      var f := ev[k].frame;
      OneEvent(ev, k, stack, gpu);
      if ev[k].isStart {
        stack := stack + [Slot(f.id, f.start, 0)];
      } else {
        if stack == [] {
          return Err, stack;
        }
        var top := stack[|stack| - 1];
        var cpu := f.end - top.start - top.childCpu;
        var left, rows := ReturnFrame(stack, f.id, cpu, GpuOf(gpu, f.id));
        PrependAgain(callInserts, rows, Replay(ev[k + 1..], left, gpu));
        stack, callInserts := left, callInserts + rows;
      }
    }
    assert ev[|ev|..] == [];
    NothingLeft(stack, gpu);
    assert callInserts + [] == callInserts;
    r := Ok(callInserts);
  }

  lemma NothingLeft(stack: seq<Slot>, gpu: GpuTimes)
    ensures Replay([], stack, gpu) == Ok([]) && StackAfter([], stack) == Ok(stack)
  {
  }

  method GenerateCallStacks(streams: seq<seq<Event>>, gpu: GpuTimes) returns (r: Result<seq<Row>>)
    ensures r == ReplayAll(streams, gpu)
  {
    var callInserts: seq<Row> := [];
    assert streams[0..] == streams;
    PrependAgain([], [], ReplayAll(streams, gpu));
    for t := 0 to |streams|
      invariant Prepend(callInserts, ReplayAll(streams[t..], gpu)) == ReplayAll(streams, gpu)
    {
      assert streams[t..][1..] == streams[t + 1..];
      var rows, _ := ReplayThread(streams[t], gpu);
      if rows.Ok? {
        PrependAgain(callInserts, rows.value, ReplayAll(streams[t + 1..], gpu));
      }
      if rows.Err? {
        assert ReplayAll(streams[t..], gpu) == Err;
        return Err;
      }
      callInserts := callInserts + rows.value;
    }
    assert callInserts + [] == callInserts;
    r := Ok(callInserts);
  }
}
