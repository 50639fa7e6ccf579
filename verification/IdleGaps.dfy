/** Idle time of a GPU: the gaps before its operations and what is left at both
    ends of the region of interest (raptor/raptor_parser.py:353-362 and
    :460-465).  Times are whole nanoseconds and an operation covers start up to,
    not including, end. */
module IdleGaps {

  datatype Op = Op(gpuId: int, start: int, end: int)

  function Max(a: int, b: int): int {
    if a >= b then a else b
  }

  /** The expanding maximum of the end times. */
  function MaxEnd(ops: seq<Op>): int
    requires ops != []
  {
    var n := |ops| - 1;
    if n == 0 then ops[0].end else Max(MaxEnd(ops[..n]), ops[n].end)
  }

  /** PreGap_ns of the last operation; the first has none. */
  function PreGap(ops: seq<Op>): int
    requires ops != []
  {
    var n := |ops| - 1;
    if n == 0 then 0 else Max(ops[n].start - MaxEnd(ops[..n]), 0)
  }

  /** gb['PreGap_ns'].sum() over one GPU in start order. */
  function GapSum(ops: seq<Op>): int {
    if ops == [] then 0 else GapSum(ops[..|ops| - 1]) + PreGap(ops)
  }

  predicate Within(a: int, t: int, b: int) {
    a <= t < b
  }

  ghost function Span(a: int, b: int): set<int> {
    set t: int | a <= t < b && Within(a, t, b)
  }

  /** The instants at which some operation runs. */
  ghost function Busy(ops: seq<Op>): set<int> {
    if ops == [] then {} else Busy(ops[..|ops| - 1]) + Span(ops[|ops| - 1].start, ops[|ops| - 1].end)
  }

  lemma SpanMembers(a: int, b: int, t: int)
    ensures t in Span(a, b) <==> a <= t < b
  {
  }

  lemma {:induction false} BusyMembers(ops: seq<Op>, t: int)
    ensures t in Busy(ops) <==> exists o :: o in ops && o.start <= t < o.end
  {
    if ops != [] {
      hide Span;
      var n := |ops| - 1;
      BusyMembers(ops[..n], t);
      SpanMembers(ops[n].start, ops[n].end, t);
      assert forall o :: o in ops <==> o in ops[..n] || o == ops[n];
    }
  }

  /** Busy time does not depend on the order of the operations. */
  lemma BusyPermutes(a: seq<Op>, b: seq<Op>)
    requires multiset(a) == multiset(b)
    ensures Busy(a) == Busy(b)
  {
    assert forall o :: o in a <==> o in multiset(a);
    assert forall o :: o in b <==> o in multiset(b);
    forall t ensures t in Busy(a) <==> t in Busy(b) {
      BusyMembers(a, t);
      BusyMembers(b, t);
    }
  }

  lemma {:induction false} SpanSize(a: int, b: int)
    ensures |Span(a, b)| == Max(b - a, 0)
    decreases b - a
  {
    if a >= b {
      assert Span(a, b) == {};
    } else {
      SpanSize(a, b - 1);
      assert Span(a, b) == Span(a, b - 1) + {b - 1};
    }
  }

  ghost predicate StartOrder(ops: seq<Op>) {
    forall i, j :: 0 <= i < j < |ops| ==> ops[i].start <= ops[j].start
  }

  lemma {:induction false} LatestEnder(ops: seq<Op>) returns (i: nat)
    requires ops != []
    ensures i < |ops| && ops[i].end == MaxEnd(ops)
    ensures forall j :: 0 <= j < |ops| ==> ops[j].end <= MaxEnd(ops)
  {
    var n := |ops| - 1;
    i := n;
    if n > 0 {
      var k := LatestEnder(ops[..n]);
      assert forall j :: 0 <= j < n ==> ops[j] == ops[..n][j];
      if ops[..n][k].end >= ops[n].end {
        i := k;
      }
    }
  }

  /** An operation adds the part of its span after all earlier ends, because
      everything from its start to the latest earlier end is busy already. */
  lemma AddedSpan(ops: seq<Op>, o: Op)
    requires ops != [] && StartOrder(ops + [o])
    ensures Busy(ops + [o]) == Busy(ops) + Span(Max(o.start, MaxEnd(ops)), o.end)
    ensures Busy(ops) !! Span(Max(o.start, MaxEnd(ops)), o.end)
  {
    assert (ops + [o])[..|ops|] == ops;
    var k := LatestEnder(ops);
    assert (ops + [o])[k] == ops[k] && (ops + [o])[|ops|] == o;
    forall t | t in Span(o.start, o.end) && t < MaxEnd(ops) ensures t in Busy(ops) {
      assert ops[k] in ops && ops[k].start <= t < ops[k].end;
      BusyMembers(ops, t);
    }
    forall t | t in Busy(ops) ensures t < MaxEnd(ops) {
      BusyMembers(ops, t);
      var p :| p in ops && p.start <= t < p.end;
      var j :| 0 <= j < |ops| && ops[j] == p;
    }
  }

  /** No operation that ends before it starts opens a gap: it begins no later
      than some earlier operation ends. */
  predicate NoReversedGap(ops: seq<Op>) {
    ops == [] ||
    var n := |ops| - 1;
    NoReversedGap(ops[..n])
    && (ops[n].start <= ops[n].end || (n > 0 && ops[n].start <= MaxEnd(ops[..n])))
  }

  lemma {:induction false} ForwardHasNoReversedGap(ops: seq<Op>)
    requires forall o :: o in ops ==> o.start <= o.end
    ensures NoReversedGap(ops)
  {
    if ops != [] {
      var n := |ops| - 1;
      assert ops[n] in ops;
      assert forall o :: o in ops[..n] ==> o in ops;
      ForwardHasNoReversedGap(ops[..n]);
    }
  }

  lemma OneOp(o: Op)
    ensures MaxEnd([o]) == o.end && GapSum([o]) == 0
    ensures |Busy([o])| == Max(o.end - o.start, 0) && (NoReversedGap([o]) <==> o.start <= o.end)
    ensures o.end - o.start <= Max(o.end - o.start, 0)
    ensures o.end - o.start == Max(o.end - o.start, 0) <==> o.start <= o.end
  {
    hide Span;
    assert [o][..0] == [] && Busy([o]) == Span(o.start, o.end);
    SpanSize(o.start, o.end);
  }

  lemma StartOrderBefore(ops: seq<Op>)
    requires ops != [] && StartOrder(ops)
    ensures StartOrder(ops[..|ops| - 1])
  {
  }

  lemma OneMoreOp(before: seq<Op>, last: Op)
    requires before != [] && StartOrder(before + [last])
    ensures MaxEnd(before + [last]) == Max(MaxEnd(before), last.end)
    ensures GapSum(before + [last]) == GapSum(before) + Max(last.start - MaxEnd(before), 0)
    ensures |Busy(before + [last])| == |Busy(before)| + Max(last.end - Max(last.start, MaxEnd(before)), 0)
    ensures NoReversedGap(before + [last])
            <==> NoReversedGap(before) && (last.start <= last.end || last.start <= MaxEnd(before))
  {
    hide Busy, Span;
    assert (before + [last])[..|before|] == before;
    AddedSpan(before, last);
    SpanSize(Max(last.start, MaxEnd(before)), last.end);
  }

  /** Gaps and busy time fill the stretch from the first start to the last end
      exactly when no reversed operation opens a gap; otherwise that gap is
      counted again by the next operation and the total is too large. */
  lemma {:induction false} GapsAndBusyFill(ops: seq<Op>)
    requires ops != [] && StartOrder(ops)
    ensures GapSum(ops) + |Busy(ops)| >= MaxEnd(ops) - ops[0].start
    ensures GapSum(ops) + |Busy(ops)| == MaxEnd(ops) - ops[0].start <==> NoReversedGap(ops)
    decreases |ops|
  {
    hide Span, Busy, GapSum, MaxEnd, NoReversedGap, StartOrder;
    var n := |ops| - 1;
    var last := ops[n];
    if n == 0 {
      OneOp(last);
      assert ops == [last];
    } else {
      StartOrderBefore(ops);
      var before := ops[..n];
      assert ops == before + [last];
      GapsAndBusyFill(before);
      OneMoreOp(before, last);
    }
  }

  function OfGpu(ops: seq<Op>, gpu: int): seq<Op> {
    if ops == [] then [] else (if ops[0].gpuId == gpu then [ops[0]] else []) + OfGpu(ops[1..], gpu)
  }

  lemma {:induction false} OfGpuMembers(ops: seq<Op>, gpu: int)
    ensures forall o :: o in OfGpu(ops, gpu) <==> o in ops && o.gpuId == gpu
  {
    if ops != [] {
      OfGpuMembers(ops[1..], gpu);
      assert ops == [ops[0]] + ops[1..];
    }
  }

  /** For every GPU that ran anything, leading idle, gaps, busy time and
      trailing idle add up to the region of interest if and only if no reversed
      operation opens a gap, however equal start times are ordered. */
  lemma RegionIsAccountedFor(ops: seq<Op>, gpu: int, group: seq<Op>, roiStart: int, roiEnd: int)
    requires group != [] && multiset(group) == multiset(OfGpu(ops, gpu)) && StartOrder(group)
    ensures var leading, trailing := group[0].start - roiStart, roiEnd - MaxEnd(group);
            leading + GapSum(group) + |Busy(OfGpu(ops, gpu))| + trailing == roiEnd - roiStart
            <==> NoReversedGap(group)
    ensures forall o :: o in OfGpu(ops, gpu) ==> group[0].start <= o.start && o.end <= MaxEnd(group)
    ensures (forall o :: o in ops ==> o.start <= o.end) ==> NoReversedGap(group)
  {
    OfGpuMembers(ops, gpu);
    assert forall o :: o in group <==> o in multiset(group);
    assert forall o :: o in OfGpu(ops, gpu) <==> o in multiset(OfGpu(ops, gpu));
    GapsAndBusyFill(group);
    BusyPermutes(group, OfGpu(ops, gpu));
    if forall o :: o in ops ==> o.start <= o.end {
      ForwardHasNoReversedGap(group);
    }
    var k := LatestEnder(group);
    forall o | o in OfGpu(ops, gpu) ensures group[0].start <= o.start && o.end <= MaxEnd(group) {
      assert o in group;
      var j :| 0 <= j < |group| && group[j] == o;
    }
  }

  /** A reversed operation after all earlier ends: the gap before it is counted
      again by the next operation, and the parts exceed the stretch. */
  lemma ReversedGapCountsTwice()
    ensures var ops := [Op(0, 0, 1), Op(0, 10, 5), Op(0, 12, 13)];
            && StartOrder(ops) && !NoReversedGap(ops)
            && GapSum(ops) == 16 && |Busy(ops)| == 2 && MaxEnd(ops) - ops[0].start == 13
  {
    var a, b, c := Op(0, 0, 1), Op(0, 10, 5), Op(0, 12, 13);
    assert [a] + [b] == [a, b] && [a, b] + [c] == [a, b, c];
    hide Busy, GapSum, MaxEnd, NoReversedGap;
    OneOp(a);
    OneMoreOp([a], b);
    OneMoreOp([a, b], c);
  }
}
