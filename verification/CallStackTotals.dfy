/** What the rows add up to, as the views callStack_inclusive and
    callStack_exclusive read them (rocpd_python/rocpd/call_stacks.py:241-248). */
module CallStackTotals {
  import opened Sequences
  import opened Wrappers
  import opened CallTrace
  import opened StackReplay
  import opened SqlPipeline
  import opened CallForest
  import opened CallStackTheorems
  import opened CallStackAgreement

  /** The two columns the views sum. */
  datatype Column = Cpu | Gpu {
    function Of(cpu: int, gpu: int): int {
      if Cpu? then cpu else gpu
    }
  }

  /** SELECT SUM(cpu_time), SUM(gpu_time) ... GROUP BY parent_id. */
  function Inclusive(rows: seq<Row>, col: Column, id: int): int {
    if rows == [] then 0
    else (if rows[0].parent == id then col.Of(rows[0].cpu, rows[0].gpu) else 0) + Inclusive(rows[1..], col, id)
  }

  /** SUM of a column over the rows WHERE depth = 0. */
  function DepthZero(rows: seq<Row>, col: Column): int {
    if rows == [] then 0
    else (if rows[0].depth == 0 then col.Of(rows[0].cpu, rows[0].gpu) else 0) + DepthZero(rows[1..], col)
  }

  /** Total duration of the calls no other call encloses. */
  function TopLevelTime(opens: seq<Open>): int {
    if opens == [] then 0
    else (if opens[0].depth == 1 then Duration(opens[0].frame) else 0) + TopLevelTime(opens[1..])
  }

  function TotalDepth(opens: seq<Open>): int {
    if opens == [] then 0 else opens[0].depth + TotalDepth(opens[1..])
  }

  // ---- sums over concatenations ----------------------------------------

  lemma {:induction false} SumsConcat(a: seq<Row>, b: seq<Row>, col: Column, id: int)
    ensures Inclusive(a + b, col, id) == Inclusive(a, col, id) + Inclusive(b, col, id)
    ensures DepthZero(a + b, col) == DepthZero(a, col) + DepthZero(b, col)
  {
    if a == [] {
      assert a + b == b;
    } else {
      assert (a + b)[1..] == a[1..] + b;
      SumsConcat(a[1..], b, col, id);
    }
  }

  lemma {:induction false} OpensConcat(a: seq<Open>, b: seq<Open>)
    ensures TopLevelTime(a + b) == TopLevelTime(a) + TopLevelTime(b)
    ensures TotalDepth(a + b) == TotalDepth(a) + TotalDepth(b)
  {
    if a == [] {
      assert a + b == b;
    } else {
      assert (a + b)[1..] == a[1..] + b;
      OpensConcat(a[1..], b);
    }
  }

  // ---- one frame's rows ------------------------------------------------

  function Occurrences(path: seq<int>, id: int): nat {
    if path == [] then 0 else Occurrences(path[..|path| - 1], id) + if path[|path| - 1] == id then 1 else 0
  }

  lemma OccurrencesGrow(path: seq<int>, last: int, id: int)
    ensures Occurrences(path + [last], id) == Occurrences(path, id) + if last == id then 1 else 0
  {
    assert (path + [last])[..|path|] == path;
  }

  lemma {:induction false} EmitSums(path: seq<int>, child: int, k: nat, cpu: int, gpu: int, col: Column, id: int)
    ensures Inclusive(Emit(path, child, k, cpu, gpu), col, id) == Occurrences(path, id) * col.Of(cpu, gpu)
    ensures DepthZero(Emit(path, child, k, cpu, gpu), col) == if k == 0 && path != [] then col.Of(cpu, gpu) else 0
    decreases |path|
  {
    hide Inclusive, DepthZero, Column.Of;
    if path == [] {
      NoRows(col, id);
    } else {
      var n, v := |path| - 1, col.Of(cpu, gpu);
      var up, own := Emit(path[..n], child, k + 1, cpu, gpu), Row(path[n], child, k, cpu, gpu);
      EmitSums(path[..n], child, k + 1, cpu, gpu, col, id);
      SumsConcat(up, [own], col, id);
      OneRow(own, col, id);
      assert (Occurrences(path[..n], id) + 1) * v == Occurrences(path[..n], id) * v + v;
    }
  }

  lemma NoRows(col: Column, id: int)
    ensures Inclusive([], col, id) == 0 && DepthZero([], col) == 0
  {
  }

  lemma OneRow(r: Row, col: Column, id: int)
    ensures Inclusive([r], col, id) == if r.parent == id then col.Of(r.cpu, r.gpu) else 0
    ensures DepthZero([r], col) == if r.depth == 0 then col.Of(r.cpu, r.gpu) else 0
  {
    assert [r][1..] == [];
  }

  // ---- a forest's rows -------------------------------------------------

  /** Duration of the frames with this id. */
  function TimeOf(f: Forest, id: int): int {
    match f
    case Leaf => 0
    case Node(a, kids, rest) => (if a.id == id then Duration(a) else 0) + TimeOf(kids, id) + TimeOf(rest, id)
  }

  /** What a column sums to when its own value at frame a is v. */
  lemma SumsOfNode(a: Frame, kids: Forest, rest: Forest, path: seq<int>, gpu: GpuTimes, col: Column, id: int, v: int)
    requires v == col.Of(Duration(a) - RootTime(kids), GpuOf(gpu, a.id))
    ensures Inclusive(Rows(Node(a, kids, rest), path, gpu), col, id)
            == Inclusive(Rows(kids, path + [a.id], gpu), col, id)
               + Occurrences(path + [a.id], id) * v
               + Inclusive(Rows(rest, path, gpu), col, id)
    ensures DepthZero(Rows(Node(a, kids, rest), path, gpu), col)
            == DepthZero(Rows(kids, path + [a.id], gpu), col) + v + DepthZero(Rows(rest, path, gpu), col)
  {
    hide *;
    var here, cpu, g := path + [a.id], Duration(a) - RootTime(kids), GpuOf(gpu, a.id);
    var x, y, z := Rows(kids, here, gpu), Emit(here, a.id, 0, cpu, g), Rows(rest, path, gpu);
    RowsOfNode(a, kids, rest, path, gpu);
    SumsConcat(x + y, z, col, id);
    SumsConcat(x, y, col, id);
    EmitSums(here, a.id, 0, cpu, g, col, id);
  }

  /** Rows under a parent that is on the path add up to the root durations;
      rows under a frame of the forest, to that frame's own duration. */
  lemma {:induction false} InclusiveOfForest(f: Forest, path: seq<int>, gpu: GpuTimes, id: int)
    ensures Inclusive(Rows(f, path, gpu), Cpu, id) == Occurrences(path, id) * RootTime(f) + TimeOf(f, id)
    decreases f
  {
    match f
    case Leaf =>
    case Node(a, kids, rest) =>
      InclusiveOfForest(kids, path + [a.id], gpu, id);
      InclusiveOfForest(rest, path, gpu, id);
      SumsOfNode(a, kids, rest, path, gpu, Cpu, id, Duration(a) - RootTime(kids));
      OccurrencesGrow(path, a.id, id);
      SplitShare(Occurrences(path, id), Occurrences(path + [a.id], id), RootTime(kids), Duration(a), RootTime(rest));
  }

  lemma SplitShare(n: int, m: int, kids: int, own: int, rest: int)
    ensures m * kids + m * (own - kids) == m * own
    ensures n * own + n * rest == n * (own + rest)
    ensures (n + 1) * own == n * own + own
  {
  }

  lemma {:induction false} DepthZeroOfForest(f: Forest, path: seq<int>, gpu: GpuTimes)
    ensures DepthZero(Rows(f, path, gpu), Cpu) == RootTime(f)
    decreases f
  {
    match f
    case Leaf =>
    case Node(a, kids, rest) =>
      DepthZeroOfForest(kids, path + [a.id], gpu);
      DepthZeroOfForest(rest, path, gpu);
      SumsOfNode(a, kids, rest, path, gpu, Cpu, 0, Duration(a) - RootTime(kids));
  }

  lemma {:induction false} TimeElsewhere(f: Forest, id: int)
    requires forall x :: x in Frames(f) ==> x.id != id
    ensures TimeOf(f, id) == 0
  {
    if f.Node? {
      assert f.frame in Frames(f);
      TimeElsewhere(f.kids, id);
      TimeElsewhere(f.rest, id);
    }
  }

  lemma {:induction false} TimeOfFrame(f: Forest, x: Frame)
    requires DistinctIds(f) && x in Frames(f)
    ensures TimeOf(f, x.id) == Duration(x)
  {
    var a, kids, rest := f.frame, f.kids, f.rest;
    if x == a {
      TimeElsewhere(kids, x.id);
      TimeElsewhere(rest, x.id);
    } else if x in Frames(kids) {
      TimeOfFrame(kids, x);
      TimeElsewhere(rest, x.id);
    } else {
      TimeOfFrame(rest, x);
      TimeElsewhere(kids, x.id);
    }
  }

  /** Calls of one thread that lie one after the other fit into any interval
      that contains them. */
  lemma {:induction false} RootsFit(f: Forest, t: Thread, lo: int, hi: int)
    requires Nested(f) && forall x :: x in Frames(f) ==> x.thread == t && lo <= x.start && x.end <= hi
    requires lo <= hi
    ensures 0 <= RootTime(f) <= hi - lo
  {
    if f.Node? {
      assert f.frame in Frames(f);
      RootsFit(f.rest, t, f.frame.end, hi);
    }
  }

  lemma {:induction false} ExclusiveNonNegative(f: Forest, path: seq<int>, gpu: GpuTimes)
    requires Nested(f)
    ensures forall r :: r in Rows(f, path, gpu) ==> r.cpu >= 0
    decreases f
  {
    match f
    case Leaf =>
    case Node(a, kids, rest) =>
      ExclusiveNonNegative(kids, path + [a.id], gpu);
      ExclusiveNonNegative(rest, path, gpu);
      RootsFit(kids, a.thread, a.start, a.end);
      NodeNonNegative(a, kids, rest, path, gpu);
  }

  lemma NodeNonNegative(a: Frame, kids: Forest, rest: Forest, path: seq<int>, gpu: GpuTimes)
    requires forall r :: r in Rows(kids, path + [a.id], gpu) ==> r.cpu >= 0
    requires forall r :: r in Rows(rest, path, gpu) ==> r.cpu >= 0
    requires RootTime(kids) <= Duration(a)
    ensures forall r :: r in Rows(Node(a, kids, rest), path, gpu) ==> r.cpu >= 0
  {
    hide Emit, Rows;
    RowsOfNode(a, kids, rest, path, gpu);
    EmitAt(path + [a.id], a.id, 0, Duration(a) - RootTime(kids), GpuOf(gpu, a.id));
  }

  lemma {:induction false} CountOfForest(f: Forest, path: seq<int>, gpu: GpuTimes)
    ensures |Rows(f, path, gpu)| == TotalDepth(OpensOf(f, |path| + 1))
    decreases f
  {
    match f
    case Leaf =>
    case Node(a, kids, rest) =>
      CountOfForest(kids, path + [a.id], gpu);
      CountOfForest(rest, path, gpu);
      EmitAt(path + [a.id], a.id, 0, Duration(a) - RootTime(kids), GpuOf(gpu, a.id));
      var own := [Open(a, |path| + 1)];
      OpensConcat(own + OpensOf(kids, |path| + 2), OpensOf(rest, |path| + 1));
      OpensConcat(own, OpensOf(kids, |path| + 2));
      assert own[1..] == [];
  }

  lemma {:induction false} TopLevelOfForest(f: Forest, d: int)
    requires d >= 1
    ensures TopLevelTime(OpensOf(f, d)) == if d == 1 then RootTime(f) else 0
    decreases f
  {
    match f
    case Leaf =>
    case Node(a, kids, rest) =>
      TopLevelOfForest(kids, d + 1);
      TopLevelOfForest(rest, d);
      var own := [Open(a, d)];
      OpensConcat(own + OpensOf(kids, d + 1), OpensOf(rest, d));
      OpensConcat(own, OpensOf(kids, d + 1));
      assert own[1..] == [];
  }

  // ---- the traces ------------------------------------------------------

  lemma StreamConservesTime(ev: seq<Event>, gpu: GpuTimes)
    requires Closes(ev, []) && Net(ev) == 0
    ensures Replay(ev, [], gpu).Ok?
    ensures var rows, opens := Replay(ev, [], gpu).value, RunningDepth(ev, 0);
            DepthZero(rows, Cpu) == TopLevelTime(opens) && |rows| == TotalDepth(opens)
  {
    hide *;
    BracketedIsForest(ev);
    var f := Parse(ev).0;
    PhasesOfForest(f, gpu);
    CountOfForest(f, [], gpu);
    DepthZeroOfForest(f, [], gpu);
    TopLevelOfForest(f, 1);
  }

  /** Conservation in one thread: its depth-0 rows add up to its top-level calls,
      there is one row per call and stack level, and the stack ends empty. */
  lemma ThreadConservesTime(tr: Trace, gpu: GpuTimes, t: nat)
    requires tr.Valid() && Bracketed(tr) && t < |tr.streams|
    ensures Replay(tr.streams[t], [], gpu).Ok? && StackAfter(tr.streams[t], []) == Ok([])
    ensures var rows, opens := Replay(tr.streams[t], [], gpu).value, RunningDepth(tr.streams[t], 0);
            DepthZero(rows, Cpu) == TopLevelTime(opens) && |rows| == TotalDepth(opens)
  {
    assert Closes(tr.streams[t], []) && t < |tr.threads|;
    hide *;
    StreamFacts(tr, t);
    BracketedIffTopsMatch(tr);
    StreamConservesTime(tr.streams[t], gpu);
  }

  /** Conservation over a whole trace: the rows under a call add up to its
      duration, no exclusive time is negative, there is one row per call and
      stack level, and the depth-0 rows add up to the top-level calls. */
  lemma RowsConserveTime(tr: Trace, gpu: GpuTimes)
    requires tr.Valid() && Bracketed(tr)
    ensures ReplayAll(tr.streams, gpu).Ok?
    ensures var rows := ReplayAll(tr.streams, gpu).value;
            && (forall x :: x in AllStarts(tr.streams) ==> Inclusive(rows, Cpu, x.id) == x.end - x.start)
            && (forall r :: r in rows ==> r.cpu >= 0)
            && |rows| == TotalDepth(Opens(tr.streams))
            && DepthZero(rows, Cpu) == TopLevelTime(Opens(tr.streams))
  {
    hide *;
    var f := Whole(tr.streams);
    assert tr.streams[0..] == tr.streams;
    ForestOfTrace(tr, 0, gpu);
    StartsOfTrace(tr, 0);
    DistinctFrames(tr, f);
    CountOfForest(f, [], gpu);
    DepthZeroOfForest(f, [], gpu);
    TopLevelOfForest(f, 1);
    ExclusiveNonNegative(f, [], gpu);
    forall x | x in AllStarts(tr.streams) ensures Inclusive(Rows(f, [], gpu), Cpu, x.id) == x.end - x.start {
      InclusiveOfRoots(f, gpu, x);
    }
  }

  lemma DistinctFrames(tr: Trace, f: Forest)
    requires FromThreads(tr, 0, Frames(f))
    ensures DistinctIds(f)
  {
    UniqueIsDistinct(f);
  }

  lemma InclusiveOfRoots(f: Forest, gpu: GpuTimes, x: Frame)
    requires DistinctIds(f) && x in Frames(f)
    ensures Inclusive(Rows(f, [], gpu), Cpu, x.id) == x.end - x.start
  {
    InclusiveOfForest(f, [], gpu, x.id);
    TimeOfFrame(f, x);
  }

  /** Every call of the table has its start event in the trace. */
  lemma {:induction false} EveryCallStarts(tr: Trace, t: nat, x: Frame)
    requires tr.Valid() && x in tr.api && t <= |tr.threads| && x.thread in tr.threads[t..]
    ensures x in AllStarts(tr.streams[t..])
    decreases |tr.threads| - t
  {
    hide *;
    StreamsMatchThreads(tr);
    AllStartsStep(tr.streams, t);
    if x.thread == tr.threads[t] {
      StartOfCall(tr, t, x);
    } else {
      assert tr.threads[t..] == [tr.threads[t]] + tr.threads[t + 1..];
      EveryCallStarts(tr, t + 1, x);
    }
  }

  lemma StreamsMatchThreads(tr: Trace)
    requires tr.Valid()
    ensures |tr.streams| == |tr.threads|
  {
  }

  lemma StartOfCall(tr: Trace, t: nat, x: Frame)
    requires tr.Valid() && x in tr.api && t < |tr.threads| && x.thread == tr.threads[t]
    ensures x in Starts(tr.streams[t])
  {
    hide Starts;
    StreamFacts(tr, t);
    StartMembers(tr.streams[t], x);
  }

  lemma {:induction false} StartMembers(ev: seq<Event>, x: Frame)
    requires Event(x, true) in ev
    ensures x in Starts(ev)
  {
    if ev[0] != Event(x, true) {
      StartMembers(ev[1..], x);
    }
  }

  /** callStack_inclusive: every call of the table has its full duration, from
      either generator. */
  lemma InclusiveViewIsDuration(tr: Trace, gpu: GpuTimes, x: Frame)
    requires tr.Valid() && Bracketed(tr) && x in tr.api
    ensures ReplayAll(tr.streams, gpu).Ok? && Generate(tr.streams, gpu).Ok?
    ensures Inclusive(ReplayAll(tr.streams, gpu).value, Cpu, x.id) == x.end - x.start
    ensures Inclusive(Generate(tr.streams, gpu).value, Cpu, x.id) == x.end - x.start
  {
    RowsConserveTime(tr, gpu);
    assert tr.streams[0..] == tr.streams && tr.threads[0..] == tr.threads;
    assert x.thread in tr.threads;
    hide *;
    EveryCallStarts(tr, 0, x);
    BracketedAgree(tr, gpu);
    SumsPermute(ReplayAll(tr.streams, gpu).value, Generate(tr.streams, gpu).value, Cpu, x.id);
  }

  lemma SumsWithout(rows: seq<Row>, i: nat, col: Column, id: int)
    requires i < |rows|
    ensures var r := rows[i];
            && Inclusive(rows, col, id)
               == (if r.parent == id then col.Of(r.cpu, r.gpu) else 0) + Inclusive(Without(rows, i), col, id)
            && DepthZero(rows, col)
               == (if r.depth == 0 then col.Of(r.cpu, r.gpu) else 0) + DepthZero(Without(rows, i), col)
  {
    assert rows == rows[..i] + rows[i..];
    SumsConcat(rows[..i], rows[i..], col, id);
    SumsConcat(rows[..i], rows[i + 1..], col, id);
  }

  lemma {:induction false} SumsPermute(a: seq<Row>, b: seq<Row>, col: Column, id: int)
    requires multiset(a) == multiset(b)
    ensures Inclusive(a, col, id) == Inclusive(b, col, id)
    ensures DepthZero(a, col) == DepthZero(b, col)
  {
    if a == [] {
      assert |multiset(b)| == 0;
    } else {
      hide Inclusive, DepthZero;
      assert a[0] in multiset(b);
      var i :| 0 <= i < |b| && b[i] == a[0];
      BagWithout(a, 0);
      BagWithout(b, i);
      SumsPermute(Without(a, 0), Without(b, i), col, id);
      SumsWithout(a, 0, col, id);
      SumsWithout(b, i, col, id);
    }
  }
}
