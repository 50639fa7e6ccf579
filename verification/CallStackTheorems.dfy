/** Phases 3 and 4 of the pipeline on the forest of a trace: on well-bracketed
    streams both generators of ext_callstack store the same rows. */
module CallStackTheorems {
  import opened Sequences
  import opened Wrappers
  import opened CallTrace
  import opened StackReplay
  import opened SqlPipeline
  import opened CallForest

  // ---- phase 3: exclusive time -----------------------------------------

  /** Inclusive time of the direct children of the frames with this id. */
  function KidsTime(f: Forest, id: int): int {
    match f
    case Leaf => 0
    case Node(a, kids, rest) =>
      (if a.id == id then RootTime(kids) else 0) + KidsTime(kids, id) + KidsTime(rest, id)
  }

  lemma {:induction false} ChildInclusiveConcat(a: seq<Slim>, b: seq<Slim>, id: int)
    ensures ChildInclusive(a + b, id) == ChildInclusive(a, id) + ChildInclusive(b, id)
  {
    if a == [] {
      assert a + b == b;
    } else {
      assert (a + b)[1..] == a[1..] + b;
      ChildInclusiveConcat(a[1..], b, id);
    }
  }

  lemma {:induction false} ChildInclusiveOfEdges(f: Forest, p: Option<int>, id: int)
    ensures ChildInclusive(Edges(f, p), id) == (if p == Some(id) then RootTime(f) else 0) + KidsTime(f, id)
    decreases f
  {
    match f
    case Leaf =>
    case Node(a, kids, rest) =>
      var own := if p.Some? then [Slim(a.id, p, Duration(a))] else [];
      ChildInclusiveOfEdges(kids, Some(a.id), id);
      ChildInclusiveOfEdges(rest, p, id);
      ChildInclusiveConcat(own + Edges(kids, Some(a.id)), Edges(rest, p), id);
      ChildInclusiveConcat(own, Edges(kids, Some(a.id)), id);
      assert ChildInclusive(own, id) == if p == Some(id) then Duration(a) else 0;
  }

  lemma {:induction false} KidsTimeElsewhere(f: Forest, id: int)
    requires forall x :: x in Frames(f) ==> x.id != id
    ensures KidsTime(f, id) == 0
  {
    if f.Node? {
      assert f.frame in Frames(f);
      KidsTimeElsewhere(f.kids, id);
      KidsTimeElsewhere(f.rest, id);
    }
  }

  // ---- phase 4: the climb to the root ----------------------------------

  lemma {:induction false} StepUpConcat(a: seq<Slim>, b: seq<Slim>, r: Climber)
    ensures StepUp(a + b, r) == StepUp(a, r) + StepUp(b, r)
  {
    if a == [] {
      assert a + b == b;
    } else {
      assert (a + b)[1..] == a[1..] + b;
      StepUpConcat(a[1..], b, r);
      var first := if r.parent == Some(a[0].child) then [Raised(r, a[0].parent)] else [];
      Regroup(first, StepUp(a[1..], r), StepUp(b, r));
    }
  }

  lemma {:induction false} NoStepElsewhere(f: Forest, p: Option<int>, r: Climber)
    requires forall x :: x in Frames(f) ==> r.parent != Some(x.id)
    ensures StepUp(Edges(f, p), r) == []
    decreases f
  {
    match f
    case Leaf =>
    case Node(a, kids, rest) =>
      assert a in Frames(f);
      NoStepElsewhere(kids, Some(a.id), r);
      NoStepElsewhere(rest, p, r);
      StepUpNode(a, kids, rest, p, r);
  }

  lemma StepUpNode(a: Frame, kids: Forest, rest: Forest, p: Option<int>, r: Climber)
    ensures StepUp(Edges(Node(a, kids, rest), p), r)
            == (if p.Some? && r.parent == Some(a.id) then [Raised(r, p)] else [])
               + StepUp(Edges(kids, Some(a.id)), r) + StepUp(Edges(rest, p), r)
  {
    var own := if p.Some? then [Slim(a.id, p, Duration(a))] else [];
    StepUpConcat(own + Edges(kids, Some(a.id)), Edges(rest, p), r);
    StepUpConcat(own, Edges(kids, Some(a.id)), r);
  }

  function Raised(r: Climber, p: Option<int>): Climber {
    Climber(p, r.child, r.depth + 1, r.cpu, r.gpu)
  }

  function Last(path: seq<int>): Option<int> {
    if path == [] then None else Some(path[|path| - 1])
  }

  /** From a row at `id` the join reaches exactly the row at `up`, if any. */
  ghost predicate StepsTo(slim: seq<Slim>, id: int, up: Option<int>) {
    forall r: Climber :: r.parent == Some(id) ==> StepUp(slim, r) == if up.Some? then [Raised(r, up)] else []
  }

  /** The slim tree gives every frame of f its parent and its children's time. */
  ghost predicate Linked(slim: seq<Slim>, f: Forest, path: seq<int>) {
    match f
    case Leaf => true
    case Node(a, kids, rest) =>
      && StepsTo(slim, a.id, Last(path))
      && ChildInclusive(slim, a.id) == RootTime(kids)
      && Linked(slim, kids, path + [a.id])
      && Linked(slim, rest, path)
  }

  lemma {:induction false} EdgesLink(slim: seq<Slim>, f: Forest, path: seq<int>)
    requires DistinctIds(f)
    requires forall r: Climber, x :: x in Frames(f) && r.parent == Some(x.id)
                                     ==> StepUp(slim, r) == StepUp(Edges(f, Last(path)), r)
    requires forall x :: x in Frames(f) ==> ChildInclusive(slim, x.id) == KidsTime(f, x.id)
    ensures Linked(slim, f, path)
    decreases f
  {
    match f
    case Leaf =>
    case Node(a, kids, rest) =>
      var p := Last(path);
      assert a in Frames(f);
      assert Last(path + [a.id]) == Some(a.id);
      forall r: Climber | r.parent == Some(a.id) ensures StepUp(slim, r) == if p.Some? then [Raised(r, p)] else [] {
        StepUpNode(a, kids, rest, p, r);
        NoStepElsewhere(kids, Some(a.id), r);
        NoStepElsewhere(rest, p, r);
      }
      KidsTimeElsewhere(kids, a.id);
      KidsTimeElsewhere(rest, a.id);
      forall r: Climber, x | x in Frames(kids) && r.parent == Some(x.id)
        ensures StepUp(slim, r) == StepUp(Edges(kids, Some(a.id)), r)
      {
        assert x in Frames(f);
        StepUpNode(a, kids, rest, p, r);
        NoStepElsewhere(rest, p, r);
      }
      forall r: Climber, x | x in Frames(rest) && r.parent == Some(x.id)
        ensures StepUp(slim, r) == StepUp(Edges(rest, p), r)
      {
        assert x in Frames(f);
        StepUpNode(a, kids, rest, p, r);
        NoStepElsewhere(kids, Some(a.id), r);
      }
      forall x | x in Frames(kids) ensures ChildInclusive(slim, x.id) == KidsTime(kids, x.id) {
        KidsTimeElsewhere(rest, x.id);
      }
      forall x | x in Frames(rest) ensures ChildInclusive(slim, x.id) == KidsTime(rest, x.id) {
        KidsTimeElsewhere(kids, x.id);
      }
      EdgesLink(slim, kids, path + [a.id]);
      EdgesLink(slim, rest, path);
  }

  /** Phase 3: with distinct ids, the aggregation gives every frame the time of
      its direct children, and the join its parent. */
  lemma ForestLinks(f: Forest)
    requires DistinctIds(f)
    ensures Linked(Edges(f, None), f, [])
  {
    forall x | x in Frames(f) ensures ChildInclusive(Edges(f, None), x.id) == KidsTime(f, x.id) {
      ChildInclusiveOfEdges(f, None, x.id);
    }
    EdgesLink(Edges(f, None), f, []);
  }

  function Climb(path: seq<int>, child: int, k: nat, cpu: int, gpu: int): seq<Climber> {
    if path == [] then []
    else
      var n := |path| - 1;
      [Climber(Some(path[n]), child, k, cpu, gpu)] + Climb(path[..n], child, k + 1, cpu, gpu)
  }

  ghost predicate Chained(slim: seq<Slim>, path: seq<int>) {
    path != [] ==>
      var n := |path| - 1;
      StepsTo(slim, path[n], Last(path[..n])) && Chained(slim, path[..n])
  }

  lemma ChainGrows(slim: seq<Slim>, path: seq<int>, id: int)
    requires Chained(slim, path) && StepsTo(slim, id, Last(path))
    ensures Chained(slim, path + [id])
  {
    assert (path + [id])[..|path|] == path;
  }

  lemma {:induction false} RecurseClimbs(slim: seq<Slim>, path: seq<int>, child: int, k: nat, cpu: int, gpu: int,
                                         rounds: nat)
    requires Chained(slim, path) && path != [] && rounds >= |path|
    ensures Recurse(slim, [Climber(Last(path), child, k, cpu, gpu)], rounds) == Climb(path, child, k, cpu, gpu)
    decreases |path|
  {
    hide Recurse, StepUp;
    var n := |path| - 1;
    var r := Climber(Last(path), child, k, cpu, gpu);
    RecurseOne(slim, r, rounds);
    if n > 0 {
      assert StepUp(slim, r) == [Climber(Last(path[..n]), child, k + 1, cpu, gpu)];
      RecurseClimbs(slim, path[..n], child, k + 1, cpu, gpu, rounds - 1);
    } else {
      RecurseNone(slim, rounds - 1);
    }
    assert Above(slim, r, rounds) == Climb(path[..n], child, k + 1, cpu, gpu);
  }

  lemma RecurseNone(slim: seq<Slim>, rounds: nat)
    ensures Recurse(slim, [], rounds) == []
  {
  }

  lemma RecurseOne(slim: seq<Slim>, r: Climber, rounds: nat)
    ensures Recurse(slim, [r], rounds) == [r] + Above(slim, r, rounds)
  {
    assert [r][1..] == [];
  }

  lemma {:induction false} RecurseConcat(slim: seq<Slim>, a: seq<Climber>, b: seq<Climber>, rounds: nat)
    ensures Recurse(slim, a + b, rounds) == Recurse(slim, a, rounds) + Recurse(slim, b, rounds)
  {
    if a == [] {
      assert a + b == b;
    } else {
      assert (a + b)[1..] == a[1..] + b;
      RecurseConcat(slim, a[1..], b, rounds);
    }
  }

  lemma {:induction false} BaseCaseConcat(slim: seq<Slim>, a: seq<Open>, b: seq<Open>, gpu: GpuTimes)
    ensures BaseCase(slim, a + b, gpu) == BaseCase(slim, a, gpu) + BaseCase(slim, b, gpu)
  {
    if a == [] {
      assert a + b == b;
    } else {
      assert (a + b)[1..] == a[1..] + b;
      BaseCaseConcat(slim, a[1..], b, gpu);
    }
  }

  /** The insertion succeeds and stores these rows, in some order. */
  ghost predicate Stores(cs: seq<Climber>, rows: seq<Row>) {
    Insert(cs).Ok? && multiset(Insert(cs).value) == multiset(rows)
  }

  lemma {:induction false} StoresConcat(a: seq<Climber>, b: seq<Climber>, x: seq<Row>, y: seq<Row>)
    requires Stores(a, x) && Stores(b, y)
    ensures Stores(a + b, x + y)
  {
    InsertConcat(a, b);
  }

  lemma {:induction false} InsertConcat(a: seq<Climber>, b: seq<Climber>)
    requires Insert(a).Ok? && Insert(b).Ok?
    ensures Insert(a + b) == Ok(Insert(a).value + Insert(b).value)
  {
    if a == [] {
      assert a + b == b;
      assert [] + Insert(b).value == Insert(b).value;
    } else {
      assert (a + b)[1..] == a[1..] + b;
      InsertConcat(a[1..], b);
      var first := Row(a[0].parent.value, a[0].child, a[0].depth, a[0].cpu, a[0].gpu);
      Regroup([first], Insert(a[1..]).value, Insert(b).value);
    }
  }

  /** Climbing and walking the stack emit the same rows, in reverse order. */
  lemma {:induction false} ClimbStores(path: seq<int>, child: int, k: nat, cpu: int, gpu: int)
    ensures Stores(Climb(path, child, k, cpu, gpu), Emit(path, child, k, cpu, gpu))
    decreases |path|
  {
    if path != [] {
      var n := |path| - 1;
      ClimbStores(path[..n], child, k + 1, cpu, gpu);
      var up := Climb(path[..n], child, k + 1, cpu, gpu);
      assert Climb(path, child, k, cpu, gpu)[1..] == up;
    }
  }

  /** The recursive table of a forest: each frame's climb, in start order. */
  function Climbs(f: Forest, path: seq<int>, gpu: GpuTimes): seq<Climber> {
    match f
    case Leaf => []
    case Node(a, kids, rest) =>
      Climb(path + [a.id], a.id, 0, Duration(a) - RootTime(kids), GpuOf(gpu, a.id))
      + Climbs(kids, path + [a.id], gpu) + Climbs(rest, path, gpu)
  }

  lemma {:induction false} RecursionIsClimbs(slim: seq<Slim>, f: Forest, path: seq<int>, d: int, gpu: GpuTimes,
                                             rounds: nat)
    requires Linked(slim, f, path) && Chained(slim, path) && rounds >= |path| + |OpensOf(f, d)|
    ensures Recurse(slim, BaseCase(slim, OpensOf(f, d), gpu), rounds) == Climbs(f, path, gpu)
    decreases f
  {
    match f
    case Leaf =>
    case Node(a, kids, rest) =>
      ChainGrows(slim, path, a.id);
      RecursionIsClimbs(slim, kids, path + [a.id], d + 1, gpu, rounds);
      RecursionIsClimbs(slim, rest, path, d, gpu, rounds);
      RecursionOfNode(slim, a, kids, rest, path, d, gpu, rounds);
      ClimbsOfNode(a, kids, rest, path, gpu);
  }

  lemma ClimbsOfNode(a: Frame, kids: Forest, rest: Forest, path: seq<int>, gpu: GpuTimes)
    ensures Climbs(Node(a, kids, rest), path, gpu)
            == Climb(path + [a.id], a.id, 0, Duration(a) - RootTime(kids), GpuOf(gpu, a.id))
               + Climbs(kids, path + [a.id], gpu) + Climbs(rest, path, gpu)
  {
  }

  lemma {:induction false} ClimbsStoreRows(f: Forest, path: seq<int>, gpu: GpuTimes)
    ensures Stores(Climbs(f, path, gpu), Rows(f, path, gpu))
    decreases f
  {
    match f
    case Leaf =>
    case Node(a, kids, rest) =>
      ClimbsStoreRows(kids, path + [a.id], gpu);
      ClimbsStoreRows(rest, path, gpu);
      NodeStoresRows(a, kids, rest, path, gpu);
  }

  lemma NodeStoresRows(a: Frame, kids: Forest, rest: Forest, path: seq<int>, gpu: GpuTimes)
    requires Stores(Climbs(kids, path + [a.id], gpu), Rows(kids, path + [a.id], gpu))
    requires Stores(Climbs(rest, path, gpu), Rows(rest, path, gpu))
    ensures Stores(Climbs(Node(a, kids, rest), path, gpu), Rows(Node(a, kids, rest), path, gpu))
  {
    hide *;
    var here, cpu, g := path + [a.id], Duration(a) - RootTime(kids), GpuOf(gpu, a.id);
    ClimbsOfNode(a, kids, rest, path, gpu);
    RowsOfNode(a, kids, rest, path, gpu);
    ClimbStores(here, a.id, 0, cpu, g);
    StoresThree(Climb(here, a.id, 0, cpu, g), Climbs(kids, here, gpu), Climbs(rest, path, gpu),
                Emit(here, a.id, 0, cpu, g), Rows(kids, here, gpu), Rows(rest, path, gpu));
  }

  lemma StoresThree(a: seq<Climber>, b: seq<Climber>, c: seq<Climber>, x: seq<Row>, y: seq<Row>, z: seq<Row>)
    requires Stores(a, x) && Stores(b, y) && Stores(c, z)
    ensures Stores(a + b + c, y + x + z)
  {
    StoresConcat(a, b, x, y);
    StoresConcat(a + b, c, x + y, z);
  }

  /** The recursion splits into the climb of the root, its children, the rest. */
  lemma RecursionOfNode(slim: seq<Slim>, a: Frame, kids: Forest, rest: Forest, path: seq<int>, d: int, gpu: GpuTimes,
                        rounds: nat)
    requires Linked(slim, Node(a, kids, rest), path) && Chained(slim, path) && rounds >= |path| + 1
    ensures Recurse(slim, BaseCase(slim, OpensOf(Node(a, kids, rest), d), gpu), rounds)
            == Climb(path + [a.id], a.id, 0, Duration(a) - RootTime(kids), GpuOf(gpu, a.id))
               + Recurse(slim, BaseCase(slim, OpensOf(kids, d + 1), gpu), rounds)
               + Recurse(slim, BaseCase(slim, OpensOf(rest, d), gpu), rounds)
  {
    hide *;
    var here := path + [a.id];
    var cpu, g := Duration(a) - RootTime(kids), GpuOf(gpu, a.id);
    var q1 := [Climber(Some(a.id), a.id, 0, cpu, g)];
    var q2, q3 := BaseCase(slim, OpensOf(kids, d + 1), gpu), BaseCase(slim, OpensOf(rest, d), gpu);
    QueueOfNode(slim, a, kids, rest, path, d, gpu);
    RecurseConcat(slim, q1 + q2, q3, rounds);
    RecurseConcat(slim, q1, q2, rounds);
    ChainGrows(slim, path, a.id);
    LastOfGrown(path, a.id);
    RecurseClimbs(slim, here, a.id, 0, cpu, g, rounds);
  }

  lemma LastOfGrown(path: seq<int>, id: int)
    ensures Last(path + [id]) == Some(id)
  {
  }

  lemma QueueOfNode(slim: seq<Slim>, a: Frame, kids: Forest, rest: Forest, path: seq<int>, d: int, gpu: GpuTimes)
    requires Linked(slim, Node(a, kids, rest), path)
    ensures StepsTo(slim, a.id, Last(path))
    ensures BaseCase(slim, OpensOf(Node(a, kids, rest), d), gpu)
            == [Climber(Some(a.id), a.id, 0, Duration(a) - RootTime(kids), GpuOf(gpu, a.id))]
               + BaseCase(slim, OpensOf(kids, d + 1), gpu) + BaseCase(slim, OpensOf(rest, d), gpu)
  {
    BaseCaseConcat(slim, [Open(a, d)] + OpensOf(kids, d + 1), OpensOf(rest, d), gpu);
    BaseCaseConcat(slim, [Open(a, d)], OpensOf(kids, d + 1), gpu);
    assert [Open(a, d)][1..] == [];
  }

  // ---- all threads together --------------------------------------------

  function Starts(ev: seq<Event>): seq<Frame> {
    if ev == [] then [] else (if ev[0].isStart then [ev[0].frame] else []) + Starts(ev[1..])
  }

  function AllStarts(streams: seq<seq<Event>>): seq<Frame> {
    if streams == [] then [] else Starts(streams[0]) + AllStarts(streams[1..])
  }

  /** The forests of all threads side by side. */
  function Whole(streams: seq<seq<Event>>): Forest {
    if streams == [] then Leaf else Append(Parse(streams[0]).0, Whole(streams[1..]))
  }

  lemma {:induction false} StartsConcat(a: seq<Event>, b: seq<Event>)
    ensures Starts(a + b) == Starts(a) + Starts(b)
  {
    if a == [] {
      assert a + b == b;
    } else {
      assert (a + b)[1..] == a[1..] + b;
      StartsConcat(a[1..], b);
      Regroup(if a[0].isStart then [a[0].frame] else [], Starts(a[1..]), Starts(b));
    }
  }

  lemma {:induction false} StartsOfFlatten(f: Forest)
    ensures Starts(Flatten(f)) == Frames(f)
  {
    match f
    case Leaf =>
    case Node(a, kids, rest) =>
      StartsOfFlatten(kids);
      StartsOfFlatten(rest);
      var open, close := [Event(a, true)], [Event(a, false)];
      StartsConcat(open + Flatten(kids) + close, Flatten(rest));
      StartsConcat(open + Flatten(kids), close);
      StartsConcat(open, Flatten(kids));
      assert Starts(open) == [a] && Starts(close) == [];
  }

  lemma {:induction false} StartsUnique(ev: seq<Event>)
    requires NoRepeat(ev)
    requires forall d, e :: d in ev && e in ev && d.frame.id == e.frame.id ==> d.frame == e.frame
    ensures UniqueIds(Starts(ev))
    ensures forall x :: x in Starts(ev) <==> Event(x, true) in ev
  {
    if ev != [] {
      var rest := ev[1..];
      assert ev == [ev[0]] + rest;
      assert forall i :: 0 <= i < |rest| ==> rest[i] == ev[i + 1];
      StartsUnique(rest);
      forall x | x in Starts(rest) && ev[0].isStart ensures x.id != ev[0].frame.id {
        assert Event(x, true) in rest && ev[0] in ev;
      }
    }
  }

  lemma {:induction false} AppendFrames(f: Forest, g: Forest, d: int)
    ensures Frames(Append(f, g)) == Frames(f) + Frames(g)
    ensures OpensOf(Append(f, g), d) == OpensOf(f, d) + OpensOf(g, d)
    decreases f
  {
    if f.Node? {
      AppendFrames(f.rest, g, d);
    }
  }

  lemma {:induction false} AppendRows(f: Forest, g: Forest, path: seq<int>, gpu: GpuTimes)
    ensures Rows(Append(f, g), path, gpu) == Rows(f, path, gpu) + Rows(g, path, gpu)
    decreases f
  {
    match f
    case Leaf =>
    case Node(a, kids, rest) =>
      AppendRows(rest, g, path, gpu);
      Regroup(Rows(kids, path + [a.id], gpu)
              + Emit(path + [a.id], a.id, 0, Duration(a) - RootTime(kids), GpuOf(gpu, a.id)),
              Rows(rest, path, gpu), Rows(g, path, gpu));
  }

  lemma {:induction false} AppendNested(f: Forest, g: Forest)
    requires Nested(f) && Nested(g)
    requires forall x, y :: x in Frames(f) && y in Frames(g) ==> x.thread != y.thread
    ensures Nested(Append(f, g))
  {
    if f.Node? {
      assert f.frame in Frames(f);
      AppendNested(f.rest, g);
      AppendFrames(f.rest, g, 0);
    }
  }

  /** Well bracketed: each end event closes the frame opened last. */
  ghost predicate Bracketed(tr: Trace) {
    forall t :: 0 <= t < |tr.streams| ==> Closes(tr.streams[t], [])
  }

  lemma StartsOfStream(tr: Trace, t: nat)
    requires tr.Valid() && t < |tr.threads|
    ensures UniqueIds(Starts(tr.streams[t]))
    ensures forall x :: x in Starts(tr.streams[t]) ==> x in tr.api && x.thread == tr.threads[t]
  {
    StreamFacts(tr, t);
    forall d, e | d in tr.streams[t] && e in tr.streams[t] && d.frame.id == e.frame.id ensures d.frame == e.frame {
      SameId(tr.api, d.frame, e.frame);
    }
    StartsUnique(tr.streams[t]);
  }

  /** Frames of the table, of the threads from t on, with distinct ids. */
  ghost predicate FromThreads(tr: Trace, t: nat, frames: seq<Frame>)
    requires t <= |tr.threads|
  {
    UniqueIds(frames) && forall x :: x in frames ==> x in tr.api && x.thread in tr.threads[t..]
  }

  lemma JoinThreads(tr: Trace, t: nat, now: seq<Frame>, later: seq<Frame>)
    requires tr.Valid() && t < |tr.threads| && FromThreads(tr, t + 1, later)
    requires UniqueIds(now) && forall x :: x in now ==> x in tr.api && x.thread == tr.threads[t]
    ensures FromThreads(tr, t, now + later)
  {
    assert tr.threads[t..] == [tr.threads[t]] + tr.threads[t + 1..];
    forall x, y | x in now && y in later ensures x.id != y.id {
      assert x.thread == tr.threads[t] && y.thread in tr.threads[t + 1..];
      if x.id == y.id {
        SameId(tr.api, x, y);
      }
    }
    UniqueJoin(now, later);
  }

  lemma AllStartsStep(streams: seq<seq<Event>>, t: nat)
    requires t < |streams|
    ensures AllStarts(streams[t..]) == Starts(streams[t]) + AllStarts(streams[t + 1..])
  {
    assert streams[t..][1..] == streams[t + 1..];
  }

  lemma {:induction false} StartsOfTrace(tr: Trace, t: nat)
    requires tr.Valid() && t <= |tr.threads|
    ensures FromThreads(tr, t, AllStarts(tr.streams[t..]))
    decreases |tr.threads| - t
  {
    if t == |tr.threads| {
      assert AllStarts(tr.streams[t..]) == [];
    } else {
      hide Trace.Valid;
      StartsOfStream(tr, t);
      StartsOfTrace(tr, t + 1);
      AllStartsStep(tr.streams, t);
      JoinThreads(tr, t, Starts(tr.streams[t]), AllStarts(tr.streams[t + 1..]));
    }
  }

  lemma UniqueJoin(a: seq<Frame>, b: seq<Frame>)
    requires UniqueIds(a) && UniqueIds(b) && forall x, y :: x in a && y in b ==> x.id != y.id
    ensures UniqueIds(a + b)
  {
  }

  lemma SameId(api: seq<Frame>, x: Frame, y: Frame)
    requires UniqueIds(api) && x in api && y in api && x.id == y.id
    ensures x == y
  {
  }

  lemma {:induction false} ForestOfTrace(tr: Trace, t: nat, gpu: GpuTimes)
    requires tr.Valid() && Bracketed(tr) && t <= |tr.threads|
    ensures var f := Whole(tr.streams[t..]);
            && Frames(f) == AllStarts(tr.streams[t..]) && Nested(f)
            && Opens(tr.streams[t..]) == OpensOf(f, 1)
            && ReplayAll(tr.streams[t..], gpu) == Ok(Rows(f, [], gpu))
    decreases |tr.threads| - t
  {
    if t < |tr.threads| {
      var ev := tr.streams[t];
      assert tr.streams[t..][1..] == tr.streams[t + 1..] && tr.streams[t..][0] == ev;
      ForestOfTrace(tr, t + 1, gpu);
      var f, g := Parse(ev).0, Whole(tr.streams[t + 1..]);
      ForestOfStream(tr, t, gpu);
      AppendFrames(f, g, 1);
      AppendRows(f, g, [], gpu);
      StartsOfTrace(tr, t + 1);
      forall x, y | x in Frames(f) && y in Frames(g) ensures x.thread != y.thread {
        assert x.thread == tr.threads[t] && y.thread in tr.threads[t + 1..];
      }
      AppendNested(f, g);
    }
  }

  lemma ForestOfStream(tr: Trace, t: nat, gpu: GpuTimes)
    requires tr.Valid() && Bracketed(tr) && t < |tr.threads|
    ensures var ev := tr.streams[t]; var f := Parse(ev).0;
            && ev == Flatten(f) && Frames(f) == Starts(ev) && Nested(f)
            && (forall x :: x in Frames(f) ==> x.thread == tr.threads[t])
            && RunningDepth(ev, 0) == OpensOf(f, 1)
            && Replay(ev, [], gpu) == Ok(Rows(f, [], gpu))
  {
    var ev := tr.streams[t];
    var f := Parse(ev).0;
    StreamFacts(tr, t);
    BracketedIsForest(ev);
    StartsOfFlatten(f);
    forall x | x in Frames(f) ensures x.thread == tr.threads[t] {
      FlattenMembers(f, Event(x, true));
    }
    OrderedIsNested(f, tr.threads[t]);
    PhasesOfForest(f, gpu);
  }

  lemma PhasesOfForest(f: Forest, gpu: GpuTimes)
    ensures RunningDepth(Flatten(f), 0) == OpensOf(f, 1)
    ensures Replay(Flatten(f), [], gpu) == Ok(Rows(f, [], gpu))
  {
    assert Flatten(f) + [] == Flatten(f);
    DepthIsNesting(f, [], 0);
    assert OpensOf(f, 1) + [] == OpensOf(f, 1);
    ReplayForest(f, [], [], gpu);
    assert Rows(f, [], gpu) + [] == Rows(f, [], gpu);
  }

  /** One direction: on a well-bracketed trace both generators succeed and
      store the same bag of rows. */
  lemma BracketedAgree(tr: Trace, gpu: GpuTimes)
    requires tr.Valid() && Bracketed(tr)
    ensures ReplayAll(tr.streams, gpu).Ok? && Generate(tr.streams, gpu).Ok?
    ensures multiset(ReplayAll(tr.streams, gpu).value) == multiset(Generate(tr.streams, gpu).value)
  {
    var f := Whole(tr.streams);
    assert tr.streams[0..] == tr.streams;
    ForestOfTrace(tr, 0, gpu);
    StartsOfTrace(tr, 0);
    UniqueIsDistinct(f);
    SlimTreeOfForest(f);
    ForestLinks(f);
    RecursionIsClimbs(Edges(f, None), f, [], 1, gpu, |OpensOf(f, 1)|);
    ClimbsStoreRows(f, [], gpu);
  }
}
