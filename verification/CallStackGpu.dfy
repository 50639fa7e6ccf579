/** The gpu_time column (rocpd_python/rocpd/call_stacks.py:45-50, :75, :84 and
    :163-167, :209): which value every row carries, and what the values add up
    to. */
module CallStackGpu {
  import opened Sequences
  import opened Wrappers
  import opened CallTrace
  import opened StackReplay
  import opened SqlPipeline
  import opened CallForest
  import opened CallStackTheorems
  import opened CallStackAgreement
  import opened CallStackTotals

  /** GPU time of the operations these calls issued; a call without operations
      is not in the table. */
  function GpuTime(calls: seq<Frame>, gpu: GpuTimes): int {
    if calls == [] then 0
    else (if calls[0].id in gpu then gpu[calls[0].id] else 0) + GpuTime(calls[1..], gpu)
  }

  // ---- every row carries its child's time ------------------------------

  ghost predicate Carries(child: int, time: int, gpu: GpuTimes) {
    time == if child in gpu then gpu[child] else 0
  }

  ghost predicate RowsCarry(rows: seq<Row>, gpu: GpuTimes) {
    forall r :: r in rows ==> Carries(r.child, r.gpu, gpu)
  }

  lemma {:induction false} ReplayCarries(ev: seq<Event>, stack: seq<Slot>, gpu: GpuTimes)
    requires Replay(ev, stack, gpu).Ok?
    ensures RowsCarry(Replay(ev, stack, gpu).value, gpu)
  {
    if ev != [] {
      var f := ev[0].frame;
      if ev[0].isStart {
        ReplayCarries(ev[1..], stack + [Slot(f.id, f.start, 0)], gpu);
      } else {
        var cpu := TopCpu(stack, f.end);
        ReplayCarries(ev[1..], Popped(stack, cpu), gpu);
        EmitAt(SlotIds(stack), f.id, 0, cpu, GpuOf(gpu, f.id));
      }
    }
  }

  lemma {:induction false} ReplayAllCarries(streams: seq<seq<Event>>, gpu: GpuTimes)
    requires ReplayAll(streams, gpu).Ok?
    ensures RowsCarry(ReplayAll(streams, gpu).value, gpu)
  {
    if streams != [] {
      ReplayCarries(streams[0], [], gpu);
      ReplayAllCarries(streams[1..], gpu);
    }
  }

  ghost predicate ClimbersCarry(cs: seq<Climber>, gpu: GpuTimes) {
    forall c :: c in cs ==> Carries(c.child, c.gpu, gpu)
  }

  lemma {:induction false} BaseCarries(slim: seq<Slim>, opens: seq<Open>, gpu: GpuTimes)
    ensures ClimbersCarry(BaseCase(slim, opens, gpu), gpu)
  {
    if opens != [] {
      BaseCarries(slim, opens[1..], gpu);
    }
  }

  lemma {:induction false} StepCarries(slim: seq<Slim>, r: Climber, gpu: GpuTimes)
    requires Carries(r.child, r.gpu, gpu)
    ensures ClimbersCarry(StepUp(slim, r), gpu)
  {
    if slim != [] {
      StepCarries(slim[1..], r, gpu);
    }
  }

  lemma {:induction false} RecurseCarries(slim: seq<Slim>, queue: seq<Climber>, rounds: nat, gpu: GpuTimes)
    requires ClimbersCarry(queue, gpu)
    ensures ClimbersCarry(Recurse(slim, queue, rounds), gpu)
    decreases rounds, |queue|
  {
    if queue != [] {
      assert forall c :: c in queue[1..] ==> c in queue;
      RecurseCarries(slim, queue[1..], rounds, gpu);
      StepCarries(slim, queue[0], gpu);
      if rounds > 0 {
        RecurseCarries(slim, StepUp(slim, queue[0]), rounds - 1, gpu);
      }
    }
  }

  /** Whatever rows either generator stores, on any trace, the gpu_time of a row
      is that of the operations of its child call. */
  lemma EveryRowCarriesItsTime(streams: seq<seq<Event>>, gpu: GpuTimes)
    ensures ReplayAll(streams, gpu).Ok? ==>
              forall r :: r in ReplayAll(streams, gpu).value ==>
                            r.gpu == if r.child in gpu then gpu[r.child] else 0
    ensures Generate(streams, gpu).Ok? ==>
              forall r :: r in Generate(streams, gpu).value ==>
                            r.gpu == if r.child in gpu then gpu[r.child] else 0
  {
    if ReplayAll(streams, gpu).Ok? {
      ReplayAllCarries(streams, gpu);
      assert RowsCarry(ReplayAll(streams, gpu).value, gpu);
    }
    if Generate(streams, gpu).Ok? {
      GenerateCarries(streams, gpu);
      assert RowsCarry(Generate(streams, gpu).value, gpu);
    }
  }

  lemma GenerateCarries(streams: seq<seq<Event>>, gpu: GpuTimes)
    requires Generate(streams, gpu).Ok?
    ensures RowsCarry(Generate(streams, gpu).value, gpu)
  {
    hide BaseCase, Recurse, Insert, Carries;
    var opens := Opens(streams);
    var slim := SlimTree(opens, opens);
    BaseCarries(slim, opens, gpu);
    RecurseCarries(slim, BaseCase(slim, opens, gpu), |opens|, gpu);
    var cs := Recurse(slim, BaseCase(slim, opens, gpu), |opens|);
    forall r | r in Generate(streams, gpu).value ensures Carries(r.child, r.gpu, gpu) {
      InsertedFrom(cs, r);
      assert Climber(Some(r.parent), r.child, r.depth, r.cpu, r.gpu) in cs;
    }
  }

  // ---- sums over the forest --------------------------------------------

  lemma {:induction false} GpuTimeConcat(a: seq<Frame>, b: seq<Frame>, gpu: GpuTimes)
    ensures GpuTime(a + b, gpu) == GpuTime(a, gpu) + GpuTime(b, gpu)
  {
    if a == [] {
      assert a + b == b;
    } else {
      assert (a + b)[1..] == a[1..] + b;
      GpuTimeConcat(a[1..], b, gpu);
    }
  }

  lemma GpuTimeOfOne(a: Frame, gpu: GpuTimes)
    ensures GpuTime([a], gpu) == GpuOf(gpu, a.id)
  {
    assert [a][1..] == [];
  }

  /** GPU time of the frames with this id and of all frames below them. */
  function Subtree(f: Forest, id: int, gpu: GpuTimes): int {
    match f
    case Leaf => 0
    case Node(a, kids, rest) =>
      (if a.id == id then GpuTime([a] + Frames(kids), gpu) else 0) + Subtree(kids, id, gpu) + Subtree(rest, id, gpu)
  }

  lemma {:induction false} GpuOfForest(f: Forest, path: seq<int>, gpu: GpuTimes, id: int)
    ensures Inclusive(Rows(f, path, gpu), Gpu, id)
            == Occurrences(path, id) * GpuTime(Frames(f), gpu) + Subtree(f, id, gpu)
    ensures DepthZero(Rows(f, path, gpu), Gpu) == GpuTime(Frames(f), gpu)
    decreases f
  {
    hide Inclusive, DepthZero, GpuTime, Occurrences, Rows;
    match f
    case Leaf => EmptyForest(path, gpu, id);
    case Node(a, kids, rest) =>
      var g := GpuOf(gpu, a.id);
      GpuOfForest(kids, path + [a.id], gpu, id);
      GpuOfForest(rest, path, gpu, id);
      SumsOfNode(a, kids, rest, path, gpu, Gpu, id, g);
      OccurrencesGrow(path, a.id, id);
      GpuTimeOfOne(a, gpu);
      GpuTimeConcat([a] + Frames(kids), Frames(rest), gpu);
      GpuTimeConcat([a], Frames(kids), gpu);
      Distribute(Occurrences(path, id), g, GpuTime(Frames(kids), gpu), GpuTime(Frames(rest), gpu));
  }

  lemma EmptyForest(path: seq<int>, gpu: GpuTimes, id: int)
    ensures Inclusive(Rows(Leaf, path, gpu), Gpu, id) == 0 && DepthZero(Rows(Leaf, path, gpu), Gpu) == 0
    ensures GpuTime([], gpu) == 0
  {
  }

  lemma Distribute(n: int, own: int, kids: int, rest: int)
    ensures n * (own + kids + rest) == n * kids + n * own + n * rest
    ensures (n + 1) * kids == n * kids + kids && (n + 1) * own == n * own + own
  {
  }

  lemma {:induction false} SubtreeElsewhere(f: Forest, id: int, gpu: GpuTimes)
    requires forall x :: x in Frames(f) ==> x.id != id
    ensures Subtree(f, id, gpu) == 0
  {
    if f.Node? {
      assert f.frame in Frames(f);
      SubtreeElsewhere(f.kids, id, gpu);
      SubtreeElsewhere(f.rest, id, gpu);
    }
  }

  lemma {:induction false} SubtreeAppend(f: Forest, g: Forest, id: int, gpu: GpuTimes)
    ensures Subtree(Append(f, g), id, gpu) == Subtree(f, id, gpu) + Subtree(g, id, gpu)
    decreases f
  {
    if f.Node? {
      SubtreeAppend(f.rest, g, id, gpu);
    }
  }

  // ---- the calls between a call's two events ---------------------------

  /** The events from a call's start up to its end, in a flattened forest. */
  ghost predicate Spans(f: Forest, x: Frame, i: nat, j: nat, gpu: GpuTimes) {
    var ev := Flatten(f);
    && i < j < |ev| && ev[i] == Event(x, true) && ev[j] == Event(x, false)
    && Subtree(f, x.id, gpu) == GpuTime(Starts(ev[i..j]), gpu)
  }

  lemma {:induction false} SpanOf(f: Forest, x: Frame, gpu: GpuTimes) returns (i: nat, j: nat)
    requires DistinctIds(f) && x in Frames(f)
    ensures Spans(f, x, i, j, gpu)
    decreases f
  {
    hide Spans, Subtree;
    var a, kids, rest := f.frame, f.kids, f.rest;
    assert f == Node(a, kids, rest);
    if x == a {
      RootSpan(a, kids, rest, gpu);
      i, j := 0, 1 + |Flatten(kids)|;
    } else if x in Frames(kids) {
      i, j := SpanOf(kids, x, gpu);
      SubtreeElsewhere(rest, x.id, gpu);
      InnerSpan(a, kids, rest, x, i, j, gpu);
      i, j := 1 + i, 1 + j;
    } else {
      i, j := SpanOf(rest, x, gpu);
      SubtreeElsewhere(kids, x.id, gpu);
      LaterSpan(a, kids, rest, x, i, j, gpu);
      i, j := 2 + |Flatten(kids)| + i, 2 + |Flatten(kids)| + j;
    }
  }

  lemma RootSpan(a: Frame, kids: Forest, rest: Forest, gpu: GpuTimes)
    requires DistinctIds(Node(a, kids, rest))
    ensures Spans(Node(a, kids, rest), a, 0, 1 + |Flatten(kids)|, gpu)
  {
    hide GpuTime, Starts;
    var ev, n := Flatten(Node(a, kids, rest)), |Flatten(kids)|;
    SubtreeElsewhere(kids, a.id, gpu);
    SubtreeElsewhere(rest, a.id, gpu);
    assert ev[0..1 + n] == [Event(a, true)] + Flatten(kids);
    StartsConcat([Event(a, true)], Flatten(kids));
    StartsOfOne(a);
    StartsOfFlatten(kids);
  }

  lemma StartsOfOne(a: Frame)
    ensures Starts([Event(a, true)]) == [a]
  {
    assert [Event(a, true)][1..] == [];
  }

  lemma SlicesAt(before: seq<Event>, ev: seq<Event>, after: seq<Event>, i: nat, j: nat)
    requires i < j < |ev|
    ensures var all, n := before + ev + after, |before|;
            n + j < |all| && all[n + i] == ev[i] && all[n + j] == ev[j] && all[n + i..n + j] == ev[i..j]
  {
  }

  lemma SpansMove(f: Forest, g: Forest, x: Frame, i: nat, j: nat, before: seq<Event>, after: seq<Event>,
                  gpu: GpuTimes)
    requires Spans(f, x, i, j, gpu) && Flatten(g) == before + Flatten(f) + after
    requires Subtree(g, x.id, gpu) == Subtree(f, x.id, gpu)
    ensures Spans(g, x, |before| + i, |before| + j, gpu)
  {
    hide Flatten, Subtree, GpuTime, Starts;
    SlicesAt(before, Flatten(f), after, i, j);
  }

  lemma FlatNode(a: Frame, kids: Forest, rest: Forest)
    ensures var node, close := Flatten(Node(a, kids, rest)), [Event(a, false)];
            && node == [Event(a, true)] + Flatten(kids) + (close + Flatten(rest))
            && node == [Event(a, true)] + Flatten(kids) + close + Flatten(rest) + []
  {
    Regroup([Event(a, true)] + Flatten(kids), [Event(a, false)], Flatten(rest));
  }

  lemma SubtreeOfNode(a: Frame, kids: Forest, rest: Forest, id: int, gpu: GpuTimes)
    requires a.id != id
    ensures Subtree(Node(a, kids, rest), id, gpu) == Subtree(kids, id, gpu) + Subtree(rest, id, gpu)
  {
  }

  lemma InnerSpan(a: Frame, kids: Forest, rest: Forest, x: Frame, i: nat, j: nat, gpu: GpuTimes)
    requires Spans(kids, x, i, j, gpu) && Subtree(rest, x.id, gpu) == 0 && a.id != x.id
    ensures Spans(Node(a, kids, rest), x, 1 + i, 1 + j, gpu)
  {
    hide *;
    FlatNode(a, kids, rest);
    SubtreeOfNode(a, kids, rest, x.id, gpu);
    SpansMove(kids, Node(a, kids, rest), x, i, j, [Event(a, true)], [Event(a, false)] + Flatten(rest), gpu);
  }

  lemma LaterSpan(a: Frame, kids: Forest, rest: Forest, x: Frame, i: nat, j: nat, gpu: GpuTimes)
    requires Spans(rest, x, i, j, gpu) && Subtree(kids, x.id, gpu) == 0 && a.id != x.id
    ensures var n := 2 + |Flatten(kids)|; Spans(Node(a, kids, rest), x, n + i, n + j, gpu)
  {
    hide *;
    FlatNode(a, kids, rest);
    SubtreeOfNode(a, kids, rest, x.id, gpu);
    SpansMove(rest, Node(a, kids, rest), x, i, j, [Event(a, true)] + Flatten(kids) + [Event(a, false)], [], gpu);
  }

  // ---- the traces ------------------------------------------------------

  /** Only the call's own thread contributes. */
  lemma {:induction false} SubtreeOfTrace(tr: Trace, t: nat, u: nat, x: Frame, gpu: GpuTimes)
    requires tr.Valid() && Bracketed(tr) && t <= |tr.threads| && u < |tr.threads| && x in tr.api
    requires x.thread == tr.threads[u]
    ensures |tr.threads| == |tr.streams|
    ensures Subtree(Whole(tr.streams[t..]), x.id, gpu)
            == if t <= u then Subtree(Parse(tr.streams[u]).0, x.id, gpu) else 0
    decreases |tr.threads| - t
  {
    hide *;
    StreamsMatchThreads(tr);
    WholeStep(tr.streams, t, x.id, gpu);
    if t < |tr.threads| {
      SubtreeOfTrace(tr, t + 1, u, x, gpu);
      if t != u {
        ThreadsDiffer(tr, t, u);
        OtherThread(tr, t, x, gpu);
      }
    }
  }

  lemma ThreadsDiffer(tr: Trace, t: nat, u: nat)
    requires tr.Valid() && t < |tr.threads| && u < |tr.threads| && t != u
    ensures tr.threads[t] != tr.threads[u]
  {
  }

  lemma WholeStep(streams: seq<seq<Event>>, t: nat, id: int, gpu: GpuTimes)
    requires t <= |streams|
    ensures Subtree(Whole(streams[t..]), id, gpu)
            == if t == |streams| then 0
               else Subtree(Parse(streams[t]).0, id, gpu) + Subtree(Whole(streams[t + 1..]), id, gpu)
  {
    if t < |streams| {
      assert streams[t..][1..] == streams[t + 1..] && streams[t..][0] == streams[t];
      SubtreeAppend(Parse(streams[t]).0, Whole(streams[t + 1..]), id, gpu);
    }
  }

  lemma OtherThread(tr: Trace, t: nat, x: Frame, gpu: GpuTimes)
    requires tr.Valid() && Bracketed(tr) && t < |tr.threads| && x in tr.api && x.thread != tr.threads[t]
    ensures Subtree(Parse(tr.streams[t]).0, x.id, gpu) == 0
  {
    var f := Parse(tr.streams[t]).0;
    ForestOfStream(tr, t, gpu);
    StartsOfStream(tr, t);
    forall y | y in Frames(f) ensures y.id != x.id {
      if y.id == x.id {
        SameId(tr.api, x, y);
      }
    }
    SubtreeElsewhere(f, x.id, gpu);
  }

  lemma SubtreeOfStream(tr: Trace, t: nat, i: nat, j: nat, x: Frame, gpu: GpuTimes)
    requires tr.Valid() && Bracketed(tr) && t < |tr.threads| && i < |tr.streams[t]| && j < |tr.streams[t]|
    requires tr.streams[t][i] == Event(x, true) && tr.streams[t][j] == Event(x, false)
    ensures i < j && Subtree(Parse(tr.streams[t]).0, x.id, gpu) == GpuTime(Starts(tr.streams[t][i..j]), gpu)
  {
    hide Subtree, GpuTime, Starts, Nested, DistinctIds, Flatten, Frames;
    var ev, f := tr.streams[t], Parse(tr.streams[t]).0;
    StreamFacts(tr, t);
    ForestOfStream(tr, t, gpu);
    StartsOfStream(tr, t);
    UniqueIsDistinct(f);
    FlattenMembers(f, Event(x, true));
    var p, q := SpanOf(f, x, gpu);
    assert p == i && q == j;
  }

  /** callStack_inclusive: the gpu time under a call is that of all calls its
      thread starts from its start event up to its end event, from either
      generator. */
  lemma GpuUnderCall(tr: Trace, gpu: GpuTimes, t: nat, i: nat, j: nat)
    requires tr.Valid() && Bracketed(tr) && t < |tr.streams| && i < |tr.streams[t]| && j < |tr.streams[t]|
    requires tr.streams[t][i].isStart && tr.streams[t][j] == Event(tr.streams[t][i].frame, false)
    ensures i < j && ReplayAll(tr.streams, gpu).Ok? && Generate(tr.streams, gpu).Ok?
    ensures var id, inside := tr.streams[t][i].frame.id, Starts(tr.streams[t][i..j]);
            && Inclusive(ReplayAll(tr.streams, gpu).value, Gpu, id) == GpuTime(inside, gpu)
            && Inclusive(Generate(tr.streams, gpu).value, Gpu, id) == GpuTime(inside, gpu)
  {
    var x := tr.streams[t][i].frame;
    assert tr.streams[t][i] in tr.streams[t];
    StreamFacts(tr, t);
    assert x in tr.api && x.thread == tr.threads[t] && t < |tr.threads|;
    assert tr.streams[0..] == tr.streams;
    hide *;
    ForestOfTrace(tr, 0, gpu);
    GpuOfForest(Whole(tr.streams), [], gpu, x.id);
    NotOnEmptyPath(x.id);
    SubtreeOfTrace(tr, 0, t, x, gpu);
    SubtreeOfStream(tr, t, i, j, x, gpu);
    BracketedAgree(tr, gpu);
    SumsPermute(ReplayAll(tr.streams, gpu).value, Generate(tr.streams, gpu).value, Gpu, x.id);
  }

  lemma NotOnEmptyPath(id: int)
    ensures Occurrences([], id) == 0
  {
  }

  lemma GpuTimeWithout(calls: seq<Frame>, i: nat, gpu: GpuTimes)
    requires i < |calls|
    ensures GpuTime(calls, gpu)
            == (if calls[i].id in gpu then gpu[calls[i].id] else 0) + GpuTime(Without(calls, i), gpu)
  {
    assert calls == calls[..i] + calls[i..];
    GpuTimeConcat(calls[..i], calls[i..], gpu);
    GpuTimeConcat(calls[..i], calls[i + 1..], gpu);
  }

  lemma {:induction false} SameCallsSameTime(a: seq<Frame>, b: seq<Frame>, gpu: GpuTimes)
    requires UniqueIds(a) && UniqueIds(b) && forall x :: x in a <==> x in b
    ensures GpuTime(a, gpu) == GpuTime(b, gpu)
  {
    if a == [] {
      assert forall k :: 0 <= k < |b| ==> b[k] in a;
    } else {
      assert a[0] in a;
      var i :| 0 <= i < |b| && b[i] == a[0];
      var c, d := a[1..], Without(b, i);
      assert a == [a[0]] + c && b == b[..i] + [b[i]] + b[i + 1..];
      forall x ensures x in c <==> x in d {
        assert x in a <==> x in b;
      }
      SameCallsSameTime(c, d, gpu);
      GpuTimeWithout(b, i, gpu);
    }
  }

  lemma {:induction false} StartsAreTheTable(tr: Trace, gpu: GpuTimes)
    requires tr.Valid()
    ensures GpuTime(AllStarts(tr.streams), gpu) == GpuTime(tr.api, gpu)
  {
    assert tr.streams[0..] == tr.streams && tr.threads[0..] == tr.threads;
    StartsOfTrace(tr, 0);
    forall x | x in tr.api ensures x in AllStarts(tr.streams) {
      EveryCallStarts(tr, 0, x);
    }
    SameCallsSameTime(AllStarts(tr.streams), tr.api, gpu);
  }

  /** callStack_exclusive as a whole: the gpu times of depth 0 add up to that of
      the calls of the table, from either generator. */
  lemma GpuTimeIsConserved(tr: Trace, gpu: GpuTimes)
    requires tr.Valid() && Bracketed(tr)
    ensures ReplayAll(tr.streams, gpu).Ok? && Generate(tr.streams, gpu).Ok?
    ensures DepthZero(ReplayAll(tr.streams, gpu).value, Gpu) == GpuTime(tr.api, gpu)
    ensures DepthZero(Generate(tr.streams, gpu).value, Gpu) == GpuTime(tr.api, gpu)
  {
    hide *;
    assert tr.streams[0..] == tr.streams;
    ForestOfTrace(tr, 0, gpu);
    GpuOfForest(Whole(tr.streams), [], gpu, 0);
    StartsAreTheTable(tr, gpu);
    BracketedAgree(tr, gpu);
    SumsPermute(ReplayAll(tr.streams, gpu).value, Generate(tr.streams, gpu).value, Gpu, 0);
  }

  // ---- where the times come from ---------------------------------------

  /** A row of rocpd_api_ops. */
  datatype Link = Link(api: int, op: int)

  /** SELECT api_id, SUM(end - start) ... JOIN rocpd_op ... GROUP BY api_id, the
      durations of rocpd_op given by id. */
  function TimesOf(links: seq<Link>, durations: map<int, int>): GpuTimes {
    if links == [] then map[]
    else
      var l, times := links[0], TimesOf(links[1..], durations);
      if l.op !in durations then times
      else times[l.api := durations[l.op] + if l.api in times then times[l.api] else 0]
  }

  /** Duration of the operations that a call of the table is linked to, each
      link counted once. */
  ghost function LinkedTime(links: seq<Link>, durations: map<int, int>, api: seq<Frame>): int {
    if links == [] then 0
    else
      (if links[0].op in durations && (exists x :: x in api && x.id == links[0].api) then durations[links[0].op] else 0)
      + LinkedTime(links[1..], durations, api)
  }

  lemma {:induction false} TimeAdded(api: seq<Frame>, gpu: GpuTimes, id: int, v: int)
    requires UniqueIds(api)
    ensures var was := if id in gpu then gpu[id] else 0;
            GpuTime(api, gpu[id := v + was])
            == GpuTime(api, gpu) + if exists x :: x in api && x.id == id then v else 0
  {
    if api != [] {
      var rest := api[1..];
      assert api == [api[0]] + rest;
      TimeAdded(rest, gpu, id, v);
      assert api[0] in api && forall x :: x in rest ==> x in api && x.id != api[0].id;
      assert (exists x :: x in api && x.id == id) <==> api[0].id == id || (exists x :: x in rest && x.id == id);
    }
  }

  lemma {:induction false} TimesAddUp(links: seq<Link>, durations: map<int, int>, api: seq<Frame>)
    requires UniqueIds(api)
    ensures GpuTime(api, TimesOf(links, durations)) == LinkedTime(links, durations, api)
  {
    if links == [] {
      NoTimes(api);
    } else {
      TimesAddUp(links[1..], durations, api);
      var l, times := links[0], TimesOf(links[1..], durations);
      if l.op in durations {
        TimeAdded(api, times, l.api, durations[l.op]);
      }
    }
  }

  lemma {:induction false} NoTimes(api: seq<Frame>)
    ensures GpuTime(api, map[]) == 0
  {
    if api != [] {
      NoTimes(api[1..]);
    }
  }

  /** Every operation linked to a call of the table is counted once, at depth
      0, by either generator. */
  lemma OperationsCountedOnce(tr: Trace, links: seq<Link>, durations: map<int, int>)
    requires tr.Valid() && Bracketed(tr)
    ensures var gpu := TimesOf(links, durations);
            && ReplayAll(tr.streams, gpu).Ok? && Generate(tr.streams, gpu).Ok?
            && DepthZero(ReplayAll(tr.streams, gpu).value, Gpu) == LinkedTime(links, durations, tr.api)
            && DepthZero(Generate(tr.streams, gpu).value, Gpu) == LinkedTime(links, durations, tr.api)
  {
    assert UniqueIds(tr.api);
    hide *;
    GpuTimeIsConserved(tr, TimesOf(links, durations));
    TimesAddUp(links, durations, tr.api);
  }
}
