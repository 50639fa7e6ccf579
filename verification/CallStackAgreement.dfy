/** The header of call_stacks.py promises identical output.  It holds exactly
    for well-bracketed streams; tables whose calls nest strictly produce them. */
module CallStackAgreement {
  import opened Wrappers
  import opened CallTrace
  import opened StackReplay
  import opened SqlPipeline
  import opened CallForest
  import opened CallStackTheorems

  /** Both generators succeed and store the same bag of rows. */
  ghost predicate SameOutput(tr: Trace, gpu: GpuTimes) {
    var py, sql := ReplayAll(tr.streams, gpu), Generate(tr.streams, gpu);
    py.Ok? && sql.Ok? && multiset(py.value) == multiset(sql.value)
  }

  // ---- a badly closed frame shows --------------------------------------

  /** A depth-0 row naming two different frames. */
  ghost predicate Mismatched(r: Row) {
    r.depth == 0 && r.parent != r.child
  }

  /** An end event that does not close the top of the stack emits one. */
  lemma {:induction false} UnclosedShows(api: seq<Frame>, ev: seq<Event>, stack: seq<Slot>, open: seq<Frame>,
                                         gpu: GpuTimes)
    requires UniqueIds(api) && (forall e :: e in ev ==> e.frame in api) && (forall x :: x in open ==> x in api)
    requires |stack| == |open| && forall i :: 0 <= i < |open| ==> stack[i].id == open[i].id
    requires !Closes(ev, open) && Replay(ev, stack, gpu).Ok?
    ensures exists r :: r in Replay(ev, stack, gpu).value && Mismatched(r)
    decreases |ev|
  {
    var f, n := ev[0].frame, |open| - 1;
    assert forall e :: e in ev[1..] ==> e in ev;
    if ev[0].isStart {
      UnclosedShows(api, ev[1..], stack + [Slot(f.id, f.start, 0)], open + [f], gpu);
    } else {
      var cpu := TopCpu(stack, f.end);
      var own := Emit(SlotIds(stack), f.id, 0, cpu, GpuOf(gpu, f.id));
      var more := Replay(ev[1..], Popped(stack, cpu), gpu);
      assert Replay(ev, stack, gpu).value == own + more.value;
      if open[n] == f {
        UnclosedShows(api, ev[1..], Popped(stack, cpu), open[..n], gpu);
        var r :| r in more.value && Mismatched(r);
        assert r in own + more.value;
      } else {
        if open[n].id == f.id {
          SameId(api, open[n], f);
        }
        EmitAt(SlotIds(stack), f.id, 0, cpu, GpuOf(gpu, f.id));
        assert own[n] in own && own[n] in own + more.value && Mismatched(own[n]);
      }
    }
  }

  lemma {:induction false} UnbracketedShows(tr: Trace, t: nat, u: nat, gpu: GpuTimes)
    requires tr.Valid() && t <= u < |tr.streams| && !Closes(tr.streams[u], [])
    requires ReplayAll(tr.streams[t..], gpu).Ok?
    ensures exists r :: r in ReplayAll(tr.streams[t..], gpu).value && Mismatched(r)
    decreases u - t
  {
    var first, later := Replay(tr.streams[t], [], gpu), ReplayAll(tr.streams[t..][1..], gpu);
    assert tr.streams[t..][1..] == tr.streams[t + 1..];
    assert ReplayAll(tr.streams[t..], gpu).value == first.value + later.value;
    if t == u {
      StreamFacts(tr, t);
      UnclosedShows(tr.api, tr.streams[t], [], [], gpu);
    } else {
      UnbracketedShows(tr, t + 1, u, gpu);
    }
  }

  lemma {:induction false} StepsAreDeeper(slim: seq<Slim>, r: Climber)
    ensures forall s :: s in StepUp(slim, r) ==> s.depth == r.depth + 1
  {
    if slim != [] {
      StepsAreDeeper(slim[1..], r);
    }
  }

  lemma RecurseParts(slim: seq<Slim>, queue: seq<Climber>, rounds: nat, r: Climber)
    requires r in Recurse(slim, queue, rounds)
    ensures queue != []
    ensures || r == queue[0]
            || r in Above(slim, queue[0], rounds)
            || r in Recurse(slim, queue[1..], rounds)
  {
  }

  lemma {:induction false} DepthZeroIsQueued(slim: seq<Slim>, queue: seq<Climber>, rounds: nat, r: Climber)
    requires r in Recurse(slim, queue, rounds) && r.depth == 0
    ensures r in queue
    decreases rounds, |queue|
  {
    hide Recurse, StepUp;
    RecurseParts(slim, queue, rounds, r);
    var deeper := rounds > 0 && r in Recurse(slim, StepUp(slim, queue[0]), rounds - 1);
    if deeper {
      DepthZeroIsQueued(slim, StepUp(slim, queue[0]), rounds - 1, r);
      StepsAreDeeper(slim, queue[0]);
    } else if r != queue[0] {
      DepthZeroIsQueued(slim, queue[1..], rounds, r);
    }
  }

  lemma {:induction false} BaseNamesItself(slim: seq<Slim>, opens: seq<Open>, gpu: GpuTimes)
    ensures forall r :: r in BaseCase(slim, opens, gpu) ==> r.parent == Some(r.child)
  {
    if opens != [] {
      BaseNamesItself(slim, opens[1..], gpu);
    }
  }

  lemma {:induction false} InsertedFrom(cs: seq<Climber>, row: Row)
    requires Insert(cs).Ok? && row in Insert(cs).value
    ensures Climber(Some(row.parent), row.child, row.depth, row.cpu, row.gpu) in cs
  {
    if row in Insert(cs[1..]).value {
      InsertedFrom(cs[1..], row);
    }
  }

  /** The relational pipeline never stores a mismatched row. */
  lemma SqlNeverMismatches(streams: seq<seq<Event>>, gpu: GpuTimes)
    requires Generate(streams, gpu).Ok?
    ensures forall r :: r in Generate(streams, gpu).value ==> !Mismatched(r)
  {
    var opens := Opens(streams);
    var slim := SlimTree(opens, opens);
    var queue := BaseCase(slim, opens, gpu);
    forall r | r in Generate(streams, gpu).value ensures !Mismatched(r) {
      if r.depth == 0 {
        InsertedFrom(Recurse(slim, queue, |opens|), r);
        var c := Climber(Some(r.parent), r.child, r.depth, r.cpu, r.gpu);
        DepthZeroIsQueued(slim, queue, |opens|, c);
        BaseNamesItself(slim, opens, gpu);
      }
    }
  }

  /** The promise, with its exact condition. */
  lemma SameOutputIffBracketed(tr: Trace, gpu: GpuTimes)
    requires tr.Valid()
    ensures SameOutput(tr, gpu) <==> Bracketed(tr)
  {
    if Bracketed(tr) {
      BracketedAgree(tr, gpu);
    } else if SameOutput(tr, gpu) {
      var u :| 0 <= u < |tr.streams| && !Closes(tr.streams[u], []);
      assert tr.streams[0..] == tr.streams;
      UnbracketedShows(tr, 0, u, gpu);
      var py, sql := ReplayAll(tr.streams, gpu).value, Generate(tr.streams, gpu).value;
      var r :| r in py && Mismatched(r);
      assert r in multiset(py) && r in multiset(sql);
      SqlNeverMismatches(tr.streams, gpu);
    }
  }

  /** Touching siblings break it: the second call starts at the instant the
      first one ends, and starts sort before ends. */
  lemma TouchingSiblingsDiffer()
    ensures var a, b := Frame(1, Thread(0, 0), 0, 5), Frame(2, Thread(0, 0), 5, 10);
            var ev := [Event(a, true), Event(b, true), Event(a, false), Event(b, false)];
            var tr := Trace([a, b], [Thread(0, 0)], [ev]);
            tr.Valid() && !SameOutput(tr, map[])
  {
    var a, b := Frame(1, Thread(0, 0), 0, 5), Frame(2, Thread(0, 0), 5, 10);
    var ev := [Event(a, true), Event(b, true), Event(a, false), Event(b, false)];
    var tr := Trace([a, b], [Thread(0, 0)], [ev]);
    PairIsValid(a, b);
    SecondEndsEarly(a, b);
    assert !Closes(tr.streams[0], []);
    SameOutputIffBracketed(tr, map[]);
  }

  lemma PairFrames(a: Frame, b: Frame)
    requires a.thread == b.thread
    ensures ThreadFrames([a, b], a.thread) == [a, b]
  {
    assert [b][1..] == [] && [a, b][1..] == [b];
    assert ThreadFrames([b], a.thread) == [b];
    assert [a] + [b] == [a, b];
  }

  lemma PairEvents(a: Frame, b: Frame)
    requires a.thread == b.thread
    ensures multiset([Event(a, true), Event(b, true), Event(a, false), Event(b, false)])
            == multiset(EventsOf(ThreadFrames([a, b], a.thread)))
  {
    PairFrames(a, b);
    hide ThreadFrames;
    assert EventsOf([b]) == [Event(b, true), Event(b, false)];
    assert EventsOf([a, b]) == [Event(a, true), Event(a, false), Event(b, true), Event(b, false)];
  }

  lemma PairOrdered(a: Frame, b: Frame)
    requires a.start < a.end == b.start < b.end
    ensures Ordered([Event(a, true), Event(b, true), Event(a, false), Event(b, false)])
  {
  }

  lemma PairIsValid(a: Frame, b: Frame)
    requires a.thread == b.thread && a.id != b.id && a.start < a.end == b.start < b.end
    ensures Trace([a, b], [a.thread], [[Event(a, true), Event(b, true), Event(a, false), Event(b, false)]]).Valid()
  {
    PairEvents(a, b);
    PairOrdered(a, b);
    hide EventsOf, ThreadFrames, Ordered;
  }

  lemma SecondEndsEarly(a: Frame, b: Frame)
    requires a != b
    ensures !Closes([Event(a, true), Event(b, true), Event(a, false), Event(b, false)], [])
  {
    var ev := [Event(a, true), Event(b, true), Event(a, false), Event(b, false)];
    assert ev[1..][0] == Event(b, true) && ev[1..][1..][0] == Event(a, false);
    assert [] + [a] + [b] == [a, b];
    assert !Closes(ev[1..][1..], [a, b]);
    assert !Closes(ev[1..], [] + [a]);
  }

  // ---- tables that always work -----------------------------------------

  /** Two calls of one thread are strictly nested or strictly apart; a call may
      start and end at one instant, but no other endpoints coincide. */
  ghost predicate StrictPair(x: Frame, y: Frame) {
    || x.end < y.start || y.end < x.start
    || (x.start < y.start && y.end < x.end)
    || (y.start < x.start && x.end < y.end)
  }

  ghost predicate StrictlyNested(api: seq<Frame>) {
    && (forall x :: x in api ==> x.start <= x.end)
    && (forall x, y :: x in api && y in api && x != y && x.thread == y.thread ==> StrictPair(x, y))
  }

  /** The state of a replay over the rest of one thread's stream. */
  ghost predicate Pending(ev: seq<Event>, open: seq<Frame>, api: seq<Frame>, t: Thread) {
    && Ordered(ev) && NoRepeat(ev)
    && (forall e :: e in ev ==> e.frame in api && e.frame.thread == t)
    && (forall x :: x in open ==> x in api && x.thread == t && Event(x, true) !in ev && Event(x, false) in ev)
    && (forall x, e :: x in open && e in ev ==> Event(x, true).NotAfter(e))
    && (forall i, j :: 0 <= i < j < |open| ==> open[i] != open[j] && open[i].start <= open[j].start)
    && (forall x :: Event(x, false) in ev ==> x in open || Event(x, true) in ev)
    && (forall x :: Event(x, true) in ev ==> Event(x, false) in ev)
  }

  lemma {:induction false} PendingCloses(ev: seq<Event>, open: seq<Frame>, api: seq<Frame>, t: Thread)
    requires StrictlyNested(api) && Pending(ev, open, api, t)
    ensures Closes(ev, open)
    decreases |ev|
  {
    if ev != [] {
      var f := ev[0].frame;
      if ev[0].isStart {
        PushPending(ev, open, api, t);
        PendingCloses(ev[1..], open + [f], api, t);
      } else {
        TopIsClosed(ev, open, api, t);
        PopPending(ev, open, api, t);
        PendingCloses(ev[1..], open[..|open| - 1], api, t);
      }
    }
  }

  lemma RestOf(ev: seq<Event>)
    requires ev != [] && Ordered(ev) && NoRepeat(ev)
    ensures Ordered(ev[1..]) && NoRepeat(ev[1..])
    ensures forall e :: e in ev <==> e == ev[0] || e in ev[1..]
    ensures forall e :: e in ev[1..] ==> ev[0].NotAfter(e) && e != ev[0]
  {
    assert ev == [ev[0]] + ev[1..];
    assert forall i :: 0 <= i < |ev| - 1 ==> ev[1..][i] == ev[i + 1];
  }

  lemma PushPending(ev: seq<Event>, open: seq<Frame>, api: seq<Frame>, t: Thread)
    requires StrictlyNested(api) && Pending(ev, open, api, t) && ev != [] && ev[0].isStart
    ensures Pending(ev[1..], open + [ev[0].frame], api, t)
  {
    RestOf(ev);
    forall x | x in open ensures x != ev[0].frame && x.start <= ev[0].frame.start {
      assert Event(x, true).NotAfter(ev[0]);
    }
  }

  /** At an end event the frame on top of the stack is the one that ends. */
  lemma TopIsClosed(ev: seq<Event>, open: seq<Frame>, api: seq<Frame>, t: Thread)
    requires StrictlyNested(api) && Pending(ev, open, api, t) && ev != [] && !ev[0].isStart
    ensures open != [] && open[|open| - 1] == ev[0].frame
  {
    RestOf(ev);
    var f := ev[0].frame;
    assert Event(f, true) !in ev;
    var i :| 0 <= i < |open| && open[i] == f;
    var top := open[|open| - 1];
    assert top != f ==> Event(top, false) in ev[1..] && ev[0].NotAfter(Event(top, false));
    assert Event(top, true).NotAfter(ev[0]);
    assert top != f ==> !StrictPair(f, top);
  }

  lemma PopPending(ev: seq<Event>, open: seq<Frame>, api: seq<Frame>, t: Thread)
    requires StrictlyNested(api) && Pending(ev, open, api, t) && ev != [] && !ev[0].isStart
    requires open != [] && open[|open| - 1] == ev[0].frame
    ensures Pending(ev[1..], open[..|open| - 1], api, t)
  {
    RestOf(ev);
    var left := open[..|open| - 1];
    assert open == left + [ev[0].frame];
    assert forall x :: x in left ==> x != ev[0].frame;
  }

  // ---- the stack at end events -----------------------------------------

  predicate TopIs(stack: Result<seq<Slot>>, id: int) {
    stack.Ok? && stack.value != [] && stack.value[|stack.value| - 1].id == id
  }

  /** At every end event the call on top of the replay's stack is the one that
      ends. */
  ghost predicate TopsMatch(ev: seq<Event>, stack: seq<Slot>) {
    forall k :: 0 <= k < |ev| && !ev[k].isStart ==> TopIs(StackAfter(ev[..k], stack), ev[k].frame.id)
  }

  lemma LaterStack(ev: seq<Event>, stack: seq<Slot>, next: seq<Slot>)
    requires ev != [] && StackAfter(ev[..1], stack) == Ok(next)
    ensures forall k :: 1 <= k <= |ev| ==> StackAfter(ev[..k], stack) == StackAfter(ev[1..][..k - 1], next)
  {
    assert ev[..1][1..] == [];
    forall k | 1 <= k <= |ev| ensures StackAfter(ev[..k], stack) == StackAfter(ev[1..][..k - 1], next) {
      assert ev[..k][1..] == ev[1..][..k - 1];
    }
  }

  lemma TopsMatchRest(ev: seq<Event>, stack: seq<Slot>, next: seq<Slot>)
    requires ev != [] && StackAfter(ev[..1], stack) == Ok(next)
    ensures TopsMatch(ev, stack) <==> (ev[0].isStart || TopIs(Ok(stack), ev[0].frame.id)) && TopsMatch(ev[1..], next)
  {
    LaterStack(ev, stack, next);
    hide StackAfter;
    assert ev[..0] == [] && StackAfter([], stack) == Ok(stack) by {
      NothingReplayed(stack);
    }
    assert forall k :: 0 <= k < |ev| - 1 ==> ev[1..][k] == ev[k + 1];
    if TopsMatch(ev, stack) {
      forall k | 0 <= k < |ev| - 1 && !ev[1..][k].isStart
        ensures TopIs(StackAfter(ev[1..][..k], next), ev[1..][k].frame.id)
      {
        assert TopIs(StackAfter(ev[..k + 1], stack), ev[k + 1].frame.id);
      }
    }
    if TopsMatch(ev[1..], next) {
      forall k | 1 <= k < |ev| && !ev[k].isStart ensures TopIs(StackAfter(ev[..k], stack), ev[k].frame.id) {
        assert !ev[1..][k - 1].isStart && TopIs(StackAfter(ev[1..][..k - 1], next), ev[1..][k - 1].frame.id);
      }
    }
  }

  lemma NothingReplayed(stack: seq<Slot>)
    ensures StackAfter([], stack) == Ok(stack)
  {
  }

  /** The slots of the replay's stack belong to the open calls. */
  ghost predicate Slots(stack: seq<Slot>, open: seq<Frame>) {
    |stack| == |open| && forall i :: 0 <= i < |open| ==> stack[i].id == open[i].id
  }

  lemma {:induction false} ClosesIffTopsMatch(api: seq<Frame>, ev: seq<Event>, stack: seq<Slot>, open: seq<Frame>)
    requires UniqueIds(api) && (forall e :: e in ev ==> e.frame in api) && (forall x :: x in open ==> x in api)
    requires Slots(stack, open)
    ensures Closes(ev, open) <==> TopsMatch(ev, stack)
    ensures Closes(ev, open) ==>
              StackAfter(ev, stack).Ok? && |StackAfter(ev, stack).value| == |open| + Net(ev)
    decreases |ev|
  {
    hide TopsMatch;
    if ev == [] {
      assert TopsMatch(ev, stack) by { EmptyMatches(stack); }
    } else {
      var f, n := ev[0].frame, |open| - 1;
      assert forall e :: e in ev[1..] ==> e in ev;
      assert f in api by { assert ev[0] in ev; }
      assert ev[..1] == [ev[0]] && [ev[0]][1..] == [];
      if ev[0].isStart {
        var next := stack + [Slot(f.id, f.start, 0)];
        TopsMatchRest(ev, stack, next);
        ClosesIffTopsMatch(api, ev[1..], next, open + [f]);
      } else if stack == [] {
        EmptyStackFails(ev);
      } else {
        var next := Popped(stack, TopCpu(stack, f.end));
        TopsMatchRest(ev, stack, next);
        ClosesIffTopsMatch(api, ev[1..], next, open[..n]);
        if open[n].id == f.id {
          SameId(api, open[n], f);
        }
      }
    }
  }

  lemma EmptyMatches(stack: seq<Slot>)
    ensures TopsMatch([], stack)
  {
  }

  lemma EmptyStackFails(ev: seq<Event>)
    requires ev != [] && !ev[0].isStart
    ensures !TopsMatch(ev, [])
  {
    assert ev[..0] == [] && !TopIs(StackAfter(ev[..0], []), ev[0].frame.id);
  }

  /** A trace is well bracketed if and only if in the replay of every thread the
      call on top of the stack at an end event is the one that ends; the stack
      then ends empty. */
  lemma BracketedIffTopsMatch(tr: Trace)
    requires tr.Valid()
    ensures Bracketed(tr) <==> forall t :: 0 <= t < |tr.streams| ==> TopsMatch(tr.streams[t], [])
    ensures Bracketed(tr) ==> forall t :: 0 <= t < |tr.streams| ==> StackAfter(tr.streams[t], []) == Ok([])
  {
    hide TopsMatch;
    forall t | 0 <= t < |tr.streams|
      ensures Closes(tr.streams[t], []) <==> TopsMatch(tr.streams[t], [])
      ensures Closes(tr.streams[t], []) ==> StackAfter(tr.streams[t], []) == Ok([])
    {
      StreamFacts(tr, t);
      ClosesIffTopsMatch(tr.api, tr.streams[t], [], []);
    }
  }

  /** A strictly nested table agrees however ORDER BY breaks ties. */
  lemma StrictTablesAgree(tr: Trace, gpu: GpuTimes)
    requires tr.Valid() && StrictlyNested(tr.api)
    ensures Bracketed(tr) && SameOutput(tr, gpu)
  {
    forall t | 0 <= t < |tr.streams| ensures Closes(tr.streams[t], []) {
      StreamFacts(tr, t);
      PendingCloses(tr.streams[t], [], tr.api, tr.threads[t]);
    }
    SameOutputIffBracketed(tr, gpu);
  }

  // ---- the recursion is exhausted --------------------------------------

  lemma {:induction false} DepthBound(ev: seq<Event>, acc: int)
    ensures forall o :: o in RunningDepth(ev, acc) ==> o.depth <= acc + |RunningDepth(ev, acc)|
  {
    if ev != [] {
      DepthBound(ev[1..], acc + ev[0].Delta());
    }
  }

  lemma {:induction false} DepthBounds(streams: seq<seq<Event>>)
    ensures forall o :: o in Opens(streams) ==> o.depth <= |Opens(streams)|
  {
    if streams != [] {
      DepthBound(streams[0], 0);
      DepthBounds(streams[1..]);
    }
  }

  lemma {:induction false} OpensAreStarts(ev: seq<Event>, acc: int)
    ensures SameFrames(RunningDepth(ev, acc), Starts(ev))
  {
    hide SameFrames;
    if ev == [] {
      SameNone();
    } else {
      var sum := acc + ev[0].Delta();
      OpensAreStarts(ev[1..], sum);
      if ev[0].isStart {
        SameOne(Open(ev[0].frame, sum));
        SameConcat([Open(ev[0].frame, sum)], [ev[0].frame], RunningDepth(ev[1..], sum), Starts(ev[1..]));
      } else {
        assert [] + RunningDepth(ev[1..], sum) == RunningDepth(ev[1..], sum);
        assert [] + Starts(ev[1..]) == Starts(ev[1..]);
      }
    }
  }

  ghost predicate SameFrames(opens: seq<Open>, frames: seq<Frame>) {
    |opens| == |frames| && forall i :: 0 <= i < |frames| ==> opens[i].frame == frames[i]
  }

  lemma SameOne(o: Open)
    ensures SameFrames([o], [o.frame])
  {
  }

  lemma SameNone()
    ensures SameFrames([], [])
  {
  }

  lemma SameConcat(a: seq<Open>, x: seq<Frame>, b: seq<Open>, y: seq<Frame>)
    requires SameFrames(a, x) && SameFrames(b, y)
    ensures SameFrames(a + b, x + y)
  {
  }

  lemma {:induction false} AllOpensAreStarts(streams: seq<seq<Event>>)
    ensures SameFrames(Opens(streams), AllStarts(streams))
  {
    hide SameFrames;
    if streams == [] {
      SameNone();
    } else {
      OpensAreStarts(streams[0], 0);
      AllOpensAreStarts(streams[1..]);
      SameConcat(RunningDepth(streams[0], 0), Starts(streams[0]), Opens(streams[1..]), AllStarts(streams[1..]));
    }
  }

  /** Every edge of the slim tree leads one level up, and not from the top. */
  ghost predicate EdgesRise(slim: seq<Slim>, depthOf: map<int, int>) {
    forall s :: s in slim ==>
      && s.child in depthOf && depthOf[s.child] > 1
      && (s.parent.Some? ==> s.parent.value in depthOf && depthOf[s.parent.value] == depthOf[s.child] - 1)
  }

  ghost predicate Within(queue: seq<Climber>, depthOf: map<int, int>, limit: int) {
    forall r :: r in queue && r.parent.Some? ==> r.parent.value in depthOf && depthOf[r.parent.value] <= limit
  }

  lemma {:induction false} SlimRises(opens: seq<Open>, children: seq<Open>, depthOf: map<int, int>)
    requires forall o :: o in opens || o in children ==> o.frame.id in depthOf && depthOf[o.frame.id] == o.depth
    ensures EdgesRise(SlimTree(opens, children), depthOf)
  {
    if children != [] {
      assert children[0] in children && forall o :: o in children[1..] ==> o in children;
      SlimRises(opens, children[1..], depthOf);
    }
  }

  lemma {:induction false} StepRises(slim: seq<Slim>, r: Climber, depthOf: map<int, int>, limit: int)
    requires EdgesRise(slim, depthOf) && Within([r], depthOf, limit)
    ensures Within(StepUp(slim, r), depthOf, limit - 1)
    ensures limit <= 1 ==> StepUp(slim, r) == []
  {
    if slim != [] {
      assert r in [r] && slim[0] in slim && forall s :: s in slim[1..] ==> s in slim;
      StepRises(slim[1..], r, depthOf, limit);
    }
  }

  lemma {:induction false} EnoughRounds(slim: seq<Slim>, queue: seq<Climber>, depthOf: map<int, int>, n: nat, m: nat)
    requires EdgesRise(slim, depthOf) && Within(queue, depthOf, n + 1) && n <= m
    ensures Recurse(slim, queue, n) == Recurse(slim, queue, m)
    decreases n, |queue|
  {
    if queue != [] {
      var ups := StepUp(slim, queue[0]);
      WithinParts(queue, depthOf, n + 1);
      StepRises(slim, queue[0], depthOf, n + 1);
      EnoughRounds(slim, queue[1..], depthOf, n, m);
      if n > 0 {
        EnoughRounds(slim, ups, depthOf, n - 1, m - 1);
      } else if m > 0 {
        assert Recurse(slim, ups, m - 1) == [];
      }
      assert Above(slim, queue[0], n) == Above(slim, queue[0], m);
    }
  }

  lemma WithinParts(queue: seq<Climber>, depthOf: map<int, int>, limit: int)
    requires queue != [] && Within(queue, depthOf, limit)
    ensures Within([queue[0]], depthOf, limit) && Within(queue[1..], depthOf, limit)
  {
    assert forall r :: r in [queue[0]] || r in queue[1..] ==> r in queue;
  }

  lemma {:induction false} BaseWithin(slim: seq<Slim>, opens: seq<Open>, gpu: GpuTimes, depthOf: map<int, int>,
                                      limit: int)
    requires forall o :: o in opens ==> o.frame.id in depthOf && depthOf[o.frame.id] <= limit
    ensures Within(BaseCase(slim, opens, gpu), depthOf, limit)
  {
    if opens != [] {
      assert opens[0] in opens && forall o :: o in opens[1..] ==> o in opens;
      BaseWithin(slim, opens[1..], gpu, depthOf, limit);
    }
  }

  /** |opens| rounds reach the fixed point of the recursive query on every
      trace, bracketed or not: more rounds add no row. */
  lemma RoundsSuffice(tr: Trace, gpu: GpuTimes, rounds: nat)
    requires tr.Valid() && rounds >= |Opens(tr.streams)|
    ensures var opens := Opens(tr.streams);
            var slim := SlimTree(opens, opens);
            Recurse(slim, BaseCase(slim, opens, gpu), rounds) == Recurse(slim, BaseCase(slim, opens, gpu), |opens|)
  {
    var opens := Opens(tr.streams);
    var slim := SlimTree(opens, opens);
    assert tr.streams[0..] == tr.streams;
    StartsOfTrace(tr, 0);
    AllOpensAreStarts(tr.streams);
    DepthBounds(tr.streams);
    var depthOf := DepthMap(opens);
    SlimRises(opens, opens, depthOf);
    BaseWithin(slim, opens, gpu, depthOf, |opens| + 1);
    EnoughRounds(slim, BaseCase(slim, opens, gpu), depthOf, |opens|, rounds);
  }

  ghost function DepthMap(opens: seq<Open>): (m: map<int, int>)
    requires forall i, j :: 0 <= i < j < |opens| ==> opens[i].frame.id != opens[j].frame.id
    ensures forall o :: o in opens ==> o.frame.id in m && m[o.frame.id] == o.depth
  {
    if opens == [] then map[]
    else
      assert forall o :: o in opens ==> o == opens[0] || o in opens[1..];
      DepthMap(opens[1..])[opens[0].frame.id := opens[0].depth]
  }
}
