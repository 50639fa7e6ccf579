/** The tree behind a well-bracketed event stream, used to prove that the two
    generators agree.  Nothing here is part of either generator. */
module CallForest {
  import opened Sequences
  import opened Wrappers
  import opened CallTrace
  import opened StackReplay
  import opened SqlPipeline

  datatype Forest = Leaf | Node(frame: Frame, kids: Forest, rest: Forest)

  function Flatten(f: Forest): seq<Event> {
    match f
    case Leaf => []
    case Node(a, kids, rest) => [Event(a, true)] + Flatten(kids) + [Event(a, false)] + Flatten(rest)
  }

  /** The frames in order of their start events. */
  function Frames(f: Forest): seq<Frame> {
    match f
    case Leaf => []
    case Node(a, kids, rest) => [a] + Frames(kids) + Frames(rest)
  }

  function Append(f: Forest, g: Forest): Forest {
    match f
    case Leaf => g
    case Node(a, kids, rest) => Node(a, kids, Append(rest, g))
  }

  function Duration(a: Frame): int {
    a.end - a.start
  }

  /** Total duration of the root frames. */
  function RootTime(f: Forest): int {
    match f
    case Leaf => 0
    case Node(a, _, rest) => Duration(a) + RootTime(rest)
  }

  /** The table both generators should produce, in order of the end events:
      each frame is charged its duration minus that of its direct children. */
  function Rows(f: Forest, path: seq<int>, gpu: GpuTimes): seq<Row> {
    match f
    case Leaf => []
    case Node(a, kids, rest) =>
      Rows(kids, path + [a.id], gpu)
      + Emit(path + [a.id], a.id, 0, Duration(a) - RootTime(kids), GpuOf(gpu, a.id))
      + Rows(rest, path, gpu)
  }

  // ---- brackets --------------------------------------------------------

  /** Every end event closes the frame that was opened last. */
  predicate Closes(ev: seq<Event>, stack: seq<Frame>) {
    if ev == [] then true
    else if ev[0].isStart then Closes(ev[1..], stack + [ev[0].frame])
    else stack != [] && stack[|stack| - 1] == ev[0].frame && Closes(ev[1..], stack[..|stack| - 1])
  }

  /** Read a forest off the front of a stream; what is left starts with an end. */
  function Parse(ev: seq<Event>): (r: (Forest, seq<Event>))
    ensures |r.1| <= |ev|
    ensures r.1 != [] ==> !r.1[0].isStart
    decreases |ev|
  {
    if ev == [] || !ev[0].isStart then (Leaf, ev)
    else
      var (kids, tail) := Parse(ev[1..]);
      if tail == [] then (Node(ev[0].frame, kids, Leaf), [])
      else
        var (rest, left) := Parse(tail[1..]);
        (Node(ev[0].frame, kids, rest), left)
  }

  /** The stream is the forest followed by what the open frames still need. */
  ghost predicate Splits(ev: seq<Event>, stack: seq<Frame>, f: Forest, left: seq<Event>) {
    ev == Flatten(f) + left && Closes(left, stack) && Net(left) + |stack| == 0
  }

  lemma {:induction false} ParseSplits(ev: seq<Event>, stack: seq<Frame>)
    requires Closes(ev, stack) && Net(ev) + |stack| == 0
    ensures Splits(ev, stack, Parse(ev).0, Parse(ev).1)
    decreases |ev|
  {
    if ev == [] || !ev[0].isStart {
      assert [] + ev == ev;
    } else {
      var a := ev[0].frame;
      var inner := Parse(ev[1..]);
      ParseSplits(ev[1..], stack + [a]);
      TailCloses(inner.1, stack, a);
      ParseSplits(inner.1[1..], stack);
      var outer := Parse(inner.1[1..]);
      NodeSplits(ev, stack, inner.0, inner.1, outer.0, outer.1);
    }
  }

  lemma TailCloses(tail: seq<Event>, stack: seq<Frame>, a: Frame)
    requires Closes(tail, stack + [a]) && Net(tail) + |stack| + 1 == 0 && (tail != [] ==> !tail[0].isStart)
    ensures tail != [] && tail[0] == Event(a, false) && Closes(tail[1..], stack) && Net(tail[1..]) + |stack| == 0
  {
    assert (stack + [a])[..|stack|] == stack;
  }

  lemma NodeSplits(ev: seq<Event>, stack: seq<Frame>, kids: Forest, tail: seq<Event>, rest: Forest, left: seq<Event>)
    requires ev != [] && ev[0].isStart && ev[1..] == Flatten(kids) + tail
    requires tail != [] && tail[0] == Event(ev[0].frame, false) && Splits(tail[1..], stack, rest, left)
    ensures Splits(ev, stack, Node(ev[0].frame, kids, rest), left)
  {
    assert ev == [ev[0]] + ev[1..] && tail == [tail[0]] + tail[1..];
    FlattenNode(ev[0].frame, kids, rest, left);
  }

  lemma FlattenNode(a: Frame, kids: Forest, rest: Forest, after: seq<Event>)
    ensures Flatten(Node(a, kids, rest)) + after
            == [Event(a, true)] + (Flatten(kids) + ([Event(a, false)] + (Flatten(rest) + after)))
  {
  }

  /** A balanced, well-bracketed stream is the flattening of a forest. */
  lemma BracketedIsForest(ev: seq<Event>)
    requires Closes(ev, []) && Net(ev) == 0
    ensures ev == Flatten(Parse(ev).0)
  {
    ParseSplits(ev, []);
    assert Parse(ev).1 == [];
  }

  lemma {:induction false} FlattenMembers(f: Forest, e: Event)
    ensures e in Flatten(f) <==> e.frame in Frames(f)
  {
    if f.Node? {
      FlattenMembers(f.kids, e);
      FlattenMembers(f.rest, e);
    }
  }

  // ---- well-formedness -------------------------------------------------

  /** Children lie within their parent; later siblings of one thread start
      after it has ended. */
  ghost predicate Nested(f: Forest) {
    match f
    case Leaf => true
    case Node(a, kids, rest) =>
      && a.start <= a.end
      && (forall x :: x in Frames(kids) ==> x.thread == a.thread && a.start <= x.start && x.end <= a.end)
      && (forall x :: x in Frames(rest) ==> x.thread != a.thread || a.end < x.start)
      && Nested(kids) && Nested(rest)
  }

  ghost predicate DistinctIds(f: Forest) {
    match f
    case Leaf => true
    case Node(a, kids, rest) =>
      && (forall x :: x in Frames(kids) || x in Frames(rest) ==> x.id != a.id)
      && (forall x, y :: x in Frames(kids) && y in Frames(rest) ==> x.id != y.id)
      && DistinctIds(kids) && DistinctIds(rest)
  }

  lemma OrderedConcat(x: seq<Event>, y: seq<Event>)
    requires Ordered(x + y)
    ensures Ordered(x) && Ordered(y)
    ensures forall d, e :: d in x && e in y ==> d.NotAfter(e)
  {
    var xy := x + y;
    assert forall i :: 0 <= i < |x| ==> x[i] == xy[i];
    assert forall i :: 0 <= i < |y| ==> y[i] == xy[|x| + i];
  }

  lemma {:induction false} OrderedIsNested(f: Forest, t: Thread)
    requires Ordered(Flatten(f))
    requires forall x :: x in Frames(f) ==> x.thread == t
    ensures Nested(f)
  {
    match f
    case Leaf =>
    case Node(a, kids, rest) =>
      var open, close := [Event(a, true)], [Event(a, false)];
      OrderedConcat(open + Flatten(kids) + close, Flatten(rest));
      OrderedConcat(open + Flatten(kids), close);
      OrderedConcat(open, Flatten(kids));
      assert Event(a, true) in open && Event(a, false) in close && Event(a, true).NotAfter(Event(a, false));
      forall x | x in Frames(kids) ensures a.start <= x.start && x.end <= a.end {
        FlattenMembers(kids, Event(x, true));
        FlattenMembers(kids, Event(x, false));
        assert Event(a, true).NotAfter(Event(x, true)) && Event(x, false).NotAfter(Event(a, false));
      }
      forall x | x in Frames(rest) ensures a.end < x.start {
        FlattenMembers(rest, Event(x, true));
        assert Event(a, false).NotAfter(Event(x, true));
      }
      OrderedIsNested(kids, t);
      OrderedIsNested(rest, t);
  }

  lemma UniqueConcat(a: seq<Frame>, b: seq<Frame>)
    requires UniqueIds(a + b)
    ensures UniqueIds(a) && UniqueIds(b)
    ensures forall x, y :: x in a && y in b ==> x.id != y.id
  {
    var ab := a + b;
    assert forall i :: 0 <= i < |a| ==> a[i] == ab[i];
    assert forall i :: 0 <= i < |b| ==> b[i] == ab[|a| + i];
  }

  lemma {:induction false} UniqueIsDistinct(f: Forest)
    requires UniqueIds(Frames(f))
    ensures DistinctIds(f)
  {
    match f
    case Leaf =>
    case Node(a, kids, rest) =>
      UniqueConcat([a] + Frames(kids), Frames(rest));
      UniqueConcat([a], Frames(kids));
      assert a in [a];
      UniqueIsDistinct(kids);
      UniqueIsDistinct(rest);
  }

  // ---- the stack replay on a forest ------------------------------------

  lemma ChargeTwice(stack: seq<Slot>, x: int, y: int)
    ensures Charge(Charge(stack, x), y) == Charge(stack, x + y)
    ensures SlotIds(Charge(stack, x)) == SlotIds(stack)
    ensures Charge(stack, 0) == stack
  {
  }

  lemma TopOfCharged(a: Frame, below: seq<Slot>, inner: int)
    ensures var full := Charge(below + [Slot(a.id, a.start, 0)], inner);
            && full != [] && SlotIds(full) == SlotIds(below) + [a.id]
            && TopCpu(full, a.end) == Duration(a) - inner
            && Popped(full, Duration(a) - inner) == Charge(below, Duration(a))
  {
    var full := Charge(below + [Slot(a.id, a.start, 0)], inner);
    assert full[..|below|] == Charge(below, inner);
    ChargeTwice(below, inner, Duration(a) - inner);
  }

  /** The end event of the frame on top of a charged stack. */
  lemma EndOfTop(a: Frame, below: seq<Slot>, inner: int, after: seq<Event>, gpu: GpuTimes)
    ensures var full := Charge(below + [Slot(a.id, a.start, 0)], inner);
            Replay([Event(a, false)] + after, full, gpu)
            == Prepend(Emit(SlotIds(below) + [a.id], a.id, 0, Duration(a) - inner, GpuOf(gpu, a.id)),
                       Replay(after, Charge(below, Duration(a)), gpu))
  {
    var ev := [Event(a, false)] + after;
    assert ev[1..] == after && ev[0] == Event(a, false);
    TopOfCharged(a, below, inner);
  }

  lemma StartOfFrame(a: Frame, stack: seq<Slot>, after: seq<Event>, gpu: GpuTimes)
    ensures Replay([Event(a, true)] + after, stack, gpu) == Replay(after, stack + [Slot(a.id, a.start, 0)], gpu)
  {
    assert ([Event(a, true)] + after)[1..] == after;
  }

  lemma RestOfForest(a: Frame, kids: Forest, rest: Forest, stack: seq<Slot>)
    ensures SlotIds(Charge(stack, Duration(a))) == SlotIds(stack)
    ensures Charge(Charge(stack, Duration(a)), RootTime(rest)) == Charge(stack, RootTime(Node(a, kids, rest)))
  {
    ChargeTwice(stack, Duration(a), RootTime(rest));
  }

  /** Replaying a forest emits its rows and charges every open slot with the
      total duration of its roots. */
  lemma {:induction false} ReplayForest(f: Forest, after: seq<Event>, stack: seq<Slot>, gpu: GpuTimes)
    ensures Replay(Flatten(f) + after, stack, gpu)
            == Prepend(Rows(f, SlotIds(stack), gpu), Replay(after, Charge(stack, RootTime(f)), gpu))
    decreases f
  {
    hide *;
    match f
    case Leaf => ReplayLeaf(after, stack, gpu);
    case Node(a, kids, rest) =>
      var ids := SlotIds(stack);
      var more := Flatten(rest) + after;
      var tail := [Event(a, false)] + more;
      var pushed := stack + [Slot(a.id, a.start, 0)];
      var end := Replay(after, Charge(stack, RootTime(f)), gpu);
      var own := Emit(ids + [a.id], a.id, 0, Duration(a) - RootTime(kids), GpuOf(gpu, a.id));
      FlattenNode(a, kids, rest, after);
      StartOfFrame(a, stack, Flatten(kids) + tail, gpu);
      ReplayForest(kids, tail, pushed, gpu);
      PushedIds(stack, Slot(a.id, a.start, 0));
      EndOfTop(a, stack, RootTime(kids), more, gpu);
      ReplayForest(rest, after, Charge(stack, Duration(a)), gpu);
      RestOfForest(a, kids, rest, stack);
      ThreeParts(Rows(kids, ids + [a.id], gpu), own, Rows(rest, ids, gpu), end);
      RowsOfNode(a, kids, rest, ids, gpu);
  }

  lemma ReplayLeaf(after: seq<Event>, stack: seq<Slot>, gpu: GpuTimes)
    ensures Replay(Flatten(Leaf) + after, stack, gpu)
            == Prepend(Rows(Leaf, SlotIds(stack), gpu), Replay(after, Charge(stack, RootTime(Leaf)), gpu))
  {
    assert Flatten(Leaf) + after == after;
    ChargeTwice(stack, 0, 0);
    PrependAgain([], [], Replay(after, stack, gpu));
  }

  lemma PushedIds(stack: seq<Slot>, top: Slot)
    ensures SlotIds(stack + [top]) == SlotIds(stack) + [top.id]
  {
  }

  lemma RowsOfNode(a: Frame, kids: Forest, rest: Forest, path: seq<int>, gpu: GpuTimes)
    ensures Rows(Node(a, kids, rest), path, gpu)
            == Rows(kids, path + [a.id], gpu)
               + Emit(path + [a.id], a.id, 0, Duration(a) - RootTime(kids), GpuOf(gpu, a.id))
               + Rows(rest, path, gpu)
  {
  }

  lemma ThreeParts(x: seq<Row>, y: seq<Row>, z: seq<Row>, r: Result<seq<Row>>)
    ensures Prepend(x, Prepend(y, Prepend(z, r))) == Prepend(x + y + z, r)
  {
    PrependAgain(y, z, r);
    PrependAgain(x, y + z, r);
    assert x + (y + z) == x + y + z;
  }

  // ---- the relational phases on a forest -------------------------------

  /** A frame with its depth and its parent's id. */
  datatype Entry = Entry(open: Open, parent: Option<int>)

  function Entries(f: Forest, d: int, p: Option<int>): seq<Entry> {
    match f
    case Leaf => []
    case Node(a, kids, rest) =>
      [Entry(Open(a, d), p)] + Entries(kids, d + 1, Some(a.id)) + Entries(rest, d, p)
  }

  function OpensOf(f: Forest, d: int): seq<Open> {
    match f
    case Leaf => []
    case Node(a, kids, rest) => [Open(a, d)] + OpensOf(kids, d + 1) + OpensOf(rest, d)
  }

  lemma {:induction false} EntryMembers(f: Forest, d: int, p: Option<int>, e: Entry)
    requires e in Entries(f, d, p)
    ensures e.open in OpensOf(f, d) && e.open.frame in Frames(f) && e.open.depth >= d
    ensures e.open.depth == d ==> e.parent == p
  {
    if e in Entries(f.kids, d + 1, Some(f.frame.id)) {
      EntryMembers(f.kids, d + 1, Some(f.frame.id), e);
    } else if e in Entries(f.rest, d, p) {
      EntryMembers(f.rest, d, p, e);
    }
  }

  lemma {:induction false} OpenHasEntry(f: Forest, d: int, p: Option<int>, o: Open) returns (e: Entry)
    requires o in OpensOf(f, d)
    ensures e in Entries(f, d, p) && e.open == o
  {
    if o == Open(f.frame, d) {
      e := Entry(o, p);
    } else if o in OpensOf(f.kids, d + 1) {
      e := OpenHasEntry(f.kids, d + 1, Some(f.frame.id), o);
    } else {
      e := OpenHasEntry(f.rest, d, p, o);
    }
  }

  /** Phase 1: the running sum is the nesting depth. */
  lemma {:induction false} DepthIsNesting(f: Forest, after: seq<Event>, acc: int)
    ensures RunningDepth(Flatten(f) + after, acc) == OpensOf(f, acc + 1) + RunningDepth(after, acc)
    decreases f
  {
    match f
    case Leaf =>
      assert Flatten(f) + after == after;
    case Node(a, kids, rest) =>
      var tail := [Event(a, false)] + (Flatten(rest) + after);
      assert Flatten(f) + after == [Event(a, true)] + (Flatten(kids) + tail);
      DepthIsNesting(kids, tail, acc + 1);
      assert tail[1..] == Flatten(rest) + after;
      DepthIsNesting(rest, after, acc);
  }

  lemma {:induction false} NestedEnds(f: Forest, x: Frame)
    requires Nested(f) && x in Frames(f)
    ensures x.start <= x.end
  {
    if x in Frames(f.kids) {
      NestedEnds(f.kids, x);
    } else if x in Frames(f.rest) {
      NestedEnds(f.rest, x);
    }
  }

  /** Nothing under the first root contains a later entry, or the reverse. */
  lemma LaterApart(f: Forest, d: int, p: Option<int>, x: Entry, y: Entry)
    requires Nested(f) && f.Node? && y in Entries(f.rest, d, p)
    requires x == Entry(Open(f.frame, d), p) || x in Entries(f.kids, d + 1, Some(f.frame.id))
    ensures !Contains(x.open, y.open) && !Contains(y.open, x.open)
  {
    EntryMembers(f.rest, d, p, y);
    NestedEnds(f.rest, y.open.frame);
    if x in Entries(f.kids, d + 1, Some(f.frame.id)) {
      EntryMembers(f.kids, d + 1, Some(f.frame.id), x);
      NestedEnds(f.kids, x.open.frame);
    }
  }

  lemma NestedParts(f: Forest)
    requires Nested(f) && f.Node?
    ensures Nested(f.kids) && Nested(f.rest)
  {
  }

  lemma EntryCases(f: Forest, d: int, p: Option<int>, e: Entry)
    requires e in Entries(f, d, p)
    ensures f.Node?
    ensures || e == Entry(Open(f.frame, d), p)
            || e in Entries(f.kids, d + 1, Some(f.frame.id))
            || e in Entries(f.rest, d, p)
  {
  }

  /** Phase 2, uniqueness: a container one level up is the parent. */
  lemma {:induction false} ContainerIsParent(f: Forest, d: int, p: Option<int>, q: Entry, c: Entry)
    requires Nested(f) && q in Entries(f, d, p) && c in Entries(f, d, p)
    requires Contains(q.open, c.open)
    ensures c.parent == Some(q.open.frame.id)
  {
    hide Entries, Nested;
    EntryCases(f, d, p, q);
    EntryCases(f, d, p, c);
    NestedParts(f);
    var inner, later := Entries(f.kids, d + 1, Some(f.frame.id)), Entries(f.rest, d, p);
    if q in later && c in later {
      ContainerIsParent(f.rest, d, p, q, c);
    } else if q in later {
      LaterApart(f, d, p, c, q);
    } else if c in later {
      LaterApart(f, d, p, q, c);
    } else if c in inner {
      EntryMembers(f.kids, d + 1, Some(f.frame.id), c);
      if q in inner {
        ContainerIsParent(f.kids, d + 1, Some(f.frame.id), q, c);
      }
    } else if q in inner {
      EntryMembers(f.kids, d + 1, Some(f.frame.id), q);
    }
  }

  /** Phase 2, existence: below the top level the parent is among the opens. */
  lemma {:induction false} ParentContains(f: Forest, d: int, p: Option<int>, c: Entry) returns (q: Entry)
    requires Nested(f) && c in Entries(f, d, p) && c.open.depth > d
    ensures q in Entries(f, d, p) && Contains(q.open, c.open)
  {
    if c in Entries(f.kids, d + 1, Some(f.frame.id)) {
      EntryMembers(f.kids, d + 1, Some(f.frame.id), c);
      if c.open.depth == d + 1 {
        q := Entry(Open(f.frame, d), p);
      } else {
        q := ParentContains(f.kids, d + 1, Some(f.frame.id), c);
      }
    } else {
      q := ParentContains(f.rest, d, p, c);
    }
  }

  /** Phase 2: the correlated subquery finds exactly the parent. */
  lemma ParentFound(f: Forest, c: Entry)
    requires Nested(f) && c in Entries(f, 1, None) && c.open.depth > 1
    ensures ParentId(OpensOf(f, 1), c.open) == c.parent
  {
    var q := ParentContains(f, 1, None, c);
    EntryMembers(f, 1, None, q);
    assert Tightest(OpensOf(f, 1), c.open).Some?;
    var o :| o in OpensOf(f, 1) && Contains(o, c.open) && o.frame == Tightest(OpensOf(f, 1), c.open).value;
    var e := OpenHasEntry(f, 1, None, o);
    ContainerIsParent(f, 1, None, e, c);
  }

  /** The slim tree a forest stands for. */
  function Edges(f: Forest, p: Option<int>): seq<Slim> {
    match f
    case Leaf => []
    case Node(a, kids, rest) =>
      (if p.Some? then [Slim(a.id, p, Duration(a))] else [])
      + Edges(kids, Some(a.id)) + Edges(rest, p)
  }

  lemma {:induction false} SlimTreeConcat(opens: seq<Open>, a: seq<Open>, b: seq<Open>)
    ensures SlimTree(opens, a + b) == SlimTree(opens, a) + SlimTree(opens, b)
  {
    if a == [] {
      assert a + b == b;
    } else {
      assert (a + b)[1..] == a[1..] + b;
      SlimTreeConcat(opens, a[1..], b);
      var c := a[0];
      var first := if c.depth > 1 then [Slim(c.frame.id, ParentId(opens, c), Duration(c.frame))] else [];
      Regroup(first, SlimTree(opens, a[1..]), SlimTree(opens, b));
    }
  }

  lemma {:induction false} SlimTreeIsEdges(opens: seq<Open>, f: Forest, d: int, p: Option<int>)
    requires d >= 1 && (d == 1 <==> p.None?)
    requires forall e :: e in Entries(f, d, p) && e.open.depth > 1 ==> ParentId(opens, e.open) == e.parent
    ensures SlimTree(opens, OpensOf(f, d)) == Edges(f, p)
    decreases f
  {
    match f
    case Leaf =>
    case Node(a, kids, rest) =>
      SlimTreeIsEdges(opens, kids, d + 1, Some(a.id));
      SlimTreeIsEdges(opens, rest, d, p);
      assert Entry(Open(a, d), p) in Entries(f, d, p);
      SlimTreeOfNode(opens, a, kids, rest, d);
      SlimTreeOfOne(opens, a, d, p);
  }

  lemma SlimTreeOfOne(opens: seq<Open>, a: Frame, d: int, p: Option<int>)
    requires d > 1 ==> ParentId(opens, Open(a, d)) == p
    ensures SlimTree(opens, [Open(a, d)]) == if d > 1 then [Slim(a.id, p, Duration(a))] else []
  {
  }

  lemma SlimTreeOfNode(opens: seq<Open>, a: Frame, kids: Forest, rest: Forest, d: int)
    ensures SlimTree(opens, OpensOf(Node(a, kids, rest), d))
            == SlimTree(opens, [Open(a, d)]) + SlimTree(opens, OpensOf(kids, d + 1)) + SlimTree(opens, OpensOf(rest, d))
  {
    SlimTreeConcat(opens, [Open(a, d)] + OpensOf(kids, d + 1), OpensOf(rest, d));
    SlimTreeConcat(opens, [Open(a, d)], OpensOf(kids, d + 1));
  }

  /** Phases 1 and 2 together: the slim tree is the forest's. */
  lemma SlimTreeOfForest(f: Forest)
    requires Nested(f)
    ensures SlimTree(OpensOf(f, 1), OpensOf(f, 1)) == Edges(f, None)
  {
    forall c | c in Entries(f, 1, None) && c.open.depth > 1 ensures ParentId(OpensOf(f, 1), c.open) == c.parent {
      ParentFound(f, c);
    }
    SlimTreeIsEdges(OpensOf(f, 1), f, 1, None);
  }
}
