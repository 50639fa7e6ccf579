/** SQL leaves the order of tied events open.  The two generators agree however
    ties fall exactly when the table's calls nest strictly: a pair that does not
    has an order of ties in which the two calls cross. */
module CallStackTies {
  import opened Sorting
  import opened CallTrace
  import opened CallForest
  import opened CallStackTheorems
  import opened CallStackAgreement

  // ---- streams that cannot be bracketed --------------------------------

  /** x is open below y and ends before it. */
  lemma {:induction false} EndsBelow(ev: seq<Event>, stack: seq<Frame>, x: Frame, y: Frame, j: nat, p: nat)
    requires x != y && j < |stack| && stack[j] == y && forall k :: j <= k < |stack| ==> stack[k] != x
    requires Event(x, true) !in ev && p < |ev| && ev[p] == Event(x, false)
    requires forall q :: 0 <= q < p ==> ev[q] != Event(y, false)
    ensures !Closes(ev, stack)
    decreases p
  {
    var top := stack[|stack| - 1];
    if p > 0 {
      assert ev[1..][p - 1] == ev[p];
      assert forall q :: 0 <= q < p - 1 ==> ev[1..][q] == ev[q + 1];
      assert ev[0] in ev && ev[0] != Event(x, true) && ev[0] != Event(y, false);
      if ev[0].isStart {
        EndsBelow(ev[1..], stack + [ev[0].frame], x, y, j, p - 1);
      } else if top == ev[0].frame {
        EndsBelow(ev[1..], stack[..|stack| - 1], x, y, j, p - 1);
      }
    }
  }

  /** x is open, then y opens, then x ends before y. */
  lemma {:induction false} OpensAbove(ev: seq<Event>, stack: seq<Frame>, x: Frame, y: Frame, b: nat, p: nat)
    requires x != y && x in stack && NoRepeat(ev) && Event(x, true) !in ev
    requires b < p < |ev| && ev[b] == Event(y, true) && ev[p] == Event(x, false)
    requires forall q :: 0 <= q < p ==> ev[q] != Event(y, false)
    ensures !Closes(ev, stack)
    decreases b
  {
    assert forall q :: 0 <= q < |ev| - 1 ==> ev[1..][q] == ev[q + 1];
    if b == 0 {
      EndsBelow(ev[1..], stack + [y], x, y, |stack|, p - 1);
    } else if ev[0].isStart {
      OpensAbove(ev[1..], stack + [ev[0].frame], x, y, b - 1, p - 1);
    } else if stack[|stack| - 1] == ev[0].frame {
      assert ev[0] != ev[p];
      assert x in stack[..|stack| - 1];
      OpensAbove(ev[1..], stack[..|stack| - 1], x, y, b - 1, p - 1);
    }
  }

  /** Two calls that cross. */
  lemma {:induction false} CrossingShows(ev: seq<Event>, stack: seq<Frame>, x: Frame, y: Frame, a: nat, b: nat, p: nat)
    requires x != y && NoRepeat(ev)
    requires a < b < p < |ev| && ev[a] == Event(x, true) && ev[b] == Event(y, true) && ev[p] == Event(x, false)
    requires forall q :: 0 <= q < p ==> ev[q] != Event(y, false)
    ensures !Closes(ev, stack)
    decreases a
  {
    assert forall q :: 0 <= q < |ev| - 1 ==> ev[1..][q] == ev[q + 1];
    if a == 0 {
      OpensAbove(ev[1..], stack + [x], x, y, b - 1, p - 1);
    } else if ev[0].isStart {
      CrossingShows(ev[1..], stack + [ev[0].frame], x, y, a - 1, b - 1, p - 1);
    } else if stack != [] {
      CrossingShows(ev[1..], stack[..|stack| - 1], x, y, a - 1, b - 1, p - 1);
    }
  }

  /** A call that ends before it starts. */
  lemma {:induction false} EndFirstShows(ev: seq<Event>, stack: seq<Frame>, x: Frame, p: nat, a: nat)
    requires x !in stack && NoRepeat(ev)
    requires p < a < |ev| && ev[p] == Event(x, false) && ev[a] == Event(x, true)
    ensures !Closes(ev, stack)
    decreases p
  {
    assert forall q :: 0 <= q < |ev| - 1 ==> ev[1..][q] == ev[q + 1];
    assert ev[0] != ev[a];
    if p > 0 {
      if ev[0].isStart {
        EndFirstShows(ev[1..], stack + [ev[0].frame], x, p - 1, a - 1);
      } else if stack != [] {
        EndFirstShows(ev[1..], stack[..|stack| - 1], x, p - 1, a - 1);
      }
    }
  }

  // ---- an order of ties ------------------------------------------------

  /** ORDER BY ts, evt DESC, and among ties the events of `x` first. */
  function Favouring(x: Frame): Event -> int {
    (e: Event) => 4 * e.Ts() + (if e.isStart then 0 else 2) + if e.frame == x then 0 else 1
  }

  function Threads(api: seq<Frame>): seq<Thread> {
    if api == [] then []
    else if api[0].thread in Threads(api[1..]) then Threads(api[1..])
    else [api[0].thread] + Threads(api[1..])
  }

  lemma {:induction false} ThreadsAreAll(api: seq<Frame>)
    ensures forall f :: f in api ==> f.thread in Threads(api)
    ensures forall t, u :: 0 <= t < u < |Threads(api)| ==> Threads(api)[t] != Threads(api)[u]
  {
    if api != [] {
      ThreadsAreAll(api[1..]);
      assert api == [api[0]] + api[1..];
    }
  }

  function Stream(api: seq<Frame>, t: Thread, x: Frame): seq<Event> {
    Sort(EventsOf(ThreadFrames(api, t)), Favouring(x))
  }

  lemma StreamIsOrdered(api: seq<Frame>, t: Thread, x: Frame)
    ensures Ordered(Stream(api, t, x)) && SortedBy(Stream(api, t, x), Favouring(x))
    ensures multiset(Stream(api, t, x)) == multiset(EventsOf(ThreadFrames(api, t)))
  {
    SortSorts(EventsOf(ThreadFrames(api, t)), Favouring(x));
    hide Sort, EventsOf, ThreadFrames;
  }

  function Favoured(api: seq<Frame>, x: Frame): Trace {
    var threads := Threads(api);
    Trace(api, threads, seq(|threads|, t requires 0 <= t < |threads| => Stream(api, threads[t], x)))
  }

  lemma FavouredIsValid(api: seq<Frame>, x: Frame)
    requires UniqueIds(api)
    ensures Favoured(api, x).Valid()
  {
    hide Stream, Threads;
    ThreadsAreAll(api);
    forall t | 0 <= t < |Threads(api)|
      ensures Ordered(Stream(api, Threads(api)[t], x))
      ensures multiset(Stream(api, Threads(api)[t], x)) == multiset(EventsOf(ThreadFrames(api, Threads(api)[t])))
    {
      StreamIsOrdered(api, Threads(api)[t], x);
    }
  }

  lemma PositionOf(ev: seq<Event>, e: Event) returns (i: nat)
    requires e in ev
    ensures i < |ev| && ev[i] == e
  {
    i :| 0 <= i < |ev| && ev[i] == e;
  }

  /** Two calls that do not nest strictly, the favoured one first: they cross. */
  lemma CrossingPair(ev: seq<Event>, x: Frame, y: Frame)
    requires NoRepeat(ev) && SortedBy(ev, Favouring(x)) && x != y
    requires Event(x, true) in ev && Event(x, false) in ev && Event(y, true) in ev && Event(y, false) in ev
    requires x.start <= y.start <= x.end <= y.end
    ensures !Closes(ev, [])
  {
    var a := PositionOf(ev, Event(x, true));
    var b := PositionOf(ev, Event(y, true));
    var p := PositionOf(ev, Event(x, false));
    var q := PositionOf(ev, Event(y, false));
    SmallerIsEarlier(ev, Favouring(x), a, b);
    SmallerIsEarlier(ev, Favouring(x), b, p);
    SmallerIsEarlier(ev, Favouring(x), p, q);
    CrossingShows(ev, [], x, y, a, b, p);
  }

  lemma ReversedCall(ev: seq<Event>, x: Frame)
    requires NoRepeat(ev) && Ordered(ev) && Event(x, true) in ev && Event(x, false) in ev && x.end < x.start
    ensures !Closes(ev, [])
  {
    var a := PositionOf(ev, Event(x, true));
    var p := PositionOf(ev, Event(x, false));
    assert forall i :: 0 <= i < p ==> ev[i].NotAfter(ev[p]);
    EndFirstShows(ev, [], x, p, a);
  }

  /** A thread whose stream favours x, where x is reversed or crosses y. */
  lemma FavouredBreaks(api: seq<Frame>, x: Frame, y: Frame)
    requires UniqueIds(api) && x in api && y in api && x.thread == y.thread
    requires x.end < x.start || (x != y && x.start <= y.start <= x.end <= y.end)
    ensures !Bracketed(Favoured(api, x))
  {
    hide Stream, Threads;
    var tr := Favoured(api, x);
    FavouredIsValid(api, x);
    var t :| 0 <= t < |tr.threads| && tr.threads[t] == x.thread;
    StreamFacts(tr, t);
    StreamIsOrdered(api, x.thread, x);
    assert tr.streams[t] == Stream(api, x.thread, x);
    if x.end < x.start {
      ReversedCall(tr.streams[t], x);
    } else {
      CrossingPair(tr.streams[t], x, y);
    }
    assert !Closes(tr.streams[t], []);
  }

  lemma LooseTable(api: seq<Frame>) returns (x: Frame, y: Frame)
    requires !StrictlyNested(api)
    ensures x in api && y in api && x.thread == y.thread
    ensures x.end < x.start || (x != y && x.start <= y.start <= x.end <= y.end)
  {
    if reversed :| reversed in api && reversed.end < reversed.start {
      x, y := reversed, reversed;
    } else {
      x, y :| x in api && y in api && x != y && x.thread == y.thread && !StrictPair(x, y);
      if y.start < x.start || (y.start == x.start && y.end < x.end) {
        x, y := y, x;
      }
    }
  }

  /** Agreement whatever the order of ties, in terms of the table alone. */
  lemma AgreeForAllTiesIffStrict(api: seq<Frame>, gpu: GpuTimes)
    requires UniqueIds(api)
    ensures (forall tr: Trace :: tr.Valid() && tr.api == api ==> SameOutput(tr, gpu)) <==> StrictlyNested(api)
  {
    hide SameOutput, Bracketed, StrictlyNested;
    if StrictlyNested(api) {
      forall tr: Trace | tr.Valid() && tr.api == api ensures SameOutput(tr, gpu) {
        StrictTablesAgree(tr, gpu);
      }
    } else {
      var x, y := LooseTable(api);
      FavouredIsValid(api, x);
      FavouredBreaks(api, x, y);
      SameOutputIffBracketed(Favoured(api, x), gpu);
      assert Favoured(api, x).api == api;
    }
  }
}
