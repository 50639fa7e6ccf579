/** The per-GPU queue depth and idle counters of the JSON trace
    (rocpd_python/rocpd/tracing.py:276-307).  A link is one row of the join of
    calls and operations; it adds +1 at the call's start and -1 at the
    operation's end.  Rows come ordered by time only: issued and finished are the
    ordering keys, nanoseconds divided by 1000.0, which may tie where the
    nanoseconds differ. */
module QueueDepth {
  import opened Sequences
  import opened Sorting

  datatype Link = Link(issued: int, finished: int)

  datatype Event = Event(link: nat, issue: bool)

  function Ts(links: seq<Link>, e: Event): int
    requires e.link < |links|
  {
    if e.issue then links[e.link].issued else links[e.link].finished
  }

  function Delta(e: Event): int {
    if e.issue then 1 else -1
  }

  /** Counter rows written to the trace. */
  datatype Counter = Idle(ts: int, idle: int) | Depth(ts: int, depth: int)

  function DepthAfter(ev: seq<Event>): int {
    if ev == [] then 0 else DepthAfter(ev[..|ev| - 1]) + Delta(ev[|ev| - 1])
  }

  /** Both events of every link, once each, ordered by time, ties in any order. */
  ghost predicate IsTimeline(links: seq<Link>, ev: seq<Event>) {
    && (forall e :: e in ev <==> e.link < |links|)
    && (forall i, j :: 0 <= i < j < |ev| ==> ev[i] != ev[j])
    && (forall i, j :: 0 <= i < j < |ev| && ev[i].link < |links| && ev[j].link < |links|
                       ==> Ts(links, ev[i]) <= Ts(links, ev[j]))
  }

  /** Links that have been issued, or finished, by the first n events. */
  ghost function Seen(ev: seq<Event>, n: nat, issue: bool): set<nat>
    requires n <= |ev|
  {
    set i: nat | i < n && ev[i].issue == issue :: ev[i].link
  }

  lemma SeenGrows(ev: seq<Event>, n: nat)
    requires n < |ev| && forall i, j :: 0 <= i < j < |ev| ==> ev[i] != ev[j]
    ensures Seen(ev, n + 1, ev[n].issue) == Seen(ev, n, ev[n].issue) + {ev[n].link}
    ensures Seen(ev, n + 1, !ev[n].issue) == Seen(ev, n, !ev[n].issue)
    ensures ev[n].link !in Seen(ev, n, ev[n].issue)
  {
    assert forall i :: 0 <= i < n ==> ev[i] != ev[n];
  }

  lemma {:induction false} DepthCounts(ev: seq<Event>, n: nat)
    requires n <= |ev| && forall i, j :: 0 <= i < j < |ev| ==> ev[i] != ev[j]
    ensures DepthAfter(ev[..n]) == |Seen(ev, n, true)| - |Seen(ev, n, false)|
  {
    if n == 0 {
      assert Seen(ev, 0, true) == {} && Seen(ev, 0, false) == {};
    } else {
      DepthCounts(ev, n - 1);
      assert ev[..n][..n - 1] == ev[..n - 1];
      SeenGrows(ev, n - 1);
    }
  }

  /** What has finished had been issued. */
  lemma FinishedWereIssued(links: seq<Link>, ev: seq<Event>, n: nat)
    requires IsTimeline(links, ev) && n <= |ev|
    requires forall k :: 0 <= k < |links| ==> links[k].issued < links[k].finished
    ensures Seen(ev, n, false) <= Seen(ev, n, true)
  {
    forall k | k in Seen(ev, n, false) ensures k in Seen(ev, n, true) {
      var j: nat :| j < n && ev[j].issue == false && ev[j].link == k;
      assert ev[j] in ev;
      assert Event(k, true) in ev;
      var i: nat :| i < |ev| && ev[i] == Event(k, true);
    }
  }

  lemma SubsetSize(a: set<nat>, b: set<nat>)
    requires a <= b
    ensures |b| == |a| + |b - a|
  {
    assert b == a + (b - a);
  }

  /** When each operation ends after its call starts, the depth is the
      number of calls issued and not yet finished, and zero exactly when there
      are none. */
  lemma DepthIsOutstanding(links: seq<Link>, ev: seq<Event>, n: nat)
    requires IsTimeline(links, ev) && n <= |ev|
    requires forall k :: 0 <= k < |links| ==> links[k].issued < links[k].finished
    ensures DepthAfter(ev[..n]) == |Seen(ev, n, true) - Seen(ev, n, false)|
    ensures DepthAfter(ev[..n]) == 0 <==> Seen(ev, n, true) == Seen(ev, n, false)
  {
    DepthCounts(ev, n);
    FinishedWereIssued(links, ev, n);
    SubsetSize(Seen(ev, n, false), Seen(ev, n, true));
  }

  lemma AllSeen(links: seq<Link>, ev: seq<Event>, issue: bool)
    requires forall e :: e in ev <==> e.link < |links|
    ensures forall k: nat :: k in Seen(ev, |ev|, issue) <==> k < |links|
  {
    forall k: nat ensures k in Seen(ev, |ev|, issue) <==> k < |links| {
      assert Event(k, issue) in ev <==> k < |links|;
      if k in Seen(ev, |ev|, issue) {
        var i: nat :| i < |ev| && ev[i].issue == issue && ev[i].link == k;
        assert ev[i] in ev;
      }
    }
  }

  /** At the end of any timeline the queue is empty. */
  lemma DepthEndsAtZero(links: seq<Link>, ev: seq<Event>)
    requires IsTimeline(links, ev)
    ensures DepthAfter(ev) == 0
  {
    DepthCounts(ev, |ev|);
    assert ev[..|ev|] == ev;
    AllSeen(links, ev, true);
    AllSeen(links, ev, false);
    assert Seen(ev, |ev|, true) == Seen(ev, |ev|, false);
  }

  predicate NeverNegative(ev: seq<Event>) {
    ev == [] || (NeverNegative(ev[..|ev| - 1]) && DepthAfter(ev) >= 0)
  }

  lemma {:induction false} NeverNegativeAt(ev: seq<Event>)
    ensures NeverNegative(ev) <==> forall n :: 0 <= n <= |ev| ==> DepthAfter(ev[..n]) >= 0
  {
    assert ev[..|ev|] == ev;
    if ev != [] {
      var before := ev[..|ev| - 1];
      NeverNegativeAt(before);
      assert forall n :: 0 <= n < |ev| ==> before[..n] == ev[..n];
      assert NeverNegative(ev) ==> forall n :: 0 <= n < |ev| ==> DepthAfter(ev[..n]) >= 0;
    }
  }

  predicate IssuedAt(links: seq<Link>, k: nat, t: int) {
    k < |links| && links[k].issued < t
  }

  predicate FinishedAt(links: seq<Link>, k: nat, t: int) {
    k < |links| && links[k].finished <= t
  }

  ghost function IssuedBefore(links: seq<Link>, t: int): set<nat> {
    set k: nat | k < |links| && IssuedAt(links, k, t)
  }

  ghost function FinishedBy(links: seq<Link>, t: int): set<nat> {
    set k: nat | k < |links| && FinishedAt(links, k, t)
  }

  /** At no time have more operations ended than calls started strictly before. */
  ghost predicate CallsAhead(links: seq<Link>) {
    forall t: int :: |FinishedBy(links, t)| <= |IssuedBefore(links, t)|
  }

  lemma ForwardLinksAreAhead(links: seq<Link>)
    requires forall k :: 0 <= k < |links| ==> links[k].issued < links[k].finished
    ensures CallsAhead(links)
  {
    forall t: int ensures |FinishedBy(links, t)| <= |IssuedBefore(links, t)| {
      SubsetSize(FinishedBy(links, t), IssuedBefore(links, t));
    }
  }

  lemma AheadAt(links: seq<Link>, ev: seq<Event>, n: nat)
    requires IsTimeline(links, ev) && n <= |ev| && CallsAhead(links)
    ensures DepthAfter(ev[..n]) >= 0
  {
    if n > 0 {
      assert ev[n - 1] in ev;
      var t := Ts(links, ev[n - 1]);
      forall k | k in Seen(ev, n, false) ensures k in FinishedBy(links, t) {
        var i: nat :| i < n && ev[i].issue == false && ev[i].link == k;
        assert ev[i] in ev;
      }
      forall k | k in IssuedBefore(links, t) ensures k in Seen(ev, n, true) {
        assert Event(k, true) in ev;
        var i: nat :| i < |ev| && ev[i] == Event(k, true);
      }
      SubsetSize(Seen(ev, n, false), FinishedBy(links, t));
      SubsetSize(IssuedBefore(links, t), Seen(ev, n, true));
      DepthCounts(ev, n);
    }
  }

  /** When each operation ends after its call starts, no order of tied times
      takes the depth below zero. */
  lemma ForwardLinksNeverNegative(links: seq<Link>, ev: seq<Event>)
    requires IsTimeline(links, ev)
    requires forall k :: 0 <= k < |links| ==> links[k].issued < links[k].finished
    ensures NeverNegative(ev)
  {
    ForwardLinksAreAhead(links);
    NeverNegativeAt(ev);
    forall n | 0 <= n <= |ev| ensures DepthAfter(ev[..n]) >= 0 {
      AheadAt(links, ev, n);
    }
  }

  /** Among equal times, ends come first: the worst order of ties. */
  ghost predicate EndsFirst(links: seq<Link>, ev: seq<Event>) {
    forall i, j :: 0 <= i < j < |ev| && ev[i].link < |links| && ev[j].link < |links| ==>
      Ts(links, ev[i]) == Ts(links, ev[j]) ==> ev[i].issue ==> ev[j].issue
  }

  predicate UpTo(links: seq<Link>, e: Event, t: int) {
    e.link < |links| && if e.issue then Ts(links, e) < t else Ts(links, e) <= t
  }

  lemma {:induction false} CutAt(links: seq<Link>, ev: seq<Event>, t: int, m: nat) returns (n: nat)
    requires IsTimeline(links, ev) && EndsFirst(links, ev) && m <= |ev|
    ensures n <= m
    ensures forall i :: 0 <= i < m ==> (i < n <==> UpTo(links, ev[i], t))
  {
    n := 0;
    if m > 0 {
      n := CutAt(links, ev, t, m - 1);
      assert forall i :: 0 <= i < m ==> ev[i] in ev;
      if UpTo(links, ev[m - 1], t) {
        n := m;
      }
    }
  }

  lemma SeenInCut(links: seq<Link>, ev: seq<Event>, n: nat, t: int, k: nat, issue: bool)
    requires IsTimeline(links, ev) && n <= |ev|
    requires forall i :: 0 <= i < |ev| ==> (i < n <==> UpTo(links, ev[i], t))
    ensures k in Seen(ev, n, issue) <==> UpTo(links, Event(k, issue), t)
  {
    if UpTo(links, Event(k, issue), t) {
      assert Event(k, issue) in ev;
      var i: nat :| i < |ev| && ev[i] == Event(k, issue);
    }
  }

  /** Some prefix of the worst order has seen just what CallsAhead compares. */
  lemma WorstPrefix(links: seq<Link>, ev: seq<Event>, t: int) returns (n: nat)
    requires IsTimeline(links, ev) && EndsFirst(links, ev)
    ensures n <= |ev| && DepthAfter(ev[..n]) == |IssuedBefore(links, t)| - |FinishedBy(links, t)|
  {
    n := CutAt(links, ev, t, |ev|);
    DepthCounts(ev, n);
    forall k: nat, issue: bool
      ensures k in Seen(ev, n, issue) <==> UpTo(links, Event(k, issue), t)
    {
      SeenInCut(links, ev, n, t, k, issue);
    }
    hide Seen, DepthAfter, IsTimeline, EndsFirst;
    assert forall k :: k in IssuedBefore(links, t) <==> UpTo(links, Event(k, true), t);
    assert forall k :: k in FinishedBy(links, t) <==> UpTo(links, Event(k, false), t);
    assert Seen(ev, n, true) == IssuedBefore(links, t);
    assert Seen(ev, n, false) == FinishedBy(links, t);
  }

  /** The depth stays non-negative under every order of tied times if calls keep
      ahead of operations, and under the worst order only then. */
  lemma NonNegativeIffAhead(links: seq<Link>, ev: seq<Event>)
    requires IsTimeline(links, ev)
    ensures CallsAhead(links) ==> NeverNegative(ev)
    ensures EndsFirst(links, ev) ==> (NeverNegative(ev) <==> CallsAhead(links))
  {
    NeverNegativeAt(ev);
    if CallsAhead(links) {
      forall n | 0 <= n <= |ev| ensures DepthAfter(ev[..n]) >= 0 {
        AheadAt(links, ev, n);
      }
    }
    if EndsFirst(links, ev) && NeverNegative(ev) {
      forall t: int ensures |FinishedBy(links, t)| <= |IssuedBefore(links, t)| {
        var n := WorstPrefix(links, ev, t);
      }
    }
  }

  // ---- the worst order exists ------------------------------------------

  function Pair(k: nat): seq<Event> {
    [Event(k, true), Event(k, false)]
  }

  function AllEvents(n: nat): seq<Event> {
    if n == 0 then [] else AllEvents(n - 1) + Pair(n - 1)
  }

  lemma CountUnion(a: seq<Event>, b: seq<Event>, e: Event)
    ensures multiset(a + b)[e] == multiset(a)[e] + multiset(b)[e]
  {
  }

  lemma PairCount(k: nat, e: Event)
    ensures multiset(Pair(k))[e] == if e.link == k then 1 else 0
  {
    CountUnion([Event(k, true)], [Event(k, false)], e);
    assert Pair(k) == [Event(k, true)] + [Event(k, false)];
  }

  lemma {:induction false} AllEventsCount(n: nat, e: Event)
    ensures multiset(AllEvents(n))[e] == if e.link < n then 1 else 0
  {
    hide Pair;
    if n > 0 {
      AllEventsCount(n - 1, e);
      PairCount(n - 1, e);
      CountUnion(AllEvents(n - 1), Pair(n - 1), e);
    }
  }

  /** By time, and ends before starts. */
  function EndsFirstKey(links: seq<Link>): Event -> int {
    (e: Event) => if e.link < |links| then 2 * Ts(links, e) + (if e.issue then 1 else 0) else 0
  }

  function WorstOrder(links: seq<Link>): seq<Event> {
    Sort(AllEvents(|links|), EndsFirstKey(links))
  }

  lemma WorstOrderIsTimeline(links: seq<Link>)
    ensures IsTimeline(links, WorstOrder(links)) && EndsFirst(links, WorstOrder(links))
  {
    hide Sort, AllEvents, EndsFirst, SortedBy, Ts, EndsFirstKey;
    var ev := WorstOrder(links);
    WorstOrderCounts(links);
    SortSorts(AllEvents(|links|), EndsFirstKey(links));
    KeyOrders(links, ev);
    EachOnce(ev, |links|);
  }

  lemma WorstOrderCounts(links: seq<Link>)
    ensures forall e: Event :: multiset(WorstOrder(links))[e] == if e.link < |links| then 1 else 0
  {
    hide Sort, AllEvents, SortedBy, EndsFirstKey;
    SortSorts(AllEvents(|links|), EndsFirstKey(links));
    forall e: Event ensures multiset(WorstOrder(links))[e] == if e.link < |links| then 1 else 0 {
      AllEventsCount(|links|, e);
    }
  }

  lemma EachOnce(ev: seq<Event>, n: nat)
    requires forall e: Event :: multiset(ev)[e] == if e.link < n then 1 else 0
    ensures forall e: Event :: e in ev <==> e.link < n
    ensures forall i, j :: 0 <= i < j < |ev| ==> ev[i] != ev[j]
  {
    forall e: Event ensures e in ev <==> e.link < n {
      assert e in ev <==> e in multiset(ev);
    }
    forall i, j | 0 <= i < j < |ev| ensures ev[i] != ev[j] {
      if ev[i] == ev[j] {
        RepeatCounts(ev, i, j);
      }
    }
  }

  lemma KeyOrders(links: seq<Link>, ev: seq<Event>)
    requires SortedBy(ev, EndsFirstKey(links))
    ensures EndsFirst(links, ev)
    ensures forall i, j :: 0 <= i < j < |ev| && ev[i].link < |links| && ev[j].link < |links|
                           ==> Ts(links, ev[i]) <= Ts(links, ev[j])
  {
    forall i, j | 0 <= i < j < |ev| && ev[i].link < |links| && ev[j].link < |links|
      ensures Ts(links, ev[i]) <= Ts(links, ev[j])
      ensures Ts(links, ev[i]) == Ts(links, ev[j]) ==> ev[i].issue ==> ev[j].issue
    {
      assert EndsFirstKey(links)(ev[i]) <= EndsFirstKey(links)(ev[j]);
    }
  }

  /** The depth stays non-negative under every order of tied times if and only if
      at no time more operations have ended than calls started strictly before. */
  lemma NonNegativeForAllTiesIffAhead(links: seq<Link>)
    ensures (forall ev :: IsTimeline(links, ev) ==> NeverNegative(ev)) <==> CallsAhead(links)
  {
    hide IsTimeline, NeverNegative, CallsAhead, EndsFirst;
    WorstOrderIsTimeline(links);
    NonNegativeIffAhead(links, WorstOrder(links));
    forall ev | IsTimeline(links, ev) && CallsAhead(links) ensures NeverNegative(ev) {
      NonNegativeIffAhead(links, ev);
    }
  }

  // ---- the rows --------------------------------------------------------

  /** The idle value on display after the given rows. */
  function IdleShown(rows: seq<Counter>): int {
    if rows == [] then 1
    else if rows[|rows| - 1].Idle? then rows[|rows| - 1].idle
    else IdleShown(rows[..|rows| - 1])
  }

  /** At every depth row, idle is shown as 1 exactly when the depth is 0. */
  predicate IdleMatchesDepth(rows: seq<Counter>) {
    rows == [] ||
    var n := |rows| - 1;
    IdleMatchesDepth(rows[..n])
    && (rows[n].Depth? ==> (IdleShown(rows[..n]) == 1 <==> rows[n].depth == 0))
  }

  function DepthRows(rows: seq<Counter>): seq<Counter> {
    if rows == [] then []
    else DepthRows(rows[..|rows| - 1]) + if rows[|rows| - 1].Depth? then [rows[|rows| - 1]] else []
  }

  function IdleRowsOf(rows: seq<Counter>): seq<Counter> {
    if rows == [] then []
    else IdleRowsOf(rows[..|rows| - 1]) + if rows[|rows| - 1].Idle? then [rows[|rows| - 1]] else []
  }

  /** The idle value on display at each depth row. */
  function IdleColumn(rows: seq<Counter>): seq<int> {
    if rows == [] then []
    else IdleColumn(rows[..|rows| - 1]) + if rows[|rows| - 1].Depth? then [IdleShown(rows[..|rows| - 1])] else []
  }

  lemma OneMoreRow(rows: seq<Counter>, r: Counter)
    ensures IdleShown(rows + [r]) == if r.Idle? then r.idle else IdleShown(rows)
    ensures IdleMatchesDepth(rows + [r]) <==>
              IdleMatchesDepth(rows) && (r.Depth? ==> (IdleShown(rows) == 1 <==> r.depth == 0))
    ensures DepthRows(rows + [r]) == DepthRows(rows) + if r.Depth? then [r] else []
    ensures IdleRowsOf(rows + [r]) == IdleRowsOf(rows) + if r.Idle? then [r] else []
    ensures IdleColumn(rows + [r]) == IdleColumn(rows) + if r.Depth? then [IdleShown(rows)] else []
  {
    assert (rows + [r])[..|rows|] == rows;
  }

  /** The depth row each event should give. */
  function RunningDepths(links: seq<Link>, ev: seq<Event>): seq<Counter>
    requires forall e :: e in ev ==> e.link < |links|
  {
    if ev == [] then []
    else
      var n := |ev| - 1;
      RunningDepths(links, ev[..n]) + [Depth(Ts(links, ev[n]), DepthAfter(ev))]
  }

  /** Idle goes down with the first start since it went up, and up with an end at
      depth 1. */
  function IdleAfter(ev: seq<Event>): int {
    if ev == [] then 1
    else
      var before, delta := ev[..|ev| - 1], Delta(ev[|ev| - 1]);
      if DepthAfter(before) == 1 && delta < 0 then 1 else if delta > 0 then 0 else IdleAfter(before)
  }

  function RunningIdle(ev: seq<Event>): seq<int> {
    if ev == [] then [] else RunningIdle(ev[..|ev| - 1]) + [IdleAfter(ev)]
  }

  /** One idle row, at the time of its event, for every change of the value. */
  function IdleChanges(links: seq<Link>, ev: seq<Event>): seq<Counter>
    requires forall e :: e in ev ==> e.link < |links|
  {
    if ev == [] then []
    else
      var n := |ev| - 1;
      IdleChanges(links, ev[..n])
      + if IdleAfter(ev) != IdleAfter(ev[..n]) then [Idle(Ts(links, ev[n]), IdleAfter(ev))] else []
  }

  lemma NoEvents(links: seq<Link>)
    ensures DepthAfter([]) == 0 && IdleAfter([]) == 1 && RunningIdle([]) == [] && RunningDepths(links, []) == []
    ensures IdleChanges(links, []) == [] && NeverNegative([])
    ensures IdleShown([]) == 1 && IdleColumn([]) == [] && DepthRows([]) == [] && IdleRowsOf([]) == []
    ensures IdleMatchesDepth([])
  {
  }

  lemma OneMoreEvent(links: seq<Link>, ev: seq<Event>, n: nat)
    requires n < |ev| && forall e :: e in ev ==> e.link < |links|
    ensures var before, after, delta := ev[..n], ev[..n + 1], Delta(ev[n]);
            && (delta == 1 || delta == -1)
            && DepthAfter(after) == DepthAfter(before) + delta
            && IdleAfter(after) == (if DepthAfter(before) == 1 && delta < 0 then 1
                                    else if delta > 0 then 0 else IdleAfter(before))
            && RunningIdle(after) == RunningIdle(before) + [IdleAfter(after)]
            && RunningDepths(links, after)
               == RunningDepths(links, before) + [Depth(Ts(links, ev[n]), DepthAfter(after))]
            && IdleChanges(links, after)
               == IdleChanges(links, before)
                  + (if IdleAfter(after) != IdleAfter(before) then [Idle(Ts(links, ev[n]), IdleAfter(after))] else [])
            && (NeverNegative(after) <==> NeverNegative(before) && DepthAfter(after) >= 0)
  {
    assert ev[..n + 1][..n] == ev[..n] && ev[..n + 1][n] == ev[n];
  }

  /** The loop: one depth row an event, with the idle value above on display, and
      that agrees with every one of them if and only if the depth never goes
      negative; one idle row a change. */
  method WriteCounters(links: seq<Link>, ev: seq<Event>, tEnd: int) returns (rows: seq<Counter>)
    requires forall e :: e in ev ==> e.link < |links|
    ensures DepthRows(rows) ==
            RunningDepths(links, ev) + if tEnd > 0 then [Depth(tEnd, DepthAfter(ev))] else []
    ensures IdleColumn(rows) == RunningIdle(ev) + if tEnd > 0 then [IdleAfter(ev)] else []
    ensures IdleRowsOf(rows) == IdleChanges(links, ev) + if tEnd > 0 then [Idle(tEnd, IdleAfter(ev))] else []
    ensures IdleMatchesDepth(rows) <==> NeverNegative(ev)
  {
    hide *;
    var depth, idle := 0, 1;
    rows := [];
    NoEvents(links);
    assert ev[..0] == [];
    for n := 0 to |ev|
      invariant depth == DepthAfter(ev[..n]) && idle == IdleShown(rows) == IdleAfter(ev[..n])
      invariant IdleColumn(rows) == RunningIdle(ev[..n])
      invariant IdleRowsOf(rows) == IdleChanges(links, ev[..n])
      invariant (idle == 0 || idle == 1) && (idle == 1 ==> depth <= 0)
      invariant DepthRows(rows) == RunningDepths(links, ev[..n])
      invariant IdleMatchesDepth(rows) <==> NeverNegative(ev[..n])
      invariant NeverNegative(ev[..n]) ==> depth >= 0 && (idle == 1 <==> depth == 0)
    {
      OneMoreEvent(links, ev, n);
      var ts, delta := Ts(links, ev[n]), Delta(ev[n]);
      rows, idle := IdleRows(rows, ts, depth, idle, delta);
      depth := depth + delta;
      OneMoreRow(rows, Depth(ts, depth));
      rows := rows + [Depth(ts, depth)];
    }
    assert ev[..|ev|] == ev;
    if tEnd > 0 {
      OneMoreRow(rows, Idle(tEnd, idle));
      OneMoreRow(rows + [Idle(tEnd, idle)], Depth(tEnd, depth));
      rows := rows + [Idle(tEnd, idle)] + [Depth(tEnd, depth)];
    }
  }

  /** The two tests that write an idle row before a depth row. */
  method IdleRows(rows: seq<Counter>, ts: int, depth: int, idle: int, delta: int)
    returns (more: seq<Counter>, newIdle: int)
    requires idle == IdleShown(rows) && (idle == 0 || idle == 1) && (idle == 1 ==> depth <= 0)
    ensures newIdle == IdleShown(more)
    ensures newIdle == if depth == 1 && delta < 0 then 1 else if idle == 1 && delta > 0 then 0 else idle
    ensures DepthRows(more) == DepthRows(rows) && IdleColumn(more) == IdleColumn(rows)
    ensures IdleRowsOf(more) == IdleRowsOf(rows) + if newIdle != idle then [Idle(ts, newIdle)] else []
    ensures IdleMatchesDepth(more) <==> IdleMatchesDepth(rows)
  {
    more, newIdle := rows, idle;
    if newIdle == 1 && delta > 0 {
      newIdle := 0;
      OneMoreRow(more, Idle(ts, newIdle));
      more := more + [Idle(ts, newIdle)];
    }
    if depth == 1 && delta < 0 {
      newIdle := 1;
      OneMoreRow(more, Idle(ts, newIdle));
      more := more + [Idle(ts, newIdle)];
    }
  }

  /** An operation that ends when its call starts, with its end first: the depth
      is -1 while idle shows 1, then 0 while idle shows 0. */
  lemma TiedEndGoesNegative()
    ensures var links, ev := [Link(5, 5)], [Event(0, false), Event(0, true)];
            && IsTimeline(links, ev) && !NeverNegative(ev) && !CallsAhead(links)
            && RunningDepths(links, ev) == [Depth(5, -1), Depth(5, 0)] && RunningIdle(ev) == [1, 0]
  {
    var links, ev := [Link(5, 5)], [Event(0, false), Event(0, true)];
    TiedTimeline(links, ev);
    var one := [Event(0, false)];
    assert one[..0] == [] && ev[..1] == one;
    assert DepthAfter([]) == 0 && IdleAfter([]) == 1;
    assert DepthAfter(one) == -1 && IdleAfter(one) == 1;
    assert DepthAfter(ev) == 0 && IdleAfter(ev) == 0;
    assert !NeverNegative(one) && !NeverNegative(ev);
    assert RunningIdle([]) == [] && RunningIdle(one) == [] + [1] && RunningIdle(ev) == RunningIdle(one) + [0];
    assert RunningDepths(links, []) == [] && RunningDepths(links, one) == [] + [Depth(5, -1)];
    assert RunningDepths(links, ev) == RunningDepths(links, one) + [Depth(5, 0)];
    hide IsTimeline, NeverNegative, CallsAhead;
    NonNegativeIffAhead(links, ev);
  }

  lemma TiedTimeline(links: seq<Link>, ev: seq<Event>)
    requires links == [Link(5, 5)] && ev == [Event(0, false), Event(0, true)]
    ensures IsTimeline(links, ev)
  {
    forall e: Event ensures e in ev <==> e.link < |links| {
      assert e.link < 1 ==> e == Event(0, false) || e == Event(0, true);
    }
  }
}
