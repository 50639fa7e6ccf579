/** roctx ranges per thread across tracing pauses
    (rpd_tracer/RoctxDataSource.cpp:101-117, :137-257) and the reference count
    that starts and stops tracing (rpd_tracer/Logger.cpp:87-107).  Threads are
    numbered; the clock is an input. */
module RangeStacks {

  datatype Kind = Marker | Ranged | PreExisting

  datatype Row = Row(thread: nat, start: int, end: int, kind: Kind)

  /** stacks[t] holds the start times of thread t's open ranges, innermost
      first.  now is the latest time read; the counters are history. */
  datatype State = State(activeCount: int, active: bool, resumeTime: int, stacks: seq<seq<int>>, rows: seq<Row>,
                         now: int, pushes: nat, orphans: nat, marks: nat)

  datatype Call = RpdStart | RpdStop | Push(thread: nat) | Pop(thread: nat) | Mark(thread: nat)

  // ---- the calls -------------------------------------------------------

  function Emit(s: State, thread: nat, start: int, end: int, kind: Kind): State {
    s.(rows := s.rows + [Row(thread, start, end, kind)])
  }

  /** Close the innermost open range of a thread. */
  function PopOpen(s: State, t: nat, now: int): State
    requires t < |s.stacks| && s.stacks[t] != []
  {
    Emit(s.(stacks := s.stacks[t := s.stacks[t][1..]]), t, s.stacks[t][0], now, Ranged)
  }

  function OpenCount(stacks: seq<seq<int>>): nat {
    if stacks == [] then 0 else |stacks[0]| + OpenCount(stacks[1..])
  }

  /** drainStacks() from thread t on. */
  function Drain(s: State, t: nat, now: int): State
    requires t <= |s.stacks|
    decreases |s.stacks| - t, if t < |s.stacks| then |s.stacks[t]| else 0
  {
    if t == |s.stacks| then s
    else if s.stacks[t] == [] then Drain(s, t + 1, now)
    else Drain(PopOpen(s, t, now), t, now)
  }

  function Started(s: State, now: int): State {
    s.(resumeTime := now, active := true)
  }

  function Stopped(s: State, now: int): State {
    Drain(s.(active := false), 0, now)
  }

  predicate Valid(s: State, c: Call) {
    (c.Push? || c.Pop? || c.Mark?) ==> c.thread < |s.stacks|
  }

  function Do(s: State, c: Call, now: int): State
    requires Valid(s, c)
  {
    match c
    case RpdStart =>
      var t := if s.activeCount == 0 then Started(s, now) else s;
      t.(activeCount := s.activeCount + 1, now := now)
    case RpdStop =>
      var t := if s.activeCount == 1 then Stopped(s, now) else s;
      t.(activeCount := s.activeCount - 1, now := now)
    case Push(t) =>
      if !s.active then s.(now := now)
      else s.(stacks := s.stacks[t := [now] + s.stacks[t]], now := now, pushes := s.pushes + 1)
    case Pop(t) =>
      if !s.active then s.(now := now)
      else if s.stacks[t] == [] then
        Emit(s, t, s.resumeTime, now, PreExisting).(now := now, orphans := s.orphans + 1)
      else PopOpen(s, t, now).(now := now)
    case Mark(t) =>
      if !s.active then s.(now := now)
      else Emit(s, t, now, now, Marker).(now := now, marks := s.marks + 1)
  }

  function Initial(threads: nat, now: int): State {
    State(0, false, 0, seq(threads, _ => []), [], now, 0, 0, 0)
  }

  /** A run: calls with the times they read, which never go back. */
  datatype Timed = Timed(call: Call, now: int)

  ghost predicate IsRun(states: seq<State>, calls: seq<Timed>, threads: nat, t0: int) {
    && |states| == |calls| + 1
    && states[0] == Initial(threads, t0)
    && forall i :: 0 <= i < |calls| ==>
         && Valid(states[i], calls[i].call) && states[i].now <= calls[i].now
         && states[i + 1] == Do(states[i], calls[i].call, calls[i].now)
  }

  // ---- the invariant ---------------------------------------------------

  /** Two ranges are apart or one contains the other. */
  predicate Laminar(a: Row, b: Row) {
    || a.end <= b.start || b.end <= a.start
    || (a.start <= b.start && b.end <= a.end)
    || (b.start <= a.start && a.end <= b.end)
  }

  ghost predicate AllLaminar(rows: seq<Row>) {
    forall i, j :: 0 <= i < j < |rows| && rows[i].thread == rows[j].thread ==> Laminar(rows[i], rows[j])
  }

  /** A row is apart from, or inside, anything that starts at `start` and is
      still open. */
  predicate Clear(r: Row, start: int) {
    r.end <= start || start <= r.start
  }

  ghost predicate RowsOk(s: State, now: int) {
    && AllLaminar(s.rows)
    && (forall r :: r in s.rows ==> r.start <= r.end <= now && Clear(r, s.resumeTime))
    && (forall r, i :: r in s.rows && r.thread < |s.stacks| && 0 <= i < |s.stacks[r.thread]|
                       ==> Clear(r, s.stacks[r.thread][i]))
  }

  ghost predicate StackOk(stack: seq<int>, resumeTime: int, now: int) {
    && (forall i, j :: 0 <= i < j < |stack| ==> stack[i] >= stack[j])
    && (forall i :: 0 <= i < |stack| ==> resumeTime <= stack[i] <= now)
  }

  ghost predicate StacksOk(s: State, now: int) {
    forall t :: 0 <= t < |s.stacks| ==> StackOk(s.stacks[t], s.resumeTime, now)
  }

  ghost predicate Inv(s: State) {
    && RowsOk(s, s.now) && StacksOk(s, s.now)
    && (s.active <==> s.activeCount >= 1)
    && (s.active ==> s.resumeTime <= s.now)
    && (!s.active ==> forall t :: 0 <= t < |s.stacks| ==> s.stacks[t] == [])
    && |s.rows| + OpenCount(s.stacks) == s.pushes + s.orphans + s.marks
  }

  lemma EmitKeepsRows(s: State, t: nat, start: int, end: int, kind: Kind, now: int)
    requires RowsOk(s, now) && start <= end <= now && t < |s.stacks|
    requires end == now || (forall r :: r in s.rows && r.thread == t ==> r.end <= start)
    requires forall r :: r in s.rows && r.thread == t ==> Clear(r, start)
    requires s.resumeTime <= start
    requires forall i :: 0 <= i < |s.stacks[t]| ==> s.stacks[t][i] <= start
    ensures RowsOk(Emit(s, t, start, end, kind), now)
  {
    var e := Emit(s, t, start, end, kind);
    var row := Row(t, start, end, kind);
    forall i, j | 0 <= i < j < |e.rows| && e.rows[i].thread == e.rows[j].thread ensures Laminar(e.rows[i], e.rows[j]) {
      if j == |s.rows| {
        assert s.rows[i] in s.rows && Clear(s.rows[i], start);
      }
    }
    forall r | r in e.rows ensures r.start <= r.end <= now && Clear(r, s.resumeTime) {
      assert r in s.rows || r == row;
    }
    forall r, i | r in e.rows && r.thread < |e.stacks| && 0 <= i < |e.stacks[r.thread]|
      ensures Clear(r, e.stacks[r.thread][i])
    {
      assert r in s.rows || r == row;
    }
  }

  lemma PopKeeps(s: State, t: nat, now: int)
    requires RowsOk(s, now) && StacksOk(s, now) && t < |s.stacks| && s.stacks[t] != []
    ensures RowsOk(PopOpen(s, t, now), now) && StacksOk(PopOpen(s, t, now), now)
    ensures |PopOpen(s, t, now).rows| + OpenCount(PopOpen(s, t, now).stacks) == |s.rows| + OpenCount(s.stacks)
  {
    var u := s.(stacks := s.stacks[t := s.stacks[t][1..]]);
    assert StackOk(s.stacks[t], s.resumeTime, now);
    assert StackOk(u.stacks[t], s.resumeTime, now);
    forall r, i | r in u.rows && r.thread < |u.stacks| && 0 <= i < |u.stacks[r.thread]|
      ensures Clear(r, u.stacks[r.thread][i])
    {
      assert Clear(r, s.stacks[r.thread][if r.thread == t then i + 1 else i]);
    }
    forall r | r in u.rows && r.thread == t ensures Clear(r, s.stacks[t][0]) {
      assert Clear(r, s.stacks[r.thread][0]);
    }
    EmitKeepsRows(u, t, s.stacks[t][0], now, Ranged, now);
    OpenAfter(s.stacks, t, s.stacks[t][1..]);
  }

  lemma {:induction false} OpenAfter(stacks: seq<seq<int>>, t: nat, stack: seq<int>)
    requires t < |stacks|
    ensures OpenCount(stacks[t := stack]) == OpenCount(stacks) - |stacks[t]| + |stack|
  {
    if t == 0 {
      assert stacks[t := stack][1..] == stacks[1..];
    } else {
      OpenAfter(stacks[1..], t - 1, stack);
      assert stacks[t := stack][1..] == stacks[1..][t - 1 := stack];
    }
  }

  lemma {:induction false} DrainKeeps(s: State, t: nat, now: int)
    requires RowsOk(s, now) && StacksOk(s, now) && t <= |s.stacks|
    requires forall u :: 0 <= u < t ==> s.stacks[u] == []
    ensures var d := Drain(s, t, now);
            && RowsOk(d, now) && |d.stacks| == |s.stacks|
            && (forall u :: 0 <= u < |d.stacks| ==> d.stacks[u] == [])
            && |d.rows| + OpenCount(d.stacks) == |s.rows| + OpenCount(s.stacks)
            && d == s.(stacks := d.stacks, rows := d.rows)
    decreases |s.stacks| - t, if t < |s.stacks| then |s.stacks[t]| else 0
  {
    hide RowsOk, StacksOk;
    if t < |s.stacks| {
      if s.stacks[t] == [] {
        DrainKeeps(s, t + 1, now);
      } else {
        PopKeeps(s, t, now);
        DrainKeeps(PopOpen(s, t, now), t, now);
      }
    }
  }

  lemma LaterIsFine(s: State, now: int)
    requires RowsOk(s, s.now) && StacksOk(s, s.now) && s.now <= now
    ensures RowsOk(s, now) && StacksOk(s, now)
  {
  }

  lemma StartKeeps(s: State, now: int)
    requires Inv(s) && s.now <= now && !s.active
    ensures RowsOk(Started(s, now), now) && StacksOk(Started(s, now), now)
  {
  }

  lemma PushKeeps(s: State, t: nat, now: int)
    requires Inv(s) && s.now <= now && t < |s.stacks| && s.active
    ensures Inv(Do(s, Push(t), now))
  {
    var u := Do(s, Push(t), now);
    LaterIsFine(s, now);
    forall r, i | r in u.rows && r.thread < |u.stacks| && 0 <= i < |u.stacks[r.thread]|
      ensures Clear(r, u.stacks[r.thread][i])
    {
      if r.thread == t && i > 0 {
        assert Clear(r, s.stacks[r.thread][i - 1]);
      } else if r.thread != t {
        assert Clear(r, s.stacks[r.thread][i]);
      }
    }
    assert StackOk(s.stacks[t], s.resumeTime, now);
    assert StackOk(u.stacks[t], s.resumeTime, now);
    OpenAfter(s.stacks, t, u.stacks[t]);
  }

  lemma PopCallKeeps(s: State, t: nat, now: int)
    requires Inv(s) && s.now <= now && t < |s.stacks| && s.active
    ensures Inv(Do(s, Pop(t), now))
  {
    LaterIsFine(s, now);
    if s.stacks[t] == [] {
      EmitKeepsRows(s, t, s.resumeTime, now, PreExisting, now);
    } else {
      PopKeeps(s, t, now);
    }
  }

  lemma MarkKeeps(s: State, t: nat, now: int)
    requires Inv(s) && s.now <= now && t < |s.stacks| && s.active
    ensures Inv(Do(s, Mark(t), now))
  {
    LaterIsFine(s, now);
    assert StackOk(s.stacks[t], s.resumeTime, s.now);
    EmitKeepsRows(s, t, now, now, Marker, now);
  }

  lemma StopKeeps(s: State, now: int)
    requires Inv(s) && s.now <= now
    ensures Inv(Do(s, RpdStop, now))
  {
    LaterIsFine(s, now);
    if s.activeCount == 1 {
      DrainKeeps(s.(active := false), 0, now);
    }
  }

  lemma CallKeeps(s: State, c: Call, now: int)
    requires Inv(s) && Valid(s, c) && s.now <= now
    ensures Inv(Do(s, c, now)) && |Do(s, c, now).stacks| == |s.stacks|
  {
    LaterIsFine(s, now);
    match c
    case RpdStart => if s.activeCount == 0 { StartKeeps(s, now); }
    case RpdStop => StopKeeps(s, now); StacksCounted(s, now);
    case Push(t) => if s.active { PushKeeps(s, t, now); }
    case Pop(t) => if s.active { PopCallKeeps(s, t, now); }
    case Mark(t) => if s.active { MarkKeeps(s, t, now); }
  }

  lemma StacksCounted(s: State, now: int)
    requires Inv(s) && s.now <= now
    ensures |Do(s, RpdStop, now).stacks| == |s.stacks|
  {
    LaterIsFine(s, now);
    DrainKeeps(s.(active := false), 0, now);
  }

  lemma {:induction false} NothingOpen(stacks: seq<seq<int>>)
    requires forall t :: 0 <= t < |stacks| ==> stacks[t] == []
    ensures OpenCount(stacks) == 0
  {
    if stacks != [] {
      NothingOpen(stacks[1..]);
    }
  }

  lemma {:induction false} RunKeeps(states: seq<State>, calls: seq<Timed>, threads: nat, t0: int, i: nat)
    requires IsRun(states, calls, threads, t0) && i < |states|
    ensures Inv(states[i])
  {
    if i == 0 {
      NothingOpen(states[0].stacks);
    } else {
      RunKeeps(states, calls, threads, t0, i - 1);
      CallKeeps(states[i - 1], calls[i - 1].call, calls[i - 1].now);
    }
  }

  // ---- what viewers rely on --------------------------------------------

  /** Over any run, rows of one thread are nested or apart, also those drained
      at a stop and those that stand for ranges opened during a pause. */
  lemma RangesStayNested(states: seq<State>, calls: seq<Timed>, threads: nat, t0: int, i: nat)
    requires IsRun(states, calls, threads, t0) && i < |states|
    ensures AllLaminar(states[i].rows)
  {
    RunKeeps(states, calls, threads, t0, i);
  }

  /** One row for every recorded push that has been closed, every mark, and
      every recorded pop without a push. */
  lemma RowsAreCounted(states: seq<State>, calls: seq<Timed>, threads: nat, t0: int, i: nat)
    requires IsRun(states, calls, threads, t0) && i < |states|
    ensures |states[i].rows| + OpenCount(states[i].stacks) == states[i].pushes + states[i].orphans + states[i].marks
    ensures !states[i].active ==> |states[i].rows| == states[i].pushes + states[i].orphans + states[i].marks
  {
    RunKeeps(states, calls, threads, t0, i);
    if !states[i].active {
      NothingOpen(states[i].stacks);
    }
  }

  /** The k outermost open ranges of a thread. */
  function Outer(stack: seq<int>, k: nat): seq<int>
    requires k <= |stack|
  {
    stack[|stack| - k..]
  }

  lemma CallKeepsOuter(s: State, c: Call, now: int, t: nat, k: nat)
    requires Valid(s, c) && t < |s.stacks| && k <= |s.stacks[t]|
    requires |Do(s, c, now).stacks| == |s.stacks| && k <= |Do(s, c, now).stacks[t]|
    requires c != RpdStop || s.activeCount != 1
    ensures Outer(Do(s, c, now).stacks[t], k) == Outer(s.stacks[t], k)
  {
  }

  lemma {:induction false} OuterStays(states: seq<State>, calls: seq<Timed>, threads: nat, t0: int, t: nat, i: nat,
                                      j: nat)
    requires IsRun(states, calls, threads, t0) && i < j < |states| && t < |states[i].stacks|
    requires calls[i].call == Push(t) && states[i].active
    requires forall k :: i < k <= j ==> t < |states[k].stacks| && |states[k].stacks[t]| > |states[i].stacks[t]|
    ensures Outer(states[j].stacks[t], |states[i].stacks[t]| + 1) == [calls[i].now] + states[i].stacks[t]
    decreases j
  {
    hide Inv;
    var h := |states[i].stacks[t]|;
    assert states[j] == Do(states[j - 1], calls[j - 1].call, calls[j - 1].now);
    if j > i + 1 {
      OuterStays(states, calls, threads, t0, t, i, j - 1);
      RunKeeps(states, calls, threads, t0, j - 1);
      StopEmpties(states[j - 1], calls[j - 1].now);
      CallKeeps(states[j - 1], calls[j - 1].call, calls[j - 1].now);
      CallKeepsOuter(states[j - 1], calls[j - 1].call, calls[j - 1].now, t, h + 1);
    }
  }

  /** The last stop leaves no range open. */
  lemma StopEmpties(s: State, now: int)
    requires Inv(s) && s.now <= now
    ensures s.activeCount == 1 ==>
              forall t :: 0 <= t < |Do(s, RpdStop, now).stacks| ==> Do(s, RpdStop, now).stacks[t] == []
  {
    LaterIsFine(s, now);
    DrainKeeps(s.(active := false), 0, now);
  }

  lemma {:induction false} DrainCloses(s: State, t: nat, now: int, u: nat, k: nat)
    requires t <= u < |s.stacks| && k < |s.stacks[u]|
    ensures s.rows <= Drain(s, t, now).rows
    ensures Row(u, s.stacks[u][k], now, Ranged) in Drain(s, t, now).rows
    decreases |s.stacks| - t, |s.stacks[t]|
  {
    if s.stacks[t] == [] {
      DrainCloses(s, t + 1, now, u, k);
    } else {
      var p := PopOpen(s, t, now);
      if t < u || k > 0 {
        DrainCloses(p, t, now, u, if t < u then k else k - 1);
      } else {
        DrainGrows(p, t, now);
        assert Row(u, s.stacks[u][k], now, Ranged) in p.rows;
      }
    }
  }

  lemma {:induction false} DrainGrows(s: State, t: nat, now: int)
    requires t <= |s.stacks|
    ensures s.rows <= Drain(s, t, now).rows
    decreases |s.stacks| - t, if t < |s.stacks| then |s.stacks[t]| else 0
  {
    if t < |s.stacks| {
      if s.stacks[t] == [] {
        DrainGrows(s, t + 1, now);
      } else {
        DrainGrows(PopOpen(s, t, now), t, now);
      }
    }
  }

  /** A recorded push stays open until the pop that takes the thread's stack
      back to its height, or the stop that ends tracing, and then has a row
      from its own time to that of the pop or stop. */
  lemma PushHasItsRow(states: seq<State>, calls: seq<Timed>, threads: nat, t0: int, t: nat, i: nat, j: nat)
    requires IsRun(states, calls, threads, t0) && i < j < |calls| && t < |states[i].stacks|
    requires calls[i].call == Push(t) && states[i].active
    requires forall k :: i < k <= j ==> t < |states[k].stacks| && |states[k].stacks[t]| > |states[i].stacks[t]|
    requires t < |states[j + 1].stacks| && |states[j + 1].stacks[t]| <= |states[i].stacks[t]|
    ensures calls[j].call == Pop(t) || calls[j].call == RpdStop
    ensures var row := Row(t, calls[i].now, calls[j].now, Ranged);
            && row in states[j + 1].rows
            && (calls[j].call == Pop(t) ==> states[j + 1].rows == states[j].rows + [row]
                                            && states[j + 1].stacks[t] == states[i].stacks[t])
  {
    hide Inv, Do;
    OuterStays(states, calls, threads, t0, t, i, j);
    assert states[j + 1] == Do(states[j], calls[j].call, calls[j].now);
    hide IsRun, Valid;
    LeavingRow(states[j], calls[j].call, calls[j].now, t, calls[i].now, states[i].stacks[t]);
  }

  /** The call that closes the range on top of `below`. */
  lemma LeavingRow(s: State, c: Call, now: int, t: nat, start: int, below: seq<int>)
    requires Valid(s, c) && t < |s.stacks| && |s.stacks[t]| > |below|
    requires Outer(s.stacks[t], |below| + 1) == [start] + below
    requires t < |Do(s, c, now).stacks| && |Do(s, c, now).stacks[t]| <= |below|
    ensures c == Pop(t) || c == RpdStop
    ensures var row := Row(t, start, now, Ranged);
            && row in Do(s, c, now).rows
            && (c == Pop(t) ==> Do(s, c, now).rows == s.rows + [row] && Do(s, c, now).stacks[t] == below)
  {
    WhichShrinks(s, c, now, t);
    OuterParts(s.stacks[t], start, below);
    hide Outer, Do;
    if c == RpdStop {
      StopLeaves(s, now, t, |s.stacks[t]| - 1 - |below|);
    } else {
      PopLeaves(s, now, t);
    }
  }

  lemma PopLeaves(s: State, now: int, t: nat)
    requires t < |s.stacks| && s.active && s.stacks[t] != []
    ensures var d := Do(s, Pop(t), now);
            && |d.stacks| == |s.stacks| && d.stacks[t] == s.stacks[t][1..]
            && d.rows == s.rows + [Row(t, s.stacks[t][0], now, Ranged)]
  {
  }

  lemma StopLeaves(s: State, now: int, t: nat, k: nat)
    requires t < |s.stacks| && k < |s.stacks[t]| && s.activeCount == 1
    ensures Row(t, s.stacks[t][k], now, Ranged) in Do(s, RpdStop, now).rows
  {
    hide Drain;
    DrainCloses(s.(active := false), 0, now, t, k);
  }

  lemma WhichShrinks(s: State, c: Call, now: int, t: nat)
    requires Valid(s, c) && t < |s.stacks|
    requires t < |Do(s, c, now).stacks| && |Do(s, c, now).stacks[t]| < |s.stacks[t]|
    ensures (c == Pop(t) && s.active && |Do(s, c, now).stacks[t]| == |s.stacks[t]| - 1)
            || (c == RpdStop && s.activeCount == 1)
  {
    hide Drain;
  }

  lemma OuterParts(stack: seq<int>, start: int, below: seq<int>)
    requires |stack| > |below| && Outer(stack, |below| + 1) == [start] + below
    ensures stack[|stack| - 1 - |below|] == start && stack[|stack| - |below|..] == below
    ensures |stack| == |below| + 1 ==> stack[0] == start && stack[1..] == below
  {
    var h := |below|;
    assert stack[|stack| - 1 - h] == Outer(stack, h + 1)[0];
    assert stack[|stack| - h..] == Outer(stack, h + 1)[1..];
  }

  /** Starts and stops strictly alternate, even when stops outnumber starts:
      tracing is on exactly while the count is positive. */
  lemma StartsAndStopsAlternate(states: seq<State>, calls: seq<Timed>, threads: nat, t0: int, i: nat)
    requires IsRun(states, calls, threads, t0) && i < |calls|
    ensures states[i].active <==> states[i].activeCount >= 1
    ensures calls[i].call == RpdStart && states[i].activeCount == 0 ==> !states[i].active && states[i + 1].active
    ensures calls[i].call == RpdStop && states[i].activeCount == 1 ==> states[i].active && !states[i + 1].active
    ensures states[i].active != states[i + 1].active ==> calls[i].call == RpdStart || calls[i].call == RpdStop
  {
    RunKeeps(states, calls, threads, t0, i);
    RunKeeps(states, calls, threads, t0, i + 1);
    assert states[i + 1] == Do(states[i], calls[i].call, calls[i].now);
  }

  // ---- rows and stretches of tracing -----------------------------------

  /** Call a switched tracing on and it has stayed on up to state i. */
  ghost predicate OnSince(states: seq<State>, calls: seq<Timed>, a: nat, i: nat)
    requires |states| == |calls| + 1
  {
    && a < i < |states| && calls[a].call == RpdStart && !states[a].active
    && forall k :: a < k <= i ==> states[k].active
  }

  /** Tracing that is on was switched on by one call. */
  lemma {:induction false} SwitchedOn(states: seq<State>, calls: seq<Timed>, threads: nat, t0: int, i: nat)
    returns (a: nat)
    requires IsRun(states, calls, threads, t0) && i < |states| && states[i].active
    ensures OnSince(states, calls, a, i)
    ensures forall b: nat :: OnSince(states, calls, b, i) ==> b == a
  {
    hide Inv, Do;
    StartsInactive(states, calls, threads, t0);
    var p := i - 1;
    if states[p].active {
      a := SwitchedOn(states, calls, threads, t0, p);
    } else {
      TurnsOn(states, calls, threads, t0, p);
      a := p;
    }
    forall b: nat | OnSince(states, calls, b, i) ensures b == a {
      if b < p {
        assert states[p].active;
        assert OnSince(states, calls, b, p);
      }
    }
  }

  lemma StartsInactive(states: seq<State>, calls: seq<Timed>, threads: nat, t0: int)
    requires IsRun(states, calls, threads, t0)
    ensures !states[0].active && states[0].rows == []
  {
  }

  lemma TurnsOn(states: seq<State>, calls: seq<Timed>, threads: nat, t0: int, i: nat)
    requires IsRun(states, calls, threads, t0) && i < |calls| && !states[i].active && states[i + 1].active
    ensures calls[i].call == RpdStart && states[i + 1].resumeTime == calls[i].now
  {
    hide Inv;
    var s, c := states[i], calls[i].call;
    assert states[i + 1] == Do(s, c, calls[i].now);
    if c == RpdStop {
      StopLeavesOff(s, calls[i].now);
    }
  }

  lemma StopLeavesOff(s: State, now: int)
    ensures Do(s, RpdStop, now).resumeTime == s.resumeTime
    ensures !s.active ==> !Do(s, RpdStop, now).active
  {
    DrainFrame(s.(active := false), 0, now);
  }

  lemma {:induction false} DrainFrame(s: State, t: nat, now: int)
    requires t <= |s.stacks|
    ensures var d := Drain(s, t, now); d.resumeTime == s.resumeTime && d.active == s.active
    decreases |s.stacks| - t, if t < |s.stacks| then |s.stacks[t]| else 0
  {
    if t < |s.stacks| {
      if s.stacks[t] == [] {
        DrainFrame(s, t + 1, now);
      } else {
        DrainFrame(PopOpen(s, t, now), t, now);
      }
    }
  }

  /** The resume time is the time of the call that switched tracing on last. */
  lemma {:induction false} ResumeIsSwitchTime(states: seq<State>, calls: seq<Timed>, threads: nat, t0: int, a: nat,
                                              i: nat)
    requires IsRun(states, calls, threads, t0) && i < |states| && OnSince(states, calls, a, i)
    ensures states[i].resumeTime == calls[a].now
    decreases i
  {
    hide Inv, Do;
    if a + 1 == i {
      TurnsOn(states, calls, threads, t0, a);
    } else {
      assert OnSince(states, calls, a, i - 1);
      ResumeIsSwitchTime(states, calls, threads, t0, a, i - 1);
      StaysOn(states, calls, threads, t0, i - 1);
    }
  }

  lemma StaysOn(states: seq<State>, calls: seq<Timed>, threads: nat, t0: int, i: nat)
    requires IsRun(states, calls, threads, t0) && i < |calls| && states[i].active
    ensures states[i + 1].resumeTime == states[i].resumeTime
  {
    RunKeeps(states, calls, threads, t0, i);
    hide Inv;
    assert states[i + 1] == Do(states[i], calls[i].call, calls[i].now);
    StartsAndStopsAlternate(states, calls, threads, t0, i);
    StopLeavesOff(states[i], calls[i].now);
  }

  /** The rows a call adds end at its time and start no earlier than `from`. */
  ghost predicate AddsWithin(before: seq<Row>, after: seq<Row>, from: int, now: int) {
    before <= after && forall q :: |before| <= q < |after| ==> from <= after[q].start <= after[q].end == now
  }

  lemma {:induction false} DrainAdds(s: State, t: nat, now: int)
    requires t <= |s.stacks| && StacksOk(s, now)
    ensures AddsWithin(s.rows, Drain(s, t, now).rows, s.resumeTime, now)
    decreases |s.stacks| - t, if t < |s.stacks| then |s.stacks[t]| else 0
  {
    if t < |s.stacks| {
      if s.stacks[t] == [] {
        DrainAdds(s, t + 1, now);
      } else {
        var p := PopOpen(s, t, now);
        assert StackOk(s.stacks[t], s.resumeTime, now);
        assert StackOk(p.stacks[t], s.resumeTime, now);
        assert StacksOk(p, now);
        DrainAdds(p, t, now);
      }
    }
  }

  lemma CallAdds(s: State, c: Call, now: int)
    requires Inv(s) && Valid(s, c) && s.now <= now
    ensures !s.active ==> Do(s, c, now).rows == s.rows
    ensures s.active ==> AddsWithin(s.rows, Do(s, c, now).rows, s.resumeTime, now)
  {
    match c
    case RpdStop =>
      if s.activeCount == 1 {
        DrainAdds(s.(active := false), 0, now);
      }
    case Pop(t) => assert StackOk(s.stacks[t], s.resumeTime, s.now);
    case _ =>
  }

  /** Row q is the work of call j, and lies between the call a that switched
      tracing on and call j itself, tracing being on all that time. */
  ghost predicate InStretch(states: seq<State>, calls: seq<Timed>, row: Row, a: nat, j: nat)
    requires |states| == |calls| + 1
  {
    j < |calls| && OnSince(states, calls, a, j) && calls[a].now <= row.start <= row.end == calls[j].now
  }

  /** Every row lies inside one stretch of tracing: none reaches back across a
      pause or past the stop that ends the stretch. */
  lemma {:induction false} RowsLieInStretches(states: seq<State>, calls: seq<Timed>, threads: nat, t0: int, i: nat,
                                              q: nat)
    requires IsRun(states, calls, threads, t0) && i < |states| && q < |states[i].rows|
    ensures exists a: nat, j: nat :: j < i && InStretch(states, calls, states[i].rows[q], a, j)
  {
    hide Inv, Do;
    StartsInactive(states, calls, threads, t0);
    var p := i - 1;
    var s := states[p];
    RunKeeps(states, calls, threads, t0, p);
    assert states[i] == Do(s, calls[p].call, calls[p].now);
    CallAdds(s, calls[p].call, calls[p].now);
    if q < |s.rows| {
      RowsLieInStretches(states, calls, threads, t0, p, q);
    } else {
      var a := SwitchedOn(states, calls, threads, t0, p);
      ResumeIsSwitchTime(states, calls, threads, t0, a, p);
      assert InStretch(states, calls, states[i].rows[q], a, p);
    }
  }

  /** A pop without a push gets the row from the time tracing was last switched
      on to its own, whatever came before the pause. */
  lemma OrphanPopHasItsRow(states: seq<State>, calls: seq<Timed>, threads: nat, t0: int, a: nat, i: nat, t: nat)
    requires IsRun(states, calls, threads, t0) && i < |calls| && OnSince(states, calls, a, i)
    requires calls[i].call == Pop(t) && states[i].stacks[t] == []
    ensures states[i + 1].rows == states[i].rows + [Row(t, calls[a].now, calls[i].now, PreExisting)]
  {
    ResumeIsSwitchTime(states, calls, threads, t0, a, i);
    assert states[i].active;
    assert states[i + 1] == Do(states[i], calls[i].call, calls[i].now);
  }

  /** A mark while tracing is on has the row of its own instant. */
  lemma MarkHasItsRow(states: seq<State>, calls: seq<Timed>, threads: nat, t0: int, i: nat, t: nat)
    requires IsRun(states, calls, threads, t0) && i < |calls| && calls[i].call == Mark(t)
    ensures states[i + 1].rows
            == states[i].rows + if states[i].active then [Row(t, calls[i].now, calls[i].now, Marker)] else []
  {
    assert states[i + 1] == Do(states[i], calls[i].call, calls[i].now);
  }

  // ---- the calls on the object -----------------------------------------

  class RoctxDataSource {
    var active: bool
    var resumeTime: int
    var stacks: seq<seq<int>>
    var rows: seq<Row>

    /** The fields this object owns, within a state. */
    function Over(s: State): State
      reads this
    {
      s.(active := active, resumeTime := resumeTime, stacks := stacks, rows := rows)
    }

    constructor (threads: nat)
      ensures !active && resumeTime == 0 && rows == [] && stacks == seq(threads, _ => [])
    {
      active, resumeTime, rows := false, 0, [];
      stacks := seq(threads, _ => []);
    }

    method RangePush(t: nat, now: int, ghost s: State) returns (depth: int)
      requires t < |stacks|
      modifies `stacks
      ensures depth == if active then |old(stacks[t])| else -1
      ensures Over(s).(now := now, pushes := if active then s.pushes + 1 else s.pushes)
              == Do(old(Over(s)), Push(t), now)
    {
      if !active {
        return -1;
      }
      stacks := stacks[t := [now] + stacks[t]];
      depth := |stacks[t]| - 1;
    }

    method RangePop(t: nat, now: int, ghost s: State) returns (depth: int)
      requires t < |stacks|
      modifies `stacks, `rows
      ensures |stacks| == old(|stacks|)
      ensures depth == if old(active && stacks[t] != []) then |stacks[t]| else -1
      ensures Over(s).(now := now, orphans := if old(active && stacks[t] == []) then s.orphans + 1 else s.orphans)
              == Do(old(Over(s)), Pop(t), now)
    {
      if !active {
        return -1;
      }
      if stacks[t] == [] {
        rows := rows + [Row(t, resumeTime, now, PreExisting)];
        return -1;
      }
      var start := stacks[t][0];
      stacks := stacks[t := stacks[t][1..]];
      rows := rows + [Row(t, start, now, Ranged)];
      depth := |stacks[t]|;
    }

    method MarkA(t: nat, now: int, ghost s: State)
      requires t < |stacks|
      modifies `rows
      ensures Over(s).(now := now, marks := if active then s.marks + 1 else s.marks)
              == Do(old(Over(s)), Call.Mark(t), now)
    {
      if !active {
        return;
      }
      rows := rows + [Row(t, now, now, Marker)];
    }

    method DrainStacks(now: int, ghost s: State)
      modifies `stacks, `rows
      ensures Over(s) == Drain(old(Over(s)), 0, now)
    {
      var t := 0;
      while t < |stacks|
        invariant t <= |stacks| == |old(stacks)|
        invariant Drain(Over(s), t, now) == Drain(old(Over(s)), 0, now)
      {
        while stacks[t] != []
          invariant t < |stacks| == |old(stacks)|
          invariant Drain(Over(s), t, now) == Drain(old(Over(s)), 0, now)
          decreases |stacks[t]|
        {
          var start := stacks[t][0];
          stacks := stacks[t := stacks[t][1..]];
          rows := rows + [Row(t, start, now, Ranged)];
        }
        t := t + 1;
      }
    }

    method StartTracing(now: int, ghost s: State)
      modifies `resumeTime, `active
      ensures Over(s) == Started(old(Over(s)), now)
    {
      resumeTime := now;
      active := true;
    }

    method StopTracing(now: int, ghost s: State)
      modifies this
      ensures Over(s) == Stopped(old(Over(s)), now)
    {
      active := false;
      DrainStacks(now, s);
    }
  }

  class Logger {
    const source: RoctxDataSource
    var m_activeCount: int

    function Over(s: State): State
      reads this, source
    {
      source.Over(s).(activeCount := m_activeCount)
    }

    constructor (source: RoctxDataSource)
      ensures this.source == source && m_activeCount == 0
    {
      this.source, m_activeCount := source, 0;
    }

    method Rpdstart(now: int, ghost s: State)
      modifies this, source
      ensures Over(s).(now := now) == Do(old(Over(s)), RpdStart, now)
    {
      if m_activeCount == 0 {
        source.StartTracing(now, s);
      }
      m_activeCount := m_activeCount + 1;
    }

    method Rpdstop(now: int, ghost s: State)
      modifies this, source
      ensures Over(s).(now := now) == Do(old(Over(s)), RpdStop, now)
    {
      if m_activeCount == 1 {
        source.StopTracing(now, s.(activeCount := m_activeCount));
      }
      m_activeCount := m_activeCount - 1;
    }
  }
}
