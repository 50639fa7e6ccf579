/** The channel under any interleaving of receivers, flush() callers, the
    writer thread and end(). */
module ChannelRuns {
  import opened WriterChannel

  /** Where the writer thread stands. */
  datatype Pc =
    | Idle
    | Busy(entry: Entry)        // dequeued, not yet handled
    | Signalling(seqNo: nat)    // backend flushed, completion not yet published
    | Stopping                  // main loop left: drain and last flush
    | Exited

  /** A caller blocked in flush(): its number and how much had been queued. */
  datatype Ticket = Ticket(seqNo: nat, before: nat)

  /** `history` is everything ever queued; the first `handled` entries have
      reached the backend. */
  datatype State = State(c: Channel, pc: Pc, receiving: bool, waiting: map<int, Ticket>,
                         history: seq<Entry>, handled: nat)

  datatype Action =
    | Receive(body: int)          // recvLoop: a batch
    | ReceiveFlush                // recvLoop: a flush nobody waits for
    | BeginFlush(who: int)        // flush(): queue a numbered mark
    | EndFlush(who: int)          // flush(): the wait is over
    | JoinReceivers               // end(): connections closed, receivers joined
    | SetDone                     // end(): done under the mutex
    | Dequeue
    | Handle
    | Signal
    | Leave                       // queue empty and done
    | Finish                      // drain, last flush, thread exit

  const INITIAL := State(Channel([], 0, 0, false, [], []), Idle, true, map[], [], 0)

  function Queued(s: State, e: Entry): State {
    s.(c := s.c.(queue := s.c.queue + [e]), history := s.history + [e])
  }

  predicate Enabled(s: State, a: Action) {
    match a
    case Receive(_) => s.receiving
    case ReceiveFlush => s.receiving
    case BeginFlush(who) => who !in s.waiting && !s.c.done
    case EndFlush(who) => who in s.waiting && s.c.completedFlushSeq >= s.waiting[who].seqNo
    case JoinReceivers => s.receiving
    case SetDone => !s.receiving && !s.c.done
    case Dequeue => s.pc.Idle? && s.c.queue != []
    case Handle => s.pc.Busy?
    case Signal => s.pc.Signalling?
    case Leave => s.pc.Idle? && s.c.queue == [] && s.c.done
    case Finish => s.pc.Stopping?
  }

  function Step(s: State, a: Action): State
    requires Enabled(s, a)
  {
    match a
    case Receive(body) => Queued(s, Batch(body))
    case ReceiveFlush => Queued(s, FlushMark(0))
    case BeginFlush(who) =>
      var n := s.c.nextFlushSeq + 1;
      var t := Queued(s, FlushMark(n));
      t.(c := t.c.(nextFlushSeq := n), waiting := s.waiting[who := Ticket(n, |s.history|)])
    case EndFlush(who) => s.(waiting := s.waiting - {who})
    case JoinReceivers => s.(receiving := false)
    case SetDone => s.(c := s.c.(done := true))
    case Dequeue => s.(c := s.c.(queue := s.c.queue[1..]), pc := Busy(s.c.queue[0]))
    case Handle =>
      s.(c := Handled(s.c, s.pc.entry), handled := s.handled + 1,
         pc := if s.pc.entry.FlushMark? then Signalling(s.pc.entry.seqNo) else Idle)
    case Signal => s.(c := Signalled(s.c, s.pc.seqNo), pc := Idle)
    case Leave => s.(pc := Stopping)
    case Finish => s.(c := Flushed(Drained(s.c)), handled := s.handled + |s.c.queue|, pc := Exited)
  }

  ghost predicate IsRun(states: seq<State>, acts: seq<Action>) {
    && |states| == |acts| + 1
    && states[0] == INITIAL
    && forall i :: 0 <= i < |acts| ==> Enabled(states[i], acts[i]) && states[i + 1] == Step(states[i], acts[i])
  }

  // ---- the invariant ---------------------------------------------------

  ghost predicate QueueOk(s: State) {
    && s.handled <= |s.history|
    && (if s.pc.Busy?
        then s.handled < |s.history| && s.history[s.handled] == s.pc.entry && s.history[s.handled + 1..] == s.c.queue
        else s.history[s.handled..] == s.c.queue)
    && (s.pc.Signalling? ==> s.handled > 0 && s.history[s.handled - 1] == FlushMark(s.pc.seqNo))
  }

  /** main and temp hold the batches of the first n entries, and main all those
      before the last flush among them. */
  ghost predicate Holds(main: seq<int>, temp: seq<int>, history: seq<Entry>, n: nat)
    requires n <= |history|
  {
    && main + temp == Bodies(history[..n])
    && (forall p :: 0 <= p < n && history[p].FlushMark? ==> |main| >= |Bodies(history[..p])|)
  }

  ghost predicate BackendOk(s: State)
    requires s.handled <= |s.history|
  {
    Holds(s.c.main, s.c.temp, s.history, s.handled)
  }

  predicate Numbered(e: Entry) {
    e.FlushMark? && e.seqNo > 0
  }

  ghost predicate NumbersOk(s: State) {
    && (forall p :: 0 <= p < |s.history| && Numbered(s.history[p]) ==> s.history[p].seqNo <= s.c.nextFlushSeq)
    && (forall p, q :: 0 <= p < q < |s.history| && Numbered(s.history[p]) && Numbered(s.history[q])
                       ==> s.history[p].seqNo < s.history[q].seqNo)
  }

  ghost predicate CompletedOk(s: State) {
    s.c.completedFlushSeq > 0 ==>
      exists p :: 0 <= p < s.handled <= |s.history| && s.history[p] == FlushMark(s.c.completedFlushSeq)
  }

  ghost predicate TicketsOk(s: State) {
    forall who :: who in s.waiting ==>
      var t := s.waiting[who];
      t.seqNo > 0 && t.before < |s.history| && s.history[t.before] == FlushMark(t.seqNo)
  }

  ghost predicate StopOk(s: State) {
    && (s.c.done ==> !s.receiving)
    && (s.pc.Stopping? || s.pc.Exited? ==> s.c.done && s.c.queue == [])
    && (s.pc.Exited? ==> s.handled == |s.history| && s.c.temp == [])
  }

  ghost predicate Inv(s: State) {
    QueueOk(s) && BackendOk(s) && NumbersOk(s) && CompletedOk(s) && TicketsOk(s) && StopOk(s)
  }

  lemma BodiesGrow(es: seq<Entry>, n: nat)
    requires n < |es|
    ensures Bodies(es[..n + 1]) == Bodies(es[..n]) + if es[n].Batch? then [es[n].body] else []
  {
    assert es[..n + 1][..n] == es[..n];
  }

  lemma {:induction false} BodiesPrefix(es: seq<Entry>, m: nat, n: nat)
    requires m <= n <= |es|
    ensures Bodies(es[..m]) <= Bodies(es[..n])
  {
    if m < n {
      BodiesPrefix(es, m, n - 1);
      BodiesGrow(es, n - 1);
    }
  }

  lemma QueueKeeps(s: State, e: Entry, t: State)
    requires Inv(s) && s.pc != Stopping && s.pc != Exited
    requires t.history == s.history + [e] && t.c.queue == s.c.queue + [e] && t.handled == s.handled && t.pc == s.pc
    requires t.c.main == s.c.main && t.c.temp == s.c.temp && t.c.completedFlushSeq == s.c.completedFlushSeq
    ensures QueueOk(t) && BackendOk(t) && CompletedOk(t)
  {
    assert t.history[..t.handled] == s.history[..s.handled];
    forall p | 0 <= p < t.handled && t.history[p].FlushMark? ensures |t.c.main| >= |Bodies(t.history[..p])| {
      assert t.history[..p] == s.history[..p];
    }
    if t.c.completedFlushSeq > 0 {
      var p :| 0 <= p < s.handled <= |s.history| && s.history[p] == FlushMark(s.c.completedFlushSeq);
      assert t.history[p] == s.history[p];
    }
  }

  lemma BatchHolds(main: seq<int>, temp: seq<int>, history: seq<Entry>, n: nat)
    requires n < |history| && Holds(main, temp, history, n) && history[n].Batch?
    ensures Holds(main, temp + [history[n].body], history, n + 1)
  {
    BodiesGrow(history, n);
    assert main + (temp + [history[n].body]) == main + temp + [history[n].body];
  }

  lemma FlushHolds(main: seq<int>, temp: seq<int>, history: seq<Entry>, n: nat)
    requires n < |history| && Holds(main, temp, history, n) && history[n].FlushMark?
    ensures Holds(main + temp, [], history, n + 1)
  {
    BodiesGrow(history, n);
    assert main + temp + [] == main + temp;
    forall p | 0 <= p < n + 1 && history[p].FlushMark? ensures |main + temp| >= |Bodies(history[..p])| {
      BodiesPrefix(history, p, n);
    }
  }

  lemma FlushedHolds(main: seq<int>, temp: seq<int>, history: seq<Entry>, n: nat)
    requires n <= |history| && Holds(main, temp, history, n)
    ensures Holds(main + temp, [], history, n)
  {
    assert main + temp + [] == main + temp;
  }

  lemma HandleReaches(s: State)
    requires QueueOk(s) && BackendOk(s) && s.pc.Busy?
    ensures BackendOk(Step(s, Handle).(pc := s.pc)) && Step(s, Handle).handled <= |s.history|
  {
    hide Holds;
    if s.pc.entry.Batch? {
      BatchHolds(s.c.main, s.c.temp, s.history, s.handled);
    } else {
      FlushHolds(s.c.main, s.c.temp, s.history, s.handled);
    }
  }

  lemma HandleQueue(s: State)
    requires QueueOk(s) && s.pc.Busy?
    ensures QueueOk(Step(s, Handle))
  {
  }

  lemma CompletedKept(s: State, t: State)
    requires CompletedOk(s) && t.history == s.history && s.handled <= t.handled <= |t.history|
    requires t.c.completedFlushSeq == s.c.completedFlushSeq
    ensures CompletedOk(t)
  {
    if s.c.completedFlushSeq > 0 {
      var p :| 0 <= p < s.handled <= |s.history| && s.history[p] == FlushMark(s.c.completedFlushSeq);
      assert t.history[p] == FlushMark(t.c.completedFlushSeq);
    }
  }

  lemma HandleKeeps(s: State)
    requires Inv(s) && s.pc.Busy?
    ensures Inv(Step(s, Handle))
  {
    hide QueueOk, BackendOk, CompletedOk;
    BusyIsQueued(s);
    HandleQueue(s);
    HandleReaches(s);
    SameBackend(Step(s, Handle).(pc := s.pc), Step(s, Handle));
    CompletedKept(s, Step(s, Handle));
  }

  lemma BusyIsQueued(s: State)
    requires QueueOk(s) && s.pc.Busy?
    ensures s.handled < |s.history|
  {
  }

  lemma SameBackend(s: State, t: State)
    requires s.handled == t.handled <= |s.history| && s.history == t.history && s.c == t.c && BackendOk(s)
    ensures BackendOk(t)
  {
  }

  lemma SignalKeeps(s: State)
    requires Inv(s) && s.pc.Signalling?
    ensures Inv(Step(s, Signal))
  {
    var t := Step(s, Signal);
    assert s.history[s.handled - 1] == FlushMark(s.pc.seqNo);
    if t.c.completedFlushSeq > 0 && t.c.completedFlushSeq == s.c.completedFlushSeq {
      var p :| 0 <= p < s.handled <= |s.history| && s.history[p] == FlushMark(s.c.completedFlushSeq);
      assert t.history[p] == FlushMark(t.c.completedFlushSeq);
    }
  }

  lemma ReceiveKeeps(s: State, a: Action)
    requires Inv(s) && Enabled(s, a) && (a.Receive? || a.ReceiveFlush?)
    ensures Inv(Step(s, a))
  {
    hide QueueOk, BackendOk, CompletedOk;
    QueueKeeps(s, if a.Receive? then Batch(a.body) else FlushMark(0), Step(s, a));
  }

  lemma BeginFlushKeeps(s: State, who: int)
    requires Inv(s) && Enabled(s, BeginFlush(who))
    ensures Inv(Step(s, BeginFlush(who)))
  {
    hide QueueOk, BackendOk, CompletedOk;
    QueueKeeps(s, FlushMark(s.c.nextFlushSeq + 1), Step(s, BeginFlush(who)));
  }

  lemma StepKeeps(s: State, a: Action)
    requires Inv(s) && Enabled(s, a)
    ensures Inv(Step(s, a))
  {
    hide Inv, Step;
    match a
    case Receive(body) => ReceiveKeeps(s, a);
    case ReceiveFlush => ReceiveKeeps(s, a);
    case BeginFlush(who) => BeginFlushKeeps(s, who);
    case Handle => HandleKeeps(s);
    case Signal => SignalKeeps(s);
    case Dequeue => DequeueKeeps(s);
    case _ => OtherKeeps(s, a);
  }

  lemma DequeueKeeps(s: State)
    requires Inv(s) && Enabled(s, Dequeue)
    ensures Inv(Step(s, Dequeue))
  {
    assert s.history[s.handled..][1..] == s.history[s.handled + 1..];
  }

  lemma SameNumbers(s: State, t: State)
    requires NumbersOk(s) && t.history == s.history && t.c.nextFlushSeq == s.c.nextFlushSeq
    ensures NumbersOk(t)
  {
  }

  lemma DrainedEmpty(c: Channel)
    ensures c.queue == [] ==> Drained(c) == c
  {
  }

  lemma OtherKeeps(s: State, a: Action)
    requires Inv(s) && Enabled(s, a)
    requires a.EndFlush? || a.JoinReceivers? || a.SetDone? || a.Leave? || a.Finish?
    ensures Inv(Step(s, a))
  {
    hide CompletedOk, NumbersOk, Holds, Drained;
    DrainedEmpty(s.c);
    var t := Step(s, a);
    SameNumbers(s, t);
    FlushedHolds(s.c.main, s.c.temp, s.history, s.handled);
    CompletedKept(s, t);
  }

  lemma {:induction false} RunKeeps(states: seq<State>, acts: seq<Action>, i: nat)
    requires IsRun(states, acts) && i < |states|
    ensures Inv(states[i])
  {
    if i > 0 {
      RunKeeps(states, acts, i - 1);
      StepKeeps(states[i - 1], acts[i - 1]);
    }
  }

  // ---- what callers rely on --------------------------------------------

  /** The backend has received the batches in the order they were queued, each
      once; numbered flushes in the queue ascend. */
  lemma FifoExactlyOnce(states: seq<State>, acts: seq<Action>, i: nat)
    requires IsRun(states, acts) && i < |states|
    ensures var s := states[i];
            && s.handled <= |s.history| && s.c.main + s.c.temp == Bodies(s.history[..s.handled])
            && (forall p :: 0 <= p < |s.c.queue| && Numbered(s.c.queue[p]) ==> s.c.queue[p].seqNo <= s.c.nextFlushSeq)
            && (forall p, q :: 0 <= p < q < |s.c.queue| && Numbered(s.c.queue[p]) && Numbered(s.c.queue[q])
                               ==> s.c.queue[p].seqNo < s.c.queue[q].seqNo)
  {
    hide IsRun, Bodies;
    RunKeeps(states, acts, i);
    var s := states[i];
    var k := if s.pc.Busy? then s.handled + 1 else s.handled;
    assert forall p :: 0 <= p < |s.c.queue| ==> s.c.queue[p] == s.history[k + p];
  }

  /** completedFlushSeq >= n: what was queued before mark n is in the main
      table. */
  lemma CompletionCovers(s: State, q: nat)
    requires Inv(s) && q < |s.history| && Numbered(s.history[q])
    requires s.c.completedFlushSeq >= s.history[q].seqNo
    ensures q < s.handled && Bodies(s.history[..q]) <= s.c.main
  {
    var p :| 0 <= p < s.handled <= |s.history| && s.history[p] == FlushMark(s.c.completedFlushSeq);
    assert q <= p;
    BodiesPrefix(s.history, q, s.handled);
  }

  /** The writer leaves its main loop only on an empty queue with done set, and
      nothing is queued after that, so in every run the drain finds nothing. */
  lemma DrainFindsNothing(states: seq<State>, acts: seq<Action>, i: nat)
    requires IsRun(states, acts) && i < |acts| && acts[i] == Finish
    ensures states[i].c.done && states[i].c.queue == [] && Drained(states[i].c) == states[i].c
    ensures states[i + 1].c == Flushed(states[i].c) && states[i + 1].handled == |states[i].history|
  {
    RunKeeps(states, acts, i);
    RunKeeps(states, acts, i + 1);
    DrainedEmpty(states[i].c);
  }

  lemma StepGrows(s: State, a: Action)
    requires StopOk(s) && Enabled(s, a)
    ensures s.history <= Step(s, a).history
    ensures s.c.done ==> Step(s, a).c.done && Step(s, a).history == s.history
  {
    if a.Finish? {
      assert Drained(s.c) == s.c;
    }
  }

  lemma {:induction false} HistoryGrows(states: seq<State>, acts: seq<Action>, i: nat, j: nat)
    requires IsRun(states, acts) && i <= j < |states|
    ensures states[i].history <= states[j].history
    ensures states[i].c.done ==> states[j].c.done && states[j].history == states[i].history
  {
    hide Step, Enabled;
    if i < j {
      HistoryGrows(states, acts, i, j - 1);
      RunKeeps(states, acts, j - 1);
      StepGrows(states[j - 1], acts[j - 1]);
    }
  }

  lemma {:induction false} TicketStays(states: seq<State>, acts: seq<Action>, i: nat, j: nat, who: int)
    requires IsRun(states, acts) && i < j < |states| && acts[i] == BeginFlush(who)
    requires forall k :: i < k < j ==> acts[k] != EndFlush(who)
    ensures who in states[j].waiting && states[j].waiting[who].before == |states[i].history|
  {
    if j == i + 1 {
      RunKeeps(states, acts, i);
    } else {
      TicketStays(states, acts, i, j - 1, who);
      assert states[j] == Step(states[j - 1], acts[j - 1]);
    }
  }

  /** The flush protocol: when a flush() that began at i returns at j, every
      batch queued before it began is in the main table, in order. */
  lemma FlushWaitsForAll(states: seq<State>, acts: seq<Action>, i: nat, j: nat, who: int)
    requires IsRun(states, acts) && i < j < |acts|
    requires acts[i] == BeginFlush(who) && acts[j] == EndFlush(who)
    requires forall k :: i < k < j ==> acts[k] != EndFlush(who)
    ensures Bodies(states[i].history) <= states[j + 1].c.main
  {
    TicketStays(states, acts, i, j, who);
    RunKeeps(states, acts, j);
    HistoryGrows(states, acts, i, j);
    var s := states[j];
    CompletionCovers(s, |states[i].history|);
    assert s.history[..|states[i].history|] == states[i].history;
  }

  /** Shutdown: once done is set nothing more is queued, and a writer that has
      exited has put every batch ever queued into the main table. */
  lemma ShutdownLosesNothing(states: seq<State>, acts: seq<Action>, i: nat, j: nat)
    requires IsRun(states, acts) && i <= j < |states|
    ensures states[i].c.done ==> states[j].history == states[i].history
    ensures states[i].pc.Exited? ==> states[i].c.main == Bodies(states[j].history)
  {
    HistoryGrows(states, acts, i, j);
    RunKeeps(states, acts, i);
    var s := states[i];
    if s.pc.Exited? {
      assert s.history[..s.handled] == s.history;
      assert s.c.main + [] == s.c.main;
    }
  }

  // ---- no flush is forgotten -------------------------------------------

  /** Every numbered mark the backend has reached is completed, but for the one
      about to be signalled. */
  ghost predicate MarksComplete(s: State) {
    forall p :: 0 <= p < s.handled <= |s.history| && Numbered(s.history[p])
                && !(s.pc.Signalling? && p == s.handled - 1)
                ==> s.history[p].seqNo <= s.c.completedFlushSeq
  }

  lemma {:induction false} HandledMarksComplete(states: seq<State>, acts: seq<Action>, i: nat)
    requires IsRun(states, acts) && i < |states|
    ensures MarksComplete(states[i])
  {
    if i > 0 {
      HandledMarksComplete(states, acts, i - 1);
      RunKeeps(states, acts, i - 1);
      MarksCompleteNext(states[i - 1], acts[i - 1]);
    }
  }

  lemma MarksCompleteNext(s: State, a: Action)
    requires Inv(s) && MarksComplete(s) && Enabled(s, a)
    ensures MarksComplete(Step(s, a))
  {
    hide BackendOk, TicketsOk, Drained;
    var t := Step(s, a);
    if a == Finish {
      DrainedEmpty(s.c);
    }
    assert forall p :: 0 <= p < |s.history| ==> t.history[p] == s.history[p];
  }

  /** Nobody waits for a writer that has nothing to do: while its queue is empty
      and it is not about to handle or to signal, every caller in flush() can
      return; and no caller is left behind when it exits. */
  lemma NoFlushForgotten(states: seq<State>, acts: seq<Action>, i: nat, who: int)
    requires IsRun(states, acts) && i < |states| && who in states[i].waiting
    requires states[i].c.queue == [] && !states[i].pc.Busy? && !states[i].pc.Signalling?
    ensures Enabled(states[i], EndFlush(who))
  {
    RunKeeps(states, acts, i);
    HandledMarksComplete(states, acts, i);
    var s := states[i];
    assert s.handled == |s.history|;
    assert s.history[s.waiting[who].before] == FlushMark(s.waiting[who].seqNo);
  }

  predicate InFlush(acts: seq<Action>, who: int) {
    acts != [] &&
    var last := acts[|acts| - 1];
    if last == BeginFlush(who) then true
    else if last == EndFlush(who) then false
    else InFlush(acts[..|acts| - 1], who)
  }

  /** Exactly those who are in a flush wait for one. */
  lemma {:induction false} WaitingIffInFlush(states: seq<State>, acts: seq<Action>, i: nat, who: int)
    requires IsRun(states, acts) && i < |states|
    ensures who in states[i].waiting <==> InFlush(acts[..i], who)
  {
    if i > 0 {
      WaitingIffInFlush(states, acts, i - 1, who);
      assert acts[..i][..i - 1] == acts[..i - 1];
      assert states[i] == Step(states[i - 1], acts[i - 1]);
    }
  }

  predicate IsWriters(a: Action) {
    a.Dequeue? || a.Handle? || a.Signal? || a.Leave? || a.Finish?
  }

  predicate Queues(a: Action) {
    a.Receive? || a.ReceiveFlush? || a.BeginFlush?
  }

  /** The writer's next step: it waits only for something to be queued or for
      done. */
  lemma WriterNeverStuck(states: seq<State>, acts: seq<Action>, i: nat)
    requires IsRun(states, acts) && i < |states|
    ensures var s := states[i];
            && ((exists a :: IsWriters(a) && Enabled(s, a))
                <==> !s.pc.Exited? && !(s.pc.Idle? && s.c.queue == [] && !s.c.done))
            && (s.pc.Exited? ==> s.c.queue == [] && s.c.done)
  {
    RunKeeps(states, acts, i);
    InvHasStop(states[i]);
    hide *;
    CanStep(states[i]);
  }

  lemma InvHasStop(s: State)
    requires Inv(s)
    ensures s.pc.Exited? ==> s.c.queue == [] && s.c.done
  {
  }

  lemma CanStep(s: State)
    ensures (exists a :: IsWriters(a) && Enabled(s, a))
            <==> !s.pc.Exited? && !(s.pc.Idle? && s.c.queue == [] && !s.c.done)
  {
    var a := if s.pc.Busy? then Handle else if s.pc.Signalling? then Signal else if s.pc.Stopping? then Finish
             else if s.c.queue != [] then Dequeue else Leave;
    assert IsWriters(a);
  }

  /** Steps the writer has left if nothing more is queued. */
  function Left(s: State): nat {
    3 * |s.c.queue| + match s.pc
                      case Exited => 0
                      case Stopping => 1
                      case Idle => 2
                      case Signalling(_) => 3
                      case Busy(_) => 4
  }

  function Count(acts: seq<Action>, counted: Action -> bool): nat {
    if acts == [] then 0
    else Count(acts[..|acts| - 1], counted) + if counted(acts[|acts| - 1]) then 1 else 0
  }

  lemma LeftFalls(s: State, a: Action)
    requires Inv(s) && Enabled(s, a)
    ensures IsWriters(a) ==> Left(Step(s, a)) < Left(s)
    ensures !IsWriters(a) ==> Left(Step(s, a)) == Left(s) + if Queues(a) then 3 else 0
  {
    hide QueueOk, BackendOk, NumbersOk, CompletedOk, TicketsOk, Drained;
    if a == Finish {
      DrainedEmpty(s.c);
    }
  }

  /** The writer comes to rest: between any two moments of a run it makes no more
      steps than it had left plus three for each entry queued meanwhile. */
  lemma {:induction false} WriterRests(states: seq<State>, acts: seq<Action>, i: nat, j: nat)
    requires IsRun(states, acts) && i <= j < |states|
    ensures Left(states[j]) + Count(acts[i..j], IsWriters) <= Left(states[i]) + 3 * Count(acts[i..j], Queues)
    decreases j
  {
    hide Left, Inv, Step, Enabled, IsWriters, Queues;
    if i < j {
      WriterRests(states, acts, i, j - 1);
      RunKeeps(states, acts, j - 1);
      LeftFalls(states[j - 1], acts[j - 1]);
      assert acts[i..j][..j - 1 - i] == acts[i..j - 1] && acts[i..j][j - 1 - i] == acts[j - 1];
      WritersQueueNothing(acts[j - 1]);
    }
  }

  lemma WritersQueueNothing(a: Action)
    ensures !(IsWriters(a) && Queues(a))
  {
  }

  /** Connections are joined and the channel is done exactly from these steps on. */
  lemma {:induction false} FlagsTellHistory(states: seq<State>, acts: seq<Action>, i: nat)
    requires IsRun(states, acts) && i < |states|
    ensures states[i].receiving <==> JoinReceivers !in acts[..i]
    ensures states[i].c.done <==> SetDone in acts[..i]
    ensures states[i].pc.Exited? <==> Finish in acts[..i]
  {
    hide Step, Enabled;
    if i > 0 {
      FlagsTellHistory(states, acts, i - 1);
      assert acts[..i] == acts[..i - 1] + [acts[i - 1]];
      FlagsStep(states[i - 1], acts[i - 1]);
    }
  }

  lemma FlagsStep(s: State, a: Action)
    requires Enabled(s, a)
    ensures Step(s, a).receiving <==> s.receiving && a != JoinReceivers
    ensures Step(s, a).c.done <==> s.c.done || a == SetDone
    ensures Step(s, a).pc.Exited? <==> s.pc.Exited? || a == Finish
  {
    hide Drained;
    DrainKeepsDone(s.c);
  }

  lemma {:induction false} DrainKeepsDone(c: Channel)
    ensures Drained(c).done == c.done
    decreases |c.queue|
  {
    if c.queue != [] {
      var e, d := c.queue[0], Handled(c, c.queue[0]).(queue := c.queue[1..]);
      DrainKeepsDone(if e.FlushMark? then Signalled(d, e.seqNo) else d);
    }
  }
}
