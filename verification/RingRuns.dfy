/** A buffered table under any interleaving of inserters, flushers, the
    finalizer and its worker, which writes row by row without the mutex. */
module RingRuns {
  import opened Division
  import opened RingTable

  /** `inserted` is the history of rows in insertion order; `waiting` records
      the target each blocked flush() took; `exitHead` is the head at which the
      worker left.  The backend holds rows in its temporary table until a flush
      moves them to the main one. */
  datatype State = State(sh: Shared, pc: Pc, waiting: map<int, nat>, finalizing: bool,
                         temp: seq<OpRow>, main: seq<OpRow>, inserted: seq<OpRow>, exitHead: nat)

  datatype Action =
    | Insert(row: OpRow)
    | Resume                 // worker: mutex taken to mutex released
    | Take                   // worker: first section of writeRows()
    | WriteRow               // worker: one row of writeBatch()
    | EndWrite               // worker: last section of writeRows()
    | BeginFlush(who: int)
    | EndFlush(who: int)     // the wait ends: flushRows()
    | BeginFinalize
    | EndFinalize            // worker joined: flushRows()

  ghost predicate Initial(z: Sizes, s: State) {
    exists ring: seq<OpRow> :: |ring| == z.buffer
      && s == State(Shared(0, 0, ring, false, true, false, 0), Start, map[], false, [], [], [], 0)
  }

  predicate Enabled(z: Sizes, s: State, a: Action) {
    match a
    case Insert(_) => !Full(z, s.sh) && |s.sh.ring| == z.buffer
    case Resume => s.pc.Start? || s.pc.Waiting? || s.pc.Wrote?
    case Take => s.pc.ToWrite?
    case WriteRow => s.pc.Writing? && s.pc.next <= s.pc.end && |s.sh.ring| == z.buffer
    case EndWrite => s.pc.Writing? && s.pc.next > s.pc.end
    case BeginFlush(who) => who !in s.waiting
    case EndFlush(who) => who in s.waiting && !s.sh.flushRequested
    case BeginFinalize => !s.finalizing
    case EndFinalize => s.finalizing && s.pc.Exited?
  }

  function Moved(s: State): State {
    s.(main := s.main + s.temp, temp := [])
  }

  function Step(z: Sizes, s: State, a: Action): State
    requires z.Valid() && Enabled(z, s, a)
  {
    match a
    case Insert(row) =>
      s.(sh := Inserted(z, s.sh, row), inserted := s.inserted + [row.(opId := s.sh.head + 1)])
    case Resume =>
      var (sh, pc) := Resumed(z, s.sh, s.pc);
      s.(sh := sh, pc := pc, exitHead := if pc.Exited? then sh.head else s.exitHead)
    case Take => s.(pc := Taken(z, s.sh, s.pc.loop))
    case WriteRow =>
      s.(temp := s.temp + [s.sh.ring[s.pc.next % z.buffer]], pc := s.pc.(next := s.pc.next + 1))
    case EndWrite => s.(sh := s.sh.(tail := s.pc.end), pc := Wrote(s.pc.loop))
    case BeginFlush(who) => s.(sh := FlushAsked(s.sh), waiting := s.waiting[who := s.sh.head])
    case EndFlush(who) => Moved(s.(waiting := s.waiting - {who}))
    case BeginFinalize => s.(sh := s.sh.(done := true), finalizing := true)
    case EndFinalize => Moved(s.(sh := s.sh.(workerRunning := false)))
  }

  ghost predicate IsRun(z: Sizes, states: seq<State>, acts: seq<Action>) {
    && z.Valid()
    && |states| == |acts| + 1
    && Initial(z, states[0])
    && forall i :: 0 <= i < |acts| ==> Enabled(z, states[i], acts[i]) && states[i + 1] == Step(z, states[i], acts[i])
  }

  // ---- the invariant ---------------------------------------------------

  /** Rows that have reached the backend. */
  function Reached(s: State): int {
    if s.pc.Writing? then s.pc.next - 1 else s.sh.tail
  }

  ghost predicate BatchOk(z: Sizes, s: State) {
    s.pc.Writing? ==>
      && s.sh.tail < s.pc.next <= s.pc.end + 1
      && s.sh.tail < s.pc.end <= s.sh.head
      && s.pc.end - s.sh.tail <= z.batch
  }

  ghost predicate CountsOk(z: Sizes, s: State) {
    && |s.sh.ring| == z.buffer
    && s.sh.tail <= s.sh.head <= s.sh.tail + z.buffer
    && |s.inserted| == s.sh.head
    && BatchOk(z, s)
  }

  /** Row k carries id k. */
  ghost predicate IdsOk(s: State) {
    forall k :: 0 <= k < |s.inserted| ==> s.inserted[k].opId == k + 1
  }

  /** Every row not yet released is intact in its slot, also those of the batch
      being written. */
  ghost predicate SlotsOk(z: Sizes, s: State)
    requires z.Valid() && CountsOk(z, s)
  {
    forall k :: s.sh.tail < k <= s.sh.head ==> s.sh.ring[k % z.buffer] == s.inserted[k - 1]
  }

  /** The backend holds every row that reached it, once and in order. */
  ghost predicate BackendOk(z: Sizes, s: State)
    requires CountsOk(z, s)
  {
    s.main + s.temp == s.inserted[..Reached(s)]
  }

  ghost predicate FlushOk(s: State) {
    && s.sh.flushTarget <= s.sh.head
    && (!s.sh.flushRequested ==> s.sh.flushTarget <= s.sh.tail)
    && (forall who :: who in s.waiting ==> s.waiting[who] <= s.sh.flushTarget)
    && (s.pc == ToWrite(FlushLoop) ==> s.sh.tail < s.sh.flushTarget)
    && (s.pc == ToWrite(FlushLoop) || (s.pc.Writing? && s.pc.loop == FlushLoop) || s.pc == Wrote(FlushLoop)
        ==> s.sh.flushRequested)
  }

  ghost predicate ExitOk(s: State) {
    && (s.finalizing <==> s.sh.done)
    && (s.pc.ToWrite? ==> s.sh.tail < s.sh.head)
    && ((s.pc.Wrote? || s.pc.ToWrite? || s.pc.Writing?) && s.pc.loop.DrainLoop? ==> s.sh.done)
    && (s.pc.Exited? ==> s.sh.done && s.sh.tail == s.exitHead)
  }

  ghost predicate Inv(z: Sizes, s: State) {
    z.Valid() && CountsOk(z, s) && IdsOk(s) && SlotsOk(z, s) && BackendOk(z, s) && FlushOk(s) && ExitOk(s)
  }

  lemma InsertKeeps(z: Sizes, s: State, row: OpRow)
    requires Inv(z, s) && Enabled(z, s, Insert(row))
    ensures Inv(z, Step(z, s, Insert(row)))
  {
    var t := Step(z, s, Insert(row));
    forall k | t.sh.tail < k <= t.sh.head ensures t.sh.ring[k % z.buffer] == t.inserted[k - 1] {
      if k < t.sh.head {
        SlotsDiffer(z.buffer, k, t.sh.head);
      }
    }
    assert t.inserted[..Reached(t)] == s.inserted[..Reached(s)];
  }

  lemma WriteKeeps(z: Sizes, s: State)
    requires Inv(z, s) && Enabled(z, s, WriteRow)
    ensures Inv(z, Step(z, s, WriteRow))
  {
    var t, k := Step(z, s, WriteRow), s.pc.next;
    assert s.sh.ring[k % z.buffer] == s.inserted[k - 1];
    assert t.main + t.temp == (s.main + s.temp) + [s.inserted[k - 1]];
    assert s.inserted[..k] == s.inserted[..k - 1] + [s.inserted[k - 1]];
  }

  /** What the worker's pass under the mutex may change. */
  lemma ResumeChanges(z: Sizes, sh: Shared, pc: Pc)
    requires pc.Start? || pc.Waiting? || pc.Wrote?
    ensures var (to, next) := Resumed(z, sh, pc);
            && to == sh.(flushRequested := to.flushRequested, workerRunning := to.workerRunning)
            && (to.flushRequested || !sh.flushRequested || sh.flushTarget <= sh.tail)
            && (next.ToWrite? || next.Waiting? || next.Exited?)
  {
  }

  lemma ResumeGoesTo(z: Sizes, sh: Shared, pc: Pc)
    requires z.Valid() && sh.tail <= sh.head && sh.flushTarget <= sh.head && (pc.Start? || pc.Waiting? || pc.Wrote?)
    requires (pc == Wrote(FlushLoop) ==> sh.flushRequested) && (pc == Wrote(DrainLoop) ==> sh.done)
    requires !sh.flushRequested ==> sh.flushTarget <= sh.tail
    ensures var (to, next) := Resumed(z, sh, pc);
            && (next.ToWrite? ==> sh.tail < sh.head)
            && (next == ToWrite(FlushLoop) ==> to.flushRequested && sh.tail < sh.flushTarget)
            && (next == ToWrite(DrainLoop) ==> sh.done)
            && (next.Exited? ==> sh.done && sh.head == sh.tail)
            && (to.flushRequested ==> sh.flushRequested)
  {
  }

  lemma ResumeKeeps(z: Sizes, s: State)
    requires Inv(z, s) && Enabled(z, s, Resume)
    ensures Inv(z, Step(z, s, Resume))
  {
    hide Resumed;
    ResumeChanges(z, s.sh, s.pc);
    ResumeGoesTo(z, s.sh, s.pc);
  }

  lemma TakeKeeps(z: Sizes, s: State)
    requires Inv(z, s) && Enabled(z, s, Take)
    ensures Inv(z, Step(z, s, Take))
  {
  }

  lemma EndWriteKeeps(z: Sizes, s: State)
    requires Inv(z, s) && Enabled(z, s, EndWrite)
    ensures Inv(z, Step(z, s, EndWrite))
  {
  }

  lemma MoveKeeps(z: Sizes, s: State, a: Action)
    requires Inv(z, s) && Enabled(z, s, a) && (a.EndFlush? || a.EndFinalize?)
    ensures Inv(z, Step(z, s, a))
  {
    assert s.main + s.temp + [] == s.main + s.temp;
  }

  lemma AskKeeps(z: Sizes, s: State, a: Action)
    requires Inv(z, s) && Enabled(z, s, a) && (a.BeginFlush? || a.BeginFinalize?)
    ensures Inv(z, Step(z, s, a))
  {
  }

  lemma StepKeeps(z: Sizes, s: State, a: Action)
    requires Inv(z, s) && Enabled(z, s, a)
    ensures Inv(z, Step(z, s, a))
  {
    hide Inv, Step;
    match a
    case Insert(row) => InsertKeeps(z, s, row);
    case Resume => ResumeKeeps(z, s);
    case Take => TakeKeeps(z, s);
    case WriteRow => WriteKeeps(z, s);
    case EndWrite => EndWriteKeeps(z, s);
    case EndFlush(who) => MoveKeeps(z, s, a);
    case EndFinalize => MoveKeeps(z, s, a);
    case _ => AskKeeps(z, s, a);
  }

  /** Safety of the ring over every run. */
  lemma {:induction false} RunKeeps(z: Sizes, states: seq<State>, acts: seq<Action>, i: nat)
    requires IsRun(z, states, acts) && i < |states|
    ensures Inv(z, states[i])
  {
    if i > 0 {
      RunKeeps(z, states, acts, i - 1);
      StepKeeps(z, states[i - 1], acts[i - 1]);
    }
  }

  // ---- what callers rely on --------------------------------------------

  /** The backend sees every inserted row exactly once, in insertion order,
      under its own id; the ring never overflows. */
  lemma BackendIsHistory(z: Sizes, states: seq<State>, acts: seq<Action>, i: nat)
    requires IsRun(z, states, acts) && i < |states|
    ensures var s := states[i];
            && 0 <= s.sh.head - s.sh.tail <= z.buffer
            && s.main + s.temp <= s.inserted && |s.main + s.temp| >= s.sh.tail
            && |s.inserted| == s.sh.head
            && (forall k :: 0 <= k < |s.inserted| ==> s.inserted[k].opId == k + 1)
  {
    RunKeeps(z, states, acts, i);
  }

  /** An inserter never reuses a slot the worker still has to read. */
  lemma BatchNotOverwritten(z: Sizes, states: seq<State>, acts: seq<Action>, i: nat, k: nat)
    requires IsRun(z, states, acts) && i < |acts| && acts[i].Insert?
    requires states[i].pc.Writing? && states[i].pc.next <= k <= states[i].pc.end
    ensures |states[i].sh.ring| == |states[i + 1].sh.ring| == z.buffer
    ensures states[i + 1].sh.ring[k % z.buffer] == states[i].sh.ring[k % z.buffer]
  {
    RunKeeps(z, states, acts, i);
    SlotsDiffer(z.buffer, k, states[i].sh.head + 1);
  }

  lemma {:induction false} HistoryGrows(z: Sizes, states: seq<State>, acts: seq<Action>, i: nat, j: nat)
    requires IsRun(z, states, acts) && i <= j < |states|
    ensures states[i].inserted <= states[j].inserted
  {
    if i < j {
      HistoryGrows(z, states, acts, i, j - 1);
      assert states[j] == Step(z, states[j - 1], acts[j - 1]);
    }
  }

  /** From its start until its end a flush keeps its target. */
  lemma {:induction false} TargetStays(z: Sizes, states: seq<State>, acts: seq<Action>, i: nat, j: nat, who: int)
    requires IsRun(z, states, acts) && i < j < |states| && acts[i] == BeginFlush(who)
    requires forall k :: i < k < j ==> acts[k] != EndFlush(who)
    ensures who in states[j].waiting && states[j].waiting[who] == |states[i].inserted|
  {
    if j == i + 1 {
      RunKeeps(z, states, acts, i);
    } else {
      TargetStays(z, states, acts, i, j - 1, who);
      assert states[j] == Step(z, states[j - 1], acts[j - 1]);
    }
  }

  /** The flush barrier: when a flush() that began at i ends at j, every row
      inserted before it began is in the main table, in order. */
  lemma FlushBarrier(z: Sizes, states: seq<State>, acts: seq<Action>, i: nat, j: nat, who: int)
    requires IsRun(z, states, acts) && i < j < |acts|
    requires acts[i] == BeginFlush(who) && acts[j] == EndFlush(who)
    requires forall k :: i < k < j ==> acts[k] != EndFlush(who)
    ensures states[i].inserted <= states[j + 1].main
  {
    TargetStays(z, states, acts, i, j, who);
    RunKeeps(z, states, acts, j);
    HistoryGrows(z, states, acts, i, j);
    var s := states[j];
    assert states[j + 1].main == s.inserted[..Reached(s)];
  }

  /** When the worker leaves, nothing is left to write, and the finalizer then
      puts all of it into the main table. */
  lemma ExitDrains(z: Sizes, states: seq<State>, acts: seq<Action>, i: nat)
    requires IsRun(z, states, acts) && i < |acts|
    ensures acts[i] == Resume && states[i + 1].pc.Exited? ==>
              states[i].sh.done && states[i + 1].sh.head == states[i + 1].sh.tail == states[i + 1].exitHead
    ensures acts[i] == EndFinalize ==>
              && states[i].exitHead <= |states[i].inserted| && !states[i + 1].sh.workerRunning
              && states[i + 1].main == states[i].inserted[..states[i].exitHead]
  {
    RunKeeps(z, states, acts, i);
    RunKeeps(z, states, acts, i + 1);
    assert states[i + 1] == Step(z, states[i], acts[i]);
  }

  /** What tail is once the pass under way has ended. */
  function Committed(s: State): nat {
    if s.pc.Writing? then s.pc.end else s.sh.tail
  }

  /** A pass releases at least one row and at most a batch; no other step moves
      what is committed. */
  lemma StepCommits(z: Sizes, s: State, a: Action)
    requires Inv(z, s) && Enabled(z, s, a)
    ensures a == Take ==> Committed(s) < Committed(Step(z, s, a)) <= Committed(s) + z.batch
    ensures a != Take ==> Committed(Step(z, s, a)) == Committed(s)
  {
    if a == Resume {
      ResumeChanges(z, s.sh, s.pc);
    }
  }

  /** Passes of the flush loop that begin between two moments of a run. */
  function FlushPasses(states: seq<State>, acts: seq<Action>, i: nat, j: nat): nat
    requires i <= j <= |acts| <= |states|
  {
    if i == j then 0
    else FlushPasses(states, acts, i, j - 1)
         + if acts[j - 1] == Take && states[j - 1].pc == ToWrite(FlushLoop) then 1 else 0
  }

  lemma {:induction false} PassesCommit(z: Sizes, states: seq<State>, acts: seq<Action>, i: nat, j: nat)
    requires IsRun(z, states, acts) && i <= j <= |acts|
    ensures FlushPasses(states, acts, i, j) <= Committed(states[j]) - Committed(states[i])
  {
    hide Inv, Enabled, Step;
    if i < j {
      PassesCommit(z, states, acts, i, j - 1);
      RunKeeps(z, states, acts, j - 1);
      StepCommits(z, states[j - 1], acts[j - 1]);
    }
  }

  /** The flush loop ends: as long as no flush asks for more than `target`, at
      most target - tail of its passes begin, whatever inserters, other passes
      and other flushers do meanwhile. */
  lemma {:induction false} FlushLoopIsBounded(z: Sizes, states: seq<State>, acts: seq<Action>, i: nat, j: nat,
                                              target: nat)
    requires IsRun(z, states, acts) && i <= j <= |acts|
    requires forall k :: i <= k < j ==> states[k].sh.flushTarget <= target
    ensures FlushPasses(states, acts, i, j) == 0
            || FlushPasses(states, acts, i, j) <= target - Committed(states[i]) <= target - states[i].sh.tail
  {
    hide Inv, Initial, Enabled, Step, Committed;
    RunKeeps(z, states, acts, i);
    CommittedBounds(z, states[i]);
    if i < j {
      FlushLoopIsBounded(z, states, acts, i, j - 1, target);
      if acts[j - 1] == Take && states[j - 1].pc == ToWrite(FlushLoop) {
        PassesCommit(z, states, acts, i, j - 1);
        RunKeeps(z, states, acts, j - 1);
        CommittedBounds(z, states[j - 1]);
      }
    }
  }

  lemma CommittedBounds(z: Sizes, s: State)
    requires Inv(z, s)
    ensures s.sh.tail <= Committed(s)
    ensures s.pc == ToWrite(FlushLoop) ==> Committed(s) < s.sh.flushTarget
  {
  }

  // ---- when the worker sleeps ------------------------------------------

  predicate FullBatch(z: Sizes, sh: Shared) {
    sh.head - sh.tail >= z.batch
  }

  /** Where the worker goes when it takes the mutex: to wait exactly when it is not
      to stop, no flush needs rows and, unless it returns from the flush loop, no
      full batch is pending. */
  lemma WaitsIff(z: Sizes, s: State)
    requires Inv(z, s) && Enabled(z, s, Resume)
    ensures Step(z, s, Resume).pc.Waiting?
            <==> !s.sh.done && s.sh.flushTarget <= s.sh.tail && (s.pc == Wrote(FlushLoop) || !FullBatch(z, s.sh))
  {
    hide SlotsOk, BackendOk, IdsOk;
  }

  /** So in any run the worker never goes to wait with a flush outstanding, and
      with a full batch only from the flush loop. */
  lemma WaitsWithNothingToDo(z: Sizes, states: seq<State>, acts: seq<Action>, i: nat)
    requires IsRun(z, states, acts) && i < |acts| && acts[i] == Resume && states[i + 1].pc.Waiting?
    ensures !states[i + 1].sh.flushRequested && states[i + 1].sh.flushTarget <= states[i + 1].sh.tail
    ensures var s := states[i + 1]; forall who :: who in s.waiting ==> s.waiting[who] <= s.sh.tail
    ensures !states[i + 1].sh.done && !states[i + 1].sh.workerRunning
    ensures FullBatch(z, states[i + 1].sh) ==> states[i].pc == Wrote(FlushLoop)
  {
    RunKeeps(z, states, acts, i);
    RunKeeps(z, states, acts, i + 1);
    WaitsIff(z, states[i]);
    hide Inv;
    WaitingClears(z, states[i].sh, states[i].pc);
    ResumeChanges(z, states[i].sh, states[i].pc);
    assert Inv(z, states[i + 1]) ==> FlushOk(states[i + 1]) by {
      InvHasFlush(z, states[i + 1]);
    }
  }

  lemma InvHasFlush(z: Sizes, s: State)
    requires Inv(z, s)
    ensures FlushOk(s)
  {
  }

  lemma WaitingClears(z: Sizes, sh: Shared, pc: Pc)
    requires pc.Start? || pc.Waiting? || pc.Wrote?
    ensures var (to, next) := Resumed(z, sh, pc);
            next.Waiting? ==> !to.done && !to.workerRunning && (!to.flushRequested || !sh.flushRequested)
  {
  }

  /** An inserter notifies when workerRunning is false: which it is exactly while
      the worker waits, until the finalizer has joined it.  So no insert that
      fills a batch leaves a waiting worker unnotified. */
  lemma {:induction false} RunningIffAwake(z: Sizes, states: seq<State>, acts: seq<Action>, i: nat)
    requires IsRun(z, states, acts) && i < |states|
    ensures states[i].pc.Waiting? ==> !states[i].sh.workerRunning
    ensures !states[i].pc.Waiting? && !states[i].sh.workerRunning ==> states[i].pc.Exited? && states[i].finalizing
  {
    if i > 0 {
      RunningIffAwake(z, states, acts, i - 1);
      RunKeeps(z, states, acts, i - 1);
      RunKeeps(z, states, acts, i);
      hide Inv;
      var s := states[i - 1];
      assert Enabled(z, s, acts[i - 1]) && states[i] == Step(z, s, acts[i - 1]);
      if acts[i - 1] == Resume {
        AwakeAfter(z, s);
      }
    }
  }

  lemma AwakeAfter(z: Sizes, s: State)
    requires z.Valid() && Enabled(z, s, Resume)
    requires !s.pc.Waiting? ==> s.sh.workerRunning
    ensures Step(z, s, Resume).pc.Waiting? <==> !Step(z, s, Resume).sh.workerRunning
  {
  }

  /** The worker's next step. */
  function Due(s: State): Action {
    match s.pc
    case ToWrite(_) => Take
    case Writing(_, next, end) => if next <= end then WriteRow else EndWrite
    case _ => Resume
  }

  /** No one is blocked by a guard the code does not have: until it leaves, the
      worker can make its one next step; an insert waits exactly for a full
      ring, a flush for its flag, and the finalizer for the worker. */
  lemma WhoIsBlocked(z: Sizes, states: seq<State>, acts: seq<Action>, i: nat, who: int, row: OpRow)
    requires IsRun(z, states, acts) && i < |states|
    ensures var s := states[i];
            && (forall a: Action :: a.Resume? || a.Take? || a.WriteRow? || a.EndWrite? ==>
                  (Enabled(z, s, a) <==> !s.pc.Exited? && a == Due(s)))
            && (Enabled(z, s, Insert(row)) <==> s.sh.head - s.sh.tail < z.buffer)
            && (Enabled(z, s, BeginFlush(who)) <==> who !in s.waiting)
            && (Enabled(z, s, EndFlush(who)) <==> who in s.waiting && !s.sh.flushRequested)
            && (Enabled(z, s, EndFinalize) <==> s.finalizing && s.pc.Exited?)
  {
    RunKeeps(z, states, acts, i);
  }

  /** The last thing `who` did about a flush was to begin one. */
  predicate InFlush(acts: seq<Action>, who: int) {
    acts != [] &&
    var last := acts[|acts| - 1];
    if last == BeginFlush(who) then true
    else if last == EndFlush(who) then false
    else InFlush(acts[..|acts| - 1], who)
  }

  /** Exactly those who are in a flush wait for one. */
  lemma {:induction false} WaitingIffInFlush(z: Sizes, states: seq<State>, acts: seq<Action>, i: nat, who: int)
    requires IsRun(z, states, acts) && i < |states|
    ensures who in states[i].waiting <==> InFlush(acts[..i], who)
  {
    if i > 0 {
      WaitingIffInFlush(z, states, acts, i - 1, who);
      assert acts[..i][..i - 1] == acts[..i - 1];
      assert states[i] == Step(z, states[i - 1], acts[i - 1]);
    }
  }

  /** The worker is told to stop exactly from finalize() on. */
  lemma {:induction false} DoneTellsHistory(z: Sizes, states: seq<State>, acts: seq<Action>, i: nat)
    requires IsRun(z, states, acts) && i < |states|
    ensures states[i].sh.done <==> BeginFinalize in acts[..i]
  {
    if i > 0 {
      DoneTellsHistory(z, states, acts, i - 1);
      assert acts[..i] == acts[..i - 1] + [acts[i - 1]];
      assert Enabled(z, states[i - 1], acts[i - 1]) && states[i] == Step(z, states[i - 1], acts[i - 1]);
      if acts[i - 1] == Resume {
        ResumeChanges(z, states[i - 1].sh, states[i - 1].pc);
      }
    }
  }

  /** A flush that is still waiting when the worker leaves never ends. */
  lemma {:induction false} ExitStrandsFlush(z: Sizes, states: seq<State>, acts: seq<Action>, i: nat, j: nat)
    requires IsRun(z, states, acts) && i <= j < |states| && states[i].pc.Exited? && states[i].sh.flushRequested
    ensures states[j].pc.Exited? && states[j].sh.flushRequested
    ensures forall who :: !Enabled(z, states[j], EndFlush(who))
    decreases j
  {
    if i < j {
      ExitStrandsFlush(z, states, acts, i, j - 1);
      assert Enabled(z, states[j - 1], acts[j - 1]) && states[j] == Step(z, states[j - 1], acts[j - 1]);
    }
  }

  /** And that happens: a finalizer that overtakes a flush sends the worker to its
      drain loop, which does not look at the flag. */
  lemma FinalizeStrandsFlush(z: Sizes) returns (states: seq<State>)
    requires z.Valid()
    ensures IsRun(z, states, [BeginFlush(0), BeginFinalize, Resume])
    ensures states[3].pc.Exited? && 0 in states[3].waiting && states[3].sh.flushRequested
  {
    var ring := seq(z.buffer, _ => NO_ROW);
    var s0 := State(Shared(0, 0, ring, false, true, false, 0), Start, map[], false, [], [], [], 0);
    assert Initial(z, s0);
    var s1 := Step(z, s0, BeginFlush(0));
    var s2 := Step(z, s1, BeginFinalize);
    states := [s0, s1, s2, Step(z, s2, Resume)];
  }

  const NO_ROW := OpRow(0, 0, 0, 0, 0, 0, 0, 0, 0)

  /** One row, a flush that asks for it, and two more rows while the worker writes
      the first. */
  const SLEEPY: seq<Action> :=
    [Insert(NO_ROW), BeginFlush(0), Resume, Take, Insert(NO_ROW), Insert(NO_ROW), WriteRow, EndWrite, Resume]

  const SMALL := Sizes(4, 2)
  const EMPTY := State(Shared(0, 0, [NO_ROW, NO_ROW, NO_ROW, NO_ROW], false, true, false, 0), Start, map[], false,
                       [], [], [], 0)

  ghost predicate Leads(s: State, a: Action, t: State) {
    Enabled(SMALL, s, a) && t == Step(SMALL, s, a)
  }

  lemma FirstSteps() returns (s1: State, s2: State, s3: State, s4: State)
    ensures Leads(EMPTY, SLEEPY[0], s1) && Leads(s1, SLEEPY[1], s2) && Leads(s2, SLEEPY[2], s3)
    ensures Leads(s3, SLEEPY[3], s4) && |s4.sh.ring| == 4
    ensures s4 == s4.(sh := Shared(1, 0, s4.sh.ring, false, true, true, 1), pc := Writing(FlushLoop, 1, 1))
  {
    s1 := Step(SMALL, EMPTY, SLEEPY[0]);
    s2 := Step(SMALL, s1, SLEEPY[1]);
    s3 := Step(SMALL, s2, SLEEPY[2]);
    s4 := Step(SMALL, s3, SLEEPY[3]);
  }

  lemma LastSteps(s4: State) returns (s5: State, s6: State, s7: State, s8: State, s9: State)
    requires s4.sh == Shared(1, 0, s4.sh.ring, false, true, true, 1) && |s4.sh.ring| == 4
    requires s4.pc == Writing(FlushLoop, 1, 1)
    ensures Leads(s4, SLEEPY[4], s5) && Leads(s5, SLEEPY[5], s6) && Leads(s6, SLEEPY[6], s7)
    ensures Leads(s7, SLEEPY[7], s8) && Leads(s8, SLEEPY[8], s9)
    ensures s9.pc.Waiting? && FullBatch(SMALL, s9.sh)
  {
    s5 := Step(SMALL, s4, SLEEPY[4]);
    s6 := Step(SMALL, s5, SLEEPY[5]);
    s7 := Step(SMALL, s6, SLEEPY[6]);
    s8 := Step(SMALL, s7, SLEEPY[7]);
    s9 := Step(SMALL, s8, SLEEPY[8]);
  }

  /** And from there it can: rows inserted while a flush is written wait, a full
      batch of them, for a worker that has gone to sleep. */
  lemma SleepsOnFullBatch() returns (z: Sizes, states: seq<State>)
    ensures IsRun(z, states, SLEEPY)
    ensures states[9].pc.Waiting? && FullBatch(z, states[9].sh)
  {
    assert Initial(SMALL, EMPTY);
    var s1, s2, s3, s4 := FirstSteps();
    var s5, s6, s7, s8, s9 := LastSteps(s4);
    hide Enabled, Step, Initial, FullBatch;
    z := SMALL;
    states := [EMPTY, s1, s2, s3, s4, s5, s6, s7, s8, s9];
    assert forall i :: 0 <= i < 9 ==> Leads(states[i], SLEEPY[i], states[i + 1]);
  }
}
