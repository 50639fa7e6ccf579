/** The clock-sync state behind a sequence lock: one writer storing word by
    word, any number of readers loading word by word
    (rpd_tracer/Firefly.cpp:212-221, rpd_tracer/Utility.h:70-87).  Steps are
    sequentially consistent and the sequence number is unbounded. */
module SeqLock {
  import opened Wrappers

  /** The words the lock guards, in the writer's order; referenceTime is a
      timespec and takes two. */
  datatype Clock = Clock(sec: int, nsec: int, offset: int, drift: real)

  datatype Field = Sec | Nsec | Offset | Drift

  function Put(c: Clock, f: Field, u: Clock): Clock {
    match f
    case Sec => c.(sec := u.sec)
    case Nsec => c.(nsec := u.nsec)
    case Offset => c.(offset := u.offset)
    case Drift => c.(drift := u.drift)
  }

  const STORES: seq<Field> := [Sec, Nsec, Offset, Drift]
  const LOADS: seq<Field> := [Offset, Drift, Sec, Nsec]

  datatype Writer = Resting | Storing(update: Clock, base: nat, stored: nat)

  datatype Reader =
    | Entered                                        // before the first test
    | Retrying                                       // before loading the sequence
    | Loading(seqNo: nat, loaded: nat, got: Clock)   // loaded 0..4 of the fields
    | Left(result: Option<Clock>)                    // None: sequence was 0, no sync active

  /** `completed` is the history of finished updates. */
  datatype State = State(sequence: nat, shared: Clock, writer: Writer, readers: map<int, Reader>, completed: seq<Clock>)

  const ZERO := Clock(0, 0, 0, 0.0)
  const INITIAL := State(0, ZERO, Resting, map[], [])

  datatype Action =
    | BeginUpdate(update: Clock)   // fetch_add(1)
    | Store                        // the next field
    | EndUpdate                    // store(sequence + 2)
    | Enter(who: int)
    | Load(who: int)               // the reader's next step

  predicate Enabled(s: State, a: Action) {
    match a
    case BeginUpdate(_) => s.writer.Resting?
    case Store => s.writer.Storing? && s.writer.stored < 4
    case EndUpdate => s.writer.Storing? && s.writer.stored == 4
    case Enter(who) => who !in s.readers || s.readers[who].Left?
    case Load(who) => who in s.readers && !s.readers[who].Left?
  }

  function NextReader(s: State, r: Reader): Reader
    requires !r.Left?
  {
    match r
    case Entered => if s.sequence == 0 then Left(None) else Retrying
    case Retrying => Loading(s.sequence, 0, ZERO)
    case Loading(n, k, got) =>
      if k < 4 then Loading(n, k + 1, Put(got, LOADS[k], s.shared))
      else if n % 2 == 1 || s.sequence != n then Retrying
      else Left(Some(got))
  }

  function Step(s: State, a: Action): State
    requires Enabled(s, a)
  {
    match a
    case BeginUpdate(u) => s.(sequence := s.sequence + 1, writer := Storing(u, s.sequence, 0))
    case Store =>
      s.(shared := Put(s.shared, STORES[s.writer.stored], s.writer.update),
         writer := s.writer.(stored := s.writer.stored + 1))
    case EndUpdate =>
      s.(sequence := s.writer.base + 2, writer := Resting, completed := s.completed + [s.writer.update])
    case Enter(who) => s.(readers := s.readers[who := Entered])
    case Load(who) => s.(readers := s.readers[who := NextReader(s, s.readers[who])])
  }

  ghost predicate IsRun(states: seq<State>, acts: seq<Action>) {
    && |states| == |acts| + 1
    && states[0] == INITIAL
    && forall i :: 0 <= i < |acts| ==> Enabled(states[i], acts[i]) && states[i + 1] == Step(states[i], acts[i])
  }

  // ---- the invariant ---------------------------------------------------

  /** The two agree on the first k fields of an order. */
  predicate Agree(order: seq<Field>, k: nat, a: Clock, b: Clock)
    requires k <= |order|
  {
    forall i :: 0 <= i < k ==> Put(a, order[i], b) == a
  }

  ghost predicate WriterOk(s: State) {
    match s.writer
    case Resting =>
      s.sequence == 2 * |s.completed| && (s.completed != [] ==> s.shared == s.completed[|s.completed| - 1])
    case Storing(u, base, k) =>
      base == 2 * |s.completed| && s.sequence == base + 1 && k <= 4 && Agree(STORES, k, s.shared, u)
  }

  ghost predicate ReaderOk(s: State, r: Reader) {
    match r
    case Entered => true
    case Retrying => s.sequence > 0
    case Loading(n, k, got) =>
      0 < n <= s.sequence && k <= 4 && (n % 2 == 0 && n == s.sequence ==> Agree(LOADS, k, got, s.shared))
    case Left(result) => result.Some? ==> result.value in s.completed
  }

  ghost predicate Inv(s: State) {
    WriterOk(s) && forall who :: who in s.readers ==> ReaderOk(s, s.readers[who])
  }

  lemma AgreeAll(a: Clock, b: Clock)
    ensures Agree(STORES, 4, a, b) <==> a == b
    ensures Agree(LOADS, 4, a, b) <==> a == b
  {
    if Agree(STORES, 4, a, b) {
      assert Put(a, STORES[0], b) == a && Put(a, STORES[1], b) == a;
      assert Put(a, STORES[2], b) == a && Put(a, STORES[3], b) == a;
    }
    if Agree(LOADS, 4, a, b) {
      assert Put(a, LOADS[0], b) == a && Put(a, LOADS[1], b) == a;
      assert Put(a, LOADS[2], b) == a && Put(a, LOADS[3], b) == a;
    }
  }

  lemma AgreeMore(order: seq<Field>, k: nat, a: Clock, b: Clock)
    requires k < |order| && Agree(order, k, a, b)
    ensures Agree(order, k + 1, Put(a, order[k], b), b)
  {
    var c := Put(a, order[k], b);
    forall i | 0 <= i < k + 1 ensures Put(c, order[i], b) == c {
      if i < k {
        assert Put(a, order[i], b) == a;
      }
    }
  }

  lemma LoadKeeps(s: State, r: Reader)
    requires WriterOk(s) && ReaderOk(s, r) && !r.Left?
    ensures ReaderOk(s, NextReader(s, r))
  {
    match r
    case Loading(n, k, got) =>
      if k < 4 {
        if n % 2 == 0 && n == s.sequence {
          AgreeMore(LOADS, k, got, s.shared);
        }
      } else if n % 2 == 0 && s.sequence == n {
        AgreeAll(got, s.shared);
        assert s.writer.Resting?;
      }
    case _ =>
  }

  lemma StepKeeps(s: State, a: Action)
    requires Inv(s) && Enabled(s, a)
    ensures Inv(Step(s, a))
  {
    match a
    case Store => AgreeMore(STORES, s.writer.stored, s.shared, s.writer.update);
    case EndUpdate => AgreeAll(s.shared, s.writer.update);
    case Load(who) => LoadKeeps(s, s.readers[who]);
    case _ =>
  }

  lemma {:induction false} RunKeeps(states: seq<State>, acts: seq<Action>, i: nat)
    requires IsRun(states, acts) && i < |states|
    ensures Inv(states[i])
  {
    if i > 0 {
      RunKeeps(states, acts, i - 1);
      StepKeeps(states[i - 1], acts[i - 1]);
    }
  }

  /** Never torn: a reader that leaves with a value has all four words of one
      completed update. */
  lemma NeverTorn(states: seq<State>, acts: seq<Action>, i: nat, who: int)
    requires IsRun(states, acts) && i < |states|
    requires who in states[i].readers && states[i].readers[who].Left? && states[i].readers[who].result.Some?
    ensures states[i].readers[who].result.value in states[i].completed
  {
    RunKeeps(states, acts, i);
  }

  /** Never stale: it is the update that was completed last when the reader
      made its final check. */
  lemma NeverStale(states: seq<State>, acts: seq<Action>, i: nat, who: int)
    requires IsRun(states, acts) && i < |acts| && acts[i] == Load(who)
    requires states[i + 1].readers[who].Left? && states[i + 1].readers[who].result.Some?
    ensures var done := states[i].completed;
            done != [] && states[i + 1].readers[who].result.value == done[|done| - 1]
  {
    RunKeeps(states, acts, i);
    var s, r := states[i], states[i].readers[who];
    assert r.Loading? && r.loaded == 4;
    AgreeAll(r.got, s.shared);
  }

  /** Sequence 0 means that no update has begun; an even nonzero one that the
      words are those of the last finished update. */
  lemma EvenMeansComplete(states: seq<State>, acts: seq<Action>, i: nat)
    requires IsRun(states, acts) && i < |states|
    ensures var s := states[i];
            && (s.sequence == 0 <==> s.completed == [] && s.writer.Resting?)
            && (s.sequence > 0 && s.sequence % 2 == 0 ==>
                  s.completed != [] && s.shared == s.completed[|s.completed| - 1])
  {
    RunKeeps(states, acts, i);
  }

  // ---- when a reader leaves --------------------------------------------

  /** The fast path: a step of a reader leaves it empty-handed if and only if it
      is the reader's first step and no update has begun. */
  lemma EmptyHandedIffNothingBegun(states: seq<State>, acts: seq<Action>, i: nat, who: int)
    requires IsRun(states, acts) && i < |acts| && acts[i] == Load(who)
    ensures who in states[i].readers && who in states[i + 1].readers
    ensures states[i + 1].readers[who] == Left(None)
            <==> states[i].readers[who].Entered? && states[i].completed == [] && states[i].writer.Resting?
  {
    RunKeeps(states, acts, i);
    assert Enabled(states[i], acts[i]) && states[i + 1] == Step(states[i], acts[i]);
  }

  lemma {:induction false} CompletedGrows(states: seq<State>, acts: seq<Action>, i: nat, j: nat)
    requires IsRun(states, acts) && i <= j < |states|
    ensures states[i].completed <= states[j].completed
    decreases j
  {
    if i < j {
      CompletedGrows(states, acts, i, j - 1);
      assert states[j] == Step(states[j - 1], acts[j - 1]);
    }
  }

  /** It has not left, or with an update that was the last finished one at some
      moment since there were n of them. */
  ghost predicate ReadSince(r: Reader, n: nat, completed: seq<Clock>) {
    r.Left? ==> r.result.Some? && exists k: nat :: n <= k + 1 && k < |completed| && completed[k] == r.result.value
  }

  lemma StillReadSince(r: Reader, n: nat, before: seq<Clock>, after: seq<Clock>)
    requires ReadSince(r, n, before) && before <= after
    ensures ReadSince(r, n, after)
  {
    if r.Left? {
      var k: nat :| n <= k + 1 && k < |before| && before[k] == r.result.value;
      assert after[k] == before[k];
    }
  }

  /** A reader that enters once an update is finished leaves only with a
      finished update, and with none older than that one. */
  lemma {:induction false} ReadsWhatIsFinished(states: seq<State>, acts: seq<Action>, i: nat, j: nat, who: int)
    requires IsRun(states, acts) && i < j < |states| && acts[i] == Enter(who) && states[i].completed != []
    requires forall k :: i < k < j ==> acts[k] != Enter(who)
    ensures who in states[j].readers && ReadSince(states[j].readers[who], |states[i].completed|, states[j].completed)
    decreases j
  {
    hide Inv, ReadSince;
    var n := |states[i].completed|;
    assert states[j] == Step(states[j - 1], acts[j - 1]);
    if j == i + 1 {
      EnteredHasNotLeft(n, states[j].completed);
    } else {
      ReadsWhatIsFinished(states, acts, i, j - 1, who);
      CompletedGrows(states, acts, i, j - 1);
      CompletedGrows(states, acts, j - 1, j);
      if acts[j - 1] == Load(who) {
        EmptyHandedIffNothingBegun(states, acts, j - 1, who);
        if states[j].readers[who].Left? {
          assert states[j].readers[who].result.Some?;
          NeverStale(states, acts, j - 1, who);
          LastIsSince(states[j].readers[who], n, states[j - 1].completed, states[j].completed);
        } else {
          NotLeft(states[j].readers[who], n, states[j].completed);
        }
      } else {
        assert states[j].readers[who] == states[j - 1].readers[who];
        StillReadSince(states[j].readers[who], n, states[j - 1].completed, states[j].completed);
      }
    }
  }

  lemma EnteredHasNotLeft(n: nat, completed: seq<Clock>)
    ensures ReadSince(Entered, n, completed)
  {
  }

  lemma NotLeft(r: Reader, n: nat, completed: seq<Clock>)
    requires !r.Left?
    ensures ReadSince(r, n, completed)
  {
  }

  lemma LastIsSince(r: Reader, n: nat, before: seq<Clock>, after: seq<Clock>)
    requires r.Left? && r.result.Some? && before != [] && before <= after && n <= |before|
    requires r.result.value == before[|before| - 1]
    ensures ReadSince(r, n, after)
  {
    assert after[|before| - 1] == r.result.value;
  }

  // ---- an update -------------------------------------------------------

  function Stores(acts: seq<Action>): nat {
    if acts == [] then 0 else Stores(acts[..|acts| - 1]) + if acts[|acts| - 1].Store? then 1 else 0
  }

  lemma StoresGrow(acts: seq<Action>, i: nat, j: nat)
    requires i < j <= |acts|
    ensures Stores(acts[i..j]) == Stores(acts[i..j - 1]) + if acts[j - 1].Store? then 1 else 0
  {
    assert acts[i..j][..j - 1 - i] == acts[i..j - 1] && acts[i..j][j - 1 - i] == acts[j - 1];
  }

  /** Until its end an update has made as many stores as there were steps for it,
      whatever readers do in between. */
  lemma {:induction false} UpdateGoesOn(states: seq<State>, acts: seq<Action>, i: nat, j: nat)
    requires IsRun(states, acts) && i < j < |states| && acts[i].BeginUpdate?
    requires forall k :: i < k < j ==> acts[k] != EndUpdate
    ensures states[j].writer == Storing(acts[i].update, states[i].sequence, Stores(acts[i + 1..j]))
    ensures states[j].completed == states[i].completed
    decreases j
  {
    hide NextReader, Stores;
    assert Enabled(states[j - 1], acts[j - 1]) && states[j] == Step(states[j - 1], acts[j - 1]);
    if j == i + 1 {
      assert acts[i + 1..j] == [];
      NoStores();
    } else {
      UpdateGoesOn(states, acts, i, j - 1);
      StoresGrow(acts, i + 1, j);
    }
  }

  lemma NoStores()
    ensures Stores([]) == 0
  {
  }

  /** An update can end exactly when its four stores are made, and then its words
      are the shared ones, it is the last finished update and the sequence has
      grown by two. */
  lemma UpdateEnds(states: seq<State>, acts: seq<Action>, i: nat, j: nat)
    requires IsRun(states, acts) && i < j < |states| && acts[i].BeginUpdate?
    requires forall k :: i < k < j ==> acts[k] != EndUpdate
    ensures Enabled(states[j], EndUpdate) <==> Stores(acts[i + 1..j]) == 4
    ensures j < |acts| && acts[j] == EndUpdate ==>
              && states[j + 1].writer.Resting? && states[j + 1].sequence == states[i].sequence + 2
              && states[j + 1].shared == acts[i].update
              && states[j + 1].completed == states[i].completed + [acts[i].update]
  {
    UpdateGoesOn(states, acts, i, j);
    RunKeeps(states, acts, j);
    if j < |acts| && acts[j] == EndUpdate {
      RunKeeps(states, acts, j + 1);
      assert Enabled(states[j], acts[j]) && states[j + 1] == Step(states[j], acts[j]);
    }
  }

  // ---- an undisturbed reader gets through ------------------------------

  /** Loads a reader has made since it last was before loading the sequence. */
  function Passed(r: Reader): nat {
    match r
    case Entered => 0
    case Retrying => 0
    case Loading(_, k, _) => 1 + k
    case Left(_) => 6
  }

  /** Its next loads match the sequence it has seen. */
  predicate OnTrack(s: State, r: Reader) {
    && s.writer.Resting? && s.sequence % 2 == 0 && !r.Entered?
    && (r.Loading? ==> r.seqNo == s.sequence && r.loaded <= 4)
  }

  lemma OneLoad(s: State, r: Reader)
    requires OnTrack(s, r) && !r.Left?
    ensures OnTrack(s, NextReader(s, r)) && Passed(NextReader(s, r)) == Passed(r) + 1
  {
  }

  function Loads(acts: seq<Action>, who: int): nat {
    if acts == [] then 0 else Loads(acts[..|acts| - 1], who) + if acts[|acts| - 1] == Load(who) then 1 else 0
  }

  lemma LoadsGrow(acts: seq<Action>, who: int, i: nat, j: nat)
    requires i < j <= |acts|
    ensures Loads(acts[i..j], who) == Loads(acts[i..j - 1], who) + if acts[j - 1] == Load(who) then 1 else 0
  {
    assert acts[i..j][..j - 1 - i] == acts[i..j - 1] && acts[i..j][j - 1 - i] == acts[j - 1];
  }

  /** Nothing but steps of readers, and this one does not start over. */
  ghost predicate Undisturbed(acts: seq<Action>, who: int, i: nat, j: nat)
    requires i <= j <= |acts|
  {
    forall k :: i <= k < j ==> acts[k].Load? || (acts[k].Enter? && acts[k].who != who)
  }

  /** A step of a reader, seen by the reader `who`. */
  lemma ReaderStep(s: State, a: Action, who: int)
    requires Enabled(s, a) && (a.Load? || (a.Enter? && a.who != who)) && who in s.readers && OnTrack(s, s.readers[who])
    ensures var t := Step(s, a);
            && t.completed == s.completed && who in t.readers && OnTrack(t, t.readers[who])
            && Passed(t.readers[who]) == Passed(s.readers[who]) + (if a == Load(who) then 1 else 0)
            && (s.readers[who].Left? ==> t.readers[who] == s.readers[who])
  {
    hide NextReader, Passed;
    if a == Load(who) {
      OneLoad(s, s.readers[who]);
    }
    assert forall r :: OnTrack(s, r) <==> OnTrack(Step(s, a), r);
  }

  /** Retries end: with the writer resting, six steps of the reader's own take it
      from loading the sequence to leaving with the last finished update,
      however other readers' steps fall in between. */
  lemma {:induction false} UndisturbedLeaves(states: seq<State>, acts: seq<Action>, who: int, i: nat, j: nat)
    requires IsRun(states, acts) && i <= j < |states| && Undisturbed(acts, who, i, j)
    requires who in states[i].readers && states[i].readers[who].Retrying? && states[i].writer.Resting?
    ensures who in states[j].readers && OnTrack(states[j], states[j].readers[who])
    ensures states[j].completed == states[i].completed != []
    ensures Passed(states[j].readers[who]) == Loads(acts[i..j], who)
    ensures states[j].readers[who].Left? <==> Loads(acts[i..j], who) == 6
    ensures Loads(acts[i..j], who) == 6 ==>
              var done := states[j].completed; states[j].readers[who] == Left(Some(done[|done| - 1]))
    decreases j
  {
    hide Inv, OnTrack, Passed, Step, Enabled, Loads;
    if i == j {
      StartOnTrack(states, acts, i, who);
    } else {
      UndisturbedLeaves(states, acts, who, i, j - 1);
      LoadsGrow(acts, who, i, j);
      ReaderStep(states[j - 1], acts[j - 1], who);
      LeftAtSix(states[j], states[j].readers[who]);
      if states[j].readers[who].Left? && !states[j - 1].readers[who].Left? {
        LeavesWithLast(states, acts, j - 1, who);
      }
    }
  }

  lemma LeftAtSix(s: State, r: Reader)
    requires OnTrack(s, r)
    ensures r.Left? <==> Passed(r) == 6
  {
  }

  lemma LeavesWithLast(states: seq<State>, acts: seq<Action>, i: nat, who: int)
    requires IsRun(states, acts) && i < |acts| && states[i].completed != []
    requires who in states[i].readers && !states[i].readers[who].Left?
    requires who in states[i + 1].readers && states[i + 1].readers[who].Left?
    ensures states[i + 1].completed == states[i].completed
    ensures var done := states[i].completed; states[i + 1].readers[who] == Left(Some(done[|done| - 1]))
  {
    assert Enabled(states[i], acts[i]) && states[i + 1] == Step(states[i], acts[i]);
    assert acts[i] == Load(who);
    hide *;
    EmptyHandedIffNothingBegun(states, acts, i, who);
    if states[i + 1].readers[who].result.Some? {
      NeverStale(states, acts, i, who);
    }
  }

  lemma StartOnTrack(states: seq<State>, acts: seq<Action>, i: nat, who: int)
    requires IsRun(states, acts) && i < |states|
    requires who in states[i].readers && states[i].readers[who].Retrying? && states[i].writer.Resting?
    ensures OnTrack(states[i], Retrying) && states[i].completed != []
    ensures Passed(Retrying) == 0 == Loads(acts[i..i], who)
  {
    RunKeeps(states, acts, i);
    assert ReaderOk(states[i], states[i].readers[who]);
  }
}
