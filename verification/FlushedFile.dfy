/** A file written through temporary tables, once everything has been flushed,
    beside the one direct writing gives. */
module FlushedFile {
  import opened Wrappers
  import opened IdSpace
  import opened SqlSchema
  import opened CollectedRows
  import opened FrameNames
  import opened WriterBackends
  import opened BackendRuns
  import opened FlushLosses
  import opened FrameLosses

  // ---- rows as a database ----------------------------------------------

  function InsertAll(db: Db, ws: seq<Written>): Db {
    if ws == [] then db else Insert(InsertAll(db, ws[..|ws| - 1]), ws[|ws| - 1])
  }

  /** A file as the queries see it. */
  function Tables(f: File): Db {
    InsertAll(EMPTY, RowsOf(f.records))
  }

  function Results(sts: seq<Statement>, p: Process, at: Place): seq<Written> {
    if sts == [] then [] else Results(sts[..|sts| - 1], p, at) + [RowOf(sts[|sts| - 1], p, at)]
  }

  /** All rows of some batches, as the insert statements store them. */
  function AllWritten(batches: seq<Batch>): seq<Written> {
    if batches == [] then []
    else
      var b := batches[|batches| - 1];
      AllWritten(batches[..|batches| - 1]) + Results(Statements(b.table, b.rows), b.process, At(b.process))
  }

  lemma InsertAllNext(db: Db, ws: seq<Written>, w: Written)
    ensures InsertAll(db, ws + [w]) == Insert(InsertAll(db, ws), w)
  {
    assert (ws + [w])[..|ws|] == ws;
  }

  lemma {:induction false} ExecuteInserts(db: Db, before: seq<Written>, sts: seq<Statement>, p: Process, at: Place)
    ensures Execute(InsertAll(db, before), sts, p, at) == InsertAll(db, before + Results(sts, p, at))
    decreases |sts|
  {
    hide Insert, RowOf;
    if sts == [] {
      assert before + [] == before;
    } else {
      var n := |sts| - 1;
      ExecuteInserts(db, before, sts[..n], p, at);
      InsertAllNext(db, before + Results(sts[..n], p, at), RowOf(sts[n], p, at));
      assert before + Results(sts, p, at) == before + Results(sts[..n], p, at) + [RowOf(sts[n], p, at)];
    }
  }

  lemma {:induction false} CollectedInserts(batches: seq<Batch>)
    ensures Collected(batches) == InsertAll(EMPTY, AllWritten(batches))
  {
    hide Execute, Statements, Results;
    if batches != [] {
      var n := |batches| - 1;
      var b := batches[n];
      CollectedInserts(batches[..n]);
      ExecuteInserts(EMPTY, AllWritten(batches[..n]), Statements(b.table, b.rows), b.process, At(b.process));
    }
  }

  // ---- what direct writing stores --------------------------------------

  function Unkeyed(ws: seq<Written>): seq<Written> {
    if ws == [] then []
    else Unkeyed(ws[..|ws| - 1]) + if KeyOf(ws[|ws| - 1]).None? then [ws[|ws| - 1]] else []
  }

  lemma {:induction false} LooseInserted(ws: seq<Written>)
    ensures InsertAll(EMPTY, ws).loose == Unkeyed(ws)
  {
    hide KeyOf;
    if ws != [] {
      LooseInserted(ws[..|ws| - 1]);
    }
  }

  lemma {:induction false} UnkeyedCopies(ws: seq<Written>, w: Written)
    requires KeyOf(w).None?
    ensures Copies(Unkeyed(ws), w) == Copies(ws, w)
  {
    hide KeyOf;
    if ws != [] {
      var n := |ws| - 1;
      UnkeyedCopies(ws[..n], w);
      CopiesNext(Unkeyed(ws[..n]), ws[n], w);
      assert Unkeyed(ws[..n]) + [] == Unkeyed(ws[..n]);
    }
  }

  /** The key finds the row that brought it, and no other. */
  ghost predicate Finds(db: Db, ws: seq<Written>, k: Key) {
    && (k in db.keyed ==> db.keyed[k] in ws && KeyOf(db.keyed[k]) == Some(k))
    && (forall w :: w in ws && KeyOf(w) == Some(k) ==> k in db.keyed && db.keyed[k] == w)
  }

  lemma FindsNext(db: Db, ws: seq<Written>, w: Written, k: Key)
    requires Finds(db, ws, k) && Fresh(ws, w)
    ensures Finds(Insert(db, w), ws + [w], k)
  {
    hide KeyOf;
    assert forall x :: x in ws + [w] <==> x in ws || x == w;
    if k in db.keyed {
      var i :| 0 <= i < |ws| && ws[i] == db.keyed[k];
      assert KeyOf(w).Some? ==> KeyOf(ws[i]) != KeyOf(w);
    }
  }

  lemma {:induction false} KeyedInserted(ws: seq<Written>, k: Key)
    requires KeysOnce(ws)
    ensures Finds(InsertAll(EMPTY, ws), ws, k)
  {
    if ws != [] {
      hide *;
      var before, w := ws[..|ws| - 1], ws[|ws| - 1];
      assert before + [w] == ws;
      KeysOnceNext(before, w);
      KeyedInserted(before, k);
      InsertAllNext(EMPTY, before, w);
      FindsNext(InsertAll(EMPTY, before), before, w, k);
    }
  }

  lemma SameKeyed(a: seq<Written>, b: seq<Written>)
    requires KeysOnce(a) && KeysOnce(b) && forall w :: KeyOf(w).Some? ==> (w in a <==> w in b)
    ensures InsertAll(EMPTY, a).keyed == InsertAll(EMPTY, b).keyed
  {
    hide KeyOf, InsertAll, KeysOnce;
    var x, y := InsertAll(EMPTY, a).keyed, InsertAll(EMPTY, b).keyed;
    forall k: Key ensures (k in x <==> k in y) && (k in x ==> x[k] == y[k]) {
      KeyedInserted(a, k);
      KeyedInserted(b, k);
    }
  }

  lemma FileKeysOnce(f: File)
    requires FileOk(f)
    ensures KeysOnce(RowsOf(f.records))
  {
    hide KeyOf, FileOk;
    forall i, j | 0 <= i < j < |RowsOf(f.records)| && KeyOf(RowsOf(f.records)[i]).Some?
      ensures KeyOf(RowsOf(f.records)[i]) != KeyOf(RowsOf(f.records)[j])
    {
      if KeyOf(RowsOf(f.records)[i]) == KeyOf(RowsOf(f.records)[j]) {
        OneRecord(f, i, j);
      }
    }
  }

  // ---- the flushed file ------------------------------------------------

  /** Once everything has been flushed: what is in the file and what is lost is
      what was written. */
  lemma AllAccounted(states: seq<State>, events: seq<Event>, w: Written)
    requires IsRun(states, events) && Quiescent(states[|events|])
    ensures Held(states[|events|].main.records, w) + Copies(states[|events|].lost, w) == Copies(WrittenRows(events), w)
    ensures w in RowsOf(states[|events|].main.records) <==> Held(states[|events|].main.records, w) >= 1
  {
    var s := states[|events|];
    assert events[..|events|] == events;
    RowsConserved(states, events, |events|, w);
    NonePending(s.backends, w);
    RowsCopies(s.main.records, w);
    CopiesPositive(RowsOf(s.main.records), w);
  }

  /** If no key is written twice, and however backends and flushes interleave,
      the keyed tables of the flushed file are those of direct writing. */
  lemma FlushedKeyedIsDirect(states: seq<State>, events: seq<Event>, batches: seq<Batch>)
    requires IsRun(states, events) && Quiescent(states[|events|])
    requires WrittenRows(events) == AllWritten(batches) && KeysOnce(AllWritten(batches))
    ensures Tables(states[|events|].main).keyed == Collected(batches).keyed
  {
    var s := states[|events|];
    RunOk(states, events, |events|);
    FileKeysOnce(s.main);
    KeyedLostIffTwice(states, events);
    hide Initial, Step, Quiescent, KeyOf, InsertAll, RowsOf, WrittenRows, AllWritten, KeysOnce, IsRun;
    forall w: Written | KeyOf(w).Some? ensures w in RowsOf(s.main.records) <==> w in AllWritten(batches) {
      AllAccounted(states, events, w);
      CopiesPositive(AllWritten(batches), w);
      CopiesPositive(s.lost, w);
      KeyedIsNoFrame(w);
    }
    SameKeyed(RowsOf(s.main.records), AllWritten(batches));
    CollectedInserts(batches);
  }

  /** Rows without a key of their own are in the flushed file as often as direct
      writing stores them, for stack frames if and only if none has been lost. */
  lemma FlushedLooseIsDirect(states: seq<State>, events: seq<Event>, batches: seq<Batch>)
    requires IsRun(states, events) && Quiescent(states[|events|]) && WrittenRows(events) == AllWritten(batches)
    ensures var rs, loose := states[|events|].main.records, Collected(batches).loose;
            && (forall w :: KeyOf(w).None? && w.table != StackFrame ==> Held(rs, w) == Copies(loose, w))
            && (!FramesLost(states[|events|])
                <==> forall w: Written :: w.table == StackFrame ==> Held(rs, w) == Copies(loose, w))
  {
    var s, rs, loose := states[|events|], states[|events|].main.records, Collected(batches).loose;
    OthersNeverLost(states, events, |events|);
    hide Initial, Step, Quiescent, KeyOf, Held, Copies, WrittenRows, AllWritten;
    hide Collected, IsRun, PrimaryKey, FramesLost;
    forall w: Written | KeyOf(w).None?
      ensures Held(rs, w) + Copies(s.lost, w) == Copies(loose, w)
      ensures Copies(s.lost, w) == 0 <==> w !in s.lost
      ensures w in s.lost ==> w.table == StackFrame
    {
      AllAccounted(states, events, w);
      CollectedInserts(batches);
      LooseInserted(AllWritten(batches));
      UnkeyedCopies(AllWritten(batches), w);
      CopiesPositive(s.lost, w);
      KeysTable(w);
    }
    forall w: Written | w.table == StackFrame ensures KeyOf(w).None? {
      FrameHasNoKey(w);
    }
    FramesLostMeans(s);
  }

  lemma FramesLostMeans(s: State)
    ensures FramesLost(s) <==> exists w :: w in s.lost && w.table == StackFrame
  {
  }

  /** Joins in the flushed file, as in CollectedRows.JoinsSurviveCollection; and
      the row they start from is there unless it is a frame and frames were lost. */
  lemma JoinsSurviveFlushing(states: seq<State>, events: seq<Event>, batches: seq<Batch>, p: Process, w: Written,
                             path: seq<SqlColumn>)
    requires IsRun(states, events) && Quiescent(states[|events|])
    requires WrittenRows(events) == AllWritten(batches) && KeysOnce(AllWritten(batches))
    requires FitsProcess(p) && FitAll(batches) && IsOwnRow(batches, p, w) && AllWithOffset(w.table, path)
    ensures var file := states[|events|].main;
            && Follow(Tables(file), MovedRow(w, At(p)), path) == MovedOption(Follow(Own(batches, p), w, path), At(p))
            && (w.table != StackFrame || !FramesLost(states[|events|]) ==> MovedRow(w, At(p)) in RowsOf(file.records))
  {
    var s, from := states[|events|], MovedRow(w, At(p));
    FlushedKeyedIsDirect(states, events, batches);
    JoinsSurviveCollection(batches, p, w, path);
    OnlyFramesLostHere(states, events);
    MovedWriter(w, At(p));
    CollectedRowWasWritten(batches, from);
    AllAccounted(states, events, from);
    hide Initial, Step, Quiescent, IsRun, Own, Collected, AllWritten, WrittenRows, MovedRow, Tables, RowsOf, IsOwnRow;
    hide IsCollected, FitAll, KeysOnce, AllWithOffset;
    FollowUsesKeyed(Tables(s.main), Collected(batches), from, path);
    CopiesPositive(WrittenRows(events), from);
    CopiesPositive(s.lost, from);
  }

  lemma OnlyFramesLostHere(states: seq<State>, events: seq<Event>)
    requires IsRun(states, events) && Quiescent(states[|events|]) && KeysOnce(WrittenRows(events))
    ensures OnlyFramesLost(states[|events|])
  {
    KeyedLostIffTwice(states, events);
  }

  lemma {:induction false} InsertedWasWritten(ws: seq<Written>)
    ensures forall w :: w in InsertAll(EMPTY, ws).loose ==> w in ws
    ensures forall k :: k in InsertAll(EMPTY, ws).keyed ==> InsertAll(EMPTY, ws).keyed[k] in ws
  {
    hide KeyOf;
    if ws != [] {
      InsertedWasWritten(ws[..|ws| - 1]);
      assert ws == ws[..|ws| - 1] + [ws[|ws| - 1]];
    }
  }

  lemma CollectedRowWasWritten(batches: seq<Batch>, w: Written)
    requires IsCollected(batches, w)
    ensures w in AllWritten(batches)
  {
    hide InsertAll, AllWritten;
    CollectedInserts(batches);
    InsertedWasWritten(AllWritten(batches));
  }

  lemma {:induction false} FollowUsesKeyed(a: Db, b: Db, w: Written, path: seq<SqlColumn>)
    requires a.keyed == b.keyed
    ensures Follow(a, w, path) == Follow(b, w, path)
    decreases |path|
  {
    hide References, IdIn;
    if path != [] && path[0] in References(w.table) {
      var k := Key(References(w.table)[path[0]], IdIn(w.cells, path[0]));
      if k in a.keyed {
        FollowUsesKeyed(a, b, a.keyed[k], path[1..]);
      }
    }
  }

  /** The name of a frame in the flushed file joins as in direct writing. */
  lemma FlushedFrameNames(states: seq<State>, events: seq<Event>, batches: seq<Batch>, p: Process, frame: Written)
    requires IsRun(states, events) && Quiescent(states[|events|])
    requires WrittenRows(events) == AllWritten(batches) && KeysOnce(AllWritten(batches))
    requires FitsProcess(p) && FitAll(batches) && IsOwnRow(batches, p, frame) && frame.table == StackFrame
    ensures var db, from := Tables(states[|events|].main), MovedRow(frame, At(p));
            && NameText(db, from) == NameText(Own(batches, FIRST), frame)
            && (NameText(db, from) == NameText(Own(batches, p), frame)
                <==> p == FIRST || NameText(Own(batches, FIRST), frame) == NameText(Own(batches, p), frame))
  {
    FlushedKeyedIsDirect(states, events, batches);
    FrameNamesAreUnshifted(batches, p, frame);
    hide Initial, Step, Quiescent, IsRun, Own, Collected, AllWritten, WrittenRows, MovedRow, Tables, IsOwnRow;
    FollowUsesKeyed(Tables(states[|events|].main), Collected(batches), MovedRow(frame, At(p)), [NameId]);
  }

  // ---- keys once, process by process -----------------------------------

  lemma KeysOnceNext(ws: seq<Written>, w: Written)
    ensures KeysOnce(ws + [w]) <==> KeysOnce(ws) && Fresh(ws, w)
  {
    hide KeyOf;
    var all := ws + [w];
    assert forall i :: 0 <= i < |ws| ==> all[i] == ws[i];
    if KeysOnce(all) && KeyOf(w).Some? {
      forall i | 0 <= i < |ws| ensures KeyOf(ws[i]) != KeyOf(w) {
        assert KeyOf(all[i]).Some? ==> KeyOf(all[i]) != KeyOf(all[|ws|]);
      }
    }
  }

  /** Keys of different processes never meet. */
  lemma ProperKeysApart(a: Written, b: Written)
    requires Proper(a) && Proper(b) && a.writer != b.writer && KeyOf(a).Some?
    ensures KeyOf(a) != KeyOf(b)
  {
    var x :| RowFits(x, a.writer) && a == MovedRow(x, At(a.writer));
    var y :| RowFits(y, b.writer) && b == MovedRow(y, At(b.writer));
    hide KeyOf, LinksFit, MovedRow;
    KeyMoves(x, At(a.writer));
    KeyMoves(y, At(b.writer));
    if KeyOf(b).Some? {
      KeysNeverCollide(KeyOf(x).value.id, a.writer, KeyOf(y).value.id, b.writer);
    }
  }

  /** No process writes a key twice. */
  ghost predicate EachOnce(ws: seq<Written>) {
    forall p :: KeysOnce(Of(ws, p))
  }

  /** No key is written twice if and only if no process writes one twice. */
  lemma {:induction false} OnceIffEachOnce(ws: seq<Written>)
    requires forall w :: w in ws ==> Proper(w)
    ensures KeysOnce(ws) <==> EachOnce(ws)
  {
    hide KeyOf, KeysOnce, Proper, Of, Fresh, EachOnce;
    if ws == [] {
      NoKeys();
    } else {
      var n := |ws| - 1;
      assert ws == ws[..n] + [ws[n]];
      OnceIffEachOnce(ws[..n]);
      KeysOnceNext(ws[..n], ws[n]);
      EachOnceNext(ws[..n], ws[n]);
      FreshIffOwnFresh(ws[..n], ws[n]);
    }
  }

  lemma EachOnceNext(before: seq<Written>, w: Written)
    ensures EachOnce(before + [w]) <==> EachOnce(before) && Fresh(Of(before, w.writer), w)
  {
    hide KeyOf, KeysOnce, Of, Fresh;
    forall p ensures KeysOnce(Of(before + [w], p))
                     <==> KeysOnce(Of(before, p)) && (w.writer == p ==> Fresh(Of(before, p), w))
    {
      OwnNext(before, w, p);
    }
    if EachOnce(before + [w]) {
      forall p ensures KeysOnce(Of(before, p)) {
        assert KeysOnce(Of(before + [w], p));
      }
      assert KeysOnce(Of(before + [w], w.writer));
    }
  }

  lemma OwnNext(before: seq<Written>, w: Written, p: Process)
    ensures KeysOnce(Of(before + [w], p))
            <==> KeysOnce(Of(before, p)) && (w.writer == p ==> Fresh(Of(before, p), w))
  {
    hide KeyOf, KeysOnce, Fresh, Of;
    OfNext(before, w, p);
    KeysOnceNext(Of(before, p), w);
  }

  ghost predicate Fresh(ws: seq<Written>, w: Written) {
    KeyOf(w).Some? ==> forall i :: 0 <= i < |ws| ==> KeyOf(ws[i]) != KeyOf(w)
  }

  lemma FreshIffOwnFresh(ws: seq<Written>, w: Written)
    requires Proper(w) && forall x :: x in ws ==> Proper(x)
    ensures Fresh(ws, w) <==> Fresh(Of(ws, w.writer), w)
  {
    hide KeyOf, Proper;
    OfMembers(ws, w.writer);
    var own := Of(ws, w.writer);
    if Fresh(ws, w) && KeyOf(w).Some? {
      forall i | 0 <= i < |own| ensures KeyOf(own[i]) != KeyOf(w) {
        assert own[i] in ws;
      }
    }
    if Fresh(own, w) && KeyOf(w).Some? {
      forall i | 0 <= i < |ws| ensures KeyOf(ws[i]) != KeyOf(w) {
        if ws[i].writer == w.writer {
          assert ws[i] in own;
        } else {
          ProperKeysApart(w, ws[i]);
        }
      }
    }
  }

  lemma NoKeys()
    ensures KeysOnce([]) && EachOnce([])
  {
  }

  lemma {:induction false} WrittenProper(batches: seq<Batch>)
    requires FitAll(batches)
    ensures forall w :: w in AllWritten(batches) ==> Proper(w)
  {
    hide Statements, Results, FitsStatement, Proper;
    if batches != [] {
      var n := |batches| - 1;
      var b := batches[n];
      assert FitsBatch(batches[n]) && FitAll(batches[..n]);
      WrittenProper(batches[..n]);
      ResultsProper(Statements(b.table, b.rows), b.process);
    }
  }

  lemma {:induction false} ResultsProper(sts: seq<Statement>, p: Process)
    requires FitsProcess(p) && forall st :: st in sts ==> FitsStatement(st)
    ensures forall w :: w in Results(sts, p, At(p)) ==> Proper(w)
  {
    hide LinksFit, Stored, MovedRow;
    if sts != [] {
      var n := |sts| - 1;
      assert sts[n] in sts;
      ResultsProper(sts[..n], p);
      RowOfMoves(sts[n], p, At(p));
      assert RowFits(RowOf(sts[n], p, HOME), p);
      assert Proper(RowOf(sts[n], p, At(p)));
    }
  }

  /** The condition, process by process, for the batches of any number of them. */
  lemma BatchesOnceIffEachOnce(batches: seq<Batch>)
    requires FitAll(batches)
    ensures KeysOnce(AllWritten(batches)) <==> EachOnce(AllWritten(batches))
  {
    WrittenProper(batches);
    OnceIffEachOnce(AllWritten(batches));
  }
}
