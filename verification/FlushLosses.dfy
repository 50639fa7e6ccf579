/** Which rows a file loses: keyed rows exactly when a key is written twice, and
    in the default mode stack frames exactly when two backends write any
    (rpd_tracer/StackFrameTable.cpp:67-76). */
module FlushLosses {
  import opened Wrappers
  import opened SqlSchema
  import opened CollectedRows
  import opened WriterBackends
  import opened BackendRuns
  import RowCodec

  ghost predicate Quiescent(s: State) {
    forall i :: 0 <= i < |s.backends| ==> s.backends[i].temp.records == []
  }

  // ---- counting --------------------------------------------------------

  lemma {:induction false} CopiesPositive(ws: seq<Written>, w: Written)
    ensures Copies(ws, w) >= 1 <==> w in ws
  {
    if ws != [] {
      var n := |ws| - 1;
      CopiesPositive(ws[..n], w);
      assert ws == ws[..n] + [ws[n]];
    }
  }

  lemma {:induction false} CopiesTwice(ws: seq<Written>, w: Written)
    ensures Copies(ws, w) >= 2 <==> exists i, j :: 0 <= i < j < |ws| && ws[i] == ws[j] == w
  {
    if ws != [] {
      var n := |ws| - 1;
      CopiesTwice(ws[..n], w);
      CopiesPositive(ws[..n], w);
      if Copies(ws, w) >= 2 && Copies(ws[..n], w) < 2 {
        var i :| 0 <= i < n && ws[..n][i] == w;
        assert ws[i] == ws[n] == w;
      }
      if Copies(ws[..n], w) >= 2 {
        var i, j :| 0 <= i < j < n && ws[..n][i] == ws[..n][j] == w;
        assert ws[i] == ws[j] == w;
      }
      if i, j :| 0 <= i < j < |ws| && ws[i] == ws[j] == w {
        if j < n {
          assert ws[..n][i] == ws[..n][j] == w;
        } else {
          assert ws[..n][i] == w;
        }
      }
    }
  }

  lemma HeldPositive(rs: seq<Record>, w: Written)
    ensures Held(rs, w) >= 1 <==> exists i :: 0 <= i < |rs| && rs[i].row == w
  {
    RowsCopies(rs, w);
    CopiesPositive(RowsOf(rs), w);
    if i :| 0 <= i < |rs| && rs[i].row == w {
      assert RowsOf(rs)[i] == w;
    }
    if w in RowsOf(rs) {
      var i :| 0 <= i < |RowsOf(rs)| && RowsOf(rs)[i] == w;
      assert rs[i].row == w;
    }
  }

  lemma HeldTwice(rs: seq<Record>, w: Written) returns (i: nat, j: nat)
    requires Held(rs, w) >= 2
    ensures i < j < |rs| && rs[i].row == rs[j].row == w
  {
    RowsCopies(rs, w);
    CopiesTwice(RowsOf(rs), w);
    i, j :| 0 <= i < j < |RowsOf(rs)| && RowsOf(rs)[i] == RowsOf(rs)[j] == w;
  }

  lemma {:induction false} PendingAtLeast(bs: seq<Backend>, i: nat, w: Written)
    requires i < |bs|
    ensures Pending(bs, w) >= Held(bs[i].temp.records, w)
  {
    if i < |bs| - 1 {
      PendingAtLeast(bs[..|bs| - 1], i, w);
    }
  }

  // ---- keyed rows ------------------------------------------------------

  /** No key is written twice. */
  ghost predicate KeysOnce(ws: seq<Written>) {
    forall i, j :: 0 <= i < j < |ws| && KeyOf(ws[i]).Some? ==> KeyOf(ws[i]) != KeyOf(ws[j])
  }

  ghost predicate OnlyFramesLost(s: State) {
    forall w :: w in s.lost ==> w.table == StackFrame
  }

  /** Two rows with one key, or one row twice. */
  lemma SameKeyTwice(ws: seq<Written>, x: Written, y: Written)
    requires KeyOf(x).Some? && KeyOf(x) == KeyOf(y)
    requires Copies(ws, x) >= 1 && Copies(ws, y) >= 1 && (x == y ==> Copies(ws, x) >= 2)
    ensures !KeysOnce(ws)
  {
    hide KeyOf;
    CopiesPositive(ws, x);
    CopiesPositive(ws, y);
    CopiesTwice(ws, x);
    if x == y {
      var i, j :| 0 <= i < j < |ws| && ws[i] == ws[j] == x;
      assert KeyOf(ws[i]) == KeyOf(ws[j]);
    } else {
      var i :| 0 <= i < |ws| && ws[i] == x;
      var j :| 0 <= j < |ws| && ws[j] == y;
      assert i != j && KeyOf(ws[i]) == KeyOf(ws[j]);
    }
  }

  lemma SameIdSameKey(f: File, i: nat, w: Written)
    requires FileOk(f) && i < |f.records| && KeyOf(w).Some?
    requires f.records[i].row.table == w.table && f.records[i].id == KeyOf(w).value.id
    ensures KeyOf(f.records[i].row) == KeyOf(w)
  {
    KeysTable(w);
    KeysTable(f.records[i].row);
    assert RecordOk(f, f.records[i]);
  }

  lemma WriteLosesIsTwice(states: seq<State>, events: seq<Event>, n: nat)
    requires IsRun(states, events) && n < |events| && events[n].Write?
    requires KeyTaken(Target(states[n], events[n].backend), events[n].row)
    ensures !KeysOnce(WrittenRows(events[..n + 1]))
  {
    var s, w, b := states[n], events[n].row, events[n].backend;
    RunOk(states, events, n);
    TargetOk(s, b);
    var f := Target(s, b);
    var i :| 0 <= i < |f.records| && f.records[i].row.table == w.table && f.records[i].id == KeyOf(w).value.id;
    SameIdSameKey(f, i, w);
    var x := f.records[i].row;
    HeldPositive(f.records, x);
    PendingAtLeast(s.backends, b, x);
    RowsConserved(states, events, n, x);
    WrittenNext(events, n);
    hide KeyOf, Held, Pending, KeyTaken, WrittenRows;
    var before := WrittenRows(events[..n]);
    CopiesNext(before, w, x);
    CopiesNext(before, w, w);
    SameKeyTwice(before + [w], x, w);
  }

  lemma FlushRefusesIsTwice(states: seq<State>, events: seq<Event>, n: nat, b: nat, t: SqlTable)
    requires IsRun(states, events) && n <= |events| && b < |states[n].backends| && PrimaryKey(t).Some?
    requires Refused(states[n].main, OfTable(states[n].backends[b].temp.records, t), t)
    ensures !KeysOnce(WrittenRows(events[..n]))
  {
    var s := states[n];
    var temp := s.backends[b].temp;
    var rs := OfTable(temp.records, t);
    RunOk(states, events, n);
    TargetOk(s, b);
    assert FileOk(temp) && FileOk(s.main);
    OfTableFrom(temp.records, t);
    var a :| 0 <= a < |rs| && Taken(s.main, t, rs[a].id);
    assert rs[a] in temp.records;
    var c :| 0 <= c < |temp.records| && temp.records[c] == rs[a];
    var y := rs[a].row;
    assert RecordOk(temp, temp.records[c]);
    KeysTable(y);
    var i :| 0 <= i < |s.main.records| && s.main.records[i].row.table == t && s.main.records[i].id == rs[a].id;
    SameIdSameKey(s.main, i, y);
    var x := s.main.records[i].row;
    HeldPositive(s.main.records, x);
    HeldPositive(temp.records, y);
    PendingAtLeast(s.backends, b, y);
    RowsConserved(states, events, n, x);
    RowsConserved(states, events, n, y);
    hide KeyOf, Held, Pending, WrittenRows, OfTable, Taken, FileOk;
    SameKeyTwice(WrittenRows(events[..n]), x, y);
  }

  // ---- what a flush loses ----------------------------------------------

  function Waiting(s: State, i: nat, t: SqlTable): seq<Record>
    requires i < |s.backends|
  {
    OfTable(s.backends[i].temp.records, t)
  }

  predicate Refuses(s: State, i: nat, t: SqlTable)
    requires i < |s.backends|
  {
    !s.backends[i].direct && t in Into(s.backends[i].table) && Refused(s.main, Waiting(s, i, t), t)
  }

  lemma DroppedRows(main: File, rs: seq<Record>, t: SqlTable, w: Written)
    ensures w in Dropped(main, rs, t) <==> Refused(main, rs, t) && exists k :: 0 <= k < |rs| && rs[k].row == w
  {
    if k :| 0 <= k < |rs| && rs[k].row == w {
      assert RowsOf(rs)[k] == w;
    }
    if w in RowsOf(rs) {
      var k :| 0 <= k < |RowsOf(rs)| && RowsOf(rs)[k] == w;
      assert rs[k].row == w;
    }
  }

  /** A flush loses a row exactly when it refuses the row's table; its other
      table, if it has two, goes through. */
  lemma FlushLoses(s: State, i: nat, w: Written)
    requires Inv(s) && i < |s.backends|
    ensures w in Flushed(s, i).lost <==>
              w in s.lost || (Refuses(s, i, w.table) && HasRow(Waiting(s, i, w.table), w))
  {
    TargetOk(s, i);
    IntoFacts(s.backends[i].table);
    hide FileOk, Refused, Into, CopyTable, Inv;
    FlushSteps(s, i);
    var ts := Into(s.backends[i].table);
    if !s.backends[i].direct {
      WaitingTable(s, i, ts[0], w);
      DroppedRows(s.main, Waiting(s, i, ts[0]), ts[0], w);
      if |ts| > 1 {
        var one := Copied(s, i, ts[0]);
        WaitingTable(s, i, ts[1], w);
        DroppedRows(one.main, Waiting(s, i, ts[1]), ts[1], w);
        CopyKeepsOthers(s, i, ts[0], ts[1], Waiting(s, i, ts[1]));
      }
    }
  }

  predicate HasRow(rs: seq<Record>, w: Written) {
    exists k :: 0 <= k < |rs| && rs[k].row == w
  }

  lemma WaitingTable(s: State, i: nat, t: SqlTable, w: Written)
    requires i < |s.backends|
    ensures (exists k :: 0 <= k < |Waiting(s, i, t)| && Waiting(s, i, t)[k].row == w)
            <==> w.table == t && HasRow(Waiting(s, i, t), w)
  {
    OfTableFrom(s.backends[i].temp.records, t);
    if k :| 0 <= k < |Waiting(s, i, t)| && Waiting(s, i, t)[k].row == w {
      assert Waiting(s, i, t)[k] in Waiting(s, i, t);
    }
  }

  /** Tables whose ids the main table gives out lose nothing in any run. */
  lemma {:induction false} OthersNeverLost(states: seq<State>, events: seq<Event>, n: nat)
    requires IsRun(states, events) && n <= |events|
    ensures forall w :: w in states[n].lost ==> PrimaryKey(w.table).Some? || w.table == StackFrame
  {
    hide Initial, Enabled, Flushed, KeyTaken, PrimaryKey, Inv;
    if n == 0 {
      NothingLost(states[0]);
    } else {
      OthersNeverLost(states, events, n - 1);
      RunOk(states, events, n - 1);
      var s, e := states[n - 1], events[n - 1];
      forall w | w in states[n].lost ensures PrimaryKey(w.table).Some? || w.table == StackFrame {
        LostAfter(s, e, w);
        if w !in s.lost {
          KeysTable(w);
          FlushCopiesColumns(w.table);
        }
      }
    }
  }

  lemma NothingLost(s: State)
    requires Initial(s)
    ensures s.lost == []
  {
  }

  /** The rows lost after a step. */
  lemma LostAfter(s: State, e: Event, w: Written)
    requires Inv(s) && Enabled(s, e)
    ensures w in Step(s, e).lost <==>
              || w in s.lost
              || (e.Write? && e.row == w && KeyTaken(Target(s, e.backend), w))
              || (e.Flush? && Refuses(s, e.backend, w.table) && HasRow(Waiting(s, e.backend, w.table), w))
    ensures e.Write? && KeyTaken(Target(s, e.backend), e.row) ==> KeyOf(e.row).Some?
    ensures e.Flush? && Refuses(s, e.backend, w.table) ==> CopiesId(w.table)
  {
    hide KeyOf, Flushed, OfTable, Taken;
    match e
    case Write(i, x) =>
    case Flush(i) => FlushLoses(s, i, w);
  }

  // ---- keyed rows, both ways -------------------------------------------

  lemma {:induction false} OnceLosesFramesOnly(states: seq<State>, events: seq<Event>, n: nat)
    requires IsRun(states, events) && n <= |events| && KeysOnce(WrittenRows(events[..n]))
    ensures OnlyFramesLost(states[n])
  {
    hide Initial, Enabled, Step, KeyTaken, PrimaryKey, Inv, KeysOnce, Refuses, HasRow, WrittenRows;
    if n == 0 {
      NothingLost(states[0]);
    } else {
      OncePrefix(events, n - 1);
      OnceLosesFramesOnly(states, events, n - 1);
      RunOk(states, events, n - 1);
      forall w | w in states[n].lost ensures w.table == StackFrame {
        StepLosesFrame(states, events, n - 1, w);
      }
    }
  }

  lemma OncePrefix(events: seq<Event>, n: nat)
    requires n < |events| && KeysOnce(WrittenRows(events[..n + 1]))
    ensures KeysOnce(WrittenRows(events[..n]))
  {
    hide KeyOf;
    WrittenNext(events, n);
    var ws, all := WrittenRows(events[..n]), WrittenRows(events[..n + 1]);
    assert forall i :: 0 <= i < |ws| ==> all[i] == ws[i];
  }

  lemma StepLosesFrame(states: seq<State>, events: seq<Event>, n: nat, w: Written)
    requires IsRun(states, events) && n < |events| && KeysOnce(WrittenRows(events[..n + 1]))
    requires w in states[n + 1].lost && OnlyFramesLost(states[n])
    ensures w.table == StackFrame
  {
    hide Initial, Step, KeyTaken, Inv, KeysOnce, HasRow, WrittenRows, OfTable, Into, Refused;
    RunOk(states, events, n);
    LostAfter(states[n], events[n], w);
    if w !in states[n].lost {
      var e := events[n];
      if e.Write? {
        WriteLosesIsTwice(states, events, n);
      } else {
        FlushCopiesColumns(w.table);
        OncePrefix(events, n);
        if PrimaryKey(w.table).Some? {
          FlushRefusesIsTwice(states, events, n, e.backend, w.table);
        }
      }
    }
  }

  /** A key written twice costs a row once everything has been flushed. */
  lemma TwiceLosesKeyed(states: seq<State>, events: seq<Event>, i: nat, j: nat)
    requires IsRun(states, events) && Quiescent(states[|events|])
    requires i < j < |WrittenRows(events)|
    requires KeyOf(WrittenRows(events)[i]).Some? && KeyOf(WrittenRows(events)[i]) == KeyOf(WrittenRows(events)[j])
    ensures !OnlyFramesLost(states[|events|])
  {
    var s, ws := states[|events|], WrittenRows(events);
    var x, y := ws[i], ws[j];
    assert events[..|events|] == events;
    RunOk(states, events, |events|);
    assert FileOk(s.main);
    RowsConserved(states, events, |events|, x);
    RowsConserved(states, events, |events|, y);
    NonePending(s.backends, x);
    NonePending(s.backends, y);
    CopiesPositive(ws, x);
    CopiesPositive(ws, y);
    CopiesTwice(ws, x);
    CopiesPositive(s.lost, x);
    CopiesPositive(s.lost, y);
    KeyedIsNoFrame(x);
    KeyedIsNoFrame(y);
    TwoRecords(s.main, x, y);
  }

  lemma KeyedIsNoFrame(w: Written)
    ensures KeyOf(w).Some? ==> w.table != StackFrame
  {
  }

  lemma OneRecord(f: File, a: nat, b: nat)
    requires FileOk(f) && a < |f.records| && b < |f.records|
    requires KeyOf(f.records[a].row).Some? && KeyOf(f.records[a].row) == KeyOf(f.records[b].row)
    ensures a == b
  {
    KeysTable(f.records[a].row);
    KeysTable(f.records[b].row);
    hide KeyOf, LastId;
    assert RecordOk(f, f.records[a]) && RecordOk(f, f.records[b]);
  }

  lemma TwoRecords(f: File, x: Written, y: Written)
    requires FileOk(f) && KeyOf(x).Some? && KeyOf(x) == KeyOf(y)
    ensures Held(f.records, x) <= 1
    ensures x != y ==> Held(f.records, x) == 0 || Held(f.records, y) == 0
  {
    hide KeyOf, Held, FileOk;
    if Held(f.records, x) >= 2 {
      var a, b := HeldTwice(f.records, x);
      OneRecord(f, a, b);
    }
    HeldPositive(f.records, x);
    HeldPositive(f.records, y);
    if Held(f.records, x) >= 1 && Held(f.records, y) >= 1 {
      var a :| 0 <= a < |f.records| && f.records[a].row == x;
      var b :| 0 <= b < |f.records| && f.records[b].row == y;
      OneRecord(f, a, b);
    }
  }

  /** Once everything has been flushed, a keyed row has been lost if and only if
      some key was written twice. */
  lemma KeyedLostIffTwice(states: seq<State>, events: seq<Event>)
    requires IsRun(states, events) && Quiescent(states[|events|])
    ensures OnlyFramesLost(states[|events|]) <==> KeysOnce(WrittenRows(events))
  {
    hide OnlyFramesLost, Initial, Step, Enabled, KeyOf, WrittenRows, Quiescent;
    assert events[..|events|] == events;
    if KeysOnce(WrittenRows(events)) {
      OnceLosesFramesOnly(states, events, |events|);
    } else {
      var ws := WrittenRows(events);
      var i, j :| 0 <= i < j < |ws| && KeyOf(ws[i]).Some? && KeyOf(ws[i]) == KeyOf(ws[j]);
      TwiceLosesKeyed(states, events, i, j);
    }
  }
}
