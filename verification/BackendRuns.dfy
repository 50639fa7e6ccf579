/** What is lost, and what is not, on the way through the backends of a file. */
module BackendRuns {
  import opened Wrappers
  import opened Sequences
  import opened SqlSchema
  import opened CollectedRows
  import opened WriterBackends
  import RowCodec

  // ---- one table -------------------------------------------------------

  /** Primary keys are unique, at most `last`, and those that rows bring. */
  ghost predicate FileOk(f: File) {
    && (forall i, j :: 0 <= i < j < |f.records| && f.records[i].row.table == f.records[j].row.table
                       ==> f.records[i].id != f.records[j].id)
    && (forall i :: 0 <= i < |f.records| ==> RecordOk(f, f.records[i]))
  }

  predicate RecordOk(f: File, r: Record) {
    r.id <= LastId(f, r.row.table) && (KeyOf(r.row).Some? ==> KeyOf(r.row).value == Key(r.row.table, r.id))
  }

  lemma KeysTable(w: Written)
    ensures KeyOf(w).Some? <==> PrimaryKey(w.table).Some?
    ensures KeyOf(w).Some? ==> KeyOf(w).value.table == w.table
  {
  }

  lemma LastAfter(f: File, id: int, w: Written, t: SqlTable)
    ensures LastId(Append(f, id, w), t)
            == if t == w.table && id > LastId(f, t) then id else LastId(f, t)
  {
  }

  lemma AppendOk(f: File, id: int, w: Written)
    requires FileOk(f) && !Taken(f, w.table, id)
    requires KeyOf(w).Some? ==> KeyOf(w).value.id == id
    ensures FileOk(Append(f, id, w))
  {
    hide KeyOf, LastId;
    KeysTable(w);
    forall t
      ensures LastId(f, t) <= LastId(Append(f, id, w), t)
      ensures t == w.table ==> id <= LastId(Append(f, id, w), t)
    {
      LastAfter(f, id, w, t);
    }
    var g := Append(f, id, w);
    forall i | 0 <= i < |g.records| ensures RecordOk(g, g.records[i]) {
      if i < |f.records| {
        assert RecordOk(f, f.records[i]);
      }
    }
  }

  lemma NextIsFree(f: File, t: SqlTable)
    requires FileOk(f)
    ensures !Taken(f, t, LastId(f, t) + 1)
  {
    forall i | 0 <= i < |f.records| ensures f.records[i].row.table == t ==> f.records[i].id != LastId(f, t) + 1 {
      assert RecordOk(f, f.records[i]);
    }
  }

  lemma TakenAfter(f: File, id: int, w: Written, t: SqlTable, other: int)
    ensures Taken(Append(f, id, w), t, other) <==> Taken(f, t, other) || (t == w.table && id == other)
  {
    var g := Append(f, id, w);
    if Taken(f, t, other) {
      var i :| 0 <= i < |f.records| && f.records[i].row.table == t && f.records[i].id == other;
      assert g.records[i] == f.records[i];
    }
    assert g.records[|f.records|] == Record(id, w);
  }

  /** Records of one table, as a temporary table holds them. */
  ghost predicate Copyable(rs: seq<Record>, t: SqlTable) {
    && (forall i :: 0 <= i < |rs| ==> rs[i].row.table == t)
    && (forall i :: 0 <= i < |rs| ==> KeyOf(rs[i].row).Some? ==> KeyOf(rs[i].row).value.id == rs[i].id)
    && (forall i, j :: 0 <= i < j < |rs| ==> rs[i].id != rs[j].id)
  }

  lemma {:induction false} AppendAllOk(main: File, rs: seq<Record>, t: SqlTable)
    requires FileOk(main) && Copyable(rs, t) && !Refused(main, rs, t)
    ensures FileOk(AppendAll(main, rs, t))
    ensures forall u, id :: CopiesId(t) ==>
              (Taken(AppendAll(main, rs, t), u, id)
               <==> Taken(main, u, id) || (u == t && exists i :: 0 <= i < |rs| && rs[i].id == id))
    ensures forall u :: u != t ==> LastId(AppendAll(main, rs, t), u) == LastId(main, u)
    ensures forall u, id :: u != t ==> (Taken(AppendAll(main, rs, t), u, id) <==> Taken(main, u, id))
    decreases |rs|
  {
    hide FileOk, Taken, KeyOf, Append, LastId, CopiesId;
    if rs != [] {
      var n := |rs| - 1;
      assert !Refused(main, rs[..n], t) && Copyable(rs[..n], t);
      AppendAllOk(main, rs[..n], t);
      var sofar, w := AppendAll(main, rs[..n], t), rs[n].row;
      var id := if CopiesId(t) then rs[n].id else LastId(sofar, t) + 1;
      NextIsFree(sofar, t);
      KeyedCopiesId(w);
      AppendOk(sofar, id, w);
      forall u, x ensures Taken(Append(sofar, id, w), u, x) <==> Taken(sofar, u, x) || (u == t && id == x) {
        TakenAfter(sofar, id, w, u, x);
      }
      forall u ensures u != t ==> LastId(Append(sofar, id, w), u) == LastId(sofar, u) {
        LastAfter(sofar, id, w, u);
      }
      assert rs == rs[..n] + [rs[n]];
    }
  }

  lemma KeyedCopiesId(w: Written)
    ensures KeyOf(w).Some? ==> CopiesId(w.table)
  {
    KeysTable(w);
    FlushCopiesColumns(w.table);
  }

  // ---- conservation ----------------------------------------------------

  /** How often a row stands in some records, and in some rows. */
  function Held(rs: seq<Record>, w: Written): nat {
    if rs == [] then 0 else Held(rs[..|rs| - 1], w) + if rs[|rs| - 1].row == w then 1 else 0
  }

  function Copies(ws: seq<Written>, w: Written): nat {
    if ws == [] then 0 else Copies(ws[..|ws| - 1], w) + if ws[|ws| - 1] == w then 1 else 0
  }

  lemma HeldNext(rs: seq<Record>, r: Record, w: Written)
    ensures Held(rs + [r], w) == Held(rs, w) + if r.row == w then 1 else 0
  {
    assert (rs + [r])[..|rs|] == rs;
  }

  lemma CopiesNext(ws: seq<Written>, x: Written, w: Written)
    ensures Copies(ws + [x], w) == Copies(ws, w) + if x == w then 1 else 0
  {
    assert (ws + [x])[..|ws|] == ws;
  }

  lemma {:induction false} CopiesConcat(a: seq<Written>, b: seq<Written>, w: Written)
    ensures Copies(a + b, w) == Copies(a, w) + Copies(b, w)
  {
    if b == [] {
      assert a + b == a;
    } else {
      var n := |b| - 1;
      CopiesConcat(a, b[..n], w);
      assert (a + b)[..|a| + n] == a + b[..n];
    }
  }

  lemma {:induction false} RowsCopies(rs: seq<Record>, w: Written)
    ensures Copies(RowsOf(rs), w) == Held(rs, w)
  {
    if rs != [] {
      var n := |rs| - 1;
      RowsCopies(rs[..n], w);
      assert RowsOf(rs)[..n] == RowsOf(rs[..n]);
    }
  }

  lemma {:induction false} AppendAllHeld(main: File, rs: seq<Record>, t: SqlTable, w: Written)
    ensures Held(AppendAll(main, rs, t).records, w) == Held(main.records, w) + Held(rs, w)
    decreases |rs|
  {
    if rs != [] {
      var n := |rs| - 1;
      AppendAllHeld(main, rs[..n], t, w);
      var sofar := AppendAll(main, rs[..n], t);
      var id := if CopiesId(t) then rs[n].id else LastId(sofar, t) + 1;
      assert AppendAll(main, rs, t) == Append(sofar, id, rs[n].row);
      HeldNext(sofar.records, Record(id, rs[n].row), w);
    }
  }

  lemma {:induction false} OfTableFrom(rs: seq<Record>, t: SqlTable)
    ensures forall r :: r in OfTable(rs, t) <==> r in rs && r.row.table == t
  {
    if rs != [] {
      var n := |rs| - 1;
      OfTableFrom(rs[..n], t);
      assert rs == rs[..n] + [rs[n]];
    }
  }

  lemma {:induction false} OfTableFacts(f: File, n: nat, t: SqlTable)
    requires FileOk(f) && n <= |f.records|
    ensures Copyable(OfTable(f.records[..n], t), t)
  {
    hide Copyable, FileOk;
    if n == 0 {
      NothingCopyable(t);
    } else {
      OfTableFacts(f, n - 1, t);
      assert f.records[..n] == f.records[..n - 1] + [f.records[n - 1]];
      OfTableNext(f.records[..n - 1], f.records[n - 1], t);
      if f.records[n - 1].row.table == t {
        OneMoreCopyable(f, n, t);
      }
    }
  }

  lemma OfTableNext(rs: seq<Record>, r: Record, t: SqlTable)
    ensures OfTable(rs + [r], t) == if r.row.table == t then OfTable(rs, t) + [r] else OfTable(rs, t)
  {
    assert (rs + [r])[..|rs|] == rs;
    assert OfTable(rs, t) + [] == OfTable(rs, t);
  }

  lemma NothingCopyable(t: SqlTable)
    ensures Copyable([], t)
  {
  }

  lemma OneMoreCopyable(f: File, n: nat, t: SqlTable)
    requires FileOk(f) && 0 < n <= |f.records| && f.records[n - 1].row.table == t
    requires Copyable(OfTable(f.records[..n - 1], t), t)
    ensures Copyable(OfTable(f.records[..n - 1], t) + [f.records[n - 1]], t)
  {
    hide KeyOf, OfTable;
    var some, r := OfTable(f.records[..n - 1], t), f.records[n - 1];
    OfTableFrom(f.records[..n - 1], t);
    assert RecordOk(f, r);
    forall i | 0 <= i < |some| ensures some[i].id != r.id {
      assert some[i] in f.records[..n - 1];
      var j :| 0 <= j < n - 1 && f.records[j] == some[i];
    }
  }

  predicate Within(rs: seq<Record>, a: SqlTable, b: SqlTable) {
    forall i :: 0 <= i < |rs| ==> rs[i].row.table == a || rs[i].row.table == b
  }

  lemma WithinInit(rs: seq<Record>, a: SqlTable, b: SqlTable)
    requires rs != [] && Within(rs, a, b)
    ensures Within(rs[..|rs| - 1], a, b) && (rs[|rs| - 1].row.table == a || rs[|rs| - 1].row.table == b)
    ensures rs[..|rs| - 1] + [rs[|rs| - 1]] == rs
  {
  }

  lemma {:induction false} OneTable(rs: seq<Record>, a: SqlTable)
    requires Within(rs, a, a)
    ensures OfTable(rs, a) == rs
  {
    if rs != [] {
      hide *;
      WithinInit(rs, a, a);
      OneTable(rs[..|rs| - 1], a);
      OfTableNext(rs[..|rs| - 1], rs[|rs| - 1], a);
    }
  }

  lemma HeldOfTableNext(rs: seq<Record>, r: Record, t: SqlTable, w: Written)
    ensures Held(OfTable(rs + [r], t), w)
            == Held(OfTable(rs, t), w) + if r.row.table == t && r.row == w then 1 else 0
  {
    hide OfTable, Held;
    OfTableNext(rs, r, t);
    HeldNext(OfTable(rs, t), r, w);
  }

  lemma {:induction false} TwoTables(rs: seq<Record>, a: SqlTable, b: SqlTable, w: Written)
    requires a != b && Within(rs, a, b)
    ensures Held(OfTable(rs, a), w) + Held(OfTable(rs, b), w) == Held(rs, w)
  {
    if rs == [] {
      NothingHeld(w);
    } else {
      hide *;
      var before, r := rs[..|rs| - 1], rs[|rs| - 1];
      WithinInit(rs, a, b);
      TwoTables(before, a, b, w);
      HeldOfTableNext(before, r, a, w);
      HeldOfTableNext(before, r, b, w);
      HeldNext(before, r, w);
    }
  }

  ghost predicate BackendOk(b: Backend) {
    && FileOk(b.temp) && (b.direct ==> b.temp.records == [])
    && forall r :: r in b.temp.records ==> r.row.table in Into(b.table)
  }

  ghost predicate Inv(s: State) {
    FileOk(s.main) && forall i :: 0 <= i < |s.backends| ==> BackendOk(s.backends[i])
  }

  /** How often a row waits in temporary tables. */
  function Pending(bs: seq<Backend>, w: Written): nat {
    if bs == [] then 0 else Pending(bs[..|bs| - 1], w) + Held(bs[|bs| - 1].temp.records, w)
  }

  lemma {:induction false} PendingUpdate(bs: seq<Backend>, i: nat, b: Backend, w: Written)
    requires i < |bs|
    ensures Pending(bs[i := b], w) + Held(bs[i].temp.records, w) == Pending(bs, w) + Held(b.temp.records, w)
  {
    hide Held;
    var n := |bs| - 1;
    if i < n {
      PendingUpdate(bs[..n], i, b, w);
      assert bs[i := b][..n] == bs[..n][i := b];
    } else {
      assert bs[i := b][..n] == bs[..n];
    }
  }

  /** How often a row is in the main tables, in temporary ones, and lost. */
  function Total(s: State, w: Written): nat {
    Held(s.main.records, w) + Pending(s.backends, w) + Copies(s.lost, w)
  }

  lemma TempChanges(s: State, i: nat, temp: File, w: Written)
    requires i < |s.backends|
    ensures Total(WithTemp(s, i, temp), w) + Held(s.backends[i].temp.records, w)
            == Total(s, w) + Held(temp.records, w)
  {
    hide Held, Pending, Copies;
    PendingUpdate(s.backends, i, s.backends[i].(temp := temp), w);
  }

  lemma TargetOk(s: State, i: nat)
    requires Inv(s) && i < |s.backends|
    ensures FileOk(Target(s, i)) && BackendOk(s.backends[i])
  {
  }

  lemma AppendedOk(f: File, w: Written)
    requires FileOk(f) && !KeyTaken(f, w)
    ensures FileOk(Append(f, IdFor(f, w), w))
  {
    hide FileOk, Taken, Append, LastId;
    NextIsFree(f, w.table);
    KeysTable(w);
    AppendOk(f, IdFor(f, w), w);
  }

  lemma PutOk(s: State, i: nat, w: Written)
    requires Inv(s) && Enabled(s, Write(i, w))
    ensures Inv(Put(s, i, w))
  {
    hide FileOk, KeyOf, Append, IdFor, KeyTaken;
    var f := Target(s, i);
    TargetOk(s, i);
    if !KeyTaken(f, w) {
      AppendedOk(f, w);
      AppendMembers(f, IdFor(f, w), w);
    }
  }

  lemma PutConserves(s: State, i: nat, w: Written, x: Written)
    requires i < |s.backends|
    ensures Total(Put(s, i, w), x) == Total(s, x) + if w == x then 1 else 0
  {
    hide Held, Pending, Copies, KeyTaken, IdFor;
    var f := Target(s, i);
    if KeyTaken(f, w) {
      CopiesNext(s.lost, w, x);
    } else {
      HeldNext(f.records, Record(IdFor(f, w), w), x);
      if !s.backends[i].direct {
        TempChanges(s, i, Append(f, IdFor(f, w), w), x);
      }
    }
  }

  lemma AppendMembers(f: File, id: int, w: Written)
    ensures forall r :: r in Append(f, id, w).records <==> r in f.records || r == Record(id, w)
  {
  }

  lemma CopyOk(s: State, i: nat, t: SqlTable)
    requires Inv(s) && i < |s.backends|
    ensures Inv(Copied(s, i, t))
  {
    hide FileOk, Copyable;
    var temp := s.backends[i].temp;
    var rs := OfTable(temp.records, t);
    TargetOk(s, i);
    assert FileOk(temp);
    OfTableFacts(temp, |temp.records|, t);
    assert temp.records[..|temp.records|] == temp.records;
    if !Refused(s.main, rs, t) {
      AppendAllOk(s.main, rs, t);
    }
  }

  lemma CopyConserves(s: State, i: nat, t: SqlTable, w: Written)
    requires i < |s.backends|
    ensures Total(Copied(s, i, t), w) == Total(s, w) + Held(OfTable(s.backends[i].temp.records, t), w)
  {
    hide Held, Pending, Copies, Refused, OfTable, RowsOf;
    var rs := OfTable(s.backends[i].temp.records, t);
    AppendAllHeld(s.main, rs, t, w);
    RowsCopies(rs, w);
    CopiesConcat(s.lost, RowsOf(rs), w);
    assert s.lost + [] == s.lost;
  }

  lemma EmptiedOk(s: State, i: nat)
    requires Inv(s) && i < |s.backends|
    ensures Inv(Emptied(s, i))
  {
  }

  lemma IntoFacts(t: RowCodec.Table)
    ensures Into(t) == [Into(t)[0]] || (Into(t) == [Into(t)[0], Into(t)[1]] && Into(t)[0] != Into(t)[1])
  {
  }

  lemma FlushOk(s: State, i: nat)
    requires Inv(s) && i < |s.backends|
    ensures Inv(Flushed(s, i))
  {
    hide Inv, Copied, Emptied, Into;
    var ts, one := Into(s.backends[i].table), Copied(s, i, Into(s.backends[i].table)[0]);
    CopyOk(s, i, ts[0]);
    SameBackends(s, i, ts[0]);
    EmptiedOk(one, i);
    if |ts| > 1 {
      CopyOk(one, i, ts[1]);
      SameBackends(one, i, ts[1]);
      EmptiedOk(Copied(one, i, ts[1]), i);
    }
  }

  lemma SameBackends(s: State, i: nat, t: SqlTable)
    requires i < |s.backends|
    ensures Copied(s, i, t).backends == s.backends
  {
  }

  lemma FlushConserves(s: State, i: nat, w: Written)
    requires Inv(s) && i < |s.backends|
    ensures Total(Flushed(s, i), w) == Total(s, w)
  {
    TargetOk(s, i);
    IntoFacts(s.backends[i].table);
    hide *;
    FlushSteps(s, i);
    var b := s.backends[i];
    var ts := Into(b.table);
    if !b.direct {
      TempParts(s, i, w);
      var one := Copied(s, i, ts[0]);
      SameBackends(s, i, ts[0]);
      CopyConserves(s, i, ts[0], w);
      EmptiedConserves(one, i, w);
      if |ts| > 1 {
        SameBackends(one, i, ts[1]);
        CopyConserves(one, i, ts[1], w);
        EmptiedConserves(Copied(one, i, ts[1]), i, w);
      }
    }
  }

  lemma FlushSteps(s: State, i: nat)
    requires i < |s.backends|
    ensures var ts := Into(s.backends[i].table);
            Flushed(s, i) ==
            if s.backends[i].direct then s
            else if |ts| == 1 then Emptied(Copied(s, i, ts[0]), i)
            else Emptied(Copied(Copied(s, i, ts[0]), i, ts[1]), i)
  {
  }

  /** What a backend's tables hold is what the flush copies in turn. */
  lemma TempParts(s: State, i: nat, w: Written)
    requires Inv(s) && i < |s.backends|
    ensures var rs, ts := s.backends[i].temp.records, Into(s.backends[i].table);
            Held(rs, w) == Held(OfTable(rs, ts[0]), w) + if |ts| > 1 then Held(OfTable(rs, ts[1]), w) else 0
  {
    TargetOk(s, i);
    IntoFacts(s.backends[i].table);
    hide Held, OfTable, Into, FileOk, Inv;
    var rs, ts := s.backends[i].temp.records, Into(s.backends[i].table);
    assert forall k :: 0 <= k < |rs| ==> rs[k] in rs;
    if |ts| == 1 {
      OneTable(rs, ts[0]);
    } else {
      TwoTables(rs, ts[0], ts[1], w);
    }
  }

  lemma EmptiedConserves(s: State, i: nat, w: Written)
    requires i < |s.backends|
    ensures Total(Emptied(s, i), w) + Held(s.backends[i].temp.records, w) == Total(s, w)
  {
    NothingHeld(w);
    hide Held, Total;
    TempChanges(s, i, s.backends[i].temp.(records := []), w);
  }

  lemma NothingHeld(w: Written)
    ensures Held([], w) == 0
  {
  }

  lemma {:induction false} NonePending(bs: seq<Backend>, w: Written)
    requires forall i :: 0 <= i < |bs| ==> bs[i].temp.records == []
    ensures Pending(bs, w) == 0
  {
    if bs != [] {
      NonePending(bs[..|bs| - 1], w);
    }
  }

  lemma InitialOk(s: State)
    requires Initial(s)
    ensures Inv(s) && forall w :: Total(s, w) == 0
  {
    forall w ensures Total(s, w) == 0 {
      NonePending(s.backends, w);
    }
  }

  lemma StepConserves(s: State, e: Event, w: Written)
    requires Inv(s) && Enabled(s, e)
    ensures Inv(Step(s, e)) && Total(Step(s, e), w) == Total(s, w) + if e == Write(e.backend, w) then 1 else 0
  {
    hide Inv, Total, Put, Flushed;
    match e
    case Write(i, x) =>
      PutOk(s, i, x);
      PutConserves(s, i, x, w);
    case Flush(i) =>
      FlushOk(s, i);
      FlushConserves(s, i, w);
  }

  lemma WrittenNext(events: seq<Event>, n: nat)
    requires n < |events|
    ensures WrittenRows(events[..n + 1])
            == WrittenRows(events[..n]) + if events[n].Write? then [events[n].row] else []
  {
    assert events[..n + 1][..n] == events[..n];
  }

  lemma {:induction false} RunOk(states: seq<State>, events: seq<Event>, n: nat)
    requires IsRun(states, events) && n <= |events|
    ensures Inv(states[n])
  {
    hide Inv, Total, Initial, Enabled, Step;
    if n == 0 {
      InitialOk(states[0]);
    } else {
      RunOk(states, events, n - 1);
      StepOk(states[n - 1], events[n - 1]);
    }
  }

  lemma StepOk(s: State, e: Event)
    requires Inv(s) && Enabled(s, e)
    ensures Inv(Step(s, e))
  {
    hide Inv, Put, Flushed;
    match e
    case Write(i, x) => PutOk(s, i, x);
    case Flush(i) => FlushOk(s, i);
  }

  /** Conservation: at every moment of every run each row is in the main tables,
      in temporary ones and lost as often as it was written in all. */
  lemma {:induction false} RowsConserved(states: seq<State>, events: seq<Event>, n: nat, w: Written)
    requires IsRun(states, events) && n <= |events|
    ensures Total(states[n], w) == Copies(WrittenRows(events[..n]), w)
  {
    hide Inv, Total, Initial, Enabled, Step, Copies;
    if n == 0 {
      InitialOk(states[0]);
      assert events[..0] == [];
      NoCopies(w);
    } else {
      RowsConserved(states, events, n - 1, w);
      RunOk(states, events, n - 1);
      StepConserves(states[n - 1], events[n - 1], w);
      WrittenNext(events, n - 1);
      var before := WrittenRows(events[..n - 1]);
      if events[n - 1].Write? {
        CopiesNext(before, events[n - 1].row, w);
      }
      assert before + [] == before;
    }
  }

  lemma NoCopies(w: Written)
    ensures Copies([], w) == 0
  {
  }

  // ---- when a row is lost ----------------------------------------------

  /** The key of an inserted row is taken, or an id that a flush copies. */
  predicate Loses(s: State, e: Event)
    requires Enabled(s, e)
  {
    match e
    case Write(i, w) => KeyTaken(Target(s, i), w)
    case Flush(i) =>
      !s.backends[i].direct
      && exists t :: t in Into(s.backends[i].table) && Refused(s.main, OfTable(s.backends[i].temp.records, t), t)
  }

  lemma DroppedIff(main: File, rs: seq<Record>, t: SqlTable)
    ensures |Dropped(main, rs, t)| > 0 <==> Refused(main, rs, t)
  {
  }

  lemma CopyKeepsOthers(s: State, i: nat, t: SqlTable, u: SqlTable, rs: seq<Record>)
    requires Inv(s) && i < |s.backends| && t != u
    ensures Refused(Copied(s, i, t).main, rs, u) <==> Refused(s.main, rs, u)
  {
    var temp := s.backends[i].temp;
    hide FileOk, Copyable, Taken, RowsOf;
    TargetOk(s, i);
    assert FileOk(temp);
    OfTableFacts(temp, |temp.records|, t);
    assert temp.records[..|temp.records|] == temp.records;
    if !Refused(s.main, OfTable(temp.records, t), t) {
      AppendAllOk(s.main, OfTable(temp.records, t), t);
    }
  }

  /** A step loses rows exactly then. */
  lemma LosesIff(s: State, e: Event)
    requires Inv(s) && Enabled(s, e)
    ensures |Step(s, e).lost| > |s.lost| <==> Loses(s, e)
    ensures s.lost <= Step(s, e).lost
  {
    hide FileOk, Refused, Dropped, CopyTable, OfTable, Into;
    if e.Flush? && !s.backends[e.backend].direct {
      var i, rs := e.backend, s.backends[e.backend].temp.records;
      var ts := Into(s.backends[i].table);
      IntoFacts(s.backends[i].table);
      DroppedIff(s.main, OfTable(rs, ts[0]), ts[0]);
      if |ts| > 1 {
        var one := Copied(s, i, ts[0]);
        DroppedIff(one.main, OfTable(rs, ts[1]), ts[1]);
        CopyKeepsOthers(s, i, ts[0], ts[1], OfTable(rs, ts[1]));
      }
    }
  }
}
