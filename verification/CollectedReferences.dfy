/** Where the references of a collected database end, in terms of the rows that
    the processes wrote: the struct field a column is bound to names a row by its
    process's own number, and the join finds that row
    (rpd_tracer/RemoteDataSource.cpp:50-130, rpd_tracer/OpTable.cpp:62-85). */
module CollectedReferences {
  import opened Wrappers
  import opened IdSpace
  import opened SqlSchema
  import opened CollectedRows
  import opened TableCells
  import RowCodec

  /** One insert statement executed for a row of one process. */
  datatype Run = Run(process: Process, statement: Statement)

  function RowBy(x: Run): Written {
    RowOf(x.statement, x.process, At(x.process))
  }

  /** Process p sent this row in a batch of the table that feeds u. */
  ghost predicate Sent(batches: seq<Batch>, p: Process, u: SqlTable, r: RowCodec.RowData) {
    exists i :: 0 <= i < |batches| && SentIn(batches[i], p, u, r)
  }

  predicate SentIn(b: Batch, p: Process, u: SqlTable, r: RowCodec.RowData) {
    b.process == p && b.table == Source(u) && r in b.rows
  }

  // ---- what the database holds -----------------------------------------

  ghost predicate SentRun(batches: seq<Batch>, x: Run) {
    Sent(batches, x.process, x.statement.into, x.statement.row)
  }

  ghost function RunsOf(batches: seq<Batch>): iset<Run> {
    iset x | SentRun(batches, x)
  }

  ghost function RunsIn(sts: seq<Statement>, p: Process): iset<Run> {
    iset st | st in sts :: Run(p, st)
  }

  /** Every row is the work of a statement that was run, and every statement
      left its row or found its key taken. */
  ghost predicate Content(db: Db, ran: iset<Run>) {
    && (forall k :: k in db.keyed ==> exists x :: x in ran && db.keyed[k] == RowBy(x) && KeyOf(RowBy(x)) == Some(k))
    && (forall w :: w in db.loose ==> exists x :: x in ran && w == RowBy(x))
    && (forall x :: x in ran ==>
          match KeyOf(RowBy(x)) case None => RowBy(x) in db.loose case Some(k) => k in db.keyed)
  }

  lemma InsertContent(db: Db, ran: iset<Run>, x: Run)
    requires Content(db, ran)
    ensures Content(Insert(db, RowBy(x)), ran + iset{x})
  {
    hide KeyOf, RowOf, RowBy;
  }

  lemma {:induction false} StatementMembers(t: RowCodec.Table, rows: seq<RowCodec.RowData>, st: Statement)
    ensures st in Statements(t, rows) <==> st.row in rows && Source(st.into) == t
  {
    if rows != [] {
      var n := |rows| - 1;
      StatementMembers(t, rows[..n], st);
      SourcesFeed(t, st.into);
      assert rows == rows[..n] + [rows[n]];
      assert st in RowStatements(t, rows[n]) <==> st.row == rows[n] && st.into in Into(t);
    }
  }

  /** A batch's statements follow its rows: all of one row before the next, the
      operation before its link. */
  lemma {:induction false} StatementsFollowRows(t: RowCodec.Table, rows: seq<RowCodec.RowData>, k: nat)
    requires k < |rows|
    ensures var sts := Statements(t, rows);
            if t == RowCodec.OpTable then
              && |sts| == 2 * |rows|
              && sts[2 * k] == Statement(Op, rows[k]) && sts[2 * k + 1] == Statement(ApiOps, rows[k])
            else
              |sts| == |rows| && sts[k].row == rows[k] && Source(sts[k].into) == t
    decreases |rows|
  {
    hide Statements;
    var n := |rows| - 1;
    OneRowMore(t, rows);
    if n > 0 {
      StatementsFollowRows(t, rows[..n], if k < n then k else 0);
    } else {
      NoRows(t);
    }
  }

  lemma OneRowMore(t: RowCodec.Table, rows: seq<RowCodec.RowData>)
    requires rows != []
    ensures var n := |rows| - 1;
            && Statements(t, rows) == Statements(t, rows[..n]) + RowStatements(t, rows[n])
            && (if t == RowCodec.OpTable
                then RowStatements(t, rows[n]) == [Statement(Op, rows[n]), Statement(ApiOps, rows[n])]
                else |RowStatements(t, rows[n])| == 1 && RowStatements(t, rows[n])[0].row == rows[n]
                     && Source(RowStatements(t, rows[n])[0].into) == t)
  {
  }

  lemma NoRows(t: RowCodec.Table)
    ensures Statements(t, []) == []
  {
  }

  lemma {:induction false} ExecuteContent(db: Db, ran: iset<Run>, sts: seq<Statement>, p: Process)
    requires Content(db, ran)
    ensures Content(Execute(db, sts, p, At(p)), ran + RunsIn(sts, p))
  {
    hide Content, Insert, RowOf, RowBy;
    if sts == [] {
      assert ran + RunsIn(sts, p) == ran;
    } else {
      var n := |sts| - 1;
      ExecuteContent(db, ran, sts[..n], p);
      InsertContent(Execute(db, sts[..n], p, At(p)), ran + RunsIn(sts[..n], p), Run(p, sts[n]));
      assert sts == sts[..n] + [sts[n]];
      assert ran + RunsIn(sts, p) == ran + RunsIn(sts[..n], p) + iset{Run(p, sts[n])};
      RowByRun(p, sts[n]);
    }
  }

  lemma RowByRun(p: Process, st: Statement)
    ensures RowBy(Run(p, st)) == RowOf(st, p, At(p))
  {
  }

  lemma SentGrows(batches: seq<Batch>, x: Run)
    requires batches != []
    ensures var n := |batches| - 1; var b := batches[n];
            SentRun(batches, x) <==>
            SentRun(batches[..n], x) || (x.process == b.process && x.statement in Statements(b.table, b.rows))
  {
    hide Statements;
    var n := |batches| - 1;
    var b, p, u, r := batches[n], x.process, x.statement.into, x.statement.row;
    StatementMembers(b.table, b.rows, x.statement);
    if SentRun(batches, x) {
      var i :| 0 <= i < |batches| && SentIn(batches[i], p, u, r);
      assert i < n ==> SentIn(batches[..n][i], p, u, r);
    }
    if SentRun(batches[..n], x) {
      var i :| 0 <= i < n && SentIn(batches[..n][i], p, u, r);
      assert SentIn(batches[i], p, u, r);
    }
    assert x.process == b.process && x.statement in Statements(b.table, b.rows) <==> SentIn(batches[n], p, u, r);
  }

  lemma {:induction false} CollectedContent(batches: seq<Batch>)
    ensures Content(Collected(batches), RunsOf(batches))
  {
    hide Content, Execute, Statements, SentRun;
    if batches == [] {
      NothingSent();
    } else {
      var n := |batches| - 1;
      var b := batches[n];
      var sts := Statements(b.table, b.rows);
      CollectedContent(batches[..n]);
      ExecuteContent(Collected(batches[..n]), RunsOf(batches[..n]), sts, b.process);
      forall x: Run
        ensures SentRun(batches, x) <==> SentRun(batches[..n], x) || (x.process == b.process && x.statement in sts)
      {
        SentGrows(batches, x);
      }
      assert RunsOf(batches) == RunsOf(batches[..n]) + RunsIn(sts, b.process);
    }
  }

  lemma NothingSent()
    ensures Content(EMPTY, RunsOf([]))
  {
  }

  /** Every row a process sent is in the collected database or has found its key
      taken, in each table its own table feeds. */
  lemma SentRowsAreStored(batches: seq<Batch>, p: Process, u: SqlTable, r: RowCodec.RowData)
    requires Sent(batches, p, u, r)
    ensures var w := RowOf(Statement(u, r), p, At(p));
            match KeyOf(w) case None => w in Collected(batches).loose case Some(k) => k in Collected(batches).keyed
  {
    hide Collected, RowOf, KeyOf;
    var x := Run(p, Statement(u, r));
    CollectedContent(batches);
    assert SentRun(batches, x);
    assert x in RunsOf(batches);
    RowByRun(p, x.statement);
  }

  // ---- the first row under a key stays ---------------------------------

  lemma {:induction false} ExecuteKeepsKeys(db: Db, sts: seq<Statement>, n: nat, p: Process, at: Place, k: Key)
    requires n <= |sts| && k in Execute(db, sts[..n], p, at).keyed
    ensures k in Execute(db, sts, p, at).keyed
    ensures Execute(db, sts, p, at).keyed[k] == Execute(db, sts[..n], p, at).keyed[k]
    decreases |sts|
  {
    hide RowOf, KeyOf;
    if n == |sts| {
      assert sts[..n] == sts;
    } else {
      var m := |sts| - 1;
      assert sts[..m][..n] == sts[..n];
      ExecuteKeepsKeys(db, sts[..m], n, p, at, k);
    }
  }

  lemma {:induction false} CollectedKeepsKeys(batches: seq<Batch>, i: nat, k: Key)
    requires i <= |batches| && k in Collected(batches[..i]).keyed
    ensures k in Collected(batches).keyed && Collected(batches).keyed[k] == Collected(batches[..i]).keyed[k]
    decreases |batches|
  {
    hide Execute, Statements;
    if i == |batches| {
      assert batches[..i] == batches;
    } else {
      var m := |batches| - 1;
      var b := batches[m];
      assert batches[..m][..i] == batches[..i];
      CollectedKeepsKeys(batches[..m], i, k);
      var sts := Statements(b.table, b.rows);
      NothingRun(Collected(batches[..m]), b.process, At(b.process));
      assert sts[..0] == [];
      ExecuteKeepsKeys(Collected(batches[..m]), sts, 0, b.process, At(b.process), k);
    }
  }

  lemma NothingRun(db: Db, p: Process, at: Place)
    ensures Execute(db, [], p, at) == db
  {
  }

  /** The database when statement n of batch i is run. */
  function Before(batches: seq<Batch>, i: nat, n: nat): Db
    requires i < |batches| && n <= |Statements(batches[i].table, batches[i].rows)|
  {
    var b := batches[i];
    Execute(Collected(batches[..i]), Statements(b.table, b.rows)[..n], b.process, At(b.process))
  }

  /** A row whose key is free when its statement is run is under that key for
      ever, whatever comes later. */
  lemma FirstStays(batches: seq<Batch>, i: nat, n: nat)
    requires i < |batches| && n < |Statements(batches[i].table, batches[i].rows)|
    ensures var b := batches[i];
            var w := RowOf(Statements(b.table, b.rows)[n], b.process, At(b.process));
            KeyOf(w).Some? && KeyOf(w).value !in Before(batches, i, n).keyed ==>
              KeyOf(w).value in Collected(batches).keyed && Collected(batches).keyed[KeyOf(w).value] == w
  {
    hide *;
    var b := batches[i];
    var sts, p, at := Statements(b.table, b.rows), b.process, At(b.process);
    var w, db := RowOf(sts[n], p, at), Collected(batches[..i]);
    BeforeIs(batches, i, n);
    assert sts[..n + 1] == sts[..n] + [sts[n]];
    ExecuteNext(db, sts[..n], sts[n], p, at);
    FreeKeyTaken(Before(batches, i, n), w);
    if KeyOf(w).Some? && KeyOf(w).value !in Before(batches, i, n).keyed {
      var k := KeyOf(w).value;
      ExecuteKeepsKeys(db, sts, n + 1, p, at, k);
      CollectedNext(batches[..i], b);
      assert batches[..i] + [b] == batches[..i + 1];
      CollectedKeepsKeys(batches, i + 1, k);
    }
  }

  lemma BeforeIs(batches: seq<Batch>, i: nat, n: nat)
    requires i < |batches| && n <= |Statements(batches[i].table, batches[i].rows)|
    ensures var b := batches[i];
            Before(batches, i, n)
            == Execute(Collected(batches[..i]), Statements(b.table, b.rows)[..n], b.process, At(b.process))
  {
  }

  lemma FreeKeyTaken(db: Db, w: Written)
    ensures KeyOf(w).Some? && KeyOf(w).value !in db.keyed ==>
              KeyOf(w).value in Insert(db, w).keyed && Insert(db, w).keyed[KeyOf(w).value] == w
  {
  }

  // ---- references ------------------------------------------------------

  function Long(r: RowCodec.RowData, field: string): int {
    if field in r && r[field].Int64V? then r[field].l else 0
  }

  /** The field by which a row is numbered, in the tables that others refer to. */
  function NumberField(u: SqlTable): string {
    match u
    case Strings => "string_id"
    case UStrings => "string_id"
    case Op => "op_id"
    case _ => "api_id"
  }

  /** The field a column holds, and the table a row of which it names. */
  datatype Reference = Reference(field: string, target: SqlTable)

  function ReferenceOf(u: SqlTable, c: SqlColumn): Option<Reference> {
    match u
    case Api =>
      if c == DomainId then Some(Reference("domain_id", Strings))
      else if c == CategoryId then Some(Reference("category_id", Strings))
      else if c == ApiNameId then Some(Reference("apiName_id", Strings))
      else if c == ArgsId then Some(Reference("args_id", UStrings))
      else None
    case KernelApi =>
      if c == ApiPtrId then Some(Reference("api_id", Api))
      else if c == KernelNameId then Some(Reference("kernelName_id", Strings))
      else None
    case CopyApi => if c == ApiPtrId then Some(Reference("api_id", Api)) else None
    case Op =>
      if c == DescriptionId then Some(Reference("description_id", Strings))
      else if c == OpTypeId then Some(Reference("opType_id", Strings))
      else None
    case ApiOps =>
      if c == ApiId then Some(Reference("api_id", Api))
      else if c == OpId then Some(Reference("op_id", Op))
      else None
    case StackFrame => if c == ApiPtrId then Some(Reference("api_id", Api)) else None
    case Counter =>
      if c == OpId then Some(Reference("op_id", Op))
      else if c == NameId then Some(Reference("name_id", Strings))
      else None
    case _ => None
  }

  /** They are the declared references, but for the name of a stack frame. */
  lemma ReferencesDeclared(u: SqlTable, c: SqlColumn)
    ensures ReferenceOf(u, c).Some? <==> c in References(u) && !IsFrameName(u, c)
    ensures ReferenceOf(u, c).Some? ==> c in References(u) && References(u)[c] == ReferenceOf(u, c).value.target
  {
  }

  lemma ReferencesMean(u: SqlTable, c: SqlColumn)
    requires ReferenceOf(u, c).Some?
    ensures c in Meanings(u) && Meanings(u)[c] == Link(ReferenceOf(u, c).value.field)
    ensures PrimaryKey(ReferenceOf(u, c).value.target) == Some(Id)
  {
    match u
    case Api => ApiReferencesMean(c);
    case _ =>
  }

  lemma ApiReferencesMean(c: SqlColumn)
    requires ReferenceOf(Api, c).Some?
    ensures c in Meanings(Api) && Meanings(Api)[c] == Link(ReferenceOf(Api, c).value.field)
    ensures PrimaryKey(ReferenceOf(Api, c).value.target) == Some(Id)
  {
  }

  lemma NumbersMean(u: SqlTable)
    requires PrimaryKey(u) == Some(Id)
    ensures Id in Meanings(u) && Meanings(u)[Id] == Link(NumberField(u))
  {
  }

  lemma SentFits(batches: seq<Batch>, p: Process, u: SqlTable, r: RowCodec.RowData)
    requires FitAll(batches) && Sent(batches, p, u, r)
    ensures FitsProcess(p) && FitsStatement(Statement(u, r))
  {
    hide FitsStatement, Statements;
    var i :| 0 <= i < |batches| && SentIn(batches[i], p, u, r);
    assert FitsBatch(batches[i]);
    StatementMembers(batches[i].table, batches[i].rows, Statement(u, r));
  }

  /** A link is the process's own number plus its offset. */
  lemma LinkAt(u: SqlTable, c: SqlColumn, field: string, r: RowCodec.RowData, p: Process)
    requires FitsStatement(Statement(u, r)) && c in Meanings(u) && Meanings(u)[c] == Link(field)
    ensures 0 <= Long(r, field) < SESSION_STRIDE
    ensures IdIn(Stored(u, r, At(p)), c) == Long(r, field) + Offset(p)
  {
    ColumnBound(u, c);
    OffsetGoesToLinks(u, c);
    StoredAsBound(u, c, r, HOME);
    StoredAsBound(u, c, r, At(p));
    var home := Stored(u, r, HOME);
    assert c in home && home[c].Int64V? && 0 <= home[c].l < SESSION_STRIDE by {
      hide Stored, Meanings, WithOffset;
      assert IsLink(u, c);
    }
    hide Stored, Meanings, WithOffset, WithoutOffset, Raw;
  }

  /** Process p sent a row to that table under this number. */
  ghost predicate SentUnder(batches: seq<Batch>, p: Process, u: SqlTable, q: RowCodec.RowData, id: int) {
    Sent(batches, p, u, q) && Long(q, NumberField(u)) == id
  }

  lemma KeyOfSent(batches: seq<Batch>, p: Process, u: SqlTable, q: RowCodec.RowData)
    requires FitAll(batches) && Sent(batches, p, u, q) && PrimaryKey(u) == Some(Id)
    ensures 0 <= Long(q, NumberField(u)) < SESSION_STRIDE && FitsProcess(p)
    ensures KeyOf(RowOf(Statement(u, q), p, At(p))) == Some(Key(u, Long(q, NumberField(u)) + Offset(p)))
  {
    SentFits(batches, p, u, q);
    NumbersMean(u);
    LinkAt(u, Id, NumberField(u), q, p);
  }

  /** Under a process's key there is a row of that process with that number, if
      it sent one. */
  lemma RowUnderKey(batches: seq<Batch>, p: Process, u: SqlTable, id: int)
    requires FitsProcess(p) && FitAll(batches) && PrimaryKey(u) == Some(Id) && 0 <= id < SESSION_STRIDE
    ensures var k := Key(u, id + Offset(p));
            && (k in Collected(batches).keyed <==> exists q :: SentUnder(batches, p, u, q, id))
            && (k in Collected(batches).keyed ==>
                  exists q :: SentUnder(batches, p, u, q, id)
                              && Collected(batches).keyed[k] == RowOf(Statement(u, q), p, At(p)))
  {
    hide Collected, RowOf, KeyOf, FitAll, Sent;
    var k := Key(u, id + Offset(p));
    CollectedContent(batches);
    if k in Collected(batches).keyed {
      var x :| x in RunsOf(batches) && Collected(batches).keyed[k] == RowBy(x) && KeyOf(RowBy(x)) == Some(k);
      var q, st := x.process, x.statement;
      RowByRun(q, st);
      KeyTable(RowBy(x), k);
      TableOfRun(x);
      KeyOfSent(batches, q, u, st.row);
      KeysNeverCollide(id, p, Long(st.row, NumberField(u)), q);
      assert SentUnder(batches, p, u, st.row, id) && st == Statement(u, st.row);
    }
    forall q | SentUnder(batches, p, u, q, id) ensures k in Collected(batches).keyed {
      KeyOfSent(batches, p, u, q);
      SentRowsAreStored(batches, p, u, q);
    }
  }

  lemma KeyTable(w: Written, k: Key)
    requires KeyOf(w) == Some(k)
    ensures k.table == w.table
  {
  }

  lemma TableOfRun(x: Run)
    ensures RowBy(x).table == x.statement.into
  {
  }

  /** The join of a collected row by any reference ends at the row its own
      process sent under the number in the row's field, and dangles if and only
      if it sent none. */
  lemma ReferencesEnd(batches: seq<Batch>, p: Process, u: SqlTable, r: RowCodec.RowData, c: SqlColumn)
    requires FitAll(batches) && Sent(batches, p, u, r) && ReferenceOf(u, c).Some?
    ensures var field, target := ReferenceOf(u, c).value.field, ReferenceOf(u, c).value.target;
            var end := Follow(Collected(batches), RowOf(Statement(u, r), p, At(p)), [c]);
            && (end.Some? <==> exists q :: SentUnder(batches, p, target, q, Long(r, field)))
            && (end.Some? ==> exists q :: SentUnder(batches, p, target, q, Long(r, field))
                                          && end.value == RowOf(Statement(target, q), p, At(p)))
  {
    hide *;
    var field, target := ReferenceOf(u, c).value.field, ReferenceOf(u, c).value.target;
    ReferencesDeclared(u, c);
    ReferencesMean(u, c);
    SentFits(batches, p, u, r);
    LinkAt(u, c, field, r, p);
    RowUnderKey(batches, p, target, Long(r, field));
    CellsOfRow(Statement(u, r), p, At(p));
    FollowOne(Collected(batches), RowOf(Statement(u, r), p, At(p)), c);
  }

  lemma FollowOne(db: Db, w: Written, c: SqlColumn)
    requires c in References(w.table)
    ensures var k := Key(References(w.table)[c], IdIn(w.cells, c));
            Follow(db, w, [c]) == if k in db.keyed then Some(db.keyed[k]) else None
  {
    assert [c][1..] == [];
  }

  /** It is the only row the process sent under this number. */
  ghost predicate OnlyUnder(batches: seq<Batch>, p: Process, u: SqlTable, s: RowCodec.RowData, id: int) {
    SentUnder(batches, p, u, s, id) && forall q :: SentUnder(batches, p, u, q, id) ==> q == s
  }

  /** So where a process sent one text under a number, that is the text its
      operations, calls, kernels and counters with that number join to. */
  lemma TextsFound(batches: seq<Batch>, p: Process, u: SqlTable, r: RowCodec.RowData, c: SqlColumn,
                   s: RowCodec.RowData)
    requires FitAll(batches) && Sent(batches, p, u, r) && ReferenceOf(u, c).Some?
    requires var ref := ReferenceOf(u, c).value;
             && (ref.target == Strings || ref.target == UStrings)
             && RowCodec.IsRow(Source(ref.target), s) && OnlyUnder(batches, p, ref.target, s, Long(r, ref.field))
    ensures var end := Follow(Collected(batches), RowOf(Statement(u, r), p, At(p)), [c]);
            && end.Some? && "string" in s
            && Data("string") in end.value.cells && end.value.cells[Data("string")] == s["string"]
  {
    assert forall id, t, q :: OnlyUnder(batches, p, t, s, id) && SentUnder(batches, p, t, q, id) ==> q == s;
    assert forall id, t :: OnlyUnder(batches, p, t, s, id) ==> SentUnder(batches, p, t, s, id);
    var target := ReferenceOf(u, c).value.target;
    hide *;
    ReferencesEnd(batches, p, u, r, c);
    TextCell(target, s, At(p));
    CellsOfRow(Statement(target, s), p, At(p));
  }

  lemma CellsOfRow(st: Statement, p: Process, at: Place)
    ensures RowOf(st, p, at).cells == Stored(st.into, st.row, at) && RowOf(st, p, at).table == st.into
  {
  }

  lemma TextCell(u: SqlTable, s: RowCodec.RowData, at: Place)
    requires (u == Strings || u == UStrings) && RowCodec.IsRow(Source(u), s)
    ensures var cells := Stored(u, s, at);
            "string" in s && Data("string") in cells && cells[Data("string")] == s["string"]
  {
    assert Data("string") in Meanings(u) && Meanings(u)[Data("string")] == Same("string", RowCodec.Text);
    hide RowCodec.IsRow, Stored, Meanings;
    ReadCell(u, Data("string"), Same("string", RowCodec.Text), s, at);
  }
}
