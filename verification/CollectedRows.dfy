/** The database that many processes fill with direct writing: the insert
    statements of every table at each process's offset
    (rpd_tracer/RemoteDataSource.cpp:50-130, rpd_tracer/OpTable.cpp:59-87), and the
    joins that survive it.  WriterBackends adds the temporary tables and flushes
    of the default mode, FlushedFile compares the two. */
module CollectedRows {
  import opened Wrappers
  import opened IdSpace
  import opened SqlSchema
  import RowCodec
  import ByteCodec

  datatype Key = Key(table: SqlTable, id: int)

  /** A row in the database.  `writer` is history: no column holds it. */
  datatype Written = Written(table: SqlTable, cells: Cells, writer: Process)

  /** Tables whose key the tracer chooses, and rows of the others in the order
      they were inserted. */
  datatype Db = Db(keyed: map<Key, Written>, loose: seq<Written>)

  const EMPTY := Db(map[], [])

  /** Where the collector writes a process's rows. */
  function At(p: Process): Place {
    Place(Offset(p), p.node)
  }

  // ---- writing ---------------------------------------------------------

  /** Rows of one table from one process, as deserialized. */
  datatype Batch = Batch(process: Process, table: RowCodec.Table, rows: seq<RowCodec.RowData>)

  function IdIn(cells: Cells, c: SqlColumn): int {
    if c in cells && cells[c].Int64V? then cells[c].l else 0
  }

  function KeyOf(w: Written): Option<Key> {
    match PrimaryKey(w.table)
    case None => None
    case Some(c) => Some(Key(w.table, IdIn(w.cells, c)))
  }

  /** An insert whose primary key is taken fails and leaves the table alone. */
  function Insert(db: Db, w: Written): Db {
    match KeyOf(w)
    case None => db.(loose := db.loose + [w])
    case Some(k) => if k in db.keyed then db else db.(keyed := db.keyed[k := w])
  }

  /** One insert statement executed for one row. */
  datatype Statement = Statement(into: SqlTable, row: RowCodec.RowData)

  function RowOf(st: Statement, p: Process, at: Place): Written {
    Written(st.into, Stored(st.into, st.row, at), p)
  }

  function RowStatements(t: RowCodec.Table, r: RowCodec.RowData): seq<Statement> {
    if |Into(t)| == 1 then [Statement(Into(t)[0], r)] else [Statement(Into(t)[0], r), Statement(Into(t)[1], r)]
  }

  function Statements(t: RowCodec.Table, rows: seq<RowCodec.RowData>): seq<Statement> {
    if rows == [] then [] else Statements(t, rows[..|rows| - 1]) + RowStatements(t, rows[|rows| - 1])
  }

  function Execute(db: Db, sts: seq<Statement>, p: Process, at: Place): Db {
    if sts == [] then db
    else Insert(Execute(db, sts[..|sts| - 1], p, at), RowOf(sts[|sts| - 1], p, at))
  }

  /** What the database holds after all batches, written directly. */
  function Collected(batches: seq<Batch>): Db {
    if batches == [] then EMPTY
    else
      var b := batches[|batches| - 1];
      Execute(Collected(batches[..|batches| - 1]), Statements(b.table, b.rows), b.process, At(b.process))
  }

  /** What a process would have had writing its own file, with no offset. */
  function Own(batches: seq<Batch>, p: Process): Db {
    if batches == [] then EMPTY
    else
      var b := batches[|batches| - 1];
      var before := Own(batches[..|batches| - 1], p);
      if b.process == p then Execute(before, Statements(b.table, b.rows), p, HOME) else before
  }

  lemma CollectedNext(before: seq<Batch>, b: Batch)
    ensures Collected(before + [b]) == Execute(Collected(before), Statements(b.table, b.rows), b.process, At(b.process))
  {
    hide Execute, Statements;
    assert (before + [b])[..|before|] == before;
  }

  lemma ExecuteNext(db: Db, sts: seq<Statement>, st: Statement, p: Process, at: Place)
    ensures Execute(db, sts + [st], p, at) == Insert(Execute(db, sts, p, at), RowOf(st, p, at))
  {
    assert (sts + [st])[..|sts|] == sts;
  }

  lemma ExecuteRow(db: Db, sts: seq<Statement>, t: RowCodec.Table, r: RowCodec.RowData, p: Process, at: Place)
    ensures Execute(db, sts + RowStatements(t, r), p, at) ==
            var one := Insert(Execute(db, sts, p, at), RowOf(Statement(Into(t)[0], r), p, at));
            if |Into(t)| == 1 then one else Insert(one, RowOf(Statement(Into(t)[1], r), p, at))
  {
    hide Insert, RowOf, Execute;
    var first := Statement(Into(t)[0], r);
    ExecuteNext(db, sts, first, p, at);
    if |Into(t)| > 1 {
      ExecuteNext(db, sts + [first], Statement(Into(t)[1], r), p, at);
      assert sts + [first] + [Statement(Into(t)[1], r)] == sts + RowStatements(t, r);
    }
  }

  /** The collector in place: deserialize the rows of a batch, then run each
      row's insert statements in turn. */
  class Collector {
    var db: Db
    ghost var received: seq<Batch>

    ghost predicate Valid() reads this {
      db == Collected(received)
    }

    constructor ()
      ensures Valid() && received == []
    {
      db, received := EMPTY, [];
    }

    method DeserializeAndWrite(t: RowCodec.Table, buf: ByteCodec.ByteBuffer, rowCount: nat, p: Process)
      requires Valid()
      modifies this, buf
      ensures Valid()
      ensures received == old(received) + [Batch(p, t, RowCodec.GetBatch(t, rowCount, old(buf.View())).0)]
      ensures buf.View() == RowCodec.GetBatch(t, rowCount, old(buf.View())).1
    {
      hide Execute, Statements, Collected;
      var rows := RowCodec.DeserializeBatch(buf, t, rowCount);
      WriteBatch(t, rows, p, Place(p.session * SESSION_STRIDE + p.node * NODE_STRIDE, p.node));
      CollectedNext(received, Batch(p, t, rows));
      received := received + [Batch(p, t, rows)];
    }

    method WriteBatch(t: RowCodec.Table, rows: seq<RowCodec.RowData>, p: Process, at: Place)
      modifies `db
      ensures db == Execute(old(db), Statements(t, rows), p, at)
    {
      hide Insert, RowStatements, Stored, Into;
      for i := 0 to |rows|
        invariant db == Execute(old(db), Statements(t, rows[..i]), p, at)
      {
        assert rows[..i + 1][..i] == rows[..i];
        ExecuteRow(old(db), Statements(t, rows[..i]), t, rows[i], p, at);
        var into := Into(t);
        db := Insert(db, Written(into[0], Stored(into[0], rows[i], at), p));
        if |into| > 1 {
          db := Insert(db, Written(into[1], Stored(into[1], rows[i], at), p));
        }
      }
      assert rows[..|rows|] == rows;
    }
  }

  // ---- each process's part ---------------------------------------------

  predicate FitsKey(k: Key) {
    0 <= k.id < SESSION_STRIDE
  }

  /** Keys and references are 64-bit cells with a 32-bit row number. */
  ghost predicate LinksFit(t: SqlTable, cells: Cells) {
    forall c :: IsLink(t, c) ==> c in cells && cells[c].Int64V? && 0 <= cells[c].l < SESSION_STRIDE
  }

  ghost predicate FitsStatement(st: Statement) {
    LinksFit(st.into, Stored(st.into, st.row, HOME))
  }

  ghost predicate FitsBatch(b: Batch) {
    FitsProcess(b.process) && forall st :: st in Statements(b.table, b.rows) ==> FitsStatement(st)
  }

  ghost predicate FitAll(batches: seq<Batch>) {
    forall i :: 0 <= i < |batches| ==> FitsBatch(batches[i])
  }

  function Shift(k: Key, off: int): Key {
    Key(k.table, k.id + off)
  }

  function MovedRow(w: Written, at: Place): Written {
    w.(cells := Moved(w.table, w.cells, at))
  }

  function Of(rows: seq<Written>, p: Process): seq<Written> {
    if rows == [] then []
    else Of(rows[..|rows| - 1], p) + if rows[|rows| - 1].writer == p then [rows[|rows| - 1]] else []
  }

  lemma OfNext(rows: seq<Written>, w: Written, p: Process)
    ensures Of(rows + [w], p) == if w.writer == p then Of(rows, p) + [w] else Of(rows, p)
  {
    assert (rows + [w])[..|rows|] == rows;
  }

  ghost predicate RowFits(w: Written, p: Process) {
    w.writer == p && LinksFit(w.table, w.cells)
  }

  /** The part of db at p's offset is p's own keyed rows, moved. */
  ghost predicate HoldsKeyed(db: Db, own: Db, p: Process) {
    && (forall k: Key :: FitsKey(k) ==> (Shift(k, Offset(p)) in db.keyed <==> k in own.keyed))
    && (forall k: Key :: k in own.keyed ==> FitsKey(k) && RowFits(own.keyed[k], p) && own.keyed[k].table == k.table)
    && (forall k: Key :: k in own.keyed ==>
          Shift(k, Offset(p)) in db.keyed && db.keyed[Shift(k, Offset(p))] == MovedRow(own.keyed[k], At(p)))
  }

  /** The other rows p wrote are its own ones, moved, in the same order. */
  ghost predicate HoldsLoose(db: Db, own: Db, p: Process) {
    && |Of(db.loose, p)| == |own.loose|
    && forall i :: 0 <= i < |own.loose| ==>
         RowFits(own.loose[i], p) && Of(db.loose, p)[i] == MovedRow(own.loose[i], At(p))
  }

  ghost predicate Holds(db: Db, own: Db, p: Process) {
    HoldsKeyed(db, own, p) && HoldsLoose(db, own, p)
  }

  lemma RowOfMoves(st: Statement, p: Process, at: Place)
    ensures RowOf(st, p, at) == MovedRow(RowOf(st, p, HOME), at)
  {
    StoredMoves(st.into, st.row, at);
  }

  lemma KeyMoves(w: Written, at: Place)
    requires LinksFit(w.table, w.cells)
    ensures KeyOf(MovedRow(w, at)) == match KeyOf(w) case None => None case Some(k) => Some(Shift(k, at.offset))
    ensures KeyOf(w).Some? ==> FitsKey(KeyOf(w).value) && KeyOf(w).value.table == w.table
  {
    hide WithOffset, References;
    match PrimaryKey(w.table)
    case None =>
    case Some(c) => OffsetGoesToLinks(w.table, c);
  }

  lemma InsertOwn(db: Db, own: Db, p: Process, w: Written)
    requires Holds(db, own, p) && RowFits(w, p)
    ensures Holds(Insert(db, MovedRow(w, At(p))), Insert(own, w), p)
  {
    hide MovedRow, LinksFit, KeyOf, Of, HoldsKeyed, HoldsLoose, Shift, FitsKey;
    KeyMoves(w, At(p));
    match KeyOf(w)
    case None =>
      AppendOwn(db, own, p, w);
      SameParts(db, own, p, Insert(db, MovedRow(w, At(p))), Insert(own, w));
    case Some(k) =>
      KeyedOwn(db, own, p, w, k);
      SameParts(db, own, p, Insert(db, MovedRow(w, At(p))), Insert(own, w));
  }

  lemma SameParts(db: Db, own: Db, p: Process, db2: Db, own2: Db)
    ensures db2.keyed == db.keyed && own2.keyed == own.keyed ==> HoldsKeyed(db2, own2, p) == HoldsKeyed(db, own, p)
    ensures db2.loose == db.loose && own2.loose == own.loose ==> HoldsLoose(db2, own2, p) == HoldsLoose(db, own, p)
  {
  }

  lemma KeyedOwn(db: Db, own: Db, p: Process, w: Written, k: Key)
    requires HoldsKeyed(db, own, p) && RowFits(w, p) && FitsKey(k) && k.table == w.table
    ensures k in own.keyed <==> Shift(k, Offset(p)) in db.keyed
    ensures HoldsKeyed(db.(keyed := db.keyed[Shift(k, Offset(p)) := MovedRow(w, At(p))]),
                       own.(keyed := own.keyed[k := w]), p)
  {
    hide MovedRow, LinksFit;
    assert forall x: Key :: Shift(x, Offset(p)) == Shift(k, Offset(p)) <==> x == k;
  }

  lemma AppendOwn(db: Db, own: Db, p: Process, w: Written)
    requires HoldsLoose(db, own, p) && RowFits(w, p)
    ensures HoldsLoose(db.(loose := db.loose + [MovedRow(w, At(p))]), own.(loose := own.loose + [w]), p)
  {
    hide MovedRow, LinksFit, Of;
    MovedWriter(w, At(p));
    OfNext(db.loose, MovedRow(w, At(p)), p);
  }

  lemma MovedWriter(w: Written, at: Place)
    ensures MovedRow(w, at).writer == w.writer && MovedRow(w, at).table == w.table
  {
  }

  lemma InsertOther(db: Db, own: Db, p: Process, w: Written, q: Process)
    requires Holds(db, own, p) && RowFits(w, q) && p != q && FitsProcess(p) && FitsProcess(q)
    ensures Holds(Insert(db, MovedRow(w, At(q))), own, p)
  {
    hide MovedRow, LinksFit, KeyOf, Of;
    KeyMoves(w, At(q));
    MovedWriter(w, At(q));
    OfNext(db.loose, MovedRow(w, At(q)), p);
    if KeyOf(w).Some? {
      forall k: Key | FitsKey(k) ensures Shift(k, Offset(p)) != Shift(KeyOf(w).value, Offset(q)) {
        KeysNeverCollide(k.id, p, KeyOf(w).value.id, q);
      }
    }
  }

  lemma {:induction false} ExecuteKeeps(db: Db, own: Db, p: Process, sts: seq<Statement>, q: Process, n: nat)
    requires Holds(db, own, p) && FitsProcess(p) && FitsProcess(q) && n <= |sts|
    requires forall st :: st in sts ==> FitsStatement(st)
    ensures Holds(Execute(db, sts[..n], q, At(q)), if q == p then Execute(own, sts[..n], p, HOME) else own, p)
  {
    hide Holds, Insert, Stored, LinksFit;
    if n > 0 {
      ExecuteKeeps(db, own, p, sts, q, n - 1);
      assert sts[..n][..n - 1] == sts[..n - 1] && sts[n - 1] in sts;
      var sofar := Execute(db, sts[..n - 1], q, At(q));
      var w := RowOf(sts[n - 1], q, HOME);
      RowOfMoves(sts[n - 1], q, At(q));
      if q == p {
        InsertOwn(sofar, Execute(own, sts[..n - 1], p, HOME), p, w);
      } else {
        InsertOther(sofar, own, p, w, q);
      }
    }
  }

  /** With direct writing, whatever order the batches of all processes arrive in,
      the collected database holds each process's own one, no row lost, replaced or added. */
  lemma {:induction false} CollectedHoldsEach(batches: seq<Batch>, p: Process)
    requires FitsProcess(p) && FitAll(batches)
    ensures Holds(Collected(batches), Own(batches, p), p)
  {
    hide Execute, Holds, Statements, FitsStatement;
    if batches == [] {
      NothingHeld(p);
    } else {
      var n := |batches| - 1;
      var b := batches[n];
      var sts := Statements(b.table, b.rows);
      assert FitsBatch(batches[n]) && FitAll(batches[..n]);
      CollectedHoldsEach(batches[..n], p);
      ExecuteKeeps(Collected(batches[..n]), Own(batches[..n], p), p, sts, b.process, |sts|);
      assert sts[..|sts|] == sts;
    }
  }

  lemma NothingHeld(p: Process)
    ensures Holds(EMPTY, EMPTY, p)
  {
  }

  // ---- joins -----------------------------------------------------------

  /** Follow a chain of reference columns, joining row to row; None if one
      dangles or is not a reference. */
  function Follow(db: Db, w: Written, path: seq<SqlColumn>): Option<Written>
    decreases |path|
  {
    if path == [] then Some(w)
    else if path[0] !in References(w.table) then None
    else
      var k := Key(References(w.table)[path[0]], IdIn(w.cells, path[0]));
      if k !in db.keyed then None else Follow(db, db.keyed[k], path[1..])
  }

  /** Each reference on the way is written with the offset. */
  predicate AllWithOffset(t: SqlTable, path: seq<SqlColumn>)
    decreases |path|
  {
    path == [] || path[0] !in References(t)
    || (path[0] in WithOffset(t) && AllWithOffset(References(t)[path[0]], path[1..]))
  }

  /** That is every path but those from a stack frame by its name. */
  lemma {:induction false} OnlyFrameNamesLackIt(t: SqlTable, path: seq<SqlColumn>)
    ensures AllWithOffset(t, path) <==> !(path != [] && IsFrameName(t, path[0]))
    decreases |path|
  {
    if path != [] && path[0] in References(t) {
      OffsetGoesToLinks(t, path[0]);
      TargetsHaveKeys(t, path[0]);
      OnlyFrameNamesLackIt(References(t)[path[0]], path[1..]);
    }
  }

  function MovedOption(w: Option<Written>, at: Place): Option<Written> {
    match w
    case None => None
    case Some(r) => Some(MovedRow(r, at))
  }

  lemma IdMoves(w: Written, c: SqlColumn, at: Place)
    requires LinksFit(w.table, w.cells) && c in References(w.table)
    ensures 0 <= IdIn(w.cells, c) < SESSION_STRIDE
    ensures IdIn(MovedRow(w, at).cells, c) == IdIn(w.cells, c) + if c in WithOffset(w.table) then at.offset else 0
  {
    assert IsLink(w.table, c);
    hide WithOffset, References;
  }

  lemma {:induction false} FollowMoves(db: Db, own: Db, p: Process, w: Written, path: seq<SqlColumn>)
    requires HoldsKeyed(db, own, p) && LinksFit(w.table, w.cells) && AllWithOffset(w.table, path)
    ensures Follow(db, MovedRow(w, At(p)), path) == MovedOption(Follow(own, w, path), At(p))
    decreases |path|
  {
    hide References, WithOffset, LinksFit, IdIn, Moved;
    if path != [] && path[0] in References(w.table) {
      IdMoves(w, path[0], At(p));
      var k := Key(References(w.table)[path[0]], IdIn(w.cells, path[0]));
      assert FitsKey(k);
      if k in own.keyed {
        FollowMoves(db, own, p, own.keyed[k], path[1..]);
      }
    }
  }

  /** A row of p's own database. */
  ghost predicate IsOwnRow(batches: seq<Batch>, p: Process, w: Written) {
    w in Own(batches, p).loose || exists k :: k in Own(batches, p).keyed && Own(batches, p).keyed[k] == w
  }

  /** And of the collected one. */
  ghost predicate IsCollected(batches: seq<Batch>, w: Written) {
    w in Collected(batches).loose || exists k :: k in Collected(batches).keyed && Collected(batches).keyed[k] == w
  }

  lemma {:induction false} OfMembers(rows: seq<Written>, p: Process)
    ensures forall w :: w in Of(rows, p) <==> w in rows && w.writer == p
  {
    if rows != [] {
      var n := |rows| - 1;
      OfMembers(rows[..n], p);
      assert rows == rows[..n] + [rows[n]];
    }
  }

  /** A row in the collected database is some process's row, moved. */
  ghost predicate Proper(w: Written) {
    FitsProcess(w.writer) && exists v :: RowFits(v, w.writer) && w == MovedRow(v, At(w.writer))
  }

  ghost predicate AllProper(db: Db) {
    && (forall w :: w in db.loose ==> Proper(w))
    && (forall k :: k in db.keyed ==> Proper(db.keyed[k]) && KeyOf(db.keyed[k]) == Some(k))
  }

  lemma {:induction false} ExecuteProper(db: Db, sts: seq<Statement>, q: Process, n: nat)
    requires AllProper(db) && FitsProcess(q) && n <= |sts| && forall st :: st in sts ==> FitsStatement(st)
    ensures AllProper(Execute(db, sts[..n], q, At(q)))
  {
    hide Stored, LinksFit, MovedRow, KeyOf;
    if n > 0 {
      ExecuteProper(db, sts, q, n - 1);
      assert sts[..n][..n - 1] == sts[..n - 1] && sts[n - 1] in sts;
      RowOfMoves(sts[n - 1], q, At(q));
      assert RowFits(RowOf(sts[n - 1], q, HOME), q);
      assert Proper(RowOf(sts[n - 1], q, At(q)));
    }
  }

  lemma {:induction false} CollectedProper(batches: seq<Batch>)
    requires FitAll(batches)
    ensures AllProper(Collected(batches))
  {
    hide Execute, Statements, FitsStatement, Proper;
    if batches != [] {
      var n := |batches| - 1;
      var b := batches[n];
      var sts := Statements(b.table, b.rows);
      assert FitsBatch(batches[n]) && FitAll(batches[..n]);
      CollectedProper(batches[..n]);
      ExecuteProper(Collected(batches[..n]), sts, b.process, |sts|);
      assert sts[..|sts|] == sts;
    }
  }

  /** Nothing is in the collected database but what some process wrote. */
  lemma CollectedRowIsOwn(batches: seq<Batch>, w: Written)
    requires FitAll(batches) && IsCollected(batches, w)
    ensures FitsProcess(w.writer)
    ensures exists v :: IsOwnRow(batches, w.writer, v) && w == MovedRow(v, At(w.writer))
  {
    var db, p := Collected(batches), w.writer;
    CollectedProper(batches);
    assert Proper(w);
    hide Collected, Own, MovedRow, LinksFit, Of, FitAll, KeyOf;
    CollectedHoldsEach(batches, p);
    var own := Own(batches, p);
    if w in db.loose {
      OfMembers(db.loose, p);
      assert w in Of(db.loose, p);
      var i :| 0 <= i < |Of(db.loose, p)| && Of(db.loose, p)[i] == w;
      assert IsOwnRow(batches, p, own.loose[i]);
    } else {
      var k :| k in db.keyed && db.keyed[k] == w;
      var v :| RowFits(v, p) && w == MovedRow(v, At(p));
      KeyMoves(v, At(p));
      var j := KeyOf(v).value;
      assert k == Shift(j, Offset(p)) && FitsKey(j);
      assert IsOwnRow(batches, p, own.keyed[j]);
    }
  }

  lemma OwnRowIsCollected(batches: seq<Batch>, p: Process, w: Written)
    requires FitsProcess(p) && FitAll(batches) && IsOwnRow(batches, p, w)
    ensures RowFits(w, p) && IsCollected(batches, MovedRow(w, At(p)))
  {
    hide Collected, Own, MovedRow, LinksFit, Of, FitAll;
    CollectedHoldsEach(batches, p);
    var own, db := Own(batches, p), Collected(batches);
    if w in own.loose {
      var i :| 0 <= i < |own.loose| && own.loose[i] == w;
      OfMembers(db.loose, p);
      assert Of(db.loose, p)[i] in Of(db.loose, p);
    } else {
      var k :| k in own.keyed && own.keyed[k] == w;
      assert db.keyed[Shift(k, Offset(p))] == MovedRow(w, At(p));
    }
  }

  /** Every row a process wrote is in the collected database, and every chain of
      joins from it by references written with the offset, however long, ends at
      the row it ends at in the process's own database, or dangles where that
      does; all columns but keys and references are the same, with the node's
      stride added where there is one. */
  lemma JoinsSurviveCollection(batches: seq<Batch>, p: Process, w: Written, path: seq<SqlColumn>)
    requires FitsProcess(p) && FitAll(batches) && IsOwnRow(batches, p, w)
    requires AllWithOffset(w.table, path)
    ensures var from, end := MovedRow(w, At(p)), Follow(Own(batches, p), w, path);
            && IsCollected(batches, from)
            && Follow(Collected(batches), from, path) == MovedOption(end, At(p))
            && (end.Some? ==>
                  forall c :: c in end.value.cells && !IsLink(end.value.table, c) ==>
                    MovedRow(end.value, At(p)).cells[c]
                    == PlusInt(end.value.cells[c], p.node * StrideOf(end.value.table, c)))
  {
    OwnRowIsCollected(batches, p, w);
    CollectedHoldsEach(batches, p);
    hide Collected, Own, Follow, AllWithOffset, LinksFit, References, WithOffset;
    hide IsOwnRow, IsCollected, FitAll, Of, HoldsKeyed;
    FollowMoves(Collected(batches), Own(batches, p), p, w, path);
    var end := Follow(Own(batches, p), w, path);
    if end.Some? {
      DataStays(end.value, At(p));
    }
  }

  lemma DataStays(w: Written, at: Place)
    ensures forall c :: c in w.cells && !IsLink(w.table, c) ==>
              MovedRow(w, at).cells[c] == PlusInt(w.cells[c], at.node * StrideOf(w.table, c))
  {
    forall c | c in w.cells && !IsLink(w.table, c)
      ensures MovedRow(w, at).cells[c] == PlusInt(w.cells[c], at.node * StrideOf(w.table, c))
    {
      OffsetGoesToLinks(w.table, c);
    }
  }
}
