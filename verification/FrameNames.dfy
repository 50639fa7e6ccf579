/** The names of stack frames in a collected database
    (rpd_tracer/StackFrameTable.cpp:55-60). */
module FrameNames {
  import opened Wrappers
  import opened IdSpace
  import opened SqlSchema
  import opened CollectedRows
  import RowCodec
  import ByteCodec

  /** The text a stack frame's name joins to. */
  function NameText(db: Db, frame: Written): Option<RowCodec.Value> {
    match Follow(db, frame, [NameId])
    case None => None
    case Some(s) => if Data("string") in s.cells then Some(s.cells[Data("string")]) else None
  }

  const FIRST := Process(0, 0)

  lemma MovedByNothing(w: Written)
    ensures MovedRow(w, At(FIRST)) == w
  {
    assert At(FIRST) == HOME;
    hide WithOffset, StrideOf;
    assert Moved(w.table, w.cells, HOME) == w.cells by {
      assert forall c :: HOME.node * StrideOf(w.table, c) == 0;
    }
  }

  /** With direct writing, a collected frame's name joins to what session 0 of node 0 has at that id.
      So it joins to its own process's string if and only if the frame is that
      process's or the two have the same text there. */
  lemma FrameNamesAreUnshifted(batches: seq<Batch>, p: Process, frame: Written)
    requires FitsProcess(p) && FitAll(batches) && IsOwnRow(batches, p, frame) && frame.table == StackFrame
    ensures var from := MovedRow(frame, At(p));
            && IsCollected(batches, from)
            && NameText(Collected(batches), from) == NameText(Own(batches, FIRST), frame)
            && (NameText(Collected(batches), from) == NameText(Own(batches, p), frame)
                <==> p == FIRST || NameText(Own(batches, FIRST), frame) == NameText(Own(batches, p), frame))
  {
    OwnRowIsCollected(batches, p, frame);
    CollectedHoldsEach(batches, FIRST);
    hide Collected, Own, LinksFit, IsOwnRow, IsCollected, FitAll, Of;
    FirstNames(Collected(batches), Own(batches, FIRST), p, frame);
  }

  lemma FirstNames(db: Db, own: Db, p: Process, frame: Written)
    requires HoldsKeyed(db, own, FIRST) && LinksFit(StackFrame, frame.cells) && frame.table == StackFrame
    ensures NameText(db, MovedRow(frame, At(p))) == NameText(own, frame)
  {
    var from := MovedRow(frame, At(p));
    IdMoves(frame, NameId, At(p));
    hide LinksFit, Moved;
    var k := Key(Strings, IdIn(frame.cells, NameId));
    assert Shift(k, Offset(FIRST)) == k;
    if k in own.keyed {
      MovedByNothing(own.keyed[k]);
    }
    assert Follow(db, from, [NameId]) == if k in db.keyed then Some(db.keyed[k]) else None;
    assert Follow(own, frame, [NameId]) == if k in own.keyed then Some(own.keyed[k]) else None;
  }

  lemma OneStatement(t: RowCodec.Table, r: RowCodec.RowData)
    requires |Into(t)| == 1
    ensures Statements(t, [r]) == [Statement(Into(t)[0], r)]
  {
    hide Into;
    assert [r][..0] == [] && Statements(t, []) == [] && Statements(t, [r]) == [] + RowStatements(t, r);
  }

  lemma OwnNext(before: seq<Batch>, b: Batch, p: Process)
    ensures Own(before + [b], p) ==
            if b.process == p then Execute(Own(before, p), Statements(b.table, b.rows), p, HOME) else Own(before, p)
  {
    hide Execute, Statements;
    assert (before + [b])[..|before|] == before;
  }

  lemma ExecuteOne(db: Db, st: Statement, p: Process)
    ensures Execute(db, [st], p, HOME) == Insert(db, RowOf(st, p, HOME))
  {
    hide Insert, RowOf;
    assert [st][..0] == [] && Execute(db, [], p, HOME) == db;
  }

  lemma OneRow(before: seq<Batch>, t: RowCodec.Table, r: RowCodec.RowData, p: Process, q: Process)
    requires |Into(t)| == 1
    ensures Own(before + [Batch(q, t, [r])], p) ==
            if q == p then Insert(Own(before, p), RowOf(Statement(Into(t)[0], r), p, HOME)) else Own(before, p)
  {
    hide *;
    OneStatement(t, r);
    OwnNext(before, Batch(q, t, [r]), p);
    ExecuteOne(Own(before, p), Statement(Into(t)[0], r), p);
  }

  function StringRow(id: int, text: seq<ByteCodec.byte>): RowCodec.RowData {
    map["string" := RowCodec.TextV(text), "string_id" := RowCodec.Int64V(id)]
  }

  function FrameRow(api: int, nameId: int): RowCodec.RowData {
    map["api_id" := RowCodec.Int64V(api), "depth" := RowCodec.IntV(0), "name_id" := RowCodec.Int64V(nameId)]
  }

  lemma StringCells(id: int, text: seq<ByteCodec.byte>)
    ensures var cells := Stored(Strings, StringRow(id, text), HOME);
            && cells == map[Id := RowCodec.Int64V(id), Data("string") := RowCodec.TextV(text)]
            && (0 <= id < SESSION_STRIDE ==> LinksFit(Strings, cells))
  {
    assert "string" != "string_id";
  }

  lemma FrameCells(api: int, nameId: int)
    ensures var cells := Stored(StackFrame, FrameRow(api, nameId), HOME);
            && NameId in cells && cells[NameId] == RowCodec.Int64V(nameId)
            && (0 <= api < SESSION_STRIDE && 0 <= nameId < SESSION_STRIDE ==> LinksFit(StackFrame, cells))
  {
    assert "api_id" != "name_id" && "depth" != "name_id";
  }

  const SECOND := Process(1, 0)

  /** Two sessions of one node with different texts under string 1, and a frame
      of the second one. */
  const ASTRAY := [
    Batch(FIRST, RowCodec.StringTable, [StringRow(1, [97])]),
    Batch(SECOND, RowCodec.StringTable, [StringRow(1, [98])]),
    Batch(SECOND, RowCodec.StackFrameTable, [FrameRow(1, 1)])]

  const ASTRAY_FRAME := RowOf(Statement(StackFrame, FrameRow(1, 1)), SECOND, HOME)

  lemma AstrayFits()
    ensures FitAll(ASTRAY)
  {
    StringCells(1, [97]);
    StringCells(1, [98]);
    FrameCells(1, 1);
    hide *;
    OneFits(ASTRAY[0], StringRow(1, [97]), Strings);
    OneFits(ASTRAY[1], StringRow(1, [98]), Strings);
    OneFits(ASTRAY[2], FrameRow(1, 1), StackFrame);
    AllThreeFit(ASTRAY);
  }

  lemma AllThreeFit(batches: seq<Batch>)
    requires |batches| == 3 && FitsBatch(batches[0]) && FitsBatch(batches[1]) && FitsBatch(batches[2])
    ensures FitAll(batches)
  {
    hide FitsBatch;
  }

  lemma OneFits(b: Batch, r: RowCodec.RowData, u: SqlTable)
    requires b.rows == [r] && Into(b.table) == [u] && FitsProcess(b.process) && LinksFit(u, Stored(u, r, HOME))
    ensures FitsBatch(b)
  {
    OneStatement(b.table, r);
    hide LinksFit, Stored, Statements, Into;
  }

  lemma AstrayOwn(p: Process)
    ensures p == FIRST ==>
              Own(ASTRAY, p) == Db(map[Key(Strings, 1) := RowOf(Statement(Strings, StringRow(1, [97])), p, HOME)], [])
    ensures p == SECOND ==>
              Own(ASTRAY, p) == Db(map[Key(Strings, 1) := RowOf(Statement(Strings, StringRow(1, [98])), p, HOME)],
                                   [ASTRAY_FRAME])
  {
    InsertString(1, [97], p);
    InsertString(1, [98], p);
    hide Stored, StringRow, FrameRow, Own, Statements, RowOf;
    OneRow([], RowCodec.StringTable, StringRow(1, [97]), p, FIRST);
    OneRow(ASTRAY[..1], RowCodec.StringTable, StringRow(1, [98]), p, SECOND);
    OneRow(ASTRAY[..2], RowCodec.StackFrameTable, FrameRow(1, 1), p, SECOND);
    NothingYet(p);
    InsertFrame(Own(ASTRAY[..2], p), p);
    hide Insert;
    assert [] + [ASTRAY[0]] == ASTRAY[..1] && ASTRAY[..1] + [ASTRAY[1]] == ASTRAY[..2];
    assert ASTRAY[..2] + [ASTRAY[2]] == ASTRAY;
  }

  lemma InsertString(id: int, text: seq<ByteCodec.byte>, p: Process)
    ensures var w := RowOf(Statement(Strings, StringRow(id, text)), p, HOME);
            Insert(EMPTY, w) == Db(map[Key(Strings, id) := w], [])
  {
    StringCells(id, text);
    hide Stored, StringRow;
  }

  lemma InsertFrame(db: Db, p: Process)
    ensures var w := RowOf(Statement(StackFrame, FrameRow(1, 1)), p, HOME);
            Insert(db, w) == db.(loose := db.loose + [w])
  {
    hide Stored, FrameRow;
  }

  /** There the frame joins to the text of the first session. */
  lemma FrameNameGoesAstray()
    ensures FitAll(ASTRAY) && IsOwnRow(ASTRAY, SECOND, ASTRAY_FRAME)
    ensures IsCollected(ASTRAY, MovedRow(ASTRAY_FRAME, At(SECOND)))
    ensures NameText(Own(ASTRAY, SECOND), ASTRAY_FRAME) == Some(RowCodec.TextV([98]))
    ensures NameText(Collected(ASTRAY), MovedRow(ASTRAY_FRAME, At(SECOND))) == Some(RowCodec.TextV([97]))
  {
    AstrayFits();
    AstrayOwn(FIRST);
    AstrayOwn(SECOND);
    hide Own, Collected, MovedRow, FitAll;
    assert ASTRAY_FRAME in Own(ASTRAY, SECOND).loose;
    FrameNamesAreUnshifted(ASTRAY, SECOND, ASTRAY_FRAME);
    AstrayName(Own(ASTRAY, FIRST), [97], FIRST);
    AstrayName(Own(ASTRAY, SECOND), [98], SECOND);
  }

  lemma AstrayName(own: Db, text: seq<ByteCodec.byte>, p: Process)
    requires Key(Strings, 1) in own.keyed
    requires own.keyed[Key(Strings, 1)] == RowOf(Statement(Strings, StringRow(1, text)), p, HOME)
    ensures NameText(own, ASTRAY_FRAME) == Some(RowCodec.TextV(text))
  {
    StringCells(1, text);
    FrameCells(1, 1);
    hide Stored, StringRow, FrameRow;
    assert Follow(own, ASTRAY_FRAME, [NameId]) == Some(own.keyed[Key(Strings, 1)]);
  }

  lemma NothingYet(p: Process)
    ensures Own([], p) == EMPTY
  {
  }
}
