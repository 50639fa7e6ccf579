/** What each column of each table holds for a row that arrived on the wire, in
    terms of the struct's fields: the database as those who query its columns
    read it (rpd_tracer/OpTable.cpp:62-85, rpd_tracer/ApiTable.cpp:52-69,
    rpd_tracer/KernelApiTable.cpp:53-72, rpd_tracer/CopyApiTable.cpp:52-81 and
    the like). */
module TableCells {
  import opened SqlSchema
  import opened RingTable
  import RowCodec
  import ByteCodec

  /** The table of the tracer that feeds a table of the database. */
  function Source(u: SqlTable): RowCodec.Table {
    match u
    case Strings => RowCodec.StringTable
    case UStrings => RowCodec.UStringTable
    case Api => RowCodec.ApiTable
    case KernelApi => RowCodec.KernelApiTable
    case CopyApi => RowCodec.CopyApiTable
    case Op => RowCodec.OpTable
    case ApiOps => RowCodec.OpTable
    case StackFrame => RowCodec.StackFrameTable
    case Counter => RowCodec.CounterTable
    case Monitor => RowCodec.MonitorTable
  }

  lemma SourcesFeed(t: RowCodec.Table, u: SqlTable)
    ensures u in Into(t) <==> Source(u) == t
  {
  }

  /** What a column holds of a struct field. */
  datatype Meaning =
    | Link(field: string)                       // an id of the process, plus the id offset
    | Same(field: string, kind: RowCodec.Kind)  // the field as it is
    | Numbered(field: string, stride: nat)      // a number plus the node's stride, in 32 bits
    | WherePositive(field: string)              // a positive number, or the empty text

  function Meanings(u: SqlTable): map<SqlColumn, Meaning> {
    match u
    case Strings => map[Id := Link("string_id"), Data("string") := Same("string", RowCodec.Text)]
    case UStrings => map[Id := Link("string_id"), Data("string") := Same("string", RowCodec.Text)]
    case Api =>
      map[Id := Link("api_id"), Data("pid") := Numbered("pid", 10_000_000),
          Data("tid") := Numbered("tid", 10_000_000), Data("start") := Same("start", RowCodec.Int64),
          Data("end") := Same("end", RowCodec.Int64), DomainId := Link("domain_id"),
          CategoryId := Link("category_id"), ApiNameId := Link("apiName_id"), ArgsId := Link("args_id")]
    case KernelApi =>
      map[ApiPtrId := Link("api_id"), Data("stream") := Same("stream", RowCodec.Text),
          Data("gridX") := Same("gridX", RowCodec.Int), Data("gridY") := Same("gridY", RowCodec.Int),
          Data("gridz") := Same("gridZ", RowCodec.Int), Data("workgroupX") := Same("workgroupX", RowCodec.Int),
          Data("workgroupY") := Same("workgroupY", RowCodec.Int),
          Data("workgroupZ") := Same("workgroupZ", RowCodec.Int),
          Data("groupSegmentSize") := Same("groupSegmentSize", RowCodec.Int),
          Data("privateSegmentSize") := Same("privateSegmentSize", RowCodec.Int),
          KernelNameId := Link("kernelName_id")]
    case CopyApi =>
      map[ApiPtrId := Link("api_id"), Data("stream") := Same("stream", RowCodec.Text),
          Data("size") := WherePositive("size"), Data("width") := WherePositive("width"),
          Data("height") := WherePositive("height"), Data("kind") := Same("kind", RowCodec.Int),
          Data("src") := Same("dst", RowCodec.Text), Data("dst") := Same("src", RowCodec.Text),
          Data("srcDevice") := Same("dstDevice", RowCodec.Int), Data("dstDevice") := Same("srcDevice", RowCodec.Int),
          Data("sync") := Same("sync", RowCodec.Bool), Data("pinned") := Same("pinned", RowCodec.Bool)]
    case Op =>
      map[Id := Link("op_id"), Data("gpuId") := Numbered("gpuId", 1000),
          Data("queueId") := Same("queueId", RowCodec.Int), Data("sequenceId") := Same("sequenceId", RowCodec.Int),
          Data("start") := Same("start", RowCodec.Int64), Data("end") := Same("end", RowCodec.Int64),
          DescriptionId := Link("description_id"), OpTypeId := Link("opType_id")]
    case ApiOps => map[ApiId := Link("api_id"), OpId := Link("op_id")]
    case StackFrame =>
      map[ApiPtrId := Link("api_id"), Data("depth") := Same("depth", RowCodec.Int),
          NameId := Same("name_id", RowCodec.Int64)]
    case Counter =>
      map[OpId := Link("op_id"), NameId := Link("name_id"), Data("value") := Same("value", RowCodec.Double)]
    case Monitor =>
      map[Data("deviceType") := Same("deviceType", RowCodec.Text),
          Data("deviceId") := Same("deviceId", RowCodec.Int64),
          Data("monitorType") := Same("monitorType", RowCodec.Text), Data("start") := Same("start", RowCodec.Int64),
          Data("end") := Same("end", RowCodec.Int64), Data("value") := Same("value", RowCodec.Int64)]
  }

  /** The cell means this of row r, stored at a place. */
  predicate Means(v: RowCodec.Value, m: Meaning, r: RowCodec.RowData, at: Place) {
    && m.field in r
    && match m
       case Link(f) => r[f].Int64V? && v == RowCodec.Int64V(r[f].l + at.offset)
       case Same(f, _) => v == r[f]
       case Numbered(f, stride) => r[f].IntV? && v == RowCodec.IntV(Int32(r[f].i + at.node * stride))
       case WherePositive(f) => r[f].IntV? && v == if r[f].i > 0 then r[f] else RowCodec.TextV([])
  }

  // ---- the insert statements keep to it --------------------------------

  function KindOf(m: Meaning): RowCodec.Kind {
    match m
    case Link(_) => RowCodec.Int64
    case Same(_, kind) => kind
    case Numbered(_, _) => RowCodec.Int
    case WherePositive(_) => RowCodec.Int
  }

  /** The field is on the wire. */
  predicate Travels(t: RowCodec.Table, m: Meaning) {
    RowCodec.Field(m.field, KindOf(m)) in RowCodec.WriteOrder(t)
  }

  /** The statement binds the field, with the offset exactly for a link. */
  predicate Bound(u: SqlTable, c: SqlColumn, m: Meaning) {
    if m.Link? then c in WithOffset(u) && WithOffset(u)[c] == m.field
    else c !in WithOffset(u) && c in WithoutOffset(u) && WithoutOffset(u)[c] == m.field
  }

  /** And treats its value as the meaning says. */
  predicate Treated(u: SqlTable, c: SqlColumn, m: Meaning) {
    m.Link? || ((OnlyPositive(u, c) <==> m.WherePositive?) && StrideOf(u, c) == if m.Numbered? then m.stride else 0)
  }

  lemma ColumnsAre(u: SqlTable)
    ensures Meanings(u).Keys == WithOffset(u).Keys + WithoutOffset(u).Keys
  {
  }

  lemma ColumnBound(u: SqlTable, c: SqlColumn)
    requires c in Meanings(u)
    ensures Bound(u, c, Meanings(u)[c])
  {
    match u
    case Api => ApiBound(c);
    case KernelApi => KernelBound(c);
    case CopyApi => CopyBound(c);
    case Op => OpBound(c);
    case Monitor => MonitorBound(c);
    case _ => SmallBound(u, c);
  }

  lemma ApiBound(c: SqlColumn)
    requires c in Meanings(Api)
    ensures Bound(Api, c, Meanings(Api)[c])
  {
  }

  lemma KernelBound(c: SqlColumn)
    requires c in Meanings(KernelApi)
    ensures Bound(KernelApi, c, Meanings(KernelApi)[c])
  {
  }

  lemma CopyBound(c: SqlColumn)
    requires c in Meanings(CopyApi)
    ensures Bound(CopyApi, c, Meanings(CopyApi)[c])
  {
  }

  lemma OpBound(c: SqlColumn)
    requires c in Meanings(Op)
    ensures Bound(Op, c, Meanings(Op)[c])
  {
  }

  lemma MonitorBound(c: SqlColumn)
    requires c in Meanings(Monitor)
    ensures Bound(Monitor, c, Meanings(Monitor)[c])
  {
  }

  lemma SmallBound(u: SqlTable, c: SqlColumn)
    requires c in Meanings(u) && u != Api && u != KernelApi && u != CopyApi && u != Op && u != Monitor
    ensures Bound(u, c, Meanings(u)[c])
  {
  }

  lemma ColumnTreated(u: SqlTable, c: SqlColumn)
    requires c in Meanings(u)
    ensures Treated(u, c, Meanings(u)[c])
  {
    match u
    case Api => ApiTreated(c);
    case KernelApi => KernelTreated(c);
    case CopyApi => CopyTreated(c);
    case Op => OpTreated(c);
    case Monitor => MonitorTreated(c);
    case _ => SmallTreated(u, c);
  }

  lemma ApiTreated(c: SqlColumn)
    requires c in Meanings(Api)
    ensures Treated(Api, c, Meanings(Api)[c])
  {
  }

  lemma KernelTreated(c: SqlColumn)
    requires c in Meanings(KernelApi)
    ensures Treated(KernelApi, c, Meanings(KernelApi)[c])
  {
  }

  lemma CopyTreated(c: SqlColumn)
    requires c in Meanings(CopyApi)
    ensures Treated(CopyApi, c, Meanings(CopyApi)[c])
  {
  }

  lemma OpTreated(c: SqlColumn)
    requires c in Meanings(Op)
    ensures Treated(Op, c, Meanings(Op)[c])
  {
  }

  lemma MonitorTreated(c: SqlColumn)
    requires c in Meanings(Monitor)
    ensures Treated(Monitor, c, Meanings(Monitor)[c])
  {
  }

  lemma SmallTreated(u: SqlTable, c: SqlColumn)
    requires c in Meanings(u) && u != Api && u != KernelApi && u != CopyApi && u != Op && u != Monitor
    ensures Treated(u, c, Meanings(u)[c])
  {
  }

  lemma ColumnTravels(u: SqlTable, c: SqlColumn)
    requires c in Meanings(u)
    ensures Travels(Source(u), Meanings(u)[c])
  {
    match u
    case Api => ApiTravels(c);
    case KernelApi => KernelTravels(c);
    case CopyApi => CopyTravels(c);
    case Op => OpTravels(c);
    case Monitor => MonitorTravels(c);
    case _ => SmallTravels(u, c);
  }

  lemma ApiTravels(c: SqlColumn)
    requires c in Meanings(Api)
    ensures Travels(Source(Api), Meanings(Api)[c])
  {
  }

  lemma KernelTravels(c: SqlColumn)
    requires c in Meanings(KernelApi)
    ensures Travels(Source(KernelApi), Meanings(KernelApi)[c])
  {
    KernelFields();
    hide Travels;
  }

  lemma KernelFields()
    ensures Source(KernelApi) == RowCodec.KernelApiTable
    ensures Travels(RowCodec.KernelApiTable, Link("api_id"))
    ensures Travels(RowCodec.KernelApiTable, Same("stream", RowCodec.Text))
    ensures Travels(RowCodec.KernelApiTable, Same("gridX", RowCodec.Int))
    ensures Travels(RowCodec.KernelApiTable, Same("gridY", RowCodec.Int))
    ensures Travels(RowCodec.KernelApiTable, Same("gridZ", RowCodec.Int))
    ensures Travels(RowCodec.KernelApiTable, Same("workgroupX", RowCodec.Int))
    ensures Travels(RowCodec.KernelApiTable, Same("workgroupY", RowCodec.Int))
    ensures Travels(RowCodec.KernelApiTable, Same("workgroupZ", RowCodec.Int))
    ensures Travels(RowCodec.KernelApiTable, Same("groupSegmentSize", RowCodec.Int))
    ensures Travels(RowCodec.KernelApiTable, Same("privateSegmentSize", RowCodec.Int))
    ensures Travels(RowCodec.KernelApiTable, Link("kernelName_id"))
  {
  }

  lemma CopyTravels(c: SqlColumn)
    requires c in Meanings(CopyApi)
    ensures Travels(Source(CopyApi), Meanings(CopyApi)[c])
  {
    CopyFields();
    hide Travels;
  }

  lemma CopyFields()
    ensures Source(CopyApi) == RowCodec.CopyApiTable
    ensures Travels(RowCodec.CopyApiTable, Link("api_id"))
    ensures Travels(RowCodec.CopyApiTable, Same("stream", RowCodec.Text))
    ensures Travels(RowCodec.CopyApiTable, WherePositive("size"))
    ensures Travels(RowCodec.CopyApiTable, WherePositive("width"))
    ensures Travels(RowCodec.CopyApiTable, WherePositive("height"))
    ensures Travels(RowCodec.CopyApiTable, Same("kind", RowCodec.Int))
    ensures Travels(RowCodec.CopyApiTable, Same("dst", RowCodec.Text))
    ensures Travels(RowCodec.CopyApiTable, Same("src", RowCodec.Text))
    ensures Travels(RowCodec.CopyApiTable, Same("dstDevice", RowCodec.Int))
    ensures Travels(RowCodec.CopyApiTable, Same("srcDevice", RowCodec.Int))
    ensures Travels(RowCodec.CopyApiTable, Same("sync", RowCodec.Bool))
    ensures Travels(RowCodec.CopyApiTable, Same("pinned", RowCodec.Bool))
  {
  }

  lemma OpTravels(c: SqlColumn)
    requires c in Meanings(Op)
    ensures Travels(Source(Op), Meanings(Op)[c])
  {
  }

  lemma MonitorTravels(c: SqlColumn)
    requires c in Meanings(Monitor)
    ensures Travels(Source(Monitor), Meanings(Monitor)[c])
  {
  }

  lemma SmallTravels(u: SqlTable, c: SqlColumn)
    requires c in Meanings(u) && u != Api && u != KernelApi && u != CopyApi && u != Op && u != Monitor
    ensures Travels(Source(u), Meanings(u)[c])
  {
  }

  lemma FieldArrives(t: RowCodec.Table, r: RowCodec.RowData, m: Meaning)
    requires RowCodec.IsRow(t, r) && Travels(t, m)
    ensures m.field in r && FieldOf(r, m.field) == r[m.field]
    ensures m.Link? ==> r[m.field].Int64V?
    ensures m.Numbered? || m.WherePositive? ==> r[m.field].IntV? && ByteCodec.IsInt(r[m.field].i)
  {
    hide RowCodec.WriteOrder;
    var f := RowCodec.Field(m.field, KindOf(m));
    assert f.name in r && RowCodec.Fits(f, r[f.name]);
  }

  lemma StoredAsBound(u: SqlTable, c: SqlColumn, r: RowCodec.RowData, at: Place)
    requires c in WithOffset(u) || c in WithoutOffset(u)
    ensures c in Stored(u, r, at)
    ensures c in WithOffset(u) ==> Stored(u, r, at)[c] == Plus(FieldOf(r, WithOffset(u)[c]), at.offset)
    ensures c !in WithOffset(u) ==> Stored(u, r, at)[c] == Raw(u, c, FieldOf(r, WithoutOffset(u)[c]), at)
  {
    hide WithOffset, WithoutOffset, Raw, FieldOf, Plus;
  }

  /** The cell a bound field becomes. */
  lemma CellMeans(u: SqlTable, c: SqlColumn, m: Meaning, r: RowCodec.RowData, at: Place)
    requires RowCodec.IsRow(Source(u), r) && Travels(Source(u), m) && Bound(u, c, m) && Treated(u, c, m)
    ensures c in Stored(u, r, at) && Means(Stored(u, r, at)[c], m, r, at)
  {
    FieldArrives(Source(u), r, m);
    hide RowCodec.IsRow, Travels, FieldOf, Stored, Treated, Source, WithOffset, WithoutOffset, Means, Raw, Plus;
    StoredAsBound(u, c, r, at);
    if m.Link? {
      PlusMeans(m, r, at);
    } else {
      RawMeans(u, c, m, r, at);
    }
  }

  lemma PlusMeans(m: Meaning, r: RowCodec.RowData, at: Place)
    requires m.Link? && m.field in r && r[m.field].Int64V?
    ensures Means(Plus(r[m.field], at.offset), m, r, at)
  {
  }

  lemma RawMeans(u: SqlTable, c: SqlColumn, m: Meaning, r: RowCodec.RowData, at: Place)
    requires !m.Link? && m.field in r && Treated(u, c, m)
    requires m.Numbered? || m.WherePositive? ==> r[m.field].IntV? && ByteCodec.IsInt(r[m.field].i)
    ensures Means(Raw(u, c, r[m.field], at), m, r, at)
  {
    hide Int32, StrideOf, OnlyPositive;
    assert at.node * 0 == 0;
    if m.Numbered? {
      StaysInt(r[m.field].i);
      assert r[m.field].i + 0 == r[m.field].i;
    }
  }

  lemma StaysInt(i: int)
    requires ByteCodec.IsInt(i)
    ensures Int32(i) == i
  {
  }

  /** Every column of every table means what it should, wherever it is stored,
      and there are no others. */
  lemma ColumnsMean(u: SqlTable, r: RowCodec.RowData, at: Place)
    requires RowCodec.IsRow(Source(u), r)
    ensures Stored(u, r, at).Keys == Meanings(u).Keys
    ensures forall c :: c in Meanings(u) ==> Means(Stored(u, r, at)[c], Meanings(u)[c], r, at)
  {
    hide *;
    ColumnsAre(u);
    StoredKeys(u, r, at);
    forall c | c in Meanings(u) ensures Means(Stored(u, r, at)[c], Meanings(u)[c], r, at) {
      ColumnBound(u, c);
      ColumnTreated(u, c);
      ColumnTravels(u, c);
      CellMeans(u, c, Meanings(u)[c], r, at);
    }
  }

  lemma StoredKeys(u: SqlTable, r: RowCodec.RowData, at: Place)
    ensures Stored(u, r, at).Keys == WithOffset(u).Keys + WithoutOffset(u).Keys
  {
    hide WithOffset, WithoutOffset;
  }

  // ---- operations, from the ring to the database -----------------------

  /** The row on the wire is this slot of the ring. */
  predicate Carries(r: RowCodec.RowData, o: OpRow) {
    && "op_id" in r && r["op_id"] == RowCodec.Int64V(o.opId)
    && "api_id" in r && r["api_id"] == RowCodec.Int64V(o.apiId)
    && "gpuId" in r && r["gpuId"] == RowCodec.IntV(o.gpuId)
    && "queueId" in r && r["queueId"] == RowCodec.IntV(o.queueId)
    && "sequenceId" in r && r["sequenceId"] == RowCodec.IntV(o.sequenceId)
    && "start" in r && r["start"] == RowCodec.Int64V(o.start)
    && "end" in r && r["end"] == RowCodec.Int64V(o.end)
    && "description_id" in r && r["description_id"] == RowCodec.Int64V(o.descriptionId)
    && "opType_id" in r && r["opType_id"] == RowCodec.Int64V(o.opTypeId)
  }

  /** The cells read as this row of rocpd_op. */
  predicate ReadsAsOp(cells: Cells, s: StoredOp) {
    && Id in cells && cells[Id] == RowCodec.Int64V(s.id)
    && Data("gpuId") in cells && cells[Data("gpuId")] == RowCodec.IntV(s.gpuId)
    && Data("queueId") in cells && cells[Data("queueId")] == RowCodec.IntV(s.queueId)
    && Data("sequenceId") in cells && cells[Data("sequenceId")] == RowCodec.IntV(s.sequenceId)
    && Data("start") in cells && cells[Data("start")] == RowCodec.Int64V(s.start)
    && Data("end") in cells && cells[Data("end")] == RowCodec.Int64V(s.end)
    && DescriptionId in cells && cells[DescriptionId] == RowCodec.Int64V(s.descriptionId)
    && OpTypeId in cells && cells[OpTypeId] == RowCodec.Int64V(s.opTypeId)
  }

  predicate ReadsAsLink(cells: Cells, l: StoredLink) {
    && ApiId in cells && cells[ApiId] == RowCodec.Int64V(l.apiId)
    && OpId in cells && cells[OpId] == RowCodec.Int64V(l.opId)
  }

  lemma ReadCell(u: SqlTable, c: SqlColumn, m: Meaning, r: RowCodec.RowData, at: Place)
    requires RowCodec.IsRow(Source(u), r) && c in Meanings(u) && Meanings(u)[c] == m
    ensures c in Stored(u, r, at) && Means(Stored(u, r, at)[c], m, r, at)
  {
    hide *;
    ColumnsMean(u, r, at);
    assert c in Stored(u, r, at).Keys;
  }

  lemma LinkCell(u: SqlTable, c: SqlColumn, field: string, r: RowCodec.RowData, off: int, id: int)
    requires RowCodec.IsRow(Source(u), r) && c in Meanings(u) && Meanings(u)[c] == Link(field)
    requires field in r && r[field] == RowCodec.Int64V(id)
    ensures c in Stored(u, r, Place(off, 0)) && Stored(u, r, Place(off, 0))[c] == RowCodec.Int64V(id + off)
  {
    hide RowCodec.IsRow, Meanings, Stored;
    ReadCell(u, c, Link(field), r, Place(off, 0));
  }

  lemma SameCell(u: SqlTable, c: SqlColumn, field: string, kind: RowCodec.Kind, r: RowCodec.RowData, off: int)
    requires RowCodec.IsRow(Source(u), r) && c in Meanings(u) && Meanings(u)[c] == Same(field, kind)
    ensures field in r && c in Stored(u, r, Place(off, 0)) && Stored(u, r, Place(off, 0))[c] == r[field]
  {
    hide RowCodec.IsRow, Meanings, Stored;
    ReadCell(u, c, Same(field, kind), r, Place(off, 0));
  }

  /** On its own node a number has no stride added. */
  lemma NumberCell(u: SqlTable, c: SqlColumn, field: string, stride: nat, r: RowCodec.RowData, off: int)
    requires RowCodec.IsRow(Source(u), r) && c in Meanings(u) && Meanings(u)[c] == Numbered(field, stride)
    ensures field in r && c in Stored(u, r, Place(off, 0)) && Stored(u, r, Place(off, 0))[c] == r[field]
  {
    ColumnTravels(u, c);
    FieldArrives(Source(u), r, Numbered(field, stride));
    hide RowCodec.IsRow, Meanings, Stored, Travels, Int32;
    ReadCell(u, c, Numbered(field, stride), r, Place(off, 0));
    assert 0 * stride == 0;
    StaysInt(r[field].i);
  }

  lemma OpMeanings()
    ensures var m := Meanings(Op);
            && Id in m && m[Id] == Link("op_id") && DescriptionId in m && m[DescriptionId] == Link("description_id")
            && OpTypeId in m && m[OpTypeId] == Link("opType_id")
            && Data("gpuId") in m && m[Data("gpuId")] == Numbered("gpuId", GPU_STRIDE)
            && Data("queueId") in m && m[Data("queueId")] == Same("queueId", RowCodec.Int)
            && Data("sequenceId") in m && m[Data("sequenceId")] == Same("sequenceId", RowCodec.Int)
            && Data("start") in m && m[Data("start")] == Same("start", RowCodec.Int64)
            && Data("end") in m && m[Data("end")] == Same("end", RowCodec.Int64)
    ensures var m := Meanings(ApiOps); ApiId in m && m[ApiId] == Link("api_id") && OpId in m && m[OpId] == Link("op_id")
    ensures Source(Op) == RowCodec.OpTable == Source(ApiOps)
  {
  }

  /** Written by its own process, an operation that went over the wire is stored
      as the ring's worker stores it, column by column and in both tables. */
  lemma WireOpIsRingOp(r: RowCodec.RowData, o: OpRow, off: int)
    requires RowCodec.IsRow(RowCodec.OpTable, r) && Carries(r, o)
    ensures ReadsAsOp(Stored(Op, r, Place(off, 0)), OpOf(o, off))
    ensures ReadsAsLink(Stored(ApiOps, r, Place(off, 0)), LinkOf(o, off))
  {
    hide RowCodec.IsRow, Stored, Meanings, Source;
    OpMeanings();
    LinkCell(Op, Id, "op_id", r, off, o.opId);
    LinkCell(Op, DescriptionId, "description_id", r, off, o.descriptionId);
    LinkCell(Op, OpTypeId, "opType_id", r, off, o.opTypeId);
    NumberCell(Op, Data("gpuId"), "gpuId", GPU_STRIDE, r, off);
    SameCell(Op, Data("queueId"), "queueId", RowCodec.Int, r, off);
    SameCell(Op, Data("sequenceId"), "sequenceId", RowCodec.Int, r, off);
    SameCell(Op, Data("start"), "start", RowCodec.Int64, r, off);
    SameCell(Op, Data("end"), "end", RowCodec.Int64, r, off);
    LinkCell(ApiOps, ApiId, "api_id", r, off, o.apiId);
    LinkCell(ApiOps, OpId, "op_id", r, off, o.opId);
  }
}
