/** The database columns of every table, transcribed three times over: what the
    schema declares (rocpd_python/rocpd/schema_data/tableSchema.cmd:2-16), which
    struct field each writeBatch() binds to which column, and which of them it
    binds with the id offset added (rpd_tracer/OpTable.cpp:68-81 and the like). */
module SqlSchema {
  import opened Wrappers
  import RowCodec

  datatype SqlTable = Strings | UStrings | Api | KernelApi | CopyApi | Op | ApiOps | StackFrame | Counter | Monitor

  /** Columns that name rows, and all others by name. */
  datatype SqlColumn =
    | Id | ApiPtrId | ApiId | OpId | NameId | DomainId | CategoryId | ApiNameId | ArgsId | KernelNameId
    | DescriptionId | OpTypeId
    | Data(name: string)

  // ---- declared --------------------------------------------------------

  /** None where the statement leaves the id to AUTOINCREMENT. */
  function PrimaryKey(t: SqlTable): Option<SqlColumn> {
    match t
    case Strings => Some(Id)
    case UStrings => Some(Id)
    case Api => Some(Id)
    case Op => Some(Id)
    case KernelApi => Some(ApiPtrId)
    case CopyApi => Some(ApiPtrId)
    case _ => None
  }

  function References(t: SqlTable): map<SqlColumn, SqlTable> {
    match t
    case Api => map[ApiNameId := Strings, CategoryId := Strings, DomainId := Strings, ArgsId := UStrings]
    case KernelApi => map[ApiPtrId := Api, KernelNameId := Strings]
    case CopyApi => map[ApiPtrId := Api]
    case Op => map[DescriptionId := Strings, OpTypeId := Strings]
    case ApiOps => map[ApiId := Api, OpId := Op]
    case StackFrame => map[ApiPtrId := Api, NameId := Strings]
    case Counter => map[OpId := Op, NameId := Strings]
    case _ => map[]
  }

  predicate IsLink(t: SqlTable, c: SqlColumn) {
    PrimaryKey(t) == Some(c) || c in References(t)
  }

  // ---- bound -----------------------------------------------------------

  /** The insert statements of a table's writeBatch(), for each row in turn. */
  function Into(t: RowCodec.Table): (s: seq<SqlTable>)
    ensures 1 <= |s| <= 2
  {
    match t
    case StringTable => [Strings]
    case UStringTable => [UStrings]
    case ApiTable => [Api]
    case KernelApiTable => [KernelApi]
    case CopyApiTable => [CopyApi]
    case OpTable => [Op, ApiOps]
    case MonitorTable => [Monitor]
    case StackFrameTable => [StackFrame]
    case CounterTable => [Counter]
  }

  /** Columns bound to a struct field plus m_idOffset. */
  function WithOffset(t: SqlTable): map<SqlColumn, string> {
    match t
    case Strings => map[Id := "string_id"]
    case UStrings => map[Id := "string_id"]
    case Api =>
      map[Id := "api_id", DomainId := "domain_id", CategoryId := "category_id", ApiNameId := "apiName_id",
          ArgsId := "args_id"]
    case KernelApi => map[ApiPtrId := "api_id", KernelNameId := "kernelName_id"]
    case CopyApi => map[ApiPtrId := "api_id"]
    case Op => map[Id := "op_id", DescriptionId := "description_id", OpTypeId := "opType_id"]
    case ApiOps => map[ApiId := "api_id", OpId := "op_id"]
    case StackFrame => map[ApiPtrId := "api_id"]
    case Counter => map[OpId := "op_id", NameId := "name_id"]
    case Monitor => map[]
  }

  /** Columns bound to a struct field as it is; three of a copy only where
      positive, and "" otherwise. */
  function WithoutOffset(t: SqlTable): map<SqlColumn, string> {
    match t
    case Strings => map[Data("string") := "string"]
    case UStrings => map[Data("string") := "string"]
    case Api => map[Data("pid") := "pid", Data("tid") := "tid", Data("start") := "start", Data("end") := "end"]
    case KernelApi =>
      map[Data("stream") := "stream", Data("gridX") := "gridX", Data("gridY") := "gridY", Data("gridz") := "gridZ",
          Data("workgroupX") := "workgroupX", Data("workgroupY") := "workgroupY", Data("workgroupZ") := "workgroupZ",
          Data("groupSegmentSize") := "groupSegmentSize", Data("privateSegmentSize") := "privateSegmentSize"]
    case CopyApi =>
      map[Data("stream") := "stream", Data("size") := "size", Data("width") := "width", Data("height") := "height",
          Data("kind") := "kind", Data("src") := "dst", Data("dst") := "src", Data("srcDevice") := "dstDevice",
          Data("dstDevice") := "srcDevice", Data("sync") := "sync", Data("pinned") := "pinned"]
    case Op =>
      map[Data("gpuId") := "gpuId", Data("queueId") := "queueId", Data("sequenceId") := "sequenceId",
          Data("start") := "start", Data("end") := "end"]
    case ApiOps => map[]
    case StackFrame => map[Data("depth") := "depth", NameId := "name_id"]
    case Counter => map[Data("value") := "value"]
    case Monitor =>
      map[Data("deviceType") := "deviceType", Data("deviceId") := "deviceId", Data("monitorType") := "monitorType",
          Data("start") := "start", Data("end") := "end", Data("value") := "value"]
  }

  /** The columns a flush statement names; None is `select *`, which copies the
      temporary table's primary key along with all others
      (rpd_tracer/StackFrameTable.cpp:72, rpd_tracer/OpTable.cpp:94-96). */
  function FlushNames(t: SqlTable): Option<set<SqlColumn>> {
    match t
    case ApiOps => Some({ApiId, OpId})
    case Counter => Some({OpId, NameId, Data("value")})
    case Monitor =>
      Some({Data("deviceType"), Data("deviceId"), Data("monitorType"), Data("start"), Data("end"), Data("value")})
    case _ => None
  }

  predicate CopiesId(t: SqlTable) {
    FlushNames(t).None?
  }

  /** A flush leaves no bound column behind; and of the tables whose ids the
      tracer does not choose, only stack frames have them copied. */
  lemma FlushCopiesColumns(t: SqlTable)
    ensures FlushNames(t).Some? ==> FlushNames(t).value == WithOffset(t).Keys + WithoutOffset(t).Keys
    ensures CopiesId(t) && PrimaryKey(t).None? <==> t == StackFrame
    ensures PrimaryKey(t).Some? ==> CopiesId(t)
  {
  }

  predicate OnlyPositive(t: SqlTable, c: SqlColumn) {
    t == CopyApi && (c == Data("size") || c == Data("width") || c == Data("height"))
  }

  predicate IsFrameName(t: SqlTable, c: SqlColumn) {
    t == StackFrame && c == NameId
  }

  /** The offset is added to exactly the keys and references the schema declares,
      but for the name of a stack frame. */
  lemma OffsetGoesToLinks(t: SqlTable, c: SqlColumn)
    ensures c in WithOffset(t) <==> IsLink(t, c) && !IsFrameName(t, c)
  {
  }

  /** What references lead to has a key, and is no stack frame. */
  lemma TargetsHaveKeys(t: SqlTable, c: SqlColumn)
    requires c in References(t)
    ensures PrimaryKey(References(t)[c]).Some? && References(t)[c] != StackFrame
  {
  }

  /** Every key or reference is a 64-bit field that travels in the row. */
  lemma LinksTravel(t: RowCodec.Table, u: SqlTable, c: SqlColumn)
    requires u in Into(t) && IsLink(u, c)
    ensures RowCodec.Field(LinkField(u, c), RowCodec.Int64) in RowCodec.WriteOrder(t)
  {
    match t
    case StringTable =>
    case UStringTable =>
    case ApiTable => ApiLinksTravel(c);
    case KernelApiTable => KernelLinksTravel(c);
    case CopyApiTable =>
    case OpTable => OpLinksTravel(u, c);
    case MonitorTable =>
    case StackFrameTable =>
    case CounterTable =>
  }

  lemma ApiLinksTravel(c: SqlColumn)
    requires IsLink(Api, c)
    ensures RowCodec.Field(LinkField(Api, c), RowCodec.Int64) in RowCodec.WriteOrder(RowCodec.ApiTable)
  {
  }

  lemma KernelLinksTravel(c: SqlColumn)
    requires IsLink(KernelApi, c)
    ensures RowCodec.Field(LinkField(KernelApi, c), RowCodec.Int64) in RowCodec.WriteOrder(RowCodec.KernelApiTable)
  {
  }

  lemma OpLinksTravel(u: SqlTable, c: SqlColumn)
    requires (u == Op || u == ApiOps) && IsLink(u, c)
    ensures RowCodec.Field(LinkField(u, c), RowCodec.Int64) in RowCodec.WriteOrder(RowCodec.OpTable)
  {
  }

  /** The struct field a key or reference is bound to. */
  function LinkField(t: SqlTable, c: SqlColumn): string
    requires IsLink(t, c)
  {
    OffsetGoesToLinks(t, c);
    if c in WithOffset(t) then WithOffset(t)[c] else "name_id"
  }

  // ---- a row in the database -------------------------------------------

  type Cells = map<SqlColumn, RowCodec.Value>

  function FieldOf(r: RowCodec.RowData, name: string): RowCodec.Value {
    if name in r then r[name] else RowCodec.IntV(0)
  }

  function Plus(v: RowCodec.Value, off: int): RowCodec.Value {
    if v.Int64V? then RowCodec.Int64V(v.l + off) else v
  }

  /** Where rows are written: the id offset, and the node whose strides were added
      to process, thread and GPU numbers (rpd_tracer/RemoteDataSource.cpp:76-111). */
  datatype Place = Place(offset: int, node: nat)

  const HOME := Place(0, 0)
  const PID_STRIDE := 10_000_000
  const GPU_STRIDE := 1000

  function StrideOf(t: SqlTable, c: SqlColumn): nat {
    if t == Api && (c == Data("pid") || c == Data("tid")) then PID_STRIDE
    else if t == Op && c == Data("gpuId") then GPU_STRIDE
    else 0
  }

  /** Addition on a 32-bit int, as two's complement machines do it. */
  function Int32(x: int): int {
    (x + 0x8000_0000) % 0x1_0000_0000 - 0x8000_0000
  }

  function PlusInt(v: RowCodec.Value, n: int): RowCodec.Value {
    if v.IntV? && n != 0 then RowCodec.IntV(Int32(v.i + n)) else v
  }

  function Raw(t: SqlTable, c: SqlColumn, v: RowCodec.Value, at: Place): RowCodec.Value {
    if OnlyPositive(t, c) then if v.IntV? && v.i > 0 then v else RowCodec.TextV([])
    else PlusInt(v, at.node * StrideOf(t, c))
  }

  /** What one insert statement stores. */
  function Stored(t: SqlTable, r: RowCodec.RowData, at: Place): Cells {
    map c | c in WithOffset(t).Keys + WithoutOffset(t).Keys ::
      if c in WithOffset(t) then Plus(FieldOf(r, WithOffset(t)[c]), at.offset)
      else Raw(t, c, FieldOf(r, WithoutOffset(t)[c]), at)
  }

  /** Cells stored at home, as they are stored elsewhere. */
  function Moved(t: SqlTable, cells: Cells, at: Place): Cells {
    map c | c in cells ::
      if c in WithOffset(t) then Plus(cells[c], at.offset) else PlusInt(cells[c], at.node * StrideOf(t, c))
  }

  lemma StoredMoves(t: SqlTable, r: RowCodec.RowData, at: Place)
    ensures Stored(t, r, at) == Moved(t, Stored(t, r, HOME), at)
  {
    hide WithOffset, WithoutOffset, Raw, FieldOf;
    forall c: SqlColumn, v ensures Raw(t, c, v, at) == PlusInt(Raw(t, c, v, HOME), at.node * StrideOf(t, c)) {
      RawMoves(t, c, v, at);
    }
  }

  lemma RawMoves(t: SqlTable, c: SqlColumn, v: RowCodec.Value, at: Place)
    ensures Raw(t, c, v, at) == PlusInt(Raw(t, c, v, HOME), at.node * StrideOf(t, c))
  {
    assert 0 * StrideOf(t, c) == 0 && at.node * 0 == 0;
  }

  predicate Fits(n: int, added: int) {
    Int32(n + added) == n + added
  }

  /** The strides of a node can be added to every number below the stride without
      overflow exactly up to this node. */
  lemma StrideFits(stride: nat, node: nat)
    requires stride > 0
    ensures (forall n: nat :: n < stride ==> Fits(n, node * stride))
            <==> (node + 1) * stride <= 0x8000_0000
  {
    var top := stride - 1;
    assert (node + 1) * stride == node * stride + stride;
    assert top + node * stride >= 0;
    if (node + 1) * stride > 0x8000_0000 {
      TooLarge(top + node * stride);
      assert !Fits(top, node * stride);
    }
  }

  lemma TooLarge(x: int)
    requires x >= 0x8000_0000
    ensures Int32(x) != x
  {
  }

  /** So process numbers fit on nodes up to 213, though the key space has 32768. */
  lemma PidsFitUpTo213(node: nat)
    ensures (forall pid: nat :: pid < PID_STRIDE ==> Fits(pid, node * PID_STRIDE))
            <==> node <= 213
  {
    StrideFits(PID_STRIDE, node);
  }

  lemma PlainCell(t: SqlTable, c: SqlColumn, r: RowCodec.RowData, at: Place)
    requires c.Data? && c in WithoutOffset(t) && !OnlyPositive(t, c) && StrideOf(t, c) == 0
    ensures c in Stored(t, r, at) && Stored(t, r, at)[c] == FieldOf(r, WithoutOffset(t)[c])
  {
    OffsetGoesToLinks(t, c);
    hide WithOffset, WithoutOffset, FieldOf;
    assert at.node * 0 == 0;
  }

  /** The copy table binds destination and source to each other's columns. */
  lemma CopyEndsAreSwapped(r: RowCodec.RowData, at: Place)
    ensures var cells := Stored(CopyApi, r, at);
            && Data("src") in cells && cells[Data("src")] == FieldOf(r, "dst")
            && Data("dst") in cells && cells[Data("dst")] == FieldOf(r, "src")
            && Data("srcDevice") in cells && cells[Data("srcDevice")] == FieldOf(r, "dstDevice")
            && Data("dstDevice") in cells && cells[Data("dstDevice")] == FieldOf(r, "srcDevice")
  {
    CopyBinds();
    hide WithoutOffset, Stored, FieldOf;
    PlainCell(CopyApi, Data("src"), r, at);
    PlainCell(CopyApi, Data("dst"), r, at);
    PlainCell(CopyApi, Data("srcDevice"), r, at);
    PlainCell(CopyApi, Data("dstDevice"), r, at);
  }

  lemma CopyBinds()
    ensures var b := WithoutOffset(CopyApi);
            && Data("src") in b && b[Data("src")] == "dst" && Data("dst") in b && b[Data("dst")] == "src"
            && Data("srcDevice") in b && b[Data("srcDevice")] == "dstDevice"
            && Data("dstDevice") in b && b[Data("dstDevice")] == "srcDevice"
  {
    assert "src"[0] != "dst"[0] && "srcDevice"[0] != "dstDevice"[0];
  }
}
