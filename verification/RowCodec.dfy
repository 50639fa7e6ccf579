/** The rows of the nine tables on the wire.  The order in which each table
    writes its columns and the order in which it reads them are transcribed
    separately from its serialize() and deserialize(). */
module RowCodec {
  import opened Sequences
  import opened ByteCodec

  datatype Kind = Int | Int64 | Bool | Double | Text

  datatype Field = Field(name: string, kind: Kind)

  /** A column value: integers within their width, a double as its bits. */
  datatype Value = IntV(i: int) | Int64V(l: int) | BoolV(b: bool) | DoubleV(bits: nat) | TextV(text: seq<byte>)

  type RowData = map<string, Value>

  datatype Table =
    | StringTable | UStringTable | ApiTable | KernelApiTable | CopyApiTable
    | OpTable | MonitorTable | StackFrameTable | CounterTable

  function WriteOrder(t: Table): seq<Field> {
    match t
    case StringTable => [Field("string", Text), Field("string_id", Int64)]
    case UStringTable => [Field("string", Text), Field("string_id", Int64)]
    case ApiTable =>
      [Field("pid", Int), Field("tid", Int), Field("start", Int64), Field("end", Int64), Field("domain_id", Int64),
       Field("category_id", Int64), Field("apiName_id", Int64), Field("args_id", Int64), Field("api_id", Int64)]
    case KernelApiTable =>
      [Field("stream", Text), Field("gridX", Int), Field("gridY", Int), Field("gridZ", Int), Field("workgroupX", Int),
       Field("workgroupY", Int), Field("workgroupZ", Int), Field("groupSegmentSize", Int),
       Field("privateSegmentSize", Int), Field("kernelName_id", Int64), Field("api_id", Int64)]
    case CopyApiTable =>
      [Field("stream", Text), Field("size", Int), Field("width", Int), Field("height", Int), Field("dst", Text),
       Field("src", Text), Field("dstDevice", Int), Field("srcDevice", Int), Field("kind", Int), Field("sync", Bool),
       Field("pinned", Bool), Field("api_id", Int64)]
    case OpTable =>
      [Field("gpuId", Int), Field("queueId", Int), Field("sequenceId", Int), Field("start", Int64), Field("end", Int64),
       Field("description_id", Int64), Field("opType_id", Int64), Field("api_id", Int64), Field("op_id", Int64)]
    case MonitorTable =>
      [Field("deviceType", Text), Field("monitorType", Text), Field("deviceId", Int64), Field("start", Int64),
       Field("end", Int64), Field("value", Int64)]
    case StackFrameTable => [Field("api_id", Int64), Field("depth", Int), Field("name_id", Int64)]
    case CounterTable => [Field("op_id", Int64), Field("name_id", Int64), Field("value", Double)]
  }

  function ReadOrder(t: Table): seq<Field> {
    match t
    case StringTable => [Field("string", Text), Field("string_id", Int64)]
    case UStringTable => [Field("string", Text), Field("string_id", Int64)]
    case ApiTable =>
      [Field("pid", Int), Field("tid", Int), Field("start", Int64), Field("end", Int64), Field("domain_id", Int64),
       Field("category_id", Int64), Field("apiName_id", Int64), Field("args_id", Int64), Field("api_id", Int64)]
    case KernelApiTable =>
      [Field("stream", Text), Field("gridX", Int), Field("gridY", Int), Field("gridZ", Int), Field("workgroupX", Int),
       Field("workgroupY", Int), Field("workgroupZ", Int), Field("groupSegmentSize", Int),
       Field("privateSegmentSize", Int), Field("kernelName_id", Int64), Field("api_id", Int64)]
    case CopyApiTable =>
      [Field("stream", Text), Field("size", Int), Field("width", Int), Field("height", Int), Field("dst", Text),
       Field("src", Text), Field("dstDevice", Int), Field("srcDevice", Int), Field("kind", Int), Field("sync", Bool),
       Field("pinned", Bool), Field("api_id", Int64)]
    case OpTable =>
      [Field("gpuId", Int), Field("queueId", Int), Field("sequenceId", Int), Field("start", Int64), Field("end", Int64),
       Field("description_id", Int64), Field("opType_id", Int64), Field("api_id", Int64), Field("op_id", Int64)]
    case MonitorTable =>
      [Field("deviceType", Text), Field("monitorType", Text), Field("deviceId", Int64), Field("start", Int64),
       Field("end", Int64), Field("value", Int64)]
    case StackFrameTable => [Field("api_id", Int64), Field("depth", Int), Field("name_id", Int64)]
    case CounterTable => [Field("op_id", Int64), Field("name_id", Int64), Field("value", Double)]
  }

  /** A value of the column's C++ type; a text must have a 32-bit length. */
  predicate Fits(f: Field, v: Value) {
    match f.kind
    case Int => v.IntV? && IsInt(v.i)
    case Int64 => v.Int64V? && IsInt64(v.l)
    case Bool => v.BoolV?
    case Double => v.DoubleV? && v.bits < 0x1_0000_0000_0000_0000
    case Text => v.TextV? && |v.text| < 0x1_0000_0000
  }

  ghost predicate HasFields(fields: seq<Field>, row: RowData) {
    forall f :: f in fields ==> f.name in row && Fits(f, row[f.name])
  }

  ghost predicate IsRow(t: Table, row: RowData) {
    HasFields(WriteOrder(t), row) && forall name :: name in row ==> exists f :: f in WriteOrder(t) && f.name == name
  }

  // ---- one value -------------------------------------------------------

  function ValueBytes(v: Value): seq<byte> {
    match v
    case IntV(i) => Bytes(4, i)
    case Int64V(l) => Bytes(8, l)
    case BoolV(b) => [if b then 1 else 0]
    case DoubleV(bits) => Bytes(8, bits)
    case TextV(text) => StringBytes(text)
  }

  function GetValue(k: Kind, c: Cursor): (Value, Cursor) {
    match k
    case Int => var (i, d) := GetInt(c); (IntV(i), d)
    case Int64 => var (l, d) := GetInt64(c); (Int64V(l), d)
    case Bool => var (b, d) := GetBool(c); (BoolV(b), d)
    case Double => var (bits, d) := GetDouble(c); (DoubleV(bits), d)
    case Text => var (text, d) := GetString(c); (TextV(text), d)
  }

  lemma ValueRoundTrip(f: Field, v: Value, pre: seq<byte>, post: seq<byte>, e: bool)
    requires Fits(f, v)
    ensures GetValue(f.kind, Cursor(pre + ValueBytes(v) + post, |pre|, e))
            == (v, Cursor(pre + ValueBytes(v) + post, |pre| + |ValueBytes(v)|, e))
  {
    TakeMiddle(pre, ValueBytes(v), post, e);
    match v
    case IntV(i) => IntRoundTrip(i);
    case Int64V(l) => IntRoundTrip(l);
    case BoolV(b) =>
    case DoubleV(bits) => Pow4And8(); UnsignedFits(8, bits);
    case TextV(text) => StringRoundTrip(pre, text, post, e);
  }

  // ---- one row ---------------------------------------------------------

  /** A column of the row; a struct has all of them. */
  function Column(row: RowData, f: Field): Value {
    if f.name in row then row[f.name] else IntV(0)
  }

  function RowBytes(fields: seq<Field>, row: RowData): seq<byte> {
    if fields == [] then [] else ValueBytes(Column(row, fields[0])) + RowBytes(fields[1..], row)
  }

  function GetRow(fields: seq<Field>, c: Cursor): (RowData, Cursor) {
    if fields == [] then (map[], c)
    else
      var (v, d) := GetValue(fields[0].kind, c);
      var (row, e) := GetRow(fields[1..], d);
      (map[fields[0].name := v] + row, e)
  }

  function Project(fields: seq<Field>, row: RowData): RowData {
    if fields == [] then map[] else map[fields[0].name := Column(row, fields[0])] + Project(fields[1..], row)
  }

  lemma {:induction false} FieldsRoundTrip(fields: seq<Field>, row: RowData, pre: seq<byte>, post: seq<byte>, e: bool)
    requires HasFields(fields, row)
    ensures GetRow(fields, Cursor(pre + RowBytes(fields, row) + post, |pre|, e))
            == (Project(fields, row), Cursor(pre + RowBytes(fields, row) + post, |pre| + |RowBytes(fields, row)|, e))
    decreases |fields|
  {
    hide ValueBytes, GetValue, Fits, Column;
    if fields == [] {
      assert pre + [] + post == pre + post;
    } else {
      var f, v := fields[0], Column(row, fields[0]);
      var rest := RowBytes(fields[1..], row);
      ColumnFits(fields, row);
      ValueRoundTrip(f, v, pre, rest + post, e);
      Regroup(pre, ValueBytes(v), rest);
      Regroup(pre + ValueBytes(v), rest, post);
      FieldsRoundTrip(fields[1..], row, pre + ValueBytes(v), post, e);
    }
  }

  lemma ColumnFits(fields: seq<Field>, row: RowData)
    requires HasFields(fields, row) && fields != []
    ensures Fits(fields[0], Column(row, fields[0])) && HasFields(fields[1..], row)
  {
  }

  lemma {:induction false} ProjectKeys(fields: seq<Field>, row: RowData)
    requires forall f :: f in fields ==> f.name in row
    ensures forall name :: name in Project(fields, row) <==> exists f :: f in fields && f.name == name
    ensures forall name :: name in Project(fields, row) ==> name in row && Project(fields, row)[name] == row[name]
  {
    if fields != [] {
      ProjectKeys(fields[1..], row);
      assert fields == [fields[0]] + fields[1..];
    }
  }

  /** deserialize() reads the columns serialize() wrote, in the same order. */
  lemma SameOrder(t: Table)
    ensures ReadOrder(t) == WriteOrder(t)
  {
  }

  lemma RowRoundTrip(t: Table, row: RowData, pre: seq<byte>, post: seq<byte>, e: bool)
    requires IsRow(t, row)
    ensures GetRow(ReadOrder(t), Cursor(pre + RowBytes(WriteOrder(t), row) + post, |pre|, e))
            == (row, Cursor(pre + RowBytes(WriteOrder(t), row) + post, |pre| + |RowBytes(WriteOrder(t), row)|, e))
  {
    hide WriteOrder, ReadOrder, RowBytes, GetRow, Project;
    SameOrder(t);
    FieldsRoundTrip(WriteOrder(t), row, pre, post, e);
    ProjectKeys(WriteOrder(t), row);
    assert Project(WriteOrder(t), row) == row;
  }

  // ---- the same on the buffer ------------------------------------------

  method Serialize(buf: ByteBuffer, fields: seq<Field>, row: RowData)
    modifies buf`m_data
    ensures buf.m_data == old(buf.m_data) + RowBytes(fields, row)
  {
    assert fields[0..] == fields && old(buf.m_data) + RowBytes(fields, row) == buf.m_data + RowBytes(fields[0..], row);
    for i := 0 to |fields|
      invariant buf.m_data + RowBytes(fields[i..], row) == old(buf.m_data) + RowBytes(fields, row)
    {
      assert fields[i..][1..] == fields[i + 1..];
      var v := Column(row, fields[i]);
      Regroup(buf.m_data, ValueBytes(v), RowBytes(fields[i + 1..], row));
      match v
      case TextV(text) => buf.WriteString(text);
      case _ => buf.Append(ValueBytes(v));
    }
    assert buf.m_data + [] == buf.m_data;
  }

  lemma GetRowNext(fields: seq<Field>, i: nat, c: Cursor)
    requires i < |fields|
    ensures GetRow(fields[i..], c) ==
            var (v, d) := GetValue(fields[i].kind, c);
            var (row, e) := GetRow(fields[i + 1..], d);
            (map[fields[i].name := v] + row, e)
  {
    assert fields[i..][1..] == fields[i + 1..];
  }

  lemma NoColumns(c: Cursor)
    ensures GetRow([], c) == (map[], c)
  {
  }

  lemma MoreColumns(row: RowData, name: string, v: Value, rest: RowData)
    ensures row + (map[name := v] + rest) == row[name := v] + rest
  {
  }

  method Deserialize(buf: ByteBuffer, fields: seq<Field>) returns (row: RowData)
    modifies buf
    ensures (row, buf.View()) == GetRow(fields, old(buf.View()))
  {
    hide GetRow, GetValue;
    row := map[];
    assert fields[0..] == fields;
    ghost var all := GetRow(fields, buf.View());
    assert map[] + all.0 == all.0;
    for i := 0 to |fields|
      invariant (row + GetRow(fields[i..], buf.View()).0, GetRow(fields[i..], buf.View()).1) == all
    {
      GetRowNext(fields, i, buf.View());
      var v := ReadValue(buf, fields[i].kind);
      MoreColumns(row, fields[i].name, v, GetRow(fields[i + 1..], buf.View()).0);
      row := row[fields[i].name := v];
    }
    assert fields[|fields|..] == [];
    NoColumns(buf.View());
    assert row + map[] == row;
  }

  method ReadValue(buf: ByteBuffer, k: Kind) returns (v: Value)
    modifies buf
    ensures (v, buf.View()) == GetValue(k, old(buf.View()))
  {
    match k
    case Int => var i := buf.ReadInt(); v := IntV(i);
    case Int64 => var l := buf.ReadInt64(); v := Int64V(l);
    case Bool => var b := buf.ReadBool(); v := BoolV(b);
    case Double => var bits := buf.ReadDouble(); v := DoubleV(bits);
    case Text => var text := buf.ReadString(); v := TextV(text);
  }

  // ---- sizes -----------------------------------------------------------

  function Width(k: Kind): nat {
    match k
    case Int => 4
    case Int64 => 8
    case Bool => 1
    case Double => 8
    case Text => 4
  }

  function MinBytes(fields: seq<Field>): nat {
    if fields == [] then 0 else Width(fields[0].kind) + MinBytes(fields[1..])
  }

  lemma {:induction false} RowAtLeast(fields: seq<Field>, row: RowData)
    requires HasFields(fields, row)
    ensures |RowBytes(fields, row)| >= MinBytes(fields)
  {
    if fields != [] {
      ColumnFits(fields, row);
      RowAtLeast(fields[1..], row);
    }
  }

  lemma MinOfThree(fields: seq<Field>)
    requires |fields| >= 2
    ensures MinBytes(fields) >= Width(fields[0].kind) + Width(fields[1].kind)
                                + if |fields| >= 3 then Width(fields[2].kind) else 0
  {
    assert fields[1..][0] == fields[1];
    if |fields| >= 3 {
      assert fields[1..][1..][0] == fields[2];
    }
  }

  /** Every row of every table takes at least the 12 bytes the receiver's guard
      assumes. */
  lemma RowTakesTwelve(t: Table, row: RowData)
    requires IsRow(t, row)
    ensures |RowBytes(WriteOrder(t), row)| >= 12
  {
    hide RowBytes, WriteOrder, HasFields, MinBytes;
    RowAtLeast(WriteOrder(t), row);
    TableTakesTwelve(t);
  }

  lemma TableTakesTwelve(t: Table)
    ensures MinBytes(WriteOrder(t)) >= 12
  {
    hide MinBytes;
    MinOfThree(WriteOrder(t));
  }

  // ---- a batch ---------------------------------------------------------

  function BatchBytes(t: Table, rows: seq<RowData>): seq<byte> {
    if rows == [] then [] else RowBytes(WriteOrder(t), rows[0]) + BatchBytes(t, rows[1..])
  }

  /** deserializeAndWrite(): rowCount rows off the buffer. */
  function GetBatch(t: Table, rowCount: nat, c: Cursor): (seq<RowData>, Cursor) {
    if rowCount == 0 then ([], c)
    else
      var (row, d) := GetRow(ReadOrder(t), c);
      var (rows, e) := GetBatch(t, rowCount - 1, d);
      ([row] + rows, e)
  }

  method DeserializeBatch(buf: ByteBuffer, t: Table, rowCount: nat) returns (rows: seq<RowData>)
    modifies buf
    ensures (rows, buf.View()) == GetBatch(t, rowCount, old(buf.View()))
  {
    hide ReadOrder, GetRow;
    rows := [];
    ghost var all := GetBatch(t, rowCount, buf.View());
    assert [] + all.0 == all.0;
    for i := 0 to rowCount
      invariant (rows + GetBatch(t, rowCount - i, buf.View()).0, GetBatch(t, rowCount - i, buf.View()).1) == all
    {
      ghost var c := buf.View();
      var row := Deserialize(buf, ReadOrder(t));
      GetBatchNext(t, rowCount - i, c);
      Regroup(rows, [row], GetBatch(t, rowCount - i - 1, buf.View()).0);
      rows := rows + [row];
    }
    assert rows + [] == rows;
  }

  lemma GetBatchNext(t: Table, rowCount: nat, c: Cursor)
    requires rowCount > 0
    ensures GetBatch(t, rowCount, c) == var (row, d) := GetRow(ReadOrder(t), c);
                                        var (more, e) := GetBatch(t, rowCount - 1, d);
                                        ([row] + more, e)
  {
  }

  ghost predicate IsBatch(t: Table, rows: seq<RowData>) {
    forall r :: r in rows ==> IsRow(t, r)
  }

  lemma {:induction false} BatchFrom(t: Table, rows: seq<RowData>, pre: seq<byte>, e: bool)
    requires IsBatch(t, rows)
    ensures GetBatch(t, |rows|, Cursor(pre + BatchBytes(t, rows), |pre|, e))
            == (rows, Cursor(pre + BatchBytes(t, rows), |pre| + |BatchBytes(t, rows)|, e))
    decreases |rows|
  {
    hide *;
    BatchNext(t, rows, Cursor(pre + BatchBytes(t, rows), |pre|, e));
    if rows == [] {
      assert pre + [] == pre;
    } else {
      FirstOfBatch(t, rows);
      var own, rest := RowBytes(WriteOrder(t), rows[0]), BatchBytes(t, rows[1..]);
      RowRoundTrip(t, rows[0], pre, rest, e);
      Regroup(pre, own, rest);
      BatchFrom(t, rows[1..], pre + own, e);
      assert rows == [rows[0]] + rows[1..];
    }
  }

  lemma FirstOfBatch(t: Table, rows: seq<RowData>)
    requires IsBatch(t, rows) && rows != []
    ensures IsRow(t, rows[0]) && IsBatch(t, rows[1..])
  {
  }

  lemma BatchNext(t: Table, rows: seq<RowData>, c: Cursor)
    ensures rows == [] ==> BatchBytes(t, rows) == [] && GetBatch(t, |rows|, c) == ([], c)
    ensures rows != [] ==>
              && BatchBytes(t, rows) == RowBytes(WriteOrder(t), rows[0]) + BatchBytes(t, rows[1..])
              && GetBatch(t, |rows|, c) == var (row, d) := GetRow(ReadOrder(t), c);
                                           var (more, e) := GetBatch(t, |rows| - 1, d);
                                           ([row] + more, e)
  {
  }

  lemma {:induction false} BatchAtLeast(t: Table, rows: seq<RowData>)
    requires IsBatch(t, rows)
    ensures |BatchBytes(t, rows)| >= 12 * |rows|
    decreases |rows|
  {
    hide WriteOrder, RowBytes, IsRow;
    if rows != [] {
      RowTakesTwelve(t, rows[0]);
      BatchAtLeast(t, rows[1..]);
    }
  }

  // ---- truncated rows --------------------------------------------------

  lemma ErrorStays(k: Kind, c: Cursor)
    requires c.error
    ensures GetValue(k, c).1.error
  {
  }

  lemma {:induction false} RowErrorStays(fields: seq<Field>, c: Cursor)
    requires c.error
    ensures GetRow(fields, c).1.error
    decreases |fields|
  {
    hide GetValue;
    if fields != [] {
      ErrorStays(fields[0].kind, c);
      RowErrorStays(fields[1..], GetValue(fields[0].kind, c).1);
    }
  }

  lemma {:induction false} BatchErrorStays(t: Table, rowCount: nat, c: Cursor)
    requires c.error
    ensures GetBatch(t, rowCount, c).1.error
  {
    hide GetRow, ReadOrder;
    if rowCount > 0 {
      RowErrorStays(ReadOrder(t), c);
      BatchErrorStays(t, rowCount - 1, GetRow(ReadOrder(t), c).1);
    }
  }

  lemma CutValueFails(f: Field, v: Value, pre: seq<byte>, n: nat, e: bool)
    requires Fits(f, v) && n < |ValueBytes(v)|
    ensures GetValue(f.kind, Cursor(pre + ValueBytes(v)[..n], |pre|, e)).1.error
  {
    if v.TextV? {
      CutTextFails(v.text, pre, n, e);
    }
  }

  lemma CutTextFails(text: seq<byte>, pre: seq<byte>, n: nat, e: bool)
    requires |text| < 0x1_0000_0000 && n < |StringBytes(text)|
    ensures GetString(Cursor(pre + StringBytes(text)[..n], |pre|, e)).1.error
  {
    hide Bytes, Unsigned;
    var c := Cursor(pre + StringBytes(text)[..n], |pre|, e);
    if n >= 4 {
      Pow4And8();
      UnsignedFits(4, |text|);
      assert c.data[c.pos..c.pos + 4] == Bytes(4, |text|);
    }
  }

  /** Whatever precedes it, a row that is cut short sets the error flag. */
  lemma {:induction false} CutRowFails(fields: seq<Field>, row: RowData, pre: seq<byte>, n: nat, e: bool)
    requires HasFields(fields, row) && n < |RowBytes(fields, row)|
    ensures GetRow(fields, Cursor(pre + RowBytes(fields, row)[..n], |pre|, e)).1.error
    decreases |fields|
  {
    hide ValueBytes, GetValue, Fits, Column, HasFields;
    var f, v := fields[0], Column(row, fields[0]);
    var own, rest := ValueBytes(v), RowBytes(fields[1..], row);
    ColumnFits(fields, row);
    if n < |own| {
      assert (own + rest)[..n] == own[..n];
      CutValueFails(f, v, pre, n, e);
      RowErrorStays(fields[1..], GetValue(f.kind, Cursor(pre + own[..n], |pre|, e)).1);
    } else {
      var left := rest[..n - |own|];
      assert (own + rest)[..n] == own + left;
      ValueRoundTrip(f, v, pre, left, e);
      Regroup(pre, own, left);
      CutRowFails(fields[1..], row, pre + own, n - |own|, e);
    }
  }

  /** Truncation of a genuine batch never goes unnoticed: of its bytes cut after
      n, the reader fails if and only if some are missing. */
  lemma {:induction false} CutBatchFails(t: Table, rows: seq<RowData>, pre: seq<byte>, n: nat)
    requires IsBatch(t, rows) && n <= |BatchBytes(t, rows)|
    ensures GetBatch(t, |rows|, Cursor(pre + BatchBytes(t, rows)[..n], |pre|, false)).1.error
            <==> n < |BatchBytes(t, rows)|
    decreases |rows|
  {
    hide *;
    var all := BatchBytes(t, rows);
    if n == |all| {
      assert all[..n] == all;
      BatchFrom(t, rows, pre, false);
    } else {
      BatchNext(t, rows, Cursor(pre + all[..n], |pre|, false));
      FirstOfBatch(t, rows);
      var own, rest := RowBytes(WriteOrder(t), rows[0]), BatchBytes(t, rows[1..]);
      if n < |own| {
        assert all[..n] == own[..n];
        CutFirstRow(t, rows[0], pre, n);
        BatchErrorStays(t, |rows| - 1, GetRow(ReadOrder(t), Cursor(pre + own[..n], |pre|, false)).1);
      } else {
        var left := rest[..n - |own|];
        assert all[..n] == own + left;
        RowRoundTrip(t, rows[0], pre, left, false);
        Regroup(pre, own, left);
        CutBatchFails(t, rows[1..], pre + own, n - |own|);
      }
    }
  }

  lemma CutFirstRow(t: Table, row: RowData, pre: seq<byte>, n: nat)
    requires IsRow(t, row) && n < |RowBytes(WriteOrder(t), row)|
    ensures GetRow(ReadOrder(t), Cursor(pre + RowBytes(WriteOrder(t), row)[..n], |pre|, false)).1.error
  {
    SameOrder(t);
    hide WriteOrder, ReadOrder, RowBytes, GetRow, HasFields;
    CutRowFails(WriteOrder(t), row, pre, n, false);
  }
}
