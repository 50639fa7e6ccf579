/** Batches and flushes framed on a connection and taken off it again
    (rpd_tracer/NetWriterBackend.cpp:71-120,
    rpd_tracer/RemoteDataSource.cpp:431-508).  A connection is the sequence of
    bytes that arrived; receiving past its end fails, as after a close. */
module NetWire {
  import opened Sequences
  import opened ByteCodec
  import opened RowCodec

  const HEADER_SIZE: nat := 20
  const MAX_PAYLOAD_SIZE: nat := 0x1000_0000
  const MIN_ROW_SIZE: nat := 12

  // ---- the sender ------------------------------------------------------

  /** What a table's worker asks of its NetWriterBackend. */
  datatype Request =
    | WriteBatch(idOffset: int, rows: seq<RowData>)
    | Flush(offset: int)

  function Header(payload: nat, idOffset: int, nodeId: int, rowCount: int): seq<byte> {
    Bytes(4, HEADER_SIZE + payload) + Bytes(8, idOffset) + Bytes(4, nodeId) + Bytes(4, rowCount)
  }

  function Message(t: Table, nodeId: int, q: Request): seq<byte> {
    match q
    case WriteBatch(off, rows) =>
      Header(|BatchBytes(t, rows)|, off, nodeId, |rows|) + BatchBytes(t, rows)
    case Flush(off) => Header(0, off, nodeId, 0)
  }

  function Messages(t: Table, nodeId: int, qs: seq<Request>): seq<byte> {
    if qs == [] then [] else Message(t, nodeId, qs[0]) + Messages(t, nodeId, qs[1..])
  }

  class NetWriterBackend {
    const t: Table
    const m_nodeId: int
    var m_idOffset: int
    var m_buf: ByteBuffer
    var sent: seq<byte>

    constructor (t: Table, nodeId: int)
      ensures this.t == t && m_nodeId == nodeId && m_idOffset == 0 && sent == [] && fresh(m_buf)
    {
      this.t, m_nodeId, m_idOffset, sent := t, nodeId, 0, [];
      m_buf := new ByteBuffer();
    }

    method SetIdOffset(offset: int)
      modifies `m_idOffset
      ensures m_idOffset == offset
    {
      m_idOffset := offset;
    }

    /** The rows start..end of a ring of the given capacity. */
    method WriteBatch(rowData: seq<RowData>, start: nat, end: nat, ghost rows: seq<RowData>)
      requires rowData != [] && start <= end
      requires |rows| == end - start + 1
      requires forall k :: 0 <= k < |rows| ==> rows[k] == rowData[(start + k) % |rowData|]
      modifies `sent, m_buf
      ensures sent == old(sent) + Message(t, m_nodeId, Request.WriteBatch(m_idOffset, rows))
    {
      hide Header, BatchBytes;
      SerializeRows(rowData, start, end, rows);
      var payloadSize := |m_buf.m_data|;
      sent := sent + (Header(payloadSize, m_idOffset, m_nodeId, end - start + 1) + m_buf.m_data);
    }

    method SerializeRows(rowData: seq<RowData>, start: nat, end: nat, ghost rows: seq<RowData>)
      requires rowData != [] && start <= end
      requires |rows| == end - start + 1
      requires forall k :: 0 <= k < |rows| ==> rows[k] == rowData[(start + k) % |rowData|]
      modifies m_buf
      ensures m_buf.m_data == BatchBytes(t, rows)
    {
      hide RowBytes, WriteOrder;
      m_buf.SetData([]);
      assert rows[0..] == rows && [] + BatchBytes(t, rows) == BatchBytes(t, rows);
      for i := start to end + 1
        invariant m_buf.m_data + BatchBytes(t, rows[i - start..]) == BatchBytes(t, rows)
      {
        ghost var k := i - start;
        var row := rowData[i % |rowData|];
        assert rows[k] == row;
        assert rows[k..][1..] == rows[k + 1..];
        Regroup(m_buf.m_data, RowBytes(WriteOrder(t), row), BatchBytes(t, rows[k + 1..]));
        Serialize(m_buf, WriteOrder(t), row);
      }
      assert m_buf.m_data + [] == m_buf.m_data;
    }

    method Flush()
      modifies `sent
      ensures sent == old(sent) + Message(t, m_nodeId, Request.Flush(m_idOffset))
    {
      sent := sent + Header(0, m_idOffset, m_nodeId, 0);
    }
  }

  // ---- the receiver ----------------------------------------------------

  /** An entry of a channel's queue; rowCount 0 is a flush. */
  datatype Item = Item(idOffset: int, nodeId: int, rowCount: int, data: seq<byte>)

  /** The guards on a complete header. */
  predicate Accepted(size: nat, rowCount: int) {
    && HEADER_SIZE <= size && size - HEADER_SIZE <= MAX_PAYLOAD_SIZE
    && 0 <= rowCount && rowCount * MIN_ROW_SIZE <= size - HEADER_SIZE
    && (rowCount == 0 ==> size == HEADER_SIZE)
  }

  function SizeOf(s: seq<byte>): nat
    requires |s| >= HEADER_SIZE
  {
    Unsigned(s[..4])
  }

  function RowsOf(s: seq<byte>): int
    requires |s| >= HEADER_SIZE
  {
    Signed(s[16..20])
  }

  function ItemOf(s: seq<byte>): Item
    requires |s| >= HEADER_SIZE && SizeOf(s) <= |s| && HEADER_SIZE <= SizeOf(s)
  {
    if RowsOf(s) == 0 then Item(0, 0, 0, [])
    else Item(Signed(s[4..12]), Signed(s[12..16]), RowsOf(s), s[HEADER_SIZE..SizeOf(s)])
  }

  /** Everything the receiver queues from the bytes of one connection. */
  function Received(s: seq<byte>): seq<Item>
    decreases |s|
  {
    if |s| < HEADER_SIZE || !Accepted(SizeOf(s), RowsOf(s)) || |s| < SizeOf(s) then []
    else [ItemOf(s)] + Received(s[SizeOf(s)..])
  }

  /** recv(): all n bytes or none. */
  method Recv(conn: seq<byte>, pos: nat, n: nat) returns (ok: bool, b: seq<byte>)
    requires pos <= |conn|
    ensures ok <==> pos + n <= |conn|
    ensures ok ==> b == conn[pos..pos + n]
  {
    if pos + n > |conn| {
      return false, [];
    }
    ok, b := true, conn[pos..pos + n];
  }

  /** One pass of the loop: a queue entry, or a reason to drop the connection. */
  method RecvMessage(conn: seq<byte>, pos: nat) returns (ok: bool, item: Item, next: nat)
    requires pos <= |conn|
    ensures var s := conn[pos..];
            ok <==> |s| >= HEADER_SIZE && Accepted(SizeOf(s), RowsOf(s)) && |s| >= SizeOf(s)
    ensures ok ==> item == ItemOf(conn[pos..]) && next == pos + SizeOf(conn[pos..])
  {
    hide Signed, Unsigned;
    item, next := Item(0, 0, 0, []), pos;
    var sizeBytes, offsetBytes, nodeBytes, countBytes, payload;
    ok, sizeBytes := Recv(conn, pos, 4);
    if !ok { return; }
    assert sizeBytes == conn[pos..][..4];
    var messageSize := Unsigned(sizeBytes);
    if messageSize < HEADER_SIZE || messageSize - HEADER_SIZE > MAX_PAYLOAD_SIZE {
      return false, item, next;
    }
    ok, offsetBytes := Recv(conn, pos + 4, 8);
    if !ok { return; }
    ok, nodeBytes := Recv(conn, pos + 12, 4);
    if !ok { return; }
    ok, countBytes := Recv(conn, pos + 16, 4);
    if !ok { return; }
    assert offsetBytes == conn[pos..][4..12] && nodeBytes == conn[pos..][12..16] && countBytes == conn[pos..][16..20];
    var rowCount := Signed(countBytes);
    var payloadSize := messageSize - HEADER_SIZE;
    if rowCount < 0 || rowCount * MIN_ROW_SIZE > payloadSize {
      return false, item, next;
    }
    if rowCount == 0 {
      if payloadSize != 0 {
        return false, item, next;
      }
      return true, Item(0, 0, 0, []), pos + HEADER_SIZE;
    }
    ok, payload := Recv(conn, pos + HEADER_SIZE, payloadSize);
    if !ok { return; }
    assert payload == conn[pos..][HEADER_SIZE..messageSize];
    item, next := Item(Signed(offsetBytes), Signed(nodeBytes), rowCount, payload), pos + messageSize;
  }

  method RecvLoop(conn: seq<byte>) returns (queue: seq<Item>)
    ensures queue == Received(conn)
  {
    hide Accepted, SizeOf, RowsOf, ItemOf;
    queue := [];
    var pos, ok := 0, true;
    assert conn[0..] == conn && [] + Received(conn) == Received(conn);
    while ok
      invariant pos <= |conn|
      invariant queue + (if ok then Received(conn[pos..]) else []) == Received(conn)
      decreases ok, |conn| - pos
    {
      var item, next;
      ok, item, next := RecvMessage(conn, pos);
      if ok {
        FrameAdvances(conn[pos..]);
        assert conn[pos..][SizeOf(conn[pos..])..] == conn[next..];
        Regroup(queue, [item], Received(conn[next..]));
        queue, pos := queue + [item], next;
      }
    }
  }

  lemma FrameAdvances(s: seq<byte>)
    requires |s| >= HEADER_SIZE && Accepted(SizeOf(s), RowsOf(s))
    ensures SizeOf(s) >= HEADER_SIZE
  {
  }

  // ---- what arrives ----------------------------------------------------

  /** The item a request should become. */
  function ItemFor(t: Table, nodeId: int, q: Request): Item {
    match q
    case WriteBatch(off, rows) => Item(off, nodeId, |rows|, BatchBytes(t, rows))
    case Flush(_) => Item(0, 0, 0, [])
  }

  function ItemsFor(t: Table, nodeId: int, qs: seq<Request>): seq<Item> {
    if qs == [] then [] else [ItemFor(t, nodeId, qs[0])] + ItemsFor(t, nodeId, qs[1..])
  }

  /** A request within the C++ widths and the payload limit; workers never
      write an empty batch. */
  ghost predicate Genuine(t: Table, q: Request) {
    match q
    case WriteBatch(off, rows) =>
      && IsInt64(off) && rows != [] && IsBatch(t, rows)
      && |BatchBytes(t, rows)| <= MAX_PAYLOAD_SIZE
    case Flush(off) => IsInt64(off)
  }

  /** A header reads back as it was written. */
  lemma HeaderRoundTrip(payload: nat, off: int, node: int, count: int, rest: seq<byte>)
    requires payload <= MAX_PAYLOAD_SIZE && IsInt64(off) && IsInt(node) && IsInt(count)
    ensures var s := Header(payload, off, node, count) + rest;
            && |Header(payload, off, node, count)| == HEADER_SIZE
            && SizeOf(s) == HEADER_SIZE + payload && RowsOf(s) == count
            && Signed(s[4..12]) == off && Signed(s[12..16]) == node && s[HEADER_SIZE..] == rest
  {
    var s := Header(payload, off, node, count) + rest;
    Pow4And8();
    UnsignedFits(4, HEADER_SIZE + payload);
    IntRoundTrip(off);
    IntRoundTrip(node);
    IntRoundTrip(count);
    hide *;
    FourFields(payload, off, node, count, rest);
    SizeAndRows(s);
  }

  lemma SizeAndRows(s: seq<byte>)
    requires |s| >= HEADER_SIZE
    ensures SizeOf(s) == Unsigned(s[..4]) && RowsOf(s) == Signed(s[16..20])
  {
  }

  lemma FourFields(payload: nat, off: int, node: int, count: int, rest: seq<byte>)
    ensures |Header(payload, off, node, count)| == HEADER_SIZE == 20
    ensures var s := Header(payload, off, node, count) + rest;
            && s[..4] == Bytes(4, HEADER_SIZE + payload) && s[4..12] == Bytes(8, off)
            && s[12..16] == Bytes(4, node) && s[16..20] == Bytes(4, count) && s[HEADER_SIZE..] == rest
  {
    hide Bytes;
  }

  /** One genuine message passes the guards and becomes its item. */
  lemma MessageArrives(t: Table, nodeId: int, q: Request, rest: seq<byte>)
    requires IsInt(nodeId) && Genuine(t, q)
    ensures Received(Message(t, nodeId, q) + rest) == [ItemFor(t, nodeId, q)] + Received(rest)
  {
    hide Header, BatchBytes, Signed, Unsigned;
    var s := Message(t, nodeId, q) + rest;
    match q
    case WriteBatch(off, rows) =>
      var body := BatchBytes(t, rows);
      BatchAtLeast(t, rows);
      HeaderRoundTrip(|body|, off, nodeId, |rows|, body + rest);
      Regroup(Header(|body|, off, nodeId, |rows|), body, rest);
      var n := HEADER_SIZE + |body|;
      assert s[HEADER_SIZE..n] == s[HEADER_SIZE..][..|body|] == body;
      assert s[n..] == s[HEADER_SIZE..][|body|..] == rest;
    case Flush(off) =>
      HeaderRoundTrip(0, off, nodeId, 0, rest);
  }

  /** The wire carries every batch and flush, in order, unchanged. */
  lemma {:induction false} WireRoundTrip(t: Table, nodeId: int, qs: seq<Request>)
    requires IsInt(nodeId) && forall q :: q in qs ==> Genuine(t, q)
    ensures Received(Messages(t, nodeId, qs)) == ItemsFor(t, nodeId, qs)
    decreases |qs|
  {
    hide Message, ItemFor, Received, Genuine;
    if qs == [] {
      NothingReceived();
    } else {
      MessageArrives(t, nodeId, qs[0], Messages(t, nodeId, qs[1..]));
      WireRoundTrip(t, nodeId, qs[1..]);
    }
  }

  lemma NothingReceived()
    ensures Received([]) == []
  {
  }

  /** And the writer's deserializer recovers the very rows. */
  lemma RowsArrive(t: Table, nodeId: int, off: int, rows: seq<RowData>)
    requires IsBatch(t, rows)
    ensures var i := ItemFor(t, nodeId, Request.WriteBatch(off, rows));
            GetBatch(t, i.rowCount, Cursor(i.data, 0, false)) == (rows, Cursor(i.data, |i.data|, false))
  {
    BatchFrom(t, rows, [], false);
    assert [] + BatchBytes(t, rows) == BatchBytes(t, rows);
  }

  /** Cutting any byte stream short loses items only at its end. */
  lemma {:induction false} ReceivedPrefix(s: seq<byte>, k: nat)
    requires k <= |s|
    ensures Received(s[..k]) <= Received(s)
    decreases |s|
  {
    hide Signed, Unsigned;
    var p := s[..k];
    if k >= HEADER_SIZE && Accepted(SizeOf(p), RowsOf(p)) && k >= SizeOf(p) {
      var n := SizeOf(p);
      SliceOfPrefix(s, k, 0, 4);
      SliceOfPrefix(s, k, 4, 12);
      SliceOfPrefix(s, k, 12, 16);
      SliceOfPrefix(s, k, 16, 20);
      SliceOfPrefix(s, k, HEADER_SIZE, n);
      assert p[n..] == s[n..][..k - n];
      ReceivedPrefix(s[n..], k - n);
    }
  }

  lemma SliceOfPrefix(s: seq<byte>, k: nat, i: nat, j: nat)
    requires i <= j <= k <= |s|
    ensures s[..k][i..j] == s[i..j]
  {
  }

  /** A connection that breaks at any byte delivers a prefix of the requests. */
  lemma BrokenWire(t: Table, nodeId: int, qs: seq<Request>, k: nat)
    requires IsInt(nodeId) && (forall q :: q in qs ==> Genuine(t, q)) && k <= |Messages(t, nodeId, qs)|
    ensures Received(Messages(t, nodeId, qs)[..k]) <= ItemsFor(t, nodeId, qs)
  {
    WireRoundTrip(t, nodeId, qs);
    ReceivedPrefix(Messages(t, nodeId, qs), k);
  }
}
