/** The key space shared by every process of every node
    (rpd_tracer/RemoteDataSource.cpp:24-64, rpd_tracer/Storage.cpp:36-45).  Each
    process numbers its rows on its own; the sender adds session * 2^32, the
    collector node * 2^48, to keys and to the references that name keys. */
module IdSpace {
  import opened Division

  const SESSION_STRIDE := 0x1_0000_0000
  const NODE_STRIDE := 0x1_0000_0000_0000
  const ANNOTATION_BASE := 0x8000_0000

  datatype Process = Process(session: nat, node: nat)

  predicate FitsProcess(p: Process) {
    p.session < 0x1_0000 && p.node < 0x8000
  }

  function Offset(p: Process): int {
    p.session * SESSION_STRIDE + p.node * NODE_STRIDE
  }

  lemma KeysNeverCollide(id: nat, p: Process, other: nat, q: Process)
    requires FitsProcess(p) && FitsProcess(q) && id < SESSION_STRIDE && other < SESSION_STRIDE
    ensures id + Offset(p) < 0x8000_0000_0000_0000
    ensures id + Offset(p) == other + Offset(q) <==> id == other && p == q
  {
    var a, b := p.session + p.node * 0x1_0000, q.session + q.node * 0x1_0000;
    assert Offset(p) == a * SESSION_STRIDE && Offset(q) == b * SESSION_STRIDE;
    if id + Offset(p) == other + Offset(q) {
      assert a == b;
    }
  }

  /** Annotations are numbered from 2^31, so the k-th meets no ordinary row of
      any process as long as both kinds stay below 2^31 in number. */
  lemma AnnotationsStayApart(k: nat, p: Process, id: nat, q: Process)
    requires FitsProcess(p) && FitsProcess(q) && k < ANNOTATION_BASE && id < ANNOTATION_BASE
    ensures ANNOTATION_BASE + k + Offset(p) != id + Offset(q)
  {
    KeysNeverCollide(ANNOTATION_BASE + k, p, id, q);
  }

  /** A call's process and thread numbers as the collector stores them. */
  datatype Call = Call(pid: int, tid: int)

  method AdjustCalls(rows: array<Call>, node: nat, stride: nat)
    requires forall i :: 0 <= i < rows.Length ==>
               rows[i].pid + node * stride < 0x8000_0000 && rows[i].tid + node * stride < 0x8000_0000
    modifies rows
    ensures forall i :: 0 <= i < rows.Length ==>
              rows[i] == Call(old(rows[i].pid) + node * stride, old(rows[i].tid) + node * stride)
  {
    for i := 0 to rows.Length
      invariant forall j :: 0 <= j < i ==>
                  rows[j] == Call(old(rows[j].pid) + node * stride, old(rows[j].tid) + node * stride)
      invariant forall j :: i <= j < rows.Length ==> rows[j] == old(rows[j])
    {
      rows[i] := Call(rows[i].pid + node * stride, rows[i].tid + node * stride);
    }
  }

  /** Division by the stride gives back node and number exactly when the number
      was below the stride. */
  lemma StrideDecodes(number: nat, node: nat, stride: nat)
    requires 0 < stride
    ensures (number + node * stride) / stride == node && (number + node * stride) % stride == number
            <==> number < stride
  {
    if number < stride {
      DivModOf(stride, node, number);
    }
  }
}
