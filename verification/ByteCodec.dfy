/** Fixed-width values as bytes and the buffer that holds them
    (rpd_tracer/ByteBuffer.h:16-98).  Values keep the width and sign of the
    C++ types; a double is its 64-bit pattern. */
module ByteCodec {
  import opened Division

  type byte = b: int | 0 <= b < 256

  function Pow256(n: nat): (p: nat)
    ensures p >= 1
  {
    if n == 0 then 1 else 256 * Pow256(n - 1)
  }

  /** The low n bytes of a value, least significant first. */
  function Bytes(n: nat, v: int): (s: seq<byte>)
    ensures |s| == n
  {
    if n == 0 then [] else [v % 256] + Bytes(n - 1, v / 256)
  }

  function Unsigned(s: seq<byte>): nat {
    if s == [] then 0 else s[0] + 256 * Unsigned(s[1..])
  }

  /** Two's complement reading of the same bytes. */
  function Signed(s: seq<byte>): int {
    var u := Unsigned(s);
    if 2 * u >= Pow256(|s|) then u - Pow256(|s|) else u
  }

  predicate IsInt(v: int) {
    -0x8000_0000 <= v < 0x8000_0000
  }

  predicate IsInt64(v: int) {
    -0x8000_0000_0000_0000 <= v < 0x8000_0000_0000_0000
  }

  lemma {:induction false} UnsignedOfBytes(n: nat, v: int)
    ensures Unsigned(Bytes(n, v)) == v % Pow256(n)
  {
    if n > 0 {
      UnsignedOfBytes(n - 1, v / 256);
      ModSplits(v, Pow256(n - 1));
      assert Bytes(n, v)[1..] == Bytes(n - 1, v / 256);
    }
  }

  lemma ModSplits(v: int, p: nat)
    requires p >= 1
    ensures v % (256 * p) == v % 256 + 256 * (v / 256 % p)
  {
    var q, r := v / 256, v % 256;
    var a, b := q / p, q % p;
    assert q == p * a + b && v == 256 * q + r;
    assert v == (256 * p) * a + (256 * b + r) by {
      assert 256 * (p * a) == (256 * p) * a;
    }
    assert 0 <= 256 * b + r < 256 * p;
    DivModOf(256 * p, a, 256 * b + r);
  }

  lemma Pow4And8()
    ensures Pow256(4) == 0x1_0000_0000 && Pow256(8) == 0x1_0000_0000_0000_0000
  {
    assert Pow256(2) == 0x1_0000;
    assert Pow256(3) == 0x100_0000;
    assert Pow256(5) == 0x100_0000_0000;
    assert Pow256(6) == 0x1_0000_0000_0000;
    assert Pow256(7) == 0x100_0000_0000_0000;
  }

  lemma UnsignedFits(n: nat, v: int)
    requires 0 <= v < Pow256(n)
    ensures Unsigned(Bytes(n, v)) == v
  {
    UnsignedOfBytes(n, v);
  }

  lemma SignedFits(n: nat, v: int)
    requires 0 - Pow256(n) <= 2 * v < Pow256(n)
    ensures Signed(Bytes(n, v)) == v
  {
    UnsignedOfBytes(n, v);
    if v < 0 {
      DivModOf(Pow256(n), -1, v + Pow256(n));
    }
  }

  lemma IntRoundTrip(v: int)
    ensures IsInt(v) ==> Signed(Bytes(4, v)) == v
    ensures IsInt64(v) ==> Signed(Bytes(8, v)) == v
  {
    Pow4And8();
    if IsInt(v) {
      SignedFits(4, v);
    }
    if IsInt64(v) {
      SignedFits(8, v);
    }
  }

  // ---- the buffer ------------------------------------------------------

  /** m_data, m_pos and m_error. */
  datatype Cursor = Cursor(data: seq<byte>, pos: nat, error: bool) {
    predicate Has(n: nat) {
      pos + n <= |data|
    }

    /** read(): the next n bytes, or the error flag and nothing. */
    function Take(n: nat): (r: (seq<byte>, Cursor))
      ensures Has(n) ==> |r.0| == n
    {
      if Has(n) then (data[pos..pos + n], this.(pos := pos + n)) else ([], this.(error := true))
    }
  }

  /** An unset value is zero. */
  function GetInt(c: Cursor): (int, Cursor) {
    var (b, d) := c.Take(4);
    (if c.Has(4) then Signed(b) else 0, d)
  }

  function GetInt64(c: Cursor): (int, Cursor) {
    var (b, d) := c.Take(8);
    (if c.Has(8) then Signed(b) else 0, d)
  }

  function GetBool(c: Cursor): (bool, Cursor) {
    var (b, d) := c.Take(1);
    (c.Has(1) && b[0] != 0, d)
  }

  function GetDouble(c: Cursor): (nat, Cursor) {
    var (b, d) := c.Take(8);
    (if c.Has(8) then Unsigned(b) else 0, d)
  }

  /** A length that points past the end fails, but the length stays consumed. */
  function GetString(c: Cursor): (seq<byte>, Cursor) {
    if !c.Has(4) then ([], c.(error := true))
    else
      var len := Unsigned(c.data[c.pos..c.pos + 4]);
      var d := c.(pos := c.pos + 4);
      if d.Has(len) then (d.data[d.pos..d.pos + len], d.(pos := d.pos + len)) else ([], d.(error := true))
  }

  /** writeString(): the length is cut to 32 bits, and so is the text. */
  function StringBytes(s: seq<byte>): seq<byte> {
    var len := |s| % 0x1_0000_0000;
    Bytes(4, len) + s[..len]
  }

  class ByteBuffer {
    var m_data: seq<byte>
    var m_pos: nat
    var m_error: bool

    function View(): Cursor
      reads this
    {
      Cursor(m_data, m_pos, m_error)
    }

    constructor ()
      ensures View() == Cursor([], 0, false)
    {
      m_data, m_pos, m_error := [], 0, false;
    }

    method SetData(d: seq<byte>)
      modifies this
      ensures View() == Cursor(d, 0, false)
    {
      m_data, m_pos, m_error := d, 0, false;
    }

    method Append(b: seq<byte>)
      modifies `m_data
      ensures m_data == old(m_data) + b
    {
      m_data := m_data + b;
    }

    method WriteString(s: seq<byte>)
      modifies `m_data
      ensures m_data == old(m_data) + StringBytes(s)
    {
      var len := |s| % 0x1_0000_0000;
      Append(Bytes(4, len));
      Append(s[..len]);
    }

    method Read(n: nat) returns (ok: bool, b: seq<byte>)
      modifies this
      ensures ok == old(View()).Has(n)
      ensures (b, View()) == old(View()).Take(n)
    {
      if m_pos + n > |m_data| {
        m_error := true;
        return false, [];
      }
      b := m_data[m_pos..m_pos + n];
      m_pos := m_pos + n;
      ok := true;
    }

    method ReadInt() returns (v: int)
      modifies this
      ensures (v, View()) == GetInt(old(View()))
    {
      var ok, b := Read(4);
      v := if ok then Signed(b) else 0;
    }

    method ReadInt64() returns (v: int)
      modifies this
      ensures (v, View()) == GetInt64(old(View()))
    {
      var ok, b := Read(8);
      v := if ok then Signed(b) else 0;
    }

    method ReadBool() returns (v: bool)
      modifies this
      ensures (v, View()) == GetBool(old(View()))
    {
      var ok, b := Read(1);
      v := ok && b[0] != 0;
    }

    method ReadDouble() returns (v: nat)
      modifies this
      ensures (v, View()) == GetDouble(old(View()))
    {
      var ok, b := Read(8);
      v := if ok then Unsigned(b) else 0;
    }

    method ReadString() returns (s: seq<byte>)
      modifies this
      ensures (s, View()) == GetString(old(View()))
    {
      var ok, b := Read(4);
      if !ok {
        return [];
      }
      var len := Unsigned(b);
      if m_pos + len > |m_data| {
        m_error := true;
        return [];
      }
      s := m_data[m_pos..m_pos + len];
      m_pos := m_pos + len;
    }
  }

  // ---- reading back what was written -----------------------------------

  lemma TakeMiddle(pre: seq<byte>, mid: seq<byte>, post: seq<byte>, e: bool)
    ensures Cursor(pre + mid + post, |pre|, e).Take(|mid|)
            == (mid, Cursor(pre + mid + post, |pre| + |mid|, e))
  {
    assert (pre + mid + post)[|pre|..|pre| + |mid|] == mid;
  }

  /** A string is read back as written exactly when its length fits 32 bits. */
  lemma StringRoundTrip(pre: seq<byte>, s: seq<byte>, post: seq<byte>, e: bool)
    ensures var c := Cursor(pre + StringBytes(s) + post, |pre|, e);
            GetString(c) == (s[..|s| % 0x1_0000_0000], c.(pos := |pre| + |StringBytes(s)|))
    ensures GetString(Cursor(pre + StringBytes(s) + post, |pre|, e)).0 == s <==> |s| < 0x1_0000_0000
  {
    var len := |s| % 0x1_0000_0000;
    var data := pre + StringBytes(s) + post;
    Pow4And8();
    UnsignedFits(4, len);
    assert data == pre + Bytes(4, len) + (s[..len] + post);
    TakeMiddle(pre, Bytes(4, len), s[..len] + post, e);
    assert data == (pre + Bytes(4, len)) + s[..len] + post;
    TakeMiddle(pre + Bytes(4, len), s[..len], post, e);
  }
}
