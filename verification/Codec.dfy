/**
 * The codec as it works (src/protocol/codec.cpp): a writer and a reader that
 * move through a buffer byte by byte, proved against the wire format.
 */
module Codec {
  import opened Types
  import opened Bits
  import opened Wire

  lemma {:induction false} LowByte(x: nat)
    ensures BitAnd(x, 255) == x % 256
  {
    hide BitAnd, Pow256;
    MaskIsMod(x, 8);
    Pow256Step(0);
    assert Pow2(8) == 256 by {
      Widths();
      assert Pow256(1) == Pow2(8 * 1);
    }
  }

  /** x & 0xFF. */
  function Masked(x: nat): (b: U8)
    ensures b == x % 256
  {
    LowByte(x);
    BitAnd(x, 255)
  }

  /** v >> 8i. */
  function Shifted(v: nat, i: nat): nat {
    if i == 0 then v else Shifted(v / 256, i - 1)
  }

  /** Byte i of v: (v >> 8i) & 0xFF. */
  function ByteOf(v: nat, i: nat): U8 {
    Masked(Shifted(v, i))
  }

  lemma {:induction false} DivIs(x: nat, n: nat, q: nat, r: nat)
    requires n > 0 && x == q * n + r && r < n
    ensures x / n == q
  {
    var d := x / n;
    ModIs(x, n, q, r);
    assert (d - q) * n == d * n - q * n == 0;
    assert (q - d) * n == q * n - d * n == 0;
    if d > q {
      MulAtLeast(d - q, n);
    } else if d < q {
      MulAtLeast(q - d, n);
    }
  }

  lemma {:induction false} DivByByte(v: nat, b: nat)
    requires b > 0
    ensures v / (256 * b) == (v / 256) / b
  {
    var u := v / 256;
    var q, r := u / b, u % b;
    assert u == q * b + r;
    assert q * (256 * b) == 256 * (q * b);
    DivIs(v, 256 * b, q, 256 * r + v % 256);
  }

  lemma {:induction false} ShiftIsDivision(v: nat, i: nat)
    ensures Pow256(i) > 0 && Shifted(v, i) == v / Pow256(i)
  {
    Pow256Step(0);
    if i > 0 {
      ShiftIsDivision(v / 256, i - 1);
      Pow256Step(i - 1);
      hide Pow256;
      DivByByte(v, Pow256(i - 1));
    }
  }

  /** The bytes the write loop produces are the little-endian form. */
  lemma {:induction false} BytesAreLE(n: nat, v: nat, i: nat)
    requires i < n
    ensures LE(n, v)[i] == ByteOf(v, i)
  {
    if i > 0 {
      BytesAreLE(n - 1, v / 256, i - 1);
    }
  }

  /** One more byte read: the loop's or-ing extends the value read so far. */
  lemma {:induction false} UnLEAppend(bs: Bytes, b: U8)
    ensures UnLE(bs + [b]) == UnLE(bs) + b * Pow256(|bs|)
    ensures BitOr(UnLE(bs), b * Pow256(|bs|)) == UnLE(bs + [b])
  {
    UnLEAppendSum(bs, b);
    UnLEBound(bs);
    OrIsPlus(UnLE(bs), b, 8 * |bs|);
  }

  lemma {:induction false} UnLEAppendSum(bs: Bytes, b: U8)
    ensures UnLE(bs + [b]) == UnLE(bs) + b * Pow256(|bs|)
  {
    if bs == [] {
      Pow256Step(0);
      assert [b][1..] == [];
    } else {
      UnLEAppendSum(bs[1..], b);
      assert (bs + [b])[1..] == bs[1..] + [b];
      Pow256Step(|bs| - 1);
      assert 256 * (b * Pow256(|bs| - 1)) == b * Pow256(|bs|);
    }
  }

  class BufferWriter {
    const buf: array<U8>
    var pos: nat

    ghost predicate Valid()
      reads this
    {
      pos <= buf.Length
    }

    ghost function Written(): Bytes
      requires Valid()
      reads this, buf
    {
      buf[..pos]
    }

    constructor (buf: array<U8>)
      ensures this.buf == buf && pos == 0 && Valid()
    {
      this.buf, pos := buf, 0;
    }

    /** write_u8 .. write_u64: all bytes of the field, or none when they do not fit. */
    method WriteUint(n: nat, v: nat) returns (ok: bool)
      requires Valid()
      modifies this`pos, buf
      ensures Valid() && ok == (old(pos) + n <= buf.Length)
      ensures !ok ==> pos == old(pos) && buf[..] == old(buf[..])
      ensures ok ==> pos == old(pos) + n && Written() == old(Written()) + LE(n, v)
    {
      if pos + n > buf.Length {
        return false;
      }
      ghost var start := pos;
      for i := 0 to n
        invariant pos == start + i && Valid()
        invariant buf[..start] == old(buf[..pos])
        invariant forall j | 0 <= j < i :: buf[start + j] == LE(n, v)[j]
      {
        BytesAreLE(n, v, i);
        buf[pos] := ByteOf(v, i);
        pos := pos + 1;
      }
      assert buf[start..pos] == LE(n, v);
      assert buf[..pos] == buf[..start] + buf[start..pos];
      return true;
    }
  }

  class BufferReader {
    const buf: Bytes
    var pos: nat

    ghost predicate Valid()
      reads this
    {
      pos <= |buf|
    }

    constructor (buf: Bytes)
      ensures this.buf == buf && pos == 0 && Valid()
    {
      this.buf, pos := buf, 0;
    }

    /** read_u8 .. read_u64: the field, or nothing when bytes are missing. */
    method ReadUint(n: nat) returns (ok: bool, v: nat)
      requires Valid()
      modifies this`pos
      ensures Valid() && ok == (old(pos) + n <= |buf|)
      ensures !ok ==> pos == old(pos)
      ensures ok ==> pos == old(pos) + n && v == UintAt(buf, old(pos), n)
    {
      v := 0;
      if pos + n > |buf| {
        return false, 0;
      }
      ghost var start := pos;
      for i := 0 to n
        invariant pos == start + i && Valid()
        invariant v == UnLE(buf[start..pos])
      {
        assert buf[start..pos + 1] == buf[start..pos] + [buf[pos]];
        UnLEAppend(buf[start..pos], buf[pos]);
        v := BitOr(v, buf[pos] * Pow256(i));
        pos := pos + 1;
      }
      return true, v;
    }

    method ReadU8() returns (ok: bool, v: U8)
      requires Valid()
      modifies this`pos
      ensures Valid() && ok == (old(pos) + 1 <= |buf|) && pos == (if ok then old(pos) + 1 else old(pos))
      ensures ok ==> v == U8At(buf, old(pos))
    {
      ghost var start := pos;
      var r;
      ok, r := ReadUint(1);
      v := if ok then (assert r == U8At(buf, start); r) else 0;
    }

    method ReadU16() returns (ok: bool, v: U16)
      requires Valid()
      modifies this`pos
      ensures Valid() && ok == (old(pos) + 2 <= |buf|) && pos == (if ok then old(pos) + 2 else old(pos))
      ensures ok ==> v == U16At(buf, old(pos))
    {
      ghost var start := pos;
      var r;
      ok, r := ReadUint(2);
      v := if ok then (assert r == U16At(buf, start); r) else 0;
    }

    method ReadU32() returns (ok: bool, v: U32)
      requires Valid()
      modifies this`pos
      ensures Valid() && ok == (old(pos) + 4 <= |buf|) && pos == (if ok then old(pos) + 4 else old(pos))
      ensures ok ==> v == U32At(buf, old(pos))
    {
      ghost var start := pos;
      var r;
      ok, r := ReadUint(4);
      v := if ok then (assert r == U32At(buf, start); r) else 0;
    }

    method ReadU64() returns (ok: bool, v: U64)
      requires Valid()
      modifies this`pos
      ensures Valid() && ok == (old(pos) + 8 <= |buf|) && pos == (if ok then old(pos) + 8 else old(pos))
      ensures ok ==> v == U64At(buf, old(pos))
    {
      ghost var start := pos;
      var r;
      ok, r := ReadUint(8);
      v := if ok then (assert r == U64At(buf, start); r) else 0;
    }

    method ReadI64() returns (ok: bool, v: I64)
      requires Valid()
      modifies this`pos
      ensures Valid() && ok == (old(pos) + 8 <= |buf|) && pos == (if ok then old(pos) + 8 else old(pos))
      ensures ok ==> v == ToI64(U64At(buf, old(pos)))
    {
      var u;
      ok, u := ReadU64();
      v := if ok then ToI64(u) else 0;
    }
  }

  // ---- Encoding -----------------------------------------------------------------------

  method EncodeBody(w: BufferWriter, b: Body) returns (ok: bool)
    requires w.Valid()
    modifies w`pos, w.buf
    ensures w.Valid() && ok == (old(w.pos) + |BodyBytes(b)| <= w.buf.Length)
    ensures ok ==> w.Written() == old(w.Written()) + BodyBytes(b)
  {
    hide LE;
    match b
    case Logon(c) =>
      ok := w.WriteUint(4, c);
    case Logout =>
      ok := true;
    case Heartbeat =>
      ok := true;
    case NewOrder(_, _, _, _, _, _, _) =>
      ok := EncodeNewOrder(w, b);
    case CancelOrder(c, i) =>
      ok := w.WriteUint(8, c);
      if ok { ok := w.WriteUint(4, i); }
    case OrderAck(c, s) =>
      ok := w.WriteUint(8, c);
      if ok { ok := w.WriteUint(8, s); }
    case OrderReject(c, r) =>
      ok := w.WriteUint(8, c);
      if ok { ok := w.WriteUint(1, r); }
    case Fill(_, _, _, _, _) =>
      ok := EncodeFill(w, b);
    case Cancelled(c) =>
      ok := w.WriteUint(8, c);
  }

  method EncodeNewOrder(w: BufferWriter, b: Body) returns (ok: bool)
    requires w.Valid() && b.NewOrder?
    modifies w`pos, w.buf
    ensures w.Valid() && ok == (old(w.pos) + 32 <= w.buf.Length)
    ensures ok ==> w.Written() == old(w.Written()) + BodyBytes(b)
  {
    hide LE;
    ok := w.WriteUint(8, b.clientOrderId);
    if ok { ok := w.WriteUint(4, b.instrument); }
    if ok { ok := EncodeFlags(w, b); }
    if ok { ok := w.WriteUint(8, ToU64(b.price)); }
    if ok { ok := w.WriteUint(8, b.quantity); }
  }

  /** The single-byte fields of a new order and the padding byte. */
  method EncodeFlags(w: BufferWriter, b: Body) returns (ok: bool)
    requires w.Valid() && b.NewOrder?
    modifies w`pos, w.buf
    ensures w.Valid() && ok == (old(w.pos) + 4 <= w.buf.Length)
    ensures ok ==> w.Written() == old(w.Written()) + LE(1, b.side) + LE(1, b.orderType) + LE(1, b.tif) + LE(1, 0)
  {
    hide LE;
    ok := w.WriteUint(1, b.side);
    if ok { ok := w.WriteUint(1, b.orderType); }
    if ok { ok := w.WriteUint(1, b.tif); }
    if ok { ok := w.WriteUint(1, 0); }
  }

  method EncodeFill(w: BufferWriter, b: Body) returns (ok: bool)
    requires w.Valid() && b.Fill?
    modifies w`pos, w.buf
    ensures w.Valid() && ok == (old(w.pos) + 33 <= w.buf.Length)
    ensures ok ==> w.Written() == old(w.Written()) + BodyBytes(b)
  {
    hide LE;
    ok := w.WriteUint(8, b.clientOrderId);
    if ok { ok := w.WriteUint(8, b.serverOrderId); }
    if ok { ok := w.WriteUint(8, ToU64(b.price)); }
    if ok { ok := w.WriteUint(8, b.quantity); }
    if ok { ok := w.WriteUint(1, b.postStatus); }
  }

  method EncodeHeader(w: BufferWriter, h: Header) returns (ok: bool)
    requires w.Valid()
    modifies w`pos, w.buf
    ensures w.Valid() && ok == (old(w.pos) + HEADER_SIZE <= w.buf.Length)
    ensures ok ==> w.Written() == old(w.Written()) + HeaderBytes(h)
  {
    hide LE;
    ok := w.WriteUint(1, h.version);
    if ok { ok := w.WriteUint(1, h.msgType); }
    if ok { ok := w.WriteUint(2, h.bodyLength); }
    if ok { ok := w.WriteUint(4, h.sequence); }
  }

  /** encode into a span: the whole frame, or 0 and an untouched span when it does not fit. */
  method EncodeInto(out: array<U8>, sequence: U32, b: Body) returns (n: nat)
    modifies out
    ensures n == if HEADER_SIZE + |BodyBytes(b)| <= out.Length then HEADER_SIZE + |BodyBytes(b)| else 0
    ensures n > 0 ==> out[..n] == FrameBytes(sequence, b)
    ensures n == 0 ==> out[..] == old(out[..])
  {
    hide BodyBytes, HeaderBytes, LE;
    if out.Length < HEADER_SIZE {
      return 0;
    }
    var scratch := new U8[MAX_BODY_SIZE](i => 0);
    var bw := new BufferWriter(scratch);
    var ok := EncodeBody(bw, b);
    assert ok && scratch[..bw.pos] == BodyBytes(b);
    var len := bw.pos;
    if out.Length < HEADER_SIZE + len {
      return 0;
    }
    var hw := new BufferWriter(out);
    ok := EncodeHeader(hw, Header(PROTOCOL_VERSION, TypeCode(b), len, sequence));
    assert out[..HEADER_SIZE] == HeaderBytes(FrameHeader(sequence, b));
    CopyBody(out, scratch, len);
    n := HEADER_SIZE + len;
    assert out[..n] == out[..HEADER_SIZE] + out[HEADER_SIZE..n];
  }

  /** The body goes behind the header. */
  method CopyBody(out: array<U8>, scratch: array<U8>, len: nat)
    requires out != scratch && len <= scratch.Length && HEADER_SIZE + len <= out.Length
    modifies out
    ensures out[..HEADER_SIZE] == old(out[..HEADER_SIZE])
    ensures out[HEADER_SIZE..HEADER_SIZE + len] == scratch[..len]
  {
    for i := 0 to len
      invariant forall j | 0 <= j < HEADER_SIZE :: out[j] == old(out[j])
      invariant forall j | 0 <= j < i :: out[HEADER_SIZE + j] == scratch[j]
    {
      out[HEADER_SIZE + i] := scratch[i];
    }
  }

  /** encode into a fresh vector, shrunk to what was written. */
  method Encode(sequence: U32, b: Body) returns (bs: Bytes)
    ensures bs == FrameBytes(sequence, b)
  {
    hide BodyBytes, HeaderBytes, LE;
    var out := new U8[HEADER_SIZE + MAX_BODY_SIZE](i => 0);
    var n := EncodeInto(out, sequence, b);
    bs := out[..n];
  }

  // ---- Decoding -----------------------------------------------------------------------

  method DecodeHeader(r: BufferReader) returns (h: Option<Header>)
    requires r.Valid()
    modifies r`pos
    ensures r.Valid() && (h.Some? <==> old(r.pos) + HEADER_SIZE <= |r.buf|)
    ensures h.Some? ==> h.value == ParseHeader(r.buf[old(r.pos)..])
  {
    ghost var rest := r.buf[r.pos..];
    ghost var start := r.pos;
    var version, code, len, sequence, ok;
    ok, version := r.ReadU8();
    if !ok { return None; }
    ok, code := r.ReadU8();
    if !ok { return None; }
    ok, len := r.ReadU16();
    if !ok { return None; }
    ok, sequence := r.ReadU32();
    if !ok { return None; }
    hide UnLE;
    assert rest[0..1] == r.buf[start..start + 1] && rest[1..2] == r.buf[start + 1..start + 2];
    assert rest[2..4] == r.buf[start + 2..start + 4] && rest[4..8] == r.buf[start + 4..start + 8];
    return Some(Header(version, code, len, sequence));
  }

  method DecodeNewOrder(bs: Bytes) returns (b: Option<Body>)
    ensures b == ParseBody(0x10, bs)
  {
    hide UnLE;
    var r := new BufferReader(bs);
    var ok, c, i, s, t, f, pad, p, q;
    ok, c := r.ReadU64();
    if !ok { return None; }
    ok, i := r.ReadU32();
    if !ok { return None; }
    ok, s := r.ReadU8();
    if !ok { return None; }
    ok, t := r.ReadU8();
    if !ok { return None; }
    ok, f := r.ReadU8();
    if !ok { return None; }
    ok, pad := r.ReadU8();
    if !ok { return None; }
    ok, p := r.ReadI64();
    if !ok { return None; }
    ok, q := r.ReadU64();
    if !ok { return None; }
    return Some(NewOrder(c, i, s, t, f, p, q));
  }

  method DecodeFill(bs: Bytes) returns (b: Option<Body>)
    ensures b == ParseBody(0x22, bs)
  {
    hide UnLE;
    var r := new BufferReader(bs);
    var ok, c, s, p, q, st;
    ok, c := r.ReadU64();
    if !ok { return None; }
    ok, s := r.ReadU64();
    if !ok { return None; }
    ok, p := r.ReadI64();
    if !ok { return None; }
    ok, q := r.ReadU64();
    if !ok { return None; }
    ok, st := r.ReadU8();
    if !ok { return None; }
    return Some(Fill(c, s, p, q, st));
  }

  /** decode_body: field after field, failing at the first one that is cut off. */
  method DecodeBody(code: U8, bs: Bytes) returns (b: Option<Body>)
    ensures b == ParseBody(code, bs)
  {
    hide UnLE;
    var r := new BufferReader(bs);
    var ok;
    match code
    case 0x01 =>
      var c;
      ok, c := r.ReadU32();
      b := if ok then Some(Logon(c)) else None;
    case 0x02 =>
      b := Some(Logout);
    case 0x03 =>
      b := Some(Heartbeat);
    case 0x10 =>
      b := DecodeNewOrder(bs);
    case 0x11 =>
      var c, i;
      ok, c := r.ReadU64();
      if !ok { return None; }
      ok, i := r.ReadU32();
      b := if ok then Some(CancelOrder(c, i)) else None;
    case 0x20 =>
      var c, s;
      ok, c := r.ReadU64();
      if !ok { return None; }
      ok, s := r.ReadU64();
      b := if ok then Some(OrderAck(c, s)) else None;
    case 0x21 =>
      var c, reason;
      ok, c := r.ReadU64();
      if !ok { return None; }
      ok, reason := r.ReadU8();
      b := if ok then Some(OrderReject(c, reason)) else None;
    case 0x22 =>
      b := DecodeFill(bs);
    case 0x23 =>
      var c;
      ok, c := r.ReadU64();
      b := if ok then Some(Body.Cancelled(c)) else None;
    case _ =>
      b := None;
  }
}
