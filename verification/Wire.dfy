/**
 * The wire format of docs/protocol.md as pure functions: little-endian
 * integers, the nine message bodies, and the eight-byte header.
 */
module Wire {
  import opened Types
  import opened Bits

  type Bytes = seq<U8>

  const PROTOCOL_VERSION: U8 := 1
  const HEADER_SIZE: nat := 8
  const MAX_BODY_SIZE: nat := 4096

  // ---- Integers -------------------------------------------------------------------

  function Pow256(n: nat): nat {
    Pow2(8 * n)
  }

  lemma {:induction false} Pow256Step(n: nat)
    ensures Pow256(0) == 1 && Pow256(n + 1) == 256 * Pow256(n)
  {
    assert Pow2(8 * n + 8) == 2 * Pow2(8 * n + 7) == 4 * Pow2(8 * n + 6) == 8 * Pow2(8 * n + 5)
        == 16 * Pow2(8 * n + 4) == 32 * Pow2(8 * n + 3) == 64 * Pow2(8 * n + 2) == 128 * Pow2(8 * n + 1);
  }

  /** The n low bytes of v, least significant first. */
  function LE(n: nat, v: nat): (bs: Bytes)
    ensures |bs| == n
  {
    if n == 0 then [] else [v % 256] + LE(n - 1, v / 256)
  }

  function UnLE(bs: Bytes): nat {
    if bs == [] then 0 else bs[0] + 256 * UnLE(bs[1..])
  }

  lemma {:induction false} LERoundTrip(n: nat, v: nat)
    requires v < Pow256(n)
    ensures UnLE(LE(n, v)) == v
  {
    if n != 0 {
      Pow256Step(n - 1);
      LERoundTrip(n - 1, v / 256);
      assert LE(n, v)[1..] == LE(n - 1, v / 256);
    }
  }

  lemma {:induction false} UnLEBound(bs: Bytes)
    ensures UnLE(bs) < Pow256(|bs|)
  {
    if bs != [] {
      Pow256Step(|bs| - 1);
      UnLEBound(bs[1..]);
    }
  }

  lemma {:induction false} Widths()
    ensures Pow256(1) == 0x100 && Pow256(2) == 0x1_0000 && Pow256(4) == 0x1_0000_0000
    ensures Pow256(8) == 0x1_0000_0000_0000_0000
  {
    Pow256Step(0); Pow256Step(1); Pow256Step(2); Pow256Step(3);
    Pow256Step(4); Pow256Step(5); Pow256Step(6); Pow256Step(7);
  }

  /** static_cast between int64 and uint64. */
  function ToU64(v: I64): U64 {
    if v < 0 then v + TWO_TO_64 else v
  }

  function ToI64(v: U64): I64 {
    if v < TWO_TO_63 then v else v - TWO_TO_64
  }

  // ---- Bodies -----------------------------------------------------------------------

  /** Enum fields travel as raw bytes: the code casts them without a check. */
  datatype Body =
    | Logon(clientId: U32)
    | Logout
    | Heartbeat
    | NewOrder(clientOrderId: U64, instrument: U32, side: U8, orderType: U8, tif: U8, price: I64, quantity: U64)
    | CancelOrder(clientOrderId: U64, instrument: U32)
    | OrderAck(clientOrderId: U64, serverOrderId: U64)
    | OrderReject(clientOrderId: U64, reason: U8)
    | Fill(clientOrderId: U64, serverOrderId: U64, price: I64, quantity: U64, postStatus: U8)
    | Cancelled(clientOrderId: U64)

  function TypeCode(b: Body): U8 {
    match b
    case Logon(_) => 0x01
    case Logout => 0x02
    case Heartbeat => 0x03
    case NewOrder(_, _, _, _, _, _, _) => 0x10
    case CancelOrder(_, _) => 0x11
    case OrderAck(_, _) => 0x20
    case OrderReject(_, _) => 0x21
    case Fill(_, _, _, _, _) => 0x22
    case Cancelled(_) => 0x23
  }

  function BodyBytes(b: Body): (bs: Bytes)
    ensures |bs| <= 33
  {
    match b
    case Logon(c) => LE(4, c)
    case Logout => []
    case Heartbeat => []
    case NewOrder(c, i, s, t, f, p, q) =>
      LE(8, c) + LE(4, i) + LE(1, s) + LE(1, t) + LE(1, f) + LE(1, 0) + LE(8, ToU64(p)) + LE(8, q)
    case CancelOrder(c, i) => LE(8, c) + LE(4, i)
    case OrderAck(c, s) => LE(8, c) + LE(8, s)
    case OrderReject(c, r) => LE(8, c) + LE(1, r)
    case Fill(c, s, p, q, st) => LE(8, c) + LE(8, s) + LE(8, ToU64(p)) + LE(8, q) + LE(1, st)
    case Cancelled(c) => LE(8, c)
  }

  function UintAt(bs: Bytes, off: nat, n: nat): nat
    requires off + n <= |bs|
  {
    UnLE(bs[off..off + n])
  }

  function U8At(bs: Bytes, off: nat): U8
    requires off + 1 <= |bs|
  {
    UnLEBound(bs[off..off + 1]); Widths();
    UintAt(bs, off, 1)
  }

  function U16At(bs: Bytes, off: nat): U16
    requires off + 2 <= |bs|
  {
    UnLEBound(bs[off..off + 2]); Widths();
    UintAt(bs, off, 2)
  }

  function U32At(bs: Bytes, off: nat): U32
    requires off + 4 <= |bs|
  {
    UnLEBound(bs[off..off + 4]); Widths();
    UintAt(bs, off, 4)
  }

  function U64At(bs: Bytes, off: nat): U64
    requires off + 8 <= |bs|
  {
    UnLEBound(bs[off..off + 8]); Widths();
    UintAt(bs, off, 8)
  }

  /** What a body of this type code means: fields at fixed offsets, surplus bytes ignored. */
  function ParseBody(code: U8, bs: Bytes): Option<Body> {
    if code == 0x01 then
      if |bs| < 4 then None else Some(Logon(U32At(bs, 0)))
    else if code == 0x02 then Some(Logout)
    else if code == 0x03 then Some(Heartbeat)
    else if code == 0x10 then
      if |bs| < 32 then None
      else Some(NewOrder(U64At(bs, 0), U32At(bs, 8), U8At(bs, 12), U8At(bs, 13), U8At(bs, 14),
                         ToI64(U64At(bs, 16)), U64At(bs, 24)))
    else if code == 0x11 then
      if |bs| < 12 then None else Some(CancelOrder(U64At(bs, 0), U32At(bs, 8)))
    else if code == 0x20 then
      if |bs| < 16 then None else Some(OrderAck(U64At(bs, 0), U64At(bs, 8)))
    else if code == 0x21 then
      if |bs| < 9 then None else Some(OrderReject(U64At(bs, 0), U8At(bs, 8)))
    else if code == 0x22 then
      if |bs| < 33 then None
      else Some(Fill(U64At(bs, 0), U64At(bs, 8), ToI64(U64At(bs, 16)), U64At(bs, 24), U8At(bs, 32)))
    else if code == 0x23 then
      if |bs| < 8 then None else Some(Body.Cancelled(U64At(bs, 0)))
    else None
  }

  /** An encoded integer is found again wherever it lies. */
  lemma {:induction false} UintFound(bs: Bytes, off: nat, n: nat, v: nat)
    requires off + n <= |bs| && v < Pow256(n) && bs[off..off + n] == LE(n, v)
    ensures UintAt(bs, off, n) == v
  {
    LERoundTrip(n, v);
  }

  lemma {:induction false} Middle(a: Bytes, m: Bytes, c: Bytes)
    ensures (a + m + c)[|a|..|a| + |m|] == m && (a + m)[|a|..|a| + |m|] == m
  {
  }

  lemma {:induction false} NewOrderRoundTrip(b: Body)
    requires b.NewOrder?
    ensures ParseBody(0x10, BodyBytes(b)) == Some(b)
  {
    hide LE, UnLE, Pow256;
    var bs := BodyBytes(b);
    Widths();
    UintFound(bs, 0, 8, b.clientOrderId);
    UintFound(bs, 8, 4, b.instrument);
    UintFound(bs, 12, 1, b.side);
    UintFound(bs, 13, 1, b.orderType);
    UintFound(bs, 14, 1, b.tif);
    var head :=
      LE(8, b.clientOrderId) + LE(4, b.instrument) + LE(1, b.side) + LE(1, b.orderType) + LE(1, b.tif) + LE(1, 0);
    Middle(head, LE(8, ToU64(b.price)), LE(8, b.quantity));
    UintFound(bs, 16, 8, ToU64(b.price));
    Middle(head + LE(8, ToU64(b.price)), LE(8, b.quantity), []);
    UintFound(bs, 24, 8, b.quantity);
  }

  lemma {:induction false} FillRoundTrip(b: Body)
    requires b.Fill?
    ensures ParseBody(0x22, BodyBytes(b)) == Some(b)
  {
    hide LE, UnLE, Pow256;
    var bs := BodyBytes(b);
    Widths();
    UintFound(bs, 0, 8, b.clientOrderId);
    UintFound(bs, 8, 8, b.serverOrderId);
    var head := LE(8, b.clientOrderId) + LE(8, b.serverOrderId);
    var tail := LE(8, b.quantity) + LE(1, b.postStatus);
    assert bs == head + LE(8, ToU64(b.price)) + tail;
    Middle(head, LE(8, ToU64(b.price)), tail);
    UintFound(bs, 16, 8, ToU64(b.price));
    Middle(head + LE(8, ToU64(b.price)), LE(8, b.quantity), LE(1, b.postStatus));
    UintFound(bs, 24, 8, b.quantity);
    UintFound(bs, 32, 1, b.postStatus);
  }

  /** Each of the nine bodies is read back from its bytes. */
  lemma {:induction false} BodyRoundTrip(b: Body)
    ensures ParseBody(TypeCode(b), BodyBytes(b)) == Some(b)
  {
    hide LE, UnLE, Pow256;
    Widths();
    var bs := BodyBytes(b);
    match b
    case Logon(c) => UintFound(bs, 0, 4, c);
    case Logout =>
    case Heartbeat =>
    case NewOrder(_, _, _, _, _, _, _) => NewOrderRoundTrip(b);
    case CancelOrder(c, i) => UintFound(bs, 0, 8, c); UintFound(bs, 8, 4, i);
    case OrderAck(c, s) => UintFound(bs, 0, 8, c); UintFound(bs, 8, 8, s);
    case OrderReject(c, r) => UintFound(bs, 0, 8, c); UintFound(bs, 8, 1, r);
    case Fill(_, _, _, _, _) => FillRoundTrip(b);
    case Cancelled(c) => UintFound(bs, 0, 8, c);
  }

  /** The type byte and the offset of every field, as the protocol document lays them out. */
  lemma {:induction false} BodyLayout(b: Body)
    ensures var bs := BodyBytes(b);
      match b
      case Logon(c) => TypeCode(b) == 0x01 && |bs| == 4 && UintAt(bs, 0, 4) == c
      case Logout => TypeCode(b) == 0x02 && bs == []
      case Heartbeat => TypeCode(b) == 0x03 && bs == []
      case NewOrder(c, i, s, t, f, p, q) =>
        && TypeCode(b) == 0x10 && |bs| == 32
        && UintAt(bs, 0, 8) == c && UintAt(bs, 8, 4) == i
        && UintAt(bs, 12, 1) == s && UintAt(bs, 13, 1) == t && UintAt(bs, 14, 1) == f && bs[15] == 0
        && UintAt(bs, 16, 8) == p % TWO_TO_64 && UintAt(bs, 24, 8) == q
      case CancelOrder(c, i) => TypeCode(b) == 0x11 && |bs| == 12 && UintAt(bs, 0, 8) == c && UintAt(bs, 8, 4) == i
      case OrderAck(c, s) => TypeCode(b) == 0x20 && |bs| == 16 && UintAt(bs, 0, 8) == c && UintAt(bs, 8, 8) == s
      case OrderReject(c, r) => TypeCode(b) == 0x21 && |bs| == 9 && UintAt(bs, 0, 8) == c && UintAt(bs, 8, 1) == r
      case Fill(c, s, p, q, st) =>
        && TypeCode(b) == 0x22 && |bs| == 33
        && UintAt(bs, 0, 8) == c && UintAt(bs, 8, 8) == s
        && UintAt(bs, 16, 8) == p % TWO_TO_64 && UintAt(bs, 24, 8) == q && UintAt(bs, 32, 1) == st
      case Cancelled(c) => TypeCode(b) == 0x23 && |bs| == 8 && UintAt(bs, 0, 8) == c
  {
    BodyRoundTrip(b);
    SizeOfParsed(TypeCode(b), BodyBytes(b));
    if b.NewOrder? {
      NewOrderPrinted(BodyBytes(b));
    }
    hide LE, UintAt, BodyBytes;
  }

  // ---- Printing what was read -----------------------------------------------------------

  lemma {:induction false} LEBack(bs: Bytes)
    ensures LE(|bs|, UnLE(bs)) == bs
  {
    if bs != [] {
      LEBack(bs[1..]);
      var v := UnLE(bs);
      assert v / 256 == UnLE(bs[1..]) && v % 256 == bs[0];
      assert bs == [bs[0]] + bs[1..];
    }
  }

  /** An integer read somewhere prints as the bytes it was read from. */
  lemma {:induction false} UintPrinted(bs: Bytes, off: nat, n: nat)
    requires off + n <= |bs|
    ensures LE(n, UintAt(bs, off, n)) == bs[off..off + n]
  {
    LEBack(bs[off..off + n]);
  }

  lemma {:induction false} ZeroByte()
    ensures LE(1, 0) == [0]
  {
    assert LE(0, 0) == [];
  }

  lemma {:induction false} NewOrderPrinted(bs: Bytes)
    requires |bs| >= 32
    ensures BodyBytes(ParseBody(0x10, bs).value) == bs[..15] + [0] + bs[16..32]
  {
    hide LE, UnLE, Pow256;
    UintPrinted(bs, 0, 8);
    UintPrinted(bs, 8, 4);
    UintPrinted(bs, 12, 1);
    UintPrinted(bs, 13, 1);
    UintPrinted(bs, 14, 1);
    UintPrinted(bs, 16, 8);
    UintPrinted(bs, 24, 8);
    ZeroByte();
    assert bs[..15] == bs[0..8] + bs[8..12] + bs[12..13] + bs[13..14] + bs[14..15];
    assert bs[16..32] == bs[16..24] + bs[24..32];
  }

  lemma {:induction false} FillPrinted(bs: Bytes)
    requires |bs| >= 33
    ensures BodyBytes(ParseBody(0x22, bs).value) == bs[..33]
  {
    hide LE, UnLE, Pow256;
    UintPrinted(bs, 0, 8);
    UintPrinted(bs, 8, 8);
    UintPrinted(bs, 16, 8);
    UintPrinted(bs, 24, 8);
    UintPrinted(bs, 32, 1);
    assert bs[..33] == bs[0..8] + bs[8..16] + bs[16..24] + bs[24..32] + bs[32..33];
  }

  lemma {:induction false} SizeOfParsed(code: U8, bs: Bytes)
    requires ParseBody(code, bs).Some?
    ensures |BodyBytes(ParseBody(code, bs).value)| == BodySize(code) <= |bs|
  {
    hide LE, UnLE, Pow256;
  }

  /** The other seven bodies: two fields at most. */
  lemma {:induction false} ShortPrinted(code: U8, bs: Bytes)
    requires ParseBody(code, bs).Some? && code != 0x10 && code != 0x22
    ensures var out := BodyBytes(ParseBody(code, bs).value); |out| <= |bs| && out == bs[..|out|]
  {
    hide LE, UnLE, Pow256;
    if code == 0x01 {
      UintPrinted(bs, 0, 4);
    } else if code >= 0x11 {
      UintPrinted(bs, 0, 8);
      if code == 0x11 {
        UintPrinted(bs, 8, 4);
        assert bs[..12] == bs[0..8] + bs[8..12];
      } else if code == 0x20 {
        UintPrinted(bs, 8, 8);
        assert bs[..16] == bs[0..8] + bs[8..16];
      } else if code == 0x21 {
        UintPrinted(bs, 8, 1);
        assert bs[..9] == bs[0..8] + bs[8..9];
      }
    }
  }

  /** The body size the protocol gives to each message type. */
  function BodySize(code: U8): nat {
    if code == 0x01 then 4
    else if code == 0x10 then 32
    else if code == 0x11 then 12
    else if code == 0x20 then 16
    else if code == 0x21 then 9
    else if code == 0x22 then 33
    else if code == 0x23 then 8
    else 0
  }

  /**
   * A body that was read prints back as the same bytes if and only if there were
   * no surplus bytes and, in a new order, the padding byte was 0.
   */
  lemma {:induction false} PrintedBackIff(code: U8, bs: Bytes)
    requires ParseBody(code, bs).Some?
    ensures var b := ParseBody(code, bs).value;
      BodyBytes(b) == bs <==> |bs| == BodySize(code) && (code == 0x10 ==> bs[15] == 0)
  {
    var out := BodyBytes(ParseBody(code, bs).value);
    SizeOfParsed(code, bs);
    if code == 0x10 {
      NewOrderPrinted(bs);
      hide ParseBody, BodyBytes;
      assert |bs| == 32 ==> bs == bs[..15] + [bs[15]] + bs[16..32];
      assert out[15] == 0;
    } else if code == 0x22 {
      FillPrinted(bs);
      hide ParseBody, BodyBytes;
      assert |bs| == 33 ==> bs[..33] == bs;
    } else {
      ShortPrinted(code, bs);
      hide ParseBody, BodyBytes;
      assert |bs| == |out| ==> bs[..|out|] == bs;
    }
  }

  /** A new order of 32 bytes whose padding byte is 1 is read, and prints with padding 0. */
  lemma {:induction false} PaddingIsIgnored(bs: Bytes)
    requires |bs| == 32 && bs[15] == 1
    ensures ParseBody(0x10, bs).Some? && BodyBytes(ParseBody(0x10, bs).value) == bs[15 := 0] != bs
  {
    NewOrderPrinted(bs);
    hide ParseBody, BodyBytes;
    assert bs[15 := 0] == bs[..15] + [0] + bs[16..32];
  }

  /** A heartbeat with a surplus byte is read all the same. */
  lemma {:induction false} SurplusIsIgnored()
    ensures ParseBody(0x03, [9]) == Some(Heartbeat) && BodyBytes(Heartbeat) == [] != [9]
  {
  }

  // ---- Frames -------------------------------------------------------------------------

  datatype Header = Header(version: U8, msgType: U8, bodyLength: U16, sequence: U32)

  datatype Message = Message(header: Header, body: Body)

  function HeaderBytes(h: Header): (bs: Bytes)
    ensures |bs| == HEADER_SIZE
  {
    LE(1, h.version) + LE(1, h.msgType) + LE(2, h.bodyLength) + LE(4, h.sequence)
  }

  function ParseHeader(bs: Bytes): Header
    requires |bs| >= HEADER_SIZE
  {
    Header(U8At(bs, 0), U8At(bs, 1), U16At(bs, 2), U32At(bs, 4))
  }

  function FrameHeader(sequence: U32, b: Body): Header {
    Header(PROTOCOL_VERSION, TypeCode(b), |BodyBytes(b)|, sequence)
  }

  function FrameBytes(sequence: U32, b: Body): Bytes {
    HeaderBytes(FrameHeader(sequence, b)) + BodyBytes(b)
  }

  lemma {:induction false} HeaderRoundTrip(h: Header, rest: Bytes)
    ensures ParseHeader(HeaderBytes(h) + rest) == h
  {
    hide LE, UnLE, Pow256;
    Widths();
    var bs := HeaderBytes(h) + rest;
    UintFound(bs, 0, 1, h.version);
    UintFound(bs, 1, 1, h.msgType);
    UintFound(bs, 2, 2, h.bodyLength);
    UintFound(bs, 4, 4, h.sequence);
  }
}
