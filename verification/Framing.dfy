/**
 * The stream framer (src/protocol/framer.cpp) and the session's outbound side
 * (src/protocol/session.cpp): how bytes are cut never matters.
 */
module Framing {
  import opened Types
  import opened Wire

  datatype FrameError = NoError | BadVersion | OversizeBody | BadBody

  /** The state of a framer. */
  datatype Frames = Frames(buf: Bytes, error: FrameError)

  /** Outcome of one call of next. */
  datatype Polled = Polled(msg: Option<Message>, state: Frames)

  function Poll(f: Frames): (r: Polled)
    ensures r.msg.Some? ==> |r.state.buf| < |f.buf| && r.state.error == f.error == NoError
    ensures r.msg.None? ==> r.state.buf == f.buf
  {
    if f.error != NoError || |f.buf| < HEADER_SIZE then Polled(None, f)
    else
      var h := ParseHeader(f.buf);
      if h.version != PROTOCOL_VERSION then Polled(None, f.(error := BadVersion))
      else if h.bodyLength > MAX_BODY_SIZE then Polled(None, f.(error := OversizeBody))
      else
        var total := HEADER_SIZE + h.bodyLength;
        if |f.buf| < total then Polled(None, f)
        else
          match ParseBody(h.msgType, f.buf[HEADER_SIZE..total])
          case None => Polled(None, f.(error := BadBody))
          case Some(b) => Polled(Some(Message(h, b)), f.(buf := f.buf[total..]))
  }

  function Feed(f: Frames, data: Bytes): Frames {
    if f.error != NoError then f else f.(buf := f.buf + data)
  }

  datatype Drained = Drained(msgs: seq<Message>, state: Frames)

  /** Calling next until it yields nothing. */
  function Drain(f: Frames): Drained
    decreases |f.buf|
  {
    var p := Poll(f);
    match p.msg
    case None => Drained([], p.state)
    case Some(m) => var d := Drain(p.state); Drained([m] + d.msgs, d.state)
  }

  const Fresh: Frames := Frames([], NoError)

  // ---- What a frame looks like to the framer, byte by byte ---------------------------------

  /** The message types of the protocol. */
  predicate KnownType(code: U8) {
    code in {0x01, 0x02, 0x03, 0x10, 0x11, 0x20, 0x21, 0x22, 0x23}
  }

  lemma {:induction false} BodyIsReadIff(code: U8, bs: Bytes)
    ensures ParseBody(code, bs).Some? <==> KnownType(code) && |bs| >= BodySize(code)
  {
    hide UnLE;
  }

  /** The number in bytes 2 and 3, low byte first. */
  function BodyLength(buf: Bytes): U16
    requires |buf| >= 8
  {
    buf[2] as int + 0x100 * (buf[3] as int)
  }

  /** The header fields as numbers made of its bytes. */
  lemma {:induction false} HeaderByBytes(bs: Bytes)
    requires |bs| >= 8
    ensures ParseHeader(bs) == Header(
      bs[0], bs[1], BodyLength(bs),
      bs[4] as int + 0x100 * (bs[5] as int) + 0x1_0000 * (bs[6] as int) + 0x100_0000 * (bs[7] as int))
  {
    OneByte(bs[0..1]);
    OneByte(bs[1..2]);
    TwoBytes(bs[2..4]);
    FourBytes(bs[4..8]);
    hide UnLE;
  }

  lemma {:induction false} OneByte(bs: Bytes)
    requires |bs| == 1
    ensures UnLE(bs) == bs[0]
  {
    assert bs[1..] == [];
  }

  lemma {:induction false} TwoBytes(bs: Bytes)
    requires |bs| == 2
    ensures UnLE(bs) == bs[0] as int + 0x100 * (bs[1] as int)
  {
    OneByte(bs[1..]);
  }

  lemma {:induction false} FourBytes(bs: Bytes)
    requires |bs| == 4
    ensures UnLE(bs)
         == bs[0] as int + 0x100 * (bs[1] as int) + 0x1_0000 * (bs[2] as int) + 0x100_0000 * (bs[3] as int)
  {
    TwoBytes(bs[2..]);
    assert UnLE(bs[1..]) == bs[1] as int + 256 * UnLE(bs[2..]) by {
      assert bs[1..][1..] == bs[2..];
    }
  }

  /** What the first bytes of the buffer call for. */
  datatype Verdict = WrongVersion | TooLong | Unfinished | Unreadable | Readable

  function Judge(buf: Bytes): Verdict {
    if |buf| < 8 then Unfinished
    else if buf[0] != 1 then WrongVersion
    else
      var n := BodyLength(buf);
      if n > 4096 then TooLong
      else if |buf| < 8 + n then Unfinished
      else if !KnownType(buf[1]) || n < BodySize(buf[1]) then Unreadable
      else Readable
  }

  /**
   * Each of the three errors, a message, or nothing yet: decided by the bytes
   * alone. A message takes exactly its header and its body off the buffer, and
   * an error or an unfinished frame takes nothing.
   */
  lemma {:induction false} PollByBytes(f: Frames)
    requires f.error == NoError
    ensures var p, v := Poll(f), Judge(f.buf);
      && (v == WrongVersion <==> p.state.error == BadVersion)
      && (v == TooLong <==> p.state.error == OversizeBody)
      && (v == Unreadable <==> p.state.error == BadBody)
      && (v == Readable <==> p.msg.Some?)
      && (v == Unfinished <==> p == Polled(None, f))
      && (v == Readable ==>
            && p.state == Frames(f.buf[8 + BodyLength(f.buf)..], NoError)
            && p.msg.value.header == ParseHeader(f.buf)
            && Some(p.msg.value.body) == ParseBody(f.buf[1], f.buf[8..8 + BodyLength(f.buf)]))
      && (v != Readable ==> p.msg.None? && p.state.buf == f.buf)
  {
    hide ParseHeader, ParseBody, KnownType, BodySize;
    if |f.buf| >= 8 {
      HeaderByBytes(f.buf);
      var n := BodyLength(f.buf);
      if 8 + n <= |f.buf| {
        BodyIsReadIff(f.buf[1], f.buf[8..8 + n]);
      }
    }
  }

  /** A heartbeat of protocol version 2 is an error and no message. */
  lemma {:induction false} OtherVersionIsRefused()
    ensures Poll(Frames([2, 3, 0, 0, 1, 0, 0, 0], NoError))
         == Polled(None, Frames([2, 3, 0, 0, 1, 0, 0, 0], BadVersion))
  {
    var f := Frames([2, 3, 0, 0, 1, 0, 0, 0], NoError);
    PollByBytes(f);
    hide Poll;
  }

  // ---- More bytes -----------------------------------------------------------------------

  lemma {:induction false} SliceOfLonger(a: Bytes, b: Bytes, i: nat, j: nat)
    requires i <= j <= |a|
    ensures (a + b)[i..j] == a[i..j]
  {
  }

  lemma {:induction false} HeaderOfLonger(a: Bytes, b: Bytes)
    requires |a| >= HEADER_SIZE
    ensures ParseHeader(a + b) == ParseHeader(a)
  {
    hide UnLE;
    SliceOfLonger(a, b, 0, 1);
    SliceOfLonger(a, b, 1, 2);
    SliceOfLonger(a, b, 2, 4);
    SliceOfLonger(a, b, 4, 8);
  }

  /** A message or an error found in a prefix is found in the whole. */
  lemma {:induction false} PollOfLonger(f: Frames, more: Bytes)
    requires f.error == NoError
    ensures Poll(f).msg.Some? ==>
      Poll(Feed(f, more)) == Polled(Poll(f).msg, Feed(Poll(f).state, more))
    ensures Poll(f).state.error != NoError ==>
      Poll(Feed(f, more)).msg.None? && Poll(Feed(f, more)).state.error == Poll(f).state.error
  {
    hide ParseHeader, ParseBody;
    if |f.buf| >= HEADER_SIZE {
      HeaderOfLonger(f.buf, more);
      var total := HEADER_SIZE + ParseHeader(f.buf).bodyLength;
      if total <= |f.buf| {
        SliceOfLonger(f.buf, more, HEADER_SIZE, total);
        assert (f.buf + more)[total..] == f.buf[total..] + more;
      }
    }
  }

  /** Framers that go on alike: bytes behind an error play no part. */
  predicate Alike(a: Frames, b: Frames) {
    a.error == b.error && (a.error == NoError ==> a.buf == b.buf)
  }

  lemma {:induction false} AlikeDrain(a: Frames, b: Frames, more: Bytes)
    requires Alike(a, b)
    ensures Drain(Feed(a, more)).msgs == Drain(Feed(b, more)).msgs
    ensures Alike(Drain(Feed(a, more)).state, Drain(Feed(b, more)).state)
  {
    if a.error != NoError {
      ErrorIsFinal(a);
      ErrorIsFinal(b);
    }
  }

  /** Draining first and feeding then, or feeding first: the same messages and the same error. */
  lemma {:induction false} DrainThenFeed(f: Frames, more: Bytes)
    ensures var d := Drain(f);
      && Drain(Feed(f, more)).msgs == d.msgs + Drain(Feed(d.state, more)).msgs
      && Alike(Drain(Feed(f, more)).state, Drain(Feed(d.state, more)).state)
    decreases |f.buf|
  {
    hide Poll;
    if f.error != NoError {
      ErrorIsFinal(f);
    } else {
      PollOfLonger(f, more);
      var p := Poll(f);
      if p.msg.Some? {
        DrainThenFeed(p.state, more);
        assert Drain(Feed(f, more)).msgs == [p.msg.value] + Drain(Feed(p.state, more)).msgs;
      } else if p.state.error != NoError {
        ErrorIsFinal(p.state);
      } else {
        assert p.state == f;
      }
    }
  }

  lemma {:induction false} ErrorIsFinal(f: Frames)
    requires f.error != NoError
    ensures Drain(f) == Drained([], f)
  {
  }

  // ---- Any use of a framer ------------------------------------------------------------------

  datatype Use = FeedOp(data: Bytes) | NextOp

  /** What a caller has collected, the framer, and all the bytes fed so far. */
  datatype Reading = Reading(got: seq<Message>, state: Frames, fed: Bytes)

  function UseOnce(r: Reading, u: Use): Reading {
    match u
    case FeedOp(data) => Reading(r.got, Feed(r.state, data), r.fed + data)
    case NextOp =>
      var p := Poll(r.state);
      Reading(if p.msg.Some? then r.got + [p.msg.value] else r.got, p.state, r.fed)
  }

  function UseAll(r: Reading, us: seq<Use>): Reading {
    if us == [] then r else UseOnce(UseAll(r, us[..|us| - 1]), us[|us| - 1])
  }

  function BytesFed(us: seq<Use>): Bytes {
    if us == [] then []
    else BytesFed(us[..|us| - 1]) + (if us[|us| - 1].FeedOp? then us[|us| - 1].data else [])
  }

  /** What was collected plus what a drain would still give is what the whole stream gives. */
  predicate Faithful(r: Reading) {
    var whole := Drain(Frames(r.fed, NoError));
    whole.msgs == r.got + Drain(r.state).msgs && Alike(whole.state, Drain(r.state).state)
  }

  lemma {:induction false} DrainTwice(f: Frames)
    ensures Drain(Drain(f).state) == Drained([], Drain(f).state)
    decreases |f.buf|
  {
    var p := Poll(f);
    if p.msg.Some? {
      DrainTwice(p.state);
    } else if p.state.error != NoError {
      ErrorIsFinal(p.state);
    }
  }

  lemma {:induction false} UseKeepsFaithful(r: Reading, u: Use)
    requires Faithful(r)
    ensures Faithful(UseOnce(r, u))
  {
    hide Poll;
    match u
    case FeedOp(data) =>
      var f := Frames(r.fed, NoError);
      DrainThenFeed(f, data);
      DrainThenFeed(r.state, data);
      AlikeDrain(Drain(f).state, Drain(r.state).state, data);
    case NextOp =>
      var p := Poll(r.state);
      if p.msg.Some? {
        assert r.got + Drain(r.state).msgs == r.got + [p.msg.value] + Drain(p.state).msgs;
      } else {
        DrainTwice(r.state);
      }
  }

  /**
   * However a stream is cut into feeds, and however calls of next fall between
   * them: after a full drain the messages and the error are those of feeding
   * the whole stream at once.
   */
  lemma {:induction false} ChunkingDoesNotMatter(us: seq<Use>)
    ensures var r := UseAll(Reading([], Fresh, []), us);
      && r.fed == BytesFed(us)
      && r.got + Drain(r.state).msgs == Drain(Frames(BytesFed(us), NoError)).msgs
      && Alike(Drain(r.state).state, Drain(Frames(BytesFed(us), NoError)).state)
  {
    UseAllFaithful(us);
  }

  lemma {:induction false} UseAllFaithful(us: seq<Use>)
    ensures var r := UseAll(Reading([], Fresh, []), us); Faithful(r) && r.fed == BytesFed(us)
  {
    hide Faithful;
    if us == [] {
      StartFaithful();
    } else {
      UseAllFaithful(us[..|us| - 1]);
      UseKeepsFaithful(UseAll(Reading([], Fresh, []), us[..|us| - 1]), us[|us| - 1]);
    }
  }

  lemma {:induction false} StartFaithful()
    ensures Faithful(Reading([], Fresh, []))
  {
    assert Drain(Fresh) == Drained([], Fresh);
  }

  // ---- The stream round trip ------------------------------------------------------------------

  /** The outbound sequence number after n emits: uint32, starting from 0. */
  function SeqNo(n: nat): U32 {
    n % TWO_TO_32
  }

  /** What a session has queued after emitting these bodies. */
  function StreamBytes(bodies: seq<Body>): Bytes {
    if bodies == [] then []
    else StreamBytes(bodies[..|bodies| - 1]) + FrameBytes(SeqNo(|bodies|), bodies[|bodies| - 1])
  }

  function StreamMessages(bodies: seq<Body>): seq<Message> {
    if bodies == [] then []
    else
      var b := bodies[|bodies| - 1];
      StreamMessages(bodies[..|bodies| - 1]) + [Message(FrameHeader(SeqNo(|bodies|), b), b)]
  }

  lemma {:induction false} PollFrame(sequence: U32, b: Body)
    ensures Poll(Frames(FrameBytes(sequence, b), NoError))
      == Polled(Some(Message(FrameHeader(sequence, b), b)), Fresh)
  {
    hide ParseHeader, ParseBody, BodyBytes, LE;
    var bs := FrameBytes(sequence, b);
    HeaderRoundTrip(FrameHeader(sequence, b), BodyBytes(b));
    BodyRoundTrip(b);
    assert bs[HEADER_SIZE..|bs|] == BodyBytes(b);
  }

  /** Reading a whole emitted stream gives back exactly the bodies, numbered 1, 2, 3, .. modulo 2^32. */
  lemma {:induction false} StreamRoundTrip(bodies: seq<Body>)
    ensures Drain(Frames(StreamBytes(bodies), NoError)) == Drained(StreamMessages(bodies), Fresh)
  {
    if bodies == [] {
      StartFaithful();
    } else {
      hide Poll, FrameBytes;
      var n := |bodies| - 1;
      StreamRoundTrip(bodies[..n]);
      PollFrame(SeqNo(|bodies|), bodies[n]);
      DrainThenFeed(Frames(StreamBytes(bodies[..n]), NoError), FrameBytes(SeqNo(|bodies|), bodies[n]));
      OneFrame(SeqNo(|bodies|), bodies[n]);
    }
  }

  lemma {:induction false} OneFrame(sequence: U32, b: Body)
    ensures Drain(Feed(Fresh, FrameBytes(sequence, b)))
      == Drained([Message(FrameHeader(sequence, b), b)], Fresh)
  {
    PollFrame(sequence, b);
    assert Feed(Fresh, FrameBytes(sequence, b)).buf == FrameBytes(sequence, b);
    hide FrameBytes;
    assert Drain(Fresh) == Drained([], Fresh);
  }

  /** Emitted bodies survive any cutting of the stream on the way. */
  lemma {:induction false} EmittedStreamIsReadBack(bodies: seq<Body>, us: seq<Use>)
    requires BytesFed(us) == StreamBytes(bodies)
    ensures var r := UseAll(Reading([], Fresh, []), us);
      r.got + Drain(r.state).msgs == StreamMessages(bodies) && Drain(r.state).state == Fresh
  {
    ChunkingDoesNotMatter(us);
    StreamRoundTrip(bodies);
  }

  /** The i-th message of a stream, field by field: version 1, its type and size, and number i + 1. */
  lemma {:induction false} StreamIsNumbered(bodies: seq<Body>, i: nat)
    requires i < |bodies|
    ensures |StreamMessages(bodies)| == |bodies|
    ensures StreamMessages(bodies)[i]
         == Message(Header(1, TypeCode(bodies[i]), |BodyBytes(bodies[i])|, (i + 1) % 0x1_0000_0000), bodies[i])
  {
    hide BodyBytes;
    var n := |bodies| - 1;
    if n == 0 {
      assert StreamMessages(bodies[..n]) == [];
    } else {
      StreamIsNumbered(bodies[..n], if i < n then i else 0);
    }
  }
}
