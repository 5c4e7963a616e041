/**
 * The framer and the session as objects (src/protocol/framer.cpp,
 * src/protocol/session.cpp, include/ordbk/protocol/session.hpp).
 */
module Sessions {
  import opened Types
  import opened Wire
  import opened Codec
  import opened Framing

  class Framer {
    var buf: Bytes
    var error: FrameError

    function State(): Frames
      reads this
    {
      Frames(buf, error)
    }

    constructor ()
      ensures State() == Fresh
    {
      buf, error := [], NoError;
    }

    method Feed(data: Bytes)
      modifies this
      ensures State() == Framing.Feed(old(State()), data)
    {
      if error != NoError {
        return;
      }
      buf := buf + data;
    }

    method Next() returns (msg: Option<Message>)
      modifies this
      ensures Polled(msg, State()) == Poll(old(State()))
    {
      hide ParseHeader, ParseBody;
      if error != NoError || |buf| < HEADER_SIZE {
        return None;
      }
      var r := new BufferReader(buf[..HEADER_SIZE]);
      var header := DecodeHeader(r);
      HeaderOfLonger(buf[..HEADER_SIZE], buf[HEADER_SIZE..]);
      assert buf[..HEADER_SIZE] + buf[HEADER_SIZE..] == buf && buf[..HEADER_SIZE][0..] == buf[..HEADER_SIZE];
      var h := header.value;
      if h.version != PROTOCOL_VERSION {
        error := BadVersion;
        return None;
      }
      if h.bodyLength > MAX_BODY_SIZE {
        error := OversizeBody;
        return None;
      }
      var total := HEADER_SIZE + h.bodyLength;
      if |buf| < total {
        return None;
      }
      var body := DecodeBody(h.msgType, buf[HEADER_SIZE..total]);
      if body.None? {
        error := BadBody;
        return None;
      }
      buf := buf[total..];
      return Some(Message(h, body.value));
    }
  }

  datatype Phase = NotLoggedOn | Active | Closing

  class Session {
    var phase: Phase
    var clientId: U32
    var outSeq: U32
    const framer: Framer
    var outbound: Bytes
    ghost var sent: seq<Body>   // every body ever emitted
    ghost var taken: Bytes      // every byte ever handed to the I/O layer

    /** What left the session and what is queued spell out the bodies emitted. */
    ghost predicate Valid()
      reads this
    {
      taken + outbound == StreamBytes(sent) && outSeq == SeqNo(|sent|)
    }

    constructor ()
      ensures Valid() && phase == NotLoggedOn && clientId == 0 && sent == [] && taken == []
      ensures fresh(framer) && framer.State() == Fresh
    {
      phase, clientId, outSeq, outbound, sent, taken := NotLoggedOn, 0, 0, [], [], [];
      framer := new Framer();
    }

    method OnBytes(data: Bytes)
      modifies framer
      ensures framer.State() == Framing.Feed(old(framer.State()), data)
    {
      framer.Feed(data);
    }

    method NextInbound() returns (msg: Option<Message>)
      modifies framer
      ensures Polled(msg, framer.State()) == Poll(old(framer.State()))
    {
      msg := framer.Next();
    }

    lemma {:induction false} NextSeqNo(n: nat)
      ensures (SeqNo(n) + 1) % TWO_TO_32 == SeqNo(n + 1)
    {
    }

    method Emit(b: Body)
      requires Valid()
      modifies this`outSeq, this`outbound, this`sent
      ensures Valid() && sent == old(sent) + [b]
    {
      hide FrameBytes;
      NextSeqNo(|sent|);
      outSeq := (outSeq + 1) % TWO_TO_32;
      var bytes := Encode(outSeq, b);
      outbound := outbound + bytes;
      sent := sent + [b];
      assert sent[..|sent| - 1] == old(sent);
    }

    method TakeOutbound() returns (bytes: Bytes)
      requires Valid()
      modifies this`outbound, this`taken
      ensures Valid() && outbound == [] && bytes == old(outbound) && taken == old(taken) + bytes
    {
      bytes := outbound;
      outbound := [];
      taken := taken + bytes;
    }
  }
}
