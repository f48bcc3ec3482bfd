/** The read loop of a connection: append what was read, decode while possible. Chunk boundaries do not matter. */
module Stream {
  import opened Basics
  import opened Varint
  import opened Packets
  import opened PacketRoundTrip
  import Codec

  // ------------------------------------------------------- frames are decided by their own bytes

  lemma FrameIsDecided(b: Bytes, more: Bytes)
    ensures DecodeFrame(b) != Err(Incomplete) ==> DecodeFrame(b + more) == DecodeFrame(b)
  {
    if b != [] {
      assert (b + more)[1..] == b[1..] + more;
      VarintStable(b[1..], more, 0);
      if DecodeVarint(b[1..], 0).Ok? {
        var (v, n) := DecodeVarint(b[1..], 0).value;
        assert (b[1..] + more)[n..] == b[1..][n..] + more;
        if |b[1..][n..]| >= v {
          assert (b[1..][n..] + more)[..v] == b[1..][n..][..v];
        }
      }
    }
  }

  lemma FrameSize(b: Bytes)
    ensures DecodeFrame(b).Ok? ==> 2 <= DecodeFrame(b).value.2 <= |b|
  {
  }

  lemma FrameCutShort(b: Bytes, k: nat)
    requires DecodeFrame(b).Ok? && k < DecodeFrame(b).value.2
    ensures DecodeFrame(b[..k]) == Err(Incomplete)
  {
    FrameSize(b);
    var (v, n) := DecodeVarint(b[1..], 0).value;
    if k > 0 {
      assert b[..k][1..] == b[1..][..k - 1];
      if k - 1 < n {
        VarintPrefixIncomplete(b[1..], k - 1, 0);
      } else {
        VarintOfPrefix(b[1..], k - 1);
        assert |b[1..][..k - 1][n..]| == k - 1 - n < v;
      }
    }
  }

  lemma {:induction false} VarintOfPrefixFrom(b: Bytes, k: nat, seen: nat)
    requires seen <= 3 && DecodeVarint(b, seen).Ok? && DecodeVarint(b, seen).value.1 <= k <= |b|
    ensures DecodeVarint(b[..k], seen) == DecodeVarint(b, seen)
    decreases k
  {
    if b[0] >= 128 {
      assert b[..k][1..] == b[1..][..k - 1];
      VarintOfPrefixFrom(b[1..], k - 1, seen + 1);
    }
  }

  lemma VarintOfPrefix(b: Bytes, k: nat)
    requires DecodeVarint(b, 0).Ok? && DecodeVarint(b, 0).value.1 <= k <= |b|
    ensures DecodeVarint(b[..k], 0) == DecodeVarint(b, 0)
  {
    VarintOfPrefixFrom(b, k, 0);
  }

  /** Once a frame is there, its verdict is final; before that, the answer is always "incomplete". */
  lemma FrameDeterminism(b: Bytes, more: Bytes)
    requires DecodeFrame(b).Ok?
    ensures DecodePacket(b + more) == DecodePacket(b)
    ensures DecodePacket(b).Ok? ==> 2 <= DecodePacket(b).value.1 <= |b|
    ensures forall k :: 0 <= k < DecodeFrame(b).value.2 ==> DecodePacket(b[..k]) == Err(Incomplete)
  {
    FrameIsDecided(b, more);
    FrameSize(b);
    forall k | 0 <= k < DecodeFrame(b).value.2 ensures DecodePacket(b[..k]) == Err(Incomplete) {
      FrameCutShort(b, k);
    }
  }

  lemma DecodeIsDecided(b: Bytes, more: Bytes)
    ensures DecodePacket(b) != Err(Incomplete) ==> DecodePacket(b + more) == DecodePacket(b)
    ensures DecodePacket(b).Ok? ==> 2 <= DecodePacket(b).value.1 <= |b|
  {
    FrameIsDecided(b, more);
    FrameSize(b);
  }

  // ------------------------------------------------------------------- the loop

  /**
   Why the loop is where it is: it waits for bytes, the peer closed, a read failed, a packet failed to decode,
   or a second CONNECT arrived.
   */
  datatype Verdict = Waiting | Closed | ReadFailed | Failed(error: CodecError) | DuplicateConnect

  /** How the reads of a connection end, so far. */
  datatype Ending = StillOpen | PeerClosed | ReadError

  datatype State = State(buffer: Bytes, handled: seq<Packet>, verdict: Verdict)

  /** Handles every packet at the front of the buffer. */
  function Drain(buffer: Bytes, handled: seq<Packet>): (s: State)
    decreases |buffer|
  {
    match DecodePacket(buffer)
    case Err(Incomplete) => State(buffer, handled, Waiting)
    case Err(e) => State(buffer, handled, Failed(e))
    case Ok((p, n)) =>
      DecodeIsDecided(buffer, []);
      if p.Connect? then State(buffer, handled, DuplicateConnect) else Drain(buffer[n..], handled + [p])
  }

  /** One read; an empty one means the peer closed. After that, or a failure, nothing more is read. */
  function Feed(s: State, chunk: Bytes): State {
    if s.verdict != Waiting then s
    else if chunk == [] then s.(verdict := Closed)
    else Drain(s.buffer + chunk, s.handled)
  }

  function FeedAll(s: State, chunks: seq<Bytes>): State
    decreases |chunks|
  {
    if chunks == [] then s else FeedAll(Feed(s, chunks[0]), chunks[1..])
  }

  /** The read that ends a connection, if there was one. */
  function EndWith(s: State, e: Ending): State {
    if s.verdict != Waiting then s
    else
      match e
      case StillOpen => s
      case PeerClosed => s.(verdict := Closed)
      case ReadError => s.(verdict := ReadFailed)
  }

  /** No read was empty: the peer has not closed. */
  predicate Open(chunks: seq<Bytes>) {
    forall i :: 0 <= i < |chunks| ==> chunks[i] != []
  }

  class Connection {
    var readBuf: Bytes
    var handled: seq<Packet>
    var verdict: Verdict

    ghost function Value(): State
      reads this
    {
      State(readBuf, handled, verdict)
    }

    /** What is left in the buffer behind the first CONNECT is not looked at before the next read. */
    constructor (left: Bytes)
      ensures Value() == State(left, [], Waiting)
    {
      readBuf, handled, verdict := left, [], Waiting;
    }

    /** One turn of the outer loop of `handle_connection`: a read that returned `chunk`. */
    method OnRead(chunk: Bytes)
      modifies this
      ensures Value() == Feed(old(Value()), chunk)
    {
      if verdict != Waiting {
        return;
      }
      if chunk == [] {
        verdict := Closed;
        return;
      }
      readBuf := readBuf + chunk;
      ghost var all := readBuf;
      while verdict == Waiting
        invariant verdict == Waiting ==> Drain(all, old(handled)) == Drain(readBuf, handled)
        invariant verdict != Waiting ==> Drain(all, old(handled)) == Value()
        decreases |readBuf|, verdict == Waiting
      {
        var result := Codec.Decode(readBuf);
        match result
        case Ok((packet, n)) =>
          DecodeIsDecided(readBuf, []);
          if packet.Connect? {
            verdict := DuplicateConnect;
          } else {
            handled := handled + [packet];
            readBuf := readBuf[n..];
          }
        case Err(Incomplete) =>
          return;
        case Err(e) =>
          verdict := Failed(e);
      }
    }

    /** A read that failed. */
    method OnReadError()
      modifies this
      ensures Value() == EndWith(old(Value()), ReadError)
    {
      if verdict == Waiting {
        verdict := ReadFailed;
      }
    }

    /** The outer loop over all reads. */
    method OnReads(chunks: seq<Bytes>)
      modifies this
      ensures Value() == FeedAll(old(Value()), chunks)
    {
      assert chunks[0..] == chunks;
      for i := 0 to |chunks|
        invariant FeedAll(old(Value()), chunks) == FeedAll(Value(), chunks[i..])
      {
        assert chunks[i..][0] == chunks[i] && chunks[i..][1..] == chunks[i + 1..];
        OnRead(chunks[i]);
      }
    }
  }

  // --------------------------------------------------- chunking does not matter

  /** Equal up to what was left unread after a failure. */
  predicate SameOutcome(a: State, b: State) {
    a.handled == b.handled && a.verdict == b.verdict && (a.verdict == Waiting ==> a.buffer == b.buffer)
  }

  /** Draining a longer buffer continues where draining the shorter one stopped. */
  lemma {:induction false} DrainMore(buffer: Bytes, handled: seq<Packet>, more: Bytes)
    requires more != []
    ensures SameOutcome(Drain(buffer + more, handled), Feed(Drain(buffer, handled), more))
    decreases |buffer|
  {
    DecodeIsDecided(buffer, more);
    if DecodePacket(buffer).Ok? {
      var (p, n) := DecodePacket(buffer).value;
      if !p.Connect? {
        assert (buffer + more)[n..] == buffer[n..] + more;
        DrainMore(buffer[n..], handled + [p], more);
      }
    }
  }

  /** Reading a stream in pieces is reading it at once. */
  lemma {:induction false} ChunksAreOneRead(left: Bytes, handled: seq<Packet>, chunks: seq<Bytes>)
    requires chunks != [] && Open(chunks)
    ensures var start := State(left, handled, Waiting);
            SameOutcome(FeedAll(start, chunks), Feed(start, Concat(chunks)))
    decreases |chunks|
  {
    var start := State(left, handled, Waiting);
    var first := Feed(start, chunks[0]);
    if |chunks| == 1 {
      assert Concat(chunks) == chunks[0] + [] == chunks[0];
    } else {
      var rest := chunks[1..];
      assert Open(rest) && rest[0] == chunks[1] && Concat(rest) != [];
      DrainMore(left + chunks[0], handled, Concat(rest));
      ConcatAssociates(left, chunks[0], Concat(rest));
      if first.verdict == Waiting {
        ChunksAreOneRead(first.buffer, first.handled, rest);
      } else {
        NothingAfterFailure(first, rest);
      }
    }
  }

  lemma {:induction false} NothingAfterFailure(s: State, chunks: seq<Bytes>)
    requires s.verdict != Waiting
    ensures FeedAll(s, chunks) == s
    decreases |chunks|
  {
    if chunks != [] { NothingAfterFailure(s, chunks[1..]); }
  }

  /** Any two ways of cutting the same bytes give the same packets, in the same order, and the same verdict. */
  lemma ChunkingDoesNotMatter(left: Bytes, a: seq<Bytes>, b: seq<Bytes>)
    requires a != [] && b != [] && Open(a) && Open(b) && Concat(a) == Concat(b)
    ensures SameOutcome(FeedAll(State(left, [], Waiting), a), FeedAll(State(left, [], Waiting), b))
  {
    ChunksAreOneRead(left, [], a);
    ChunksAreOneRead(left, [], b);
  }

  /** And so it is with the read that ends the connection, if there was one; there may have been no other. */
  lemma ChunkingDoesNotMatterToTheEnd(left: Bytes, a: seq<Bytes>, b: seq<Bytes>, e: Ending)
    requires Open(a) && Open(b) && Concat(a) == Concat(b)
    ensures var start := State(left, [], Waiting);
            SameOutcome(EndWith(FeedAll(start, a), e), EndWith(FeedAll(start, b), e))
  {
    if a != [] && b != [] {
      ChunkingDoesNotMatter(left, a, b);
    } else {
      NothingReadIfEmpty(a);
      NothingReadIfEmpty(b);
    }
  }

  lemma NothingReadIfEmpty(chunks: seq<Bytes>)
    requires Open(chunks)
    ensures Concat(chunks) == [] <==> chunks == []
  {
  }

  // --------------------------------------------- streams written by the encoder

  function EncodeAll(packets: seq<Packet>): Bytes {
    if packets == [] then [] else EncodePacket(packets[0]) + EncodeAll(packets[1..])
  }

  predicate Sendable(p: Packet) {
    WellFormed(p) && Fits(p) && !p.Connect?
  }

  lemma DrainOne(p: Packet, rest: Bytes, handled: seq<Packet>)
    requires Sendable(p)
    ensures Drain(EncodePacket(p) + rest, handled) == Drain(rest, handled + [p])
  {
    RoundTrip(p, rest);
    assert (EncodePacket(p) + rest)[|EncodePacket(p)|..] == rest;
  }

  ghost predicate AllSendable(packets: seq<Packet>) {
    forall i :: 0 <= i < |packets| ==> Sendable(packets[i])
  }

  lemma SendableTail(packets: seq<Packet>)
    requires AllSendable(packets) && packets != []
    ensures Sendable(packets[0]) && AllSendable(packets[1..])
  {
  }

  lemma DrainNothing(handled: seq<Packet>)
    ensures Drain(EncodeAll([]), handled) == State([], handled + [], Waiting)
  {
    assert handled + [] == handled;
  }

  lemma MoveFirst(handled: seq<Packet>, packets: seq<Packet>)
    requires packets != []
    ensures handled + packets == handled + [packets[0]] + packets[1..]
  {
  }

  lemma DrainFirst(packets: seq<Packet>, handled: seq<Packet>)
    requires packets != [] && Sendable(packets[0])
    ensures Drain(EncodeAll(packets), handled) == Drain(EncodeAll(packets[1..]), handled + [packets[0]])
  {
    DrainOne(packets[0], EncodeAll(packets[1..]), handled);
  }

  lemma {:induction false} DrainEncoded(packets: seq<Packet>, handled: seq<Packet>)
    requires AllSendable(packets)
    ensures Drain(EncodeAll(packets), handled) == State([], handled + packets, Waiting)
    decreases |packets|
  {
    if packets == [] {
      DrainNothing(handled);
    } else {
      DrainFirst(packets, handled);
      SendableTail(packets);
      DrainEncoded(packets[1..], handled + [packets[0]]);
      MoveFirst(handled, packets);
    }
  }

  /**
   However the encodings of well-formed packets are cut up, the loop handles exactly those packets and empties its
   buffer; the verdict is how the reads ended.
   */
  lemma EncodedStream(packets: seq<Packet>, chunks: seq<Bytes>, e: Ending)
    requires AllSendable(packets) && Open(chunks) && Concat(chunks) == EncodeAll(packets)
    ensures EndWith(FeedAll(State([], [], Waiting), chunks), e) == EndWith(State([], packets, Waiting), e)
  {
    if chunks == [] {
      NothingEncoded(packets);
    } else {
      ChunksAreOneRead([], [], chunks);
      NothingReadIfEmpty(chunks);
      assert [] + Concat(chunks) == EncodeAll(packets);
      DrainEncoded(packets, []);
      assert [] + packets == packets;
    }
  }

  lemma NothingEncoded(packets: seq<Packet>)
    requires EncodeAll(packets) == []
    ensures packets == []
  {
  }

  // ---------------------------------------------------------- how a stream stops

  /** Each frame is one packet, to its last byte, and none is a CONNECT. */
  ghost predicate Frames(frames: seq<Bytes>, packets: seq<Packet>) {
    && |frames| == |packets|
    && forall i :: 0 <= i < |frames| ==> FrameOf(frames[i], packets[i])
  }

  ghost predicate FrameOf(frame: Bytes, p: Packet) {
    DecodePacket(frame) == Ok((p, |frame|)) && !p.Connect?
  }

  lemma DrainFrame(frame: Bytes, p: Packet, rest: Bytes, handled: seq<Packet>)
    requires FrameOf(frame, p)
    ensures Drain(frame + rest, handled) == Drain(rest, handled + [p])
  {
    DecodeIsDecided(frame, rest);
    assert (frame + rest)[|frame|..] == rest;
  }

  lemma {:induction false} DrainFrames(frames: seq<Bytes>, packets: seq<Packet>, b: Bytes, handled: seq<Packet>)
    requires Frames(frames, packets)
    ensures Drain(Concat(frames) + b, handled) == Drain(b, handled + packets)
    decreases |frames|
  {
    if frames == [] {
      assert [] + b == b && handled + packets == handled;
    } else {
      var rest := Concat(frames[1..]) + b;
      ConcatAssociates(frames[0], Concat(frames[1..]), b);
      DrainFrame(frames[0], packets[0], rest, handled);
      DrainFrames(frames[1..], packets[1..], b, handled + [packets[0]]);
      MoveFirst(handled, packets);
    }
  }

  /** The loop stopped in front of bytes b: at an error, at a CONNECT, or because no packet is there yet. */
  ghost predicate StoppedAt(b: Bytes, packets: seq<Packet>, s: State) {
    match DecodePacket(b)
    case Err(Incomplete) => s == State(b, packets, Waiting)
    case Err(e) => s.handled == packets && s.verdict == Failed(e)
    case Ok((p, _)) => p.Connect? ==> s.handled == packets && s.verdict == DuplicateConnect
  }

  /**
   Whole packets, then bytes b, cut anywhere: exactly those packets are handled. If b starts with a malformed packet
   the connection fails with its error, if with a CONNECT as a duplicate; if b is not a whole packet the loop waits
   with b in its buffer, and the next empty or failed read ends it.
   */
  lemma StreamStops(frames: seq<Bytes>, packets: seq<Packet>, b: Bytes, chunks: seq<Bytes>)
    requires Frames(frames, packets) && Open(chunks) && Concat(chunks) == Concat(frames) + b
    ensures var s := FeedAll(State([], [], Waiting), chunks);
            && StoppedAt(b, packets, s)
            && (DecodePacket(b) == Err(Incomplete) ==>
                  && Feed(s, []) == EndWith(s, PeerClosed) == State(b, packets, Closed)
                  && EndWith(s, ReadError) == State(b, packets, ReadFailed))
  {
    DrainFrames(frames, packets, b, []);
    assert [] + packets == packets && [] + Concat(chunks) == Concat(frames) + b;
    NothingReadIfEmpty(chunks);
    if chunks == [] {
      NoFrames(frames, packets);
    } else {
      ChunksAreOneRead([], [], chunks);
    }
  }

  lemma NoFrames(frames: seq<Bytes>, packets: seq<Packet>)
    requires Frames(frames, packets) && Concat(frames) == []
    ensures packets == []
  {
    if frames != [] {
      assert FrameOf(frames[0], packets[0]);
      DecodeIsDecided(frames[0], []);
    }
  }

  /** The same behind packets that were encoded, with the two ways of failing spelled out. */
  lemma EncodedStreamStops(packets: seq<Packet>, b: Bytes, chunks: seq<Bytes>, connect: Packet, rest: Bytes)
    requires AllSendable(packets) && Open(chunks) && Concat(chunks) == EncodeAll(packets) + b
    ensures var s := FeedAll(State([], [], Waiting), chunks);
            && (DecodePacket(b).Err? && DecodePacket(b).error != Incomplete ==>
                  s.handled == packets && s.verdict == Failed(DecodePacket(b).error))
            && (connect.Connect? && WellFormed(connect) && Fits(connect) && b == EncodePacket(connect) + rest ==>
                  s.handled == packets && s.verdict == DuplicateConnect)
  {
    var frames := EncodedFrames(packets);
    StreamStops(frames, packets, b, chunks);
    if connect.Connect? && WellFormed(connect) && Fits(connect) {
      RoundTrip(connect, rest);
    }
  }

  lemma EncodedIsFrame(p: Packet)
    requires Sendable(p)
    ensures FrameOf(EncodePacket(p), p)
  {
    RoundTrip(p, []);
    assert EncodePacket(p) + [] == EncodePacket(p);
  }

  lemma {:induction false} EncodedFrames(packets: seq<Packet>) returns (frames: seq<Bytes>)
    requires AllSendable(packets)
    ensures Frames(frames, packets) && Concat(frames) == EncodeAll(packets)
    decreases |packets|
  {
    if packets == [] {
      frames := [];
    } else {
      SendableTail(packets);
      var more := EncodedFrames(packets[1..]);
      var first := EncodePacket(packets[0]);
      EncodedIsFrame(packets[0]);
      frames := [first] + more;
      assert frames[1..] == more;
      OneMoreFrame(first, packets[0], more, packets[1..]);
      assert packets == [packets[0]] + packets[1..];
    }
  }

  lemma OneMoreFrame(frame: Bytes, p: Packet, frames: seq<Bytes>, packets: seq<Packet>)
    requires FrameOf(frame, p) && Frames(frames, packets)
    ensures Frames([frame] + frames, [p] + packets)
  {
  }
}
