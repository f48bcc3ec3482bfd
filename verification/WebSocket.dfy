/** The WebSocket adapter (section 6 of MQTT Version 5.0): message frames in, a byte stream out, and back. */
module WebSocket {
  import opened Basics
  import opened Packets
  import opened Stream

  /** What one poll of the WebSocket yields, once it yields something. */
  datatype Event = Binary(data: Bytes) | Text(data: Bytes) | Close | Ping | Pong | Raw | Error | End

  /** What one `poll_read` yields: bytes, nothing because the peer closed, an error, or "try later". */
  datatype ReadResult = Data(bytes: Bytes) | Eof | Reset | Pending

  /** The payload a frame contributes to the stream. */
  function PayloadOf(e: Event): Bytes {
    if e.Binary? || e.Text? then e.data else []
  }

  function Payloads(events: seq<Event>): Bytes {
    if events == [] then [] else PayloadOf(events[0]) + Payloads(events[1..])
  }

  /** The outcome of one `poll_read`: what it returns, what stays unread, and how many frames it took. */
  datatype ReadStep = ReadStep(result: ReadResult, unread: Bytes, used: nat)

  /** `poll_read` with room for `room` bytes, when `unread` is buffered and the frames of `inbox` have arrived. */
  function PollRead(unread: Bytes, room: nat, inbox: seq<Event>): (s: ReadStep)
    ensures s.used <= |inbox|
    decreases |inbox|
  {
    if unread != [] then
      var n := if |unread| < room then |unread| else room;
      ReadStep(Data(unread[..n]), unread[n..], 0)
    else if inbox == [] then ReadStep(Pending, [], 0)
    else if inbox[0].Close? || inbox[0].End? then ReadStep(Eof, [], 1)
    else if inbox[0].Error? then ReadStep(Reset, [], 1)
    else
      var later := PollRead(PayloadOf(inbox[0]), room, inbox[1..]);
      later.(used := later.used + 1)
  }

  /** The same outcome, after some frames more. */
  function After(s: ReadStep, frames: nat): ReadStep {
    s.(used := s.used + frames)
  }

  lemma SkipFrame(room: nat, inbox: seq<Event>, used: nat)
    requires used < |inbox|
    ensures var e := inbox[used];
            After(PollRead([], room, inbox[used..]), used)
            == if e.Close? || e.End? then ReadStep(Eof, [], used + 1)
               else if e.Error? then ReadStep(Reset, [], used + 1)
               else After(PollRead(PayloadOf(e), room, inbox[used + 1..]), used + 1)
  {
    assert inbox[used..][1..] == inbox[used + 1..];
  }

  class Adapter {
    var readBuffer: Bytes
    var readCursor: nat
    var writeBuffer: Bytes

    ghost var written: Bytes   // accepted from the writer so far
    ghost var sent: Bytes      // handed to the sink so far, in binary messages
    ghost var failed: bool     // has a `start_send` failed

    ghost predicate Valid()
      reads this
    {
      readCursor <= |readBuffer| && (!failed ==> sent + writeBuffer == written)
    }

    ghost function Unread(): Bytes
      requires Valid()
      reads this
    {
      readBuffer[readCursor..]
    }

    constructor ()
      ensures Valid() && Unread() == [] && writeBuffer == [] && written == [] && sent == [] && !failed
    {
      readBuffer, readCursor, writeBuffer := [], 0, [];
      written, sent, failed := [], [], false;
    }

    /** Copies as much of the buffer as there is room for. */
    method CopyOut(room: nat) returns (bytes: Bytes)
      requires Valid()
      modifies `readCursor
      ensures Valid()
      ensures var n := if |old(Unread())| < room then |old(Unread())| else room;
              bytes == old(Unread())[..n] && Unread() == old(Unread())[n..]
    {
      var available := |readBuffer| - readCursor;
      var toCopy := if available < room then available else room;
      bytes := readBuffer[readCursor..readCursor + toCopy];
      assert Unread()[..toCopy] == bytes && Unread()[toCopy..] == readBuffer[readCursor + toCopy..];
      readCursor := readCursor + toCopy;
    }

    /** `poll_read`: the loop over frames. */
    method Read(room: nat, inbox: seq<Event>) returns (r: ReadResult, used: nat)
      requires Valid()
      modifies `readBuffer, `readCursor
      ensures Valid() && ReadStep(r, Unread(), used) == PollRead(old(Unread()), room, inbox)
    {
      used := 0;
      ghost var whole := PollRead(Unread(), room, inbox);
      assert inbox[0..] == inbox;
      while true
        invariant Valid() && used <= |inbox|
        invariant whole == After(PollRead(Unread(), room, inbox[used..]), used)
        decreases |inbox| - used
      {
        if readCursor < |readBuffer| {
          var bytes := CopyOut(room);
          return Data(bytes), used;
        }
        if used == |inbox| {
          return Pending, used;
        }
        var e := inbox[used];
        SkipFrame(room, inbox, used);
        used := used + 1;
        match e
        case Binary(d) =>
          if d != [] { readBuffer, readCursor := d, 0; }
        case Text(d) =>
          if d != [] { readBuffer, readCursor := d, 0; }
        case Close => return Eof, used;
        case Error => return Reset, used;
        case End => return Eof, used;
        case _ =>
      }
    }

    /** `poll_write`: buffers everything. */
    method Write(data: Bytes) returns (n: nat)
      requires Valid()
      modifies `writeBuffer, `written
      ensures Valid()
      ensures n == |data| && written == old(written) + data && writeBuffer == old(writeBuffer) + data
    {
      writeBuffer := writeBuffer + data;
      written := written + data;
      n := |data|;
    }

    /** `poll_flush`, when the sink is ready or not, takes the message or not, and is flushed or not. */
    method Flush(ready: bool, accepts: bool, flushes: bool) returns (done: bool)
      requires Valid()
      modifies `writeBuffer, `sent, `failed
      ensures Valid()
      ensures failed <==> old(failed) || (old(writeBuffer) != [] && ready && !accepts)
      ensures if old(writeBuffer) != [] && ready
              then writeBuffer == [] && sent == old(sent) + if accepts then old(writeBuffer) else []
              else writeBuffer == old(writeBuffer) && sent == old(sent)
      ensures done <==> old(writeBuffer) == [] || (ready && accepts && flushes)
      ensures done && !failed ==> sent == written
    {
      if writeBuffer == [] {
        return true;
      }
      if !ready {
        return false;
      }
      var message := writeBuffer;
      writeBuffer := [];
      if !accepts {
        failed := true;
        return false;
      }
      sent := sent + message;
      done := flushes;
    }
  }

  // ------------------------------------------------------------------ whole runs

  /** One poll of the reader: the room it offers and the frames that have arrived since the last poll took its own. */
  datatype Poll = Poll(room: nat, inbox: seq<Event>)

  /** What the connection reads in a run of polls, what is left, the frames taken, and how it ended. */
  datatype Run = Run(chunks: seq<Bytes>, unread: Bytes, taken: seq<Event>, ending: Ending)

  /** Polls until one says that the stream is over. */
  function ReadAll(unread: Bytes, polls: seq<Poll>): Run
    decreases |polls|
  {
    if polls == [] then Run([], unread, [], StillOpen)
    else
      var s := PollRead(unread, polls[0].room, polls[0].inbox);
      var taken := polls[0].inbox[..s.used];
      match s.result
      case Eof => Run([], s.unread, taken, PeerClosed)
      case Reset => Run([], s.unread, taken, ReadError)
      case Pending => ReadOn([], taken, ReadAll(s.unread, polls[1..]))
      case Data(b) => ReadOn([b], taken, ReadAll(s.unread, polls[1..]))
  }

  function ReadOn(read: seq<Bytes>, taken: seq<Event>, later: Run): Run {
    Run(read + later.chunks, later.unread, taken + later.taken, later.ending)
  }

  /** A connection never polls without room to read into. */
  predicate Roomy(polls: seq<Poll>) {
    forall i :: 0 <= i < |polls| ==> polls[i].room > 0
  }

  lemma {:induction false} ReadsAreNotEmpty(unread: Bytes, polls: seq<Poll>)
    requires Roomy(polls)
    ensures Open(ReadAll(unread, polls).chunks)
    decreases |polls|
  {
    if polls != [] {
      var s := PollRead(unread, polls[0].room, polls[0].inbox);
      PollIsLossless(unread, polls[0].room, polls[0].inbox);
      ReadsAreNotEmpty(s.unread, polls[1..]);
    }
  }

  lemma {:induction false} PayloadsConcat(a: seq<Event>, b: seq<Event>)
    ensures Payloads(a + b) == Payloads(a) + Payloads(b)
  {
    if a == [] {
      assert a + b == b;
    } else {
      assert (a + b)[1..] == a[1..] + b;
      PayloadsConcat(a[1..], b);
    }
  }

  lemma {:induction false} ReadsConcat(a: seq<Bytes>, b: seq<Bytes>)
    ensures Concat(a + b) == Concat(a) + Concat(b)
  {
    if a == [] {
      assert a + b == b;
    } else {
      assert (a + b)[1..] == a[1..] + b;
      ReadsConcat(a[1..], b);
    }
  }

  /** One poll loses and invents nothing, and with room reads nothing only where the stream ends. */
  lemma {:induction false} PollIsLossless(unread: Bytes, room: nat, inbox: seq<Event>)
    ensures var s := PollRead(unread, room, inbox);
            && (if s.result.Data? then s.result.bytes else []) + s.unread == unread + Payloads(inbox[..s.used])
            && (s.result.Data? && room > 0 ==> s.result.bytes != [])
            && (s.result.Eof? ==> s.used > 0 && (inbox[s.used - 1].Close? || inbox[s.used - 1].End?))
            && (unread != [] ==> s.used == 0)
    decreases |inbox|
  {
    var s := PollRead(unread, room, inbox);
    if unread == [] && inbox != [] {
      var first := inbox[0];
      assert inbox[..s.used] == [first] + inbox[1..][..s.used - 1];
      PayloadsConcat([first], inbox[1..][..s.used - 1]);
      assert Payloads([first]) == PayloadOf(first) + [];
      if !(first.Close? || first.End? || first.Error?) {
        PollIsLossless(PayloadOf(first), room, inbox[1..]);
      }
    }
  }

  /** A frame that brings nothing. */
  predicate Silent(e: Event) {
    e.Ping? || e.Pong? || e.Raw? || e == Binary([]) || e == Text([])
  }

  lemma {:induction false} SilentFrames(room: nat, silent: seq<Event>, more: seq<Event>)
    requires forall i :: 0 <= i < |silent| ==> Silent(silent[i])
    ensures PollRead([], room, silent + more) == After(PollRead([], room, more), |silent|)
    decreases |silent|
  {
    if silent == [] {
      assert silent + more == more;
    } else {
      assert (silent + more)[1..] == silent[1..] + more;
      SilentFrames(room, silent[1..], more);
    }
  }

  /** The front of some data, as much as there is room for, and the rest. */
  predicate Delivers(s: ReadStep, data: Bytes, room: nat, used: nat) {
    && s.used == used && s.result.Data? && s.result.bytes + s.unread == data
    && |s.result.bytes| == if |data| < room then |data| else room
  }

  /**
   One poll, frame by frame. What is unread comes first and takes no frame. Otherwise frames that bring nothing are
   passed over; then a binary or text frame delivers its data, a close frame or the end of the stream an empty read,
   an error a failed one; and without another frame the poll waits.
   */
  lemma PollByFrame(unread: Bytes, room: nat, silent: seq<Event>, e: Event, later: seq<Event>, d: Bytes)
    requires forall i :: 0 <= i < |silent| ==> Silent(silent[i])
    ensures unread != [] ==> Delivers(PollRead(unread, room, silent + ([e] + later)), unread, room, 0)
    ensures (e == Binary(d) || e == Text(d)) && d != [] ==>
              Delivers(PollRead([], room, silent + ([e] + later)), d, room, |silent| + 1)
    ensures e == Close || e == End ==>
              PollRead([], room, silent + ([e] + later)) == ReadStep(Eof, [], |silent| + 1)
    ensures e == Error ==> PollRead([], room, silent + ([e] + later)) == ReadStep(Reset, [], |silent| + 1)
    ensures PollRead([], room, silent) == ReadStep(Pending, [], |silent|)
  {
    SilentFrames(room, silent, [e] + later);
    FirstFrame(room, e, later, d);
    SilentFrames(room, silent, []);
    assert silent + [] == silent;
    if unread != [] { UnreadFirst(unread, room, silent + ([e] + later)); }
  }

  lemma UnreadFirst(unread: Bytes, room: nat, inbox: seq<Event>)
    requires unread != []
    ensures Delivers(PollRead(unread, room, inbox), unread, room, 0)
  {
  }

  lemma FirstFrame(room: nat, e: Event, later: seq<Event>, d: Bytes)
    ensures (e == Binary(d) || e == Text(d)) && d != [] ==> Delivers(PollRead([], room, [e] + later), d, room, 1)
    ensures e == Close || e == End ==> PollRead([], room, [e] + later) == ReadStep(Eof, [], 1)
    ensures e == Error ==> PollRead([], room, [e] + later) == ReadStep(Reset, [], 1)
  {
    assert ([e] + later)[0] == e && ([e] + later)[1..] == later;
    if d != [] { UnreadFirst(d, room, later); }
  }

  /** The last of these frames, if there is one, says how the stream ended. */
  ghost predicate EndsAs(taken: seq<Event>, ending: Ending) {
    && (ending == PeerClosed <==> taken != [] && (taken[|taken| - 1].Close? || taken[|taken| - 1].End?))
    && (ending == ReadError <==> taken != [] && taken[|taken| - 1].Error?)
  }

  function EndingOf(r: ReadResult): Ending {
    match r
    case Eof => PeerClosed
    case Reset => ReadError
    case _ => StillOpen
  }

  /** A poll ends the stream exactly at a close, the end or an error. */
  lemma {:induction false} PollStops(unread: Bytes, room: nat, inbox: seq<Event>)
    ensures EndsAs(inbox[..PollRead(unread, room, inbox).used], EndingOf(PollRead(unread, room, inbox).result))
    decreases |inbox|
  {
    if unread == [] && inbox != [] && !(inbox[0].Close? || inbox[0].End? || inbox[0].Error?) {
      PollStops(PayloadOf(inbox[0]), room, inbox[1..]);
      var used := PollRead(PayloadOf(inbox[0]), room, inbox[1..]).used;
      assert inbox[..used + 1] == [inbox[0]] + inbox[1..][..used];
    }
  }

  lemma EndsLater(a: seq<Event>, b: seq<Event>, ending: Ending)
    requires EndsAs(a, StillOpen) && EndsAs(b, ending)
    ensures EndsAs(a + b, ending)
  {
    if b == [] { assert a + b == a; }
  }

  /** A run ends as its last frame says. */
  lemma {:induction false} RunEndsAsItsLastFrame(unread: Bytes, polls: seq<Poll>)
    ensures EndsAs(ReadAll(unread, polls).taken, ReadAll(unread, polls).ending)
    decreases |polls|
  {
    if polls != [] {
      var s := PollRead(unread, polls[0].room, polls[0].inbox);
      PollStops(unread, polls[0].room, polls[0].inbox);
      if s.result.Data? || s.result.Pending? {
        RunEndsAsItsLastFrame(s.unread, polls[1..]);
        EndsLater(polls[0].inbox[..s.used], ReadAll(s.unread, polls[1..]).taken, ReadAll(s.unread, polls[1..]).ending);
      }
    }
  }

  /** Over any run of polls, what was read and what is still unread are the frames' payloads, in order. */
  lemma {:induction false} AdapterIsLossless(unread: Bytes, polls: seq<Poll>)
    ensures var run := ReadAll(unread, polls); Concat(run.chunks) + run.unread == unread + Payloads(run.taken)
    decreases |polls|
  {
    if polls != [] {
      var s := PollRead(unread, polls[0].room, polls[0].inbox);
      PollIsLossless(unread, polls[0].room, polls[0].inbox);
      if s.result.Data? || s.result.Pending? {
        var later, taken := ReadAll(s.unread, polls[1..]), polls[0].inbox[..s.used];
        AdapterIsLossless(s.unread, polls[1..]);
        PayloadsConcat(taken, later.taken);
        ReadsConcat(if s.result.Data? then [s.result.bytes] else [], later.chunks);
        var got := if s.result.Data? then s.result.bytes else [];
        OneRead(got);
        LosslessStep(got, Concat(later.chunks), later.unread, s.unread, unread, Payloads(taken), Payloads(later.taken));
      }
    }
  }

  lemma OneRead(got: Bytes)
    ensures Concat([got]) == got && Concat([]) == []
  {
    assert [got][1..] == [] && got + [] == got;
  }

  lemma LosslessStep(got: Bytes, more: Bytes, left: Bytes, mid: Bytes, unread: Bytes, taken: Bytes, later: Bytes)
    requires got + mid == unread + taken && more + left == mid + later
    ensures got + more + left == unread + (taken + later)
  {
    calc {
      got + more + left;
      got + (more + left);
      got + (mid + later);
      got + mid + later;
      unread + taken + later;
      unread + (taken + later);
    }
  }

  /** The read loop, fed by a run of the adapter. */
  function Outcome(left: Bytes, run: Run): State {
    EndWith(FeedAll(State(left, [], Waiting), run.chunks), run.ending)
  }

  /**
   The packets of a connection do not depend on frame boundaries, nor on how the adapter cut its reads: two runs
   that carried the same bytes, delivered them all and ended alike have the same outcome.
   */
  lemma FrameBoundariesDoNotMatter(a: seq<Poll>, b: seq<Poll>, left: Bytes)
    requires Roomy(a) && Roomy(b)
    requires var x, y := ReadAll([], a), ReadAll([], b);
             x.unread == [] && y.unread == [] && Payloads(x.taken) == Payloads(y.taken) && x.ending == y.ending
    ensures SameOutcome(Outcome(left, ReadAll([], a)), Outcome(left, ReadAll([], b)))
  {
    var x, y := ReadAll([], a), ReadAll([], b);
    ReadsAreNotEmpty([], a);
    ReadsAreNotEmpty([], b);
    AdapterIsLossless([], a);
    AdapterIsLossless([], b);
    assert Concat(x.chunks) + [] == Concat(x.chunks) && Concat(y.chunks) + [] == Concat(y.chunks);
    ChunkingDoesNotMatterToTheEnd(left, x.chunks, y.chunks, x.ending);
  }

  /** Frames that carry the encodings of well-formed packets, cut anywhere, deliver exactly those packets. */
  lemma FramedPacketsArrive(polls: seq<Poll>, packets: seq<Packet>)
    requires AllSendable(packets) && Roomy(polls)
    requires var run := ReadAll([], polls); run.unread == [] && Payloads(run.taken) == EncodeAll(packets)
    ensures Outcome([], ReadAll([], polls)) == EndWith(State([], packets, Waiting), ReadAll([], polls).ending)
  {
    var run := ReadAll([], polls);
    ReadsAreNotEmpty([], polls);
    AdapterIsLossless([], polls);
    assert Concat(run.chunks) + [] == Concat(run.chunks) && [] + Payloads(run.taken) == Payloads(run.taken);
    EncodedStream(packets, run.chunks, run.ending);
  }
}
