/** A client session: its packet ids, its in-flight messages and its outgoing channel. */
module Session {
  import opened Basics
  import opened PacketIds

  /** A message awaiting acknowledgement; clocks are not modelled. */
  datatype Message = Message(packetId: u16, topic: Text, payload: Bytes, qos: byte)

  /** What a session is made with, and what the sessions table keeps of it. */
  datatype SessionRow = SessionRow(username: Option<Text>, cleanStart: bool, expiry: u32)

  /** Does the session outlive its connection? */
  predicate Persists(row: SessionRow) {
    !row.cleanStart && row.expiry > 0
  }

  /** A session as a value. The channel is everything ever sent on it. */
  datatype SessionState = SessionState(nextPacketId: u16, inFlight: map<u16, Message>, channel: seq<Bytes>)

  class ClientSession {
    const clientId: Text
    const username: Option<Text>
    const cleanStart: bool
    const expiry: u32
    var nextPacketId: u16
    var inFlight: map<u16, Message>
    var channel: seq<Bytes>

    ghost function Value(): SessionState
      reads this
    {
      SessionState(nextPacketId, inFlight, channel)
    }

    function Terms(): SessionRow {
      SessionRow(username, cleanStart, expiry)
    }

    constructor (clientId: Text, username: Option<Text>, cleanStart: bool, expiry: u32)
      ensures this.clientId == clientId && Terms() == SessionRow(username, cleanStart, expiry)
      ensures Value() == SessionState(1, map[], [])
    {
      this.clientId, this.username, this.cleanStart, this.expiry := clientId, username, cleanStart, expiry;
      nextPacketId, inFlight, channel := 1, map[], [];
    }

    /** `fetch_add(1)` */
    method FetchAdd() returns (before: u16)
      modifies `nextPacketId
      ensures before == old(nextPacketId) && nextPacketId == Bump(old(nextPacketId))
    {
      before := nextPacketId;
      nextPacketId := (nextPacketId + 1) % U16_SIZE;
    }

    method GetNextPacketId() returns (id: u16)
      modifies `nextPacketId
      ensures (id, nextPacketId) == NextId(old(nextPacketId))
    {
      id := FetchAdd();
      if id == 0 {
        id := FetchAdd();
      }
    }

    method AddInFlight(packetId: u16, topic: Text, payload: Bytes, qos: byte)
      modifies `inFlight
      ensures inFlight == old(inFlight)[packetId := Message(packetId, topic, payload, qos)]
    {
      inFlight := inFlight[packetId := Message(packetId, topic, payload, qos)];
    }

    method RemoveInFlight(packetId: u16) returns (removed: Option<Message>)
      modifies `inFlight
      ensures inFlight == old(inFlight) - {packetId}
      ensures removed == Lookup(old(inFlight), packetId)
    {
      removed := Lookup(inFlight, packetId);
      inFlight := inFlight - {packetId};
    }

    method Send(frame: Bytes)
      modifies `channel
      ensures channel == old(channel) + [frame]
    {
      channel := channel + [frame];
    }
  }

  // ------------------------------------------------- in-flight messages over whole runs

  datatype Op = SendOp(topic: Text, payload: Bytes, qos: byte) | AckOp(id: u16)

  /** What the session does with its counter and its in-flight map. */
  datatype Tracker = Tracker(counter: u16, inFlight: map<u16, Message>)

  function StepTracker(t: Tracker, op: Op): Tracker {
    match op
    case SendOp(topic, payload, qos) =>
      var (id, counter) := NextId(t.counter);
      Tracker(counter, t.inFlight[id := Message(id, topic, payload, qos)])
    case AckOp(id) => t.(inFlight := t.inFlight - {id})
  }

  /** What really is unacknowledged: sends by number, and how many acknowledgements hit one. */
  datatype Ledger = Ledger(sends: nat, acked: nat, open: map<nat, Op>)

  /** The open messages that an acknowledgement of this id leaves open. */
  function LeftOpen(idOf: nat -> u16, open: map<nat, Op>, id: u16): (rest: map<nat, Op>)
    ensures |rest| <= |open|
  {
    var rest := map n | n in open && idOf(n) != id :: open[n];
    Smaller(rest.Keys, open.Keys);
    rest
  }

  lemma Smaller<T>(a: set<T>, b: set<T>)
    requires a <= b
    ensures |a| <= |b|
  {
    assert b == a + (b - a);
  }

  function StepLedger(l: Ledger, op: Op): Ledger {
    match op
    case SendOp(_, _, _) => l.(sends := l.sends + 1, open := l.open[l.sends := op])
    case AckOp(id) =>
      var rest := LeftOpen(IdOf, l.open, id);
      l.(open := rest, acked := l.acked + (|l.open| - |rest|))
  }

  function RunTracker(ops: seq<Op>): Tracker {
    if ops == [] then Tracker(1, map[]) else StepTracker(RunTracker(ops[..|ops| - 1]), ops[|ops| - 1])
  }

  function RunLedger(ops: seq<Op>): Ledger {
    if ops == [] then Ledger(0, 0, map[]) else StepLedger(RunLedger(ops[..|ops| - 1]), ops[|ops| - 1])
  }

  /** The message of a send, under its id. */
  function MessageOf(id: u16, op: Op): Message
    requires op.SendOp?
  {
    Message(id, op.topic, op.payload, op.qos)
  }

  /** The in-flight map holds exactly the open messages, each under its own id with its own contents. */
  ghost predicate Tracks(idOf: nat -> u16, inFlight: map<u16, Message>, open: map<nat, Op>) {
    && (forall n :: n in open ==> open[n].SendOp?)
    && (forall n :: n in open ==> Lookup(inFlight, idOf(n)) == Some(MessageOf(idOf(n), open[n])))
    && (forall id :: id in inFlight ==> exists n :: n in open && idOf(n) == id)
    && (forall m, n :: m in open && n in open && idOf(m) == idOf(n) ==> m == n)
  }

  ghost predicate Conserved(t: Tracker, l: Ledger) {
    Tracks(IdOf, t.inFlight, l.open)
  }

  /** No message is still open when its id comes round again, 65535 sends later. */
  predicate Timely(ops: seq<Op>) {
    ops == []
    || (Timely(ops[..|ops| - 1])
        && (ops[|ops| - 1].SendOp? ==> RoundAgain(RunLedger(ops[..|ops| - 1])) == None))
  }

  /** The open message whose id the next send will use, if acknowledgements were that late. */
  function RoundAgain(l: Ledger): Option<nat> {
    if l.sends >= 65535 && l.sends - 65535 in l.open then Some(l.sends - 65535) else None
  }

  /** Conserved after every step of the run. */
  ghost predicate ConservedThroughout(ops: seq<Op>) {
    Conserved(RunTracker(ops), RunLedger(ops)) && (ops == [] || ConservedThroughout(ops[..|ops| - 1]))
  }

  lemma AckTracks(idOf: nat -> u16, inFlight: map<u16, Message>, open: map<nat, Op>, id: u16)
    requires Tracks(idOf, inFlight, open)
    ensures Tracks(idOf, inFlight - {id}, LeftOpen(idOf, open, id))
  {
    var rest := LeftOpen(idOf, open, id);
    forall n | n in rest ensures Lookup(inFlight - {id}, idOf(n)) == Some(MessageOf(idOf(n), rest[n])) {
      assert n in open && Lookup(inFlight, idOf(n)).Some?;
    }
    forall i | i in inFlight - {id} ensures exists n :: n in rest && idOf(n) == i {
      var n :| n in open && idOf(n) == i;
      assert n in rest;
    }
  }

  /** A send keeps the map exact if and only if its id is not in flight. */
  lemma SendTracksExactly(idOf: nat -> u16, inFlight: map<u16, Message>, open: map<nat, Op>, k: nat, op: Op)
    requires Tracks(idOf, inFlight, open) && op.SendOp? && k !in open
    ensures Tracks(idOf, inFlight[idOf(k) := MessageOf(idOf(k), op)], open[k := op]) <==> idOf(k) !in inFlight
  {
    var id, open' := idOf(k), open[k := op];
    var inFlight' := inFlight[id := MessageOf(id, op)];
    assert k in open';
    if id in inFlight {
      var n :| n in open && idOf(n) == id;
      assert n in open' && n != k;
    } else {
      forall n | n in open ensures idOf(n) != id && open'[n] == open[n] {
        assert Lookup(inFlight, idOf(n)).Some?;
      }
      forall i | i in inFlight' ensures exists n :: n in open' && idOf(n) == i {
        if i != id {
          var n :| n in open && idOf(n) == i;
          assert n in open';
        }
      }
    }
  }

  lemma {:induction false} CounterTracksSends(ops: seq<Op>)
    ensures RunTracker(ops).counter == CounterAfter(RunLedger(ops).sends)
    ensures forall n :: n in RunLedger(ops).open ==> n < RunLedger(ops).sends
  {
    if ops != [] {
      var before := ops[..|ops| - 1];
      CounterTracksSends(before);
      CounterTracksStep(RunTracker(before), RunLedger(before), ops[|ops| - 1]);
    }
  }

  lemma CounterTracksStep(t: Tracker, l: Ledger, op: Op)
    requires t.counter == CounterAfter(l.sends) && forall n :: n in l.open ==> n < l.sends
    ensures StepTracker(t, op).counter == CounterAfter(StepLedger(l, op).sends)
    ensures forall n :: n in StepLedger(l, op).open ==> n < StepLedger(l, op).sends
  {
  }

  /** Sends are open or acknowledged. */
  lemma {:induction false} LedgerBalances(ops: seq<Op>)
    ensures |RunLedger(ops).open| == RunLedger(ops).sends - RunLedger(ops).acked
  {
    if ops != [] {
      var before, op := ops[..|ops| - 1], ops[|ops| - 1];
      LedgerBalances(before);
      CounterTracksSends(before);
      var l := RunLedger(before);
      if op.SendOp? {
        assert l.open[l.sends := op].Keys == l.open.Keys + {l.sends};
      }
    }
  }

  /** While every open message is at most 65535 sends old, only one exactly that old shares the next send's id. */
  ghost predicate Recent(l: Ledger) {
    forall n :: n in l.open ==> n < l.sends <= n + 65535
  }

  lemma SameIdDistance(m: nat, n: nat)
    requires m < n <= m + 65535
    ensures IdOf(m) == IdOf(n) <==> n == m + 65535
  {
    if n == m + 65535 {
    } else {
      DistinctRemainders(m, n);
    }
  }

  lemma DistinctRemainders(m: nat, n: nat)
    requires m < n < m + 65535
    ensures m % 65535 != n % 65535
  {
  }

  lemma NextIdInFlight(t: Tracker, l: Ledger)
    requires Conserved(t, l) && Recent(l)
    ensures IdOf(l.sends) in t.inFlight <==> RoundAgain(l).Some?
  {
    if RoundAgain(l).Some? {
      SameIdDistance(l.sends - 65535, l.sends);
      assert Lookup(t.inFlight, IdOf(l.sends - 65535)).Some?;
    }
    if IdOf(l.sends) in t.inFlight {
      var n :| n in l.open && IdOf(n) == IdOf(l.sends);
      SameIdDistance(n, l.sends);
    }
  }

  lemma RecentStep(l: Ledger, op: Op)
    requires Recent(l) && (op.SendOp? ==> RoundAgain(l) == None)
    ensures Recent(StepLedger(l, op))
  {
    var l' := StepLedger(l, op);
    forall n | n in l'.open ensures n < l'.sends <= n + 65535 {
      if op.SendOp? && n != l.sends {
        assert n in l.open && n + 65535 != l.sends;
      }
    }
  }

  /** Timely acknowledgement is exactly what conservation takes, step by step over the whole run. */
  lemma {:induction false} ConservedExactlyWhenTimely(ops: seq<Op>)
    ensures ConservedThroughout(ops) <==> Timely(ops)
    ensures Timely(ops) ==> Recent(RunLedger(ops))
  {
    if ops != [] {
      var before, op := ops[..|ops| - 1], ops[|ops| - 1];
      ConservedExactlyWhenTimely(before);
      if Timely(before) {
        ConservedStep(RunTracker(before), RunLedger(before), op, before);
        if op.SendOp? ==> RoundAgain(RunLedger(before)) == None {
          RecentStep(RunLedger(before), op);
        }
      }
    }
  }

  lemma ConservedStep(t: Tracker, l: Ledger, op: Op, before: seq<Op>)
    requires t == RunTracker(before) && l == RunLedger(before)
    requires Conserved(t, l) && Recent(l)
    ensures Conserved(StepTracker(t, op), StepLedger(l, op)) <==> (op.SendOp? ==> RoundAgain(l) == None)
  {
    match op
    case AckOp(id) => AckTracks(IdOf, t.inFlight, l.open, id);
    case SendOp(_, _, _) =>
      CounterTracksSends(before);
      SequentialIds(l.sends);
      NextIdInFlight(t, l);
      SendTracksExactly(IdOf, t.inFlight, l.open, l.sends, op);
  }

  lemma {:induction false} Bijection(idOf: nat -> u16, ids: set<u16>, ns: set<nat>)
    requires forall n :: n in ns ==> idOf(n) in ids
    requires forall id :: id in ids ==> exists n :: n in ns && idOf(n) == id
    requires forall m, n :: m in ns && n in ns && idOf(m) == idOf(n) ==> m == n
    ensures |ids| == |ns|
    decreases |ns|
  {
    if ns == {} {
      assert ids == {};
    } else {
      var n :| n in ns;
      forall id | id in ids - {idOf(n)} ensures exists m :: m in ns - {n} && idOf(m) == id {
        var m :| m in ns && idOf(m) == id;
        assert m in ns - {n};
      }
      Bijection(idOf, ids - {idOf(n)}, ns - {n});
    }
  }

  lemma SizesAgree(idOf: nat -> u16, inFlight: map<u16, Message>, open: map<nat, Op>)
    requires Tracks(idOf, inFlight, open)
    ensures |inFlight| == |open|
  {
    forall n | n in open.Keys ensures idOf(n) in inFlight.Keys {
      assert Lookup(inFlight, idOf(n)).Some?;
    }
    Bijection(idOf, inFlight.Keys, open.Keys);
  }

  /** Over any run with timely acknowledgements the map's size is sends minus effective acknowledgements. */
  lemma InFlightCount(ops: seq<Op>)
    requires Timely(ops)
    ensures Conserved(RunTracker(ops), RunLedger(ops))
    ensures |RunTracker(ops).inFlight| == RunLedger(ops).sends - RunLedger(ops).acked
  {
    ConservedExactlyWhenTimely(ops);
    LedgerBalances(ops);
    SizesAgree(IdOf, RunTracker(ops).inFlight, RunLedger(ops).open);
  }

  // ------------------------------------------------------- one send too many

  ghost predicate OnlySends(ops: seq<Op>) {
    forall i :: 0 <= i < |ops| ==> ops[i].SendOp?
  }

  lemma {:induction false} UnacknowledgedSends(ops: seq<Op>)
    requires OnlySends(ops)
    ensures RunLedger(ops).sends == |ops| && RunLedger(ops).acked == 0
    ensures forall k: nat :: k in RunLedger(ops).open <==> k < |ops|
  {
    if ops != [] {
      assert ops[|ops| - 1].SendOp?;
      UnacknowledgedSends(ops[..|ops| - 1]);
    }
  }

  lemma {:induction false} FewSendsAreTimely(ops: seq<Op>)
    requires OnlySends(ops) && |ops| <= 65535
    ensures Timely(ops)
  {
    if ops != [] {
      FewSendsAreTimely(ops[..|ops| - 1]);
      UnacknowledgedSends(ops[..|ops| - 1]);
    }
  }

  /** 65536 sends without an acknowledgement: the last takes the first one's id, and one open message is forgotten. */
  lemma OneSendTooMany(ops: seq<Op>)
    requires OnlySends(ops) && |ops| == 65536
    ensures !Timely(ops)
    ensures |RunLedger(ops).open| == 65536 && |RunTracker(ops).inFlight| == 65535
  {
    var before, last := ops[..|ops| - 1], ops[|ops| - 1];
    assert last.SendOp?;
    FewSendsAreTimely(before);
    UnacknowledgedSends(before);
    UnacknowledgedSends(ops);
    InFlightCount(before);
    LedgerBalances(ops);
    ReusesAnId(before, last);
  }

  lemma ReusesAnId(before: seq<Op>, last: Op)
    requires Timely(before) && last.SendOp? && RoundAgain(RunLedger(before)).Some?
    ensures |StepTracker(RunTracker(before), last).inFlight| == |RunTracker(before).inFlight|
  {
    var t, l := RunTracker(before), RunLedger(before);
    ConservedExactlyWhenTimely(before);
    CounterTracksSends(before);
    SequentialIds(l.sends);
    NextIdInFlight(t, l);
    assert StepTracker(t, last).inFlight.Keys == t.inFlight.Keys;
  }
}
