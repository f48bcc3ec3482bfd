/** `process_client_packet`: what a connected client's packets do to the broker, and the answers it gets. */
module Dispatch {
  import opened Basics
  import opened Varint
  import opened Acl
  import opened PropertyBlocks
  import opened Properties
  import opened Packets
  import opened PacketRoundTrip
  import opened PublishFrames
  import opened Trie
  import opened Router
  import opened Session
  import opened Delivery
  import opened Persistence
  import opened Publishing
  import opened Broker

  const NOT_AUTHORIZED: byte := 0x87

  const PLAIN_PUBACK := PubAckProperties(None, [])
  const PLAIN_SUBACK := SubAckProperties(None, [])

  // -------------------------------------------------------------------- SUBSCRIBE

  /** Who subscribes, with which identifier, under which rules. */
  datatype Request = Request(auth: AuthConfig, user: Text, client: Text, subId: Option<u32>)

  ghost predicate Admits(r: Request, s: Subscription) {
    Authorized(r.auth, r.user, s.filter, ReadAction)
  }

  /** The operation that an admitted entry causes. */
  function OpOf(r: Request, s: Subscription): Router.Op {
    SubscribeOp(r.client, s.filter, s.options % 4, r.subId)
  }

  /** The reason code that an entry is answered with. */
  ghost function CodeOf(r: Request, s: Subscription): byte {
    if Admits(r, s) then s.options % 4 else NOT_AUTHORIZED
  }

  ghost function CodesOf(r: Request, subs: seq<Subscription>): (codes: Bytes)
    ensures |codes| == |subs| && forall i :: 0 <= i < |subs| ==> codes[i] == CodeOf(r, subs[i])
  {
    if subs == [] then [] else CodesOf(r, subs[..|subs| - 1]) + [CodeOf(r, subs[|subs| - 1])]
  }

  /** The operations of the admitted entries, in order. */
  ghost function AdmittedOps(r: Request, subs: seq<Subscription>): seq<Router.Op> {
    if subs == [] then []
    else
      var init, last := AdmittedOps(r, subs[..|subs| - 1]), subs[|subs| - 1];
      if Admits(r, last) then init + [OpOf(r, last)] else init
  }

  /** What a subscription is written to: the flat rows, the trie and the table. */
  datatype Holdings = Holdings(rows: Rows, root: Node, table: SubTable)

  function SubscribeStep(h: Holdings, op: Router.Op): Holdings
    requires op.SubscribeOp?
  {
    Holdings(StepRows(h.rows, op), StepTrie(h.root, op),
             h.table[SubKey(op.client, op.filter) := SubRow(op.qos, op.subId)])
  }

  predicate Subscribes(ops: seq<Router.Op>) {
    forall i :: 0 <= i < |ops| ==> ops[i].SubscribeOp?
  }

  function SubscribeAll(h: Holdings, ops: seq<Router.Op>): Holdings
    requires Subscribes(ops)
  {
    if ops == [] then h else SubscribeStep(SubscribeAll(h, ops[..|ops| - 1]), ops[|ops| - 1])
  }

  lemma {:induction false} AdmittedSubscribe(r: Request, subs: seq<Subscription>)
    ensures Subscribes(AdmittedOps(r, subs))
  {
    if subs != [] { AdmittedSubscribe(r, subs[..|subs| - 1]); }
  }

  lemma SubscribeNext(h: Holdings, ops: seq<Router.Op>, op: Router.Op)
    requires Subscribes(ops) && op.SubscribeOp?
    ensures Subscribes(ops + [op]) && SubscribeAll(h, ops + [op]) == SubscribeStep(SubscribeAll(h, ops), op)
  {
    assert (ops + [op])[..|ops|] == ops;
  }

  /** The entry is admitted, and the router files it under this key. */
  ghost predicate Files(r: Request, s: Subscription, k: Key) {
    Admits(r, s) && SubscribedKey(s.filter, r.client) == k
  }

  /** The last such entry. */
  ghost predicate LastFor(r: Request, subs: seq<Subscription>, k: Key, i: nat) {
    i < |subs| && Files(r, subs[i], k) && forall j :: i < j < |subs| ==> !Files(r, subs[j], k)
  }

  /** The flat table after a SUBSCRIBE: each key has its last admitted entry, or what it had before. */
  ghost predicate Subscribed(before: Rows, after: Rows, r: Request, subs: seq<Subscription>) {
    forall k ::
      && (forall i: nat :: LastFor(r, subs, k, i) ==>
            Lookup(after, k) == Some(SubInfo(r.client, subs[i].options % 4, r.subId)))
      && ((forall i :: 0 <= i < |subs| ==> !Files(r, subs[i], k)) ==> Lookup(after, k) == Lookup(before, k))
  }

  /** Stepping through the admitted operations gives each key its last admitted entry. */
  lemma {:induction false} LastAdmittedWins(h: Holdings, r: Request, subs: seq<Subscription>)
    ensures Subscribes(AdmittedOps(r, subs))
    ensures Subscribed(h.rows, SubscribeAll(h, AdmittedOps(r, subs)).rows, r, subs)
  {
    AdmittedSubscribe(r, subs);
    if subs != [] {
      var init, last := subs[..|subs| - 1], subs[|subs| - 1];
      LastAdmittedWins(h, r, init);
      var ops := AdmittedOps(r, init);
      if Admits(r, last) { SubscribeNext(h, ops, OpOf(r, last)); }
      SubscribedNext(h.rows, SubscribeAll(h, ops).rows, r, init, last);
      assert subs == init + [last];
    }
  }

  lemma SubscribedNext(rows: Rows, mid: Rows, r: Request, init: seq<Subscription>, last: Subscription)
    requires Subscribed(rows, mid, r, init)
    ensures Subscribed(rows, if Admits(r, last) then StepRows(mid, OpOf(r, last)) else mid, r, init + [last])
  {
    var after := if Admits(r, last) then StepRows(mid, OpOf(r, last)) else mid;
    var subs := init + [last];
    forall k, i: nat | LastFor(r, subs, k, i)
      ensures Lookup(after, k) == Some(SubInfo(r.client, subs[i].options % 4, r.subId))
    {
      assert subs[|init|] == last;
      if i < |init| {
        assert subs[i] == init[i] && !Files(r, subs[|init|], k);
        assert LastFor(r, init, k, i) by {
          forall j | i < j < |init| ensures !Files(r, init[j], k) { assert subs[j] == init[j]; }
        }
        assert Lookup(mid, k).Some?;
      }
    }
    forall k | forall i :: 0 <= i < |subs| ==> !Files(r, subs[i], k) ensures Lookup(after, k) == Lookup(rows, k) {
      assert !Files(r, subs[|init|], k);
      forall i | 0 <= i < |init| ensures !Files(r, init[i], k) { assert subs[i] == init[i]; }
    }
  }

  /** The SUBACK of a SUBSCRIBE: its packet id, and one code for each entry in order. */
  ghost function SubAckOf(r: Request, p: Packet): Packet
    requires p.Subscribe?
  {
    SubAck(p.subscribeId, PLAIN_SUBACK, CodesOf(r, p.subscriptions))
  }

  lemma {:induction false} EntriesTakeRoom(subs: seq<Subscription>)
    ensures |SubscriptionsBytes(subs)| >= |subs|
  {
    if subs != [] { EntriesTakeRoom(subs[1..]); }
  }

  lemma NothingToSay()
    ensures BlockBytes(SUBACK, PLAIN_SUBACK) == [0] && BlockBytes(PUBACK, PLAIN_PUBACK) == [0]
    ensures GoodSubAck(PLAIN_SUBACK) && GoodPubAck(PLAIN_PUBACK)
  {
    EmptyBlock(SUBACK, PLAIN_SUBACK);
    EmptyBlock(PUBACK, PLAIN_PUBACK);
  }

  lemma SubscribeRoom(p: Packet)
    requires p.Subscribe? && Fits(p)
    ensures |p.subscriptions| + 3 < VARINT_LIMIT
  {
    EntriesTakeRoom(p.subscriptions);
    SubscribeBodySize(p);
  }

  lemma SubAckRoom(p: Packet)
    requires p.SubAck? && p.subAckProps == PLAIN_SUBACK && |p.codes| + 3 < VARINT_LIMIT
    ensures Fits(p) && WellFormed(p)
  {
    NothingToSay();
    SubAckBodySize(p);
  }

  lemma SubAckFits(r: Request, p: Packet)
    requires p.Subscribe? && Fits(p)
    ensures Fits(SubAckOf(r, p)) && WellFormed(SubAckOf(r, p))
  {
    SubscribeRoom(p);
    SubAckRoom(SubAckOf(r, p));
  }

  /** What the client decodes: a SUBACK with the id of its SUBSCRIBE and one code per entry. */
  lemma SubAckDecodes(r: Request, p: Packet, rest: Bytes)
    requires p.Subscribe? && Fits(p)
    ensures var answer := EncodePacket(SubAckOf(r, p));
            DecodePacket(answer + rest) == Ok((SubAckOf(r, p), |answer|))
  {
    SubAckFits(r, p);
    RoundTrip(SubAckOf(r, p), rest);
  }

  /** The user name that rules are looked up under. */
  function RuleName(username: Option<Text>): Text {
    if username.Some? then username.value else []
  }

  method SendPacket(session: ClientSession, p: Packet)
    modifies session`channel
    ensures session.channel == old(session.channel) + [EncodePacket(p)]
  {
    var frame := Encoded(p);
    session.Send(frame);
  }

  ghost function Held(state: BrokerState): Holdings
    reads state.router, state.db`subscriptions
  {
    Holdings(state.router.rows, state.router.root, state.db.subscriptions)
  }

  /** The loop of the SUBSCRIBE branch. */
  method SubscribeAdmitted(state: BrokerState, r: Request, subs: seq<Subscription>) returns (codes: Bytes)
    requires state.Valid() && r.auth == state.auth
    modifies state.router, state.db`subscriptions
    ensures state.Valid()
    ensures codes == CodesOf(r, subs)
    ensures Subscribes(AdmittedOps(r, subs)) && Held(state) == SubscribeAll(old(Held(state)), AdmittedOps(r, subs))
  {
    codes := [];
    ghost var before, ops: seq<Router.Op> := Held(state), [];
    for i := 0 to |subs|
      invariant state.Valid()
      invariant codes == CodesOf(r, subs[..i]) && ops == AdmittedOps(r, subs[..i])
      invariant Subscribes(ops) && Held(state) == SubscribeAll(before, ops)
    {
      ghost var next;
      var code;
      code, next := SubscribeEntry(state, r, subs[i], before, ops);
      assert subs[..i + 1][..i] == subs[..i];
      codes, ops := codes + [code], next;
    }
    assert subs[..|subs|] == subs;
  }

  /** One round of that loop. */
  method SubscribeEntry(state: BrokerState, r: Request, s: Subscription, ghost before: Holdings,
                        ghost ops: seq<Router.Op>)
    returns (code: byte, ghost next: seq<Router.Op>)
    requires state.Valid() && r.auth == state.auth
    requires Subscribes(ops) && Held(state) == SubscribeAll(before, ops)
    modifies state.router, state.db`subscriptions
    ensures state.Valid()
    ensures code == CodeOf(r, s)
    ensures next == if Admits(r, s) then ops + [OpOf(r, s)] else ops
    ensures Subscribes(next) && Held(state) == SubscribeAll(before, next)
  {
    var admitted := Authorize(state.auth, r.user, s.filter, ReadAction);
    if !admitted {
      return NOT_AUTHORIZED, ops;
    }
    SubscribeNext(before, ops, OpOf(r, s));
    state.Subscribe(r.client, s.filter, s.options % 4, r.subId);
    return s.options % 4, ops + [OpOf(r, s)];
  }

  function RequestOf(state: BrokerState, session: ClientSession, p: Packet): Request
    requires p.Subscribe?
  {
    Request(state.auth, RuleName(session.username), session.clientId, p.subscribeProps.subscriptionIdentifier)
  }

  /** The admitted entries' operations, in order; in the flat rows each key has its last admitted entry. */
  ghost predicate SubscribeOutcome(r: Request, subs: seq<Subscription>, before: Holdings, after: Holdings) {
    && Subscribes(AdmittedOps(r, subs)) && after == SubscribeAll(before, AdmittedOps(r, subs))
    && Subscribed(before.rows, after.rows, r, subs)
  }

  /** The SUBSCRIBE branch. */
  method ProcessSubscribe(state: BrokerState, session: ClientSession, p: Packet)
    requires state.Valid() && p.Subscribe?
    modifies state.router, state.db`subscriptions, session`channel
    ensures state.Valid()
    ensures SubscribeOutcome(RequestOf(state, session, p), p.subscriptions, old(Held(state)), Held(state))
    ensures session.channel == old(session.channel) + [EncodePacket(SubAckOf(RequestOf(state, session, p), p))]
  {
    var r := RequestOf(state, session, p);
    LastAdmittedWins(Held(state), r, p.subscriptions);
    var codes := SubscribeAdmitted(state, r, p.subscriptions);
    SendPacket(session, SubAck(p.subscribeId, PLAIN_SUBACK, codes));
  }

  // ---------------------------------------------------- SUBSCRIBE and whole runs

  /** What a run of router operations leaves. */
  function RunHoldings(ops: seq<Router.Op>): Holdings {
    Holdings(RunRows(ops), RunTrie(ops), RunTable(ops))
  }

  /** A SUBSCRIBE only makes the run of router operations longer, so what holds of every run holds after it. */
  lemma {:induction false} SubscribeExtendsTheRun(ops: seq<Router.Op>, r: Request, subs: seq<Subscription>)
    ensures var more := AdmittedOps(r, subs);
            Subscribes(more) && SubscribeAll(RunHoldings(ops), more) == RunHoldings(ops + more)
  {
    AdmittedSubscribe(r, subs);
    if subs == [] {
      assert ops + [] == ops;
    } else {
      var init, last := subs[..|subs| - 1], subs[|subs| - 1];
      SubscribeExtendsTheRun(ops, r, init);
      if Admits(r, last) {
        OneMoreInTheRun(ops, AdmittedOps(r, init), OpOf(r, last));
      }
    }
  }

  lemma OneMoreInTheRun(ops: seq<Router.Op>, more: seq<Router.Op>, op: Router.Op)
    requires op.SubscribeOp? && Subscribes(more) && SubscribeAll(RunHoldings(ops), more) == RunHoldings(ops + more)
    ensures Subscribes(more + [op]) && SubscribeAll(RunHoldings(ops), more + [op]) == RunHoldings(ops + (more + [op]))
  {
    SubscribeNext(RunHoldings(ops), more, op);
    RunNext(ops + more, op);
    assert ops + (more + [op]) == ops + more + [op];
  }

  lemma RunNext(run: seq<Router.Op>, op: Router.Op)
    requires op.SubscribeOp?
    ensures RunHoldings(run + [op]) == SubscribeStep(RunHoldings(run), op)
  {
    var all := run + [op];
    assert all[..|all| - 1] == run && all[|all| - 1] == op;
    assert RunRows(all) == StepRows(RunRows(run), op) && RunTrie(all) == StepTrie(RunTrie(run), op);
    assert RunTable(all) == StepTable(RunTable(run), RunRows(run), op);
  }

  /** Stored subscription identifiers can be written. */
  ghost predicate GoodIds(rows: Rows) {
    forall k :: k in rows ==> GoodOptVarint(rows[k].subId)
  }

  /** Entries of a well-formed SUBSCRIBE keep every stored identifier encodable. */
  lemma {:induction false} SubscribeKeepsGoodIds(h: Holdings, r: Request, subs: seq<Subscription>)
    requires GoodIds(h.rows) && GoodOptVarint(r.subId)
    ensures Subscribes(AdmittedOps(r, subs)) && GoodIds(SubscribeAll(h, AdmittedOps(r, subs)).rows)
  {
    AdmittedSubscribe(r, subs);
    if subs != [] {
      var init, last := subs[..|subs| - 1], subs[|subs| - 1];
      SubscribeKeepsGoodIds(h, r, init);
      if Admits(r, last) { SubscribeNext(h, AdmittedOps(r, init), OpOf(r, last)); }
    }
  }

  // ---------------------------------------------------------------------- PUBLISH

  function PublicationOf(p: Packet): Publication
    requires p.Publish?
  {
    Publication(p.topic, p.payload, p.qos, p.retain)
  }

  /** The answer to a PUBLISH: none without a quality of service of 1. */
  function AckFrames(p: Packet, code: byte): seq<Bytes>
    requires p.Publish?
  {
    if p.qos == 1 && p.publishId.Some? then [EncodePacket(PubAck(p.publishId.value, code, PLAIN_PUBACK))] else []
  }

  /** A well-formed PUBLISH with a quality of service of 1 is answered once, by a PUBACK with its id. */
  lemma AnsweredOnce(p: Packet, code: byte, rest: Bytes)
    requires p.Publish? && WellFormed(p)
    ensures |AckFrames(p, code)| == if p.qos == 1 then 1 else 0
    ensures p.qos == 1 ==>
              var answer := AckFrames(p, code)[0];
              && p.publishId.Some?
              && DecodePacket(answer + rest) == Ok((PubAck(p.publishId.value, code, PLAIN_PUBACK), |answer|))
  {
    if p.qos == 1 {
      var answer := PubAck(p.publishId.value, code, PLAIN_PUBACK);
      NothingToSay();
      assert Fits(answer);
      RoundTrip(answer, rest);
    }
  }

  /** The sessions after one of them, if it is registered, was sent frames. */
  function Answered(sessions: Sessions, client: Text, registered: bool, frames: seq<Bytes>): Sessions {
    if registered && client in sessions
    then sessions[client := sessions[client].(channel := sessions[client].channel + frames)]
    else sessions
  }

  /** Is this the session that the broker has for the client? After a takeover it is not. */
  ghost predicate Registered(state: BrokerState, session: ClientSession)
    reads state`sessions
  {
    session.clientId in state.sessions && state.sessions[session.clientId] == session
  }

  method SendAck(session: ClientSession, p: Packet, code: byte)
    requires p.Publish?
    modifies session`channel
    ensures session.channel == old(session.channel) + AckFrames(p, code)
  {
    if p.qos == 1 && p.publishId.Some? {
      SendPacket(session, PubAck(p.publishId.value, code, PLAIN_PUBACK));
    }
  }

  /** Seen from the broker, the answer changes nothing but the client's own channel. */
  method AnswerPublish(state: BrokerState, session: ClientSession, p: Packet, code: byte)
    requires state.Valid() && p.Publish?
    modifies session`channel
    ensures session.channel == old(session.channel) + AckFrames(p, code)
    ensures state.View()
         == Answered(old(state.View()), session.clientId, Registered(state, session), AckFrames(p, code))
  {
    SendAck(session, p, code);
    if Registered(state, session) {
      state.OneSessionChanged(session.clientId);
    } else {
      assert forall c :: c in state.sessions ==> state.sessions[c] != session;
      assert state.View() == old(state.View());
    }
  }

  ghost predicate MayPublish(state: BrokerState, session: ClientSession, p: Packet)
    requires p.Publish?
  {
    Authorized(state.auth, RuleName(session.username), p.topic, WriteAction)
  }

  /** With write access the publish is routed, then answered; without, nothing is routed and the answer says so. */
  ghost predicate PublishOutcome(allowed: bool, n: Node, p: Packet, client: Text, registered: bool, a: Moment,
                                 b: Moment)
    requires p.Publish?
  {
    exists mid ::
      && (if allowed then Published(n, PublicationOf(p), a, mid) else mid == a)
      && var answer := AckFrames(p, if allowed then 0 else NOT_AUTHORIZED);
         b == mid.(sessions := Answered(mid.sessions, client, registered, answer))
  }

  /** The PUBLISH branch. */
  method ProcessPublish(state: BrokerState, session: ClientSession, p: Packet)
    requires state.Valid() && p.Publish?
    modifies state.sessions.Values, state`counters, state.db`inFlight, session`channel
    ensures state.Valid()
    ensures PublishOutcome(MayPublish(state, session, p), state.router.root, p, session.clientId,
                           Registered(state, session), old(state.Now()), state.Now())
    ensures !Registered(state, session) ==>
              session.channel
              == old(session.channel) + AckFrames(p, if MayPublish(state, session, p) then 0 else NOT_AUTHORIZED)
  {
    var allowed := Authorize(state.auth, RuleName(session.username), p.topic, WriteAction);
    if allowed {
      RouteAndAnswer(state, session, p);
    } else {
      RefusePublish(state, session, p);
    }
  }

  method RouteAndAnswer(state: BrokerState, session: ClientSession, p: Packet)
    requires state.Valid() && p.Publish?
    modifies state.sessions.Values, state`counters, state.db`inFlight, session`channel
    ensures state.Valid()
    ensures PublishOutcome(true, state.router.root, p, session.clientId, Registered(state, session),
                           old(state.Now()), state.Now())
    ensures !Registered(state, session) ==> session.channel == old(session.channel) + AckFrames(p, 0)
  {
    assert !Registered(state, session) ==> session !in state.sessions.Values;
    state.RoutePublish(PublicationOf(p));
    ghost var mid := state.Now();
    AnswerPublish(state, session, p, 0);
    assert state.Now() == mid.(sessions := state.View());
  }

  method RefusePublish(state: BrokerState, session: ClientSession, p: Packet)
    requires state.Valid() && p.Publish?
    modifies session`channel
    ensures state.Valid()
    ensures PublishOutcome(false, state.router.root, p, session.clientId, Registered(state, session),
                           old(state.Now()), state.Now())
    ensures !Registered(state, session) ==> session.channel == old(session.channel) + AckFrames(p, NOT_AUTHORIZED)
  {
    ghost var before := state.Now();
    AnswerPublish(state, session, p, NOT_AUTHORIZED);
    assert state.Now() == before.(sessions := state.View());
  }

  // ------------------------------------------------- the answers, byte for byte

  lemma FrameOnTheWire(header: byte, body: Bytes)
    requires |body| < VARINT_LIMIT
    ensures Frame(header, body) == [header] + (EncodeVarint(|body|) + body)
  {
  }

  lemma PubAckBody(id: u16, code: byte)
    ensures Body(PubAck(id, code, PLAIN_PUBACK)) == [id / 256, id % 256] + if code == 0 then [] else [code, 0]
  {
    NothingToSay();
  }

  /** Section 3.4 of MQTT Version 5.0: a PUBACK says its id, and a reason unless it is success. */
  lemma PubAckOnTheWire(id: u16, code: byte)
    ensures EncodePacket(PubAck(id, code, PLAIN_PUBACK))
            == if code == 0 then [0x40, 2, id / 256, id % 256] else [0x40, 4, id / 256, id % 256, code, 0]
  {
    PubAckBody(id, code);
    FrameOnTheWire(0x40, [id / 256, id % 256] + if code == 0 then [] else [code, 0]);
  }

  lemma PlainSubAckBody(id: u16, codes: Bytes)
    ensures Body(SubAck(id, PLAIN_SUBACK, codes)) == [id / 256, id % 256] + ([0] + codes)
  {
    NothingToSay();
  }

  /** Section 3.9: a SUBACK says its id, no properties, and the codes. */
  lemma SubAckOnTheWire(id: u16, codes: Bytes)
    requires |codes| + 3 < VARINT_LIMIT
    ensures var body := [id / 256, id % 256] + ([0] + codes);
            EncodePacket(SubAck(id, PLAIN_SUBACK, codes)) == [0x90] + (EncodeVarint(|body|) + body)
  {
    PlainSubAckBody(id, codes);
    FrameOnTheWire(0x90, [id / 256, id % 256] + ([0] + codes));
  }

  /** Section 3.13. */
  lemma PingRespOnTheWire()
    ensures EncodePacket(PingResp) == [0xD0, 0]
  {
  }

  // ------------------------------------------------------------- the other packets

  /** The PUBACK branch: the id is free again, in the session and in the table. */
  method ProcessPubAck(state: BrokerState, session: ClientSession, p: Packet)
    requires p.PubAck?
    modifies session`inFlight, state.db`inFlight
    ensures TrackerOf(session.Value()) == StepTracker(old(TrackerOf(session.Value())), AckOp(p.pubAckId))
    ensures state.db.inFlight == old(state.db.inFlight) - {FlightKey(session.clientId, p.pubAckId)}
  {
    var removed := session.RemoveInFlight(p.pubAckId);
    state.db.DeleteInFlight(session.clientId, p.pubAckId);
  }

  /** A packet that does no more than be answered, or be logged. */
  predicate ChangesNothing(p: Packet) {
    !p.Publish? && !p.Subscribe? && !p.PubAck?
  }

  /** `process_client_packet`: everything but a second CONNECT goes on. */
  method ProcessClientPacket(state: BrokerState, session: ClientSession, p: Packet) returns (ok: bool)
    requires state.Valid()
    modifies state`counters, state.db`subscriptions, state.db`inFlight, session
    modifies (if p.Subscribe? then {state.router} else {}), (if p.Publish? then state.sessions.Values else {})
    ensures state.Valid()
    ensures ok <==> !p.Connect?
    ensures p.Publish? ==>
              && PublishOutcome(MayPublish(state, session, p), state.router.root, p, session.clientId,
                                Registered(state, session), old(state.Now()), state.Now())
              && Held(state) == old(Held(state))
    ensures p.Subscribe? ==>
              && SubscribeOutcome(RequestOf(state, session, p), p.subscriptions, old(Held(state)), Held(state))
              && session.Value() == old(session.Value()).(channel :=
                   old(session.channel) + [EncodePacket(SubAckOf(RequestOf(state, session, p), p))])
              && state.db.inFlight == old(state.db.inFlight)
    ensures !p.Publish? ==> state.counters == old(state.counters)
    ensures p.PubAck? ==>
              && session.Value() == old(session.Value()).(inFlight := old(session.inFlight) - {p.pubAckId})
              && state.db.inFlight == old(state.db.inFlight) - {FlightKey(session.clientId, p.pubAckId)}
              && Held(state) == old(Held(state))
    ensures ChangesNothing(p) ==>
              && session.Value() == old(session.Value()).(channel :=
                   old(session.channel) + if p.PingReq? then [EncodePacket(PingResp)] else [])
              && Held(state) == old(Held(state)) && state.db.inFlight == old(state.db.inFlight)
  {
    ok := true;
    match p
    case Publish(_, _, _, _, _, _, _) => ProcessPublish(state, session, p);
    case Subscribe(_, _, _) => ProcessSubscribe(state, session, p);
    case PubAck(_, _, _) => ProcessPubAck(state, session, p);
    case _ => ok := ProcessOther(session, p);
  }

  /** The branches that touch no more than the channel. */
  method ProcessOther(session: ClientSession, p: Packet) returns (ok: bool)
    requires ChangesNothing(p)
    modifies session`channel
    ensures ok <==> !p.Connect?
    ensures session.channel == old(session.channel) + if p.PingReq? then [EncodePacket(PingResp)] else []
  {
    if p.PingReq? {
      SendPacket(session, PingResp);
    }
    ok := !p.Connect?;
  }
}
