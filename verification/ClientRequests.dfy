/** What a client's PUBLISH and SUBSCRIBE come to, said in the packet's own fields and the bytes of the answers. */
module ClientRequests {
  import opened Basics
  import opened Varint
  import opened Topics
  import opened Acl
  import opened Properties
  import opened Packets
  import opened PublishFrames
  import opened Trie
  import opened Matching
  import opened Router
  import opened Subscribing
  import opened Session
  import opened RoundRobin
  import opened Delivery
  import opened Persistence
  import opened Publishing
  import opened Broker
  import opened Dispatch

  /** Open access, or a rule of the user that matches, with this access mode or "readwrite". */
  ghost predicate HasRule(auth: AuthConfig, user: Text, topic: Text, mode: Access) {
    || auth.users.None?
    || (user in auth.users.value
        && exists rule :: rule in auth.users.value[user] && (rule.access == ReadWrite || rule.access == mode)
                          && Matches(Split(rule.topic), Split(topic)))
  }

  // ---------------------------------------------------------------------- PUBLISH

  /** The packet that a subscription with this identifier gets from a PUBLISH. */
  function Forwarded(p: Packet, id: Option<u16>, subId: Option<u32>): Packet
    requires p.Publish?
  {
    Publish(false, p.qos, p.retain, p.topic, id, PublishProperties(None, None, None, None, None, subId, None, []),
            p.payload)
  }

  /** The frame decodes to it, whatever follows, with a packet id exactly if there is a quality of service. */
  ghost predicate Forwards(frame: Bytes, p: Packet, subId: Option<u32>)
    requires p.Publish?
  {
    exists id: Option<u16> :: (id.Some? <==> p.qos > 0)
      && forall rest :: DecodePacket(frame + rest) == Ok((Forwarded(p, id, subId), |frame|))
  }

  /** It fits a frame for every subscription that matches. */
  ghost predicate CanForward(p: Packet, rows: Rows)
    requires p.Publish?
  {
    forall k :: k in rows && Matches(k.levels, Split(p.topic)) ==>
      var q := Forwarded(p, if p.qos > 0 then Some(1) else None, rows[k].subId);
      WellFormed(q) && Fits(q)
  }

  /**
   A client's channel gained a frame for each of its unshared rows that match the topic, then one for each group that
   selects it, then the answer.
   */
  ghost predicate Reached(n: Node, rows: Rows, p: Packet, counters: Counters, client: Text,
                          before: seq<Bytes>, after: seq<Bytes>, answer: seq<Bytes>)
    requires p.Publish?
  {
    exists own, chosen, frames ::
      && CountsRows(own, rows, ClientRows(rows, Split(p.topic), client))
      && SelectingGroups(chosen, counters, n, Split(p.topic), client)
      && HaveMembers(n, Split(p.topic), chosen)
      && after == before + frames + answer
      && ForwardsAll(frames, p, own + SelectedTargets(counters, n, Split(p.topic), chosen))
  }

  /** One frame for each of these subscriptions, in order. */
  ghost predicate ForwardsAll(frames: seq<Bytes>, p: Packet, subs: seq<SubInfo>)
    requires p.Publish?
  {
    |frames| == |subs| && forall i :: 0 <= i < |frames| ==> Forwards(frames[i], p, subs[i].subId)
  }

  /** The PUBACK to a PUBLISH with a quality of service of 1, byte for byte: none, success or "not authorized". */
  function Answer(p: Packet, refused: bool): seq<Bytes>
    requires p.Publish?
  {
    if p.qos != 1 || p.publishId.None? then []
    else if refused then [[0x40, 4, p.publishId.value / 256, p.publishId.value % 256, 0x87, 0]]
    else [[0x40, 2, p.publishId.value / 256, p.publishId.value % 256]]
  }

  lemma AnswerIs(p: Packet)
    requires p.Publish?
    ensures AckFrames(p, 0) == Answer(p, false) && AckFrames(p, NOT_AUTHORIZED) == Answer(p, true)
  {
    if p.publishId.Some? {
      PubAckOnTheWire(p.publishId.value, 0);
      PubAckOnTheWire(p.publishId.value, 0x87);
    }
  }

  lemma GainedForwards(before: seq<Bytes>, after: seq<Bytes>, p: Packet, subs: seq<SubInfo>)
    returns (frames: seq<Bytes>)
    requires p.Publish? && Gained(before, after, PublicationOf(p), subs)
    ensures after == before + frames && ForwardsAll(frames, p, subs)
  {
    frames := after[|before|..];
    forall i | 0 <= i < |frames| ensures Forwards(frames[i], p, subs[i].subId) {
      assert CarriesPublication(after[|before| + i], PublicationOf(p), subs[i].subId);
    }
  }

  lemma ForwardedFits(p: Packet, rows: Rows)
    requires p.Publish? && CanForward(p, rows)
    ensures RowsDeliverable(PublicationOf(p), rows)
  {
    forall k | k in rows && Matches(k.levels, Split(p.topic)) ensures Deliverable(PublicationOf(p), rows[k].subId) {
      assert Delivered(PublicationOf(p), if p.qos > 0 then Some(1) else None, rows[k].subId)
          == Forwarded(p, if p.qos > 0 then Some(1) else None, rows[k].subId);
    }
  }

  lemma FramesAreForwarded(n: Node, rows: Rows, p: Packet, counters: Counters, client: Text,
                           before: seq<Bytes>, mid: seq<Bytes>, answer: seq<Bytes>)
    requires p.Publish? && GetsItsFrames(n, rows, PublicationOf(p), counters, client, before, mid)
    ensures Reached(n, rows, p, counters, client, before, mid + answer, answer)
  {
    var topic := Split(p.topic);
    var own, chosen :|
      && CountsRows(own, rows, ClientRows(rows, topic, client))
      && SelectingGroups(chosen, counters, n, topic, client)
      && HaveMembers(n, topic, chosen)
      && Gained(before, mid, PublicationOf(p), own + SelectedTargets(counters, n, topic, chosen));
    var frames := GainedForwards(before, mid, p, own + SelectedTargets(counters, n, topic, chosen));
  }

  /** Some row of the group matches the topic. */
  ghost predicate TakesPart(rows: Rows, group: Text, topic: Text) {
    exists k :: k in rows && k.group == Some(group) && Matches(k.levels, Split(topic))
  }

  /** The counters of the groups that take part step by one, wrapping at 2^64, the others not at all. */
  ghost predicate CountersStep(rows: Rows, before: Counters, after: Counters, topic: Text) {
    forall g :: CounterOf(after, g)
                == if TakesPart(rows, g, topic) then (CounterOf(before, g) + 1) % 18446744073709551616
                   else CounterOf(before, g)
  }

  lemma CounterAfter(n: Node, rows: Rows, counters: Counters, topic: Text, group: Text)
    requires GoodTrie(n) && Represents(n, rows)
    ensures AfterPublish(counters, n, topic, group)
            == if TakesPart(rows, group, topic) then (CounterOf(counters, group) + 1) % 18446744073709551616
               else CounterOf(counters, group)
  {
    GroupTakesPart(n, rows, Split(topic), group);
  }

  /** Every registered client is reached, the publisher is answered, and the counters of the groups that match step. */
  ghost predicate Routed(n: Node, rows: Rows, p: Packet, client: Text, registered: bool, a: Moment, b: Moment)
    requires p.Publish?
  {
    && b.sessions.Keys == a.sessions.Keys
    && (forall c :: c in a.sessions ==>
          Reached(n, rows, p, a.counters, c, a.sessions[c].channel, b.sessions[c].channel,
                  if registered && c == client then Answer(p, false) else []))
    && CountersStep(rows, a.counters, b.counters, p.topic)
  }

  lemma AnsweredChannel(sessions: Sessions, client: Text, registered: bool, frames: seq<Bytes>, c: Text)
    requires c in sessions
    ensures var after := Answered(sessions, client, registered, frames);
            && after.Keys == sessions.Keys
            && after[c].channel == sessions[c].channel + if registered && c == client then frames else []
  {
    assert sessions[c].channel + [] == sessions[c].channel;
  }

  lemma EveryCounterAfter(n: Node, rows: Rows, before: Counters, after: Counters, topic: Text)
    requires GoodTrie(n) && Represents(n, rows)
    requires forall g :: CounterOf(after, g) == AfterPublish(before, n, topic, g)
    ensures CountersStep(rows, before, after, topic)
  {
    forall g ensures CounterOf(after, g)
                     == if TakesPart(rows, g, topic) then (CounterOf(before, g) + 1) % 18446744073709551616
                        else CounterOf(before, g) {
      CounterAfter(n, rows, before, topic, g);
    }
  }

  lemma ReachedThenAnswered(n: Node, rows: Rows, p: Packet, client: Text, registered: bool, a: Moment,
                            sessions: Sessions, c: Text)
    requires p.Publish? && c in a.sessions && c in sessions
    requires GetsItsFrames(n, rows, PublicationOf(p), a.counters, c, a.sessions[c].channel, sessions[c].channel)
    ensures c in Answered(sessions, client, registered, AckFrames(p, 0))
    ensures Reached(n, rows, p, a.counters, c, a.sessions[c].channel,
                    Answered(sessions, client, registered, AckFrames(p, 0))[c].channel,
                    if registered && c == client then Answer(p, false) else [])
  {
    AnswerIs(p);
    AnsweredChannel(sessions, client, registered, AckFrames(p, 0), c);
    FramesAreForwarded(n, rows, p, a.counters, c, a.sessions[c].channel, sessions[c].channel,
                       if registered && c == client then Answer(p, false) else []);
  }

  /** What `route_publish` does to sessions and counters, before the answer. */
  ghost predicate Served(n: Node, rows: Rows, p: Packet, a: Moment, mid: Moment)
    requires p.Publish?
  {
    && mid.sessions.Keys == a.sessions.Keys
    && (forall c :: c in a.sessions ==>
          GetsItsFrames(n, rows, PublicationOf(p), a.counters, c, a.sessions[c].channel, mid.sessions[c].channel))
    && CountersStep(rows, a.counters, mid.counters, p.topic)
  }

  lemma PublishedServes(n: Node, rows: Rows, p: Packet, a: Moment, mid: Moment)
    requires GoodTrie(n) && Represents(n, rows) && p.Publish? && CanForward(p, rows)
    requires Published(n, PublicationOf(p), a, mid)
    ensures Served(n, rows, p, a, mid)
  {
    ForwardedFits(p, rows);
    RoutedPublishReachesEveryone(n, rows, PublicationOf(p), a, mid);
    EveryCounterAfter(n, rows, a.counters, mid.counters, p.topic);
  }

  lemma ServedThenAnswered(n: Node, rows: Rows, p: Packet, client: Text, registered: bool, a: Moment, mid: Moment,
                           b: Moment)
    requires p.Publish? && Served(n, rows, p, a, mid)
    requires b == mid.(sessions := Answered(mid.sessions, client, registered, AckFrames(p, 0)))
    ensures Routed(n, rows, p, client, registered, a, b)
  {
    forall c | c in a.sessions
      ensures Reached(n, rows, p, a.counters, c, a.sessions[c].channel, b.sessions[c].channel,
                      if registered && c == client then Answer(p, false) else [])
    {
      ReachedThenAnswered(n, rows, p, client, registered, a, mid.sessions, c);
    }
  }

  /** An allowed PUBLISH is forwarded to whoever its topic reaches, with its own fields, and acknowledged. */
  lemma AllowedPublishIsRouted(n: Node, rows: Rows, p: Packet, client: Text, registered: bool, a: Moment, b: Moment)
    requires GoodTrie(n) && Represents(n, rows) && p.Publish? && CanForward(p, rows)
    requires PublishOutcome(true, n, p, client, registered, a, b)
    ensures Routed(n, rows, p, client, registered, a, b)
  {
    var mid :| Published(n, PublicationOf(p), a, mid)
               && b == mid.(sessions := Answered(mid.sessions, client, registered, AckFrames(p, 0)));
    PublishedServes(n, rows, p, a, mid);
    ServedThenAnswered(n, rows, p, client, registered, a, mid, b);
  }

  /** A refused one changes nothing but its publisher's channel, which says so. */
  ghost predicate Refused(p: Packet, client: Text, registered: bool, a: Moment, b: Moment)
    requires p.Publish?
  {
    && b.counters == a.counters && b.flights == a.flights && b.sessions.Keys == a.sessions.Keys
    && forall c :: c in a.sessions ==>
         b.sessions[c] == if registered && c == client
                          then a.sessions[c].(channel := a.sessions[c].channel + Answer(p, true)) else a.sessions[c]
  }

  lemma RefusedPublishIsAnswered(n: Node, p: Packet, client: Text, registered: bool, a: Moment, b: Moment)
    requires p.Publish? && PublishOutcome(false, n, p, client, registered, a, b)
    ensures Refused(p, client, registered, a, b)
  {
    AnswerIs(p);
  }

  /** The PUBLISH branch, for any session: who may publish is routed, who may not is refused. */
  method PublishRequest(state: BrokerState, session: ClientSession, p: Packet)
    requires state.Valid() && p.Publish?
    modifies state.sessions.Values, state`counters, state.db`inFlight, session`channel
    ensures state.Valid()
    ensures var user := if session.username.Some? then session.username.value else [];
            if HasRule(state.auth, user, p.topic, Write)
            then CanForward(p, state.router.rows) ==>
                   Routed(state.router.root, state.router.rows, p, session.clientId, Registered(state, session),
                          old(state.Now()), state.Now())
            else Refused(p, session.clientId, Registered(state, session), old(state.Now()), state.Now())
    ensures var user := if session.username.Some? then session.username.value else [];
            !Registered(state, session) ==>
              session.channel == old(session.channel) + Answer(p, !HasRule(state.auth, user, p.topic, Write))
  {
    ghost var before := state.Now();
    AnswerIs(p);
    MayWriteExactly(state.auth, RuleName(session.username), p.topic);
    ProcessPublish(state, session, p);
    ghost var registered := Registered(state, session);
    if MayPublish(state, session, p) {
      if CanForward(p, state.router.rows) {
        AllowedPublishIsRouted(state.router.root, state.router.rows, p, session.clientId, registered, before,
                               state.Now());
      }
    } else {
      RefusedPublishIsAnswered(state.router.root, p, session.clientId, registered, before, state.Now());
    }
  }

  // -------------------------------------------------------------------- SUBSCRIBE

  /** The filter of a later entry does not ask for the same: other levels up to the first "#", or another group. */
  ghost predicate AsksElsewhere(filter: Text, group: Option<Text>, proper: Text) {
    forall g, f :: AsksFor(filter, g, f) ==> g != group || Truncate(Split(f)) != Truncate(Split(proper))
  }

  /** Entry i may be subscribed to, and no later entry writes over it. */
  ghost predicate Decides(r: Request, subs: seq<Subscription>, i: nat, group: Option<Text>, proper: Text) {
    && i < |subs| && HasRule(r.auth, r.user, subs[i].filter, Read) && AsksFor(subs[i].filter, group, proper)
    && forall j :: i < j < |subs| ==>
         HasRule(r.auth, r.user, subs[j].filter, Read) ==> AsksElsewhere(subs[j].filter, group, proper)
  }

  lemma AdmitsByRule(r: Request, s: Subscription)
    ensures Admits(r, s) <==> HasRule(r.auth, r.user, s.filter, Read)
  {
    MayReadExactly(r.auth, r.user, s.filter);
  }

  lemma DecidingIsLast(r: Request, subs: seq<Subscription>, i: nat, group: Option<Text>, proper: Text)
    requires Decides(r, subs, i, group, proper)
    ensures LastFor(r, subs, Key(group, Truncate(Split(proper)), r.client), i)
  {
    var k := Key(group, Truncate(Split(proper)), r.client);
    AdmitsByRule(r, subs[i]);
    RowsNamed(subs[i].filter, group, proper, r.client);
    forall j | i < j < |subs| ensures !Files(r, subs[j], k) {
      AdmitsByRule(r, subs[j]);
      var (g, f) := ParseShared(subs[j].filter);
      ParseSharedExactly(subs[j].filter, g, f);
      RowsNamed(subs[j].filter, g, f, r.client);
    }
  }

  /**
   After a SUBSCRIBE, an entry that decides is found for every topic its filter proper matches, in the group the filter
   asks for, with the client, two bits of its options and the identifier of the packet.
   */
  lemma DecidingEntryIsFound(r: Request, subs: seq<Subscription>, before: Holdings, after: Holdings, i: nat,
                             group: Option<Text>, proper: Text, topic: Text)
    requires SubscribeOutcome(r, subs, before, after) && GoodTrie(after.root) && Represents(after.root, after.rows)
    requires Decides(r, subs, i, group, proper) && Matches(Split(proper), Split(topic))
    ensures SubInfo(r.client, subs[i].options % 4, r.subId) in Found(after.root, Split(topic), group)
  {
    var info := SubInfo(r.client, subs[i].options % 4, r.subId);
    var k := Key(group, Truncate(Split(proper)), r.client);
    DecidingIsLast(r, subs, i, group, proper);
    assert Lookup(after.rows, k) == Some(info);
    TruncatedMatchesAlike(Split(proper), Split(topic));
    FoundIsLinearScan(after.root, after.rows, Split(topic), group, info);
    assert k in RowsMatching(after.rows, group, Split(topic), info);
  }

  /** Nobody else's subscriptions change. */
  lemma OthersKeepTheirs(r: Request, subs: seq<Subscription>, before: Holdings, after: Holdings, k: Key)
    requires SubscribeOutcome(r, subs, before, after) && k.client != r.client
    ensures Lookup(after.rows, k) == Lookup(before.rows, k)
  {
    forall i | 0 <= i < |subs| ensures !Files(r, subs[i], k) {
      assert SubscribedKey(subs[i].filter, r.client).client == r.client;
    }
  }

  /** Entry i may be subscribed to, and no later entry has its filter. */
  ghost predicate LastOfItsFilter(r: Request, subs: seq<Subscription>, i: nat) {
    && i < |subs| && HasRule(r.auth, r.user, subs[i].filter, Read)
    && forall j :: i < j < |subs| ==> subs[j].filter != subs[i].filter
  }

  /** It is what the table has under that filter. */
  lemma {:induction false} LastEntryIsSaved(r: Request, subs: seq<Subscription>, h: Holdings, i: nat)
    requires LastOfItsFilter(r, subs, i)
    ensures Subscribes(AdmittedOps(r, subs))
    ensures Lookup(SubscribeAll(h, AdmittedOps(r, subs)).table, SubKey(r.client, subs[i].filter))
            == Some(SubRow(subs[i].options % 4, r.subId))
    decreases |subs|
  {
    AdmittedSubscribe(r, subs);
    var init, last := subs[..|subs| - 1], subs[|subs| - 1];
    AdmittedSubscribe(r, init);
    AdmitsByRule(r, last);
    if i < |init| {
      LastEntryIsSaved(r, init, h, i);
    }
    if Admits(r, last) { SubscribeNext(h, AdmittedOps(r, init), OpOf(r, last)); }
  }

  /** The SUBACK byte for byte: id, no properties, and per entry two bits of its options or "not authorized". */
  ghost predicate Acknowledges(frame: Bytes, auth: AuthConfig, user: Text, p: Packet)
    requires p.Subscribe?
  {
    exists codes: Bytes ::
      && |codes| == |p.subscriptions|
      && (forall i :: 0 <= i < |codes| ==>
            codes[i] == if HasRule(auth, user, p.subscriptions[i].filter, Read) then p.subscriptions[i].options % 4
                        else 0x87)
      && frame == [0x90] + (EncodeVarint(3 + |codes|) + ([p.subscribeId / 256, p.subscribeId % 256] + ([0] + codes)))
  }

  lemma CodesByRule(r: Request, subs: seq<Subscription>)
    ensures forall i :: 0 <= i < |subs| ==>
              CodesOf(r, subs)[i]
              == if HasRule(r.auth, r.user, subs[i].filter, Read) then subs[i].options % 4 else 0x87
  {
    forall i | 0 <= i < |subs|
      ensures CodeOf(r, subs[i]) == if HasRule(r.auth, r.user, subs[i].filter, Read) then subs[i].options % 4 else 0x87
    {
      AdmitsByRule(r, subs[i]);
    }
  }

  lemma SubAckAcknowledges(r: Request, p: Packet)
    requires p.Subscribe? && Fits(p)
    ensures Acknowledges(EncodePacket(SubAckOf(r, p)), r.auth, r.user, p)
  {
    CodesByRule(r, p.subscriptions);
    SubscribeRoom(p);
    SubAckOnTheWire(p.subscribeId, CodesOf(r, p.subscriptions));
  }

  /**
   The SUBSCRIBE branch, for a packet that came in a frame: the entries that decide are found, the last admitted entry
   of each filter is saved, nobody else's subscriptions change, and the answer says which entries were admitted.
   */
  method SubscribeRequest(state: BrokerState, session: ClientSession, p: Packet)
    requires state.Valid() && p.Subscribe? && Fits(p)
    modifies state.router, state.db`subscriptions, session`channel
    ensures state.Valid()
    ensures var user := if session.username.Some? then session.username.value else [];
            var r := Request(state.auth, user, session.clientId, p.subscribeProps.subscriptionIdentifier);
            && (forall i: nat, group, proper, topic ::
                  Decides(r, p.subscriptions, i, group, proper) && Matches(Split(proper), Split(topic)) ==>
                    SubInfo(r.client, p.subscriptions[i].options % 4, r.subId)
                    in Found(state.router.root, Split(topic), group))
            && (forall i: nat :: LastOfItsFilter(r, p.subscriptions, i) ==>
                  Lookup(state.db.subscriptions, SubKey(session.clientId, p.subscriptions[i].filter))
                  == Some(SubRow(p.subscriptions[i].options % 4, r.subId)))
            && (forall k: Key :: k.client != session.clientId ==>
                  Lookup(state.router.rows, k) == Lookup(old(state.router.rows), k))
            && |session.channel| == |old(session.channel)| + 1 && old(session.channel) <= session.channel
            && Acknowledges(session.channel[|old(session.channel)|], state.auth, user, p)
  {
    ghost var r := RequestOf(state, session, p);
    ghost var before := Held(state);
    ProcessSubscribe(state, session, p);
    ghost var after := Held(state);
    SubAckAcknowledges(r, p);
    forall i: nat, group, proper, topic
      | Decides(r, p.subscriptions, i, group, proper) && Matches(Split(proper), Split(topic))
      ensures SubInfo(r.client, p.subscriptions[i].options % 4, r.subId)
              in Found(state.router.root, Split(topic), group)
    {
      DecidingEntryIsFound(r, p.subscriptions, before, after, i, group, proper, topic);
    }
    forall i: nat | LastOfItsFilter(r, p.subscriptions, i)
      ensures Lookup(after.table, SubKey(session.clientId, p.subscriptions[i].filter))
              == Some(SubRow(p.subscriptions[i].options % 4, r.subId))
    {
      LastEntryIsSaved(r, p.subscriptions, before, i);
    }
    forall k: Key | k.client != session.clientId ensures Lookup(after.rows, k) == Lookup(before.rows, k) {
      OthersKeepTheirs(r, p.subscriptions, before, after, k);
    }
  }
}
