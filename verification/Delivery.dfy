/** What one publish puts on the sessions' channels: value-level delivery, and its count against the flat table. */
module Delivery {
  import opened Basics
  import opened Varint
  import opened Packets
  import opened PacketRoundTrip
  import opened PublishFrames
  import opened Topics
  import opened Acl
  import opened Trie
  import opened Matching
  import opened PacketIds
  import opened Session
  import opened RoundRobin

  type Sessions = map<Text, SessionState>

  /** A session after one delivery: with a quality of service, the message is tracked under a fresh id. */
  function Sent(s: SessionState, m: Publication, subId: Option<u32>): SessionState {
    if m.qos > 0 then
      var t := StepTracker(Tracker(s.nextPacketId, s.inFlight), SendOp(m.topic, m.payload, m.qos));
      var frame := EncodePacket(Delivered(m, Some(NextId(s.nextPacketId).0), subId));
      SessionState(t.counter, t.inFlight, s.channel + [frame])
    else
      s.(channel := s.channel + [EncodePacket(Delivered(m, None, subId))])
  }

  /** `send_publish_to_client`: nothing happens for a client without a session. */
  function Deliver(sessions: Sessions, m: Publication, to: SubInfo): (after: Sessions)
    ensures after.Keys == sessions.Keys
  {
    if to.client in sessions then sessions[to.client := Sent(sessions[to.client], m, to.subId)] else sessions
  }

  function DeliverAll(sessions: Sessions, m: Publication, targets: seq<SubInfo>): (after: Sessions)
    ensures after.Keys == sessions.Keys
  {
    if targets == [] then sessions
    else Deliver(DeliverAll(sessions, m, targets[..|targets| - 1]), m, targets[|targets| - 1])
  }

  // ----------------------------------------------------------- one client's frames

  /** The targets of one client, in order. */
  function For(targets: seq<SubInfo>, client: Text): seq<SubInfo> {
    if targets == [] then []
    else
      var init := For(targets[..|targets| - 1], client);
      if targets[|targets| - 1].client == client then init + [targets[|targets| - 1]] else init
  }

  ghost predicate AllDeliverable(m: Publication, targets: seq<SubInfo>) {
    forall i :: 0 <= i < |targets| ==> Deliverable(m, targets[i].subId)
  }

  /** From `before` to `after`, the channel gained one frame for each of these subscriptions, in order. */
  ghost predicate Gained(before: seq<Bytes>, after: seq<Bytes>, m: Publication, subs: seq<SubInfo>) {
    && |after| == |before| + |subs| && before <= after
    && forall i :: 0 <= i < |subs| ==> CarriesPublication(after[|before| + i], m, subs[i].subId)
  }

  lemma GainedOne(before: seq<Bytes>, after: seq<Bytes>, m: Publication, subs: seq<SubInfo>, frame: Bytes, sub: SubInfo)
    requires Gained(before, after, m, subs) && CarriesPublication(frame, m, sub.subId)
    ensures Gained(before, after + [frame], m, subs + [sub])
  {
  }

  lemma SentFrame(s: SessionState, m: Publication, subId: Option<u32>) returns (frame: Bytes)
    requires Deliverable(m, subId)
    ensures Sent(s, m, subId).channel == s.channel + [frame] && CarriesPublication(frame, m, subId)
  {
    var id: Option<u16> := if m.qos > 0 then Some(NextId(s.nextPacketId).0) else None;
    frame := EncodePacket(Delivered(m, id, subId));
    DeliveredRoundTrips(m, id, subId);
  }

  /** With a quality of service the frame carries the very id, never 0, that the message is now in flight under. */
  lemma SentFrameIsTracked(s: SessionState, m: Publication, subId: Option<u32>, rest: Bytes)
    returns (frame: Bytes, id: u16)
    requires Deliverable(m, subId) && m.qos > 0
    ensures Sent(s, m, subId).channel == s.channel + [frame]
    ensures id != 0 && Sent(s, m, subId).inFlight == s.inFlight[id := Message(id, m.topic, m.payload, m.qos)]
    ensures DecodePacket(frame + rest)
            == Ok((Publish(false, m.qos, m.retain, m.topic, Some(id), OnlySubscription(subId), m.payload), |frame|))
  {
    id := NextId(s.nextPacketId).0;
    var p := Delivered(m, Some(id), subId);
    frame := EncodePacket(p);
    DeliveredFits(m, Some(id), subId);
    RoundTrip(p, rest);
  }

  /** A session's channel gains exactly one frame for each of its targets, in order. */
  lemma {:induction false} DeliveredFrames(sessions: Sessions, m: Publication, targets: seq<SubInfo>, client: Text)
    requires AllDeliverable(m, targets) && client in sessions
    ensures Gained(sessions[client].channel, DeliverAll(sessions, m, targets)[client].channel, m, For(targets, client))
    decreases |targets|
  {
    if targets != [] {
      var init, last := targets[..|targets| - 1], targets[|targets| - 1];
      DeliveredFrames(sessions, m, init, client);
      var s := DeliverAll(sessions, m, init)[client];
      if last.client == client {
        var frame := SentFrame(s, m, last.subId);
        GainedOne(sessions[client].channel, s.channel, m, For(init, client), frame, last);
      }
    }
  }

  // --------------------------------------------- deliveries as steps of the session

  function TrackerOf(s: SessionState): Tracker {
    Tracker(s.nextPacketId, s.inFlight)
  }

  /** k deliveries of a publication, as operations of the session. */
  function SendsOf(m: Publication, k: nat): seq<Op> {
    if k == 0 || m.qos == 0 then [] else SendsOf(m, k - 1) + [SendOp(m.topic, m.payload, m.qos)]
  }

  lemma OneMoreSend(s: SessionState, m: Publication, subId: Option<u32>, ops: seq<Op>, k: nat)
    requires TrackerOf(s) == RunTracker(ops + SendsOf(m, k))
    ensures TrackerOf(Sent(s, m, subId)) == RunTracker(ops + SendsOf(m, k + 1))
  {
    if m.qos > 0 {
      var op, run := SendOp(m.topic, m.payload, m.qos), ops + SendsOf(m, k);
      assert ops + (SendsOf(m, k) + [op]) == run + [op];
      assert (run + [op])[..|run|] == run;
    } else {
      assert SendsOf(m, k) == SendsOf(m, k + 1) == [];
    }
  }

  /** What a publish does to a session's ids and in-flight map is a run of sends, one for each of its targets. */
  lemma {:induction false} DeliveriesAreSends(sessions: Sessions, m: Publication, targets: seq<SubInfo>, client: Text,
                                              ops: seq<Op>)
    requires client in sessions && TrackerOf(sessions[client]) == RunTracker(ops)
    ensures TrackerOf(DeliverAll(sessions, m, targets)[client]) == RunTracker(ops + SendsOf(m, |For(targets, client)|))
    decreases |targets|
  {
    if targets == [] {
      assert ops + SendsOf(m, 0) == ops;
    } else {
      var init, last := targets[..|targets| - 1], targets[|targets| - 1];
      DeliveriesAreSends(sessions, m, init, client, ops);
      LastDelivery(sessions, m, targets, client);
      if last.client == client {
        OneMoreSend(DeliverAll(sessions, m, init)[client], m, last.subId, ops, |For(init, client)|);
      }
    }
  }

  lemma LastDelivery(sessions: Sessions, m: Publication, targets: seq<SubInfo>, client: Text)
    requires client in sessions && targets != []
    ensures var init, last := targets[..|targets| - 1], targets[|targets| - 1];
            var s := DeliverAll(sessions, m, init)[client];
            && DeliverAll(sessions, m, targets)[client] == (if last.client == client then Sent(s, m, last.subId) else s)
            && |For(targets, client)| == |For(init, client)| + if last.client == client then 1 else 0
  {
  }

  // ------------------------------------------------ counted against the flat table

  ghost function Carrying(rows: Rows, keys: set<Key>, x: SubInfo): set<Key>
    requires keys <= rows.Keys
  {
    set k | k in keys && rows[k] == x
  }

  /** The targets are the subscriptions of these rows, each as often as rows carry it. */
  ghost predicate CountsRows(targets: seq<SubInfo>, rows: Rows, keys: set<Key>)
    requires keys <= rows.Keys
  {
    forall x :: multiset(targets)[x] == |Carrying(rows, keys, x)|
  }

  lemma RemoveOne(targets: seq<SubInfo>, rows: Rows, keys: set<Key>, k0: Key)
    requires keys <= rows.Keys && CountsRows(targets, rows, keys) && k0 in keys
    requires targets != [] && rows[k0] == targets[|targets| - 1]
    ensures CountsRows(targets[..|targets| - 1], rows, keys - {k0})
  {
    var init := targets[..|targets| - 1];
    assert targets == init + [rows[k0]];
    forall x ensures multiset(init)[x] == |Carrying(rows, keys - {k0}, x)| {
      if rows[k0] == x {
        assert Carrying(rows, keys, x) == Carrying(rows, keys - {k0}, x) + {k0};
      } else {
        assert Carrying(rows, keys, x) == Carrying(rows, keys - {k0}, x);
      }
      assert multiset(targets)[x] == |Carrying(rows, keys, x)|;
    }
  }

  /** So there are as many targets as rows. */
  lemma {:induction false} CountsAll(targets: seq<SubInfo>, rows: Rows, keys: set<Key>)
    requires keys <= rows.Keys && CountsRows(targets, rows, keys)
    ensures |targets| == |keys|
    decreases |targets|
  {
    if targets == [] {
      if k :| k in keys {
        SomeTarget(targets, rows, keys, k);
      }
    } else {
      var last := targets[|targets| - 1];
      assert multiset(targets)[last] == |Carrying(rows, keys, last)| && last in targets;
      var k0 :| k0 in Carrying(rows, keys, last);
      RemoveOne(targets, rows, keys, k0);
      CountsAll(targets[..|targets| - 1], rows, keys - {k0});
    }
  }

  lemma SomeTarget(targets: seq<SubInfo>, rows: Rows, keys: set<Key>, k: Key)
    requires keys <= rows.Keys && CountsRows(targets, rows, keys) && k in keys
    ensures targets != []
  {
    assert k in Carrying(rows, keys, rows[k]);
    assert multiset(targets)[rows[k]] == |Carrying(rows, keys, rows[k])|;
  }

  lemma {:induction false} ForKeepsItsOwn(targets: seq<SubInfo>, client: Text, x: SubInfo)
    ensures multiset(For(targets, client))[x] == if x.client == client then multiset(targets)[x] else 0
    decreases |targets|
  {
    if targets != [] {
      assert targets == targets[..|targets| - 1] + [targets[|targets| - 1]];
      ForKeepsItsOwn(targets[..|targets| - 1], client, x);
    }
  }

  /** The rows of one client that match a topic, unshared. */
  ghost function ClientRows(rows: Rows, topic: Levels, client: Text): set<Key> {
    set k | k in rows && k.group == None && k.client == client && Matches(k.levels, topic)
  }

  lemma RowHasItsClient(n: Node, rows: Rows, k: Key)
    requires GoodTrie(n) && Represents(n, rows) && k in rows
    ensures rows[k].client == k.client
  {
    assert Get(n, k) == Lookup(rows, k);
    GoodPayloadAt(n, k.levels);
    StoredHasClient(At(n, k.levels), k.group, k.client);
  }

  /** Of the unshared targets, a client's are the subscriptions of its matching rows, identifiers included. */
  lemma NormalTargetsCounted(n: Node, rows: Rows, topic: Levels, normal: seq<SubInfo>, client: Text)
    requires GoodTrie(n) && Represents(n, rows)
    requires multiset(normal) == Found(n, topic, None)
    ensures CountsRows(For(normal, client), rows, ClientRows(rows, topic, client))
    ensures |For(normal, client)| == |ClientRows(rows, topic, client)|
  {
    var keys := ClientRows(rows, topic, client);
    forall k | k in rows ensures rows[k].client == k.client {
      RowHasItsClient(n, rows, k);
    }
    forall x ensures multiset(For(normal, client))[x] == |Carrying(rows, keys, x)| {
      ForKeepsItsOwn(normal, client, x);
      FoundIsLinearScan(n, rows, topic, None, x);
      assert Carrying(rows, keys, x) == if x.client == client then RowsMatching(rows, None, topic, x) else {};
    }
    CountsAll(For(normal, client), rows, keys);
  }

  // --------------------------------------------------------------- shared groups

  ghost predicate HaveMembers(n: Node, topic: Levels, groups: seq<Text>) {
    forall i :: 0 <= i < |groups| ==> Members(n, topic, groups[i]) != []
  }

  /** The member each of these groups selects. */
  ghost function SelectedTargets(counters: Counters, n: Node, topic: Levels, groups: seq<Text>): (targets: seq<SubInfo>)
    requires HaveMembers(n, topic, groups)
    ensures |targets| == |groups|
    ensures forall i :: 0 <= i < |groups| ==> targets[i] == Selected(counters, groups[i], Members(n, topic, groups[i]))
  {
    seq(|groups|, i requires 0 <= i < |groups| => Selected(counters, groups[i], Members(n, topic, groups[i])))
  }

  /** The groups that take part, each once. */
  ghost predicate TakingPart(groups: seq<Text>, n: Node, topic: Levels) {
    && Distinct(groups)
    && (forall g :: g in groups <==> Members(n, topic, g) != [])
  }

  ghost predicate Selects(counters: Counters, n: Node, topic: Levels, group: Text, client: Text) {
    Members(n, topic, group) != [] && Selected(counters, group, Members(n, topic, group)).client == client
  }

  /** These are the groups that select the client, each once. */
  ghost predicate SelectingGroups(chosen: seq<Text>, counters: Counters, n: Node, topic: Levels, client: Text) {
    && Distinct(chosen)
    && (forall g :: g in chosen <==> Selects(counters, n, topic, g, client))
  }

  /** The groups, of some, that select the client. */
  ghost function Choosing(counters: Counters, n: Node, topic: Levels, groups: seq<Text>, client: Text)
    : (chosen: seq<Text>)
    requires HaveMembers(n, topic, groups)
    ensures forall g :: g in chosen <==> g in groups && Selects(counters, n, topic, g, client)
    decreases |groups|
  {
    if groups == [] then []
    else
      var init, last := groups[..|groups| - 1], groups[|groups| - 1];
      assert groups == init + [last];
      var chosen := Choosing(counters, n, topic, init, client);
      if Selects(counters, n, topic, last, client) then chosen + [last] else chosen
  }

  lemma SelectedNext(counters: Counters, n: Node, topic: Levels, groups: seq<Text>, last: Text)
    requires HaveMembers(n, topic, groups) && Members(n, topic, last) != []
    ensures HaveMembers(n, topic, groups + [last])
    ensures SelectedTargets(counters, n, topic, groups + [last])
         == SelectedTargets(counters, n, topic, groups) + [Selected(counters, last, Members(n, topic, last))]
  {
  }

  lemma ForNext(targets: seq<SubInfo>, last: SubInfo, client: Text)
    ensures For(targets + [last], client) == For(targets, client) + if last.client == client then [last] else []
  {
    assert (targets + [last])[..|targets|] == targets;
  }

  /** Of the shared targets, a client's are the selected members of the groups that select it. */
  lemma {:induction false} SharedTargetsCounted(counters: Counters, n: Node, topic: Levels, groups: seq<Text>,
                                                client: Text)
    requires HaveMembers(n, topic, groups)
    ensures var chosen := Choosing(counters, n, topic, groups, client);
            && HaveMembers(n, topic, chosen)
            && For(SelectedTargets(counters, n, topic, groups), client) == SelectedTargets(counters, n, topic, chosen)
    decreases |groups|
  {
    if groups != [] {
      var init, last := groups[..|groups| - 1], groups[|groups| - 1];
      assert groups == init + [last];
      SharedTargetsCounted(counters, n, topic, init, client);
      SelectedNext(counters, n, topic, init, last);
      ForNext(SelectedTargets(counters, n, topic, init), Selected(counters, last, Members(n, topic, last)), client);
      if Selects(counters, n, topic, last, client) {
        SelectedNext(counters, n, topic, Choosing(counters, n, topic, init, client), last);
      }
    }
  }

  lemma {:induction false} ChosenOnce(counters: Counters, n: Node, topic: Levels, groups: seq<Text>, client: Text)
    requires HaveMembers(n, topic, groups) && Distinct(groups)
    ensures Distinct(Choosing(counters, n, topic, groups, client))
    decreases |groups|
  {
    if groups != [] {
      DistinctInit(groups);
      var init, last := groups[..|groups| - 1], groups[|groups| - 1];
      ChosenOnce(counters, n, topic, init, client);
      if Selects(counters, n, topic, last, client) {
        DistinctAppend(Choosing(counters, n, topic, init, client), last);
      }
    }
  }

  lemma {:induction false} ForConcat(a: seq<SubInfo>, b: seq<SubInfo>, client: Text)
    ensures For(a + b, client) == For(a, client) + For(b, client)
    decreases |b|
  {
    if b == [] {
      assert a + b == a;
    } else {
      assert (a + b)[..|a + b| - 1] == a + b[..|b| - 1];
      ForConcat(a, b[..|b| - 1], client);
    }
  }

  /** The targets of one publish: the unshared subscribers, then the selected member of each group. */
  ghost function Targets(counters: Counters, n: Node, topic: Levels, normal: seq<SubInfo>, groups: seq<Text>)
    : seq<SubInfo>
    requires HaveMembers(n, topic, groups)
  {
    normal + SelectedTargets(counters, n, topic, groups)
  }

  lemma TakingPartHasMembers(groups: seq<Text>, n: Node, topic: Levels)
    requires TakingPart(groups, n, topic)
    ensures HaveMembers(n, topic, groups)
  {
    assert forall i :: 0 <= i < |groups| ==> groups[i] in groups;
  }

  /** The frame of every row that matches fits. */
  ghost predicate RowsDeliverable(m: Publication, rows: Rows) {
    forall k :: k in rows && Matches(k.levels, Split(m.topic)) ==> Deliverable(m, rows[k].subId)
  }

  /**
   End to end: one publish puts on a registered session's channel one frame for each of the client's matching
   unshared rows, with that row's identifier, and one for each group that selects it, with that member's.
   */
  lemma PublishDeliversExactly(sessions: Sessions, m: Publication, n: Node, rows: Rows, counters: Counters,
                               normal: seq<SubInfo>, groups: seq<Text>, client: Text)
    returns (own: seq<SubInfo>, chosen: seq<Text>)
    requires GoodTrie(n) && Represents(n, rows) && RowsDeliverable(m, rows) && client in sessions
    requires multiset(normal) == Found(n, Split(m.topic), None) && TakingPart(groups, n, Split(m.topic))
    requires HaveMembers(n, Split(m.topic), groups)
    ensures CountsRows(own, rows, ClientRows(rows, Split(m.topic), client))
    ensures |own| == |ClientRows(rows, Split(m.topic), client)|
    ensures SelectingGroups(chosen, counters, n, Split(m.topic), client)
    ensures HaveMembers(n, Split(m.topic), chosen)
    ensures var targets := Targets(counters, n, Split(m.topic), normal, groups);
            Gained(sessions[client].channel, DeliverAll(sessions, m, targets)[client].channel, m,
                   own + SelectedTargets(counters, n, Split(m.topic), chosen))
  {
    var topic := Split(m.topic);
    var shared := SelectedTargets(counters, n, topic, groups);
    var targets := Targets(counters, n, topic, normal, groups);
    own, chosen := For(normal, client), Choosing(counters, n, topic, groups, client);
    TargetsAreDeliverable(m, n, rows, normal, groups, counters);
    DeliveredFrames(sessions, m, targets, client);
    ForConcat(normal, shared, client);
    NormalTargetsCounted(n, rows, topic, normal, client);
    SharedTargetsCounted(counters, n, topic, groups, client);
    ChosenOnce(counters, n, topic, groups, client);
    assert forall g :: Selects(counters, n, topic, g, client) ==> g in groups;
  }

  lemma TargetsAreDeliverable(m: Publication, n: Node, rows: Rows, normal: seq<SubInfo>, groups: seq<Text>,
                              counters: Counters)
    requires GoodTrie(n) && Represents(n, rows) && RowsDeliverable(m, rows)
    requires multiset(normal) == Found(n, Split(m.topic), None)
    requires HaveMembers(n, Split(m.topic), groups)
    ensures AllDeliverable(m, normal + SelectedTargets(counters, n, Split(m.topic), groups))
  {
    var topic := Split(m.topic);
    forall i | 0 <= i < |normal| ensures Deliverable(m, normal[i].subId) {
      assert normal[i] in multiset(normal);
      FoundComesFromRow(n, rows, topic, None, normal[i]);
    }
    forall i | 0 <= i < |groups| ensures Deliverable(m, SelectedTargets(counters, n, topic, groups)[i].subId) {
      var x := Selected(counters, groups[i], Members(n, topic, groups[i]));
      MembersAreFound(n, topic, groups[i]);
      assert x in multiset(Members(n, topic, groups[i]));
      FoundComesFromRow(n, rows, topic, Some(groups[i]), x);
    }
  }

  lemma FoundComesFromRow(n: Node, rows: Rows, topic: Levels, group: Option<Text>, x: SubInfo)
    requires GoodTrie(n) && Represents(n, rows) && Found(n, topic, group)[x] > 0
    ensures exists k :: k in rows && rows[k] == x && Matches(k.levels, topic)
  {
    FoundIsLinearScan(n, rows, topic, group, x);
    var k :| k in RowsMatching(rows, group, topic, x);
  }
}
