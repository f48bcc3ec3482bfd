/** One publish as a step of the broker, and who gets which frames from it. */
module Publishing {
  import opened Basics
  import opened Topics
  import opened Trie
  import opened Matching
  import opened PacketIds
  import opened PublishFrames
  import opened RoundRobin
  import opened Delivery
  import opened Persistence

  /** What a publish changes: the groups' counters, the sessions and the in-flight table. */
  datatype Moment = Moment(counters: Counters, sessions: Sessions, flights: Flights)

  /** The in-flight row that a delivery to a session saves, under the id the session takes. */
  function SaveFlight(flights: Flights, counter: u16, m: Publication, client: Text): Flights {
    if m.qos > 0 then flights[FlightKey(client, NextId(counter).0) := FlightRow(m.topic, m.payload, m.qos)] else flights
  }

  /** `send_publish_to_client` */
  function DeliverTo(a: Moment, m: Publication, to: SubInfo): (b: Moment)
    ensures b.counters == a.counters && b.sessions == Deliver(a.sessions, m, to)
  {
    if to.client !in a.sessions then a
    else
      var flights := SaveFlight(a.flights, a.sessions[to.client].nextPacketId, m, to.client);
      Moment(a.counters, Deliver(a.sessions, m, to), flights)
  }

  function DeliverToAll(a: Moment, m: Publication, targets: seq<SubInfo>): (b: Moment)
    ensures b.counters == a.counters && b.sessions == DeliverAll(a.sessions, m, targets)
  {
    if targets == [] then a
    else DeliverTo(DeliverToAll(a, m, targets[..|targets| - 1]), m, targets[|targets| - 1])
  }

  /** One group: its counter steps, and the member at the old counter gets the message. */
  function ServeGroup(a: Moment, m: Publication, group: Text, members: seq<SubInfo>): Moment
    requires members != []
  {
    DeliverTo(a.(counters := BumpGroup(a.counters, group)), m, Selected(a.counters, group, members))
  }

  predicate NoEmptyList(shared: map<Text, seq<SubInfo>>) {
    forall g :: g in shared ==> shared[g] != []
  }

  function ServeGroups(a: Moment, m: Publication, shared: map<Text, seq<SubInfo>>, groups: seq<Text>): Moment
    requires NoEmptyList(shared) && forall g :: g in groups ==> g in shared
  {
    if groups == [] then a
    else
      var last := groups[|groups| - 1];
      ServeGroup(ServeGroups(a, m, shared, groups[..|groups| - 1]), m, last, shared[last])
  }

  /** The router's answer: the unshared matches, and one list for each group with a member, in the trie's order. */
  ghost predicate IsRoute(normal: seq<SubInfo>, shared: map<Text, seq<SubInfo>>, n: Node, topic: Levels) {
    && multiset(normal) == Found(n, topic, None)
    && NoEmptyList(shared)
    && forall g :: ListOf(shared, g) == Members(n, topic, g)
  }

  ghost predicate EachOnce(groups: seq<Text>, shared: map<Text, seq<SubInfo>>) {
    Distinct(groups) && forall g :: g in groups <==> g in shared
  }

  ghost predicate PublishedVia(n: Node, m: Publication, a: Moment, b: Moment,
                               normal: seq<SubInfo>, shared: map<Text, seq<SubInfo>>, groups: seq<Text>) {
    && IsRoute(normal, shared, n, Split(m.topic)) && EachOnce(groups, shared)
    && b == ServeGroups(DeliverToAll(a, m, normal), m, shared, groups)
  }

  /** `route_publish`: all unshared matches in some order, then each matching group once in some order. */
  ghost predicate Published(n: Node, m: Publication, a: Moment, b: Moment) {
    exists normal, shared, groups :: PublishedVia(n, m, a, b, normal, shared, groups)
  }

  lemma ServeNext(a: Moment, m: Publication, shared: map<Text, seq<SubInfo>>, groups: seq<Text>, group: Text)
    requires NoEmptyList(shared) && Distinct(groups) && (forall g :: g in groups ==> g in shared)
    requires group in shared && group !in groups
    ensures Distinct(groups + [group])
    ensures ServeGroups(a, m, shared, groups + [group])
         == ServeGroup(ServeGroups(a, m, shared, groups), m, group, shared[group])
  {
    DistinctAppend(groups, group);
    assert (groups + [group])[..|groups|] == groups;
  }

  lemma PublishedBy(n: Node, m: Publication, a: Moment, b: Moment,
                    normal: seq<SubInfo>, shared: map<Text, seq<SubInfo>>, groups: seq<Text>)
    requires IsRoute(normal, shared, n, Split(m.topic)) && EachOnce(groups, shared)
    requires b == ServeGroups(DeliverToAll(a, m, normal), m, shared, groups)
    ensures Published(n, m, a, b)
  {
    assert PublishedVia(n, m, a, b, normal, shared, groups);
  }

  // ------------------------------------------------------- a publish by its targets

  function BumpGroups(counters: Counters, groups: seq<Text>): Counters {
    if groups == [] then counters else BumpGroup(BumpGroups(counters, groups[..|groups| - 1]), groups[|groups| - 1])
  }

  lemma {:induction false} OthersKeepTheirCounter(counters: Counters, groups: seq<Text>, g: Text)
    requires g !in groups
    ensures CounterOf(BumpGroups(counters, groups), g) == CounterOf(counters, g)
  {
    if groups != [] { OthersKeepTheirCounter(counters, groups[..|groups| - 1], g); }
  }

  lemma {:induction false} BumpedOnce(counters: Counters, groups: seq<Text>, g: Text)
    requires Distinct(groups) && g in groups
    ensures CounterOf(BumpGroups(counters, groups), g) == NextCount(CounterOf(counters, g))
  {
    DistinctInit(groups);
    var init, last := groups[..|groups| - 1], groups[|groups| - 1];
    assert groups == init + [last];
    if g == last {
      OthersKeepTheirCounter(counters, init, g);
    } else {
      BumpedOnce(counters, init, g);
    }
  }

  /** The member that each of these groups selects. */
  function Picks(counters: Counters, shared: map<Text, seq<SubInfo>>, groups: seq<Text>): (picks: seq<SubInfo>)
    requires NoEmptyList(shared) && forall g :: g in groups ==> g in shared
    ensures |picks| == |groups|
    ensures forall i :: 0 <= i < |groups| ==> picks[i] == Selected(counters, groups[i], shared[groups[i]])
  {
    if groups == [] then []
    else
      var init, last := groups[..|groups| - 1], groups[|groups| - 1];
      assert groups == init + [last];
      Picks(counters, shared, init) + [Selected(counters, last, shared[last])]
  }

  /** Counters have no part in a delivery. */
  lemma DeliverWithCounters(a: Moment, counters: Counters, m: Publication, to: SubInfo)
    ensures DeliverTo(a.(counters := counters), m, to) == DeliverTo(a, m, to).(counters := counters)
  {
  }

  lemma DeliverNext(a: Moment, m: Publication, targets: seq<SubInfo>, last: SubInfo)
    ensures DeliverToAll(a, m, targets + [last]) == DeliverTo(DeliverToAll(a, m, targets), m, last)
  {
    assert (targets + [last])[..|targets|] == targets;
  }

  /** Serving groups is delivering to the member that each selects, and stepping each counter. */
  lemma {:induction false} ServedGroups(a: Moment, m: Publication, shared: map<Text, seq<SubInfo>>, groups: seq<Text>)
    requires NoEmptyList(shared) && Distinct(groups) && forall g :: g in groups ==> g in shared
    ensures ServeGroups(a, m, shared, groups)
         == DeliverToAll(a, m, Picks(a.counters, shared, groups)).(counters := BumpGroups(a.counters, groups))
    decreases |groups|
  {
    if groups != [] {
      DistinctInit(groups);
      var init, last := groups[..|groups| - 1], groups[|groups| - 1];
      ServedGroups(a, m, shared, init);
      OthersKeepTheirCounter(a.counters, init, last);
      var picks := Picks(a.counters, shared, init);
      ServedNext(a, m, DeliverToAll(a, m, picks), BumpGroups(a.counters, init), last, shared[last]);
      DeliverNext(a, m, picks, Selected(a.counters, last, shared[last]));
    }
  }

  lemma ServedNext(a: Moment, m: Publication, b: Moment, counters: Counters, group: Text, members: seq<SubInfo>)
    requires members != [] && CounterOf(counters, group) == CounterOf(a.counters, group)
    ensures ServeGroup(b.(counters := counters), m, group, members)
         == DeliverTo(b, m, Selected(a.counters, group, members)).(counters := BumpGroup(counters, group))
  {
    DeliverWithCounters(b, BumpGroup(counters, group), m, Selected(a.counters, group, members));
  }

  lemma {:induction false} DeliverConcat(a: Moment, m: Publication, s: seq<SubInfo>, t: seq<SubInfo>)
    ensures DeliverToAll(a, m, s + t) == DeliverToAll(DeliverToAll(a, m, s), m, t)
    decreases |t|
  {
    if t == [] {
      assert s + t == s;
    } else {
      var init, last := t[..|t| - 1], t[|t| - 1];
      assert s + t == s + init + [last];
      DeliverConcat(a, m, s, init);
      DeliverNext(a, m, s + init, last);
    }
  }

  /**
   A publish reaches the unshared matches and one member of each group that takes part, and steps those groups'
   counters.
   */
  lemma PublishedByTargets(n: Node, m: Publication, a: Moment, b: Moment)
    returns (normal: seq<SubInfo>, groups: seq<Text>, targets: seq<SubInfo>)
    requires Published(n, m, a, b)
    ensures multiset(normal) == Found(n, Split(m.topic), None) && TakingPart(groups, n, Split(m.topic))
    ensures HaveMembers(n, Split(m.topic), groups)
    ensures targets == Targets(a.counters, n, Split(m.topic), normal, groups)
    ensures b == DeliverToAll(a, m, targets).(counters := BumpGroups(a.counters, groups))
  {
    var shared;
    normal, shared, groups :| PublishedVia(n, m, a, b, normal, shared, groups);
    ServedGroups(DeliverToAll(a, m, normal), m, shared, groups);
    PicksAreSelected(a.counters, n, Split(m.topic), normal, shared, groups);
    DeliverConcat(a, m, normal, Picks(a.counters, shared, groups));
    targets := Targets(a.counters, n, Split(m.topic), normal, groups);
  }

  lemma PicksAreSelected(counters: Counters, n: Node, topic: Levels,
                         normal: seq<SubInfo>, shared: map<Text, seq<SubInfo>>, groups: seq<Text>)
    requires IsRoute(normal, shared, n, topic) && EachOnce(groups, shared)
    ensures TakingPart(groups, n, topic) && HaveMembers(n, topic, groups)
    ensures Picks(counters, shared, groups) == SelectedTargets(counters, n, topic, groups)
  {
    forall g ensures g in shared <==> Members(n, topic, g) != [] {
      assert ListOf(shared, g) == Members(n, topic, g);
    }
    forall i | 0 <= i < |groups| ensures groups[i] in groups && shared[groups[i]] == Members(n, topic, groups[i]) {
      assert ListOf(shared, groups[i]) == Members(n, topic, groups[i]);
    }
  }

  // ------------------------------------------------------------------ end to end

  /**
   What a publish adds to one client's channel. Of the client's own, one frame for each of its matching unshared rows,
   with that row's identifier; and one for each group that selects it, with the identifier of the member selected.
   */
  ghost predicate GetsItsFrames(n: Node, rows: Rows, m: Publication, counters: Counters, client: Text,
                                before: seq<Bytes>, after: seq<Bytes>) {
    exists own, chosen ::
      && CountsRows(own, rows, ClientRows(rows, Split(m.topic), client))
      && SelectingGroups(chosen, counters, n, Split(m.topic), client)
      && HaveMembers(n, Split(m.topic), chosen)
      && Gained(before, after, m, own + SelectedTargets(counters, n, Split(m.topic), chosen))
  }

  /**
   End to end: every registered client gets its frames, and every group that takes part has stepped its counter
   once.
   */
  lemma RoutedPublishReachesEveryone(n: Node, rows: Rows, m: Publication, a: Moment, b: Moment)
    requires GoodTrie(n) && Represents(n, rows) && RowsDeliverable(m, rows)
    requires Published(n, m, a, b)
    ensures b.sessions.Keys == a.sessions.Keys
    ensures forall c :: c in a.sessions ==>
              GetsItsFrames(n, rows, m, a.counters, c, a.sessions[c].channel, b.sessions[c].channel)
    ensures forall g :: CounterOf(b.counters, g) == AfterPublish(a.counters, n, m.topic, g)
  {
    var normal, groups, targets := PublishedByTargets(n, m, a, b);
    forall c | c in a.sessions
      ensures GetsItsFrames(n, rows, m, a.counters, c, a.sessions[c].channel, b.sessions[c].channel)
    {
      var own, chosen := PublishDeliversExactly(a.sessions, m, n, rows, a.counters, normal, groups, c);
    }
    forall g ensures CounterOf(b.counters, g) == AfterPublish(a.counters, n, m.topic, g) {
      CountersAfterPublish(a.counters, groups, n, m.topic, g);
    }
  }

  /** Groups that take part advance by one step, the others not at all. */
  lemma CountersAfterPublish(counters: Counters, groups: seq<Text>, n: Node, topic: Text, g: Text)
    requires TakingPart(groups, n, Split(topic))
    ensures CounterOf(BumpGroups(counters, groups), g) == AfterPublish(counters, n, topic, g)
  {
    if g in groups {
      BumpedOnce(counters, groups, g);
    } else {
      OthersKeepTheirCounter(counters, groups, g);
    }
  }
}
