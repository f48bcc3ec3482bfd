/** Runs of publishes against one trie: each shared group goes round its members. */
module LoadSharing {
  import opened Basics
  import opened Topics
  import opened Trie
  import opened Matching
  import opened PublishFrames
  import opened RoundRobin
  import opened Delivery
  import opened Publishing

  /** The moments before, between and after publishes, while the trie is not changed. */
  ghost predicate Chain(n: Node, ms: seq<Publication>, moments: seq<Moment>) {
    && |moments| == |ms| + 1
    && forall p :: 0 <= p < |ms| ==> Published(n, ms[p], moments[p], moments[p + 1])
  }

  /** The list of the group that a publish reaches; empty if the group takes no part. */
  function Reached(n: Node, m: Publication, group: Text): seq<SubInfo> {
    Members(n, Split(m.topic), group)
  }

  function TurnsOf(n: Node, ms: seq<Publication>, group: Text): (turns: seq<bool>)
    ensures |turns| == |ms| && forall p :: 0 <= p < |ms| ==> turns[p] == (Reached(n, ms[p], group) != [])
  {
    seq(|ms|, p requires 0 <= p < |ms| => Reached(n, ms[p], group) != [])
  }

  function CountersOf(moments: seq<Moment>, group: Text): (cs: seq<usize>)
    ensures |cs| == |moments| && forall p :: 0 <= p < |moments| ==> cs[p] == CounterOf(moments[p].counters, group)
  {
    seq(|moments|, p requires 0 <= p < |moments| => CounterOf(moments[p].counters, group))
  }

  /** How many of the publishes reach the group. */
  function Turns(n: Node, ms: seq<Publication>, group: Text): nat {
    TurnsBefore(TurnsOf(n, ms, group), |ms|)
  }

  lemma CounterSteps(n: Node, m: Publication, a: Moment, b: Moment, group: Text)
    requires Published(n, m, a, b)
    ensures CounterOf(b.counters, group) == AfterPublish(a.counters, n, m.topic, group)
  {
    var normal, groups, targets := PublishedByTargets(n, m, a, b);
    CountersAfterPublish(a.counters, groups, n, m.topic, group);
  }

  lemma ChainStepAt(n: Node, ms: seq<Publication>, moments: seq<Moment>, group: Text, p: nat)
    requires Chain(n, ms, moments) && p < |ms|
    ensures var cs := CountersOf(moments, group);
            cs[p + 1] == if TurnsOf(n, ms, group)[p] then NextCount(cs[p]) else cs[p]
  {
    CounterSteps(n, ms[p], moments[p], moments[p + 1], group);
  }

  /** A group's counter steps at the publishes that reach it, and at no other. */
  lemma ChainSteps(n: Node, ms: seq<Publication>, moments: seq<Moment>, group: Text)
    requires Chain(n, ms, moments)
    ensures Steps(CountersOf(moments, group), TurnsOf(n, ms, group))
  {
    var cs, turns := CountersOf(moments, group), TurnsOf(n, ms, group);
    forall p | 0 <= p < |turns| ensures cs[p + 1] == if turns[p] then NextCount(cs[p]) else cs[p] {
      ChainStepAt(n, ms, moments, group, p);
    }
  }

  /**
   Publish p, if it reaches the group, selects the member whose position is the counter the chain started with
   plus the turns before p, modulo the list; so its client is among the targets.
   */
  lemma EachTurnSelectsTheNext(n: Node, ms: seq<Publication>, moments: seq<Moment>, group: Text, p: nat)
    requires Chain(n, ms, moments) && p < |ms| && Reached(n, ms[p], group) != []
    ensures var list := Reached(n, ms[p], group);
            var before := TurnsBefore(TurnsOf(n, ms, group), p);
            var position := Advance(CounterOf(moments[0].counters, group), before) % |list|;
            && Selected(moments[p].counters, group, list) == list[position]
            && Selects(moments[p].counters, n, Split(ms[p].topic), group, list[position].client)
  {
    ChainSteps(n, ms, moments, group);
    StepsAdvance(CountersOf(moments, group), TurnsOf(n, ms, group), p);
  }

  /** Every publish that reaches the group finds a list of k members. */
  ghost predicate ListsOf(n: Node, ms: seq<Publication>, group: Text, k: nat) {
    forall p :: 0 <= p < |ms| && Reached(n, ms[p], group) != [] ==> |Reached(n, ms[p], group)| == k
  }

  /** How often, in the chain, the group selects position i of its list of k. */
  function Times(n: Node, ms: seq<Publication>, moments: seq<Moment>, group: Text, k: nat, i: nat): nat
    requires |moments| == |ms| + 1 && k > 0
  {
    TimesBefore(CountersOf(moments, group), TurnsOf(n, ms, group), k, i, |ms|)
  }

  lemma TimesInChain(n: Node, ms: seq<Publication>, moments: seq<Moment>, group: Text, k: nat, i: nat)
    requires Chain(n, ms, moments) && k > 0
    ensures Times(n, ms, moments, group, k, i) == Hits(CounterOf(moments[0].counters, group), k, Turns(n, ms, group), i)
  {
    ChainSteps(n, ms, moments, group);
    TimesAreHits(CountersOf(moments, group), TurnsOf(n, ms, group), k, i, |ms|);
  }

  /**
   Fairness of `route_publish`: of n publishes that reach a group with a list of k members, each position of the list
   is selected floor(n/k) or ceil(n/k) times, until the counter wraps.
   */
  lemma RoundRobinIsFair(n: Node, ms: seq<Publication>, moments: seq<Moment>, group: Text, k: nat, i: nat)
    requires Chain(n, ms, moments) && ListsOf(n, ms, group, k) && i < k
    requires CounterOf(moments[0].counters, group) + Turns(n, ms, group) <= USIZE
    ensures var turns := Turns(n, ms, group);
            turns / k <= Times(n, ms, moments, group, k, i) <= (turns + k - 1) / k
  {
    TimesInChain(n, ms, moments, group, k, i);
    HitsAreFair(CounterOf(moments[0].counters, group), k, Turns(n, ms, group), i);
  }

  // --------------------------------------------------------- frames of one member

  /** The client is in this group's list at position i only, and gets frames in no other way. */
  ghost predicate OnlyThroughGroup(n: Node, rows: Rows, m: Publication, group: Text, i: nat, client: Text) {
    && ClientRows(rows, Split(m.topic), client) == {}
    && (forall g, x :: g != group && x in Members(n, Split(m.topic), g) ==> x.client != client)
    && (forall j :: 0 <= j < |Reached(n, m, group)| ==> (Reached(n, m, group)[j].client == client <==> j == i))
  }

  /** One publish puts one frame on the client's channel if the group selects it, and none otherwise. */
  lemma OneFramePerSelection(n: Node, rows: Rows, m: Publication, a: Moment, b: Moment, group: Text, i: nat,
                             client: Text)
    requires GoodTrie(n) && Represents(n, rows) && RowsDeliverable(m, rows) && Published(n, m, a, b)
    requires client in a.sessions && OnlyThroughGroup(n, rows, m, group, i, client)
    ensures client in b.sessions
    ensures var list := Reached(n, m, group);
            |b.sessions[client].channel| == |a.sessions[client].channel|
              + if list != [] && CounterOf(a.counters, group) % |list| == i then 1 else 0
  {
    RoutedPublishReachesEveryone(n, rows, m, a, b);
    var before, after := a.sessions[client].channel, b.sessions[client].channel;
    assert GetsItsFrames(n, rows, m, a.counters, client, before, after);
    var own, chosen :|
      && CountsRows(own, rows, ClientRows(rows, Split(m.topic), client))
      && SelectingGroups(chosen, a.counters, n, Split(m.topic), client)
      && HaveMembers(n, Split(m.topic), chosen)
      && Gained(before, after, m, own + SelectedTargets(a.counters, n, Split(m.topic), chosen));
    CountsAll(own, rows, ClientRows(rows, Split(m.topic), client));
    OnlyGroupSelects(n, rows, m, a.counters, group, i, client, chosen);
  }

  lemma OnlyGroupSelects(n: Node, rows: Rows, m: Publication, counters: Counters, group: Text, i: nat, client: Text,
                         chosen: seq<Text>)
    requires OnlyThroughGroup(n, rows, m, group, i, client)
    requires SelectingGroups(chosen, counters, n, Split(m.topic), client)
    ensures |chosen|
         == if Reached(n, m, group) != [] && CounterOf(counters, group) % |Reached(n, m, group)| == i then 1 else 0
  {
    var list := Reached(n, m, group);
    forall g | g in chosen ensures g == group {
      var members := Members(n, Split(m.topic), g);
      assert Selects(counters, n, Split(m.topic), g, client) && Selected(counters, g, members) in members;
    }
    assert Selects(counters, n, Split(m.topic), group, client)
      <==> list != [] && CounterOf(counters, group) % |list| == i;
    AtMostOne(chosen, group);
  }

  lemma {:induction false} AtMostOne<T>(s: seq<T>, x: T)
    requires Distinct(s) && forall y :: y in s ==> y == x
    ensures |s| == if x in s then 1 else 0
  {
    if s != [] {
      DistinctInit(s);
      var init, last := s[..|s| - 1], s[|s| - 1];
      assert s == init + [last] && last in s;
      assert forall y :: y in init ==> y in s;
      AtMostOne(init, x);
    }
  }

  /** So a client that gets frames only as member i of the group gets floor(n/k) or ceil(n/k) of n publishes. */
  lemma MembersShareFairly(n: Node, rows: Rows, ms: seq<Publication>, moments: seq<Moment>, group: Text,
                           k: nat, i: nat, client: Text)
    requires GoodTrie(n) && Represents(n, rows) && Chain(n, ms, moments) && ListsOf(n, ms, group, k) && i < k
    requires CounterOf(moments[0].counters, group) + Turns(n, ms, group) <= USIZE && client in moments[0].sessions
    requires forall p :: 0 <= p < |ms| ==>
               RowsDeliverable(ms[p], rows) && OnlyThroughGroup(n, rows, ms[p], group, i, client)
    ensures client in moments[|ms|].sessions
    ensures var turns := Turns(n, ms, group);
            var frames := |moments[|ms|].sessions[client].channel| - |moments[0].sessions[client].channel|;
            turns / k <= frames <= (turns + k - 1) / k
  {
    RoundRobinIsFair(n, ms, moments, group, k, i);
    SessionStays(n, ms, moments, client);
    var sizes := ChannelSizes(moments, client);
    var cs, turns := CountersOf(moments, group), TurnsOf(n, ms, group);
    forall p | 0 <= p < |ms| ensures sizes[p + 1] == sizes[p] + if turns[p] && cs[p] % k == i then 1 else 0 {
      OneFramePerSelection(n, rows, ms[p], moments[p], moments[p + 1], group, i, client);
    }
    GrowthIsTimes(sizes, cs, turns, k, i, |ms|);
  }

  function ChannelSizes(moments: seq<Moment>, client: Text): (sizes: seq<nat>)
    requires forall p :: 0 <= p < |moments| ==> client in moments[p].sessions
    ensures |sizes| == |moments|
    ensures forall p :: 0 <= p < |moments| ==> sizes[p] == |moments[p].sessions[client].channel|
  {
    seq(|moments|, p requires 0 <= p < |moments| => |moments[p].sessions[client].channel|)
  }

  /** No publish registers or removes a session. */
  lemma SessionStays(n: Node, ms: seq<Publication>, moments: seq<Moment>, client: Text)
    requires Chain(n, ms, moments) && client in moments[0].sessions
    ensures forall p :: 0 <= p < |moments| ==> client in moments[p].sessions
  {
    forall p | 0 <= p < |moments| ensures client in moments[p].sessions {
      SessionStaysUntil(n, ms, moments, client, p);
    }
  }

  lemma {:induction false} SessionStaysUntil(n: Node, ms: seq<Publication>, moments: seq<Moment>, client: Text, p: nat)
    requires Chain(n, ms, moments) && client in moments[0].sessions && p < |moments|
    ensures client in moments[p].sessions
  {
    if p > 0 {
      SessionStaysUntil(n, ms, moments, client, p - 1);
      var normal, groups, targets := PublishedByTargets(n, ms[p - 1], moments[p - 1], moments[p]);
    }
  }
}
