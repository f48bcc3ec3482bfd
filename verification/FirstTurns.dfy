/** A group that has just been formed: its members are in order of subscription, and publishes start at the first. */
module FirstTurns {
  import opened Basics
  import opened Topics
  import opened Acl
  import opened Trie
  import opened Matching
  import opened Router
  import opened Subscribing
  import opened PublishFrames
  import opened RoundRobin
  import opened Delivery
  import opened Publishing
  import opened LoadSharing

  /** No node but the one under these levels has members of the group. */
  ghost predicate OnlyAt(n: Node, levels: Levels, group: Text) {
    forall path: Levels :: path != levels ==> ListOf(At(n, path).shared, group) == []
  }

  ghost predicate Nowhere(n: Node, group: Text) {
    forall path: Levels :: ListOf(At(n, path).shared, group) == []
  }

  lemma BelowChild(n: Node, s: Text, levels: Levels, group: Text)
    requires OnlyAt(n, levels, group) && Child(n, s).Some?
    ensures levels != [] && levels[0] == s ==> OnlyAt(Child(n, s).value, levels[1..], group)
    ensures levels == [] || levels[0] != s ==> Nowhere(Child(n, s).value, group)
  {
    var c := Child(n, s).value;
    forall path: Levels ensures At(c, path) == At(n, [s] + path) {
      assert ([s] + path)[1..] == path;
    }
    forall path: Levels | levels == [] || levels[0] != s || path != levels[1..]
      ensures ListOf(At(c, path).shared, group) == []
    {
      assert ([s] + path)[1..] == path;
    }
  }

  lemma NowhereBelow(n: Node, s: Text, group: Text)
    requires Nowhere(n, group) && Child(n, s).Some?
    ensures Nowhere(Child(n, s).value, group)
  {
    BelowChild(n, s, [], group);
  }

  lemma {:induction false} NoMembers(n: Node, topic: Levels, group: Text)
    requires GoodTrie(n) && Nowhere(n, group)
    ensures Members(n, topic, group) == []
    decreases topic
  {
    assert ListOf(At(n, []).shared, group) == [];
    if n.hash.Some? { NothingAtHash(n, [], group); }
    if topic != [] {
      if topic[0] in n.children {
        NowhereBelow(n, topic[0], group);
        NoMembers(n.children[topic[0]], topic[1..], group);
      }
      if n.plus.Some? {
        NowhereBelow(n, PLUS, group);
        NoMembers(n.plus.value, topic[1..], group);
      }
    }
  }

  lemma NothingAtHash(n: Node, levels: Levels, group: Text)
    requires OnlyAt(n, levels, group) && levels != [HASH]
    ensures MembersAtHash(n, group) == []
  {
    assert ListOf(At(n, [HASH]).shared, group) == [];
  }

  /** What is found through one child, where the group's only node may be below it. */
  ghost function Expected(n: Node, s: Text, levels: Levels, topic: Levels, group: Text): seq<SubInfo> {
    if levels != [] && levels[0] == s && Matches(levels[1..], topic) then ListOf(At(n, levels).shared, group)
    else []
  }

  /** A group with members under one filter only has them, in their order, for the topics that the filter matches. */
  lemma {:induction false} MembersOfOneFilter(n: Node, levels: Levels, topic: Levels, group: Text)
    requires GoodTrie(n) && OnlyAt(n, levels, group)
    ensures Members(n, topic, group)
            == if Matches(levels, topic) then ListOf(At(n, levels).shared, group) else []
    decreases topic, 0
  {
    MembersBehindHash(n, levels, group);
    if levels != [] { assert ListOf(At(n, []).shared, group) == []; }
    if topic != [] {
      MembersBelow(n, topic[0], levels, topic[1..], group);
      MembersBelow(n, PLUS, levels, topic[1..], group);
    }
  }

  lemma MembersBehindHash(n: Node, levels: Levels, group: Text)
    requires GoodTrie(n) && OnlyAt(n, levels, group)
    ensures MembersAtHash(n, group)
         == if levels != [] && levels[0] == HASH then ListOf(At(n, levels).shared, group) else []
  {
    if levels != [HASH] { NothingAtHash(n, levels, group); }
    if levels != [] && levels[0] == HASH && levels != [HASH] {
      assert levels[1..] != [];
      NothingPastHash(n, levels);
    }
  }

  lemma {:induction false} MembersBelow(n: Node, s: Text, levels: Levels, topic: Levels, group: Text)
    requires GoodTrie(n) && OnlyAt(n, levels, group)
    ensures s != HASH ==> MembersVia(Child(n, s), topic, group) == Expected(n, s, levels, topic, group)
    ensures s == PLUS || s == HASH ==> Lookup(n.children, s).None?
    decreases topic, 1
  {
    if Child(n, s).Some? {
      BelowChild(n, s, levels, group);
      GoodTrieChild(n, s);
      if levels != [] && levels[0] == s {
        MembersOfOneFilter(Child(n, s).value, levels[1..], topic, group);
      } else {
        NoMembers(Child(n, s).value, topic, group);
      }
    }
  }

  // ------------------------------------------------------------- forming a group

  /** These clients subscribe, one after the other, to one filter. */
  function Joins(subs: seq<SubInfo>, filter: Text): seq<Op> {
    if subs == [] then []
    else
      var last := subs[|subs| - 1];
      Joins(subs[..|subs| - 1], filter) + [SubscribeOp(last.client, filter, last.qos, last.subId)]
  }

  /** One more client joins the group: its members are kept, and it comes last. */
  lemma OneMoreJoins(n: Node, levels: Levels, group: Text, list: seq<SubInfo>, last: SubInfo)
    requires OnlyAt(n, levels, group) && ListOf(At(n, levels).shared, group) == list
    requires forall s :: s in list ==> s.client != last.client
    ensures OnlyAt(Insert(n, levels, Some(group), last), levels, group)
    ensures ListOf(At(Insert(n, levels, Some(group), last), levels).shared, group) == list + [last]
  {
    WithoutAbsent(list, last.client);
    var after := Insert(n, levels, Some(group), last);
    InsertAt(n, levels, Some(group), last, levels);
    forall path: Levels | path != levels ensures ListOf(At(after, path).shared, group) == [] {
      InsertAt(n, levels, Some(group), last, path);
    }
  }

  lemma JoinStep(init: seq<SubInfo>, last: SubInfo, filter: Text, group: Text, proper: Text)
    requires AsksFor(filter, Some(group), proper)
    ensures RunTrie(Joins(init + [last], filter))
            == Insert(RunTrie(Joins(init, filter)), Truncate(Split(proper)), Some(group), last)
  {
    var all := Joins(init + [last], filter);
    assert (init + [last])[..|init|] == init;
    assert all[..|all| - 1] == Joins(init, filter);
    RowsNamed(filter, Some(group), proper, last.client);
  }

  lemma NobodyYet(levels: Levels, group: Text)
    ensures OnlyAt(EMPTY, levels, group) && ListOf(At(EMPTY, levels).shared, group) == []
  {
    forall path: Levels ensures At(EMPTY, path) == NOTHING { NothingBelowEmpty(EMPTY, path); }
  }

  lemma {:induction false} GroupForms(subs: seq<SubInfo>, filter: Text, group: Text, proper: Text)
    requires AsksFor(filter, Some(group), proper) && DistinctClients(subs)
    ensures OnlyAt(RunTrie(Joins(subs, filter)), Truncate(Split(proper)), group)
    ensures ListOf(At(RunTrie(Joins(subs, filter)), Truncate(Split(proper))).shared, group) == subs
    decreases |subs|
  {
    var levels := Truncate(Split(proper));
    if subs == [] {
      NobodyYet(levels, group);
    } else {
      var init, last := subs[..|subs| - 1], subs[|subs| - 1];
      assert subs == init + [last];
      LastIsNew(init, last);
      GroupForms(init, filter, group, proper);
      JoinStep(init, last, filter, group, proper);
      OneMoreJoins(RunTrie(Joins(init, filter)), levels, group, init, last);
    }
  }

  lemma LastIsNew(init: seq<SubInfo>, last: SubInfo)
    requires DistinctClients(init + [last])
    ensures DistinctClients(init) && forall s :: s in init ==> s.client != last.client
  {
    forall i, j | 0 <= i < j < |init| ensures init[i].client != init[j].client {
      assert (init + [last])[i] == init[i] && (init + [last])[j] == init[j];
    }
    forall s | s in init ensures s.client != last.client {
      var i :| 0 <= i < |init| && init[i] == s;
      assert (init + [last])[i] == s && (init + [last])[|init|] == last;
    }
  }

  /** The members of a group that some clients formed are these clients, in the order in which they came. */
  lemma MembersInOrder(subs: seq<SubInfo>, filter: Text, group: Text, proper: Text, topic: Text)
    requires AsksFor(filter, Some(group), proper) && DistinctClients(subs)
    ensures Members(RunTrie(Joins(subs, filter)), Split(topic), group)
            == if Matches(Split(proper), Split(topic)) then subs else []
  {
    GroupForms(subs, filter, group, proper);
    RunRefines(Joins(subs, filter));
    MembersOfOneFilter(RunTrie(Joins(subs, filter)), Truncate(Split(proper)), Split(topic), group);
    TruncatedMatchesAlike(Split(proper), Split(topic));
  }

  lemma {:induction false} EveryTurn(turns: seq<bool>, p: nat)
    requires p <= |turns| && forall q :: 0 <= q < p ==> turns[q]
    ensures TurnsBefore(turns, p) == p
  {
    if p > 0 { EveryTurn(turns, p - 1); }
  }

  /** From a counter that has not been used, publish p goes to position p of an unchanging list, wrapping. */
  lemma RoundFromTheFirst(n: Node, ms: seq<Publication>, moments: seq<Moment>, group: Text, list: seq<SubInfo>, p: nat)
    requires Chain(n, ms, moments) && group !in moments[0].counters && p < |ms|
    requires list != [] && forall q :: 0 <= q < |ms| ==> Reached(n, ms[q], group) == list
    ensures Selects(moments[p].counters, n, Split(ms[p].topic), group, list[p % 18446744073709551616 % |list|].client)
  {
    EachTurnSelectsTheNext(n, ms, moments, group, p);
    EveryTurn(TurnsOf(n, ms, group), p);
    assert CounterOf(moments[0].counters, group) == 0;
    assert Advance(0, p) == p % 18446744073709551616;
  }

  /**
   Clients subscribe to a shared filter, one after the other, and then publishes match it: the first is for the first
   client, and so on round; the count wraps at 2^64.
   */
  lemma FirstComeFirstServed(subs: seq<SubInfo>, filter: Text, group: Text, proper: Text, ms: seq<Publication>,
                             moments: seq<Moment>, p: nat)
    requires AsksFor(filter, Some(group), proper) && DistinctClients(subs) && subs != []
    requires Chain(RunTrie(Joins(subs, filter)), ms, moments) && moments[0].counters == map[] && p < |ms|
    requires forall q :: 0 <= q < |ms| ==> Matches(Split(proper), Split(ms[q].topic))
    ensures Selects(moments[p].counters, RunTrie(Joins(subs, filter)), Split(ms[p].topic), group,
                    subs[p % 18446744073709551616 % |subs|].client)
  {
    var n := RunTrie(Joins(subs, filter));
    forall q | 0 <= q < |ms| ensures Reached(n, ms[q], group) == subs {
      MembersInOrder(subs, filter, group, proper, ms[q].topic);
    }
    RoundFromTheFirst(n, ms, moments, group, subs, p);
  }
}
