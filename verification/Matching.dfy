/**
 What `match_topic` finds in a trie, and why that is the same as scanning the
 flat table of subscriptions row by row.
 */
module Matching {
  import opened Basics
  import opened Topics
  import opened Acl
  import opened Trie

  /** The subscriptions of one node: unshared ones, or those of one group. */
  function Here(p: Payload, group: Option<Text>): multiset<SubInfo> {
    match group
    case None => multiset(p.subs.Values)
    case Some(g) => multiset(ListOf(p.shared, g))
  }

  /** Everything the walk collects for a topic: unshared subscriptions, or those of one group. */
  function Found(n: Node, topic: Levels, group: Option<Text>): multiset<SubInfo>
    decreases topic, 1
  {
    FoundAtHash(n, group)
    + (if topic == [] then Here(PayloadOf(n), group)
       else
         FoundVia(Lookup(n.children, topic[0]), topic[1..], group) + FoundVia(n.plus, topic[1..], group))
  }

  function FoundAtHash(n: Node, group: Option<Text>): multiset<SubInfo> {
    if n.hash.Some? then Here(PayloadOf(n.hash.value), group) else multiset{}
  }

  function FoundVia(child: Option<Node>, topic: Levels, group: Option<Text>): multiset<SubInfo>
    decreases topic, 2
  {
    if child.Some? then Found(child.value, topic, group) else multiset{}
  }

  /** The member list of a group for a topic: fixed by the trie and the topic, order included. */
  function Members(n: Node, topic: Levels, group: Text): seq<SubInfo>
    decreases topic, 1
  {
    MembersAtHash(n, group)
    + (if topic == [] then ListOf(n.shared, group)
       else MembersVia(Lookup(n.children, topic[0]), topic[1..], group) + MembersVia(n.plus, topic[1..], group))
  }

  function MembersAtHash(n: Node, group: Text): seq<SubInfo> {
    if n.hash.Some? then ListOf(n.hash.value.shared, group) else []
  }

  function MembersVia(child: Option<Node>, topic: Levels, group: Text): seq<SubInfo>
    decreases topic, 2
  {
    if child.Some? then Members(child.value, topic, group) else []
  }

  lemma {:induction false} MembersAreFound(n: Node, topic: Levels, group: Text)
    ensures multiset(Members(n, topic, group)) == Found(n, topic, Some(group))
    decreases topic
  {
    if topic != [] {
      if topic[0] in n.children { MembersAreFound(n.children[topic[0]], topic[1..], group); }
      if n.plus.Some? { MembersAreFound(n.plus.value, topic[1..], group); }
    }
  }

  // ---------------------------------------------------------- filters that match

  ghost predicate Holds(p: Payload, group: Option<Text>, x: SubInfo) {
    Stored(p, group, x.client) == Some(x)
  }

  /** The empty filter, if subscription x is stored right here. */
  ghost function PlaceHere(n: Node, group: Option<Text>, x: SubInfo): set<Levels> {
    if Holds(PayloadOf(n), group, x) then {[]} else {}
  }

  /** The filters under which subscription x is collected. */
  ghost function Places(n: Node, topic: Levels, group: Option<Text>, x: SubInfo): set<Levels>
    decreases topic, 1
  {
    PlacesAtHash(n, group, x)
    + (if topic == [] then PlaceHere(n, group, x)
       else Under(topic[0], PlacesVia(Lookup(n.children, topic[0]), topic[1..], group, x))
            + Under(PLUS, PlacesVia(n.plus, topic[1..], group, x)))
  }

  ghost function PlacesAtHash(n: Node, group: Option<Text>, x: SubInfo): set<Levels> {
    if n.hash.Some? then Under(HASH, PlaceHere(n.hash.value, group, x)) else {}
  }

  ghost function PlacesVia(child: Option<Node>, topic: Levels, group: Option<Text>, x: SubInfo): set<Levels>
    decreases topic, 2
  {
    if child.Some? then Places(child.value, topic, group, x) else {}
  }

  ghost function Under(s: Text, filters: set<Levels>): set<Levels> {
    set f | f in filters :: [s] + f
  }

  lemma InUnder(s: Text, filters: set<Levels>, levels: Levels)
    ensures levels in Under(s, filters) <==> levels != [] && levels[0] == s && levels[1..] in filters
  {
    if levels != [] && levels[0] == s && levels[1..] in filters {
      assert levels == [s] + levels[1..];
    }
    if levels in Under(s, filters) {
      var f :| f in filters && levels == [s] + f;
      assert levels[1..] == f;
    }
  }

  lemma {:induction false} UnderSize(s: Text, filters: set<Levels>)
    ensures |Under(s, filters)| == |filters|
    decreases filters
  {
    if filters != {} {
      var f :| f in filters;
      var rest := filters - {f};
      UnderSize(s, rest);
      assert [s] + f !in Under(s, rest) by {
        InUnder(s, rest, [s] + f);
        assert ([s] + f)[1..] == f;
      }
      assert Under(s, filters) == Under(s, rest) + {[s] + f};
    } else {
      assert Under(s, filters) == {};
    }
  }

  lemma UnderDisjoint(s: Text, a: set<Levels>, t: Text, b: set<Levels>)
    requires s != t
    ensures Under(s, a) !! Under(t, b)
  {
    forall f | f in Under(s, a) ensures f !in Under(t, b) {
      InUnder(s, a, f);
      InUnder(t, b, f);
    }
  }

  /** The walk visits exactly the filters that match the topic. */
  lemma {:induction false} PlacesAreMatches(n: Node, topic: Levels, group: Option<Text>, x: SubInfo, levels: Levels)
    requires GoodTrie(n)
    ensures levels in Places(n, topic, group, x)
            <==> Matches(levels, topic) && Get(n, Key(group, levels, x.client)) == Some(x)
    decreases topic
  {
    if n.hash.Some? {
      InUnder(HASH, PlaceHere(n.hash.value, group, x), levels);
    }
    if topic != [] {
      InUnder(topic[0], PlacesVia(Lookup(n.children, topic[0]), topic[1..], group, x), levels);
      InUnder(PLUS, PlacesVia(n.plus, topic[1..], group, x), levels);
      assert Stored(NOTHING, group, x.client).None?;
      if levels != [] && levels[0] != HASH && Child(n, levels[0]).Some?
         && (levels[0] == topic[0] || levels[0] == PLUS) {
        PlacesAreMatches(Child(n, levels[0]).value, topic[1..], group, x, levels[1..]);
      }
    }
    if levels != [] && levels[0] == HASH && n.hash.Some? {
      AtLeaf(n.hash.value, levels[1..], group, x);
    }
  }

  lemma AtLeaf(leaf: Node, levels: Levels, group: Option<Text>, x: SubInfo)
    requires GoodTrie(leaf) && IsLeaf(leaf)
    ensures Get(leaf, Key(group, levels, x.client)) == Some(x) <==> levels in PlaceHere(leaf, group, x)
  {
    if levels != [] {
      assert Child(leaf, levels[0]).None?;
      assert Stored(NOTHING, group, x.client).None?;
    }
  }

  lemma {:induction false} OccurrencesInList(list: seq<SubInfo>, x: SubInfo)
    requires DistinctClients(list)
    ensures multiset(list)[x] == if FindClient(list, x.client) == Some(x) then 1 else 0
  {
    if list != [] {
      OccurrencesInList(list[1..], x);
      assert list == [list[0]] + list[1..];
      assert list[0].client == x.client ==> FindClient(list[1..], x.client).None? by {
        if FindClient(list[1..], x.client).Some? {
          var y := FindClient(list[1..], x.client).value;
          var j :| 0 <= j < |list| - 1 && list[1..][j] == y;
          assert list[0].client != list[j + 1].client;
        }
      }
    }
  }

  lemma OccurrencesHere(p: Payload, group: Option<Text>, x: SubInfo)
    requires GoodPayload(p)
    ensures Here(p, group)[x] == if Holds(p, group, x) then 1 else 0
  {
    match group
    case None =>
      if x in p.subs.Values {
        var c :| c in p.subs && p.subs[c] == x;
        assert c == x.client;
      }
    case Some(g) => OccurrencesInList(ListOf(p.shared, g), x);
  }

  /** Each subscription is collected once for every place it is found at. */
  lemma {:induction false} FoundCountsPlaces(n: Node, topic: Levels, group: Option<Text>, x: SubInfo)
    requires GoodTrie(n)
    ensures Found(n, topic, group)[x] == |Places(n, topic, group, x)|
    decreases topic
  {
    if topic == [] {
      FoundCountsHere(n, group, x);
    } else {
      FoundCountsAtHash(n, group, x);
      var child := Lookup(n.children, topic[0]);
      if child.Some? { FoundCountsPlaces(child.value, topic[1..], group, x); }
      if n.plus.Some? { FoundCountsPlaces(n.plus.value, topic[1..], group, x); }
      FoundCountsStep(n, topic, group, x);
    }
  }

  lemma DisjointSize<T>(a: set<T>, b: set<T>)
    requires a !! b
    ensures |a + b| == |a| + |b|
  {
  }

  lemma FoundCountsHere(n: Node, group: Option<Text>, x: SubInfo)
    requires GoodTrie(n)
    ensures Found(n, [], group)[x] == |Places(n, [], group, x)|
  {
    FoundCountsAtHash(n, group, x);
    OccurrencesHere(PayloadOf(n), group, x);
    HereIsNotAtHash(n, group, x);
    DisjointSize(PlacesAtHash(n, group, x), PlaceHere(n, group, x));
    var behindHash, here := FoundAtHash(n, group), Here(PayloadOf(n), group);
    assert Found(n, [], group) == behindHash + here;
  }

  lemma HereIsNotAtHash(n: Node, group: Option<Text>, x: SubInfo)
    ensures PlacesAtHash(n, group, x) !! PlaceHere(n, group, x)
  {
    if n.hash.Some? { InUnder(HASH, PlaceHere(n.hash.value, group, x), []); }
  }

  lemma FoundCountsStep(n: Node, topic: Levels, group: Option<Text>, x: SubInfo)
    requires GoodTrie(n) && topic != []
    requires FoundAtHash(n, group)[x] == |PlacesAtHash(n, group, x)|
    requires var child := Lookup(n.children, topic[0]);
             FoundVia(child, topic[1..], group)[x] == |PlacesVia(child, topic[1..], group, x)|
    requires FoundVia(n.plus, topic[1..], group)[x] == |PlacesVia(n.plus, topic[1..], group, x)|
    ensures Found(n, topic, group)[x] == |Places(n, topic, group, x)|
  {
    var child := Lookup(n.children, topic[0]);
    var exact, plus := PlacesVia(child, topic[1..], group, x), PlacesVia(n.plus, topic[1..], group, x);
    ThreeWays(n, topic[0], exact, plus, group, x);
    var a, b, c := FoundAtHash(n, group), FoundVia(child, topic[1..], group), FoundVia(n.plus, topic[1..], group);
    assert Found(n, topic, group) == a + (b + c);
  }

  lemma FoundCountsAtHash(n: Node, group: Option<Text>, x: SubInfo)
    requires GoodTrie(n)
    ensures FoundAtHash(n, group)[x] == |PlacesAtHash(n, group, x)|
  {
    if n.hash.Some? {
      OccurrencesHere(PayloadOf(n.hash.value), group, x);
      UnderSize(HASH, PlaceHere(n.hash.value, group, x));
    }
  }

  lemma ThreeWays(n: Node, s: Text, exact: set<Levels>, plus: set<Levels>, group: Option<Text>, x: SubInfo)
    requires GoodTrie(n) && (s !in n.children ==> exact == {})
    ensures |PlacesAtHash(n, group, x) + (Under(s, exact) + Under(PLUS, plus))|
            == |PlacesAtHash(n, group, x)| + |exact| + |plus|
  {
    UnderSize(s, exact);
    UnderSize(PLUS, plus);
    if s in n.children {
      UnderDisjoint(s, exact, PLUS, plus);
      if n.hash.Some? { UnderDisjoint(HASH, PlaceHere(n.hash.value, group, x), s, exact); }
    } else {
      assert Under(s, exact) == {};
    }
    if n.hash.Some? { UnderDisjoint(HASH, PlaceHere(n.hash.value, group, x), PLUS, plus); }
    assert Under(s, exact) !! Under(PLUS, plus);
    assert PlacesAtHash(n, group, x) !! (Under(s, exact) + Under(PLUS, plus));
  }

  // ------------------------------------------------------------------- the scan

  /** The rows of the flat table that carry subscription x in this group and match the topic. */
  ghost function RowsMatching(rows: Rows, group: Option<Text>, topic: Levels, x: SubInfo): set<Key> {
    set k | k in rows && rows[k] == x && k.group == group && Matches(k.levels, topic)
  }

  lemma {:induction false} KeysOf(group: Option<Text>, client: Text, places: set<Levels>) returns (keys: set<Key>)
    ensures keys == set f | f in places :: Key(group, f, client)
    ensures |keys| == |places|
    decreases places
  {
    if places == {} {
      keys := {};
    } else {
      var f :| f in places;
      var rest := KeysOf(group, client, places - {f});
      keys := rest + {Key(group, f, client)};
      assert Key(group, f, client) !in rest;
    }
  }

  /** The trie walk equals the linear scan: every matching row is collected exactly once, and nothing else is. */
  lemma FoundIsLinearScan(n: Node, rows: Rows, topic: Levels, group: Option<Text>, x: SubInfo)
    requires GoodTrie(n) && Represents(n, rows)
    ensures Found(n, topic, group)[x] == |RowsMatching(rows, group, topic, x)|
  {
    FoundCountsPlaces(n, topic, group, x);
    var places := Places(n, topic, group, x);
    var keys := KeysOf(group, x.client, places);
    forall k: Key ensures k in keys <==> k in RowsMatching(rows, group, topic, x) {
      PlacesAreMatches(n, topic, group, x, k.levels);
      assert Get(n, k) == Lookup(rows, k);
      GoodPayloadAt(n, k.levels);
      if k in keys {
        var f :| f in places && k == Key(group, f, x.client);
      }
      if k in RowsMatching(rows, group, topic, x) {
        StoredHasClient(At(n, k.levels), k.group, k.client);
        assert k == Key(group, k.levels, x.client);
      }
    }
    assert keys == RowsMatching(rows, group, topic, x);
  }

  lemma StoredHasClient(p: Payload, group: Option<Text>, client: Text)
    requires GoodPayload(p) && Stored(p, group, client).Some?
    ensures Stored(p, group, client).value.client == client
  {
  }

  /** A group takes part exactly when one of its rows matches. */
  lemma GroupTakesPart(n: Node, rows: Rows, topic: Levels, group: Text)
    requires GoodTrie(n) && Represents(n, rows)
    ensures Members(n, topic, group) != []
            <==> exists k :: k in rows && k.group == Some(group) && Matches(k.levels, topic)
  {
    MembersAreFound(n, topic, group);
    var list := Members(n, topic, group);
    if list != [] {
      var x := list[0];
      assert x in multiset(list);
      FoundIsLinearScan(n, rows, topic, Some(group), x);
      var k :| k in RowsMatching(rows, Some(group), topic, x);
    }
    if k :| k in rows && k.group == Some(group) && Matches(k.levels, topic) {
      FoundIsLinearScan(n, rows, topic, Some(group), rows[k]);
      assert k in RowsMatching(rows, Some(group), topic, rows[k]);
      assert rows[k] in multiset(list);
    }
  }

  /** Tries with the same rows answer every topic alike, up to the order inside a group. */
  lemma SameRowsSameMatches(a: Node, b: Node, rows: Rows, topic: Levels, group: Option<Text>)
    requires GoodTrie(a) && GoodTrie(b) && Represents(a, rows) && Represents(b, rows)
    ensures Found(a, topic, group) == Found(b, topic, group)
  {
    forall x: SubInfo ensures Found(a, topic, group)[x] == Found(b, topic, group)[x] {
      FoundIsLinearScan(a, rows, topic, group, x);
      FoundIsLinearScan(b, rows, topic, group, x);
    }
  }
}
