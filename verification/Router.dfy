/** The topic router: the trie walks of subscribe, unsubscribe and match, in place. */
module Router {
  import opened Basics
  import opened Topics
  import opened Acl
  import opened Trie
  import opened Matching

  /** The row that a filter string names for a client. */
  function FilterKey(filter: Text, client: Text): Key {
    var (group, levels) := ParseShared(filter);
    Key(group, Split(levels), client)
  }

  /** The row that subscribing writes: levels stop at the first "#". */
  function SubscribedKey(filter: Text, client: Text): Key {
    var k := FilterKey(filter, client);
    k.(levels := Truncate(k.levels))
  }

  predicate HashLast(filter: Text) {
    HashOnlyLast(FilterKey(filter, []).levels)
  }

  /** The nodes walked through, each with the level taken out of it: the parents behind a `&mut` cursor. */
  type Trail = seq<(Node, Text)>

  /** The tree around a cursor: writes the node back into its parents, innermost first. */
  function Plug(trail: Trail, n: Node): Node
    decreases |trail|
  {
    if trail == [] then n
    else
      var (parent, segment) := trail[|trail| - 1];
      Plug(trail[..|trail| - 1], WithChild(parent, segment, Some(n)))
  }

  lemma PlugPush(trail: Trail, parent: Node, segment: Text, n: Node)
    ensures Plug(trail + [(parent, segment)], n) == Plug(trail, WithChild(parent, segment, Some(n)))
  {
    assert (trail + [(parent, segment)])[..|trail|] == trail;
  }

  datatype Collected = Collected(normal: seq<SubInfo>, shared: map<Text, seq<SubInfo>>)

  /** From a to b, the walk added these unshared subscriptions, and appended these members to each group. */
  ghost predicate Grew(a: Collected, b: Collected, found: multiset<SubInfo>, members: Text -> seq<SubInfo>) {
    && multiset(b.normal) == multiset(a.normal) + found
    && forall g :: ListOf(b.shared, g) == ListOf(a.shared, g) + members(g)
  }

  lemma GrewTwice(a: Collected, b: Collected, c: Collected, found1: multiset<SubInfo>, found2: multiset<SubInfo>,
                  members1: Text -> seq<SubInfo>, members2: Text -> seq<SubInfo>, members: Text -> seq<SubInfo>)
    requires Grew(a, b, found1, members1) && Grew(b, c, found2, members2)
    requires forall g :: members(g) == members1(g) + members2(g)
    ensures Grew(a, c, found1 + found2, members)
  {
    forall g ensures ListOf(c.shared, g) == ListOf(a.shared, g) + members(g) {
      assert ListOf(c.shared, g) == ListOf(b.shared, g) + members2(g);
      assert ListOf(a.shared, g) + members1(g) + members2(g) == ListOf(a.shared, g) + (members1(g) + members2(g));
    }
  }

  class RouteResult {
    var normal: seq<SubInfo>
    var shared: map<Text, seq<SubInfo>>

    constructor ()
      ensures normal == [] && shared == map[]
    {
      normal, shared := [], map[];
    }

    /** The result as a value. */
    ghost function Value(): Collected
      reads this
    {
      Collected(normal, shared)
    }

    ghost predicate NoEmptyLists()
      reads this
    {
      forall g :: g in shared ==> shared[g] != []
    }
  }

  class TopicRouter {
    var root: Node
    ghost var rows: Rows

    ghost predicate Valid()
      reads this
    {
      GoodTrie(root) && Represents(root, rows)
    }

    constructor ()
      ensures Valid() && root == EMPTY && rows == map[]
    {
      root, rows := EMPTY, map[];
      new;
      forall k: Key ensures Get(root, k).None? {
        NothingBelowEmpty(EMPTY, k.levels);
      }
    }

    /** `TopicRouter::subscribe`: walk down creating nodes, stop at "#", write the subscription. */
    method Subscribe(client: Text, topicFilter: Text, qos: byte, subId: Option<u32>)
      requires Valid()
      modifies this
      ensures Valid()
      ensures rows == old(rows)[SubscribedKey(topicFilter, client) := SubInfo(client, qos, subId)]
      ensures var k := SubscribedKey(topicFilter, client);
              root == Insert(old(root), k.levels, k.group, SubInfo(client, qos, subId))
    {
      var (group, filter) := ParseShared(topicFilter);
      var info := SubInfo(client, qos, subId);
      InsertRefines(root, rows, Truncate(Split(filter)), group, info);
      var trail, current := WalkDown(root, Split(filter), group, info);
      current := WithPayload(current, AddTo(PayloadOf(current), group, info));
      current := WriteBack(trail, current);
      root := current;
      rows := rows[SubscribedKey(topicFilter, client) := info];
    }

    /** The loop of `subscribe`: descends through the segments, creating missing nodes, and stops behind "#". */
    static method WalkDown(root: Node, segments: Levels, ghost group: Option<Text>, ghost info: SubInfo)
      returns (trail: Trail, current: Node)
      ensures Plug(trail, Insert(current, [], group, info)) == Insert(root, Truncate(segments), group, info)
    {
      ghost var todo := Truncate(segments);
      current, trail := root, [];
      var i, done := 0, false;
      while i < |segments| && !done
        invariant 0 <= i <= |segments|
        invariant todo == if done then [] else Truncate(segments[i..])
        invariant Plug(trail, Insert(current, todo, group, info)) == Insert(root, Truncate(segments), group, info)
        decreases |segments| - i
      {
        var segment := segments[i];
        WalkStep(trail, current, segments[i..], group, info);
        assert segments[i..][1..] == segments[i + 1..];
        trail := trail + [(current, segment)];
        current := ChildOrEmpty(current, segment);
        done := segment == HASH;
        todo := todo[1..];
        i := i + 1;
      }
      assert todo == [];
    }

    static lemma WalkStep(trail: Trail, n: Node, levels: Levels, group: Option<Text>, info: SubInfo)
      requires levels != []
      ensures Truncate(levels)[1..] == if levels[0] == HASH then [] else Truncate(levels[1..])
      ensures Plug(trail, Insert(n, Truncate(levels), group, info))
              == Plug(trail + [(n, levels[0])], Insert(ChildOrEmpty(n, levels[0]), Truncate(levels)[1..], group, info))
    {
      assert Truncate(levels)[0] == levels[0];
      PlugPush(trail, n, levels[0], Insert(ChildOrEmpty(n, levels[0]), Truncate(levels)[1..], group, info));
    }

    /** Writes a changed node back into the parents it was reached through. */
    static method WriteBack(trail: Trail, n: Node) returns (root: Node)
      ensures root == Plug(trail, n)
    {
      var rest := trail;
      root := n;
      while rest != []
        invariant Plug(rest, root) == Plug(trail, n)
        decreases |rest|
      {
        var (parent, segment) := rest[|rest| - 1];
        rest, root := rest[..|rest| - 1], WithChild(parent, segment, Some(root));
      }
    }

    /** `TopicRouter::unsubscribe`: true exactly when the row was there; no other row changes. */
    method Unsubscribe(client: Text, topicFilter: Text) returns (removed: bool)
      requires Valid()
      modifies this
      ensures Valid()
      ensures rows == old(rows) - {FilterKey(topicFilter, client)}
      ensures removed <==> FilterKey(topicFilter, client) in old(rows)
      ensures var k := FilterKey(topicFilter, client);
              root == Remove(old(root), k.levels, k.group, client).0
    {
      var (group, filter) := ParseShared(topicFilter);
      var segments := Split(filter);
      RemoveRefines(root, rows, segments, group, client);
      var node, isEmpty;
      node, removed, isEmpty := UnsubscribeRecursive(root, client, segments, group);
      root := node;
      rows := rows - {Key(group, segments, client)};
    }

    static method UnsubscribeRecursive(n: Node, client: Text, segments: Levels, group: Option<Text>)
      returns (node: Node, removed: bool, isEmpty: bool)
      ensures (node, removed) == Remove(n, segments, group, client)
      ensures isEmpty == IsEmpty(node)
      decreases segments
    {
      node := n;
      if segments == [] {
        match group
        case Some(g) =>
          removed := false;
          if g in node.shared {
            var list := node.shared[g];
            var rest := Without(list, client);
            removed := |rest| < |list|;
            WithoutAbsentIff(list, client);
            node := node.(shared := node.shared[g := rest]);
            if rest == [] {
              node := node.(shared := node.shared - {g});
              assert node.shared == n.shared - {g};
            }
          }
        case None =>
          removed := client in node.subs;
          node := node.(subs := node.subs - {client});
      } else {
        var child := Child(node, segments[0]);
        removed := false;
        if child.Some? {
          var below, empty;
          below, removed, empty := UnsubscribeRecursive(child.value, client, segments[1..], group);
          node := WithChild(node, segments[0], if empty then None else Some(below));
        }
      }
      isEmpty := IsEmpty(node);
    }

    static lemma WithoutAbsentIff(list: seq<SubInfo>, client: Text)
      ensures |Without(list, client)| < |list| <==> FindClient(list, client).Some?
    {
    }

    /** `TopicRouter::match_topic`: the linear scan of the rows, grouped. */
    method MatchTopic(topic: Text) returns (result: RouteResult)
      requires Valid()
      ensures fresh(result)
      ensures multiset(result.normal) == Found(root, Split(topic), None)
      ensures forall g :: ListOf(result.shared, g) == Members(root, Split(topic), g)
      ensures forall g :: g in result.shared <==> Members(root, Split(topic), g) != []
      ensures forall x :: multiset(result.normal)[x] == |RowsMatching(rows, None, Split(topic), x)|
      ensures forall g, x :: multiset(ListOf(result.shared, g))[x] == |RowsMatching(rows, Some(g), Split(topic), x)|
      ensures forall g :: g in result.shared
                          <==> exists k :: k in rows && k.group == Some(g) && Matches(k.levels, Split(topic))
    {
      result := new RouteResult();
      MatchRecursive(root, Split(topic), result);
      forall x ensures multiset(result.normal)[x] == |RowsMatching(rows, None, Split(topic), x)| {
        FoundIsLinearScan(root, rows, Split(topic), None, x);
      }
      forall g, x ensures multiset(ListOf(result.shared, g))[x] == |RowsMatching(rows, Some(g), Split(topic), x)| {
        assert ListOf(result.shared, g) == Members(root, Split(topic), g);
        MembersAreFound(root, Split(topic), g);
        FoundIsLinearScan(root, rows, Split(topic), Some(g), x);
      }
      forall g ensures Members(root, Split(topic), g) != []
                       <==> exists k :: k in rows && k.group == Some(g) && Matches(k.levels, Split(topic)) {
        GroupTakesPart(root, rows, Split(topic), g);
      }
      forall g ensures g in result.shared <==> Members(root, Split(topic), g) != [] {
        assert ListOf(result.shared, g) == Members(root, Split(topic), g);
      }
    }

    static method MatchRecursive(n: Node, segments: Levels, result: RouteResult)
      requires GoodTrie(n) && result.NoEmptyLists()
      modifies result
      ensures result.NoEmptyLists()
      ensures Grew(old(result.Value()), result.Value(), Found(n, segments, None), g => Members(n, segments, g))
      decreases segments, 1
    {
      ghost var start := result.Value();
      CollectAtHash(n, result);
      ghost var afterHash := result.Value();
      if segments == [] {
        CollectNodeSubscriptions(n, result);
        GrewTwice(start, afterHash, result.Value(), FoundAtHash(n, None), Here(PayloadOf(n), None),
                  g => MembersAtHash(n, g), g => ListOf(n.shared, g), g => Members(n, segments, g));
        return;
      }
      var exact, viaPlus := Lookup(n.children, segments[0]), n.plus;
      MatchChild(exact, segments[1..], result);
      ghost var afterExact := result.Value();
      MatchChild(viaPlus, segments[1..], result);
      GrewTwice(afterHash, afterExact, result.Value(),
                FoundVia(exact, segments[1..], None), FoundVia(viaPlus, segments[1..], None),
                g => MembersVia(exact, segments[1..], g), g => MembersVia(viaPlus, segments[1..], g),
                g => MembersVia(exact, segments[1..], g) + MembersVia(viaPlus, segments[1..], g));
      GrewTwice(start, afterHash, result.Value(), FoundAtHash(n, None),
                FoundVia(exact, segments[1..], None) + FoundVia(viaPlus, segments[1..], None),
                g => MembersAtHash(n, g),
                g => MembersVia(exact, segments[1..], g) + MembersVia(viaPlus, segments[1..], g),
                g => Members(n, segments, g));
    }

    static method CollectAtHash(n: Node, result: RouteResult)
      requires GoodTrie(n) && result.NoEmptyLists()
      modifies result
      ensures result.NoEmptyLists()
      ensures Grew(old(result.Value()), result.Value(), FoundAtHash(n, None), g => MembersAtHash(n, g))
    {
      if n.hash.Some? {
        CollectNodeSubscriptions(n.hash.value, result);
      }
    }

    /** Follows a child, if it exists. */
    static method MatchChild(child: Option<Node>, segments: Levels, result: RouteResult)
      requires child.Some? ==> GoodTrie(child.value)
      requires result.NoEmptyLists()
      modifies result
      ensures result.NoEmptyLists()
      ensures Grew(old(result.Value()), result.Value(),
                   FoundVia(child, segments, None), g => MembersVia(child, segments, g))
      decreases segments, 2
    {
      if child.Some? {
        MatchRecursive(child.value, segments, result);
      }
    }

    static method CollectNodeSubscriptions(n: Node, result: RouteResult)
      requires GoodPayload(PayloadOf(n)) && result.NoEmptyLists()
      modifies result
      ensures result.NoEmptyLists()
      ensures Grew(old(result.Value()), result.Value(), Here(PayloadOf(n), None), g => ListOf(n.shared, g))
    {
      CollectNormal(n, result);
      CollectShared(n, result);
    }

    static method CollectNormal(n: Node, result: RouteResult)
      requires GoodPayload(PayloadOf(n))
      modifies result`normal
      ensures multiset(result.normal) == old(multiset(result.normal)) + multiset(n.subs.Values)
    {
      var pending := n.subs.Keys;
      ghost var done: set<SubInfo> := {};
      while pending != {}
        invariant pending <= n.subs.Keys
        invariant done == set c | c in n.subs.Keys - pending :: n.subs[c]
        invariant multiset(result.normal) == old(multiset(result.normal)) + multiset(done)
        decreases pending
      {
        var c :| c in pending;
        assert n.subs[c] !in done;
        assert (set d | d in n.subs.Keys - (pending - {c}) :: n.subs[d]) == done + {n.subs[c]};
        result.normal := result.normal + [n.subs[c]];
        done := done + {n.subs[c]};
        pending := pending - {c};
      }
      assert done == n.subs.Values;
    }

    static method CollectShared(n: Node, result: RouteResult)
      requires GoodPayload(PayloadOf(n)) && result.NoEmptyLists()
      modifies result`shared
      ensures result.NoEmptyLists()
      ensures forall g :: ListOf(result.shared, g) == ListOf(old(result.shared), g) + ListOf(n.shared, g)
    {
      var groups := n.shared.Keys;
      while groups != {}
        invariant groups <= n.shared.Keys
        invariant result.NoEmptyLists()
        invariant forall g :: ListOf(result.shared, g)
                              == ListOf(old(result.shared), g) + (if g in groups then [] else ListOf(n.shared, g))
        decreases groups
      {
        var group :| group in groups;
        PushAll(group, n.shared[group], result);
        groups := groups - {group};
      }
    }

    static method PushAll(group: Text, list: seq<SubInfo>, result: RouteResult)
      modifies result`shared
      ensures result.shared == old(result.shared)[group := ListOf(old(result.shared), group) + list]
    {
      result.shared := result.shared[group := ListOf(result.shared, group)];
      for i := 0 to |list|
        invariant group in result.shared && result.shared == old(result.shared)[group := result.shared[group]]
        invariant result.shared[group] == ListOf(old(result.shared), group) + list[..i]
      {
        result.shared := result.shared[group := result.shared[group] + [list[i]]];
      }
      assert list[..|list|] == list;
    }
  }

  // ------------------------------------------------------- whole runs of the router

  datatype Op = SubscribeOp(client: Text, filter: Text, qos: byte, subId: Option<u32>)
              | UnsubscribeOp(client: Text, filter: Text)

  function StepTrie(n: Node, op: Op): Node {
    match op
    case SubscribeOp(c, f, q, id) => var k := SubscribedKey(f, c); Insert(n, k.levels, k.group, SubInfo(c, q, id))
    case UnsubscribeOp(c, f) => var k := FilterKey(f, c); Remove(n, k.levels, k.group, c).0
  }

  function StepRows(rows: Rows, op: Op): Rows {
    match op
    case SubscribeOp(c, f, q, id) => rows[SubscribedKey(f, c) := SubInfo(c, q, id)]
    case UnsubscribeOp(c, f) => rows - {FilterKey(f, c)}
  }

  function RunTrie(ops: seq<Op>): Node {
    if ops == [] then EMPTY else StepTrie(RunTrie(ops[..|ops| - 1]), ops[|ops| - 1])
  }

  function RunRows(ops: seq<Op>): Rows {
    if ops == [] then map[] else StepRows(RunRows(ops[..|ops| - 1]), ops[|ops| - 1])
  }

  /** After any run the trie is pruned and holds exactly the rows of the flat table. */
  lemma {:induction false} RunRefines(ops: seq<Op>)
    ensures GoodTrie(RunTrie(ops)) && Represents(RunTrie(ops), RunRows(ops))
  {
    if ops == [] {
      forall k: Key ensures Get(EMPTY, k).None? {
        NothingBelowEmpty(EMPTY, k.levels);
      }
    } else {
      var before := ops[..|ops| - 1];
      RunRefines(before);
      match ops[|ops| - 1]
      case SubscribeOp(c, f, q, id) =>
        var k := SubscribedKey(f, c);
        InsertRefines(RunTrie(before), RunRows(before), k.levels, k.group, SubInfo(c, q, id));
      case UnsubscribeOp(c, f) =>
        var k := FilterKey(f, c);
        RemoveRefines(RunTrie(before), RunRows(before), k.levels, k.group, c);
    }
  }

  /** After any run, matching a topic is a linear scan of the flat table. */
  lemma RunMatchesLikeScan(ops: seq<Op>, topic: Text, group: Option<Text>, x: SubInfo)
    ensures Found(RunTrie(ops), Split(topic), group)[x] == |RowsMatching(RunRows(ops), group, Split(topic), x)|
  {
    RunRefines(ops);
    FoundIsLinearScan(RunTrie(ops), RunRows(ops), Split(topic), group, x);
  }

  /** Two runs that leave the same contents, group order included, leave the same trie. */
  lemma RunsAreCanonical(a: seq<Op>, b: seq<Op>)
    requires SameContents(RunTrie(a), RunTrie(b))
    ensures RunTrie(a) == RunTrie(b)
  {
    RunRefines(a);
    RunRefines(b);
    Canonical(RunTrie(a), RunTrie(b));
  }

  /** After any run, subscribing something absent and unsubscribing it is a no-op exactly if "#" is only last. */
  lemma RunSubscribeUnsubscribe(ops: seq<Op>, client: Text, filter: Text, qos: byte, subId: Option<u32>)
    requires SubscribedKey(filter, client) !in RunRows(ops)
    ensures RunTrie(ops + [SubscribeOp(client, filter, qos, subId), UnsubscribeOp(client, filter)]) == RunTrie(ops)
            <==> HashLast(filter)
  {
    var sub, unsub := SubscribeOp(client, filter, qos, subId), UnsubscribeOp(client, filter);
    var all := ops + [sub, unsub];
    assert all[..|all| - 1] == ops + [sub] && (ops + [sub])[..|ops|] == ops;
    RunRefines(ops);
    var k := FilterKey(filter, client);
    assert Get(RunTrie(ops), SubscribedKey(filter, client)) == Lookup(RunRows(ops), SubscribedKey(filter, client));
    SubscribeThenUnsubscribe(RunTrie(ops), k.levels, k.group, SubInfo(client, qos, subId));
  }
}
