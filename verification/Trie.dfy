/**
 The subscription trie: its nodes, what each router operation does to them, and
 the flat table of subscriptions a trie stands for.
 */
module Trie {
  import opened Basics
  import opened Topics

  datatype SubInfo = SubInfo(client: Text, qos: byte, subId: Option<u32>)

  datatype Node = Node(
    children: map<Text, Node>,
    plus: Option<Node>,
    hash: Option<Node>,
    subs: map<Text, SubInfo>,
    shared: map<Text, seq<SubInfo>>)

  const EMPTY := Node(map[], None, None, map[], map[])

  predicate IsEmpty(n: Node) {
    n.children == map[] && n.plus.None? && n.hash.None? && n.subs == map[] && n.shared == map[]
  }

  /** The child that a filter level leads to. */
  function Child(n: Node, segment: Text): (c: Option<Node>)
    ensures c.Some? ==> c.value < n
  {
    if segment == PLUS then n.plus
    else if segment == HASH then n.hash
    else Lookup(n.children, segment)
  }

  function ChildOrEmpty(n: Node, segment: Text): Node {
    if Child(n, segment).Some? then Child(n, segment).value else EMPTY
  }

  function WithChild(n: Node, segment: Text, child: Option<Node>): (r: Node)
    ensures Child(r, segment) == child
    ensures forall s :: s != segment ==> Child(r, s) == Child(n, s)
    ensures r.subs == n.subs && r.shared == n.shared
  {
    if segment == PLUS then n.(plus := child)
    else if segment == HASH then n.(hash := child)
    else if child.Some? then n.(children := n.children[segment := child.value])
    else n.(children := n.children - {segment})
  }

  // ---------------------------------------------------------------- payloads

  /** The subscriptions stored at one node. */
  datatype Payload = Payload(subs: map<Text, SubInfo>, shared: map<Text, seq<SubInfo>>)

  const NOTHING := Payload(map[], map[])

  function PayloadOf(n: Node): Payload {
    Payload(n.subs, n.shared)
  }

  function WithPayload(n: Node, p: Payload): Node {
    n.(subs := p.subs, shared := p.shared)
  }

  /** `list.retain(|s| s.client_id != client)` */
  function Without(list: seq<SubInfo>, client: Text): (r: seq<SubInfo>)
    ensures forall s :: s in r <==> s in list && s.client != client
    ensures |r| <= |list|
    ensures |r| == |list| <==> forall s :: s in list ==> s.client != client
  {
    if list == [] then []
    else if list[0].client == client then
      assert list[0] in list;
      Without(list[1..], client)
    else
      assert list == [list[0]] + list[1..];
      [list[0]] + Without(list[1..], client)
  }

  function ListOf(shared: map<Text, seq<SubInfo>>, group: Text): seq<SubInfo> {
    if group in shared then shared[group] else []
  }

  function AddTo(p: Payload, group: Option<Text>, info: SubInfo): Payload {
    match group
    case None => p.(subs := p.subs[info.client := info])
    case Some(g) => p.(shared := p.shared[g := Without(ListOf(p.shared, g), info.client) + [info]])
  }

  function RemoveFrom(p: Payload, group: Option<Text>, client: Text): Payload {
    match group
    case None => p.(subs := p.subs - {client})
    case Some(g) =>
      if g !in p.shared then p
      else
        var rest := Without(p.shared[g], client);
        p.(shared := if rest == [] then p.shared - {g} else p.shared[g := rest])
  }

  predicate DistinctClients(list: seq<SubInfo>) {
    forall i, j :: 0 <= i < j < |list| ==> list[i].client != list[j].client
  }

  ghost predicate GoodPayload(p: Payload) {
    && (forall c :: c in p.subs ==> p.subs[c].client == c)
    && (forall g :: g in p.shared ==> p.shared[g] != [] && DistinctClients(p.shared[g]))
  }

  function FindClient(list: seq<SubInfo>, client: Text): (r: Option<SubInfo>)
    ensures r.Some? ==> r.value in list && r.value.client == client
    ensures r.None? ==> forall s :: s in list ==> s.client != client
  {
    if list == [] then None
    else if list[0].client == client then Some(list[0])
    else FindClient(list[1..], client)
  }

  /** The subscription of `client` (in `group`, or unshared) within a payload. */
  function Stored(p: Payload, group: Option<Text>, client: Text): Option<SubInfo> {
    match group
    case None => Lookup(p.subs, client)
    case Some(g) => FindClient(ListOf(p.shared, g), client)
  }

  lemma {:induction false} DistinctWithout(list: seq<SubInfo>, client: Text)
    requires DistinctClients(list)
    ensures DistinctClients(Without(list, client))
  {
    if list != [] {
      DistinctWithout(list[1..], client);
    }
  }

  lemma {:induction false} FindInWithout(list: seq<SubInfo>, client: Text, other: Text)
    ensures FindClient(Without(list, client), other) == if other == client then None else FindClient(list, other)
  {
    if list != [] {
      FindInWithout(list[1..], client, other);
    }
  }

  lemma {:induction false} FindInAppend(a: seq<SubInfo>, b: seq<SubInfo>, client: Text)
    ensures FindClient(a + b, client)
            == if FindClient(a, client).Some? then FindClient(a, client) else FindClient(b, client)
  {
    if a == [] {
      assert a + b == b;
    } else {
      assert (a + b)[1..] == a[1..] + b;
      FindInAppend(a[1..], b, client);
    }
  }

  lemma StoredAfterAdd(p: Payload, group: Option<Text>, info: SubInfo, g: Option<Text>, client: Text)
    requires GoodPayload(p)
    ensures GoodPayload(AddTo(p, group, info))
    ensures Stored(AddTo(p, group, info), g, client)
            == if g == group && client == info.client then Some(info) else Stored(p, g, client)
  {
    if group.Some? {
      ListAfterAdd(ListOf(p.shared, group.value), info, client);
    }
  }

  lemma ListAfterAdd(list: seq<SubInfo>, info: SubInfo, client: Text)
    requires DistinctClients(list)
    ensures DistinctClients(Without(list, info.client) + [info])
    ensures FindClient(Without(list, info.client) + [info], client)
            == if client == info.client then Some(info) else FindClient(list, client)
  {
    DistinctWithout(list, info.client);
    FindInWithout(list, info.client, client);
    FindInAppend(Without(list, info.client), [info], client);
  }

  lemma StoredAfterRemove(p: Payload, group: Option<Text>, client: Text, g: Option<Text>, other: Text)
    requires GoodPayload(p)
    ensures GoodPayload(RemoveFrom(p, group, client))
    ensures Stored(RemoveFrom(p, group, client), g, other)
            == if g == group && other == client then None else Stored(p, g, other)
    ensures Stored(p, group, client).None? ==> RemoveFrom(p, group, client) == p
  {
    if group.Some? && group.value in p.shared {
      var list := p.shared[group.value];
      DistinctWithout(list, client);
      FindInWithout(list, client, other);
      if Stored(p, group, client).None? {
        WithoutAbsent(list, client);
      }
    }
  }

  lemma {:induction false} WithoutAbsent(list: seq<SubInfo>, client: Text)
    requires forall s :: s in list ==> s.client != client
    ensures Without(list, client) == list
  {
    if list != [] {
      WithoutAbsent(list[1..], client);
      assert list == [list[0]] + list[1..];
    }
  }

  // --------------------------------------------------------------- operations

  /** What `subscribe` does below a node, once the levels are cut at the first "#". */
  function Insert(n: Node, levels: Levels, group: Option<Text>, info: SubInfo): Node
    decreases levels
  {
    if levels == [] then WithPayload(n, AddTo(PayloadOf(n), group, info))
    else WithChild(n, levels[0], Some(Insert(ChildOrEmpty(n, levels[0]), levels[1..], group, info)))
  }

  /** What `unsubscribe_recursive` does below a node: the node after pruning, and whether anything was removed. */
  function Remove(n: Node, levels: Levels, group: Option<Text>, client: Text): (Node, bool)
    decreases levels
  {
    if levels == [] then
      (WithPayload(n, RemoveFrom(PayloadOf(n), group, client)), Stored(PayloadOf(n), group, client).Some?)
    else if Child(n, levels[0]).None? then (n, false)
    else
      var (child, removed) := Remove(Child(n, levels[0]).value, levels[1..], group, client);
      (WithChild(n, levels[0], if IsEmpty(child) then None else Some(child)), removed)
  }

  /** The payload stored under a path of filter levels. */
  function At(n: Node, levels: Levels): Payload
    decreases levels
  {
    if levels == [] then PayloadOf(n)
    else if Child(n, levels[0]).None? then NOTHING
    else At(Child(n, levels[0]).value, levels[1..])
  }

  // ---------------------------------------------------------------- invariant

  /** Pruned, wildcards only in their own slots, "#" nodes are leaves, good payloads everywhere. */
  ghost predicate GoodTrie(n: Node) {
    && PLUS !in n.children && HASH !in n.children
    && GoodPayload(PayloadOf(n))
    && (forall s :: s in n.children ==> GoodTrie(n.children[s]) && !IsEmpty(n.children[s]))
    && (n.plus.Some? ==> GoodTrie(n.plus.value) && !IsEmpty(n.plus.value))
    && (n.hash.Some? ==> GoodTrie(n.hash.value) && !IsEmpty(n.hash.value) && IsLeaf(n.hash.value))
  }

  predicate IsLeaf(n: Node) {
    n.children == map[] && n.plus.None? && n.hash.None?
  }

  /** The same invariant, one child at a time. */
  ghost predicate GoodChild(segment: Text, child: Option<Node>) {
    child.Some? ==> GoodTrie(child.value) && !IsEmpty(child.value) && (segment == HASH ==> IsLeaf(child.value))
  }

  lemma GoodTrieChild(n: Node, segment: Text)
    requires GoodTrie(n)
    ensures GoodChild(segment, Child(n, segment))
  {
  }

  lemma GoodTrieWithChild(n: Node, segment: Text, child: Option<Node>)
    requires GoodTrie(n) && GoodChild(segment, child)
    ensures GoodTrie(WithChild(n, segment, child))
  {
    var r := WithChild(n, segment, child);
    forall s | s in r.children ensures GoodTrie(r.children[s]) && !IsEmpty(r.children[s]) {
      assert s == segment || (s in n.children && r.children[s] == n.children[s]);
    }
  }

  lemma {:induction false} InsertGoodTrie(n: Node, levels: Levels, group: Option<Text>, info: SubInfo)
    requires GoodTrie(n) && HashOnlyLast(levels)
    ensures GoodTrie(Insert(n, levels, group, info)) && !IsEmpty(Insert(n, levels, group, info))
    ensures levels == [] && IsLeaf(n) ==> IsLeaf(Insert(n, levels, group, info))
    decreases levels
  {
    if levels == [] {
      StoredAfterAdd(PayloadOf(n), group, info, group, info.client);
    } else {
      var s := levels[0];
      var c := ChildOrEmpty(n, s);
      GoodTrieChild(n, s);
      assert HashOnlyLast(levels[1..]) by {
        assert forall i :: 0 <= i < |levels| - 2 ==> levels[1..][i] == levels[i + 1];
      }
      assert GoodTrie(EMPTY);
      InsertGoodTrie(c, levels[1..], group, info);
      GoodTrieWithChild(n, s, Some(Insert(c, levels[1..], group, info)));
      assert Child(Insert(n, levels, group, info), s).Some?;
    }
  }

  lemma {:induction false} RemoveGoodTrie(n: Node, levels: Levels, group: Option<Text>, client: Text)
    requires GoodTrie(n)
    ensures GoodTrie(Remove(n, levels, group, client).0)
    ensures IsLeaf(n) ==> IsLeaf(Remove(n, levels, group, client).0)
    decreases levels
  {
    if levels == [] {
      StoredAfterRemove(PayloadOf(n), group, client, group, client);
    } else if Child(n, levels[0]).Some? {
      var s := levels[0];
      var c := Child(n, s).value;
      GoodTrieChild(n, s);
      RemoveGoodTrie(c, levels[1..], group, client);
      var c' := Remove(c, levels[1..], group, client).0;
      GoodTrieWithChild(n, s, if IsEmpty(c') then None else Some(c'));
    }
  }

  lemma {:induction false} NothingBelowEmpty(n: Node, levels: Levels)
    requires IsEmpty(n)
    ensures At(n, levels) == NOTHING
  {
  }

  lemma {:induction false} InsertAt(n: Node, levels: Levels, group: Option<Text>, info: SubInfo, path: Levels)
    ensures At(Insert(n, levels, group, info), path)
            == if path == levels then AddTo(At(n, path), group, info) else At(n, path)
    decreases levels
  {
    if levels != [] && path != [] {
      var s := levels[0];
      if path[0] == s {
        InsertAt(ChildOrEmpty(n, s), levels[1..], group, info, path[1..]);
        NothingBelowEmpty(EMPTY, path[1..]);
        assert path == levels <==> path[1..] == levels[1..] by {
          assert path == [s] + path[1..] && levels == [s] + levels[1..];
        }
      }
    }
  }

  lemma {:induction false} RemoveAt(n: Node, levels: Levels, group: Option<Text>, client: Text, path: Levels)
    ensures At(Remove(n, levels, group, client).0, path)
            == if path == levels then RemoveFrom(At(n, path), group, client) else At(n, path)
    ensures Remove(n, levels, group, client).1 == Stored(At(n, levels), group, client).Some?
    decreases levels
  {
    if levels != [] {
      var s := levels[0];
      if Child(n, s).None? {
        assert RemoveFrom(NOTHING, group, client) == NOTHING;
        assert Stored(NOTHING, group, client).None?;
      } else {
        var c := Child(n, s).value;
        var c' := Remove(c, levels[1..], group, client).0;
        if path != [] && path[0] == s {
          RemoveAt(c, levels[1..], group, client, path[1..]);
          if IsEmpty(c') {
            NothingBelowEmpty(c', path[1..]);
          }
          assert path == levels <==> path[1..] == levels[1..] by {
            assert path == [s] + path[1..] && levels == [s] + levels[1..];
          }
        } else {
          RemoveAt(c, levels[1..], group, client, levels[1..]);
        }
      }
    }
  }

  // --------------------------------------------------------------- flat table

  datatype Key = Key(group: Option<Text>, levels: Levels, client: Text)

  /** The flat table of subscriptions. */
  type Rows = map<Key, SubInfo>

  function Get(n: Node, k: Key): Option<SubInfo> {
    Stored(At(n, k.levels), k.group, k.client)
  }

  /** The trie holds exactly the rows of the table. */
  ghost predicate Represents(n: Node, rows: Rows) {
    forall k: Key :: Get(n, k) == Lookup(rows, k)
  }

  lemma {:induction false} GoodPayloadAt(n: Node, levels: Levels)
    requires GoodTrie(n)
    ensures GoodPayload(At(n, levels))
    decreases levels
  {
    if levels != [] && Child(n, levels[0]).Some? {
      GoodTrieChild(n, levels[0]);
      GoodPayloadAt(Child(n, levels[0]).value, levels[1..]);
    }
  }

  /** Subscribing writes one row. */
  lemma InsertRefines(n: Node, rows: Rows, levels: Levels, group: Option<Text>, info: SubInfo)
    requires GoodTrie(n) && Represents(n, rows) && HashOnlyLast(levels)
    ensures GoodTrie(Insert(n, levels, group, info))
    ensures Represents(Insert(n, levels, group, info), rows[Key(group, levels, info.client) := info])
  {
    InsertGoodTrie(n, levels, group, info);
    forall k: Key ensures Get(Insert(n, levels, group, info), k)
                          == Lookup(rows[Key(group, levels, info.client) := info], k) {
      InsertAt(n, levels, group, info, k.levels);
      GoodPayloadAt(n, k.levels);
      StoredAfterAdd(At(n, k.levels), group, info, k.group, k.client);
      assert Get(n, k) == Lookup(rows, k);
    }
  }

  lemma GetAfterRemove(n: Node, levels: Levels, group: Option<Text>, client: Text, k: Key)
    requires GoodTrie(n)
    ensures Get(Remove(n, levels, group, client).0, k) == if k == Key(group, levels, client) then None else Get(n, k)
  {
    RemoveAt(n, levels, group, client, k.levels);
    GoodPayloadAt(n, k.levels);
    StoredAfterRemove(At(n, k.levels), group, client, k.group, k.client);
  }

  /** Unsubscribing deletes one row, reports whether it was there, and touches no other. */
  lemma RemoveRefines(n: Node, rows: Rows, levels: Levels, group: Option<Text>, client: Text)
    requires GoodTrie(n) && Represents(n, rows)
    ensures GoodTrie(Remove(n, levels, group, client).0)
    ensures Represents(Remove(n, levels, group, client).0, rows - {Key(group, levels, client)})
    ensures Remove(n, levels, group, client).1 == (Key(group, levels, client) in rows)
  {
    RemoveGoodTrie(n, levels, group, client);
    RemoveAt(n, levels, group, client, levels);
    assert Get(n, Key(group, levels, client)) == Lookup(rows, Key(group, levels, client));
    forall k: Key ensures Get(Remove(n, levels, group, client).0, k) == Lookup(rows - {Key(group, levels, client)}, k) {
      GetAfterRemove(n, levels, group, client, k);
      assert Get(n, k) == Lookup(rows, k);
    }
  }

  // ---------------------------------------------------------------- canonicity

  /** A pruned, non-empty trie stores something somewhere. */
  lemma {:induction false} StoredSomewhere(n: Node) returns (levels: Levels)
    requires GoodTrie(n) && !IsEmpty(n)
    ensures At(n, levels) != NOTHING
    decreases n
  {
    if PayloadOf(n) != NOTHING {
      levels := [];
    } else {
      var s;
      if n.plus.Some? { s := PLUS; }
      else if n.hash.Some? { s := HASH; }
      else { s :| s in n.children; }
      var below := StoredSomewhere(Child(n, s).value);
      levels := [s] + below;
      assert levels[1..] == below;
    }
  }

  ghost predicate SameContents(a: Node, b: Node) {
    forall levels: Levels :: At(a, levels) == At(b, levels)
  }

  lemma SameContentsBelow(a: Node, b: Node, s: Text)
    requires GoodTrie(a) && GoodTrie(b) && SameContents(a, b)
    ensures Child(a, s).Some? <==> Child(b, s).Some?
    ensures Child(a, s).Some? ==> SameContents(Child(a, s).value, Child(b, s).value)
  {
    GoodTrieChild(a, s);
    GoodTrieChild(b, s);
    forall levels: Levels
      ensures (if Child(a, s).Some? then At(Child(a, s).value, levels) else NOTHING)
              == (if Child(b, s).Some? then At(Child(b, s).value, levels) else NOTHING) {
      var path := [s] + levels;
      assert path[1..] == levels;
      assert At(a, path) == At(b, path);
    }
    if Child(a, s).Some? && Child(b, s).None? {
      var levels := StoredSomewhere(Child(a, s).value);
    }
    if Child(b, s).Some? && Child(a, s).None? {
      var levels := StoredSomewhere(Child(b, s).value);
    }
  }

  /** Canonical form: two pruned tries with the same contents are the same trie. */
  lemma {:induction false} Canonical(a: Node, b: Node)
    requires GoodTrie(a) && GoodTrie(b) && SameContents(a, b)
    ensures a == b
    decreases a
  {
    assert At(a, []) == At(b, []);
    forall s: Text ensures Child(a, s) == Child(b, s) {
      SameContentsBelow(a, b, s);
      if Child(a, s).Some? {
        GoodTrieChild(a, s);
        GoodTrieChild(b, s);
        Canonical(Child(a, s).value, Child(b, s).value);
      }
    }
    assert Child(a, PLUS) == Child(b, PLUS) && Child(a, HASH) == Child(b, HASH);
    forall s: Text ensures Lookup(a.children, s) == Lookup(b.children, s) {
      assert Child(a, s) == Child(b, s);
    }
    MapEqualByLookup(a.children, b.children);
  }

  /** Subscribing something absent and unsubscribing it again restores the trie, exactly when "#" is only last. */
  lemma SubscribeThenUnsubscribe(n: Node, levels: Levels, group: Option<Text>, info: SubInfo)
    requires GoodTrie(n) && levels != []
    requires Get(n, Key(group, Truncate(levels), info.client)).None?
    ensures var after := Remove(Insert(n, Truncate(levels), group, info), levels, group, info.client);
            && (after.0 == n <==> HashOnlyLast(levels))
            && (after.1 <==> HashOnlyLast(levels))
  {
    var cut := Truncate(levels);
    var mid := Insert(n, cut, group, info);
    var after := Remove(mid, levels, group, info.client);
    InsertGoodTrie(n, cut, group, info);
    RemoveGoodTrie(mid, levels, group, info.client);
    RemoveAt(mid, levels, group, info.client, levels);
    InsertAt(n, cut, group, info, levels);
    InsertAt(n, cut, group, info, cut);
    RemoveAt(mid, levels, group, info.client, cut);
    GoodPayloadAt(n, cut);
    StoredAfterAdd(At(n, cut), group, info, group, info.client);
    if HashOnlyLast(levels) {
      AddThenRemove(At(n, cut), group, info);
      forall path: Levels ensures At(after.0, path) == At(n, path) {
        InsertAt(n, cut, group, info, path);
        RemoveAt(mid, levels, group, info.client, path);
      }
      Canonical(after.0, n);
    } else {
      assert Get(after.0, Key(group, cut, info.client)) == Some(info);
      NothingPastHash(n, levels);
    }
  }

  lemma AddThenRemove(p: Payload, group: Option<Text>, info: SubInfo)
    requires GoodPayload(p) && Stored(p, group, info.client).None?
    ensures RemoveFrom(AddTo(p, group, info), group, info.client) == p
  {
    match group
    case None =>
      assert p.subs[info.client := info] - {info.client} == p.subs;
    case Some(g) =>
      var list := ListOf(p.shared, g);
      WithoutAbsent(list, info.client);
      WithoutAppended(list, info);
      if g in p.shared {
        assert p.shared[g := list + [info]][g := list] == p.shared;
      } else {
        assert p.shared[g := list + [info]] - {g} == p.shared;
      }
  }

  lemma {:induction false} WithoutAppended(list: seq<SubInfo>, info: SubInfo)
    requires forall s :: s in list ==> s.client != info.client
    ensures Without(list + [info], info.client) == list
  {
    if list == [] {
      assert list + [info] == [info];
    } else {
      var all := list + [info];
      assert all[1..] == list[1..] + [info] && all[0] == list[0];
      assert list[0] in list;
      WithoutAppended(list[1..], info);
      assert Without(all, info.client) == [list[0]] + Without(all[1..], info.client);
      assert list == [list[0]] + list[1..];
    }
  }

  /** Nothing is ever stored beyond a "#". */
  lemma {:induction false} NothingPastHash(n: Node, levels: Levels)
    requires GoodTrie(n) && !HashOnlyLast(levels)
    ensures At(n, levels) == NOTHING
    decreases levels
  {
    var s := levels[0];
    if Child(n, s).Some? {
      GoodTrieChild(n, s);
      if s == HASH {
        assert levels[1..] != [];
      } else {
        assert !HashOnlyLast(levels[1..]) by {
          var i :| 0 <= i < |levels| - 1 && levels[i] == HASH;
          assert levels[1..][i - 1] == HASH;
        }
        NothingPastHash(Child(n, s).value, levels[1..]);
      }
    }
  }
}
