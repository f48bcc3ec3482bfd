/** What a subscription string does to the topics it is found for, read off its bytes. */
module Subscribing {
  import opened Basics
  import opened Topics
  import opened Acl
  import opened Trie
  import opened Matching
  import opened Router

  /** The row that a filter is filed under when a client subscribes to it, and the one that unsubscribing looks for. */
  lemma RowsNamed(filter: Text, group: Option<Text>, proper: Text, client: Text)
    requires AsksFor(filter, group, proper)
    ensures SubscribedKey(filter, client) == Key(group, Truncate(Split(proper)), client)
    ensures FilterKey(filter, client) == Key(group, Split(proper), client)
  {
    ParseSharedExactly(filter, group, proper);
  }

  /** The stored levels of a subscription match exactly the topics that it receives. */
  lemma FiledByWhatItReceives(filter: Text, client: Text, topic: Text)
    ensures Matches(SubscribedKey(filter, client).levels, Split(topic)) <==> Receives(filter, topic)
  {
    TruncatedMatchesAlike(Split(ParseShared(filter).1), Split(topic));
  }

  /** What the flat table holds under a key. */
  function RowAt(rows: Rows, k: Key): multiset<SubInfo> {
    if k in rows then multiset{rows[k]} else multiset{}
  }

  /** A key of this group whose levels match. */
  ghost predicate Reaches(k: Key, topic: Levels, group: Option<Text>) {
    k.group == group && Matches(k.levels, topic)
  }

  lemma CountAfterErase(rows: Rows, k: Key, topic: Levels, group: Option<Text>, x: SubInfo)
    ensures |RowsMatching(rows, group, topic, x)|
            == |RowsMatching(rows - {k}, group, topic, x)| + if Reaches(k, topic, group) then RowAt(rows, k)[x] else 0
  {
    var before, after := RowsMatching(rows, group, topic, x), RowsMatching(rows - {k}, group, topic, x);
    if k in before {
      assert before == after + {k};
    } else {
      assert before == after;
    }
  }

  lemma CountAfterWrite(rows: Rows, k: Key, info: SubInfo, topic: Levels, group: Option<Text>, x: SubInfo)
    requires k !in rows
    ensures |RowsMatching(rows[k := info], group, topic, x)|
            == |RowsMatching(rows, group, topic, x)| + if Reaches(k, topic, group) && info == x then 1 else 0
  {
    CountAfterErase(rows[k := info], k, topic, group, x);
    assert rows[k := info] - {k} == rows;
  }

  lemma ByCounts(before: multiset<SubInfo>, after: multiset<SubInfo>, less: multiset<SubInfo>, more: multiset<SubInfo>)
    requires forall x :: before[x] + more[x] == after[x] + less[x] && less[x] <= before[x]
    ensures after == before - less + more
  {
  }

  /** What a key accounts for: nothing, unless it is of the group and its levels match. */
  ghost function Share(k: Key, topic: Levels, group: Option<Text>, row: multiset<SubInfo>): multiset<SubInfo> {
    if Reaches(k, topic, group) then row else multiset{}
  }

  /** The flat tables' difference at a key is the difference in what is found. */
  ghost predicate Differ(rows: Rows, after: Rows, topic: Levels, group: Option<Text>, less: multiset<SubInfo>,
                         more: multiset<SubInfo>) {
    forall x :: |RowsMatching(rows, group, topic, x)| + more[x] == |RowsMatching(after, group, topic, x)| + less[x]
                && less[x] <= |RowsMatching(rows, group, topic, x)|
  }

  lemma FoundDiffers(a: Node, b: Node, rows: Rows, after: Rows, topic: Levels, group: Option<Text>,
                     less: multiset<SubInfo>, more: multiset<SubInfo>)
    requires GoodTrie(a) && Represents(a, rows) && GoodTrie(b) && Represents(b, after)
    requires Differ(rows, after, topic, group, less, more)
    ensures Found(b, topic, group) == Found(a, topic, group) - less + more
  {
    var found, next := Found(a, topic, group), Found(b, topic, group);
    forall x ensures found[x] + more[x] == next[x] + less[x] && less[x] <= found[x] {
      FoundIsLinearScan(a, rows, topic, group, x);
      FoundIsLinearScan(b, after, topic, group, x);
    }
    ByCounts(found, next, less, more);
  }

  lemma ErasedDiffers(rows: Rows, k: Key, topic: Levels, group: Option<Text>)
    ensures Differ(rows, rows - {k}, topic, group, Share(k, topic, group, RowAt(rows, k)), multiset{})
  {
    forall x ensures |RowsMatching(rows, group, topic, x)| == |RowsMatching(rows - {k}, group, topic, x)|
                                                              + Share(k, topic, group, RowAt(rows, k))[x] {
      CountAfterErase(rows, k, topic, group, x);
    }
  }

  lemma WrittenDiffers(rows: Rows, k: Key, info: SubInfo, topic: Levels, group: Option<Text>)
    ensures Differ(rows, rows[k := info], topic, group,
                   Share(k, topic, group, RowAt(rows, k)), Share(k, topic, group, multiset{info}))
  {
    forall x ensures |RowsMatching(rows, group, topic, x)| == |RowsMatching(rows - {k}, group, topic, x)|
                                                              + Share(k, topic, group, RowAt(rows, k))[x]
             ensures |RowsMatching(rows[k := info], group, topic, x)| == |RowsMatching(rows - {k}, group, topic, x)|
                                                                + Share(k, topic, group, multiset{info})[x] {
      CountAfterErase(rows, k, topic, group, x);
      CountAfterWrite(rows - {k}, k, info, topic, group, x);
      assert (rows - {k})[k := info] == rows[k := info];
    }
  }

  /**
   After any run that ends with a subscription, the client is found with it, in exactly the group the filter asks for
   and for exactly the topics that the filter proper matches, instead of what the client had there before. Nothing
   else is found or missed.
   */
  lemma SubscriberIsFound(ops: seq<Op>, client: Text, filter: Text, qos: byte, subId: Option<u32>,
                          group: Option<Text>, proper: Text, topic: Text, g: Option<Text>)
    requires AsksFor(filter, group, proper)
    ensures var before, after := RunTrie(ops), RunTrie(ops + [SubscribeOp(client, filter, qos, subId)]);
            Found(after, Split(topic), g)
            == if g == group && Matches(Split(proper), Split(topic))
               then Found(before, Split(topic), g) - RowAt(RunRows(ops), Key(group, Truncate(Split(proper)), client))
                    + multiset{SubInfo(client, qos, subId)}
               else Found(before, Split(topic), g)
  {
    var all, info := ops + [SubscribeOp(client, filter, qos, subId)], SubInfo(client, qos, subId);
    var k := Key(group, Truncate(Split(proper)), client);
    assert all[..|all| - 1] == ops;
    RunRefines(ops);
    RunRefines(all);
    RowsNamed(filter, group, proper, client);
    WrittenDiffers(RunRows(ops), k, info, Split(topic), g);
    FoundDiffers(RunTrie(ops), RunTrie(all), RunRows(ops), RunRows(ops)[k := info], Split(topic), g,
                 Share(k, Split(topic), g, RowAt(RunRows(ops), k)), Share(k, Split(topic), g, multiset{info}));
    TruncatedMatchesAlike(Split(proper), Split(topic));
  }

  /** From an empty router: found exactly if the group is the filter's and the filter proper matches. */
  lemma OnlySubscriberIsFound(client: Text, filter: Text, qos: byte, subId: Option<u32>, group: Option<Text>,
                              proper: Text, topic: Text, g: Option<Text>)
    requires AsksFor(filter, group, proper)
    ensures Found(RunTrie([SubscribeOp(client, filter, qos, subId)]), Split(topic), g)
            == if g == group && Matches(Split(proper), Split(topic))
               then multiset{SubInfo(client, qos, subId)} else multiset{}
  {
    SubscriberIsFound([], client, filter, qos, subId, group, proper, topic, g);
    assert [] + [SubscribeOp(client, filter, qos, subId)] == [SubscribeOp(client, filter, qos, subId)];
  }

  /** Unsubscribing takes away what the client had under exactly these levels, and nothing else. */
  lemma UnsubscriberIsNotFound(ops: seq<Op>, client: Text, filter: Text, group: Option<Text>, proper: Text,
                               topic: Text, g: Option<Text>)
    requires AsksFor(filter, group, proper)
    ensures var before, after := RunTrie(ops), RunTrie(ops + [UnsubscribeOp(client, filter)]);
            Found(after, Split(topic), g)
            == if g == group && Matches(Split(proper), Split(topic))
               then Found(before, Split(topic), g) - RowAt(RunRows(ops), Key(group, Split(proper), client))
               else Found(before, Split(topic), g)
  {
    var all := ops + [UnsubscribeOp(client, filter)];
    assert all[..|all| - 1] == ops;
    RunRefines(ops);
    RunRefines(all);
    RowsNamed(filter, group, proper, client);
    var k := Key(group, Split(proper), client);
    ErasedDiffers(RunRows(ops), k, Split(topic), g);
    FoundDiffers(RunTrie(ops), RunTrie(all), RunRows(ops), RunRows(ops) - {k}, Split(topic), g,
                 Share(k, Split(topic), g, RowAt(RunRows(ops), k)), multiset{});
  }

  /** Subscribing to something new and unsubscribing it is a no-op exactly if no level but the last is "#". */
  lemma NoOpExactly(ops: seq<Op>, client: Text, filter: Text, qos: byte, subId: Option<u32>, group: Option<Text>,
                    proper: Text)
    requires AsksFor(filter, group, proper) && Key(group, Truncate(Split(proper)), client) !in RunRows(ops)
    ensures RunTrie(ops + [SubscribeOp(client, filter, qos, subId), UnsubscribeOp(client, filter)]) == RunTrie(ops)
            <==> forall i :: 0 <= i < |Split(proper)| - 1 ==> Split(proper)[i] != [0x23]
  {
    RowsNamed(filter, group, proper, client);
    ParseSharedExactly(filter, group, proper);
    RunSubscribeUnsubscribe(ops, client, filter, qos, subId);
  }
}
