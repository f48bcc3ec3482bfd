/** The SQLite tables as keyed maps, and the boot-time replay of the subscriptions table. */
module Persistence {
  import opened Basics
  import opened Topics
  import opened Trie
  import opened Matching
  import opened Router
  import Session

  type SessionRow = Session.SessionRow

  datatype SubKey = SubKey(client: Text, filter: Text)
  datatype SubRow = SubRow(qos: byte, subId: Option<u32>)
  datatype FlightKey = FlightKey(client: Text, packetId: u16)
  datatype FlightRow = FlightRow(topic: Text, payload: Bytes, qos: byte)

  type SubTable = map<SubKey, SubRow>
  type Flights = map<FlightKey, FlightRow>

  function WithoutClient(table: SubTable, client: Text): SubTable {
    map k | k in table && k.client != client :: table[k]
  }

  function WithoutFlights(table: Flights, client: Text): Flights {
    map k | k in table && k.client != client :: table[k]
  }

  /** The rows of a table, each once, in some order. */
  ghost predicate Lists<K, V>(rows: seq<(K, V)>, table: map<K, V>) {
    && (forall i :: 0 <= i < |rows| ==> rows[i].0 in table && table[rows[i].0] == rows[i].1)
    && (forall i, j :: 0 <= i < j < |rows| ==> rows[i].0 != rows[j].0)
    && (forall k :: k in table ==> Listed(rows, k))
  }

  ghost predicate Listed<K, V>(rows: seq<(K, V)>, k: K) {
    exists i :: 0 <= i < |rows| && rows[i].0 == k
  }

  lemma ListedMore<K, V>(rows: seq<(K, V)>, row: (K, V), k: K)
    ensures Listed(rows + [row], k) <==> Listed(rows, k) || k == row.0
  {
    var all := rows + [row];
    if k == row.0 { assert all[|rows|].0 == k; }
    if Listed(rows, k) {
      var i :| 0 <= i < |rows| && rows[i].0 == k;
      assert all[i].0 == k;
    }
  }

  /** `SELECT ... FROM table`: the order is the database's choice. */
  method SelectAll<K(==, !new), V>(table: map<K, V>) returns (rows: seq<(K, V)>)
    ensures Lists(rows, table)
  {
    rows := [];
    var pending := table.Keys;
    while pending != {}
      invariant pending <= table.Keys
      invariant forall i :: 0 <= i < |rows| ==> rows[i].0 in table.Keys - pending && table[rows[i].0] == rows[i].1
      invariant forall i, j :: 0 <= i < j < |rows| ==> rows[i].0 != rows[j].0
      invariant forall k :: k in table.Keys - pending ==> Listed(rows, k)
      decreases pending
    {
      var k :| k in pending;
      forall x ensures Listed(rows + [(k, table[k])], x) <==> Listed(rows, x) || x == k {
        ListedMore(rows, (k, table[k]), x);
      }
      rows := rows + [(k, table[k])];
      pending := pending - {k};
    }
  }

  class Database {
    var sessions: map<Text, SessionRow>
    var subscriptions: SubTable
    var inFlight: Flights

    constructor ()
      ensures sessions == map[] && subscriptions == map[] && inFlight == map[]
    {
      sessions, subscriptions, inFlight := map[], map[], map[];
    }

    method SaveSession(client: Text, username: Option<Text>, cleanStart: bool, expiry: u32)
      modifies `sessions
      ensures sessions == old(sessions)[client := Session.SessionRow(username, cleanStart, expiry)]
    {
      sessions := sessions[client := Session.SessionRow(username, cleanStart, expiry)];
    }

    /** `delete_session`: the client's rows go from all three tables, and no other client's do. */
    method DeleteSession(client: Text)
      modifies this
      ensures sessions == old(sessions) - {client}
      ensures subscriptions == WithoutClient(old(subscriptions), client)
      ensures inFlight == WithoutFlights(old(inFlight), client)
    {
      sessions := sessions - {client};
      subscriptions := WithoutClient(subscriptions, client);
      inFlight := WithoutFlights(inFlight, client);
    }

    method SaveSubscription(client: Text, filter: Text, qos: byte, subId: Option<u32>)
      modifies `subscriptions
      ensures subscriptions == old(subscriptions)[SubKey(client, filter) := SubRow(qos, subId)]
    {
      subscriptions := subscriptions[SubKey(client, filter) := SubRow(qos, subId)];
    }

    method DeleteSubscription(client: Text, filter: Text)
      modifies `subscriptions
      ensures subscriptions == old(subscriptions) - {SubKey(client, filter)}
    {
      subscriptions := subscriptions - {SubKey(client, filter)};
    }

    method SaveInFlight(client: Text, packetId: u16, topic: Text, payload: Bytes, qos: byte)
      modifies `inFlight
      ensures inFlight == old(inFlight)[FlightKey(client, packetId) := FlightRow(topic, payload, qos)]
    {
      inFlight := inFlight[FlightKey(client, packetId) := FlightRow(topic, payload, qos)];
    }

    method DeleteInFlight(client: Text, packetId: u16)
      modifies `inFlight
      ensures inFlight == old(inFlight) - {FlightKey(client, packetId)}
    {
      inFlight := inFlight - {FlightKey(client, packetId)};
    }
  }

  // ------------------------------------------------- the table alongside the router

  /** Every subscribe writes its row, an unsubscribe deletes it if the router had it. */
  function StepTable(table: SubTable, rows: Rows, op: Op): SubTable {
    match op
    case SubscribeOp(c, f, q, id) => table[SubKey(c, f) := SubRow(q, id)]
    case UnsubscribeOp(c, f) => if FilterKey(f, c) in rows then table - {SubKey(c, f)} else table
  }

  /** The subscriptions table after a run. */
  function RunTable(ops: seq<Op>): SubTable {
    if ops == [] then map[]
    else StepTable(RunTable(ops[..|ops| - 1]), RunRows(ops[..|ops| - 1]), ops[|ops| - 1])
  }

  function OpFor(row: (SubKey, SubRow)): Op {
    SubscribeOp(row.0.client, row.0.filter, row.1.qos, row.1.subId)
  }

  /** `restore_sessions_from_db`: one subscribe for each row, in the order the rows come. */
  function Replay(rows: seq<(SubKey, SubRow)>): seq<Op> {
    seq(|rows|, i requires 0 <= i < |rows| => OpFor(rows[i]))
  }

  lemma ReplayInit(rows: seq<(SubKey, SubRow)>)
    requires rows != []
    ensures Replay(rows)[..|rows| - 1] == Replay(rows[..|rows| - 1])
    ensures Replay(rows)[|rows| - 1] == OpFor(rows[|rows| - 1])
  {
  }

  /** The router is what replaying these rows, which are the table's, makes it. */
  ghost predicate HoldsReplay(router: TopicRouter, table: SubTable, rows: seq<(SubKey, SubRow)>)
    reads router
  {
    Lists(rows, table) && router.root == RunTrie(Replay(rows)) && router.rows == RunRows(Replay(rows))
  }

  /** The loop of the replay, on a fresh router. */
  method Restore(db: Database, router: TopicRouter) returns (rows: seq<(SubKey, SubRow)>)
    requires router.Valid() && router.root == EMPTY && router.rows == map[]
    modifies router
    ensures router.Valid()
    ensures HoldsReplay(router, db.subscriptions, rows)
  {
    rows := SelectAll(db.subscriptions);
    for i := 0 to |rows|
      invariant router.Valid()
      invariant router.root == RunTrie(Replay(rows[..i])) && router.rows == RunRows(Replay(rows[..i]))
    {
      ReplayInit(rows[..i + 1]);
      assert rows[..i + 1][..i] == rows[..i];
      var (key, row) := rows[i];
      router.Subscribe(key.client, key.filter, row.qos, row.subId);
    }
    assert rows[..|rows|] == rows;
  }

  // --------------------------------------------- what the table says of the router

  function InfoOf(k: SubKey, row: SubRow): SubInfo {
    SubInfo(k.client, row.qos, row.subId)
  }

  ghost predicate AllHashLast(ops: seq<Op>) {
    forall i :: 0 <= i < |ops| ==> HashLast(ops[i].filter)
  }

  /** The key that the router files a table row under. */
  function RouterKey(k: SubKey): Key {
    SubscribedKey(k.filter, k.client)
  }

  /** Each table row is the router's row under the key it subscribes to, and the router has no other rows. */
  ghost predicate Replayed(table: SubTable, rows: Rows) {
    (forall k :: k in table ==> ReplayHolds(table, rows, k)) && forall r :: r in rows ==> Accounted(table, r)
  }

  ghost predicate Accounted(table: SubTable, r: Key) {
    exists k :: k in table && RouterKey(k) == r
  }

  ghost predicate ReplayHolds(table: SubTable, rows: Rows, k: SubKey)
    requires k in table
  {
    Lookup(rows, RouterKey(k)) == Some(InfoOf(k, table[k]))
  }

  lemma KeyIsRecoverable(a: SubKey, b: SubKey)
    requires FilterKey(a.filter, a.client) == FilterKey(b.filter, b.client)
    ensures a == b
  {
    FilterIsRecoverable(a.filter, b.filter);
  }

  lemma HashLastKeys(filter: Text, client: Text)
    ensures SubscribedKey(filter, client) == FilterKey(filter, client) <==> HashLast(filter)
  {
  }

  lemma KeysDiffer(a: SubKey, b: SubKey)
    requires HashLast(a.filter) && HashLast(b.filter)
    ensures RouterKey(a) == RouterKey(b) <==> a == b
  {
    HashLastKeys(a.filter, a.client);
    HashLastKeys(b.filter, b.client);
    if FilterKey(a.filter, a.client) == FilterKey(b.filter, b.client) { KeyIsRecoverable(a, b); }
  }

  // ------------------------------------- when the table accounts for the router, over runs

  ghost predicate AloneUnder(table: SubTable, k: SubKey) {
    forall x :: x in table && x != k ==> RouterKey(x) != RouterKey(k)
  }

  /**
   A subscribe meets no other row of its key with other contents; an unsubscribe that removes something leaves
   no other row under that key.
   */
  ghost predicate KeepsOrder(table: SubTable, rows: Rows, op: Op) {
    match op
    case SubscribeOp(c, f, q, id) =>
      forall k :: k in table && k != SubKey(c, f) && RouterKey(k) == SubscribedKey(f, c) ==> table[k] == SubRow(q, id)
    case UnsubscribeOp(c, f) =>
      FilterKey(f, c) in rows ==> AloneUnder(table, SubKey(c, f))
  }

  lemma SubscribeHolds(table: SubTable, rows: Rows, k: SubKey, row: SubRow, x: SubKey)
    requires Replayed(table, rows) && x in table && x != k
    ensures ReplayHolds(table[k := row], rows[RouterKey(k) := InfoOf(k, row)], x)
            <==> (RouterKey(x) == RouterKey(k) ==> table[x] == row)
  {
    assert ReplayHolds(table, rows, x);
  }

  lemma SubscribeAccounts(table: SubTable, rows: Rows, k: SubKey, row: SubRow, r: Key)
    requires Replayed(table, rows) && (r == RouterKey(k) || r in rows)
    ensures Accounted(table[k := row], r)
  {
    if r == RouterKey(k) {
      assert k in table[k := row];
    } else {
      var x :| x in table && RouterKey(x) == r;
      assert x in table[k := row];
    }
  }

  lemma SubscribeReplays(table: SubTable, rows: Rows, k: SubKey, row: SubRow)
    requires Replayed(table, rows)
    ensures Replayed(table[k := row], rows[RouterKey(k) := InfoOf(k, row)])
            <==> forall x :: x in table && x != k && RouterKey(x) == RouterKey(k) ==> table[x] == row
  {
    var table', rows' := table[k := row], rows[RouterKey(k) := InfoOf(k, row)];
    forall x | x in table && x != k
      ensures ReplayHolds(table', rows', x) <==> (RouterKey(x) == RouterKey(k) ==> table[x] == row)
    {
      SubscribeHolds(table, rows, k, row, x);
    }
    forall r | r in rows' ensures Accounted(table', r) {
      SubscribeAccounts(table, rows, k, row, r);
    }
    assert ReplayHolds(table', rows', k);
  }

  /** A key the router holds has "#" only last, so the filter that names it is subscribed under it. */
  lemma HeldKey(table: SubTable, rows: Rows, filter: Text, client: Text)
    requires Replayed(table, rows) && FilterKey(filter, client) in rows
    ensures SubscribedKey(filter, client) == FilterKey(filter, client)
  {
    var k :| k in table && RouterKey(k) == FilterKey(filter, client);
  }

  lemma UnsubscribeHolds(table: SubTable, rows: Rows, k: SubKey, x: SubKey)
    requires Replayed(table, rows) && x in table && x != k
    ensures ReplayHolds(table - {k}, rows - {RouterKey(k)}, x) <==> RouterKey(x) != RouterKey(k)
  {
    assert ReplayHolds(table, rows, x);
  }

  lemma UnsubscribeAccounts(table: SubTable, rows: Rows, k: SubKey, r: Key)
    requires Replayed(table, rows) && r in rows && r != RouterKey(k)
    ensures Accounted(table - {k}, r)
  {
    var x :| x in table && RouterKey(x) == r;
    assert x in table - {k};
  }

  lemma UnsubscribeReplays(table: SubTable, rows: Rows, k: SubKey)
    requires Replayed(table, rows) && RouterKey(k) in rows
    ensures Replayed(table - {k}, rows - {RouterKey(k)}) <==> AloneUnder(table, k)
  {
    var table', rows' := table - {k}, rows - {RouterKey(k)};
    if AloneUnder(table, k) {
      forall x | x in table' ensures ReplayHolds(table', rows', x) {
        UnsubscribeHolds(table, rows, k, x);
      }
      forall r | r in rows' ensures Accounted(table', r) {
        UnsubscribeAccounts(table, rows, k, r);
      }
    }
    if Replayed(table', rows') {
      forall x | x in table && x != k ensures RouterKey(x) != RouterKey(k) {
        assert x in table' && ReplayHolds(table', rows', x);
        UnsubscribeHolds(table, rows, k, x);
      }
    }
  }

  lemma StepReplays(table: SubTable, rows: Rows, op: Op)
    requires Replayed(table, rows)
    ensures Replayed(StepTable(table, rows, op), StepRows(rows, op)) <==> KeepsOrder(table, rows, op)
  {
    match op
    case SubscribeOp(c, f, q, id) =>
      SubscribeReplays(table, rows, SubKey(c, f), SubRow(q, id));
    case UnsubscribeOp(c, f) =>
      if FilterKey(f, c) in rows {
        HeldKey(table, rows, f, c);
        UnsubscribeReplays(table, rows, SubKey(c, f));
      } else {
        assert rows - {FilterKey(f, c)} == rows;
      }
  }

  ghost predicate Orderly(ops: seq<Op>) {
    ops == []
    || (Orderly(ops[..|ops| - 1]) && KeepsOrder(RunTable(ops[..|ops| - 1]), RunRows(ops[..|ops| - 1]), ops[|ops| - 1]))
  }

  /** After every operation of the run, the table accounts for the router. */
  ghost predicate ReplayedThroughout(ops: seq<Op>) {
    Replayed(RunTable(ops), RunRows(ops)) && (ops == [] || ReplayedThroughout(ops[..|ops| - 1]))
  }

  lemma {:induction false} ReplayedExactlyWhenOrderly(ops: seq<Op>)
    ensures ReplayedThroughout(ops) <==> Orderly(ops)
  {
    if ops != [] {
      var before := ops[..|ops| - 1];
      ReplayedExactlyWhenOrderly(before);
      if Orderly(before) {
        StepReplays(RunTable(before), RunRows(before), ops[|ops| - 1]);
      }
    }
  }

  lemma {:induction false} TableFilters(ops: seq<Op>)
    requires AllHashLast(ops)
    ensures forall k :: k in RunTable(ops) ==> HashLast(k.filter)
  {
    if ops != [] {
      assert HashLast(ops[|ops| - 1].filter);
      TableFilters(ops[..|ops| - 1]);
    }
  }

  /** With "#" only last in every filter, no two rows share a key, so the run is orderly. */
  lemma {:induction false} HashLastIsOrderly(ops: seq<Op>)
    requires AllHashLast(ops)
    ensures Orderly(ops)
  {
    if ops != [] {
      var before, op := ops[..|ops| - 1], ops[|ops| - 1];
      HashLastIsOrderly(before);
      TableFilters(before);
      assert HashLast(op.filter);
      HashLastKeys(op.filter, op.client);
      var own := SubKey(op.client, op.filter);
      forall k | k in RunTable(before) ensures RouterKey(k) == RouterKey(own) <==> k == own {
        KeysDiffer(k, own);
      }
    }
  }

  // -------------------------------------------------------------------- replaying

  lemma ListsInit<K, V>(rows: seq<(K, V)>, table: map<K, V>)
    requires Lists(rows, table) && rows != []
    ensures Lists(rows[..|rows| - 1], table - {rows[|rows| - 1].0})
  {
    var init, last := rows[..|rows| - 1], rows[|rows| - 1];
    assert rows == init + [last];
    forall k | k in table - {last.0} ensures Listed(init, k) {
      ListedMore(init, last, k);
    }
  }

  /** Two table rows that the router files under one key, with different contents. */
  ghost predicate Clash(table: SubTable, a: SubKey, b: SubKey) {
    a in table && b in table && RouterKey(a) == RouterKey(b) && table[a] != table[b]
  }

  lemma ReplayOne(table: SubTable, rows: Rows, last: SubKey)
    requires last in table && Replayed(table - {last}, rows) && forall a, b :: !Clash(table, a, b)
    ensures Replayed(table, rows[RouterKey(last) := InfoOf(last, table[last])])
  {
    var key := RouterKey(last);
    var rows' := rows[key := InfoOf(last, table[last])];
    forall k | k in table ensures ReplayHolds(table, rows', k) {
      assert !Clash(table, k, last);
      if k != last {
        assert k in table - {last} && ReplayHolds(table - {last}, rows, k);
        assert RouterKey(k) == key ==> k.client == last.client;
      }
    }
    forall r | r in rows' ensures Accounted(table, r) {
      if r == key {
        assert last in table;
      } else {
        var k :| k in table - {last} && RouterKey(k) == r;
        assert k in table;
      }
    }
  }

  lemma ReplayLast(rows: seq<(SubKey, SubRow)>, table: SubTable)
    requires Lists(rows, table) && rows != []
    ensures var last := rows[|rows| - 1].0;
            RunRows(Replay(rows)) == RunRows(Replay(rows[..|rows| - 1]))[RouterKey(last) := InfoOf(last, table[last])]
  {
    ReplayInit(rows);
  }

  lemma NoClashLess(table: SubTable, last: SubKey)
    requires forall a, b :: !Clash(table, a, b)
    ensures forall a, b :: !Clash(table - {last}, a, b)
  {
    forall a, b ensures !Clash(table - {last}, a, b) {
      assert !Clash(table, a, b);
    }
  }

  lemma {:induction false} ReplayedRows(rows: seq<(SubKey, SubRow)>, table: SubTable)
    requires Lists(rows, table) && forall a, b :: !Clash(table, a, b)
    ensures Replayed(table, RunRows(Replay(rows)))
    decreases |rows|
  {
    if rows == [] {
      assert forall k :: k in table ==> Listed(rows, k);
    } else {
      var last := rows[|rows| - 1].0;
      ListsInit(rows, table);
      NoClashLess(table, last);
      ReplayedRows(rows[..|rows| - 1], table - {last});
      ReplayOne(table, RunRows(Replay(rows[..|rows| - 1])), last);
      ReplayLast(rows, table);
    }
  }

  lemma {:induction false} SomeListing<K(!new), V>(table: map<K, V>) returns (rows: seq<(K, V)>)
    ensures Lists(rows, table)
    decreases |table|
  {
    if table == map[] {
      rows := [];
    } else {
      var k :| k in table;
      assert (table - {k}).Keys == table.Keys - {k};
      var init := SomeListing(table - {k});
      rows := Extend(init, table, k);
    }
  }

  lemma Extend<K, V>(init: seq<(K, V)>, table: map<K, V>, k: K) returns (rows: seq<(K, V)>)
    requires k in table && Lists(init, table - {k})
    ensures rows == init + [(k, table[k])] && Lists(rows, table)
  {
    rows := init + [(k, table[k])];
    forall x | x in table ensures Listed(rows, x) {
      ListedMore(init, (k, table[k]), x);
      assert x != k ==> x in table - {k};
    }
  }

  /** A listing that ends with a given row. */
  lemma ListingEndingIn(table: SubTable, k: SubKey) returns (rows: seq<(SubKey, SubRow)>)
    requires k in table
    ensures Lists(rows, table) && rows != [] && rows[|rows| - 1] == (k, table[k])
    ensures Lookup(RunRows(Replay(rows)), RouterKey(k)) == Some(InfoOf(k, table[k]))
  {
    var init := SomeListing(table - {k});
    rows := Extend(init, table, k);
    ReplayInit(rows);
  }

  /** The replayed router is independent of the row order exactly when no two rows clash. */
  lemma ReplayOrderMattersExactly(table: SubTable)
    ensures (forall a, b :: Lists(a, table) && Lists(b, table) ==> RunRows(Replay(a)) == RunRows(Replay(b)))
            <==> forall x, y :: !Clash(table, x, y)
  {
    if forall x, y :: !Clash(table, x, y) {
      forall a, b | Lists(a, table) && Lists(b, table) ensures RunRows(Replay(a)) == RunRows(Replay(b)) {
        SameReplay(a, b, table);
      }
    } else {
      var x, y :| Clash(table, x, y);
      var a := ListingEndingIn(table, x);
      var b := ListingEndingIn(table, y);
      assert InfoOf(x, table[x]) != InfoOf(y, table[y]);
    }
  }

  /** A replay stores nothing that the table does not account for. */
  lemma {:induction false} ReplayStoresOnlyTheTable(rows: seq<(SubKey, SubRow)>, r: Key)
    requires r in RunRows(Replay(rows))
    ensures exists i :: 0 <= i < |rows| && SubscribedKey(rows[i].0.filter, rows[i].0.client) == r
    decreases |rows|
  {
    if rows != [] {
      var init, last := rows[..|rows| - 1], rows[|rows| - 1].0;
      ReplayInit(rows);
      if RouterKey(last) != r {
        ReplayStoresOnlyTheTable(init, r);
        var i :| 0 <= i < |init| && SubscribedKey(init[i].0.filter, init[i].0.client) == r;
        assert rows[i] == init[i];
      }
    }
  }

  lemma ReplayedDoesNotClash(table: SubTable, rows: Rows)
    requires Replayed(table, rows)
    ensures forall a, b :: !Clash(table, a, b)
  {
    forall a, b ensures !Clash(table, a, b) {
      if a in table && b in table {
        assert ReplayHolds(table, rows, a) && ReplayHolds(table, rows, b);
      }
    }
  }

  /**
   Replaying a table, in whatever order, gives this router state exactly when each table row is the router's row
   under the key it subscribes to.
   */
  lemma RestartFaithfulExactly(table: SubTable, live: Rows)
    ensures (forall rows :: Lists(rows, table) ==> RunRows(Replay(rows)) == live) <==> Replayed(table, live)
  {
    if Replayed(table, live) {
      ReplayedDoesNotClash(table, live);
      forall rows | Lists(rows, table) ensures RunRows(Replay(rows)) == live {
        ReplayedRows(rows, table);
        ReplayedIsUnique(table, RunRows(Replay(rows)), live);
      }
    }
    if forall rows :: Lists(rows, table) ==> RunRows(Replay(rows)) == live {
      AlwaysReplayed(table, live);
    }
  }

  lemma AlwaysReplayed(table: SubTable, live: Rows)
    requires forall rows :: Lists(rows, table) ==> RunRows(Replay(rows)) == live
    ensures Replayed(table, live)
  {
    forall k | k in table ensures ReplayHolds(table, live, k) {
      var rows := ListingEndingIn(table, k);
    }
    var rows := SomeListing(table);
    forall r | r in live ensures Accounted(table, r) {
      ReplayStoresOnlyTheTable(rows, r);
      var i :| 0 <= i < |rows| && SubscribedKey(rows[i].0.filter, rows[i].0.client) == r;
      assert rows[i].0 in table;
    }
  }

  lemma ReplayedIsUnique(table: SubTable, a: Rows, b: Rows)
    requires Replayed(table, a) && Replayed(table, b)
    ensures a == b
  {
    forall r: Key ensures Lookup(a, r) == Lookup(b, r) {
      if r in a { ReplayIncluded(table, a, b, r); }
      if r in b { ReplayIncluded(table, b, a, r); }
    }
    MapEqualByLookup(a, b);
  }

  lemma ReplayIncluded(table: SubTable, a: Rows, b: Rows, r: Key)
    requires Replayed(table, a) && Replayed(table, b) && r in a
    ensures Lookup(b, r) == Lookup(a, r)
  {
    var k :| k in table && RouterKey(k) == r;
    assert ReplayHolds(table, a, k) && ReplayHolds(table, b, k);
  }

  lemma SameReplay(a: seq<(SubKey, SubRow)>, b: seq<(SubKey, SubRow)>, table: SubTable)
    requires Lists(a, table) && Lists(b, table) && forall x, y :: !Clash(table, x, y)
    ensures RunRows(Replay(a)) == RunRows(Replay(b))
  {
    ReplayedRows(a, table);
    ReplayedRows(b, table);
    ReplayedIsUnique(table, RunRows(Replay(a)), RunRows(Replay(b)));
  }

  // --------------------------------------------------------- restart is faithful

  /** After every step of a run, every replay of the table gives the router's rows. */
  ghost predicate FaithfulThroughout(ops: seq<Op>) {
    && (forall rows :: Lists(rows, RunTable(ops)) ==> RunRows(Replay(rows)) == RunRows(ops))
    && (ops == [] || FaithfulThroughout(ops[..|ops| - 1]))
  }

  /** Restart replay is faithful after every step of a run exactly if the run is orderly. */
  lemma {:induction false} FaithfulExactlyWhenOrderly(ops: seq<Op>)
    ensures FaithfulThroughout(ops) <==> Orderly(ops)
  {
    FaithfulIsReplayed(ops);
    ReplayedExactlyWhenOrderly(ops);
  }

  lemma {:induction false} FaithfulIsReplayed(ops: seq<Op>)
    ensures FaithfulThroughout(ops) <==> ReplayedThroughout(ops)
  {
    RestartFaithfulExactly(RunTable(ops), RunRows(ops));
    if ops != [] { FaithfulIsReplayed(ops[..|ops| - 1]); }
  }

  /**
   Restart replay: after any orderly run, and so after any whose filters have "#" only last, replaying the table
   in any order gives a router with the same rows, which answers every topic alike.
   */
  lemma RestartIsFaithful(ops: seq<Op>, rows: seq<(SubKey, SubRow)>)
    requires (Orderly(ops) || AllHashLast(ops)) && Lists(rows, RunTable(ops))
    ensures RunRows(Replay(rows)) == RunRows(ops)
    ensures forall topic, group :: Found(RunTrie(Replay(rows)), topic, group) == Found(RunTrie(ops), topic, group)
  {
    if AllHashLast(ops) { HashLastIsOrderly(ops); }
    FaithfulExactlyWhenOrderly(ops);
    RunRefines(ops);
    RunRefines(Replay(rows));
    forall topic, group ensures Found(RunTrie(Replay(rows)), topic, group) == Found(RunTrie(ops), topic, group) {
      SameRowsSameMatches(RunTrie(Replay(rows)), RunTrie(ops), RunRows(ops), topic, group);
    }
  }

  /**
   What two SUBSCRIBEs can do: a client that subscribes two filters with one key, differently, gets its second
   subscription now, and after a restart that reads the rows in the other order, its first.
   */
  lemma FirstSubscriptionReturns(c: Text, f: Text, g: Text, q: byte, r: byte) returns (rows: seq<(SubKey, SubRow)>)
    requires f != g && SubscribedKey(f, c) == SubscribedKey(g, c) && q != r
    ensures var ops := [SubscribeOp(c, f, q, None), SubscribeOp(c, g, r, None)];
            && Lists(rows, RunTable(ops))
            && RunRows(ops) == map[SubscribedKey(f, c) := SubInfo(c, r, None)]
            && RunRows(Replay(rows)) == map[SubscribedKey(f, c) := SubInfo(c, q, None)]
  {
    var first, second := SubscribeOp(c, f, q, None), SubscribeOp(c, g, r, None);
    ThenSubscribe(first, second);
    ThenSubscribe(second, first);
    rows := [(SubKey(c, g), SubRow(r, None)), (SubKey(c, f), SubRow(q, None))];
    assert Replay(rows) == [second, first];
    forall k | k in RunTable([first, second]) ensures Listed(rows, k) {
      assert rows[0].0 == SubKey(c, g) && rows[1].0 == SubKey(c, f);
    }
  }

  lemma ThenSubscribe(op: Op, sub: Op)
    requires op.SubscribeOp? && sub.SubscribeOp?
    ensures RunRows([op, sub])
         == map[SubscribedKey(op.filter, op.client) := SubInfo(op.client, op.qos, op.subId)]
              [SubscribedKey(sub.filter, sub.client) := SubInfo(sub.client, sub.qos, sub.subId)]
    ensures RunTable([op, sub])
         == map[SubKey(op.client, op.filter) := SubRow(op.qos, op.subId)]
              [SubKey(sub.client, sub.filter) := SubRow(sub.qos, sub.subId)]
  {
    assert [op, sub][..|[op, sub]| - 1] == [op];
    OneSubscribe(op);
  }

  /** Such filters are "#/a" and "#/b". */
  lemma TwoFiltersOneKey(client: Text)
    ensures var f, g: Text := [35, 47, 97], [35, 47, 98];
            f != g && SubscribedKey(f, client) == SubscribedKey(g, client)
  {
    HashThen(97);
    HashThen(98);
  }

  /** "#/x" is filed under "#", and has a level behind it. */
  lemma HashThen(x: byte)
    requires x != SLASH
    ensures var f: Text := [35, 47, x];
            ParseShared(f) == (None, f) && Split(f) == [HASH, [x]] && Truncate(Split(f)) == [HASH]
  {
    var f: Text, last: Text := [35, 47, x], [x];
    assert f == HASH + [SLASH] + last && f[1] != SHARE_PREFIX[1];
    SplitAt(HASH, last);
    SplitFlat(last);
  }

  /**
   For a caller of `unsubscribe`, which no packet reaches: with "#" before the end of a filter, a deleted subscription
   comes back.
   */
  lemma DeletedSubscriptionReturns(client: Text, filter: Text, cut: Text, qos: byte, subId: Option<u32>,
                                   rows: seq<(SubKey, SubRow)>)
    requires !HashLast(filter) && FilterKey(cut, client) == SubscribedKey(filter, client)
    requires Lists(rows, RunTable([SubscribeOp(client, filter, qos, subId), UnsubscribeOp(client, cut)]))
    ensures RunRows([SubscribeOp(client, filter, qos, subId), UnsubscribeOp(client, cut)]) == map[]
    ensures RunRows(Replay(rows)) == map[SubscribedKey(filter, client) := SubInfo(client, qos, subId)]
  {
    var sub, unsub := SubscribeOp(client, filter, qos, subId), UnsubscribeOp(client, cut);
    var stored := map[SubscribedKey(filter, client) := SubInfo(client, qos, subId)];
    var table := map[SubKey(client, filter) := SubRow(qos, subId)];
    HashLastKeys(filter, client);
    assert SubKey(client, cut) !in table;
    OneSubscribe(sub);
    ThenUnsubscribe(sub, unsub);
    assert stored - {SubscribedKey(filter, client)} == map[];
    assert table - {SubKey(client, cut)} == table;
    SingleListing(rows, SubKey(client, filter), SubRow(qos, subId));
    assert Replay(rows) == [sub];
  }

  lemma ThenUnsubscribe(op: Op, unsub: Op)
    requires unsub.UnsubscribeOp?
    ensures RunRows([op, unsub]) == RunRows([op]) - {FilterKey(unsub.filter, unsub.client)}
    ensures RunTable([op, unsub])
            == StepTable(RunTable([op]), RunRows([op]), unsub)
  {
    assert [op, unsub][..|[op, unsub]| - 1] == [op];
  }

  lemma OneSubscribe(sub: Op)
    requires sub.SubscribeOp?
    ensures RunRows([sub]) == map[SubscribedKey(sub.filter, sub.client) := SubInfo(sub.client, sub.qos, sub.subId)]
    ensures RunTable([sub]) == map[SubKey(sub.client, sub.filter) := SubRow(sub.qos, sub.subId)]
  {
    var none: seq<Op> := [];
    assert [sub][..|[sub]| - 1] == none && RunRows(none) == map[] && RunTable(none) == map[];
    assert RunRows([sub]) == StepRows(map[], sub);
  }

  lemma SingleListing(rows: seq<(SubKey, SubRow)>, k: SubKey, row: SubRow)
    requires Lists(rows, map[k := row])
    ensures rows == [(k, row)]
  {
    ListingLength(rows, map[k := row]);
    assert rows == [rows[0]];
  }

  lemma {:induction false} ListingLength<K, V>(rows: seq<(K, V)>, table: map<K, V>)
    requires Lists(rows, table)
    ensures |rows| == |table|
    decreases |rows|
  {
    if rows == [] {
      assert table == map[];
    } else {
      var k := rows[|rows| - 1].0;
      ListsInit(rows, table);
      ListingLength(rows[..|rows| - 1], table - {k});
      assert (table - {k}).Keys == table.Keys - {k};
    }
  }

  /** Such filters exist: "#/b" is stored as "#". */
  lemma SuchAFilter(client: Text)
    ensures var filter, cut: Text := [35, 47, 98], [35];
            !HashLast(filter) && FilterKey(cut, client) == SubscribedKey(filter, client)
  {
    HashThen(98);
    SplitFlat(HASH);
  }
}
