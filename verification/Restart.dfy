/** What survives a restart: the in-flight table beside the sessions over whole runs, and booting from the tables. */
module Restart {
  import opened Basics
  import opened Packets
  import opened Trie
  import opened PacketIds
  import opened PublishFrames
  import opened Session
  import opened RoundRobin
  import opened Delivery
  import opened Persistence
  import opened Publishing
  import opened Broker
  import opened Dispatch

  // --------------------------------------------------------- sessions and their tables

  /** The registered sessions, what they were made with, and the two tables about them. */
  datatype World = World(
    sessions: Sessions,
    terms: map<Text, SessionRow>,
    saved: map<Text, SessionRow>,
    flights: Flights)

  const NOTHING_YET := World(map[], map[], map[], map[])
  const FRESH_SESSION := SessionState(1, map[], [])

  /**
   What happens to them: a client connects, a connection ends, a publish is delivered, a message is acknowledged by the
   registered session or by one that was replaced, the broker is restarted.
   */
  datatype Step =
    | Join(client: Text, row: SessionRow)
    | Leave(client: Text)
    | PublishTo(m: Publication, targets: seq<SubInfo>)
    | Ack(client: Text, id: u16)
    | LateAck(client: Text, id: u16)
    | Boot

  /** The messages that the table has for a client. */
  function FlightsOf(flights: Flights, client: Text): map<u16, Message> {
    map k | k in flights && k.client == client ::
      k.packetId := Message(k.packetId, flights[k].topic, flights[k].payload, flights[k].qos)
  }

  /** The sessions after a boot: one for each row, with the client's messages, ids from 1. */
  function Rebooted(saved: map<Text, SessionRow>, flights: Flights): Sessions {
    map c | c in saved :: SessionState(1, FlightsOf(flights, c), [])
  }

  function AfterBoot(saved: map<Text, SessionRow>, flights: Flights): World {
    World(Rebooted(saved, flights), saved, saved, flights)
  }

  function Acknowledged(sessions: Sessions, client: Text, id: u16): Sessions {
    if client in sessions
    then sessions[client := sessions[client].(inFlight := sessions[client].inFlight - {id})]
    else sessions
  }

  function StepWorld(w: World, s: Step): World {
    match s
    case Join(client, row) =>
      World(w.sessions[client := FRESH_SESSION], w.terms[client := row],
            if row.expiry > 0 then w.saved[client := row] else w.saved, w.flights)
    case Leave(client) =>
      var gone := World(w.sessions - {client}, w.terms - {client}, w.saved, w.flights);
      if client in w.terms && !Persists(w.terms[client])
      then gone.(saved := w.saved - {client}, flights := WithoutFlights(w.flights, client))
      else gone
    case PublishTo(m, targets) =>
      var b := DeliverToAll(Moment(map[], w.sessions, w.flights), m, targets);
      w.(sessions := b.sessions, flights := b.flights)
    case Ack(client, id) =>
      w.(sessions := Acknowledged(w.sessions, client, id), flights := w.flights - {FlightKey(client, id)})
    case LateAck(client, id) => w.(flights := w.flights - {FlightKey(client, id)})
    case Boot => AfterBoot(w.saved, w.flights)
  }

  function RunWorld(steps: seq<Step>): World {
    if steps == [] then NOTHING_YET else StepWorld(RunWorld(steps[..|steps| - 1]), steps[|steps| - 1])
  }

  // ------------------------------------------- the in-flight table mirrors the sessions

  /** What the table has for this client is what its session has in flight. */
  ghost predicate InFlightMirrored(inFlight: map<u16, Message>, flights: Flights, client: Text) {
    && (forall id :: id in inFlight <==> FlightKey(client, id) in flights)
    && (forall id :: id in inFlight ==> inFlight[id] == MessageAt(flights, client, id))
  }

  function MessageAt(flights: Flights, client: Text, id: u16): Message {
    var k := FlightKey(client, id);
    if k in flights then Message(id, flights[k].topic, flights[k].payload, flights[k].qos) else Message(id, [], [], 0)
  }

  ghost predicate Mirrored(sessions: Sessions, flights: Flights) {
    forall c :: c in sessions ==> InFlightMirrored(sessions[c].inFlight, flights, c)
  }

  /** The table determines what is in flight. */
  lemma MirroredExactly(inFlight: map<u16, Message>, flights: Flights, client: Text)
    ensures InFlightMirrored(inFlight, flights, client) <==> inFlight == FlightsOf(flights, client)
  {
    FlightsOfAt(flights, client);
    if InFlightMirrored(inFlight, flights, client) {
      assert inFlight.Keys == FlightsOf(flights, client).Keys;
    }
  }

  lemma FlightsOfAt(flights: Flights, client: Text)
    ensures forall id: u16 :: id in FlightsOf(flights, client) <==> FlightKey(client, id) in flights
    ensures forall id: u16 :: id in FlightsOf(flights, client) ==>
              FlightsOf(flights, client)[id] == MessageAt(flights, client, id)
  {
    forall id: u16 ensures id in FlightsOf(flights, client) <==> FlightKey(client, id) in flights {
      if FlightKey(client, id) in flights {
        assert FlightKey(client, id).packetId == id;
      }
    }
  }

  ghost predicate NoFlights(flights: Flights, client: Text) {
    forall id :: FlightKey(client, id) !in flights
  }

  /** A new session mirrors the table exactly if the table has nothing of its client. */
  lemma ConnectMirrors(sessions: Sessions, flights: Flights, client: Text)
    requires Mirrored(sessions, flights)
    ensures Mirrored(sessions[client := FRESH_SESSION], flights) <==> NoFlights(flights, client)
  {
    var after := sessions[client := FRESH_SESSION];
    if NoFlights(flights, client) {
      forall c | c in after ensures InFlightMirrored(after[c].inFlight, flights, c) {
        if c != client { assert InFlightMirrored(sessions[c].inFlight, flights, c); }
      }
    }
    if Mirrored(after, flights) {
      assert InFlightMirrored(after[client].inFlight, flights, client);
    }
  }

  lemma LeaveMirrors(sessions: Sessions, flights: Flights, client: Text)
    requires Mirrored(sessions, flights)
    ensures Mirrored(sessions - {client}, flights)
    ensures Mirrored(sessions - {client}, WithoutFlights(flights, client))
  {
    forall c | c in sessions - {client}
      ensures InFlightMirrored(sessions[c].inFlight, flights, c)
      ensures InFlightMirrored(sessions[c].inFlight, WithoutFlights(flights, client), c)
    {
      assert InFlightMirrored(sessions[c].inFlight, flights, c);
    }
  }

  lemma SentInFlight(s: SessionState, m: Publication, subId: Option<u32>)
    ensures var id := NextId(s.nextPacketId).0;
            Sent(s, m, subId).inFlight
            == if m.qos > 0 then s.inFlight[id := Message(id, m.topic, m.payload, m.qos)] else s.inFlight
  {
  }

  lemma SendMirrors(sessions: Sessions, flights: Flights, client: Text, s: SessionState, id: u16, row: FlightRow)
    requires Mirrored(sessions, flights) && client in sessions
    requires s.inFlight == sessions[client].inFlight[id := Message(id, row.topic, row.payload, row.qos)]
    ensures Mirrored(sessions[client := s], flights[FlightKey(client, id) := row])
  {
    var after, flights' := sessions[client := s], flights[FlightKey(client, id) := row];
    forall c | c in after ensures InFlightMirrored(after[c].inFlight, flights', c) {
      assert InFlightMirrored(sessions[c].inFlight, flights, c);
    }
  }

  lemma SameInFlightMirrors(sessions: Sessions, flights: Flights, client: Text, s: SessionState)
    requires Mirrored(sessions, flights) && client in sessions && s.inFlight == sessions[client].inFlight
    ensures Mirrored(sessions[client := s], flights)
  {
    forall c | c in sessions ensures InFlightMirrored(sessions[client := s][c].inFlight, flights, c) {
      assert InFlightMirrored(sessions[c].inFlight, flights, c);
    }
  }

  lemma DeliverMirrors(a: Moment, m: Publication, to: SubInfo)
    requires Mirrored(a.sessions, a.flights)
    ensures Mirrored(DeliverTo(a, m, to).sessions, DeliverTo(a, m, to).flights)
  {
    if to.client in a.sessions {
      var s := a.sessions[to.client];
      var id := NextId(s.nextPacketId).0;
      SentInFlight(s, m, to.subId);
      if m.qos > 0 {
        SendMirrors(a.sessions, a.flights, to.client, Sent(s, m, to.subId), id, FlightRow(m.topic, m.payload, m.qos));
      } else {
        SameInFlightMirrors(a.sessions, a.flights, to.client, Sent(s, m, to.subId));
      }
    }
  }

  /** Every publish keeps the table equal to what the sessions have in flight. */
  lemma {:induction false} DeliveriesMirror(a: Moment, m: Publication, targets: seq<SubInfo>)
    requires Mirrored(a.sessions, a.flights)
    ensures Mirrored(DeliverToAll(a, m, targets).sessions, DeliverToAll(a, m, targets).flights)
  {
    if targets != [] {
      var init := targets[..|targets| - 1];
      DeliveriesMirror(a, m, init);
      DeliverMirrors(DeliverToAll(a, m, init), m, targets[|targets| - 1]);
    }
  }

  lemma AckMirrors(sessions: Sessions, flights: Flights, client: Text, id: u16)
    requires Mirrored(sessions, flights)
    ensures Mirrored(Acknowledged(sessions, client, id), flights - {FlightKey(client, id)})
  {
    var after, flights' := Acknowledged(sessions, client, id), flights - {FlightKey(client, id)};
    forall c | c in after ensures InFlightMirrored(after[c].inFlight, flights', c) {
      assert InFlightMirrored(sessions[c].inFlight, flights, c);
    }
  }

  /** An acknowledgement on a connection that was taken over deletes a row that the new session may still have. */
  lemma LateAckMirrors(sessions: Sessions, flights: Flights, client: Text, id: u16)
    requires Mirrored(sessions, flights)
    ensures Mirrored(sessions, flights - {FlightKey(client, id)})
            <==> (client in sessions ==> FlightKey(client, id) !in flights)
  {
    var flights' := flights - {FlightKey(client, id)};
    if client !in sessions || FlightKey(client, id) !in flights {
      forall c | c in sessions ensures InFlightMirrored(sessions[c].inFlight, flights', c) {
        assert InFlightMirrored(sessions[c].inFlight, flights, c);
      }
    } else {
      assert InFlightMirrored(sessions[client].inFlight, flights, client);
      assert !InFlightMirrored(sessions[client].inFlight, flights', client);
    }
  }

  lemma BootMirrors(saved: map<Text, SessionRow>, flights: Flights)
    ensures Mirrored(Rebooted(saved, flights), flights)
  {
    forall c | c in saved ensures InFlightMirrored(Rebooted(saved, flights)[c].inFlight, flights, c) {
      MirroredExactly(FlightsOf(flights, c), flights, c);
    }
  }

  // --------------------------------------------------------------- over whole runs

  /** A step that keeps the table in line: a client connects only when the table has nothing of it, and so on. */
  ghost predicate KeepsInLine(w: World, s: Step) {
    match s
    case Join(client, _) => NoFlights(w.flights, client)
    case LateAck(client, id) => client in w.sessions ==> FlightKey(client, id) !in w.flights
    case _ => true
  }

  lemma StepMirrors(w: World, s: Step)
    requires Mirrored(w.sessions, w.flights)
    ensures Mirrored(StepWorld(w, s).sessions, StepWorld(w, s).flights) <==> KeepsInLine(w, s)
  {
    match s
    case Join(client, _) => ConnectMirrors(w.sessions, w.flights, client);
    case Leave(client) => LeaveMirrors(w.sessions, w.flights, client);
    case PublishTo(m, targets) => DeliveriesMirror(Moment(map[], w.sessions, w.flights), m, targets);
    case Ack(client, id) => AckMirrors(w.sessions, w.flights, client, id);
    case LateAck(client, id) => LateAckMirrors(w.sessions, w.flights, client, id);
    case Boot => BootMirrors(w.saved, w.flights);
  }

  /** Every connecting client had no rows left, and no late acknowledgement hit one. */
  ghost predicate InLine(steps: seq<Step>) {
    steps == [] || (InLine(steps[..|steps| - 1]) && KeepsInLine(RunWorld(steps[..|steps| - 1]), steps[|steps| - 1]))
  }

  ghost predicate MirroredThroughout(steps: seq<Step>) {
    && Mirrored(RunWorld(steps).sessions, RunWorld(steps).flights)
    && (steps == [] || MirroredThroughout(steps[..|steps| - 1]))
  }

  /** From an empty start, the table mirrors the sessions throughout a run exactly if the run is in line. */
  lemma {:induction false} MirroredExactlyInLine(steps: seq<Step>)
    ensures MirroredThroughout(steps) <==> InLine(steps)
  {
    if steps != [] {
      var init := steps[..|steps| - 1];
      MirroredExactlyInLine(init);
      if InLine(init) {
        StepMirrors(RunWorld(init), steps[|steps| - 1]);
      }
    }
  }

  /** A restored session has in flight what the live one had exactly if the table mirrored the live one. */
  lemma SurvivesExactly(w: World, rows: seq<(FlightKey, FlightRow)>, client: Text)
    requires Lists(rows, w.flights) && client in w.sessions && client in w.saved
    ensures ReaddAll(Booted(w.saved), rows)[client].inFlight == w.sessions[client].inFlight
            <==> InFlightMirrored(w.sessions[client].inFlight, w.flights, client)
  {
    ReaddedMirrors(Booted(w.saved), rows, w.flights);
    MirroredExactly(w.sessions[client].inFlight, w.flights, client);
    MirroredExactly(ReaddAll(Booted(w.saved), rows)[client].inFlight, w.flights, client);
  }

  /** After every run in line, a restart gives each restored session exactly what it had in flight. */
  lemma InFlightSurvivesRestart(steps: seq<Step>, rows: seq<(FlightKey, FlightRow)>, client: Text)
    requires InLine(steps) && Lists(rows, RunWorld(steps).flights)
    requires client in RunWorld(steps).sessions && client in RunWorld(steps).saved
    ensures ReaddAll(Booted(RunWorld(steps).saved), rows)[client].inFlight == RunWorld(steps).sessions[client].inFlight
  {
    MirroredExactlyInLine(steps);
    SurvivesExactly(RunWorld(steps), rows, client);
  }

  /**
   A run out of line: a persistent client gets a message, disconnects and connects again. Its session starts empty,
   the row stays, and a restart brings the message back.
   */
  lemma ReconnectedClientGainsAMessage(client: Text, row: SessionRow, m: Publication, qos: byte, subId: Option<u32>)
    requires Persists(row) && m.qos > 0
    ensures var to := SubInfo(client, qos, subId);
            var w := RunWorld([Join(client, row), PublishTo(m, [to]), Leave(client), Join(client, row)]);
            && client in w.sessions && w.sessions[client].inFlight == map[]
            && client in w.saved
            && FlightsOf(w.flights, client) == map[1 := Message(1, m.topic, m.payload, m.qos)]
  {
    var to := SubInfo(client, qos, subId);
    var join, publish, leave := Join(client, row), PublishTo(m, [to]), Leave(client);
    RunNext([], join);
    RunNext([] + [join], publish);
    RunNext([] + [join] + [publish], leave);
    RunNext([] + [join] + [publish] + [leave], join);
    assert [join, publish, leave, join] == [] + [join] + [publish] + [leave] + [join];
    FirstMessage(client, row, m, to);
  }

  lemma RunNext(steps: seq<Step>, s: Step)
    ensures RunWorld(steps + [s]) == StepWorld(RunWorld(steps), s)
  {
    assert (steps + [s])[..|steps|] == steps;
  }

  /** The first message to a new session takes id 1. */
  lemma FirstMessage(client: Text, row: SessionRow, m: Publication, to: SubInfo)
    requires m.qos > 0 && to.client == client
    ensures var w := StepWorld(StepWorld(NOTHING_YET, Join(client, row)), PublishTo(m, [to]));
            && w.terms == map[client := row]
            && w.saved == StepWorld(NOTHING_YET, Join(client, row)).saved
            && FlightsOf(w.flights, client) == map[1 := Message(1, m.topic, m.payload, m.qos)]
  {
    var w1 := StepWorld(NOTHING_YET, Join(client, row));
    var a := Moment(map[], w1.sessions, w1.flights);
    DeliverNext(a, m, [], to);
    assert [] + [to] == [to];
    var flights := DeliverToAll(a, m, [to]).flights;
    assert flights == map[FlightKey(client, 1) := FlightRow(m.topic, m.payload, m.qos)];
    FlightsOfAt(flights, client);
  }

  // -------------------------------------------------------- the broker takes these steps

  ghost function WorldOf(state: BrokerState): World
    reads state`sessions, state.sessions.Values, state.db`sessions, state.db`inFlight
  {
    World(state.View(), state.Terms(), state.db.sessions, state.db.inFlight)
  }

  /** A client connects: a new session replaces what the broker had for it. */
  method ClientConnects(state: BrokerState, client: Text, row: SessionRow) returns (session: ClientSession)
    requires state.Valid()
    modifies state`sessions, state.db`sessions
    ensures state.Valid() && fresh(session) && Registered(state, session) && session.clientId == client
    ensures WorldOf(state) == StepWorld(old(WorldOf(state)), Join(client, row))
  {
    ghost var w := WorldOf(state);
    session := new ClientSession(client, row.username, row.cleanStart, row.expiry);
    assert WorldOf(state) == w;
    state.RegisterSession(session);
  }

  /** A connection ends. */
  method ClientLeaves(state: BrokerState, client: Text)
    requires state.Valid()
    modifies state`sessions, state.db
    ensures state.Valid()
    ensures WorldOf(state) == StepWorld(old(WorldOf(state)), Leave(client))
  {
    ghost var w := WorldOf(state);
    state.RemoveSession(client);
    assert client in w.terms ==> w.terms[client] == old(state.sessions[client].Terms());
  }

  /** What a table has after a client is gone. */
  ghost predicate OnlyOthers<K(!new), V>(before: map<K, V>, after: map<K, V>, clientOf: K -> Text, client: Text) {
    forall k :: Lookup(after, k) == if clientOf(k) == client then None else Lookup(before, k)
  }

  method ComeAndGo(state: BrokerState, client: Text, row: SessionRow)
    requires state.Valid()
    modifies state`sessions, state.db
    ensures state.Valid() && state.sessions == old(state.sessions) - {client}
    ensures if Persists(row)
            then
              && state.db.sessions == old(state.db.sessions)[client := row]
              && state.db.subscriptions == old(state.db.subscriptions)
              && state.db.inFlight == old(state.db.inFlight)
            else
              && state.db.sessions == old(state.db.sessions) - {client}
              && state.db.subscriptions == WithoutClient(old(state.db.subscriptions), client)
              && state.db.inFlight == WithoutFlights(old(state.db.inFlight), client)
  {
    ghost var sessions, saved := state.sessions, state.db.sessions;
    var session := new ClientSession(client, row.username, row.cleanStart, row.expiry);
    PutThenTakeAway(sessions, client, session);
    PutThenTakeAway(saved, client, row);
    state.RegisterSession(session);
    assert client in state.sessions && state.sessions[client].Terms() == row;
    state.RemoveSession(client);
  }

  lemma PutThenTakeAway<K, V>(m: map<K, V>, k: K, v: V)
    ensures m[k := v] - {k} == m - {k}
  {
  }

  lemma OthersAreLeft(sessions: map<Text, SessionRow>, subscriptions: SubTable, flights: Flights, client: Text)
    ensures OnlyOthers(sessions, sessions - {client}, (c: Text) => c, client)
    ensures OnlyOthers(subscriptions, WithoutClient(subscriptions, client), (k: SubKey) => k.client, client)
    ensures OnlyOthers(flights, WithoutFlights(flights, client), (k: FlightKey) => k.client, client)
  {
  }

  /**
   A connection from beginning to end, row by row. Without clean start and with an expiry the client's session row is
   there afterwards and nothing else has changed; otherwise no table has a row of the client, and the rows of the others
   are as they were. Its session is gone from the broker either way.
   */
  method ClientComesAndGoes(state: BrokerState, client: Text, username: Option<Text>, cleanStart: bool, expiry: u32)
    requires state.Valid()
    modifies state`sessions, state.db
    ensures state.Valid() && state.sessions == old(state.sessions) - {client}
    ensures !cleanStart && expiry > 0 ==>
              && state.db.sessions == old(state.db.sessions)[client := SessionRow(username, false, expiry)]
              && state.db.subscriptions == old(state.db.subscriptions)
              && state.db.inFlight == old(state.db.inFlight)
    ensures cleanStart || expiry == 0 ==>
              && OnlyOthers(old(state.db.sessions), state.db.sessions, (c: Text) => c, client)
              && OnlyOthers(old(state.db.subscriptions), state.db.subscriptions, (k: SubKey) => k.client, client)
              && OnlyOthers(old(state.db.inFlight), state.db.inFlight, (k: FlightKey) => k.client, client)
  {
    OthersAreLeft(state.db.sessions, state.db.subscriptions, state.db.inFlight, client);
    ComeAndGo(state, client, SessionRow(username, cleanStart, expiry));
  }

  method PublishIsRouted(state: BrokerState, m: Publication)
    requires state.Valid()
    modifies state.sessions.Values, state`counters, state.db`inFlight
    ensures state.Valid()
    ensures exists targets :: WorldOf(state) == StepWorld(old(WorldOf(state)), PublishTo(m, targets))
  {
    ghost var before, a := WorldOf(state), state.Now();
    state.RoutePublish(m);
    ghost var targets := PublishedAsStep(state.router.root, m, a, state.Now());
    assert WorldOf(state) == StepWorld(before, PublishTo(m, targets));
  }

  lemma PublishedAsStep(n: Node, m: Publication, a: Moment, b: Moment) returns (targets: seq<SubInfo>)
    requires Published(n, m, a, b)
    ensures var c := DeliverToAll(Moment(map[], a.sessions, a.flights), m, targets);
            b.sessions == c.sessions && b.flights == c.flights
  {
    var normal, groups;
    normal, groups, targets := PublishedByTargets(n, m, a, b);
    DeliverAllWithCounters(a, map[], m, targets);
  }

  lemma {:induction false} DeliverAllWithCounters(a: Moment, counters: Counters, m: Publication, targets: seq<SubInfo>)
    ensures DeliverToAll(a.(counters := counters), m, targets) == DeliverToAll(a, m, targets).(counters := counters)
  {
    if targets != [] {
      DeliverAllWithCounters(a, counters, m, targets[..|targets| - 1]);
      DeliverWithCounters(DeliverToAll(a, m, targets[..|targets| - 1]), counters, m, targets[|targets| - 1]);
    }
  }

  /** A PUBACK arrives, on the registered session's connection or on one that was taken over. */
  method MessageIsAcknowledged(state: BrokerState, session: ClientSession, p: Packet)
    requires state.Valid() && p.PubAck?
    modifies session`inFlight, state.db`inFlight
    ensures state.Valid()
    ensures WorldOf(state)
         == StepWorld(old(WorldOf(state)), if Registered(state, session) then Ack(session.clientId, p.pubAckId)
                                           else LateAck(session.clientId, p.pubAckId))
  {
    ProcessPubAck(state, session, p);
    if Registered(state, session) {
      state.OneSessionChanged(session.clientId);
    } else {
      assert forall c :: c in state.sessions ==> state.sessions[c] != session;
      assert state.View() == old(state.View());
    }
  }

  // -------------------------------------------------------------- restoring sessions

  /** The sessions a boot starts from: nothing in flight, nothing sent, ids from 1. */
  function Booted(table: map<Text, SessionRow>): Sessions {
    map c | c in table :: FRESH_SESSION
  }

  /** The first loop of `restore_sessions_from_db`: a session for each row, as the row says. */
  method RestoreSessions(state: BrokerState)
    requires state.Valid() && state.sessions == map[]
    modifies state`sessions
    ensures state.Valid() && forall c :: c in state.sessions ==> fresh(state.sessions[c])
    ensures state.View() == Booted(state.db.sessions) && state.Terms() == state.db.sessions
  {
    var rows := SelectAll(state.db.sessions);
    for i := 0 to |rows|
      invariant state.Valid() && forall c :: c in state.sessions ==> fresh(state.sessions[c])
      invariant AllBooted(state, rows, i)
    {
      RestoreSession(state, rows, i);
    }
    AllAreBooted(state, rows);
  }

  lemma AllAreBooted(state: BrokerState, rows: seq<(Text, SessionRow)>)
    requires Lists(rows, state.db.sessions) && AllBooted(state, rows, |rows|)
    ensures state.View() == Booted(state.db.sessions) && state.Terms() == state.db.sessions
  {
    forall c | c in state.db.sessions ensures c in state.sessions && state.sessions[c].Terms() == state.db.sessions[c] {
      assert Listed(rows, c);
    }
  }

  method RestoreSession(state: BrokerState, rows: seq<(Text, SessionRow)>, i: nat)
    requires state.Valid() && i < |rows| && AllBooted(state, rows, i)
    requires forall j :: 0 <= j < i ==> rows[j].0 != rows[i].0
    modifies state`sessions
    ensures state.Valid() && AllBooted(state, rows, i + 1)
    ensures forall c :: c in state.sessions ==>
              fresh(state.sessions[c]) || (c in old(state.sessions) && state.sessions[c] == old(state.sessions)[c])
  {
    var (client, row) := rows[i];
    var session := new ClientSession(client, row.username, row.cleanStart, row.expiry);
    state.sessions := state.sessions[client := session];
  }

  ghost predicate AllBooted(state: BrokerState, rows: seq<(Text, SessionRow)>, n: nat)
    requires n <= |rows|
    reads state`sessions, state.sessions.Values
  {
    && (forall c :: c in state.sessions <==> Before(rows, c, n))
    && (forall i :: 0 <= i < n ==> rows[i].0 in state.sessions && state.sessions[rows[i].0].Terms() == rows[i].1)
    && forall c :: c in state.sessions ==> state.sessions[c].Value() == FRESH_SESSION
  }

  ghost predicate Before<K, V>(rows: seq<(K, V)>, k: K, n: nat)
    requires n <= |rows|
  {
    exists i :: 0 <= i < n && rows[i].0 == k
  }

  /** One row of the in-flight table: added to the session, if there is one. */
  function Readd(sessions: Sessions, k: FlightKey, row: FlightRow): (after: Sessions)
    ensures after.Keys == sessions.Keys
  {
    if k.client in sessions then
      var s := sessions[k.client];
      var message := Message(k.packetId, row.topic, row.payload, row.qos);
      sessions[k.client := s.(inFlight := s.inFlight[k.packetId := message])]
    else sessions
  }

  function ReaddAll(sessions: Sessions, rows: seq<(FlightKey, FlightRow)>): (after: Sessions)
    ensures after.Keys == sessions.Keys
  {
    if rows == [] then sessions
    else Readd(ReaddAll(sessions, rows[..|rows| - 1]), rows[|rows| - 1].0, rows[|rows| - 1].1)
  }

  lemma ReaddNext(sessions: Sessions, rows: seq<(FlightKey, FlightRow)>, i: nat)
    requires i < |rows|
    ensures ReaddAll(sessions, rows[..i + 1]) == Readd(ReaddAll(sessions, rows[..i]), rows[i].0, rows[i].1)
  {
    assert rows[..i + 1][..i] == rows[..i];
  }

  /** The third loop: the in-flight rows, in the order they come. */
  method RestoreInFlight(state: BrokerState) returns (rows: seq<(FlightKey, FlightRow)>)
    requires state.Valid()
    modifies state.sessions.Values
    ensures state.Valid() && Lists(rows, state.db.inFlight)
    ensures state.View() == ReaddAll(old(state.View()), rows)
  {
    rows := SelectAll(state.db.inFlight);
    ghost var view := state.View();
    for i := 0 to |rows|
      invariant state.Valid()
      invariant state.View() == ReaddAll(view, rows[..i])
    {
      ReaddNext(view, rows, i);
      RestoreMessage(state, rows[i].0, rows[i].1);
    }
    assert rows[..|rows|] == rows;
  }

  method RestoreMessage(state: BrokerState, k: FlightKey, row: FlightRow)
    requires state.Valid()
    modifies state.sessions.Values
    ensures state.Valid()
    ensures state.View() == Readd(old(state.View()), k, row)
  {
    if k.client in state.sessions {
      var session := state.sessions[k.client];
      session.AddInFlight(k.packetId, row.topic, row.payload, row.qos);
      state.OneSessionChanged(k.client);
    }
  }

  /** After the rows of a table, each session has exactly the client's messages of that table. */
  lemma {:induction false} ReaddedMirrors(sessions: Sessions, rows: seq<(FlightKey, FlightRow)>, table: Flights)
    requires Lists(rows, table) && forall c :: c in sessions ==> sessions[c].inFlight == map[]
    ensures Mirrored(ReaddAll(sessions, rows), table)
    decreases |rows|
  {
    if rows == [] {
      assert forall k :: k in table ==> Listed(rows, k);
    } else {
      var (k, row) := rows[|rows| - 1];
      ListsInit(rows, table);
      ReaddedMirrors(sessions, rows[..|rows| - 1], table - {k});
      ReaddOne(ReaddAll(sessions, rows[..|rows| - 1]), table, k);
    }
  }

  lemma ReaddOne(sessions: Sessions, table: Flights, k: FlightKey)
    requires k in table && Mirrored(sessions, table - {k})
    ensures Mirrored(Readd(sessions, k, table[k]), table)
  {
    var after := Readd(sessions, k, table[k]);
    forall c | c in after ensures InFlightMirrored(after[c].inFlight, table, c) {
      assert InFlightMirrored(sessions[c].inFlight, table - {k}, c);
    }
  }

  /** Adding messages changes nothing else of a session. */
  lemma {:induction false} ReaddedOtherwiseSame(sessions: Sessions, rows: seq<(FlightKey, FlightRow)>, c: Text)
    requires c in sessions
    ensures ReaddAll(sessions, rows)[c] == sessions[c].(inFlight := ReaddAll(sessions, rows)[c].inFlight)
    decreases |rows|
  {
    if rows != [] { ReaddedOtherwiseSame(sessions, rows[..|rows| - 1], c); }
  }

  lemma BootRebuilds(saved: map<Text, SessionRow>, flights: Flights, rows: seq<(FlightKey, FlightRow)>)
    requires Lists(rows, flights)
    ensures ReaddAll(Booted(saved), rows) == Rebooted(saved, flights)
  {
    var sessions := ReaddAll(Booted(saved), rows);
    ReaddedMirrors(Booted(saved), rows, flights);
    forall c | c in saved ensures sessions[c] == Rebooted(saved, flights)[c] {
      ReaddedOtherwiseSame(Booted(saved), rows, c);
      MirroredExactly(sessions[c].inFlight, flights, c);
    }
  }

  /** The third loop, as the rest of the boot step. */
  method RestoreMessages(state: BrokerState)
    requires state.Valid() && state.View() == Booted(state.db.sessions) && state.Terms() == state.db.sessions
    modifies state.sessions.Values
    ensures state.Valid()
    ensures state.View() == Rebooted(state.db.sessions, state.db.inFlight) && state.Terms() == state.db.sessions
  {
    ghost var rows := RestoreInFlight(state);
    BootRebuilds(state.db.sessions, state.db.inFlight, rows);
  }

  /** `restore_sessions_from_db`, on a broker that has just been created over existing tables: the boot step. */
  method RestoreFromDb(state: BrokerState) returns (ghost subscriptions: seq<(SubKey, SubRow)>)
    requires state.Valid() && state.sessions == map[] && state.router.root == EMPTY && state.router.rows == map[]
    modifies state`sessions, state.router
    ensures state.Valid()
    ensures HoldsReplay(state.router, state.db.subscriptions, subscriptions)
    ensures WorldOf(state) == AfterBoot(state.db.sessions, state.db.inFlight)
  {
    RestoreSessions(state);
    subscriptions := Restore(state.db, state.router);
    RestoreMessages(state);
  }
}
