/** The broker's state: its router, sessions, group counters and database, and how a publish goes through it. */
module Broker {
  import opened Basics
  import opened Topics
  import opened Acl
  import opened Wire
  import opened Packets
  import opened PublishFrames
  import Codec
  import opened Trie
  import opened Matching
  import opened Router
  import opened Session
  import opened RoundRobin
  import opened Delivery
  import opened Persistence
  import opened Publishing

  method Encoded(p: Packet) returns (frame: Bytes)
    ensures frame == EncodePacket(p)
  {
    var buf := new Writer();
    Codec.Encode(p, buf);
    frame := buf.bytes;
  }

  class BrokerState {
    const router: TopicRouter
    const db: Database
    const auth: AuthConfig
    var sessions: map<Text, ClientSession>
    var counters: Counters

    ghost predicate Valid()
      reads this`sessions, router
    {
      router.Valid() && forall c :: c in sessions ==> sessions[c].clientId == c
    }

    /** The registered sessions as values. */
    ghost function View(): Sessions
      reads this`sessions, sessions.Values
    {
      ViewOf(sessions)
    }

    static ghost function ViewOf(sessions: map<Text, ClientSession>): Sessions
      reads sessions.Values
    {
      map c | c in sessions :: sessions[c].Value()
    }

    static ghost function TermsOf(sessions: map<Text, ClientSession>): map<Text, SessionRow> {
      map c | c in sessions :: sessions[c].Terms()
    }

    /** What the registered sessions were made with. */
    ghost function Terms(): map<Text, SessionRow>
      reads this`sessions
    {
      TermsOf(sessions)
    }

    ghost function Now(): Moment
      reads this`counters, this`sessions, sessions.Values, db`inFlight
    {
      Moment(counters, View(), db.inFlight)
    }

    /** A broker over the tables that are there. */
    constructor (auth: AuthConfig, db: Database)
      ensures Valid() && fresh(router) && this.db == db && this.auth == auth
      ensures sessions == map[] && counters == map[] && router.rows == map[] && router.root == EMPTY
    {
      router := new TopicRouter();
      this.db := db;
      this.auth := auth;
      sessions, counters := map[], map[];
    }

    /** `register_session`: replaces an existing session of the same client. */
    method RegisterSession(session: ClientSession)
      requires Valid()
      modifies `sessions, db`sessions
      ensures Valid() && sessions == old(sessions)[session.clientId := session]
      ensures View() == old(View())[session.clientId := session.Value()]
      ensures Terms() == old(Terms())[session.clientId := session.Terms()]
      ensures db.sessions
           == if session.expiry > 0 then old(db.sessions)[session.clientId := session.Terms()] else old(db.sessions)
    {
      ViewWith(sessions, session);
      sessions := sessions[session.clientId := session];
      SaveIfPersistent(session);
    }

    static lemma ViewWith(sessions: map<Text, ClientSession>, session: ClientSession)
      ensures ViewOf(sessions[session.clientId := session]) == ViewOf(sessions)[session.clientId := session.Value()]
      ensures TermsOf(sessions[session.clientId := session]) == TermsOf(sessions)[session.clientId := session.Terms()]
    {
    }

    method SaveIfPersistent(session: ClientSession)
      modifies db`sessions
      ensures db.sessions
           == if session.expiry > 0 then old(db.sessions)[session.clientId := session.Terms()] else old(db.sessions)
    {
      if session.expiry > 0 {
        db.SaveSession(session.clientId, session.username, session.cleanStart, session.expiry);
      }
    }

    /** `remove_session`: the table rows go only with a session that does not persist. */
    method RemoveSession(client: Text)
      requires Valid()
      modifies `sessions, db
      ensures Valid() && sessions == old(sessions) - {client}
      ensures View() == old(View()) - {client} && Terms() == old(Terms()) - {client}
      ensures if client in old(sessions) && !Persists(old(sessions)[client].Terms())
              then
                && db.sessions == old(db.sessions) - {client}
                && db.subscriptions == WithoutClient(old(db.subscriptions), client)
                && db.inFlight == WithoutFlights(old(db.inFlight), client)
              else unchanged(db)
    {
      if client in sessions {
        var session := sessions[client];
        sessions := sessions - {client};
        if session.cleanStart || session.expiry == 0 {
          db.DeleteSession(client);
        }
      }
    }

    /** `BrokerState::subscribe`: the router and the table, in call order. */
    method Subscribe(client: Text, filter: Text, qos: byte, subId: Option<u32>)
      requires Valid()
      modifies router, db`subscriptions
      ensures Valid()
      ensures router.rows == StepRows(old(router.rows), SubscribeOp(client, filter, qos, subId))
      ensures router.root == StepTrie(old(router.root), SubscribeOp(client, filter, qos, subId))
      ensures db.subscriptions == old(db.subscriptions)[SubKey(client, filter) := SubRow(qos, subId)]
    {
      router.Subscribe(client, filter, qos, subId);
      db.SaveSubscription(client, filter, qos, subId);
    }

    /** `BrokerState::unsubscribe`: deletes the table row only when the router had the subscription. */
    method Unsubscribe(client: Text, filter: Text) returns (removed: bool)
      requires Valid()
      modifies router, db`subscriptions
      ensures Valid()
      ensures router.rows == StepRows(old(router.rows), UnsubscribeOp(client, filter))
      ensures router.root == StepTrie(old(router.root), UnsubscribeOp(client, filter))
      ensures removed <==> FilterKey(filter, client) in old(router.rows)
      ensures db.subscriptions
           == if removed then old(db.subscriptions) - {SubKey(client, filter)} else old(db.subscriptions)
    {
      removed := router.Unsubscribe(client, filter);
      if removed {
        db.DeleteSubscription(client, filter);
      }
    }

    // -------------------------------------------------------------------- delivery

    /** `send_publish_to_client`, for a client that has a session. */
    method SendToSession(session: ClientSession, m: Publication, to: SubInfo)
      requires session.clientId == to.client
      modifies session, db`inFlight
      ensures session.Value() == Sent(old(session.Value()), m, to.subId)
      ensures db.inFlight == SaveFlight(old(db.inFlight), old(session.nextPacketId), m, to.client)
    {
      var packetId: Option<u16> := None;
      if m.qos > 0 {
        var id := session.GetNextPacketId();
        session.AddInFlight(id, m.topic, m.payload, m.qos);
        db.SaveInFlight(to.client, id, m.topic, m.payload, m.qos);
        packetId := Some(id);
      }
      var frame := Encoded(Delivered(m, packetId, to.subId));
      session.Send(frame);
    }

    /** `send_publish_to_client` */
    method SendPublishToClient(m: Publication, to: SubInfo)
      requires Valid()
      modifies sessions.Values, db`inFlight
      ensures Valid()
      ensures Now() == DeliverTo(old(Now()), m, to)
    {
      if to.client in sessions {
        SendToSession(sessions[to.client], m, to);
        OneSessionChanged(to.client);
      }
    }

    /** When no session but one client's has changed, the view has changed there only. */
    twostate lemma OneSessionChanged(client: Text)
      requires Valid() && sessions == old(sessions) && client in sessions
      requires forall c :: c in sessions && sessions[c] != sessions[client] ==> unchanged(sessions[c])
      ensures View() == old(View())[client := sessions[client].Value()]
    {
      var after := old(View())[client := sessions[client].Value()];
      forall c | c in sessions ensures View()[c] == after[c] {
        assert c != client ==> sessions[c] != sessions[client];
      }
    }

    /** `route_publish`: unshared subscribers first, then one member of each group, groups in any order. */
    method RoutePublish(m: Publication)
      requires Valid()
      modifies sessions.Values, `counters, db`inFlight
      ensures Valid()
      ensures Published(router.root, m, old(Now()), Now())
    {
      var normal, shared := Route(m.topic);
      ghost var before := Now();
      ghost var groups := DeliverRoute(m, normal, shared);
      PublishedBy(router.root, m, before, Now(), normal, shared, groups);
    }

    /** The two delivery loops. */
    method DeliverRoute(m: Publication, normal: seq<SubInfo>, shared: map<Text, seq<SubInfo>>)
      returns (ghost groups: seq<Text>)
      requires Valid() && NoEmptyList(shared)
      modifies sessions.Values, `counters, db`inFlight
      ensures Valid() && EachOnce(groups, shared)
      ensures Now() == ServeGroups(DeliverToAll(old(Now()), m, normal), m, shared, groups)
    {
      DeliverNormal(m, normal);
      groups := DeliverShared(m, shared);
    }

    /** The router's answer as values. */
    method Route(topic: Text) returns (normal: seq<SubInfo>, shared: map<Text, seq<SubInfo>>)
      requires Valid()
      ensures IsRoute(normal, shared, router.root, Split(topic))
    {
      var route := router.MatchTopic(topic);
      normal, shared := route.normal, route.shared;
      forall g | g in shared ensures shared[g] != [] {
        assert ListOf(shared, g) == Members(router.root, Split(topic), g);
      }
    }

    method DeliverNormal(m: Publication, normal: seq<SubInfo>)
      requires Valid()
      modifies sessions.Values, db`inFlight
      ensures Valid()
      ensures Now() == DeliverToAll(old(Now()), m, normal)
    {
      ghost var before := Now();
      for i := 0 to |normal|
        invariant Valid()
        invariant Now() == DeliverToAll(before, m, normal[..i])
      {
        DeliverNext(before, m, normal[..i], normal[i]);
        assert normal[..i + 1] == normal[..i] + [normal[i]];
        SendPublishToClient(m, normal[i]);
      }
      assert normal[..|normal|] == normal;
    }

    /** One group: its counter steps, and the member at the old counter gets the message. */
    method DeliverToGroup(m: Publication, group: Text, members: seq<SubInfo>)
      requires Valid() && members != []
      modifies sessions.Values, `counters, db`inFlight
      ensures Valid()
      ensures Now() == ServeGroup(old(Now()), m, group, members)
    {
      var index := CounterOf(counters, group);
      counters := BumpGroup(counters, group);
      SendPublishToClient(m, members[index % |members|]);
    }

    method DeliverShared(m: Publication, shared: map<Text, seq<SubInfo>>) returns (ghost groups: seq<Text>)
      requires Valid() && NoEmptyList(shared)
      modifies sessions.Values, `counters, db`inFlight
      ensures Valid() && EachOnce(groups, shared)
      ensures Now() == ServeGroups(old(Now()), m, shared, groups)
    {
      groups := [];
      ghost var before := Now();
      var pending := shared.Keys;
      while pending != {}
        invariant Valid() && pending <= shared.Keys && Distinct(groups)
        invariant forall g :: g in groups <==> g in shared && g !in pending
        invariant Now() == ServeGroups(before, m, shared, groups)
        decreases pending
      {
        var group :| group in pending;
        ServeNext(before, m, shared, groups, group);
        DeliverToGroup(m, group, shared[group]);
        groups := groups + [group];
        pending := pending - {group};
      }
    }
  }
}
