/** Parsing undoes printing, on the well-formed packets that fit a frame. */
module PacketRoundTrip {
  import opened Basics
  import opened Varint
  import opened Wire
  import opened PropertyBlocks
  import opened Properties
  import opened Packets

  // ------------------------------------------- one packet type after another

  lemma OptStrRoundTrip(o: Option<Text>, rest: Bytes)
    requires GoodOptText(o)
    ensures ReadOptStr(o.Some?, OptPrefixed(o) + rest) == Ok((o, rest))
  {
    if o.Some? { BytesRoundTrip(o.value, rest); } else { assert [] + rest == rest; }
  }

  lemma OptBytesRoundTrip(o: Option<Bytes>, rest: Bytes)
    requires GoodOptData(o)
    ensures ReadOptBytes(o.Some?, OptPrefixed(o) + rest) == Ok((o, rest))
  {
    if o.Some? { BytesRoundTrip(o.value, rest); } else { assert [] + rest == rest; }
  }

  lemma OptU16RoundTrip(o: Option<u16>, rest: Bytes)
    ensures ReadOptU16(o.Some?, OptU16Bytes(o) + rest) == Ok((o, rest))
  {
    if o.Some? { U16RoundTrip(o.value, rest); } else { assert [] + rest == rest; }
  }

  lemma ConnectSteps(s: Bytes, s1: Bytes, s2: Bytes, s3: Bytes, s4: Bytes, s5: Bytes, s6: Bytes, s8: Bytes, s9: Bytes,
                     f: byte, p: Packet)
    requires p.Connect?
    requires ReadStr(s) == Ok((MQTT, s1)) && ReadU8(s1) == Ok((PROTOCOL_LEVEL, s2)) && ReadU8(s2) == Ok((f, s3))
    requires ReadU16(s3) == Ok((p.keepAlive, s4)) && ReadBlock(CONNECT, s4) == Ok((p.connectProps, s5))
    requires ReadStr(s5) == Ok((p.clientId, s6))
    requires ReadOptStr(HasBit(f, 0x80), s6) == Ok((p.username, s8))
    requires ReadOptBytes(HasBit(f, 0x40), s8) == Ok((p.password, s9))
    requires HasBit(f, 2) == p.cleanStart && !HasBit(f, 4)
    ensures DecodeConnect(0, s) == Ok(p)
  {
  }

  lemma ConnectRoundTrip(p: Packet)
    requires p.Connect? && WellFormed(p) && Fits(p)
    ensures DecodeBody(0x10, Body(p)) == Ok(p)
  {
    var f := ConnectFlags(p.cleanStart, p.username.Some?, p.password.Some?);
    var s9: Bytes := [];
    var s8 := OptPrefixed(p.password);
    var s6 := OptPrefixed(p.username) + s8;
    var s5 := Prefixed(p.clientId) + s6;
    var s4 := BlockBytes(CONNECT, p.connectProps) + s5;
    var s3 := U16Bytes(p.keepAlive) + s4;
    var s2: Bytes := [f] + s3;
    var s1 := [PROTOCOL_LEVEL] + s2;
    assert Utf8(MQTT) by { Utf8Mqtt(); }
    BytesRoundTrip(MQTT, s1);
    U16RoundTrip(p.keepAlive, s4);
    ConnectLawful();
    BlockRoundTrip(CONNECT, GoodConnect, p.connectProps, s5);
    BytesRoundTrip(p.clientId, s6);
    OptStrRoundTrip(p.username, s8);
    OptBytesRoundTrip(p.password, s9);
    assert s8 + s9 == s8;
    ConnectSteps(Prefixed(MQTT) + s1, s1, s2, s3, s4, s5, s6, s8, s9, f, p);
  }

  lemma Utf8Mqtt()
    ensures Utf8(MQTT)
  {
    assert MQTT[1..] == [0x51, 0x54, 0x54] && MQTT[1..][1..] == [0x54, 0x54];
    assert MQTT[1..][1..][1..] == [0x54] && MQTT[1..][1..][1..][1..] == [];
    assert Utf8(MQTT[1..][1..]);
  }

  lemma ConnAckSteps(s: Bytes, s1: Bytes, s2: Bytes, s3: Bytes, f: byte, p: Packet)
    requires p.ConnAck? && ReadU8(s) == Ok((f, s1)) && ReadU8(s1) == Ok((p.connAckCode, s2))
    requires ReadBlock(CONNACK, s2) == Ok((p.connAckProps, s3)) && HasBit(f, 1) == p.sessionPresent
    ensures DecodeConnAck(s) == Ok(p)
  {
  }

  lemma FlagBit(b: bool)
    ensures HasBit(Flag(b, 1), 1) == b
  {
  }

  lemma ConnAckBytes(f: byte, block: Bytes, p: Packet)
    requires p.ConnAck? && ReadBlock(CONNACK, block) == Ok((p.connAckProps, [])) && HasBit(f, 1) == p.sessionPresent
    ensures DecodeConnAck([f] + ([p.connAckCode] + block)) == Ok(p)
  {
    var s1 := [p.connAckCode] + block;
    assert ([f] + s1)[1..] == s1 && s1[1..] == block;
    ConnAckSteps([f] + s1, s1, block, [], f, p);
  }

  lemma ConnAckRoundTrip(p: Packet)
    requires p.ConnAck? && WellFormed(p) && Fits(p)
    ensures DecodeBody(0x20, Body(p)) == Ok(p)
  {
    ConnAckLawful();
    BlockRoundTrip(CONNACK, GoodConnAck, p.connAckProps, []);
    var block := BlockBytes(CONNACK, p.connAckProps);
    assert block + [] == block;
    FlagBit(p.sessionPresent);
    ConnAckBytes(Flag(p.sessionPresent, 1), block, p);
  }

  lemma PublishSteps(flags: byte, s: Bytes, s1: Bytes, s2: Bytes, p: Packet)
    requires p.Publish? && p.qos <= 2 && (p.publishId.Some? <==> p.qos > 0)
    requires HasBit(flags, 8) == p.dup && flags / 2 % 4 == p.qos && HasBit(flags, 1) == p.retain
    requires ReadStr(s) == Ok((p.topic, s1)) && ReadOptU16(p.publishId.Some?, s1) == Ok((p.publishId, s2))
    requires ReadBlock(PUBLISH, s2) == Ok((p.publishProps, p.payload))
    ensures DecodePublish(flags, s) == Ok(p)
  {
  }

  lemma PublishBody(p: Packet, flags: byte)
    requires p.Publish? && WellFormed(p) && Fits(p)
    requires HasBit(flags, 8) == p.dup && flags / 2 % 4 == p.qos && HasBit(flags, 1) == p.retain
    ensures DecodePublish(flags, Body(p)) == Ok(p)
  {
    var s2 := BlockBytes(PUBLISH, p.publishProps) + p.payload;
    var s1 := OptU16Bytes(p.publishId) + s2;
    BytesRoundTrip(p.topic, s1);
    OptU16RoundTrip(p.publishId, s2);
    PublishLawful();
    BlockRoundTrip(PUBLISH, GoodPublish, p.publishProps, p.payload);
    PublishSteps(flags, Prefixed(p.topic) + s1, s1, s2, p);
  }

  lemma PublishDispatch(header: byte, flags: byte, s: Bytes, p: Packet)
    requires header == 0x30 + flags && flags < 16 && DecodePublish(flags, s) == Ok(p)
    ensures DecodeBody(header, s) == Ok(p)
  {
    assert header / 16 == 3 && header % 16 == flags;
  }

  lemma PublishFlagFacts(p: Packet) returns (flags: byte)
    requires p.Publish? && p.qos <= 2
    ensures flags < 16 && Header(p) == 0x30 + flags
    ensures HasBit(flags, 8) == p.dup && flags / 2 % 4 == p.qos && HasBit(flags, 1) == p.retain
  {
    flags := PublishFlags(p.dup, p.qos, p.retain);
    assert p.qos % 4 == p.qos;
  }

  lemma PublishRoundTrip(p: Packet)
    requires p.Publish? && WellFormed(p) && Fits(p)
    ensures DecodeBody(Header(p), Body(p)) == Ok(p)
  {
    var flags := PublishFlagFacts(p);
    PublishBody(p, flags);
    PublishDispatch(Header(p), flags, Body(p), p);
  }

  /** A reason code and a block, or neither, come back. */
  lemma ReasonRoundTrip<P(!new)>(schema: Schema<P>, good: P -> bool, code: byte, props: P, saysNothing: bool)
    requires Lawful(schema, good) && good(props) && (saysNothing ==> props == From(schema, []))
    requires |ReasonBytes(schema, code, props, saysNothing)| < VARINT_LIMIT
    ensures ReadReason(schema, ReasonBytes(schema, code, props, saysNothing)) == Ok((code, props))
  {
    if !(saysNothing && code == 0) {
      var block := BlockBytes(schema, props);
      BlockRoundTrip(schema, good, props, []);
      assert block + [] == block && ([code] + block)[1..] == block;
    }
  }

  lemma PubAckDispatch(header: byte, s: Bytes, s1: Bytes, p: Packet)
    requires header / 16 == 4 && p.PubAck?
    requires ReadU16(s) == Ok((p.pubAckId, s1)) && ReadReason(PUBACK, s1) == Ok((p.pubAckCode, p.pubAckProps))
    ensures DecodeBody(header, s) == Ok(p)
  {
  }

  lemma PubAckRoundTrip(p: Packet)
    requires p.PubAck? && WellFormed(p) && Fits(p)
    ensures DecodeBody(0x40, Body(p)) == Ok(p)
  {
    var reason := ReasonBytes(PUBACK, p.pubAckCode, p.pubAckProps, PubAckSaysNothing(p.pubAckProps));
    U16RoundTrip(p.pubAckId, reason);
    PubAckLawful();
    ReasonRoundTrip(PUBACK, GoodPubAck, p.pubAckCode, p.pubAckProps, PubAckSaysNothing(p.pubAckProps));
    PubAckDispatch(0x40, Body(p), reason, p);
  }

  lemma DisconnectDispatch(header: byte, s: Bytes, p: Packet)
    requires header / 16 == 14 && p.Disconnect?
    requires ReadReason(DISCONNECT, s) == Ok((p.disconnectCode, p.disconnectProps))
    ensures DecodeBody(header, s) == Ok(p)
  {
  }

  lemma DisconnectRoundTrip(p: Packet)
    requires p.Disconnect? && WellFormed(p) && Fits(p)
    ensures DecodeBody(0xE0, Body(p)) == Ok(p)
  {
    DisconnectLawful();
    ReasonRoundTrip(DISCONNECT, GoodDisconnect, p.disconnectCode, p.disconnectProps,
                    DisconnectSaysNothing(p.disconnectProps));
    DisconnectDispatch(0xE0, Body(p), p);
  }

  lemma SubscriptionStep(s: Bytes, filter: Text, s1: Bytes, options: byte, s2: Bytes, more: seq<Subscription>)
    requires s != [] && ReadStr(s) == Ok((filter, s1)) && ReadU8(s1) == Ok((options, s2))
    requires ReadSubscriptions(s2) == Ok(more)
    ensures ReadSubscriptions(s) == Ok([Subscription(filter, options)] + more)
  {
  }

  lemma SubscriptionFront(sub: Subscription, rest: Bytes, more: seq<Subscription>)
    requires GoodText(sub.filter) && ReadSubscriptions(rest) == Ok(more)
    ensures ReadSubscriptions(SubscriptionBytes(sub) + rest) == Ok([sub] + more)
  {
    var s1 := [sub.options] + rest;
    ConcatAssociates(Prefixed(sub.filter), [sub.options], rest);
    BytesRoundTrip(sub.filter, s1);
    assert s1[1..] == rest;
    SubscriptionStep(Prefixed(sub.filter) + s1, sub.filter, s1, sub.options, rest, more);
  }

  lemma {:induction false} SubscriptionsRoundTrip(subs: seq<Subscription>)
    requires GoodSubscriptions(subs)
    ensures ReadSubscriptions(SubscriptionsBytes(subs)) == Ok(subs)
  {
    if subs != [] {
      SubscriptionsRoundTrip(subs[1..]);
      SubscriptionFront(subs[0], SubscriptionsBytes(subs[1..]), subs[1..]);
      assert subs == [subs[0]] + subs[1..];
    }
  }

  lemma SubscribeSteps(s: Bytes, s1: Bytes, s2: Bytes, p: Packet)
    requires p.Subscribe? && p.subscriptions != [] && ReadU16(s) == Ok((p.subscribeId, s1))
    requires ReadBlock(SUBSCRIBE, s1) == Ok((p.subscribeProps, s2)) && ReadSubscriptions(s2) == Ok(p.subscriptions)
    ensures DecodeSubscribe(2, s) == Ok(p)
  {
  }

  lemma SubscribeDispatch(header: byte, flags: nat, s: Bytes, p: Packet)
    requires header / 16 == 8 && header % 16 == flags && DecodeSubscribe(flags, s) == Ok(p)
    ensures DecodeBody(header, s) == Ok(p)
  {
  }

  lemma SubscribeRoundTrip(p: Packet)
    requires p.Subscribe? && WellFormed(p) && Fits(p)
    ensures DecodeBody(0x82, Body(p)) == Ok(p)
  {
    var s2 := SubscriptionsBytes(p.subscriptions);
    var s1 := BlockBytes(SUBSCRIBE, p.subscribeProps) + s2;
    U16RoundTrip(p.subscribeId, s1);
    SubscribeLawful();
    BlockRoundTrip(SUBSCRIBE, GoodSubscribe, p.subscribeProps, s2);
    SubscriptionsRoundTrip(p.subscriptions);
    SubscribeSteps(U16Bytes(p.subscribeId) + s1, s1, s2, p);
    SubscribeDispatch(0x82, 2, Body(p), p);
  }

  lemma SubAckSteps(s: Bytes, s1: Bytes, p: Packet)
    requires p.SubAck? && ReadU16(s) == Ok((p.subAckId, s1)) && ReadBlock(SUBACK, s1) == Ok((p.subAckProps, p.codes))
    ensures DecodeSubAck(s) == Ok(p)
  {
  }

  lemma SubAckDispatch(header: byte, s: Bytes, p: Packet)
    requires header / 16 == 9 && DecodeSubAck(s) == Ok(p)
    ensures DecodeBody(header, s) == Ok(p)
  {
  }

  lemma SubAckRoundTrip(p: Packet)
    requires p.SubAck? && WellFormed(p) && Fits(p)
    ensures DecodeBody(0x90, Body(p)) == Ok(p)
  {
    var s1 := BlockBytes(SUBACK, p.subAckProps) + p.codes;
    U16RoundTrip(p.subAckId, s1);
    SubAckLawful();
    BlockRoundTrip(SUBACK, GoodSubAck, p.subAckProps, p.codes);
    SubAckSteps(U16Bytes(p.subAckId) + s1, s1, p);
    SubAckDispatch(0x90, Body(p), p);
  }

  // -------------------------------------------------------------- whole packets

  lemma BodyRoundTrip(p: Packet)
    requires WellFormed(p) && Fits(p)
    ensures DecodeBody(Header(p), Body(p)) == Ok(p)
  {
    match p
    case Connect(_, _, _, _, _, _) => ConnectRoundTrip(p);
    case ConnAck(_, _, _) => ConnAckRoundTrip(p);
    case Publish(_, _, _, _, _, _, _) => PublishRoundTrip(p);
    case PubAck(_, _, _) => PubAckRoundTrip(p);
    case Subscribe(_, _, _) => SubscribeRoundTrip(p);
    case SubAck(_, _, _) => SubAckRoundTrip(p);
    case PingReq => PingRoundTrip();
    case PingResp => PingRoundTrip();
    case Disconnect(_, _) => DisconnectRoundTrip(p);
  }

  lemma PingRoundTrip()
    ensures DecodeBody(0xC0, []) == Ok(PingReq) && DecodeBody(0xD0, []) == Ok(PingResp)
  {
  }

  lemma FrameHead(header: byte, s1: Bytes, n: u32, s2: Bytes)
    requires ReadVarint(s1) == Ok((n, s2)) && n <= |s2|
    ensures DecodeFrame([header] + s1) == Ok((header, s2[..n], 1 + |s1| - |s2| + n))
  {
    assert ([header] + s1)[1..] == s1;
  }

  /** The frame of a header byte, a fitting remaining length and a body, whatever follows it. */
  lemma FrameRoundTrip(header: byte, body: Bytes, rest: Bytes)
    requires |body| < VARINT_LIMIT
    ensures DecodeFrame(Frame(header, body) + rest) == Ok((header, body, |Frame(header, body)|))
  {
    VarintReadRoundTrip(|body|, body + rest);
    FrameHead(header, EncodeVarint(|body|) + (body + rest), |body|, body + rest);
    FrameBytes(header, EncodeVarint(|body|), body, rest);
  }

  lemma FrameBytes(header: byte, length: Bytes, body: Bytes, rest: Bytes)
    ensures [header] + (length + body) + rest == [header] + (length + (body + rest))
    ensures (body + rest)[..|body|] == body
    ensures |[header] + (length + body)| == 1 + |length + (body + rest)| - |body + rest| + |body|
  {
  }

  /** `decode_packet` undoes `encode_packet`, whatever bytes follow. */
  lemma RoundTrip(p: Packet, rest: Bytes)
    requires WellFormed(p) && Fits(p)
    ensures DecodePacket(EncodePacket(p) + rest) == Ok((p, |EncodePacket(p)|))
  {
    BodyRoundTrip(p);
    FrameRoundTrip(Header(p), Body(p), rest);
  }
}
