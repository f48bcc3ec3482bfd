/**
 The packets byte for byte (sections 3.1 to 3.14 of MQTT Version 5.0): what each body decodes to, with the forms that
 the encoder never writes, and which bodies are refused.
 */
module PacketsOnTheWire {
  import opened Basics
  import opened Varint
  import opened Wire
  import opened PropertyBlocks
  import opened Properties
  import opened Packets
  import opened PacketRoundTrip
  import opened BlocksOnTheWire

  /** A fixed header: type and flags, then the number of bytes that follow. */
  lemma FrameDecodes(header: byte, body: Bytes, rest: Bytes)
    requires |body| < VARINT_LIMIT
    ensures DecodePacket([header] + (EncodeVarint(|body|) + body) + rest)
            == match DecodeBody(header, body)
               case Err(e) => Err(e)
               case Ok(p) => Ok((p, 1 + |EncodeVarint(|body|)| + |body|))
  {
    FrameSplits(header, body, rest);
    FrameThenBody([header] + (EncodeVarint(|body|) + body) + rest, header, body, 1 + |EncodeVarint(|body|)| + |body|);
  }

  lemma FrameSplits(header: byte, body: Bytes, rest: Bytes)
    requires |body| < VARINT_LIMIT
    ensures DecodeFrame([header] + (EncodeVarint(|body|) + body) + rest)
            == Ok((header, body, 1 + |EncodeVarint(|body|)| + |body|))
  {
    FrameIs(header, body);
    FrameRoundTrip(header, body, rest);
  }

  lemma FrameThenBody(b: Bytes, header: byte, body: Bytes, n: nat)
    requires DecodeFrame(b) == Ok((header, body, n))
    ensures DecodePacket(b) == match DecodeBody(header, body) case Err(e) => Err(e) case Ok(p) => Ok((p, n))
  {
  }

  lemma FrameIs(header: byte, body: Bytes)
    requires |body| < VARINT_LIMIT
    ensures Frame(header, body) == [header] + (EncodeVarint(|body|) + body)
    ensures |Frame(header, body)| == 1 + |EncodeVarint(|body|)| + |body|
  {
  }

  lemma ReadSized(data: Bytes, rest: Bytes)
    requires |data| < 65536
    ensures ReadBytes(Sized(data) + rest) == Ok((data, rest))
    ensures ReadStr(Sized(data) + rest) == if Utf8(data) then Ok((data, rest)) else Err(MalformedPacket)
  {
    SizedIsPrefixed(data);
    BytesRoundTrip(data, rest);
  }

  /** A property block: its length and its fields. */
  function Block<P>(schema: Schema<P>, props: P): Bytes {
    EncodeVarint(|BlockBody(schema, props)|) + BlockBody(schema, props)
  }

  lemma ReadsBlock<P(!new)>(schema: Schema<P>, good: P -> bool, props: P, rest: Bytes)
    requires Lawful(schema, good) && good(props) && |BlockBody(schema, props)| < VARINT_LIMIT
    ensures ReadBlock(schema, Block(schema, props) + rest) == Ok((props, rest))
  {
    BlockRoundTrip(schema, good, props, rest);
  }

  function OptSized(o: Option<Bytes>): Bytes {
    if o.Some? then Sized(o.value) else []
  }

  // ---------------------------------------------------------------------- CONNECT

  /** A Will: properties behind their length, a topic and a payload. */
  datatype Will = Will(props: Bytes, topic: Bytes, payload: Bytes)

  function WillBytes(w: Option<Will>): Bytes {
    match w
    case None => []
    case Some(will) => EncodeVarint(|will.props|) + (will.props + (Sized(will.topic) + Sized(will.payload)))
  }

  predicate GoodWill(w: Option<Will>) {
    w.Some? ==> |w.value.props| < VARINT_LIMIT && |w.value.topic| < 65536 && |w.value.payload| < 65536
  }

  lemma SkipFirst(data: Bytes, rest: Bytes)
    ensures Skip(data + rest, |data|) == Ok(rest)
  {
  }

  lemma SkipSized(data: Bytes, rest: Bytes)
    requires |data| < 65536
    ensures ReadU16(Sized(data) + rest) == Ok((|data|, data + rest)) && Skip(data + rest, |data|) == Ok(rest)
  {
    SizedIsPrefixed(data);
    U16RoundTrip(|data|, data + rest);
    ConcatAssociates(U16Bytes(|data|), data, rest);
    SkipFirst(data, rest);
  }

  /** A Will is passed over, whatever it says. */
  lemma WillIsSkipped(w: Option<Will>, rest: Bytes)
    requires GoodWill(w)
    ensures SkipWill(w.Some?, WillBytes(w) + rest) == Ok(rest)
  {
    if w.Some? {
      var will := w.value;
      var s5 := Sized(will.payload) + rest;
      var s3 := Sized(will.topic) + s5;
      FourPieces(EncodeVarint(|will.props|), will.props, Sized(will.topic), Sized(will.payload), rest);
      VarintReadRoundTrip(|will.props|, will.props + s3);
      SkipFirst(will.props, s3);
      SkipSized(will.topic, s5);
      SkipSized(will.payload, rest);
      SkipSteps(EncodeVarint(|will.props|) + (will.props + s3), |will.props|, will.props + s3, s3, |will.topic|,
                will.topic + s5, s5, |will.payload|, will.payload + rest, rest);
    } else {
      assert WillBytes(w) + rest == rest;
    }
  }

  lemma FourPieces(a: Bytes, b: Bytes, c: Bytes, d: Bytes, rest: Bytes)
    ensures a + (b + (c + d)) + rest == a + (b + (c + (d + rest)))
  {
  }

  lemma SkipSteps(s: Bytes, n: u32, s1: Bytes, s2: Bytes, topic: u16, s3: Bytes, s4: Bytes, payload: u16, s5: Bytes,
                  rest: Bytes)
    requires ReadVarint(s) == Ok((n, s1)) && Skip(s1, n) == Ok(s2)
    requires ReadU16(s2) == Ok((topic, s3)) && Skip(s3, topic) == Ok(s4)
    requires ReadU16(s4) == Ok((payload, s5)) && Skip(s5, payload) == Ok(rest)
    ensures SkipWill(true, s) == Ok(rest)
  {
  }

  lemma OptTextRead(o: Option<Text>, rest: Bytes)
    requires GoodOptText(o)
    ensures ReadOptStr(o.Some?, OptSized(o) + rest) == Ok((o, rest))
  {
    if o.Some? { ReadSized(o.value, rest); } else { assert OptSized(o) + rest == rest; }
  }

  lemma OptDataRead(o: Option<Bytes>, rest: Bytes)
    requires GoodOptData(o)
    ensures ReadOptBytes(o.Some?, OptSized(o) + rest) == Ok((o, rest))
  {
    if o.Some? { ReadSized(o.value, rest); } else { assert OptSized(o) + rest == rest; }
  }

  lemma CredentialsDecode(flags: byte, clientId: Text, will: Option<Will>, username: Option<Text>,
                          password: Option<Bytes>, rest: Bytes)
    requires GoodText(clientId) && GoodWill(will) && GoodOptText(username) && GoodOptData(password)
    requires FlagsSay(flags, will.Some?, username.Some?, password.Some?)
    ensures Credentials(flags, Sized(clientId) + (WillBytes(will) + (OptSized(username) + (OptSized(password) + rest))))
            == Ok((clientId, username, password))
  {
    var s8 := OptSized(password) + rest;
    var s7 := OptSized(username) + s8;
    var s6 := WillBytes(will) + s7;
    ReadSized(clientId, s6);
    WillIsSkipped(will, s7);
    OptTextRead(username, s8);
    OptDataRead(password, rest);
  }

  /** "MQTT" with its length, level 5, flags, keep-alive. */
  function ConnectStart(flags: byte, keepAlive: u16): Bytes {
    [0, 4, 0x4D, 0x51, 0x54, 0x54, 5, flags, keepAlive / 256, keepAlive % 256]
  }

  /** The flags say which fields follow the client id. */
  predicate FlagsSay(flags: byte, will: bool, username: bool, password: bool) {
    (flags / 4 % 2 == 1 <==> will) && (flags / 128 % 2 == 1 <==> username) && (flags / 64 % 2 == 1 <==> password)
  }

  /**
   A CONNECT: the fixed start, properties, client id, then as the flags say a Will, which is passed over, a user name
   and a password. Bit 1 of the flags asks for a clean start; bytes after that do not matter.
   */
  lemma ConnectDecodes(flags: byte, keepAlive: u16, props: ConnectProperties, clientId: Text, will: Option<Will>,
                       username: Option<Text>, password: Option<Bytes>, rest: Bytes)
    requires GoodConnect(props) && |BlockBody(CONNECT, props)| < VARINT_LIMIT
    requires GoodText(clientId) && GoodWill(will) && GoodOptText(username) && GoodOptData(password)
    requires FlagsSay(flags, will.Some?, username.Some?, password.Some?)
    ensures var tail := Sized(clientId) + (WillBytes(will) + (OptSized(username) + (OptSized(password) + rest)));
            DecodeBody(0x10, ConnectStart(flags, keepAlive) + (Block(CONNECT, props) + tail))
            == Ok(Connect(clientId, keepAlive, flags / 2 % 2 == 1, username, password, props))
  {
    var tail := Sized(clientId) + (WillBytes(will) + (OptSized(username) + (OptSized(password) + rest)));
    ConnectLawful();
    ReadsBlock(CONNECT, GoodConnect, props, tail);
    CredentialsDecode(flags, clientId, will, username, password, rest);
    var s4 := Block(CONNECT, props) + tail;
    ConnectHead(flags, keepAlive, s4);
    U16RoundTrip(keepAlive, s4);
    ConnectBody(ConnectStart(flags, keepAlive) + s4, [5, flags] + (U16Bytes(keepAlive) + s4),
                [flags] + (U16Bytes(keepAlive) + s4), U16Bytes(keepAlive) + s4, s4, tail,
                Connect(clientId, keepAlive, flags / 2 % 2 == 1, username, password, props), flags);
  }

  lemma ConnectHead(flags: byte, keepAlive: u16, s4: Bytes)
    ensures var s3 := U16Bytes(keepAlive) + s4;
            && ReadStr(ConnectStart(flags, keepAlive) + s4) == Ok((MQTT, [5, flags] + s3))
            && ReadU8([5, flags] + s3) == Ok((5, [flags] + s3)) && ReadU8([flags] + s3) == Ok((flags, s3))
  {
    var s3 := U16Bytes(keepAlive) + s4;
    Utf8Mqtt();
    ReadSized(MQTT, [5, flags] + s3);
    NameComesFirst(flags, keepAlive, s4);
    assert ([5, flags] + s3)[1..] == [flags] + s3 && ([flags] + s3)[1..] == s3;
  }

  lemma NameComesFirst(flags: byte, keepAlive: u16, s4: Bytes)
    ensures ConnectStart(flags, keepAlive) + s4 == Sized(MQTT) + ([5, flags] + (U16Bytes(keepAlive) + s4))
  {
  }

  lemma ConnectBody(s: Bytes, s1: Bytes, s2: Bytes, s3: Bytes, s4: Bytes, s5: Bytes, p: Packet, flags: byte)
    requires p.Connect? && p.cleanStart == (flags / 2 % 2 == 1)
    requires ReadStr(s) == Ok((MQTT, s1)) && ReadU8(s1) == Ok((5, s2)) && ReadU8(s2) == Ok((flags, s3))
    requires ReadU16(s3) == Ok((p.keepAlive, s4)) && ReadBlock(CONNECT, s4) == Ok((p.connectProps, s5))
    requires Credentials(flags, s5) == Ok((p.clientId, p.username, p.password))
    ensures DecodeBody(0x10, s) == Ok(p)
  {
  }

  lemma {:induction false} AbsentFields(slots: seq<Slot>)
    requires forall i :: 0 <= i < |slots| ==> FieldBytes(slots[i]) == []
    ensures FieldsBytes(slots) == []
  {
    if slots != [] { AbsentFields(slots[1..]); }
  }

  /** A session expiry alone: five bytes, of which four are the interval, big-endian. */
  lemma SessionExpiryDecodes(a: byte, b: byte, c: byte, d: byte, rest: Bytes)
    ensures ReadBlock(CONNECT, [5, 0x11, a, b, c, d] + rest) == Ok((OnlyExpiry(FourBytes(a, b, c, d)), rest))
  {
    BigEndian(a, b, c, d);
    var v := FourBytes(a, b, c, d);
    ExpiryBlock(v);
    ConnectLawful();
    ReadsBlock(CONNECT, GoodConnect, OnlyExpiry(v), rest);
  }

  function FourBytes(a: byte, b: byte, c: byte, d: byte): u32 {
    16777216 * a as int + 65536 * b as int + 256 * c as int + d as int
  }

  function OnlyExpiry(v: u32): ConnectProperties {
    ConnectProperties(Some(v), None, None, None, None, None, [], None, None)
  }

  lemma ExpiryBlock(v: u32)
    ensures Block(CONNECT, OnlyExpiry(v)) == [5, 0x11, v / 16777216, v / 65536 % 256, v / 256 % 256, v % 256]
  {
    ConnectOnTheWire(OnlyExpiry(v));
    ExpiryField(v);
  }

  lemma BigEndian(a: byte, b: byte, c: byte, d: byte)
    ensures var v := FourBytes(a, b, c, d);
            v / 16777216 == a && v / 65536 % 256 == b && v / 256 % 256 == c && v % 256 == d
  {
    var v := FourBytes(a, b, c, d);
    assert v % 256 == d && v / 256 == 65536 * a as int + 256 * b as int + c as int;
    assert v / 65536 == 256 * a as int + b as int;
  }

  lemma ExpiryField(v: u32)
    ensures FieldsBytes([One(0x11, OptU32(Some(v))), One(0x21, OptU16(None)), One(0x27, OptU32(None)),
                         One(0x22, OptU16(None)), One(0x19, OptU8(None)), One(0x17, OptU8(None)), Users([]),
                         One(0x15, OptStr(None)), One(0x16, OptBin(None))])
            == [0x11, v / 16777216, v / 65536 % 256, v / 256 % 256, v % 256]
  {
    var absent := [One(0x21, OptU16(None)), One(0x27, OptU32(None)), One(0x22, OptU16(None)), One(0x19, OptU8(None)),
                   One(0x17, OptU8(None)), Users([]), One(0x15, OptStr(None)), One(0x16, OptBin(None))];
    AbsentFields(absent);
    assert ([One(0x11, OptU32(Some(v)))] + absent)[1..] == absent;
  }

  /** Another protocol name is malformed, another level is named in the error. */
  lemma ConnectRefused(name: Text, level: byte, rest: Bytes)
    ensures GoodText(name) && name != MQTT ==> DecodeBody(0x10, Sized(name) + rest) == Err(MalformedPacket)
    ensures level != 5 ==>
              DecodeBody(0x10, [0, 4, 0x4D, 0x51, 0x54, 0x54, level] + rest) == Err(UnsupportedProtocolVersion(level))
  {
    if GoodText(name) { ReadSized(name, rest); }
    Utf8Mqtt();
    ReadSized(MQTT, [level] + rest);
    assert [0, 4, 0x4D, 0x51, 0x54, 0x54, level] + rest == Sized(MQTT) + ([level] + rest);
  }

  // ------------------------------------------------------------ the other packets

  /**
   Refused by the fixed header: flags on CONNECT and the pings, a quality of service of 3, SUBSCRIBE flags other than 2,
   a ping with a body, and types that the source does not know.
   */
  lemma RefusedByHeader(header: byte, body: Bytes)
    requires || (header / 16 == 1 && header % 16 != 0) || (header / 16 == 3 && header / 2 % 4 == 3)
             || (header / 16 == 8 && header % 16 != 2)
             || (header / 16 in {12, 13} && (header % 16 != 0 || body != []))
             || header / 16 in {0, 5, 6, 7, 10, 11, 15}
    ensures DecodeBody(header, body) == Err(MalformedPacket)
  {
    assert header % 16 / 2 % 4 == header / 2 % 4;
  }

  lemma ConnAckDecodes(flags: nat, present: byte, code: byte, props: ConnAckProperties, rest: Bytes)
    requires flags < 16 && GoodConnAck(props) && |BlockBody(CONNACK, props)| < VARINT_LIMIT
    ensures DecodeBody(0x20 + flags, [present] + ([code] + (Block(CONNACK, props) + rest)))
            == Ok(ConnAck(present % 2 == 1, code, props))
  {
    ConnAckLawful();
    ReadsBlock(CONNACK, GoodConnAck, props, rest);
    var s2 := Block(CONNACK, props) + rest;
    assert ([present] + ([code] + s2))[1..] == [code] + s2 && ([code] + s2)[1..] == s2;
    ConnAckSteps([present] + ([code] + s2), [code] + s2, s2, rest, present, ConnAck(present % 2 == 1, code, props));
  }

  /** The first byte of a PUBLISH. */
  function PublishHeader(dup: bool, qos: byte, retain: bool): byte
    requires qos <= 2
  {
    0x30 + (if dup then 8 else 0) + 2 * qos + if retain then 1 else 0
  }

  function Number(id: Option<u16>): Bytes {
    if id.Some? then [id.value / 256, id.value % 256] else []
  }

  lemma NumberRead(id: Option<u16>, rest: Bytes)
    ensures ReadOptU16(id.Some?, Number(id) + rest) == Ok((id, rest))
  {
    OptU16RoundTrip(id, rest);
  }

  /** A PUBLISH: topic, a packet id if there is a quality of service, properties, and the rest is the payload. */
  lemma PublishDecodes(dup: bool, qos: byte, retain: bool, topic: Text, id: Option<u16>, props: PublishProperties,
                       payload: Bytes)
    requires qos <= 2 && (id.Some? <==> qos > 0) && GoodText(topic)
    requires GoodPublish(props) && |BlockBody(PUBLISH, props)| < VARINT_LIMIT
    ensures DecodeBody(PublishHeader(dup, qos, retain),
                       Sized(topic) + (Number(id) + (Block(PUBLISH, props) + payload)))
            == Ok(Publish(dup, qos, retain, topic, id, props, payload))
  {
    PublishBits(dup, qos, retain);
    PublishFrom(PublishHeader(dup, qos, retain), Publish(dup, qos, retain, topic, id, props, payload));
  }

  lemma PublishFrom(header: byte, p: Packet)
    requires p.Publish? && WellFormed(p) && |BlockBody(PUBLISH, p.publishProps)| < VARINT_LIMIT
    requires 0x30 <= header < 0x40
    requires var flags := header - 0x30;
             HasBit(flags, 8) == p.dup && flags / 2 % 4 == p.qos && HasBit(flags, 1) == p.retain
    ensures DecodeBody(header, Sized(p.topic) + (Number(p.publishId) + (Block(PUBLISH, p.publishProps) + p.payload)))
            == Ok(p)
  {
    PublishBytes(header - 0x30, p);
    PublishDispatch(header, header - 0x30,
                    Sized(p.topic) + (Number(p.publishId) + (Block(PUBLISH, p.publishProps) + p.payload)), p);
  }

  lemma PublishBytes(flags: byte, p: Packet)
    requires p.Publish? && WellFormed(p) && |BlockBody(PUBLISH, p.publishProps)| < VARINT_LIMIT
    requires HasBit(flags, 8) == p.dup && flags / 2 % 4 == p.qos && HasBit(flags, 1) == p.retain
    ensures DecodePublish(flags, Sized(p.topic) + (Number(p.publishId) + (Block(PUBLISH, p.publishProps) + p.payload)))
            == Ok(p)
  {
    var s2 := Block(PUBLISH, p.publishProps) + p.payload;
    var s1 := Number(p.publishId) + s2;
    ReadSized(p.topic, s1);
    NumberRead(p.publishId, s2);
    PublishLawful();
    ReadsBlock(PUBLISH, GoodPublish, p.publishProps, p.payload);
    PublishSteps(flags, Sized(p.topic) + s1, s1, s2, p);
  }

  lemma PublishBits(dup: bool, qos: byte, retain: bool)
    requires qos <= 2
    ensures var flags := PublishHeader(dup, qos, retain) - 0x30;
            0 <= flags < 16 && HasBit(flags, 8) == dup && flags / 2 % 4 == qos && HasBit(flags, 1) == retain
  {
  }

  /** A PUBACK may stop behind its id or behind its reason; what is missing is success and no properties. */
  lemma ShortPubAckDecodes(flags: nat, id: u16, code: byte)
    requires flags < 16
    ensures DecodeBody(0x40 + flags, [id / 256, id % 256]) == Ok(PubAck(id, 0, PubAckProperties(None, [])))
    ensures DecodeBody(0x40 + flags, [id / 256, id % 256, code]) == Ok(PubAck(id, code, PubAckProperties(None, [])))
  {
    U16RoundTrip(id, []);
    U16RoundTrip(id, [code]);
    assert U16Bytes(id) + [] == [id / 256, id % 256] && U16Bytes(id) + [code] == [id / 256, id % 256, code];
    PubAckDispatch(0x40 + flags, [id / 256, id % 256], [], PubAck(id, 0, PubAckProperties(None, [])));
    PubAckDispatch(0x40 + flags, [id / 256, id % 256, code], [code], PubAck(id, code, PubAckProperties(None, [])));
  }

  lemma PubAckDecodes(flags: nat, id: u16, code: byte, props: PubAckProperties, rest: Bytes)
    requires flags < 16 && GoodPubAck(props) && |BlockBody(PUBACK, props)| < VARINT_LIMIT
    ensures DecodeBody(0x40 + flags, [id / 256, id % 256] + ([code] + (Block(PUBACK, props) + rest)))
            == Ok(PubAck(id, code, props))
  {
    var s2 := Block(PUBACK, props) + rest;
    U16RoundTrip(id, [code] + s2);
    PubAckLawful();
    ReadsBlock(PUBACK, GoodPubAck, props, rest);
    assert ([code] + s2)[1..] == s2;
    PubAckDispatch(0x40 + flags, [id / 256, id % 256] + ([code] + s2), [code] + s2, PubAck(id, code, props));
  }

  /** A DISCONNECT may stop at once, or behind its reason. */
  lemma DisconnectDecodes(flags: nat, code: byte, props: DisconnectProperties, rest: Bytes)
    requires flags < 16 && GoodDisconnect(props) && |BlockBody(DISCONNECT, props)| < VARINT_LIMIT
    ensures DecodeBody(0xE0 + flags, []) == Ok(Disconnect(0, DisconnectProperties(None, None, [], None)))
    ensures DecodeBody(0xE0 + flags, [code]) == Ok(Disconnect(code, DisconnectProperties(None, None, [], None)))
    ensures DecodeBody(0xE0 + flags, [code] + (Block(DISCONNECT, props) + rest)) == Ok(Disconnect(code, props))
  {
    var s2 := Block(DISCONNECT, props) + rest;
    DisconnectLawful();
    ReadsBlock(DISCONNECT, GoodDisconnect, props, rest);
    assert ([code] + s2)[1..] == s2;
    DisconnectDispatch(0xE0 + flags, [], Disconnect(0, DisconnectProperties(None, None, [], None)));
    DisconnectDispatch(0xE0 + flags, [code], Disconnect(code, DisconnectProperties(None, None, [], None)));
    DisconnectDispatch(0xE0 + flags, [code] + s2, Disconnect(code, props));
  }

  function EntryPieces(subs: seq<Subscription>): Bytes {
    if subs == [] then [] else Sized(subs[0].filter) + [subs[0].options] + EntryPieces(subs[1..])
  }

  lemma {:induction false} EntriesArePrinted(subs: seq<Subscription>)
    ensures EntryPieces(subs) == SubscriptionsBytes(subs)
  {
    if subs != [] {
      EntriesArePrinted(subs[1..]);
      SizedIsPrefixed(subs[0].filter);
    }
  }

  /** A SUBSCRIBE: id, properties, then filters each with a byte of options; with none it is malformed. */
  lemma SubscribeDecodes(id: u16, props: SubscribeProperties, subs: seq<Subscription>)
    requires GoodSubscribe(props) && |BlockBody(SUBSCRIBE, props)| < VARINT_LIMIT && GoodSubscriptions(subs)
    ensures DecodeBody(0x82, [id / 256, id % 256] + (Block(SUBSCRIBE, props) + EntryPieces(subs)))
            == if subs == [] then Err(MalformedPacket) else Ok(Subscribe(id, props, subs))
  {
    var s2 := EntryPieces(subs);
    var s1 := Block(SUBSCRIBE, props) + s2;
    EntriesArePrinted(subs);
    SubscriptionsRoundTrip(subs);
    U16RoundTrip(id, s1);
    SubscribeLawful();
    ReadsBlock(SUBSCRIBE, GoodSubscribe, props, s2);
    SubscribeEnds([id / 256, id % 256] + s1, s1, s2, id, props, subs);
    if subs == [] {
      SubscribeRefuses(0x82, 2, [id / 256, id % 256] + s1, MalformedPacket);
    } else {
      SubscribeDispatch(0x82, 2, [id / 256, id % 256] + s1, Subscribe(id, props, subs));
    }
  }

  lemma SubscribeEnds(s: Bytes, s1: Bytes, s2: Bytes, id: u16, props: SubscribeProperties, subs: seq<Subscription>)
    requires ReadU16(s) == Ok((id, s1)) && ReadBlock(SUBSCRIBE, s1) == Ok((props, s2))
    requires ReadSubscriptions(s2) == Ok(subs)
    ensures DecodeSubscribe(2, s) == if subs == [] then Err(MalformedPacket) else Ok(Subscribe(id, props, subs))
  {
  }

  lemma SubscribeRefuses(header: byte, flags: nat, s: Bytes, e: CodecError)
    requires header / 16 == 8 && header % 16 == flags && DecodeSubscribe(flags, s) == Err(e)
    ensures DecodeBody(header, s) == Err(e)
  {
  }

  /** A SUBACK: id, properties, and every byte left is a code. */
  lemma SubAckDecodes(flags: nat, id: u16, props: SubAckProperties, codes: Bytes)
    requires flags < 16 && GoodSubAck(props) && |BlockBody(SUBACK, props)| < VARINT_LIMIT
    ensures DecodeBody(0x90 + flags, [id / 256, id % 256] + (Block(SUBACK, props) + codes))
            == Ok(SubAck(id, props, codes))
  {
    var s1 := Block(SUBACK, props) + codes;
    U16RoundTrip(id, s1);
    SubAckLawful();
    ReadsBlock(SUBACK, GoodSubAck, props, codes);
    SubAckSteps([id / 256, id % 256] + s1, s1, SubAck(id, props, codes));
    SubAckDispatch(0x90 + flags, [id / 256, id % 256] + s1, SubAck(id, props, codes));
  }

  /** The pings are two bytes each. */
  lemma PingsDecode(rest: Bytes)
    ensures DecodePacket([0xC0, 0] + rest) == Ok((PingReq, 2)) && DecodePacket([0xD0, 0] + rest) == Ok((PingResp, 2))
  {
    FrameDecodes(0xC0, [], rest);
    FrameDecodes(0xD0, [], rest);
    PingRoundTrip();
    assert [0xC0] + (EncodeVarint(0) + []) == [0xC0, 0] && [0xD0] + (EncodeVarint(0) + []) == [0xD0, 0];
  }

  // ------------------------------------------------------------- bodies cut short

  /** A body that ends inside its fixed fields is incomplete. */
  lemma CutInFixedFields(s: Bytes, flags: byte, keepAlive: u16, k: nat)
    requires |s| < 2 && k < 10
    ensures DecodeBody(0x20, s) == DecodeBody(0x30, s) == DecodeBody(0x40, s) == Err(Incomplete)
    ensures DecodeBody(0x82, s) == DecodeBody(0x90, s) == Err(Incomplete)
    ensures DecodeConnect(0, ConnectStart(flags, keepAlive)[..k]) == Err(Incomplete)
  {
    ConnectCutShort(flags, keepAlive, k);
  }

  lemma ConnectCutShort(flags: byte, keepAlive: u16, k: nat)
    requires k < 10
    ensures DecodeConnect(0, ConnectStart(flags, keepAlive)[..k]) == Err(Incomplete)
  {
    var s := ConnectStart(flags, keepAlive)[..k];
    if k >= 6 {
      Utf8Mqtt();
      ReadSized(MQTT, s[6..]);
      assert s == Sized(MQTT) + s[6..];
    }
  }

  /** A property block that says more than there is, or that ends inside a value, is incomplete. */
  lemma CutInProperties<P>(schema: Schema<P>, n: u32, short: Bytes, id: byte, rest: Bytes)
    requires |short| < n < VARINT_LIMIT && schema.kind(id).Some?
    ensures ReadBlock(schema, EncodeVarint(n) + short) == Err(Incomplete)
    ensures ReadBlock(schema, [1, id] + rest) == Err(Incomplete)
  {
    VarintReadRoundTrip(n, short);
    assert ([1, id] + rest)[1..] == [id] + rest && ([id] + rest)[..1] == [id] && [id][1..] == [];
    EndsInValue(schema.kind, id);
  }

  lemma EndsInValue(kind: byte -> Option<Kind>, id: byte)
    requires kind(id).Some?
    ensures ParseEntries(kind, [id]) == Err(Incomplete)
  {
    assert [id][1..] == [];
  }

  lemma SkipTooFar(n: u16, short: Bytes)
    requires |short| < n
    ensures ReadU16(U16Bytes(n) + short) == Ok((n, short)) && Skip(short, n) == Err(SliceOutOfRange)
  {
    U16RoundTrip(n, short);
  }

  /** A Will whose properties reach past the packet is where the source would panic. */
  lemma WillPropertiesPastTheEnd(n: u32, short: Bytes)
    requires |short| < n < VARINT_LIMIT
    ensures SkipWill(true, EncodeVarint(n) + short) == Err(SliceOutOfRange)
  {
    VarintReadRoundTrip(n, short);
  }

  /** Or its topic. */
  lemma WillTopicPastTheEnd(props: Bytes, n: u16, short: Bytes)
    requires |short| < n && |props| < VARINT_LIMIT
    ensures SkipWill(true, EncodeVarint(|props|) + (props + ([n / 256, n % 256] + short))) == Err(SliceOutOfRange)
  {
    var last := U16Bytes(n) + short;
    SkipTooFar(n, short);
    VarintReadRoundTrip(|props|, props + last);
    SkipFirst(props, last);
  }

  /** Or its payload. */
  lemma WillPayloadPastTheEnd(props: Bytes, topic: Bytes, n: u16, short: Bytes)
    requires |short| < n && |props| < VARINT_LIMIT && |topic| < 65536
    ensures SkipWill(true, EncodeVarint(|props|) + (props + (Sized(topic) + ([n / 256, n % 256] + short))))
            == Err(SliceOutOfRange)
  {
    var last := U16Bytes(n) + short;
    SkipTooFar(n, short);
    VarintReadRoundTrip(|props|, props + (Sized(topic) + last));
    SkipFirst(props, Sized(topic) + last);
    SkipSized(topic, last);
  }

  // -------------------------------------------------------------- what is written

  function ConnectFlagsByte(cleanStart: bool, username: bool, password: bool): byte {
    (if cleanStart then 2 else 0) + (if username then 128 else 0) + if password then 64 else 0
  }

  /** The first byte of what the encoder writes. */
  function FirstByte(p: Packet): byte
    requires WellFormed(p)
  {
    match p
    case Connect(_, _, _, _, _, _) => 0x10
    case ConnAck(_, _, _) => 0x20
    case Publish(dup, qos, retain, _, _, _, _) => PublishHeader(dup, qos, retain)
    case PubAck(_, _, _) => 0x40
    case Subscribe(_, _, _) => 0x82
    case SubAck(_, _, _) => 0x90
    case PingReq => 0xC0
    case PingResp => 0xD0
    case Disconnect(_, _) => 0xE0
  }

  /** And what follows the length. A PUBACK or DISCONNECT that says nothing has neither reason nor properties. */
  function Following(p: Packet): Bytes {
    match p
    case Connect(clientId, keepAlive, cleanStart, username, password, props) =>
      ConnectStart(ConnectFlagsByte(cleanStart, username.Some?, password.Some?), keepAlive)
      + (Block(CONNECT, props) + (Sized(clientId) + (OptSized(username) + OptSized(password))))
    case ConnAck(present, code, props) => [if present then 1 else 0, code] + Block(CONNACK, props)
    case Publish(_, _, _, topic, id, props, payload) =>
      Sized(topic) + (Number(id) + (Block(PUBLISH, props) + payload))
    case PubAck(id, code, props) =>
      Number(Some(id)) + if code == 0 && props == PubAckProperties(None, []) then [] else [code] + Block(PUBACK, props)
    case Subscribe(id, props, subs) => Number(Some(id)) + (Block(SUBSCRIBE, props) + EntryPieces(subs))
    case SubAck(id, props, codes) => Number(Some(id)) + (Block(SUBACK, props) + codes)
    case PingReq => []
    case PingResp => []
    case Disconnect(code, props) =>
      if code == 0 && props == DisconnectProperties(None, None, [], None) then [] else [code] + Block(DISCONNECT, props)
  }

  lemma OptSizedIsPrefixed(o: Option<Bytes>)
    ensures OptPrefixed(o) == OptSized(o)
  {
    if o.Some? { SizedIsPrefixed(o.value); }
  }

  lemma BlockIs<P>(schema: Schema<P>, props: P)
    requires |BlockBody(schema, props)| < 0x1_0000_0000
    ensures BlockBytes(schema, props) == Block(schema, props)
  {
  }

  lemma ConnectFollows(p: Packet)
    requires p.Connect? && Fits(p)
    ensures Body(p) == Following(p)
  {
    BlockIs(CONNECT, p.connectProps);
    SizedIsPrefixed(p.clientId);
    OptSizedIsPrefixed(p.username);
    OptSizedIsPrefixed(p.password);
    StartIs(ConnectFlagsByte(p.cleanStart, p.username.Some?, p.password.Some?), p.keepAlive,
            Block(CONNECT, p.connectProps)
            + (Sized(p.clientId) + (OptSized(p.username) + OptSized(p.password))));
    FlagsAre(p.cleanStart, p.username.Some?, p.password.Some?);
  }

  lemma FlagsAre(cleanStart: bool, username: bool, password: bool)
    ensures ConnectFlags(cleanStart, username, password) == ConnectFlagsByte(cleanStart, username, password)
  {
  }

  lemma StartIs(flags: byte, keepAlive: u16, tail: Bytes)
    ensures Prefixed(MQTT) + ([PROTOCOL_LEVEL] + ([flags] + (U16Bytes(keepAlive) + tail)))
            == ConnectStart(flags, keepAlive) + tail
  {
    assert Prefixed(MQTT) == [0, 4, 0x4D, 0x51, 0x54, 0x54];
  }

  lemma PublishFollows(p: Packet)
    requires p.Publish? && Fits(p)
    ensures Body(p) == Following(p)
  {
    BlockIs(PUBLISH, p.publishProps);
    SizedIsPrefixed(p.topic);
  }

  lemma PubAckFollows(p: Packet)
    requires p.PubAck? && Fits(p)
    ensures Body(p) == Following(p)
  {
    if p.pubAckCode != 0 || p.pubAckProps != PubAckProperties(None, []) {
      BlockIs(PUBACK, p.pubAckProps);
    }
  }

  lemma SubscribeFollows(p: Packet)
    requires p.Subscribe? && Fits(p)
    ensures Body(p) == Following(p)
  {
    BlockIs(SUBSCRIBE, p.subscribeProps);
    EntriesArePrinted(p.subscriptions);
  }

  lemma DisconnectFollows(p: Packet)
    requires p.Disconnect? && Fits(p)
    ensures Body(p) == Following(p)
  {
    if p.disconnectCode != 0 || p.disconnectProps != DisconnectProperties(None, None, [], None) {
      BlockIs(DISCONNECT, p.disconnectProps);
    }
  }

  lemma BodyFollows(p: Packet)
    requires Fits(p)
    ensures Body(p) == Following(p)
  {
    match p
    case Connect(_, _, _, _, _, _) => ConnectFollows(p);
    case ConnAck(_, _, props) => BlockIs(CONNACK, props);
    case Publish(_, _, _, _, _, _, _) => PublishFollows(p);
    case PubAck(_, _, _) => PubAckFollows(p);
    case Subscribe(_, _, _) => SubscribeFollows(p);
    case SubAck(_, props, _) => BlockIs(SUBACK, props);
    case PingReq =>
    case PingResp =>
    case Disconnect(_, _) => DisconnectFollows(p);
  }

  lemma HeaderIsFirst(p: Packet)
    requires WellFormed(p)
    ensures Header(p) == FirstByte(p)
  {
  }

  /** `encode_packet` byte for byte, for all nine types. */
  lemma EncodedOnTheWire(p: Packet)
    requires WellFormed(p) && Fits(p)
    ensures EncodePacket(p) == [FirstByte(p)] + (EncodeVarint(|Following(p)|) + Following(p))
  {
    HeaderIsFirst(p);
    BodyFollows(p);
    FrameIs(FirstByte(p), Following(p));
  }
}
