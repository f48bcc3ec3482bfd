/** The nine packet types (sections 2.1 and 3.1 to 3.14 of MQTT Version 5.0): parser, printer, well-formedness. */
module Packets {
  import opened Basics
  import opened Varint
  import opened Wire
  import opened PropertyBlocks
  import opened Properties

  datatype Subscription = Subscription(filter: Text, options: byte)

  datatype Packet =
    | Connect(clientId: Text, keepAlive: u16, cleanStart: bool, username: Option<Text>, password: Option<Bytes>,
              connectProps: ConnectProperties)
    | ConnAck(sessionPresent: bool, connAckCode: byte, connAckProps: ConnAckProperties)
    | Publish(dup: bool, qos: byte, retain: bool, topic: Text, publishId: Option<u16>,
              publishProps: PublishProperties, payload: Bytes)
    | PubAck(pubAckId: u16, pubAckCode: byte, pubAckProps: PubAckProperties)
    | Subscribe(subscribeId: u16, subscribeProps: SubscribeProperties, subscriptions: seq<Subscription>)
    | SubAck(subAckId: u16, subAckProps: SubAckProperties, codes: Bytes)
    | PingReq
    | PingResp
    | Disconnect(disconnectCode: byte, disconnectProps: DisconnectProperties)

  const MQTT: Text := [0x4D, 0x51, 0x54, 0x54]
  const PROTOCOL_LEVEL: byte := 5

  /** `x & weight != 0`, for a power of two. */
  predicate HasBit(x: byte, weight: nat)
    requires weight > 0
  {
    x / weight % 2 == 1
  }

  function Flag(b: bool, weight: byte): byte {
    if b then weight else 0
  }

  // -------------------------------------------------------------------- parsing

  function ReadOptStr(present: bool, s: Bytes): Result<(Option<Text>, Bytes)> {
    if !present then Ok((None, s))
    else
      var (t, rest) :- ReadStr(s);
      Ok((Some(t), rest))
  }

  function ReadOptBytes(present: bool, s: Bytes): Result<(Option<Bytes>, Bytes)> {
    if !present then Ok((None, s))
    else
      var (t, rest) :- ReadBytes(s);
      Ok((Some(t), rest))
  }

  function ReadOptU16(present: bool, s: Bytes): Result<(Option<u16>, Bytes)> {
    if !present then Ok((None, s))
    else
      var (v, rest) :- ReadU16(s);
      Ok((Some(v), rest))
  }

  /** `&s[n..]`, which aborts when it is out of range. */
  function Skip(s: Bytes, n: nat): Result<Bytes> {
    if |s| < n then Err(SliceOutOfRange) else Ok(s[n..])
  }

  /** The Will fields of CONNECT are skipped, not decoded, by slices without length checks. */
  function SkipWill(present: bool, s: Bytes): Result<Bytes> {
    if !present then Ok(s)
    else
      var (n, s1) :- ReadVarint(s);
      var s2 :- Skip(s1, n);
      var (topicLength, s3) :- ReadU16(s2);
      var s4 :- Skip(s3, topicLength);
      var (payloadLength, s5) :- ReadU16(s4);
      Skip(s5, payloadLength)
  }

  /** The tail of CONNECT: client id, the skipped Will, username, password. */
  function Credentials(flags: byte, s: Bytes): Result<(Text, Option<Text>, Option<Bytes>)> {
    var (clientId, s6) :- ReadStr(s);
    var s7 :- SkipWill(HasBit(flags, 4), s6);
    var (username, s8) :- ReadOptStr(HasBit(flags, 0x80), s7);
    var (password, s9) :- ReadOptBytes(HasBit(flags, 0x40), s8);
    Ok((clientId, username, password))
  }

  function DecodeConnect(flags: nat, s: Bytes): Result<Packet> {
    if flags != 0 then Err(MalformedPacket)
    else
      var (name, s1) :- ReadStr(s);
      if name != MQTT then Err(MalformedPacket)
      else
        var (level, s2) :- ReadU8(s1);
        if level != PROTOCOL_LEVEL then Err(UnsupportedProtocolVersion(level))
        else
          var (connectFlags, s3) :- ReadU8(s2);
          var (keepAlive, s4) :- ReadU16(s3);
          var (props, s5) :- ReadBlock(CONNECT, s4);
          var (clientId, username, password) :- Credentials(connectFlags, s5);
          Ok(Connect(clientId, keepAlive, HasBit(connectFlags, 2), username, password, props))
  }

  function DecodeConnAck(s: Bytes): Result<Packet> {
    var (flags, s1) :- ReadU8(s);
    var (code, s2) :- ReadU8(s1);
    var (props, s3) :- ReadBlock(CONNACK, s2);
    Ok(ConnAck(HasBit(flags, 1), code, props))
  }

  function DecodePublish(flags: byte, s: Bytes): Result<Packet> {
    var qos := flags / 2 % 4;
    if qos > 2 then Err(MalformedPacket)
    else
      var (topic, s1) :- ReadStr(s);
      var (id, s2) :- ReadOptU16(qos > 0, s1);
      var (props, s3) :- ReadBlock(PUBLISH, s2);
      Ok(Publish(HasBit(flags, 8), qos, HasBit(flags, 1), topic, id, props, s3))
  }

  /** PUBACK and DISCONNECT may stop before the reason code, or before the properties. */
  function ReadReason<P>(schema: Schema<P>, s: Bytes): Result<(byte, P)> {
    if s == [] then Ok((0, From(schema, [])))
    else if |s| == 1 then Ok((s[0], From(schema, [])))
    else
      var (props, rest) :- ReadBlock(schema, s[1..]);
      Ok((s[0], props))
  }

  function DecodePubAck(s: Bytes): Result<Packet> {
    var (id, s1) :- ReadU16(s);
    var (code, props) :- ReadReason(PUBACK, s1);
    Ok(PubAck(id, code, props))
  }

  function ReadSubscriptions(s: Bytes): Result<seq<Subscription>>
    decreases |s|
  {
    if s == [] then Ok([])
    else
      var (filter, s1) :- ReadStr(s);
      var (options, s2) :- ReadU8(s1);
      var more :- ReadSubscriptions(s2);
      Ok([Subscription(filter, options)] + more)
  }

  function DecodeSubscribe(flags: nat, s: Bytes): Result<Packet> {
    if flags != 2 then Err(MalformedPacket)
    else
      var (id, s1) :- ReadU16(s);
      var (props, s2) :- ReadBlock(SUBSCRIBE, s1);
      var subscriptions :- ReadSubscriptions(s2);
      if subscriptions == [] then Err(MalformedPacket) else Ok(Subscribe(id, props, subscriptions))
  }

  function DecodeSubAck(s: Bytes): Result<Packet> {
    var (id, s1) :- ReadU16(s);
    var (props, codes) :- ReadBlock(SUBACK, s1);
    Ok(SubAck(id, props, codes))
  }

  function DecodePing(p: Packet, flags: nat, s: Bytes): Result<Packet> {
    if flags != 0 || s != [] then Err(MalformedPacket) else Ok(p)
  }

  function DecodeDisconnect(s: Bytes): Result<Packet> {
    var (code, props) :- ReadReason(DISCONNECT, s);
    Ok(Disconnect(code, props))
  }

  /** A packet from its fixed header byte and exactly its remaining-length bytes. */
  function DecodeBody(header: byte, s: Bytes): Result<Packet> {
    var flags := header % 16;
    match header / 16
    case 1 => DecodeConnect(flags, s)
    case 2 => DecodeConnAck(s)
    case 3 => DecodePublish(flags, s)
    case 4 => DecodePubAck(s)
    case 8 => DecodeSubscribe(flags, s)
    case 9 => DecodeSubAck(s)
    case 12 => DecodePing(PingReq, flags, s)
    case 13 => DecodePing(PingResp, flags, s)
    case 14 => DecodeDisconnect(s)
    case _ => Err(MalformedPacket)
  }

  /** The fixed header of `decode_packet`: header byte, body, and how many bytes the frame takes. */
  function DecodeFrame(b: Bytes): Result<(byte, Bytes, nat)> {
    var (header, s1) :- ReadU8(b);
    var (n, s2) :- ReadVarint(s1);
    if |s2| < n then Err(Incomplete) else Ok((header, s2[..n], |b| - |s2| + n))
  }

  /** `decode_packet`: the packet and how many bytes it took. */
  function DecodePacket(b: Bytes): Result<(Packet, nat)> {
    var (header, body, n) :- DecodeFrame(b);
    var p :- DecodeBody(header, body);
    Ok((p, n))
  }

  // ------------------------------------------------------------------- printing

  function OptPrefixed(o: Option<Bytes>): Bytes {
    if o.Some? then Prefixed(o.value) else []
  }

  function OptU16Bytes(o: Option<u16>): Bytes {
    if o.Some? then U16Bytes(o.value) else []
  }

  function ConnectFlags(cleanStart: bool, hasUsername: bool, hasPassword: bool): (f: byte)
    ensures HasBit(f, 2) == cleanStart && HasBit(f, 0x80) == hasUsername && HasBit(f, 0x40) == hasPassword
    ensures !HasBit(f, 4)
  {
    Flag(cleanStart, 2) + Flag(hasUsername, 0x80) + Flag(hasPassword, 0x40)
  }

  function SubscriptionBytes(sub: Subscription): Bytes {
    Prefixed(sub.filter) + [sub.options]
  }

  function SubscriptionsBytes(subs: seq<Subscription>): Bytes {
    if subs == [] then [] else SubscriptionBytes(subs[0]) + SubscriptionsBytes(subs[1..])
  }

  /** The reason code and properties, omitted together when both say nothing. */
  function ReasonBytes<P>(schema: Schema<P>, code: byte, props: P, saysNothing: bool): Bytes {
    if saysNothing && code == 0 then [] else [code] + BlockBytes(schema, props)
  }

  function PubAckSaysNothing(p: PubAckProperties): (b: bool)
    ensures b ==> p == From(PUBACK, [])
  {
    p.reasonString.None? && p.userProperties == []
  }

  function DisconnectSaysNothing(p: DisconnectProperties): (b: bool)
    ensures b ==> p == From(DISCONNECT, [])
  {
    p.sessionExpiryInterval.None? && p.reasonString.None? && p.serverReference.None? && p.userProperties == []
  }

  function Body(p: Packet): Bytes {
    match p
    case Connect(clientId, keepAlive, cleanStart, username, password, props) =>
      Prefixed(MQTT) + ([PROTOCOL_LEVEL] + ([ConnectFlags(cleanStart, username.Some?, password.Some?)]
      + (U16Bytes(keepAlive) + (BlockBytes(CONNECT, props) + (Prefixed(clientId)
      + (OptPrefixed(username) + OptPrefixed(password)))))))
    case ConnAck(present, code, props) => [Flag(present, 1)] + ([code] + BlockBytes(CONNACK, props))
    case Publish(dup, qos, retain, topic, id, props, payload) =>
      Prefixed(topic) + (OptU16Bytes(id) + (BlockBytes(PUBLISH, props) + payload))
    case PubAck(id, code, props) => U16Bytes(id) + ReasonBytes(PUBACK, code, props, PubAckSaysNothing(props))
    case Subscribe(id, props, subs) => U16Bytes(id) + (BlockBytes(SUBSCRIBE, props) + SubscriptionsBytes(subs))
    case SubAck(id, props, codes) => U16Bytes(id) + (BlockBytes(SUBACK, props) + codes)
    case PingReq => []
    case PingResp => []
    case Disconnect(code, props) => ReasonBytes(DISCONNECT, code, props, DisconnectSaysNothing(props))
  }

  function Header(p: Packet): byte {
    match p
    case Connect(_, _, _, _, _, _) => 0x10
    case ConnAck(_, _, _) => 0x20
    case Publish(dup, qos, retain, _, _, _, _) => 0x30 + PublishFlags(dup, qos, retain)
    case PubAck(_, _, _) => 0x40
    case Subscribe(_, _, _) => 0x82
    case SubAck(_, _, _) => 0x90
    case PingReq => 0xC0
    case PingResp => 0xD0
    case Disconnect(_, _) => 0xE0
  }

  function PublishFlags(dup: bool, qos: byte, retain: bool): (f: byte)
    ensures f < 16 && HasBit(f, 8) == dup && f / 2 % 4 == qos % 4 && HasBit(f, 1) == retain
  {
    Flag(dup, 8) + qos % 4 * 2 + Flag(retain, 1)
  }

  /** A fixed header byte, the remaining length (cut to 32 bits), and the body. */
  function Frame(header: byte, body: Bytes): Bytes {
    [header] + (EncodeVarint(LowU32(|body|)) + body)
  }

  /** `encode_packet` */
  function EncodePacket(p: Packet): Bytes {
    Frame(Header(p), Body(p))
  }

  // ------------------------------------------------------------- well-formedness

  predicate GoodSubscriptions(subs: seq<Subscription>) {
    forall i :: 0 <= i < |subs| ==> GoodText(subs[i].filter)
  }

  /**
   Texts are UTF-8 and fit their length prefix, a packet id goes with a quality of service, a SUBSCRIBE asks for
   something.
   */
  predicate WellFormed(p: Packet) {
    match p
    case Connect(clientId, _, _, username, password, props) =>
      GoodText(clientId) && GoodOptText(username) && GoodOptData(password) && GoodConnect(props)
    case ConnAck(_, _, props) => GoodConnAck(props)
    case Publish(_, qos, _, topic, id, props, _) =>
      qos <= 2 && (id.Some? <==> qos > 0) && GoodText(topic) && GoodPublish(props)
    case PubAck(_, _, props) => GoodPubAck(props)
    case Subscribe(_, props, subs) => subs != [] && GoodSubscriptions(subs) && GoodSubscribe(props)
    case SubAck(_, props, _) => GoodSubAck(props)
    case PingReq => true
    case PingResp => true
    case Disconnect(_, props) => GoodDisconnect(props)
  }

  /** The encoded packet fits the remaining-length field. */
  predicate Fits(p: Packet) {
    |Body(p)| < VARINT_LIMIT
  }

  // ------------------------------------------------------------- sizes of bodies

  lemma ConnectBodySize(p: Packet)
    requires p.Connect?
    ensures |Body(p)| == 10 + |BlockBytes(CONNECT, p.connectProps)| + |Prefixed(p.clientId)|
                         + |OptPrefixed(p.username)| + |OptPrefixed(p.password)|
  {
  }

  lemma PublishBodySize(p: Packet)
    requires p.Publish?
    ensures |Body(p)| == |Prefixed(p.topic)| + |OptU16Bytes(p.publishId)|
                         + |BlockBytes(PUBLISH, p.publishProps)| + |p.payload|
  {
  }

  lemma PubAckBodySize(p: Packet)
    requires p.PubAck?
    ensures |Body(p)| <= 3 + |BlockBytes(PUBACK, p.pubAckProps)|
  {
  }

  lemma DisconnectBodySize(p: Packet)
    requires p.Disconnect?
    ensures |Body(p)| <= 1 + |BlockBytes(DISCONNECT, p.disconnectProps)|
  {
  }

  lemma SubscribeBodySize(p: Packet)
    requires p.Subscribe?
    ensures |Body(p)| == 2 + |BlockBytes(SUBSCRIBE, p.subscribeProps)| + |SubscriptionsBytes(p.subscriptions)|
  {
  }

  lemma SubAckBodySize(p: Packet)
    requires p.SubAck?
    ensures |Body(p)| == 2 + |BlockBytes(SUBACK, p.subAckProps)| + |p.codes|
  {
  }
}
