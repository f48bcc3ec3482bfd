/** `decode_packet` and `encode_packet` as the code runs them: over a moving cursor and growing buffers. */
module Codec {
  import opened Basics
  import opened Varint
  import opened Wire
  import opened PropertyBlocks
  import opened Properties
  import opened Packets

  // -------------------------------------------------------------------- decoding

  method DecodeValue(kind: Kind, r: Reader) returns (res: Result<Value>)
    modifies r
    ensures match ReadValue(kind, old(r.rest))
            case Ok((v, after)) => res == Ok(v) && r.rest == after
            case Err(e) => res == Err(e)
  {
    match kind
    case U8Kind => var x :- r.U8(); res := Ok(U8(x));
    case U16Kind => var x :- r.U16(); res := Ok(U16(x));
    case U32Kind => var x :- r.U32(); res := Ok(U32(x));
    case VarIntKind => var x :- r.VarInt(); res := Ok(VarInt(x));
    case StrKind => var x :- r.Str(); res := Ok(Str(x));
    case BinKind => var x :- r.Data(); res := Ok(Bin(x));
    case PairKind =>
      var k :- r.Str();
      var v :- r.Str();
      res := Ok(Pair(k, v));
  }

  /** The entries parsed so far, in front of what the rest of the slice parses to. */
  ghost function After(done: seq<Entry>, rest: Result<seq<Entry>>): Result<seq<Entry>> {
    match rest
    case Err(e) => Err(e)
    case Ok(es) => Ok(done + es)
  }

  lemma AfterOne(kind: byte -> Option<Kind>, done: seq<Entry>, s: Bytes)
    requires s != [] && ReadEntry(kind, s).Ok?
    ensures var (e, rest) := ReadEntry(kind, s).value;
            After(done, ParseEntries(kind, s)) == After(done + [e], ParseEntries(kind, rest))
  {
    var (e, rest) := ReadEntry(kind, s).value;
    if ParseEntries(kind, rest).Ok? {
      ConcatAssociates(done, [e], ParseEntries(kind, rest).value);
    }
  }

  method DecodeEntry(kind: byte -> Option<Kind>, slice: Reader) returns (res: Result<Entry>)
    requires slice.rest != []
    modifies slice
    ensures match ReadEntry(kind, old(slice.rest))
            case Ok((e, after)) => res == Ok(e) && slice.rest == after
            case Err(e) => res == Err(e)
  {
    var tag := slice.Next();
    if kind(tag).None? {
      return Err(MalformedPacket);
    }
    var v :- DecodeValue(kind(tag).value, slice);
    return Ok(Entry(tag, v));
  }

  /** The property loop: reads an identifier and a value, and sets the field. */
  method DecodeEntries<P(!new)>(schema: Schema<P>, ghost good: P -> bool, slice: Reader) returns (res: Result<P>)
    requires Lawful(schema, good)
    modifies slice
    ensures match ParseEntries(schema.kind, old(slice.rest))
            case Ok(es) => res == Ok(From(schema, es))
            case Err(e) => res == Err(e)
  {
    var props := From(schema, []);
    ghost var done: seq<Entry> := [];
    AfterNone(ParseEntries(schema.kind, slice.rest));
    while slice.rest != []
      invariant props == From(schema, done) && GoodEntries(schema.kind, done)
      invariant ParseEntries(schema.kind, old(slice.rest)) == After(done, ParseEntries(schema.kind, slice.rest))
      decreases |slice.rest|
    {
      ghost var before := slice.rest;
      var e :- DecodeEntry(schema.kind, slice);
      AfterOne(schema.kind, done, before);
      ReadEntryIsGood(schema.kind, before);
      LoopStep(schema, good, done, e);
      props := Put(schema, props, e);
      done := done + [e];
    }
    assert done + [] == done;
    return Ok(props);
  }

  lemma AfterNone(rest: Result<seq<Entry>>)
    ensures After([], rest) == rest
  {
    if rest.Ok? { assert [] + rest.value == rest.value; }
  }

  /** `*Properties::decode` */
  method DecodeProperties<P(!new)>(schema: Schema<P>, ghost good: P -> bool, r: Reader) returns (res: Result<P>)
    requires Lawful(schema, good)
    modifies r
    ensures match ReadBlock(schema, old(r.rest))
            case Ok((p, after)) => res == Ok(p) && r.rest == after
            case Err(e) => res == Err(e)
  {
    if r.rest == [] {
      return Ok(From(schema, []));
    }
    var n :- r.VarInt();
    if |r.rest| < n {
      return Err(Incomplete);
    }
    var slice := new Reader(r.rest[..n]);
    r.rest := r.rest[n..];
    res := DecodeEntries(schema, good, slice);
  }

  method DecodeSkip(n: nat, r: Reader) returns (res: Result<()>)
    modifies r
    ensures match Skip(old(r.rest), n)
            case Ok(after) => res == Ok(()) && r.rest == after
            case Err(e) => res == Err(e)
  {
    if |r.rest| < n {
      return Err(SliceOutOfRange);
    }
    r.rest := r.rest[n..];
    return Ok(());
  }

  method DecodeWill(r: Reader) returns (res: Result<()>)
    modifies r
    ensures match SkipWill(true, old(r.rest))
            case Ok(after) => res == Ok(()) && r.rest == after
            case Err(e) => res == Err(e)
  {
    var propsLength :- r.VarInt();
    var _ :- DecodeSkip(propsLength, r);
    var topicLength :- r.U16();
    var _ :- DecodeSkip(topicLength, r);
    var payloadLength :- r.U16();
    res := DecodeSkip(payloadLength, r);
  }

  /** The tail of CONNECT: client id, the skipped Will, username, password. */
  method DecodeCredentials(flags: byte, r: Reader) returns (res: Result<(Text, Option<Text>, Option<Bytes>)>)
    modifies r
    ensures res == Credentials(flags, old(r.rest))
  {
    var clientId :- r.Str();
    if HasBit(flags, 4) {
      var _ :- DecodeWill(r);
    }
    var username: Option<Text> := None;
    if HasBit(flags, 0x80) {
      var t :- r.Str();
      username := Some(t);
    }
    var password: Option<Bytes> := None;
    if HasBit(flags, 0x40) {
      var t :- r.Data();
      password := Some(t);
    }
    return Ok((clientId, username, password));
  }

  method DecodeConnectBody(flags: nat, r: Reader) returns (res: Result<Packet>)
    modifies r
    ensures res == DecodeConnect(flags, old(r.rest))
  {
    if flags != 0 {
      return Err(MalformedPacket);
    }
    var name :- r.Str();
    if name != MQTT {
      return Err(MalformedPacket);
    }
    var level :- r.U8();
    if level != PROTOCOL_LEVEL {
      return Err(UnsupportedProtocolVersion(level));
    }
    var connectFlags :- r.U8();
    var keepAlive :- r.U16();
    ConnectLawful();
    var props :- DecodeProperties(CONNECT, GoodConnect, r);
    var c :- DecodeCredentials(connectFlags, r);
    return Ok(Connect(c.0, keepAlive, HasBit(connectFlags, 2), c.1, c.2, props));
  }

  method DecodePublishBody(flags: byte, r: Reader) returns (res: Result<Packet>)
    modifies r
    ensures res == DecodePublish(flags, old(r.rest))
  {
    var qos := flags / 2 % 4;
    if qos > 2 {
      return Err(MalformedPacket);
    }
    var topic :- r.Str();
    var id: Option<u16> := None;
    if qos > 0 {
      var v :- r.U16();
      id := Some(v);
    }
    PublishLawful();
    var props :- DecodeProperties(PUBLISH, GoodPublish, r);
    return Ok(Publish(HasBit(flags, 8), qos, HasBit(flags, 1), topic, id, props, r.rest));
  }

  method DecodeReason<P(!new)>(schema: Schema<P>, ghost good: P -> bool, r: Reader) returns (res: Result<(byte, P)>)
    requires Lawful(schema, good)
    modifies r
    ensures res == ReadReason(schema, old(r.rest))
  {
    var code, props := 0, From(schema, []);
    if r.rest != [] {
      code := r.Next();
      if r.rest != [] {
        props :- DecodeProperties(schema, good, r);
      }
    }
    return Ok((code, props));
  }

  ghost function Joined(done: seq<Subscription>, rest: Result<seq<Subscription>>): Result<seq<Subscription>> {
    match rest
    case Err(e) => Err(e)
    case Ok(more) => Ok(done + more)
  }

  lemma JoinedNone(rest: Result<seq<Subscription>>)
    ensures Joined([], rest) == rest
  {
    if rest.Ok? { assert [] + rest.value == rest.value; }
  }

  method DecodeSubscriptions(r: Reader) returns (res: Result<seq<Subscription>>)
    modifies r
    ensures res == ReadSubscriptions(old(r.rest))
  {
    var subs: seq<Subscription> := [];
    JoinedNone(ReadSubscriptions(r.rest));
    while r.rest != []
      invariant ReadSubscriptions(old(r.rest)) == Joined(subs, ReadSubscriptions(r.rest))
      decreases |r.rest|
    {
      ghost var before := r.rest;
      var filter :- r.Str();
      var options :- r.U8();
      if ReadSubscriptions(r.rest).Ok? {
        ConcatAssociates(subs, [Subscription(filter, options)], ReadSubscriptions(r.rest).value);
      }
      subs := subs + [Subscription(filter, options)];
    }
    assert subs + [] == subs;
    return Ok(subs);
  }

  method DecodeSubscribeBody(flags: nat, r: Reader) returns (res: Result<Packet>)
    modifies r
    ensures res == DecodeSubscribe(flags, old(r.rest))
  {
    if flags != 2 {
      return Err(MalformedPacket);
    }
    var id :- r.U16();
    SubscribeLawful();
    var props :- DecodeProperties(SUBSCRIBE, GoodSubscribe, r);
    var subs :- DecodeSubscriptions(r);
    if subs == [] {
      return Err(MalformedPacket);
    }
    return Ok(Subscribe(id, props, subs));
  }

  method DecodeConnAckBody(r: Reader) returns (res: Result<Packet>)
    modifies r
    ensures res == DecodeConnAck(old(r.rest))
  {
    var flags :- r.U8();
    var code :- r.U8();
    ConnAckLawful();
    var props :- DecodeProperties(CONNACK, GoodConnAck, r);
    return Ok(ConnAck(HasBit(flags, 1), code, props));
  }

  method DecodePubAckBody(r: Reader) returns (res: Result<Packet>)
    modifies r
    ensures res == DecodePubAck(old(r.rest))
  {
    var id :- r.U16();
    PubAckLawful();
    var reason :- DecodeReason(PUBACK, GoodPubAck, r);
    return Ok(PubAck(id, reason.0, reason.1));
  }

  method DecodeSubAckBody(r: Reader) returns (res: Result<Packet>)
    modifies r
    ensures res == DecodeSubAck(old(r.rest))
  {
    var id :- r.U16();
    SubAckLawful();
    var props :- DecodeProperties(SUBACK, GoodSubAck, r);
    var codes := DecodeCodes(r);
    return Ok(SubAck(id, props, codes));
  }

  method DecodeCodes(r: Reader) returns (codes: Bytes)
    modifies r
    ensures codes == old(r.rest)
  {
    codes := [];
    while r.rest != []
      invariant codes + r.rest == old(r.rest)
      decreases |r.rest|
    {
      var code := r.Next();
      codes := codes + [code];
    }
  }

  method DecodeDisconnectBody(r: Reader) returns (res: Result<Packet>)
    modifies r
    ensures res == DecodeDisconnect(old(r.rest))
  {
    DisconnectLawful();
    var reason :- DecodeReason(DISCONNECT, GoodDisconnect, r);
    return Ok(Disconnect(reason.0, reason.1));
  }

  method DecodeBodyOf(header: byte, body: Reader) returns (res: Result<Packet>)
    modifies body
    ensures res == DecodeBody(header, old(body.rest))
  {
    var flags := header % 16;
    match header / 16
    case 1 => res := DecodeConnectBody(flags, body);
    case 2 => res := DecodeConnAckBody(body);
    case 3 => res := DecodePublishBody(flags, body);
    case 4 => res := DecodePubAckBody(body);
    case 8 => res := DecodeSubscribeBody(flags, body);
    case 9 => res := DecodeSubAckBody(body);
    case 12 => res := if flags != 0 || body.rest != [] then Err(MalformedPacket) else Ok(PingReq);
    case 13 => res := if flags != 0 || body.rest != [] then Err(MalformedPacket) else Ok(PingResp);
    case 14 => res := DecodeDisconnectBody(body);
    case _ => res := Err(MalformedPacket);
  }

  /** The fixed header: reads the header byte and the remaining length, and cuts out the body. */
  method DecodeHeader(raw: Bytes) returns (res: Result<(byte, Bytes, nat)>)
    ensures res == DecodeFrame(raw)
  {
    var r := new Reader(raw);
    var header :- r.U8();
    var n :- r.VarInt();
    if |r.rest| < n {
      return Err(Incomplete);
    }
    return Ok((header, r.rest[..n], |raw| - |r.rest| + n));
  }

  /** `decode_packet` */
  method Decode(raw: Bytes) returns (res: Result<(Packet, nat)>)
    ensures res == DecodePacket(raw)
  {
    var frame :- DecodeHeader(raw);
    var body := new Reader(frame.1);
    var packet :- DecodeBodyOf(frame.0, body);
    return Ok((packet, frame.2));
  }

  // -------------------------------------------------------------------- encoding

  lemma {:induction false} PrintedAppend(slots: seq<Slot>, slot: Slot)
    ensures EntriesBytes(Printed(slots + [slot])) == EntriesBytes(Printed(slots)) + EntriesBytes(SlotEntries(slot))
  {
    if slots == [] {
      assert [] + [slot] == [slot] && [slot][1..] == [];
      assert Printed([slot]) == SlotEntries(slot) + [] == SlotEntries(slot);
    } else {
      assert (slots + [slot])[1..] == slots[1..] + [slot];
      PrintedAppend(slots[1..], slot);
      EntriesConcat(SlotEntries(slots[0]), Printed(slots[1..] + [slot]));
      EntriesConcat(SlotEntries(slots[0]), Printed(slots[1..]));
      var first, more, last := SlotEntries(slots[0]), Printed(slots[1..]), SlotEntries(slot);
      ConcatAssociates(EntriesBytes(first), EntriesBytes(more), EntriesBytes(last));
    }
  }

  /** The bytes of the first n fields. */
  ghost function Written<P>(schema: Schema<P>, p: P, n: nat): Bytes
    requires n <= |schema.order|
  {
    if n == 0 then []
    else Written(schema, p, n - 1) + EntriesBytes(SlotEntries(SlotOf(schema, p, schema.order[n - 1])))
  }

  lemma {:induction false} WrittenIsPrinted<P>(schema: Schema<P>, p: P, n: nat)
    requires n <= |schema.order|
    ensures Written(schema, p, n) == EntriesBytes(Printed(SlotsOf(schema, p)[..n]))
  {
    var slots := SlotsOf(schema, p);
    if n == 0 {
      assert slots[..0] == [];
    } else {
      WrittenIsPrinted(schema, p, n - 1);
      PrintedOneMore(slots, n, SlotOf(schema, p, schema.order[n - 1]), Written(schema, p, n - 1));
    }
  }

  lemma WrittenInFull<P>(schema: Schema<P>, p: P)
    ensures Written(schema, p, |schema.order|) == BlockBody(schema, p)
  {
    WrittenIsPrinted(schema, p, |schema.order|);
    var slots := SlotsOf(schema, p);
    assert slots[..|slots|] == slots;
  }

  lemma PrintedOneMore(slots: seq<Slot>, n: nat, slot: Slot, before: Bytes)
    requires 0 < n <= |slots| && slot == slots[n - 1] && before == EntriesBytes(Printed(slots[..n - 1]))
    ensures before + EntriesBytes(SlotEntries(slot)) == EntriesBytes(Printed(slots[..n]))
  {
    assert slots[..n] == slots[..n - 1] + [slot];
    PrintedAppend(slots[..n - 1], slot);
  }

  lemma PairsOneMore(us: seq<UserProperty>, i: nat)
    requires i < |us|
    ensures EntriesBytes(PairEntries(us[..i + 1]))
            == EntriesBytes(PairEntries(us[..i])) + EntryBytes(Entry(USER_PROPERTY, Pair(us[i].0, us[i].1)))
  {
    var e := Entry(USER_PROPERTY, Pair(us[i].0, us[i].1));
    assert PairEntries(us[..i + 1]) == PairEntries(us[..i]) + [e];
    EntriesConcat(PairEntries(us[..i]), [e]);
    SingleEntry(e);
  }

  method EncodeValue(v: Value, temp: Writer)
    modifies temp
    ensures temp.bytes == old(temp.bytes) + ValueBytes(v)
  {
    match v
    case U8(x) => temp.U8(x);
    case U16(x) => temp.U16(x);
    case U32(x) => temp.U32(x);
    case VarInt(x) => temp.VarInt(x);
    case Str(x) => temp.Data(x);
    case Bin(x) => temp.Data(x);
    case Pair(k, x) =>
      temp.Data(k);
      temp.Data(x);
  }

  method EncodeEntry(e: Entry, temp: Writer)
    modifies temp
    ensures temp.bytes == old(temp.bytes) + EntryBytes(e)
  {
    temp.U8(e.tag);
    EncodeValue(e.value, temp);
    ConcatAssociates(old(temp.bytes), [e.tag], ValueBytes(e.value));
  }

  /** `if let Some(val) = self.field { temp.push(tag); ... }` */
  method EncodeField(tag: byte, o: Option<Value>, temp: Writer)
    modifies temp
    ensures temp.bytes == old(temp.bytes) + EntriesBytes(SlotEntries(One(tag, o)))
  {
    if o.Some? {
      SingleEntry(Entry(tag, o.value));
      EncodeEntry(Entry(tag, o.value), temp);
    }
  }

  /** `for (k, v) in &self.user_properties` */
  method EncodeUsers(us: seq<UserProperty>, temp: Writer)
    modifies temp
    ensures temp.bytes == old(temp.bytes) + EntriesBytes(SlotEntries(Users(us)))
  {
    for i := 0 to |us|
      invariant temp.bytes == old(temp.bytes) + EntriesBytes(PairEntries(us[..i]))
    {
      PairsOneMore(us, i);
      var e := Entry(USER_PROPERTY, Pair(us[i].0, us[i].1));
      ConcatAssociates(old(temp.bytes), EntriesBytes(PairEntries(us[..i])), EntryBytes(e));
      EncodeEntry(e, temp);
    }
    assert us[..|us|] == us;
  }

  /** One field after the other, in the block's order. */
  method EncodeFields<P>(schema: Schema<P>, p: P, temp: Writer)
    requires temp.bytes == []
    modifies temp
    ensures temp.bytes == BlockBody(schema, p)
  {
    for i := 0 to |schema.order|
      invariant temp.bytes == Written(schema, p, i)
    {
      EncodeNext(schema, p, i, temp);
    }
    WrittenInFull(schema, p);
  }

  /** One round of that loop. */
  method EncodeNext<P>(schema: Schema<P>, p: P, i: nat, temp: Writer)
    requires i < |schema.order| && temp.bytes == Written(schema, p, i)
    modifies temp
    ensures temp.bytes == Written(schema, p, i + 1)
  {
    var tag := schema.order[i];
    if tag == USER_PROPERTY {
      EncodeUsers(schema.users(p), temp);
    } else {
      EncodeField(tag, schema.get(p, tag), temp);
    }
  }

  /** `*Properties::encode`: the fields to a temporary buffer, then its length and contents. */
  method EncodeProperties<P>(schema: Schema<P>, p: P, buf: Writer)
    modifies buf
    ensures buf.bytes == old(buf.bytes) + BlockBytes(schema, p)
  {
    var temp := new Writer();
    EncodeFields(schema, p, temp);
    buf.VarInt(LowU32(|temp.bytes|));
    buf.Raw(temp.bytes);
    ConcatAssociates(old(buf.bytes), EncodeVarint(LowU32(|temp.bytes|)), temp.bytes);
  }

  lemma Nest3(o: Bytes, a: Bytes, b: Bytes, c: Bytes)
    ensures o + a + b + c == o + (a + (b + c))
  {
  }

  lemma Nest4(o: Bytes, a: Bytes, b: Bytes, c: Bytes, d: Bytes)
    ensures o + a + b + c + d == o + (a + (b + (c + d)))
  {
  }

  method EncodeConnectBody(p: Packet, payload: Writer)
    requires p.Connect?
    modifies payload
    ensures payload.bytes == old(payload.bytes) + Body(p)
  {
    ghost var f := ConnectFlags(p.cleanStart, p.username.Some?, p.password.Some?);
    ghost var tail := BlockBytes(CONNECT, p.connectProps)
                      + (Prefixed(p.clientId) + (OptPrefixed(p.username) + OptPrefixed(p.password)));
    ghost var start := payload.bytes;
    EncodeConnectHead(p, payload);
    EncodeConnectTail(p, payload);
    Nest4(start, Prefixed(MQTT), [PROTOCOL_LEVEL], [f], U16Bytes(p.keepAlive) + tail);
    ConcatAssociates(start + Prefixed(MQTT) + [PROTOCOL_LEVEL] + [f], U16Bytes(p.keepAlive), tail);
  }

  method EncodeConnectHead(p: Packet, payload: Writer)
    requires p.Connect?
    modifies payload
    ensures payload.bytes == old(payload.bytes) + Prefixed(MQTT) + [PROTOCOL_LEVEL]
                             + [ConnectFlags(p.cleanStart, p.username.Some?, p.password.Some?)] + U16Bytes(p.keepAlive)
  {
    payload.Data(MQTT);
    payload.U8(PROTOCOL_LEVEL);
    payload.U8(ConnectFlags(p.cleanStart, p.username.Some?, p.password.Some?));
    payload.U16(p.keepAlive);
  }

  method EncodeConnectTail(p: Packet, payload: Writer)
    requires p.Connect?
    modifies payload
    ensures payload.bytes == old(payload.bytes) + (BlockBytes(CONNECT, p.connectProps)
                             + (Prefixed(p.clientId) + (OptPrefixed(p.username) + OptPrefixed(p.password))))
  {
    EncodeProperties(CONNECT, p.connectProps, payload);
    payload.Data(p.clientId);
    EncodeOptData(p.username, payload);
    EncodeOptData(p.password, payload);
    Nest4(old(payload.bytes), BlockBytes(CONNECT, p.connectProps), Prefixed(p.clientId),
          OptPrefixed(p.username), OptPrefixed(p.password));
  }

  method EncodeOptData(o: Option<Bytes>, payload: Writer)
    modifies payload
    ensures payload.bytes == old(payload.bytes) + OptPrefixed(o)
  {
    if o.Some? {
      payload.Data(o.value);
    }
  }

  method EncodeOptU16(o: Option<u16>, payload: Writer)
    modifies payload
    ensures payload.bytes == old(payload.bytes) + OptU16Bytes(o)
  {
    if o.Some? {
      payload.U16(o.value);
    }
  }

  method EncodeConnAckBody(p: Packet, payload: Writer)
    requires p.ConnAck?
    modifies payload
    ensures payload.bytes == old(payload.bytes) + Body(p)
  {
    payload.U8(Flag(p.sessionPresent, 1));
    payload.U8(p.connAckCode);
    EncodeProperties(CONNACK, p.connAckProps, payload);
    Nest3(old(payload.bytes), [Flag(p.sessionPresent, 1)], [p.connAckCode], BlockBytes(CONNACK, p.connAckProps));
  }

  method EncodePublishBody(p: Packet, payload: Writer)
    requires p.Publish?
    modifies payload
    ensures payload.bytes == old(payload.bytes) + Body(p)
  {
    payload.Data(p.topic);
    EncodeOptU16(p.publishId, payload);
    EncodeProperties(PUBLISH, p.publishProps, payload);
    payload.Raw(p.payload);
    Nest4(old(payload.bytes), Prefixed(p.topic), OptU16Bytes(p.publishId),
          BlockBytes(PUBLISH, p.publishProps), p.payload);
  }

  method EncodePubAckBody(p: Packet, payload: Writer)
    requires p.PubAck?
    modifies payload
    ensures payload.bytes == old(payload.bytes) + Body(p)
  {
    payload.U16(p.pubAckId);
    if !PubAckSaysNothing(p.pubAckProps) || p.pubAckCode != 0 {
      payload.U8(p.pubAckCode);
      EncodeProperties(PUBACK, p.pubAckProps, payload);
      Nest3(old(payload.bytes), U16Bytes(p.pubAckId), [p.pubAckCode], BlockBytes(PUBACK, p.pubAckProps));
    }
  }

  method EncodeSubscribeBody(p: Packet, payload: Writer)
    requires p.Subscribe?
    modifies payload
    ensures payload.bytes == old(payload.bytes) + Body(p)
  {
    payload.U16(p.subscribeId);
    EncodeProperties(SUBSCRIBE, p.subscribeProps, payload);
    EncodeSubscriptions(p.subscriptions, payload);
    Nest3(old(payload.bytes), U16Bytes(p.subscribeId), BlockBytes(SUBSCRIBE, p.subscribeProps),
          SubscriptionsBytes(p.subscriptions));
  }

  method EncodeSubAckBody(p: Packet, payload: Writer)
    requires p.SubAck?
    modifies payload
    ensures payload.bytes == old(payload.bytes) + Body(p)
  {
    payload.U16(p.subAckId);
    EncodeProperties(SUBACK, p.subAckProps, payload);
    payload.Raw(p.codes);
    Nest3(old(payload.bytes), U16Bytes(p.subAckId), BlockBytes(SUBACK, p.subAckProps), p.codes);
  }

  method EncodeDisconnectBody(p: Packet, payload: Writer)
    requires p.Disconnect?
    modifies payload
    ensures payload.bytes == old(payload.bytes) + Body(p)
  {
    if !DisconnectSaysNothing(p.disconnectProps) || p.disconnectCode != 0 {
      payload.U8(p.disconnectCode);
      EncodeProperties(DISCONNECT, p.disconnectProps, payload);
      ConcatAssociates(old(payload.bytes), [p.disconnectCode], BlockBytes(DISCONNECT, p.disconnectProps));
    }
  }

  method EncodeBody(p: Packet, payload: Writer)
    modifies payload
    ensures payload.bytes == old(payload.bytes) + Body(p)
  {
    match p
    case Connect(_, _, _, _, _, _) => EncodeConnectBody(p, payload);
    case ConnAck(_, _, _) => EncodeConnAckBody(p, payload);
    case Publish(_, _, _, _, _, _, _) => EncodePublishBody(p, payload);
    case PubAck(_, _, _) => EncodePubAckBody(p, payload);
    case Subscribe(_, _, _) => EncodeSubscribeBody(p, payload);
    case SubAck(_, _, _) => EncodeSubAckBody(p, payload);
    case PingReq =>
    case PingResp =>
    case Disconnect(_, _) => EncodeDisconnectBody(p, payload);
  }

  method EncodeSubscriptions(subs: seq<Subscription>, payload: Writer)
    modifies payload
    ensures payload.bytes == old(payload.bytes) + SubscriptionsBytes(subs)
  {
    assert subs[0..] == subs;
    for i := 0 to |subs|
      invariant payload.bytes + SubscriptionsBytes(subs[i..]) == old(payload.bytes) + SubscriptionsBytes(subs)
    {
      assert subs[i..][1..] == subs[i + 1..];
      ghost var before := payload.bytes;
      payload.Data(subs[i].filter);
      payload.U8(subs[i].options);
      assert payload.bytes == before + SubscriptionBytes(subs[i]);
      ConcatAssociates(before, SubscriptionBytes(subs[i]), SubscriptionsBytes(subs[i + 1..]));
    }
  }

  /** `encode_packet` */
  method Encode(p: Packet, buf: Writer)
    modifies buf
    ensures buf.bytes == old(buf.bytes) + EncodePacket(p)
  {
    var body := EncodedBody(p);
    EncodeFrame(Header(p), body, buf);
  }

  method EncodedBody(p: Packet) returns (body: Bytes)
    ensures body == Body(p)
  {
    var payload := new Writer();
    EncodeBody(p, payload);
    body := payload.bytes;
  }

  method EncodeFrame(header: byte, body: Bytes, buf: Writer)
    modifies buf
    ensures buf.bytes == old(buf.bytes) + Frame(header, body)
  {
    buf.U8(header);
    buf.VarInt(LowU32(|body|));
    buf.Raw(body);
    Nest3(old(buf.bytes), [header], EncodeVarint(LowU32(|body|)), body);
  }
}
