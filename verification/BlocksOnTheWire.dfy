/** The seven property blocks byte for byte (section 2.2.2 of MQTT Version 5.0), and what readers make of bytes. */
module BlocksOnTheWire {
  import opened Basics
  import opened Varint
  import opened Wire
  import opened PropertyBlocks
  import opened Properties

  // ------------------------------------------------------- a field, byte for byte

  /** A length of two bytes, to which it is cut, and the data, which is not. */
  function Sized(data: Bytes): Bytes {
    [|data| / 256 % 256, |data| % 256] + data
  }

  /** Nothing if absent; else the identifier and the value, big-endian, or with its length. */
  function FieldBytes(slot: Slot): Bytes {
    match slot
    case One(_, None) => []
    case One(id, Some(U8(v))) => [id, v]
    case One(id, Some(U16(v))) => [id, v / 256, v % 256]
    case One(id, Some(U32(v))) => [id, v / 16777216, v / 65536 % 256, v / 256 % 256, v % 256]
    case One(id, Some(VarInt(v))) => [id] + EncodeVarint(v)
    case One(id, Some(Str(t))) => [id] + Sized(t)
    case One(id, Some(Bin(d))) => [id] + Sized(d)
    case One(id, Some(Pair(k, v))) => [id] + (Sized(k) + Sized(v))
    case Users(us) => UserFields(us)
  }

  /** Each user property under its own identifier. */
  function UserFields(us: seq<UserProperty>): Bytes {
    if us == [] then [] else [0x26] + (Sized(us[0].0) + Sized(us[0].1)) + UserFields(us[1..])
  }

  function FieldsBytes(slots: seq<Slot>): Bytes {
    if slots == [] then [] else FieldBytes(slots[0]) + FieldsBytes(slots[1..])
  }

  lemma SizedIsPrefixed(data: Bytes)
    ensures Prefixed(data) == Sized(data)
  {
    LowTwoBytes(|data|);
  }

  lemma LowTwoBytes(n: nat)
    ensures n % 65536 / 256 == n / 256 % 256 && n % 65536 % 256 == n % 256
  {
    var q, r := n / 65536, n % 65536;
    var h, l := r / 256, r % 256;
    assert n == 256 * (256 * q + h) + l;
    assert n / 256 == 256 * q + h;
    assert (256 * q + h) % 256 == h;
  }

  lemma SlotOnTheWire(slot: Slot)
    ensures EntriesBytes(SlotEntries(slot)) == FieldBytes(slot)
  {
    match slot
    case One(_, None) =>
    case One(id, Some(v)) =>
      SingleEntry(Entry(id, v));
      match v {
        case Str(t) => SizedIsPrefixed(t);
        case Bin(d) => SizedIsPrefixed(d);
        case Pair(k, x) =>
          SizedIsPrefixed(k);
          SizedIsPrefixed(x);
        case _ =>
      }
    case Users(us) => UsersOnTheWire(us);
  }

  lemma {:induction false} UsersOnTheWire(us: seq<UserProperty>)
    ensures EntriesBytes(PairEntries(us)) == UserFields(us)
  {
    if us != [] {
      UsersOnTheWire(us[1..]);
      var first := Entry(0x26, Pair(us[0].0, us[0].1));
      assert PairEntries(us) == [first] + PairEntries(us[1..]);
      EntriesConcat([first], PairEntries(us[1..]));
      SingleEntry(first);
      UserOnTheWire(us[0].0, us[0].1);
    }
  }

  lemma UserOnTheWire(k: Text, v: Text)
    ensures EntryBytes(Entry(0x26, Pair(k, v))) == [0x26] + (Sized(k) + Sized(v))
  {
    SizedIsPrefixed(k);
    SizedIsPrefixed(v);
  }

  lemma {:induction false} PrintedFields(slots: seq<Slot>)
    ensures EntriesBytes(Printed(slots)) == FieldsBytes(slots)
  {
    if slots != [] {
      PrintedFields(slots[1..]);
      EntriesConcat(SlotEntries(slots[0]), Printed(slots[1..]));
      SlotOnTheWire(slots[0]);
    }
  }

  // --------------------------------------------------------------- the seven blocks

  lemma ConnectFields(p: ConnectProperties)
    ensures SlotsOf(CONNECT, p) == [
              One(0x11, OptU32(p.sessionExpiryInterval)), One(0x21, OptU16(p.receiveMaximum)),
              One(0x27, OptU32(p.maxPacketSize)), One(0x22, OptU16(p.topicAliasMaximum)),
              One(0x19, OptU8(p.requestResponseInfo)), One(0x17, OptU8(p.requestProblemInfo)),
              Users(p.userProperties), One(0x15, OptStr(p.authMethod)), One(0x16, OptBin(p.authData))]
  {
  }

  lemma ConnectOnTheWire(p: ConnectProperties)
    ensures BlockBody(CONNECT, p) == FieldsBytes([
              One(0x11, OptU32(p.sessionExpiryInterval)), One(0x21, OptU16(p.receiveMaximum)),
              One(0x27, OptU32(p.maxPacketSize)), One(0x22, OptU16(p.topicAliasMaximum)),
              One(0x19, OptU8(p.requestResponseInfo)), One(0x17, OptU8(p.requestProblemInfo)),
              Users(p.userProperties), One(0x15, OptStr(p.authMethod)), One(0x16, OptBin(p.authData))])
  {
    PrintedFields(SlotsOf(CONNECT, p));
    ConnectFields(p);
  }

  lemma ConnAckFields(p: ConnAckProperties)
    ensures SlotsOf(CONNACK, p) == [
              One(0x11, OptU32(p.sessionExpiryInterval)), One(0x21, OptU16(p.receiveMaximum)),
              One(0x24, OptU8(p.maxQos)), One(0x25, OptU8(p.retainAvailable)),
              One(0x27, OptU32(p.maximumPacketSize)), One(0x12, OptStr(p.assignedClientIdentifier)),
              One(0x22, OptU16(p.topicAliasMaximum)), One(0x1F, OptStr(p.reasonString)), Users(p.userProperties),
              One(0x28, OptU8(p.wildcardSubscriptionAvailable)),
              One(0x29, OptU8(p.subscriptionIdentifiersAvailable)),
              One(0x2A, OptU8(p.sharedSubscriptionAvailable)), One(0x13, OptU16(p.serverKeepAlive)),
              One(0x1A, OptStr(p.responseInformation)), One(0x1C, OptStr(p.serverReference)),
              One(0x15, OptStr(p.authenticationMethod)), One(0x16, OptBin(p.authenticationData))]
  {
  }

  lemma ConnAckOnTheWire(p: ConnAckProperties)
    ensures BlockBody(CONNACK, p) == FieldsBytes([
              One(0x11, OptU32(p.sessionExpiryInterval)), One(0x21, OptU16(p.receiveMaximum)),
              One(0x24, OptU8(p.maxQos)), One(0x25, OptU8(p.retainAvailable)),
              One(0x27, OptU32(p.maximumPacketSize)), One(0x12, OptStr(p.assignedClientIdentifier)),
              One(0x22, OptU16(p.topicAliasMaximum)), One(0x1F, OptStr(p.reasonString)), Users(p.userProperties),
              One(0x28, OptU8(p.wildcardSubscriptionAvailable)),
              One(0x29, OptU8(p.subscriptionIdentifiersAvailable)),
              One(0x2A, OptU8(p.sharedSubscriptionAvailable)), One(0x13, OptU16(p.serverKeepAlive)),
              One(0x1A, OptStr(p.responseInformation)), One(0x1C, OptStr(p.serverReference)),
              One(0x15, OptStr(p.authenticationMethod)), One(0x16, OptBin(p.authenticationData))])
  {
    PrintedFields(SlotsOf(CONNACK, p));
    ConnAckFields(p);
  }

  lemma PublishFields(p: PublishProperties)
    ensures SlotsOf(PUBLISH, p) == [
              One(0x01, OptU8(p.payloadFormatIndicator)), One(0x02, OptU32(p.messageExpiryInterval)),
              One(0x03, OptStr(p.contentType)), One(0x08, OptStr(p.responseTopic)),
              One(0x09, OptBin(p.correlationData)), One(0x0B, OptVarInt(p.subscriptionIdentifier)),
              One(0x23, OptU16(p.topicAlias)), Users(p.userProperties)]
  {
  }

  lemma PublishOnTheWire(p: PublishProperties)
    ensures BlockBody(PUBLISH, p) == FieldsBytes([
              One(0x01, OptU8(p.payloadFormatIndicator)), One(0x02, OptU32(p.messageExpiryInterval)),
              One(0x03, OptStr(p.contentType)), One(0x08, OptStr(p.responseTopic)),
              One(0x09, OptBin(p.correlationData)), One(0x0B, OptVarInt(p.subscriptionIdentifier)),
              One(0x23, OptU16(p.topicAlias)), Users(p.userProperties)])
  {
    PrintedFields(SlotsOf(PUBLISH, p));
    PublishFields(p);
  }

  lemma PubAckFields(p: PubAckProperties)
    ensures SlotsOf(PUBACK, p) == [
              One(0x1F, OptStr(p.reasonString)), Users(p.userProperties)]
  {
  }

  lemma PubAckOnTheWire(p: PubAckProperties)
    ensures BlockBody(PUBACK, p) == FieldsBytes([
              One(0x1F, OptStr(p.reasonString)), Users(p.userProperties)])
  {
    PrintedFields(SlotsOf(PUBACK, p));
    PubAckFields(p);
  }

  lemma SubscribeFields(p: SubscribeProperties)
    ensures SlotsOf(SUBSCRIBE, p) == [
              One(0x0B, OptVarInt(p.subscriptionIdentifier)), Users(p.userProperties)]
  {
  }

  lemma SubscribeOnTheWire(p: SubscribeProperties)
    ensures BlockBody(SUBSCRIBE, p) == FieldsBytes([
              One(0x0B, OptVarInt(p.subscriptionIdentifier)), Users(p.userProperties)])
  {
    PrintedFields(SlotsOf(SUBSCRIBE, p));
    SubscribeFields(p);
  }

  lemma SubAckFields(p: SubAckProperties)
    ensures SlotsOf(SUBACK, p) == [
              One(0x1F, OptStr(p.reasonString)), Users(p.userProperties)]
  {
  }

  lemma SubAckOnTheWire(p: SubAckProperties)
    ensures BlockBody(SUBACK, p) == FieldsBytes([
              One(0x1F, OptStr(p.reasonString)), Users(p.userProperties)])
  {
    PrintedFields(SlotsOf(SUBACK, p));
    SubAckFields(p);
  }

  lemma DisconnectFields(p: DisconnectProperties)
    ensures SlotsOf(DISCONNECT, p) == [
              One(0x11, OptU32(p.sessionExpiryInterval)), One(0x1F, OptStr(p.reasonString)),
              Users(p.userProperties), One(0x1C, OptStr(p.serverReference))]
  {
  }

  lemma DisconnectOnTheWire(p: DisconnectProperties)
    ensures BlockBody(DISCONNECT, p) == FieldsBytes([
              One(0x11, OptU32(p.sessionExpiryInterval)), One(0x1F, OptStr(p.reasonString)),
              Users(p.userProperties), One(0x1C, OptStr(p.serverReference))])
  {
    PrintedFields(SlotsOf(DISCONNECT, p));
    DisconnectFields(p);
  }


  // ------------------------------------------------------------ what readers make of bytes

  /** A block of these entries, as bytes. */
  function Framed(es: seq<Entry>): Bytes {
    EncodeVarint(|EntriesBytes(es)|) + EntriesBytes(es)
  }

  /** A value counts if no later entry has its identifier, and stands even if earlier ones do. */
  lemma LastEntryCounts<P(!new)>(schema: Schema<P>, good: P -> bool, a: seq<Entry>, e: Entry, b: seq<Entry>,
                                 rest: Bytes)
    requires Lawful(schema, good) && GoodEntries(schema.kind, a + [e] + b) && e.tag != 0x26
    requires |EntriesBytes(a + [e] + b)| < VARINT_LIMIT && forall i :: 0 <= i < |b| ==> b[i].tag != e.tag
    ensures var r := ReadBlock(schema, Framed(a + [e] + b) + rest);
            r.Ok? && schema.get(r.value.0, e.tag) == Some(e.value) && r.value.1 == rest
  {
    var es := a + [e] + b;
    ParseConcatenation(schema.kind, es);
    ReadFramedBlock(schema, EntriesBytes(es), rest);
    FromIsGood(schema, good, es);
    LastConcat(a + [e], b, e.tag);
    LastConcat(a, [e], e.tag);
    NotAmong(b, e.tag);
  }

  lemma {:induction false} NotAmong(es: seq<Entry>, tag: byte)
    requires forall i :: 0 <= i < |es| ==> es[i].tag != tag
    ensures Last(es, tag) == None
  {
    if es != [] { NotAmong(es[..|es| - 1], tag); }
  }

  /** A field without an entry is absent. */
  lemma AbsentWithoutEntry<P(!new)>(schema: Schema<P>, good: P -> bool, es: seq<Entry>, tag: byte, rest: Bytes)
    requires Lawful(schema, good) && GoodEntries(schema.kind, es) && |EntriesBytes(es)| < VARINT_LIMIT && tag != 0x26
    requires forall i :: 0 <= i < |es| ==> es[i].tag != tag
    ensures var r := ReadBlock(schema, Framed(es) + rest); r.Ok? && schema.get(r.value.0, tag) == None
  {
    ParseConcatenation(schema.kind, es);
    ReadFramedBlock(schema, EntriesBytes(es), rest);
    FromIsGood(schema, good, es);
    NotAmong(es, tag);
  }

  /** Every user property counts, in order. */
  lemma EveryUserPropertyCounts<P(!new)>(schema: Schema<P>, good: P -> bool, a: seq<Entry>, k: Text, v: Text,
                                         rest: Bytes)
    requires Lawful(schema, good) && GoodEntries(schema.kind, a + [Entry(0x26, Pair(k, v))])
    requires |EntriesBytes(a + [Entry(0x26, Pair(k, v))])| < VARINT_LIMIT
    ensures var r, before := ReadBlock(schema, Framed(a + [Entry(0x26, Pair(k, v))]) + rest),
                             ReadBlock(schema, Framed(a) + rest);
            r.Ok? && before.Ok? && schema.users(r.value.0) == schema.users(before.value.0) + [(k, v)]
  {
    var e := Entry(0x26, Pair(k, v));
    assert GoodEntries(schema.kind, a) by {
      assert forall x :: x in a ==> x in a + [e];
    }
    EntriesConcat(a, [e]);
    ParseConcatenation(schema.kind, a);
    ParseConcatenation(schema.kind, a + [e]);
    ReadFramedBlock(schema, EntriesBytes(a), rest);
    ReadFramedBlock(schema, EntriesBytes(a + [e]), rest);
    FromIsGood(schema, good, a);
    FromIsGood(schema, good, a + [e]);
    LastAfter(a, e);
  }

  /** An identifier that the block does not have makes the packet malformed, wherever it stands. */
  lemma {:induction false} UnknownIdentifier(kind: byte -> Option<Kind>, es: seq<Entry>, s: Bytes)
    requires GoodEntries(kind, es) && s != [] && kind(s[0]).None?
    ensures ParseEntries(kind, EntriesBytes(es) + s) == Err(MalformedPacket)
  {
    if es == [] {
      assert [] + s == s;
    } else {
      var rest := EntriesBytes(es[1..]) + s;
      assert GoodEntry(kind, es[0]);
      EntryRoundTrip(kind, es[0], rest);
      UnknownIdentifier(kind, es[1..], s);
      ConcatAssociates(EntryBytes(es[0]), EntriesBytes(es[1..]), s);
      ParseStops(kind, EntryBytes(es[0]) + rest, es[0], rest);
    }
  }

  lemma ParseStops(kind: byte -> Option<Kind>, s: Bytes, e: Entry, rest: Bytes)
    requires s != [] && ReadEntry(kind, s) == Ok((e, rest)) && ParseEntries(kind, rest) == Err(MalformedPacket)
    ensures ParseEntries(kind, s) == Err(MalformedPacket)
  {
  }

  lemma UnknownIdentifierRejected<P>(schema: Schema<P>, es: seq<Entry>, s: Bytes, rest: Bytes)
    requires GoodEntries(schema.kind, es) && s != [] && s[0] !in schema.order && PrintsWhatItAccepts(schema)
    requires |EntriesBytes(es) + s| < VARINT_LIMIT
    ensures ReadBlock(schema, EncodeVarint(|EntriesBytes(es) + s|) + (EntriesBytes(es) + s) + rest)
            == Err(MalformedPacket)
  {
    UnknownIdentifier(schema.kind, es, s);
    ReadFramedBlock(schema, EntriesBytes(es) + s, rest);
  }

  /** No bytes at all are no properties. */
  lemma NoBlock<P(!new)>(schema: Schema<P>, good: P -> bool)
    requires Lawful(schema, good)
    ensures var r := ReadBlock(schema, []);
            && r.Ok? && schema.users(r.value.0) == []
            && forall tag: byte :: tag != 0x26 ==> schema.get(r.value.0, tag) == None
  {
    FromIsGood(schema, good, []);
  }
}
