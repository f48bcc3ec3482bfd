/**
 The seven property blocks: their fields, identifiers, widths and print order. Each satisfies the laws of a block,
 law by law where it has many fields.
 */
module Properties {
  import opened Basics
  import opened PropertyBlocks

  datatype ConnectProperties = ConnectProperties(
    sessionExpiryInterval: Option<u32>,
    receiveMaximum: Option<u16>,
    maxPacketSize: Option<u32>,
    topicAliasMaximum: Option<u16>,
    requestResponseInfo: Option<byte>,
    requestProblemInfo: Option<byte>,
    userProperties: seq<UserProperty>,
    authMethod: Option<Text>,
    authData: Option<Bytes>)

  const CONNECT: Schema<ConnectProperties> := Schema(
    [0x11, 0x21, 0x27, 0x22, 0x19, 0x17, USER_PROPERTY, 0x15, 0x16],
    ConnectKind, ConnectGet, (p: ConnectProperties) => p.userProperties, ConnectWith)

  function ConnectKind(tag: byte): Option<Kind> {
    match tag
    case 0x11 => Some(U32Kind)
    case 0x21 => Some(U16Kind)
    case 0x27 => Some(U32Kind)
    case 0x22 => Some(U16Kind)
    case 0x19 => Some(U8Kind)
    case 0x17 => Some(U8Kind)
    case 0x26 => Some(PairKind)
    case 0x15 => Some(StrKind)
    case 0x16 => Some(BinKind)
    case _ => None
  }

  function ConnectGet(p: ConnectProperties, tag: byte): Option<Value> {
    match tag
    case 0x11 => OptU32(p.sessionExpiryInterval)
    case 0x21 => OptU16(p.receiveMaximum)
    case 0x27 => OptU32(p.maxPacketSize)
    case 0x22 => OptU16(p.topicAliasMaximum)
    case 0x19 => OptU8(p.requestResponseInfo)
    case 0x17 => OptU8(p.requestProblemInfo)
    case 0x15 => OptStr(p.authMethod)
    case 0x16 => OptBin(p.authData)
    case _ => None
  }

  function ConnectWith(last: byte -> Option<Value>, users: seq<UserProperty>): ConnectProperties {
    ConnectProperties(
      AsU32(last(0x11)),
      AsU16(last(0x21)),
      AsU32(last(0x27)),
      AsU16(last(0x22)),
      AsU8(last(0x19)),
      AsU8(last(0x17)),
      users,
      AsStr(last(0x15)),
      AsBin(last(0x16)))
  }

  predicate GoodConnect(p: ConnectProperties) {
    GoodPairs(p.userProperties) && GoodOptText(p.authMethod) && GoodOptData(p.authData)
  }

  lemma ConnectIsItsFields(p: ConnectProperties, last: byte -> Option<Value>)
    requires forall tag: byte :: ConnectKind(tag).Some? && tag != USER_PROPERTY ==> last(tag) == ConnectGet(p, tag)
    ensures ConnectWith(last, p.userProperties) == p
  {
  }

  lemma ConnectHasItsField(last: byte -> Option<Value>, users: seq<UserProperty>, tag: byte, o: Option<Value>)
    requires tag != USER_PROPERTY && o == last(tag) && (o.Some? ==> ConnectKind(tag) == Some(KindOfValue(o.value)))
    ensures ConnectGet(ConnectWith(last, users), tag) == o
  {
  }

  lemma ConnectIsGoodWithGoodFields(last: byte -> Option<Value>, users: seq<UserProperty>)
    requires GoodPairs(users) && forall tag: byte :: last(tag).Some? ==> GoodValue(last(tag).value)
    ensures GoodConnect(ConnectWith(last, users))
  {
  }

  lemma ConnectPrintsEachOnce()
    ensures PrintsNothingTwice(CONNECT) && PrintsWhatItAccepts(CONNECT)
  {
  }

  lemma ConnectFieldIsGood(p: ConnectProperties, tag: byte)
    requires GoodConnect(p)
    ensures GoodField(ConnectKind, tag, ConnectGet(p, tag))
  {
  }

  lemma ConnectLawful()
    ensures Lawful(CONNECT, GoodConnect)
  {
    ConnectPrintsEachOnce();
    forall p, tag: byte | GoodConnect(p) ensures GoodField(ConnectKind, tag, ConnectGet(p, tag)) {
      ConnectFieldIsGood(p, tag);
    }
    forall p, last | FieldsAre(CONNECT, p, last) ensures ConnectWith(last, p.userProperties) == p {
      ConnectIsItsFields(p, last);
    }
    forall last: byte -> Option<Value>, users, tag: byte
      | tag != USER_PROPERTY && GoodField(ConnectKind, tag, last(tag))
      ensures ConnectGet(ConnectWith(last, users), tag) == last(tag)
    {
      ConnectHasItsField(last, users, tag, last(tag));
    }
    forall last, users | GoodFields(ConnectKind, last) && GoodPairs(users)
      ensures GoodConnect(ConnectWith(last, users))
    {
      ConnectIsGoodWithGoodFields(last, users);
    }
    LawsTogether(CONNECT, GoodConnect);
  }

  datatype ConnAckProperties = ConnAckProperties(
    sessionExpiryInterval: Option<u32>,
    receiveMaximum: Option<u16>,
    maxQos: Option<byte>,
    retainAvailable: Option<byte>,
    maximumPacketSize: Option<u32>,
    assignedClientIdentifier: Option<Text>,
    topicAliasMaximum: Option<u16>,
    reasonString: Option<Text>,
    userProperties: seq<UserProperty>,
    wildcardSubscriptionAvailable: Option<byte>,
    subscriptionIdentifiersAvailable: Option<byte>,
    sharedSubscriptionAvailable: Option<byte>,
    serverKeepAlive: Option<u16>,
    responseInformation: Option<Text>,
    serverReference: Option<Text>,
    authenticationMethod: Option<Text>,
    authenticationData: Option<Bytes>)

  const CONNACK: Schema<ConnAckProperties> := Schema(
    [0x11, 0x21, 0x24, 0x25, 0x27, 0x12, 0x22, 0x1F, USER_PROPERTY, 0x28, 0x29, 0x2A, 0x13,
      0x1A, 0x1C, 0x15, 0x16],
    ConnAckKind, ConnAckGet, (p: ConnAckProperties) => p.userProperties, ConnAckWith)

  function ConnAckKind(tag: byte): Option<Kind> {
    match tag
    case 0x11 => Some(U32Kind)
    case 0x21 => Some(U16Kind)
    case 0x24 => Some(U8Kind)
    case 0x25 => Some(U8Kind)
    case 0x27 => Some(U32Kind)
    case 0x12 => Some(StrKind)
    case 0x22 => Some(U16Kind)
    case 0x1F => Some(StrKind)
    case 0x26 => Some(PairKind)
    case 0x28 => Some(U8Kind)
    case 0x29 => Some(U8Kind)
    case 0x2A => Some(U8Kind)
    case 0x13 => Some(U16Kind)
    case 0x1A => Some(StrKind)
    case 0x1C => Some(StrKind)
    case 0x15 => Some(StrKind)
    case 0x16 => Some(BinKind)
    case _ => None
  }

  function ConnAckGet(p: ConnAckProperties, tag: byte): Option<Value> {
    match tag
    case 0x11 => OptU32(p.sessionExpiryInterval)
    case 0x21 => OptU16(p.receiveMaximum)
    case 0x24 => OptU8(p.maxQos)
    case 0x25 => OptU8(p.retainAvailable)
    case 0x27 => OptU32(p.maximumPacketSize)
    case 0x12 => OptStr(p.assignedClientIdentifier)
    case 0x22 => OptU16(p.topicAliasMaximum)
    case 0x1F => OptStr(p.reasonString)
    case 0x28 => OptU8(p.wildcardSubscriptionAvailable)
    case 0x29 => OptU8(p.subscriptionIdentifiersAvailable)
    case 0x2A => OptU8(p.sharedSubscriptionAvailable)
    case 0x13 => OptU16(p.serverKeepAlive)
    case 0x1A => OptStr(p.responseInformation)
    case 0x1C => OptStr(p.serverReference)
    case 0x15 => OptStr(p.authenticationMethod)
    case 0x16 => OptBin(p.authenticationData)
    case _ => None
  }

  function ConnAckWith(last: byte -> Option<Value>, users: seq<UserProperty>): ConnAckProperties {
    ConnAckProperties(
      AsU32(last(0x11)),
      AsU16(last(0x21)),
      AsU8(last(0x24)),
      AsU8(last(0x25)),
      AsU32(last(0x27)),
      AsStr(last(0x12)),
      AsU16(last(0x22)),
      AsStr(last(0x1F)),
      users,
      AsU8(last(0x28)),
      AsU8(last(0x29)),
      AsU8(last(0x2A)),
      AsU16(last(0x13)),
      AsStr(last(0x1A)),
      AsStr(last(0x1C)),
      AsStr(last(0x15)),
      AsBin(last(0x16)))
  }

  predicate GoodConnAck(p: ConnAckProperties) {
    && GoodOptText(p.assignedClientIdentifier) && GoodOptText(p.reasonString) && GoodPairs(p.userProperties)
    && GoodOptText(p.responseInformation) && GoodOptText(p.serverReference)
    && GoodOptText(p.authenticationMethod) && GoodOptData(p.authenticationData)
  }

  lemma ConnAckIsItsFields(p: ConnAckProperties, last: byte -> Option<Value>)
    requires forall tag: byte :: ConnAckKind(tag).Some? && tag != USER_PROPERTY ==> last(tag) == ConnAckGet(p, tag)
    ensures ConnAckWith(last, p.userProperties) == p
  {
  }

  lemma ConnAckHasItsField(last: byte -> Option<Value>, users: seq<UserProperty>, tag: byte, o: Option<Value>)
    requires tag != USER_PROPERTY && o == last(tag) && (o.Some? ==> ConnAckKind(tag) == Some(KindOfValue(o.value)))
    ensures ConnAckGet(ConnAckWith(last, users), tag) == o
  {
  }

  lemma ConnAckIsGoodWithGoodFields(last: byte -> Option<Value>, users: seq<UserProperty>)
    requires GoodPairs(users) && forall tag: byte :: last(tag).Some? ==> GoodValue(last(tag).value)
    ensures GoodConnAck(ConnAckWith(last, users))
  {
  }

  lemma ConnAckPrintsNothingTwice()
    ensures PrintsNothingTwice(CONNACK)
  {
  }

  lemma ConnAckPrintsWhatItAccepts()
    ensures PrintsWhatItAccepts(CONNACK)
  {
  }

  lemma ConnAckFieldKind(p: ConnAckProperties, tag: byte)
    ensures ConnAckGet(p, tag).Some? ==> ConnAckKind(tag) == Some(KindOfValue(ConnAckGet(p, tag).value))
  {
  }

  lemma ConnAckFieldIsGood(p: ConnAckProperties, tag: byte, o: Option<Value>)
    requires GoodConnAck(p) && o == ConnAckGet(p, tag)
    ensures o.Some? ==> GoodValue(o.value)
  {
    if o.Some? {
      match o.value
      case Str(x) =>
        assert Some(x) in {p.assignedClientIdentifier, p.reasonString, p.responseInformation, p.serverReference,
                           p.authenticationMethod};
      case _ =>
    }
  }

  lemma ConnAckLawful()
    ensures Lawful(CONNACK, GoodConnAck)
  {
    ConnAckPrintsNothingTwice();
    ConnAckPrintsWhatItAccepts();
    forall p, tag: byte | GoodConnAck(p) ensures GoodField(ConnAckKind, tag, ConnAckGet(p, tag)) {
      ConnAckFieldKind(p, tag);
      ConnAckFieldIsGood(p, tag, ConnAckGet(p, tag));
    }
    forall p, last | FieldsAre(CONNACK, p, last) ensures ConnAckWith(last, p.userProperties) == p {
      ConnAckIsItsFields(p, last);
    }
    forall last: byte -> Option<Value>, users, tag: byte
      | tag != USER_PROPERTY && GoodField(ConnAckKind, tag, last(tag))
      ensures ConnAckGet(ConnAckWith(last, users), tag) == last(tag)
    {
      ConnAckHasItsField(last, users, tag, last(tag));
    }
    forall last, users | GoodFields(ConnAckKind, last) && GoodPairs(users)
      ensures GoodConnAck(ConnAckWith(last, users))
    {
      ConnAckIsGoodWithGoodFields(last, users);
    }
    LawsTogether(CONNACK, GoodConnAck);
  }

  datatype PublishProperties = PublishProperties(
    payloadFormatIndicator: Option<byte>,
    messageExpiryInterval: Option<u32>,
    contentType: Option<Text>,
    responseTopic: Option<Text>,
    correlationData: Option<Bytes>,
    subscriptionIdentifier: Option<u32>,
    topicAlias: Option<u16>,
    userProperties: seq<UserProperty>)

  const PUBLISH: Schema<PublishProperties> := Schema(
    [0x01, 0x02, 0x03, 0x08, 0x09, 0x0B, 0x23, USER_PROPERTY],
    PublishKind, PublishGet, (p: PublishProperties) => p.userProperties, PublishWith)

  function PublishKind(tag: byte): Option<Kind> {
    match tag
    case 0x01 => Some(U8Kind)
    case 0x02 => Some(U32Kind)
    case 0x03 => Some(StrKind)
    case 0x08 => Some(StrKind)
    case 0x09 => Some(BinKind)
    case 0x0B => Some(VarIntKind)
    case 0x23 => Some(U16Kind)
    case 0x26 => Some(PairKind)
    case _ => None
  }

  function PublishGet(p: PublishProperties, tag: byte): Option<Value> {
    match tag
    case 0x01 => OptU8(p.payloadFormatIndicator)
    case 0x02 => OptU32(p.messageExpiryInterval)
    case 0x03 => OptStr(p.contentType)
    case 0x08 => OptStr(p.responseTopic)
    case 0x09 => OptBin(p.correlationData)
    case 0x0B => OptVarInt(p.subscriptionIdentifier)
    case 0x23 => OptU16(p.topicAlias)
    case _ => None
  }

  function PublishWith(last: byte -> Option<Value>, users: seq<UserProperty>): PublishProperties {
    PublishProperties(
      AsU8(last(0x01)),
      AsU32(last(0x02)),
      AsStr(last(0x03)),
      AsStr(last(0x08)),
      AsBin(last(0x09)),
      AsVarInt(last(0x0B)),
      AsU16(last(0x23)),
      users)
  }

  predicate GoodPublish(p: PublishProperties) {
    && GoodOptText(p.contentType) && GoodOptText(p.responseTopic) && GoodOptData(p.correlationData)
    && GoodOptVarint(p.subscriptionIdentifier) && GoodPairs(p.userProperties)
  }

  lemma PublishIsItsFields(p: PublishProperties, last: byte -> Option<Value>)
    requires forall tag: byte :: PublishKind(tag).Some? && tag != USER_PROPERTY ==> last(tag) == PublishGet(p, tag)
    ensures PublishWith(last, p.userProperties) == p
  {
  }

  lemma PublishHasItsField(last: byte -> Option<Value>, users: seq<UserProperty>, tag: byte, o: Option<Value>)
    requires tag != USER_PROPERTY && o == last(tag) && (o.Some? ==> PublishKind(tag) == Some(KindOfValue(o.value)))
    ensures PublishGet(PublishWith(last, users), tag) == o
  {
  }

  lemma PublishIsGoodWithGoodFields(last: byte -> Option<Value>, users: seq<UserProperty>)
    requires GoodPairs(users) && forall tag: byte :: last(tag).Some? ==> GoodValue(last(tag).value)
    ensures GoodPublish(PublishWith(last, users))
  {
  }

  lemma PublishPrintsEachOnce()
    ensures PrintsNothingTwice(PUBLISH) && PrintsWhatItAccepts(PUBLISH)
  {
  }

  lemma PublishFieldIsGood(p: PublishProperties, tag: byte)
    requires GoodPublish(p)
    ensures GoodField(PublishKind, tag, PublishGet(p, tag))
  {
  }

  lemma PublishLawful()
    ensures Lawful(PUBLISH, GoodPublish)
  {
    PublishPrintsEachOnce();
    forall p, tag: byte | GoodPublish(p) ensures GoodField(PublishKind, tag, PublishGet(p, tag)) {
      PublishFieldIsGood(p, tag);
    }
    forall p, last | FieldsAre(PUBLISH, p, last) ensures PublishWith(last, p.userProperties) == p {
      PublishIsItsFields(p, last);
    }
    forall last: byte -> Option<Value>, users, tag: byte
      | tag != USER_PROPERTY && GoodField(PublishKind, tag, last(tag))
      ensures PublishGet(PublishWith(last, users), tag) == last(tag)
    {
      PublishHasItsField(last, users, tag, last(tag));
    }
    forall last, users | GoodFields(PublishKind, last) && GoodPairs(users)
      ensures GoodPublish(PublishWith(last, users))
    {
      PublishIsGoodWithGoodFields(last, users);
    }
    LawsTogether(PUBLISH, GoodPublish);
  }

  datatype PubAckProperties = PubAckProperties(
    reasonString: Option<Text>,
    userProperties: seq<UserProperty>)

  const PUBACK: Schema<PubAckProperties> := Schema(
    [0x1F, USER_PROPERTY],
    PubAckKind, PubAckGet, (p: PubAckProperties) => p.userProperties, PubAckWith)

  function PubAckKind(tag: byte): Option<Kind> {
    match tag
    case 0x1F => Some(StrKind)
    case 0x26 => Some(PairKind)
    case _ => None
  }

  function PubAckGet(p: PubAckProperties, tag: byte): Option<Value> {
    match tag
    case 0x1F => OptStr(p.reasonString)
    case _ => None
  }

  function PubAckWith(last: byte -> Option<Value>, users: seq<UserProperty>): PubAckProperties {
    PubAckProperties(
      AsStr(last(0x1F)),
      users)
  }

  predicate GoodPubAck(p: PubAckProperties) {
    GoodOptText(p.reasonString) && GoodPairs(p.userProperties)
  }

  lemma PubAckLawful()
    ensures Lawful(PUBACK, GoodPubAck)
  {
    forall p, last | FieldsAre(PUBACK, p, last) ensures PubAckWith(last, p.userProperties) == p {
    }
  }

  datatype SubscribeProperties = SubscribeProperties(
    subscriptionIdentifier: Option<u32>,
    userProperties: seq<UserProperty>)

  const SUBSCRIBE: Schema<SubscribeProperties> := Schema(
    [0x0B, USER_PROPERTY],
    SubscribeKind, SubscribeGet, (p: SubscribeProperties) => p.userProperties, SubscribeWith)

  function SubscribeKind(tag: byte): Option<Kind> {
    match tag
    case 0x0B => Some(VarIntKind)
    case 0x26 => Some(PairKind)
    case _ => None
  }

  function SubscribeGet(p: SubscribeProperties, tag: byte): Option<Value> {
    match tag
    case 0x0B => OptVarInt(p.subscriptionIdentifier)
    case _ => None
  }

  function SubscribeWith(last: byte -> Option<Value>, users: seq<UserProperty>): SubscribeProperties {
    SubscribeProperties(
      AsVarInt(last(0x0B)),
      users)
  }

  predicate GoodSubscribe(p: SubscribeProperties) {
    GoodOptVarint(p.subscriptionIdentifier) && GoodPairs(p.userProperties)
  }

  lemma SubscribeLawful()
    ensures Lawful(SUBSCRIBE, GoodSubscribe)
  {
    forall p, last | FieldsAre(SUBSCRIBE, p, last) ensures SubscribeWith(last, p.userProperties) == p {
    }
  }

  datatype SubAckProperties = SubAckProperties(
    reasonString: Option<Text>,
    userProperties: seq<UserProperty>)

  const SUBACK: Schema<SubAckProperties> := Schema(
    [0x1F, USER_PROPERTY],
    SubAckKind, SubAckGet, (p: SubAckProperties) => p.userProperties, SubAckWith)

  function SubAckKind(tag: byte): Option<Kind> {
    match tag
    case 0x1F => Some(StrKind)
    case 0x26 => Some(PairKind)
    case _ => None
  }

  function SubAckGet(p: SubAckProperties, tag: byte): Option<Value> {
    match tag
    case 0x1F => OptStr(p.reasonString)
    case _ => None
  }

  function SubAckWith(last: byte -> Option<Value>, users: seq<UserProperty>): SubAckProperties {
    SubAckProperties(
      AsStr(last(0x1F)),
      users)
  }

  predicate GoodSubAck(p: SubAckProperties) {
    GoodOptText(p.reasonString) && GoodPairs(p.userProperties)
  }

  lemma SubAckLawful()
    ensures Lawful(SUBACK, GoodSubAck)
  {
    forall p, last | FieldsAre(SUBACK, p, last) ensures SubAckWith(last, p.userProperties) == p {
    }
  }

  datatype DisconnectProperties = DisconnectProperties(
    sessionExpiryInterval: Option<u32>,
    reasonString: Option<Text>,
    userProperties: seq<UserProperty>,
    serverReference: Option<Text>)

  const DISCONNECT: Schema<DisconnectProperties> := Schema(
    [0x11, 0x1F, USER_PROPERTY, 0x1C],
    DisconnectKind, DisconnectGet, (p: DisconnectProperties) => p.userProperties, DisconnectWith)

  function DisconnectKind(tag: byte): Option<Kind> {
    match tag
    case 0x11 => Some(U32Kind)
    case 0x1F => Some(StrKind)
    case 0x26 => Some(PairKind)
    case 0x1C => Some(StrKind)
    case _ => None
  }

  function DisconnectGet(p: DisconnectProperties, tag: byte): Option<Value> {
    match tag
    case 0x11 => OptU32(p.sessionExpiryInterval)
    case 0x1F => OptStr(p.reasonString)
    case 0x1C => OptStr(p.serverReference)
    case _ => None
  }

  function DisconnectWith(last: byte -> Option<Value>, users: seq<UserProperty>): DisconnectProperties {
    DisconnectProperties(
      AsU32(last(0x11)),
      AsStr(last(0x1F)),
      users,
      AsStr(last(0x1C)))
  }

  predicate GoodDisconnect(p: DisconnectProperties) {
    GoodOptText(p.reasonString) && GoodPairs(p.userProperties) && GoodOptText(p.serverReference)
  }

  lemma DisconnectIsItsFields(p: DisconnectProperties, last: byte -> Option<Value>)
    requires forall tag: byte :: DisconnectKind(tag).Some? && tag != USER_PROPERTY ==>
               last(tag) == DisconnectGet(p, tag)
    ensures DisconnectWith(last, p.userProperties) == p
  {
  }

  lemma DisconnectHasItsField(last: byte -> Option<Value>, users: seq<UserProperty>, tag: byte, o: Option<Value>)
    requires tag != USER_PROPERTY && o == last(tag) && (o.Some? ==> DisconnectKind(tag) == Some(KindOfValue(o.value)))
    ensures DisconnectGet(DisconnectWith(last, users), tag) == o
  {
  }

  lemma DisconnectLawful()
    ensures Lawful(DISCONNECT, GoodDisconnect)
  {
    forall p, tag: byte | GoodDisconnect(p) ensures GoodField(DisconnectKind, tag, DisconnectGet(p, tag)) {
    }
    forall p, last | FieldsAre(DISCONNECT, p, last) ensures DisconnectWith(last, p.userProperties) == p {
      DisconnectIsItsFields(p, last);
    }
    forall last: byte -> Option<Value>, users, tag: byte
      | tag != USER_PROPERTY && GoodField(DisconnectKind, tag, last(tag))
      ensures DisconnectGet(DisconnectWith(last, users), tag) == last(tag)
    {
      DisconnectHasItsField(last, users, tag, last(tag));
    }
    LawsTogether(DISCONNECT, GoodDisconnect);
  }
}
