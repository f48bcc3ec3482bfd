/** The packets the decoder can produce are exactly those that round-trip. */
module DecoderRange {
  import opened Basics
  import opened Varint
  import opened Wire
  import opened PropertyBlocks
  import opened PropertySizes
  import opened Properties
  import opened Packets
  import opened PacketRoundTrip

  ghost predicate Reencodes(p: Packet) {
    WellFormed(p) && Fits(p)
  }

  lemma StrConsumes(s: Bytes)
    ensures ReadStr(s).Ok? ==>
              GoodText(ReadStr(s).value.0) && |Prefixed(ReadStr(s).value.0)| + |ReadStr(s).value.1| == |s|
    ensures ReadBytes(s).Ok? ==>
              FitsPrefix(ReadBytes(s).value.0) && |Prefixed(ReadBytes(s).value.0)| + |ReadBytes(s).value.1| == |s|
  {
  }

  lemma OptConsumes(present: bool, s: Bytes)
    ensures var r := ReadOptStr(present, s);
            r.Ok? ==> GoodOptText(r.value.0) && |OptPrefixed(r.value.0)| + |r.value.1| == |s|
    ensures var r := ReadOptBytes(present, s);
            r.Ok? ==> GoodOptData(r.value.0) && |OptPrefixed(r.value.0)| + |r.value.1| == |s|
  {
    StrConsumes(s);
  }

  lemma OptU16Consumes(present: bool, s: Bytes)
    ensures var r := ReadOptU16(present, s);
            r.Ok? ==> (r.value.0.Some? <==> present) && |OptU16Bytes(r.value.0)| + |r.value.1| == |s|
  {
  }

  lemma SkipWillShrinks(present: bool, s: Bytes)
    ensures SkipWill(present, s).Ok? ==> |SkipWill(present, s).value| <= |s|
  {
  }

  lemma ConnectInRange(s: Bytes)
    requires |s| < VARINT_LIMIT && DecodeConnect(0, s).Ok?
    ensures Reencodes(DecodeConnect(0, s).value)
  {
    var s1 := ReadStr(s).value.1;
    var s2 := ReadU8(s1).value.1;
    var (f, s3) := ReadU8(s2).value;
    var s4 := ReadU16(s3).value.1;
    var s5 := ReadBlock(CONNECT, s4).value.1;
    var s6 := ReadStr(s5).value.1;
    var s7 := SkipWill(HasBit(f, 4), s6).value;
    var s8 := ReadOptStr(HasBit(f, 0x80), s7).value.1;
    StrConsumes(s);
    ConnectLawful();
    BlockRead(CONNECT, GoodConnect, s4);
    StrConsumes(s5);
    SkipWillShrinks(HasBit(f, 4), s6);
    OptConsumes(HasBit(f, 0x80), s7);
    OptConsumes(HasBit(f, 0x40), s8);
    assert s4 != [];
    ConnectBodySize(DecodeConnect(0, s).value);
  }

  lemma ConnAckInRange(s: Bytes)
    requires |s| < VARINT_LIMIT && DecodeConnAck(s).Ok?
    ensures Reencodes(DecodeConnAck(s).value)
  {
    ConnAckLawful();
    BlockRead(CONNACK, GoodConnAck, s[1..][1..]);
  }

  lemma PublishInRange(flags: byte, s: Bytes)
    requires |s| < VARINT_LIMIT && DecodePublish(flags, s).Ok?
    ensures Reencodes(DecodePublish(flags, s).value)
  {
    var qos := flags / 2 % 4;
    var s1 := ReadStr(s).value.1;
    var s2 := ReadOptU16(qos > 0, s1).value.1;
    StrConsumes(s);
    OptU16Consumes(qos > 0, s1);
    PublishLawful();
    BlockRead(PUBLISH, GoodPublish, s2);
    PublishBodySize(DecodePublish(flags, s).value);
  }

  lemma ReasonInRange<P(!new)>(schema: Schema<P>, good: P -> bool, s: Bytes)
    requires Lawful(schema, good) && ReadReason(schema, s).Ok?
    ensures good(ReadReason(schema, s).value.1)
    ensures |BlockBytes(schema, ReadReason(schema, s).value.1)| <= if |s| <= 1 then 1 else |s| - 1
  {
    if |s| <= 1 {
      BlockRead(schema, good, []);
    } else {
      BlockRead(schema, good, s[1..]);
    }
  }

  lemma PubAckInRange(s: Bytes)
    requires |s| < VARINT_LIMIT && DecodePubAck(s).Ok?
    ensures Reencodes(DecodePubAck(s).value)
  {
    PubAckLawful();
    ReasonInRange(PUBACK, GoodPubAck, ReadU16(s).value.1);
    PubAckBodySize(DecodePubAck(s).value);
  }

  lemma FittingDisconnect(p: Packet, n: nat)
    requires p.Disconnect? && GoodDisconnect(p.disconnectProps) && n < VARINT_LIMIT
    requires |BlockBytes(DISCONNECT, p.disconnectProps)| <= if n <= 1 then 1 else n - 1
    ensures Reencodes(p)
  {
    DisconnectBodySize(p);
  }

  lemma DisconnectInRange(s: Bytes)
    requires |s| < VARINT_LIMIT && DecodeDisconnect(s).Ok?
    ensures Reencodes(DecodeDisconnect(s).value)
  {
    var (code, props) := ReadReason(DISCONNECT, s).value;
    DisconnectLawful();
    ReasonInRange(DISCONNECT, GoodDisconnect, s);
    FittingDisconnect(Disconnect(code, props), |s|);
  }

  lemma {:induction false} SubscriptionsInRange(s: Bytes)
    requires ReadSubscriptions(s).Ok?
    ensures GoodSubscriptions(ReadSubscriptions(s).value)
    ensures |SubscriptionsBytes(ReadSubscriptions(s).value)| == |s|
    decreases |s|
  {
    if s != [] {
      StrConsumes(s);
      var (filter, s1) := ReadStr(s).value;
      var (options, s2) := ReadU8(s1).value;
      SubscriptionsInRange(s2);
      var more := ReadSubscriptions(s2).value;
      assert ([Subscription(filter, options)] + more)[1..] == more;
    }
  }

  lemma SubscribeParts(flags: nat, s: Bytes) returns (s1: Bytes, s2: Bytes)
    requires DecodeSubscribe(flags, s).Ok?
    ensures var p := DecodeSubscribe(flags, s).value;
            && p.Subscribe? && p.subscriptions != [] && ReadU16(s) == Ok((p.subscribeId, s1))
            && ReadBlock(SUBSCRIBE, s1) == Ok((p.subscribeProps, s2)) && ReadSubscriptions(s2) == Ok(p.subscriptions)
  {
    s1 := ReadU16(s).value.1;
    s2 := ReadBlock(SUBSCRIBE, s1).value.1;
  }

  lemma SubscribeInRange(flags: nat, s: Bytes)
    requires |s| < VARINT_LIMIT && DecodeSubscribe(flags, s).Ok?
    ensures Reencodes(DecodeSubscribe(flags, s).value)
  {
    var s1, s2 := SubscribeParts(flags, s);
    SubscribePartsInRange(s, s1, s2, DecodeSubscribe(flags, s).value);
  }

  lemma SubscribePartsInRange(s: Bytes, s1: Bytes, s2: Bytes, p: Packet)
    requires |s| < VARINT_LIMIT && p.Subscribe? && p.subscriptions != [] && ReadU16(s) == Ok((p.subscribeId, s1))
    requires ReadBlock(SUBSCRIBE, s1) == Ok((p.subscribeProps, s2)) && ReadSubscriptions(s2) == Ok(p.subscriptions)
    ensures Reencodes(p)
  {
    assert |s1| == |s| - 2;
    SubscribeLawful();
    BlockRead(SUBSCRIBE, GoodSubscribe, s1);
    SubscriptionsInRange(s2);
    SubscribeBodySize(p);
  }

  lemma SubAckParts(s: Bytes) returns (s1: Bytes)
    requires DecodeSubAck(s).Ok?
    ensures var p := DecodeSubAck(s).value;
            p.SubAck? && ReadU16(s) == Ok((p.subAckId, s1)) && ReadBlock(SUBACK, s1) == Ok((p.subAckProps, p.codes))
  {
    s1 := ReadU16(s).value.1;
  }

  lemma SubAckInRange(s: Bytes)
    requires |s| < VARINT_LIMIT && DecodeSubAck(s).Ok?
    ensures Reencodes(DecodeSubAck(s).value)
  {
    var s1 := SubAckParts(s);
    SubAckPartsInRange(s, s1, DecodeSubAck(s).value);
  }

  lemma SubAckPartsInRange(s: Bytes, s1: Bytes, p: Packet)
    requires |s| < VARINT_LIMIT && p.SubAck? && ReadU16(s) == Ok((p.subAckId, s1))
    requires ReadBlock(SUBACK, s1) == Ok((p.subAckProps, p.codes))
    ensures Reencodes(p)
  {
    assert |s1| == |s| - 2;
    SubAckLawful();
    BlockRead(SUBACK, GoodSubAck, s1);
    SubAckBodySize(p);
  }

  /** Whatever `decode_packet` accepts is well formed, and its own encoding fits a frame again. */
  lemma BodyInRange(header: byte, s: Bytes)
    requires |s| < VARINT_LIMIT && DecodeBody(header, s).Ok?
    ensures Reencodes(DecodeBody(header, s).value)
  {
    match header / 16
    case 1 => ConnectInRange(s);
    case 2 => ConnAckInRange(s);
    case 3 => PublishInRange(header % 16, s);
    case 4 => PubAckInRange(s);
    case 8 => SubscribeInRange(header % 16, s);
    case 9 => SubAckInRange(s);
    case 14 => DisconnectInRange(s);
    case _ =>
  }

  lemma DecodedInRange(b: Bytes)
    requires DecodePacket(b).Ok?
    ensures Reencodes(DecodePacket(b).value.0)
  {
    var (header, body, n) := DecodeFrame(b).value;
    BodyInRange(header, body);
  }

  /** Decode, encode, decode again: the same packet, however it was first written. */
  lemma ReencodeRoundTrip(b: Bytes, rest: Bytes)
    requires DecodePacket(b).Ok?
    ensures var p := DecodePacket(b).value.0;
            DecodePacket(EncodePacket(p) + rest) == Ok((p, |EncodePacket(p)|))
  {
    DecodedInRange(b);
    RoundTrip(DecodePacket(b).value.0, rest);
  }

  /** A packet can come out of the decoder exactly when it is well formed and fits. */
  lemma DecoderRange(p: Packet)
    ensures (exists b :: DecodePacket(b).Ok? && DecodePacket(b).value.0 == p) <==> WellFormed(p) && Fits(p)
  {
    if WellFormed(p) && Fits(p) {
      RoundTrip(p, []);
      assert DecodePacket(EncodePacket(p) + []).Ok?;
    }
    if b :| DecodePacket(b).Ok? && DecodePacket(b).value.0 == p {
      DecodedInRange(b);
    }
  }

  /** Encoding then decoding gives the packet back, and no bytes over, exactly when it is well formed and fits. */
  lemma RoundTripExactly(p: Packet)
    ensures DecodePacket(EncodePacket(p)) == Ok((p, |EncodePacket(p)|)) <==> WellFormed(p) && Fits(p)
  {
    if WellFormed(p) && Fits(p) {
      RoundTrip(p, []);
      assert EncodePacket(p) + [] == EncodePacket(p);
    }
    if DecodePacket(EncodePacket(p)).Ok? && DecodePacket(EncodePacket(p)).value.0 == p {
      DecodedInRange(EncodePacket(p));
    }
  }
}
