/** The PUBLISH frame a subscriber gets: its bytes, when it fits, and what it decodes to. */
module PublishFrames {
  import opened Basics
  import opened Varint
  import opened Wire
  import opened PropertyBlocks
  import opened Properties
  import opened Packets
  import opened PacketRoundTrip

  /** What is being published. */
  datatype Publication = Publication(topic: Text, payload: Bytes, qos: byte, retain: bool)

  function OnlySubscription(subId: Option<u32>): PublishProperties {
    PublishProperties(None, None, None, None, None, subId, None, [])
  }

  /** The packet a subscriber gets. */
  function Delivered(m: Publication, packetId: Option<u16>, subId: Option<u32>): Packet {
    Publish(false, m.qos, m.retain, m.topic, packetId, OnlySubscription(subId), m.payload)
  }

  /** The frame to this subscription can be written, whichever packet id it gets. */
  predicate Deliverable(m: Publication, subId: Option<u32>) {
    var p := Delivered(m, if m.qos > 0 then Some(1) else None, subId);
    WellFormed(p) && Fits(p)
  }

  /** The frame decodes, whatever follows it, to this publication with this identifier, and an id iff qos > 0. */
  ghost predicate CarriesPublication(frame: Bytes, m: Publication, subId: Option<u32>) {
    exists id: Option<u16> :: (id.Some? <==> m.qos > 0)
      && forall rest :: DecodePacket(frame + rest) == Ok((Delivered(m, id, subId), |frame|))
  }

  lemma DeliveredFits(m: Publication, id: Option<u16>, subId: Option<u32>)
    requires Deliverable(m, subId) && (id.Some? <==> m.qos > 0)
    ensures WellFormed(Delivered(m, id, subId)) && Fits(Delivered(m, id, subId))
  {
    PublishBodySize(Delivered(m, id, subId));
    PublishBodySize(Delivered(m, if m.qos > 0 then Some(1) else None, subId));
  }

  lemma DeliveredRoundTrips(m: Publication, id: Option<u16>, subId: Option<u32>)
    requires Deliverable(m, subId) && (id.Some? <==> m.qos > 0)
    ensures CarriesPublication(EncodePacket(Delivered(m, id, subId)), m, subId)
  {
    var p := Delivered(m, id, subId);
    DeliveredFits(m, id, subId);
    forall rest ensures DecodePacket(EncodePacket(p) + rest) == Ok((p, |EncodePacket(p)|)) {
      RoundTrip(p, rest);
    }
  }

  // ---------------------------------------------------------- the frame byte for byte

  lemma OnlySubscriptionPrinted(subId: Option<u32>)
    ensures Printed(SlotsOf(PUBLISH, OnlySubscription(subId)))
            == if subId.Some? then [Entry(0x0B, VarInt(subId.value))] else []
  {
    var slots := SlotsOf(PUBLISH, OnlySubscription(subId));
    assert PairEntries([]) == [];
    PrintedPrefix(slots, 5);
    assert slots[5..][0] == slots[5] && slots[5..][1..] == slots[6..];
    NothingPrinted(slots[6..]);
    assert Printed(slots[5..]) == SlotEntries(slots[5]) + [];
  }

  lemma {:induction false} PrintedPrefix(slots: seq<Slot>, n: nat)
    requires n <= |slots| && forall i :: 0 <= i < n ==> SlotEntries(slots[i]) == []
    ensures Printed(slots) == Printed(slots[n..])
    decreases n
  {
    if n > 0 {
      PrintedPrefix(slots[1..], n - 1);
      assert slots[1..][n - 1..] == slots[n..];
      assert SlotEntries(slots[0]) == [];
    }
  }

  lemma OneEntryBytes(v: u32)
    ensures EntriesBytes([Entry(0x0B, VarInt(v))]) == [0x0B] + EncodeVarint(v)
  {
    var e := Entry(0x0B, VarInt(v));
    assert [e][1..] == [];
  }

  lemma {:induction false} VarintShort(v: nat, seen: nat)
    requires seen <= 3 && v < VarintBound(seen)
    ensures |EncodeVarint(v)| <= 4 - seen
    decreases v
  {
    if v >= 128 { VarintShort(v / 128, seen + 1); }
  }

  /** The property block of a delivered PUBLISH: its length, then 0x0B and the identifier, or nothing. */
  lemma OnlySubscriptionBlock(subId: Option<u32>)
    requires GoodOptVarint(subId)
    ensures BlockBytes(PUBLISH, OnlySubscription(subId))
            == if subId.Some? then [1 + |EncodeVarint(subId.value)|, 0x0B] + EncodeVarint(subId.value) else [0]
    ensures subId.Some? ==> |EncodeVarint(subId.value)| <= 4
  {
    OnlySubscriptionPrinted(subId);
    if subId.Some? {
      VarintShort(subId.value, 0);
      OneEntryBytes(subId.value);
    }
  }

  /** Section 3.3 of MQTT Version 5.0: topic, packet id, properties, payload. */
  function BodyOnTheWire(m: Publication, id: Option<u16>, subId: Option<u32>): Bytes
    requires |m.topic| < 0x1_0000 && GoodOptVarint(subId)
  {
    VarintShort(if subId.Some? then subId.value else 0, 0);
    [|m.topic| / 256, |m.topic| % 256] + m.topic
    + ((if id.Some? then [id.value / 256, id.value % 256] else [])
       + ((if subId.Some? then [1 + |EncodeVarint(subId.value)|, 0x0B] + EncodeVarint(subId.value) else [0])
          + m.payload))
  }

  lemma DeliveredBody(m: Publication, id: Option<u16>, subId: Option<u32>)
    requires |m.topic| < 0x1_0000 && GoodOptVarint(subId)
    ensures Body(Delivered(m, id, subId)) == BodyOnTheWire(m, id, subId)
  {
    OnlySubscriptionBlock(subId);
  }

  lemma DeliveredHeader(m: Publication, id: Option<u16>, subId: Option<u32>)
    requires m.qos <= 2
    ensures Header(Delivered(m, id, subId)) == 0x30 + 2 * m.qos + if m.retain then 1 else 0
  {
  }

  /** The whole frame: type and flags, remaining length, body. */
  lemma DeliveredOnTheWire(m: Publication, id: Option<u16>, subId: Option<u32>)
    requires Deliverable(m, subId) && (id.Some? <==> m.qos > 0)
    ensures var body := BodyOnTheWire(m, id, subId);
            EncodePacket(Delivered(m, id, subId))
            == [0x30 + 2 * m.qos + if m.retain then 1 else 0] + (EncodeVarint(|body|) + body)
  {
    DeliveredFits(m, id, subId);
    DeliveredBody(m, id, subId);
    DeliveredHeader(m, id, subId);
  }

  /** Exactly when a publication is deliverable: what a publisher could send, an encodable identifier, and room. */
  lemma DeliverableExactly(m: Publication, subId: Option<u32>)
    ensures Deliverable(m, subId) <==>
            && GoodText(m.topic) && m.qos <= 2 && GoodOptVarint(subId)
            && |BodyOnTheWire(m, if m.qos > 0 then Some(1) else None, subId)| < VARINT_LIMIT
  {
    if GoodText(m.topic) && GoodOptVarint(subId) {
      DeliveredBody(m, if m.qos > 0 then Some(1) else None, subId);
    }
  }
}
