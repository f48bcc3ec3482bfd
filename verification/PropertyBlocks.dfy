/**
 Property blocks (section 2.2.2 of MQTT Version 5.0): one parser and one printer
 for all blocks, over a schema that says which identifier carries which field.
 */
module PropertyBlocks {
  import opened Basics
  import opened Varint
  import opened Wire

  type UserProperty = (Text, Text)

  const USER_PROPERTY: byte := 0x26

  /** What an identifier is followed by. */
  datatype Kind = U8Kind | U16Kind | U32Kind | VarIntKind | StrKind | BinKind | PairKind

  datatype Value =
    | U8(b: byte) | U16(w: u16) | U32(d: u32) | VarInt(n: u32)
    | Str(s: Text) | Bin(data: Bytes) | Pair(k: Text, v: Text)

  datatype Entry = Entry(tag: byte, value: Value)

  /** A field as the printer sees it: an optional value under its identifier, or the list of user properties. */
  datatype Slot = One(tag: byte, value: Option<Value>) | Users(pairs: seq<UserProperty>)

  /**
   One block type. `order`: the identifiers it may hold, as they are printed. `kind`: what each is followed by.
   `get`, `users`: its fields. `with`: the block with these fields.
   */
  datatype Schema<!P> = Schema(
    order: seq<byte>,
    kind: byte -> Option<Kind>,
    get: (P, byte) -> Option<Value>,
    users: P -> seq<UserProperty>,
    with: (byte -> Option<Value>, seq<UserProperty>) -> P)

  /** The block that a list of entries stands for. */
  function From<P>(schema: Schema<P>, es: seq<Entry>): P {
    schema.with(LastOf(es), UserOf(es))
  }

  /** The values a block has under its identifiers, as they are and with one entry's value set. */
  function FieldsOf<P>(schema: Schema<P>, p: P): byte -> Option<Value> {
    (tag: byte) => schema.get(p, tag)
  }

  function FieldsWith<P>(schema: Schema<P>, p: P, e: Entry): byte -> Option<Value> {
    (tag: byte) => if tag == e.tag then Some(e.value) else schema.get(p, tag)
  }

  /** `props.field = Some(value)`, or a push onto the user properties. */
  function Put<P>(schema: Schema<P>, p: P, e: Entry): P {
    if e.tag == USER_PROPERTY then schema.with(FieldsOf(schema, p), schema.users(p) + AsPairs(e.value))
    else schema.with(FieldsWith(schema, p, e), schema.users(p))
  }

  function LastOf(es: seq<Entry>): byte -> Option<Value> {
    (tag: byte) => Last(es, tag)
  }

  function OptU8(o: Option<byte>): (r: Option<Value>)
    ensures AsU8(r) == o
  {
    if o.Some? then Some(U8(o.value)) else None
  }

  function OptU16(o: Option<u16>): (r: Option<Value>)
    ensures AsU16(r) == o
  {
    if o.Some? then Some(U16(o.value)) else None
  }

  function OptU32(o: Option<u32>): (r: Option<Value>)
    ensures AsU32(r) == o
  {
    if o.Some? then Some(U32(o.value)) else None
  }

  function OptVarInt(o: Option<u32>): (r: Option<Value>)
    ensures AsVarInt(r) == o
  {
    if o.Some? then Some(VarInt(o.value)) else None
  }

  function OptStr(o: Option<Text>): (r: Option<Value>)
    ensures AsStr(r) == o
  {
    if o.Some? then Some(Str(o.value)) else None
  }

  function OptBin(o: Option<Bytes>): (r: Option<Value>)
    ensures AsBin(r) == o
  {
    if o.Some? then Some(Bin(o.value)) else None
  }


  function AsU8(o: Option<Value>): Option<byte> { if o.Some? && o.value.U8? then Some(o.value.b) else None }
  function AsU16(o: Option<Value>): Option<u16> { if o.Some? && o.value.U16? then Some(o.value.w) else None }
  function AsU32(o: Option<Value>): Option<u32> { if o.Some? && o.value.U32? then Some(o.value.d) else None }
  function AsVarInt(o: Option<Value>): Option<u32> { if o.Some? && o.value.VarInt? then Some(o.value.n) else None }
  function AsStr(o: Option<Value>): Option<Text> { if o.Some? && o.value.Str? then Some(o.value.s) else None }
  function AsBin(o: Option<Value>): Option<Bytes> { if o.Some? && o.value.Bin? then Some(o.value.data) else None }

  function AsPairs(v: Value): seq<UserProperty> { if v.Pair? then [(v.k, v.v)] else [] }

  // ------------------------------------------------------- what entries stand for

  /** The value of a single-valued property: the last entry with its identifier wins. */
  function Last(es: seq<Entry>, tag: byte): Option<Value> {
    if es == [] then None
    else if es[|es| - 1].tag == tag then Some(es[|es| - 1].value)
    else Last(es[..|es| - 1], tag)
  }

  /** The user properties: all of them, in order. */
  function UserOf(es: seq<Entry>): seq<UserProperty> {
    if es == [] then []
    else
      var e := es[|es| - 1];
      UserOf(es[..|es| - 1]) + if e.tag == USER_PROPERTY then AsPairs(e.value) else []
  }

  lemma {:induction false} LastConcat(a: seq<Entry>, b: seq<Entry>, tag: byte)
    ensures Last(a + b, tag) == if Last(b, tag).Some? then Last(b, tag) else Last(a, tag)
    decreases |b|
  {
    if b == [] {
      assert a + b == a;
    } else {
      assert (a + b)[..|a + b| - 1] == a + b[..|b| - 1];
      LastConcat(a, b[..|b| - 1], tag);
    }
  }

  lemma LastAfter(es: seq<Entry>, e: Entry)
    ensures forall tag :: Last(es + [e], tag) == if e.tag == tag then Some(e.value) else Last(es, tag)
    ensures UserOf(es + [e]) == UserOf(es) + if e.tag == USER_PROPERTY then AsPairs(e.value) else []
  {
    assert (es + [e])[..|es|] == es;
  }

  lemma {:induction false} UserConcat(a: seq<Entry>, b: seq<Entry>)
    ensures UserOf(a + b) == UserOf(a) + UserOf(b)
    decreases |b|
  {
    if b == [] {
      assert a + b == a;
    } else {
      assert (a + b)[..|a + b| - 1] == a + b[..|b| - 1];
      UserConcat(a, b[..|b| - 1]);
    }
  }

  lemma {:induction false} LastIsEntry(es: seq<Entry>, tag: byte)
    ensures Last(es, tag).Some? ==> Entry(tag, Last(es, tag).value) in es
  {
    if es != [] && es[|es| - 1].tag != tag {
      LastIsEntry(es[..|es| - 1], tag);
    }
  }

  // -------------------------------------------------------------------- printing

  function PairEntries(us: seq<UserProperty>): seq<Entry> {
    seq(|us|, i requires 0 <= i < |us| => Entry(USER_PROPERTY, Pair(us[i].0, us[i].1)))
  }

  /** The fields of a block, in print order. */
  function SlotsOf<P>(schema: Schema<P>, p: P): (slots: seq<Slot>)
    ensures |slots| == |schema.order|
    ensures forall i :: 0 <= i < |slots| ==> slots[i] == SlotOf(schema, p, schema.order[i])
  {
    seq(|schema.order|, i requires 0 <= i < |schema.order| => SlotOf(schema, p, schema.order[i]))
  }

  function SlotOf<P>(schema: Schema<P>, p: P, tag: byte): Slot {
    if tag == USER_PROPERTY then Users(schema.users(p)) else One(tag, schema.get(p, tag))
  }

  function SlotTag(slot: Slot): byte {
    if slot.One? then slot.tag else USER_PROPERTY
  }

  function SlotEntries(slot: Slot): seq<Entry> {
    match slot
    case One(tag, o) => if o.Some? then [Entry(tag, o.value)] else []
    case Users(us) => PairEntries(us)
  }

  function Printed(slots: seq<Slot>): seq<Entry> {
    if slots == [] then [] else SlotEntries(slots[0]) + Printed(slots[1..])
  }

  lemma {:induction false} NothingPrinted(slots: seq<Slot>)
    requires forall i :: 0 <= i < |slots| ==> SlotEntries(slots[i]) == []
    ensures Printed(slots) == []
  {
    if slots != [] { NothingPrinted(slots[1..]); }
  }

  /** A block without values prints nothing but its length. */
  lemma EmptyBlock<P>(schema: Schema<P>, p: P)
    requires schema.users(p) == [] && forall tag: byte :: schema.get(p, tag) == None
    ensures BlockBody(schema, p) == [] && BlockBytes(schema, p) == [0]
  {
    assert PairEntries([]) == [];
    NothingPrinted(SlotsOf(schema, p));
  }

  function ValueBytes(v: Value): Bytes {
    match v
    case U8(x) => [x]
    case U16(x) => U16Bytes(x)
    case U32(x) => U32Bytes(x)
    case VarInt(x) => EncodeVarint(x)
    case Str(x) => Prefixed(x)
    case Bin(x) => Prefixed(x)
    case Pair(k, x) => Prefixed(k) + Prefixed(x)
  }

  function EntryBytes(e: Entry): Bytes {
    [e.tag] + ValueBytes(e.value)
  }

  function EntriesBytes(es: seq<Entry>): Bytes {
    if es == [] then [] else EntryBytes(es[0]) + EntriesBytes(es[1..])
  }

  lemma {:induction false} EntriesConcat(a: seq<Entry>, b: seq<Entry>)
    ensures EntriesBytes(a + b) == EntriesBytes(a) + EntriesBytes(b)
  {
    if a == [] {
      assert a + b == b;
    } else {
      assert (a + b)[1..] == a[1..] + b;
      EntriesConcat(a[1..], b);
      ConcatAssociates(EntryBytes(a[0]), EntriesBytes(a[1..]), EntriesBytes(b));
    }
  }

  lemma SingleEntry(e: Entry)
    ensures EntriesBytes([e]) == EntryBytes(e)
  {
    assert [e][1..] == [];
  }

  /** The entries of a block, without its length. */
  function BlockBody<P>(schema: Schema<P>, p: P): Bytes {
    EntriesBytes(Printed(SlotsOf(schema, p)))
  }

  /** `*Properties::encode`: the length (cut to 32 bits), then the entries. */
  function BlockBytes<P>(schema: Schema<P>, p: P): Bytes {
    EncodeVarint(LowU32(|BlockBody(schema, p)|)) + BlockBody(schema, p)
  }

  // --------------------------------------------------------------------- parsing

  function KindOfValue(v: Value): Kind {
    match v
    case U8(_) => U8Kind
    case U16(_) => U16Kind
    case U32(_) => U32Kind
    case VarInt(_) => VarIntKind
    case Str(_) => StrKind
    case Bin(_) => BinKind
    case Pair(_, _) => PairKind
  }

  function ReadPair(s: Bytes): Result<(Value, Bytes)> {
    var (k, mid) :- ReadStr(s);
    var (v, rest) :- ReadStr(mid);
    Ok((Pair(k, v), rest))
  }

  function ReadValue(kind: Kind, s: Bytes): (r: Result<(Value, Bytes)>)
    ensures r.Ok? ==> KindOfValue(r.value.0) == kind && |r.value.1| <= |s|
  {
    match kind
    case U8Kind => var (x, rest) :- ReadU8(s); Ok((U8(x), rest))
    case U16Kind => var (x, rest) :- ReadU16(s); Ok((U16(x), rest))
    case U32Kind => var (x, rest) :- ReadU32(s); Ok((U32(x), rest))
    case VarIntKind => var (x, rest) :- ReadVarint(s); Ok((VarInt(x), rest))
    case StrKind => var (x, rest) :- ReadStr(s); Ok((Str(x), rest))
    case BinKind => var (x, rest) :- ReadBytes(s); Ok((Bin(x), rest))
    case PairKind => ReadPair(s)
  }

  /** One turn of the parse loop: an identifier the block accepts, and its value. */
  function ReadEntry(kind: byte -> Option<Kind>, s: Bytes): (r: Result<(Entry, Bytes)>)
    requires s != []
    ensures r.Ok? ==> |r.value.1| < |s|
  {
    if kind(s[0]).None? then Err(MalformedPacket)
    else
      var (v, rest) :- ReadValue(kind(s[0]).value, s[1..]);
      Ok((Entry(s[0], v), rest))
  }

  /** The `while !prop_slice.is_empty()` loop: entries until the slice is used up. */
  function ParseEntries(kind: byte -> Option<Kind>, s: Bytes): Result<seq<Entry>>
    decreases |s|
  {
    if s == [] then Ok([])
    else
      var (e, rest) :- ReadEntry(kind, s);
      var es :- ParseEntries(kind, rest);
      Ok([e] + es)
  }

  /** `*Properties::decode`: an absent property length means no properties. */
  function ReadBlock<P>(schema: Schema<P>, s: Bytes): Result<(P, Bytes)> {
    if s == [] then Ok((From(schema, []), s))
    else
      var (n, rest) :- ReadVarint(s);
      if |rest| < n then Err(Incomplete)
      else
        var es :- ParseEntries(schema.kind, rest[..n]);
        Ok((From(schema, es), rest[n..]))
  }

  // ---------------------------------------------------------- laws of a schema

  predicate GoodValue(v: Value) {
    match v
    case VarInt(n) => n < VARINT_LIMIT
    case Str(s) => GoodText(s)
    case Bin(d) => FitsPrefix(d)
    case Pair(k, x) => GoodText(k) && GoodText(x)
    case _ => true
  }

  predicate GoodEntry(kind: byte -> Option<Kind>, e: Entry) {
    kind(e.tag) == Some(KindOfValue(e.value)) && GoodValue(e.value)
  }

  predicate GoodEntries(kind: byte -> Option<Kind>, es: seq<Entry>) {
    forall e :: e in es ==> GoodEntry(kind, e)
  }

  predicate GoodPairs(us: seq<UserProperty>) {
    forall u :: u in us ==> GoodText(u.0) && GoodText(u.1)
  }

  predicate GoodSlot(kind: byte -> Option<Kind>, slot: Slot) {
    match slot
    case One(tag, o) => tag != USER_PROPERTY && (o.Some? ==> GoodEntry(kind, Entry(tag, o.value)))
    case Users(us) => kind(USER_PROPERTY) == Some(PairKind) && GoodPairs(us)
  }

  predicate GoodSlots(kind: byte -> Option<Kind>, slots: seq<Slot>) {
    forall i :: 0 <= i < |slots| ==> GoodSlot(kind, slots[i])
  }

  /** No two fields share an identifier. */
  predicate DistinctTags(slots: seq<Slot>) {
    forall i, j :: 0 <= i < j < |slots| ==> SlotTag(slots[i]) != SlotTag(slots[j])
  }

  predicate GoodField(kind: byte -> Option<Kind>, tag: byte, o: Option<Value>) {
    o.Some? ==> GoodEntry(kind, Entry(tag, o.value))
  }

  ghost predicate GoodFields(kind: byte -> Option<Kind>, last: byte -> Option<Value>) {
    forall tag: byte :: last(tag).Some? ==>
      kind(tag) == Some(KindOfValue(last(tag).value)) && GoodValue(last(tag).value)
  }

  predicate SlotMatches(slot: Slot, last: byte -> Option<Value>, users: seq<UserProperty>) {
    match slot
    case One(tag, o) => last(tag) == o
    case Users(us) => users == us
  }

  ghost predicate SlotsMatch(slots: seq<Slot>, last: byte -> Option<Value>, users: seq<UserProperty>) {
    forall i :: 0 <= i < |slots| ==> SlotMatches(slots[i], last, users)
  }

  // The laws of a block type, where `good` says which blocks can be written.

  ghost predicate PrintsNothingTwice<P>(schema: Schema<P>) {
    forall i, j :: 0 <= i < j < |schema.order| ==> schema.order[i] != schema.order[j]
  }

  ghost predicate PrintsWhatItAccepts<P>(schema: Schema<P>) {
    && (forall i :: 0 <= i < |schema.order| ==> schema.kind(schema.order[i]).Some?)
    && (forall tag: byte :: schema.kind(tag).Some? ==> tag in schema.order)
    && schema.kind(USER_PROPERTY) == Some(PairKind)
  }

  ghost predicate PrintsGoodFields<P(!new)>(schema: Schema<P>, good: P -> bool) {
    forall p :: good(p) ==>
      GoodPairs(schema.users(p)) && forall tag: byte :: GoodField(schema.kind, tag, schema.get(p, tag))
  }

  /** These are the values the block has under its identifiers. */
  ghost predicate FieldsAre<P>(schema: Schema<P>, p: P, last: byte -> Option<Value>) {
    forall tag: byte :: schema.kind(tag).Some? && tag != USER_PROPERTY ==> last(tag) == schema.get(p, tag)
  }

  /** A block is made of its fields. */
  ghost predicate IsItsFields<P(!new)>(schema: Schema<P>) {
    forall p, last :: FieldsAre(schema, p, last) ==> schema.with(last, schema.users(p)) == p
  }

  /** A block has the fields it was made with. */
  ghost predicate HasItsFields<P>(schema: Schema<P>) {
    && (forall last, users :: schema.users(schema.with(last, users)) == users)
    && (forall last: byte -> Option<Value>, users, tag: byte ::
          tag != USER_PROPERTY && GoodField(schema.kind, tag, last(tag)) ==>
            schema.get(schema.with(last, users), tag) == last(tag))
  }

  ghost predicate IsGoodWithGoodFields<P>(schema: Schema<P>, good: P -> bool) {
    forall last, users :: GoodFields(schema.kind, last) && GoodPairs(users) ==> good(schema.with(last, users))
  }

  ghost predicate Lawful<P(!new)>(schema: Schema<P>, good: P -> bool) {
    && PrintsNothingTwice(schema)
    && PrintsWhatItAccepts(schema)
    && PrintsGoodFields(schema, good)
    && IsItsFields(schema)
    && HasItsFields(schema)
    && IsGoodWithGoodFields(schema, good)
  }

  lemma LawsTogether<P(!new)>(schema: Schema<P>, good: P -> bool)
    requires PrintsNothingTwice(schema) && PrintsWhatItAccepts(schema) && PrintsGoodFields(schema, good)
    requires IsItsFields(schema) && HasItsFields(schema) && IsGoodWithGoodFields(schema, good)
    ensures Lawful(schema, good)
  {
  }

  // ----------------------------------------------------- parsing undoes printing

  lemma {:induction false} UserOfPairs(us: seq<UserProperty>)
    ensures UserOf(PairEntries(us)) == us
  {
    if us != [] {
      assert PairEntries(us)[..|us| - 1] == PairEntries(us[..|us| - 1]);
      UserOfPairs(us[..|us| - 1]);
    }
  }

  lemma {:induction false} LastOfPairs(us: seq<UserProperty>, tag: byte)
    requires tag != USER_PROPERTY
    ensures Last(PairEntries(us), tag) == None
  {
    if us != [] {
      assert PairEntries(us)[..|us| - 1] == PairEntries(us[..|us| - 1]);
      LastOfPairs(us[..|us| - 1], tag);
    }
  }

  lemma {:induction false} AbsentTag(slots: seq<Slot>, tag: byte)
    requires forall i :: 0 <= i < |slots| ==> SlotTag(slots[i]) != tag
    ensures tag != USER_PROPERTY ==> Last(Printed(slots), tag) == None
    ensures tag == USER_PROPERTY ==> UserOf(Printed(slots)) == []
  {
    if slots != [] {
      AbsentTag(slots[1..], tag);
      assert SlotTag(slots[0]) != tag;
      LastConcat(SlotEntries(slots[0]), Printed(slots[1..]), tag);
      UserConcat(SlotEntries(slots[0]), Printed(slots[1..]));
      if slots[0].Users? { LastOfPairs(slots[0].pairs, tag); }
    }
  }

  /** What was printed reads back: each slot finds its own value among the entries. */
  lemma {:induction false} PrintedAgrees(slots: seq<Slot>, i: nat)
    requires DistinctTags(slots) && i < |slots|
    requires forall j :: 0 <= j < |slots| && slots[j].One? ==> slots[j].tag != USER_PROPERTY
    ensures SlotMatches(slots[i], LastOf(Printed(slots)), UserOf(Printed(slots)))
  {
    var tag := SlotTag(slots[i]);
    LastConcat(SlotEntries(slots[0]), Printed(slots[1..]), tag);
    UserConcat(SlotEntries(slots[0]), Printed(slots[1..]));
    if i == 0 {
      assert forall j :: 0 <= j < |slots| - 1 ==> SlotTag(slots[1..][j]) == SlotTag(slots[j + 1]);
      AbsentTag(slots[1..], tag);
      if slots[0].Users? { UserOfPairs(slots[0].pairs); }
    } else {
      PrintedAgrees(slots[1..], i - 1);
      assert SlotTag(slots[0]) != tag;
      if slots[0].Users? { LastOfPairs(slots[0].pairs, tag); }
    }
  }

  lemma {:induction false} PrintedIsGood(kind: byte -> Option<Kind>, slots: seq<Slot>)
    requires GoodSlots(kind, slots)
    ensures GoodEntries(kind, Printed(slots))
  {
    if slots != [] {
      assert GoodSlot(kind, slots[0]);
      PrintedIsGood(kind, slots[1..]);
      forall e | e in SlotEntries(slots[0]) ensures GoodEntry(kind, e) {
        if slots[0].Users? {
          var us := slots[0].pairs;
          var i :| 0 <= i < |us| && e == Entry(USER_PROPERTY, Pair(us[i].0, us[i].1));
          assert us[i] in us;
        }
      }
    }
  }

  lemma ReadPairStep(s: Bytes, k: Text, mid: Bytes, x: Text, rest: Bytes)
    requires ReadStr(s) == Ok((k, mid)) && ReadStr(mid) == Ok((x, rest))
    ensures ReadPair(s) == Ok((Pair(k, x), rest))
  {
  }

  lemma PairRoundTrip(k: Text, x: Text, rest: Bytes)
    requires GoodText(k) && GoodText(x)
    ensures ReadPair(Prefixed(k) + Prefixed(x) + rest) == Ok((Pair(k, x), rest))
  {
    ConcatAssociates(Prefixed(k), Prefixed(x), rest);
    BytesRoundTrip(k, Prefixed(x) + rest);
    BytesRoundTrip(x, rest);
    ReadPairStep(Prefixed(k) + (Prefixed(x) + rest), k, Prefixed(x) + rest, x, rest);
  }

  lemma TextValueRoundTrip(x: Text, rest: Bytes)
    requires GoodText(x)
    ensures ReadValue(StrKind, Prefixed(x) + rest) == Ok((Str(x), rest))
  {
    BytesRoundTrip(x, rest);
  }

  lemma DataValueRoundTrip(x: Bytes, rest: Bytes)
    requires FitsPrefix(x)
    ensures ReadValue(BinKind, Prefixed(x) + rest) == Ok((Bin(x), rest))
  {
    BytesRoundTrip(x, rest);
  }

  lemma NumberRoundTrip(v: Value, rest: Bytes)
    requires GoodValue(v) && (v.U8? || v.U16? || v.U32? || v.VarInt?)
    ensures ReadValue(KindOfValue(v), ValueBytes(v) + rest) == Ok((v, rest))
  {
    match v
    case U8(x) =>
    case U16(x) => U16RoundTrip(x, rest);
    case U32(x) => U32RoundTrip(x, rest);
    case VarInt(x) => VarintReadRoundTrip(x, rest);
  }

  lemma ValueRoundTrip(v: Value, rest: Bytes)
    requires GoodValue(v)
    ensures ReadValue(KindOfValue(v), ValueBytes(v) + rest) == Ok((v, rest))
  {
    match v
    case Str(x) => TextValueRoundTrip(x, rest);
    case Bin(x) => DataValueRoundTrip(x, rest);
    case Pair(k, x) => PairRoundTrip(k, x, rest);
    case _ => NumberRoundTrip(v, rest);
  }

  lemma EntryRoundTrip(kind: byte -> Option<Kind>, e: Entry, rest: Bytes)
    requires GoodEntry(kind, e)
    ensures ReadEntry(kind, EntryBytes(e) + rest) == Ok((e, rest))
  {
    var s := EntryBytes(e) + rest;
    assert s[0] == e.tag && s[1..] == ValueBytes(e.value) + rest;
    ValueRoundTrip(e.value, rest);
  }

  lemma ParseStep(kind: byte -> Option<Kind>, s: Bytes, e: Entry, rest: Bytes, es: seq<Entry>)
    requires s != [] && ReadEntry(kind, s) == Ok((e, rest)) && ParseEntries(kind, rest) == Ok(es)
    ensures ParseEntries(kind, s) == Ok([e] + es)
  {
  }

  /** Parsing a concatenation of tagged entries gives the entries. */
  lemma {:induction false} ParseConcatenation(kind: byte -> Option<Kind>, es: seq<Entry>)
    requires GoodEntries(kind, es)
    ensures ParseEntries(kind, EntriesBytes(es)) == Ok(es)
  {
    if es != [] {
      var rest := EntriesBytes(es[1..]);
      assert GoodEntry(kind, es[0]);
      EntryRoundTrip(kind, es[0], rest);
      ParseConcatenation(kind, es[1..]);
      ParseStep(kind, EntryBytes(es[0]) + rest, es[0], rest, es[1..]);
      assert es == [es[0]] + es[1..];
    }
  }

  lemma ReadFramedBlock<P>(schema: Schema<P>, body: Bytes, rest: Bytes)
    requires |body| < VARINT_LIMIT
    ensures ReadBlock(schema, EncodeVarint(|body|) + body + rest)
            == match ParseEntries(schema.kind, body) case Err(e) => Err(e) case Ok(es) => Ok((From(schema, es), rest))
  {
    ConcatAssociates(EncodeVarint(|body|), body, rest);
    VarintReadRoundTrip(|body|, body + rest);
    ReadCutBlock(schema, EncodeVarint(|body|) + (body + rest), body + rest, body, rest);
  }

  lemma ReadCutBlock<P>(schema: Schema<P>, s: Bytes, s1: Bytes, body: Bytes, rest: Bytes)
    requires s != [] && ReadVarint(s) == Ok((|body|, s1)) && s1 == body + rest
    ensures ReadBlock(schema, s)
            == match ParseEntries(schema.kind, body) case Err(e) => Err(e) case Ok(es) => Ok((From(schema, es), rest))
  {
    assert s1[..|body|] == body && s1[|body|..] == rest;
  }

  lemma SlotsAreGood<P(!new)>(schema: Schema<P>, good: P -> bool, p: P)
    requires Lawful(schema, good) && good(p)
    ensures GoodSlots(schema.kind, SlotsOf(schema, p)) && DistinctTags(SlotsOf(schema, p))
  {
    assert forall i :: 0 <= i < |schema.order| ==> SlotTag(SlotOf(schema, p, schema.order[i])) == schema.order[i];
  }

  /** A printed block parses to its entries, and they stand for the block. */
  lemma PrintedEntriesRead<P(!new)>(schema: Schema<P>, good: P -> bool, p: P)
    requires Lawful(schema, good) && good(p)
    ensures ParseEntries(schema.kind, BlockBody(schema, p)) == Ok(Printed(SlotsOf(schema, p)))
    ensures From(schema, Printed(SlotsOf(schema, p))) == p
  {
    var slots := SlotsOf(schema, p);
    var es := Printed(slots);
    SlotsAreGood(schema, good, p);
    PrintedIsGood(schema.kind, slots);
    ParseConcatenation(schema.kind, es);
    forall tag: byte | tag in schema.order ensures SlotMatches(SlotOf(schema, p, tag), LastOf(es), UserOf(es)) {
      var i :| 0 <= i < |schema.order| && schema.order[i] == tag;
      assert forall j :: 0 <= j < |slots| ==> GoodSlot(schema.kind, slots[j]);
      PrintedAgrees(slots, i);
    }
    assert USER_PROPERTY in schema.order;
    assert FieldsAre(schema, p, LastOf(es));
  }

  /** Reading a printed block gives the block and what follows it. */
  lemma BlockRoundTrip<P(!new)>(schema: Schema<P>, good: P -> bool, p: P, rest: Bytes)
    requires Lawful(schema, good) && good(p) && |BlockBody(schema, p)| < VARINT_LIMIT
    ensures ReadBlock(schema, BlockBytes(schema, p) + rest) == Ok((p, rest))
  {
    PrintedEntriesRead(schema, good, p);
    ReadFramedBlock(schema, BlockBody(schema, p), rest);
  }

  // ---------------------------------------------------- what parsing can produce

  lemma ReadStrIsGood(s: Bytes)
    ensures ReadStr(s).Ok? ==> GoodText(ReadStr(s).value.0)
    ensures ReadBytes(s).Ok? ==> FitsPrefix(ReadBytes(s).value.0)
  {
  }

  lemma ReadEntryIsGood(kind: byte -> Option<Kind>, s: Bytes)
    requires s != [] && ReadEntry(kind, s).Ok?
    ensures GoodEntry(kind, ReadEntry(kind, s).value.0)
  {
    ReadStrIsGood(s[1..]);
    if kind(s[0]) == Some(PairKind) {
      ReadStrIsGood(ReadStr(s[1..]).value.1);
    }
  }

  lemma {:induction false} ParsedIsGood(kind: byte -> Option<Kind>, s: Bytes)
    requires ParseEntries(kind, s).Ok?
    ensures GoodEntries(kind, ParseEntries(kind, s).value)
    decreases |s|
  {
    if s != [] {
      ReadEntryIsGood(kind, s);
      ParsedIsGood(kind, ReadEntry(kind, s).value.1);
    }
  }

  predicate GoodOptText(o: Option<Text>) { o.Some? ==> GoodText(o.value) }
  predicate GoodOptData(o: Option<Bytes>) { o.Some? ==> FitsPrefix(o.value) }
  predicate GoodOptVarint(o: Option<u32>) { o.Some? ==> o.value < VARINT_LIMIT }

  /** Every field read out of good entries is good. */
  lemma LastIsGood(kind: byte -> Option<Kind>, es: seq<Entry>, tag: byte)
    requires GoodEntries(kind, es)
    ensures Last(es, tag).Some? ==>
              GoodValue(Last(es, tag).value) && kind(tag) == Some(KindOfValue(Last(es, tag).value))
  {
    LastIsEntry(es, tag);
  }

  lemma {:induction false} UserOfIsGood(kind: byte -> Option<Kind>, es: seq<Entry>)
    requires GoodEntries(kind, es)
    ensures GoodPairs(UserOf(es))
  {
    if es != [] {
      assert es[|es| - 1] in es;
      UserOfIsGood(kind, es[..|es| - 1]);
    }
  }

  /** The block that good entries stand for is good, and each of its fields is the last value under its identifier. */
  lemma FromIsGood<P(!new)>(schema: Schema<P>, good: P -> bool, es: seq<Entry>)
    requires Lawful(schema, good) && GoodEntries(schema.kind, es)
    ensures good(From(schema, es))
    ensures schema.users(From(schema, es)) == UserOf(es)
    ensures forall tag: byte :: tag != USER_PROPERTY ==> schema.get(From(schema, es), tag) == Last(es, tag)
  {
    UserOfIsGood(schema.kind, es);
    var last := LastOf(es);
    forall tag: byte
      ensures last(tag) == Last(es, tag)
      ensures last(tag).Some? ==> schema.kind(tag) == Some(KindOfValue(last(tag).value)) && GoodValue(last(tag).value)
    {
      LastIsGood(schema.kind, es, tag);
    }
    assert GoodFields(schema.kind, last);
  }

  /** The parse loop builds, entry by entry, the block that the entries stand for. */
  lemma LoopStep<P(!new)>(schema: Schema<P>, good: P -> bool, done: seq<Entry>, e: Entry)
    requires Lawful(schema, good) && GoodEntries(schema.kind, done) && GoodEntry(schema.kind, e)
    ensures Put(schema, From(schema, done), e) == From(schema, done + [e])
  {
    var p, q := From(schema, done), From(schema, done + [e]);
    FromIsGood(schema, good, done);
    FromIsGood(schema, good, done + [e]);
    LastAfter(done, e);
    if e.tag == USER_PROPERTY {
      assert FieldsAre(schema, q, FieldsOf(schema, p));
      assert schema.with(FieldsOf(schema, p), schema.users(q)) == q;
    } else {
      assert FieldsAre(schema, q, FieldsWith(schema, p, e));
      assert schema.with(FieldsWith(schema, p, e), schema.users(q)) == q;
      assert schema.users(q) == schema.users(p);
    }
  }
}
