/** A block that was parsed prints back in no more bytes than it was parsed from. */
module PropertySizes {
  import opened Basics
  import opened Varint
  import opened Wire
  import opened PropertyBlocks

  lemma ReadPairSize(s: Bytes)
    requires ReadPair(s).Ok?
    ensures |ValueBytes(ReadPair(s).value.0)| + |ReadPair(s).value.1| == |s|
  {
  }

  lemma ReadEntrySize(kind: byte -> Option<Kind>, s: Bytes)
    requires s != [] && ReadEntry(kind, s).Ok?
    ensures |EntryBytes(ReadEntry(kind, s).value.0)| + |ReadEntry(kind, s).value.1| <= |s|
  {
    match kind(s[0]).value
    case VarIntKind => EncodedIsShortest(s[1..], 0);
    case PairKind => ReadPairSize(s[1..]);
    case _ =>
  }

  lemma {:induction false} ParsedSize(kind: byte -> Option<Kind>, s: Bytes)
    requires ParseEntries(kind, s).Ok?
    ensures |EntriesBytes(ParseEntries(kind, s).value)| <= |s|
    decreases |s|
  {
    if s != [] {
      var (e, rest) := ReadEntry(kind, s).value;
      ReadEntrySize(kind, s);
      ParsedSize(kind, rest);
      var es := ParseEntries(kind, rest).value;
      assert ([e] + es)[1..] == es;
    }
  }

  // ------------------------------------------------- splitting entries by identifier

  function Tagged(es: seq<Entry>, tag: byte, keep: bool): seq<Entry> {
    if es == [] then []
    else
      var rest := Tagged(es[..|es| - 1], tag, keep);
      if (es[|es| - 1].tag == tag) == keep then rest + [es[|es| - 1]] else rest
  }

  lemma {:induction false} BytesConcat(a: seq<Entry>, b: seq<Entry>)
    ensures |EntriesBytes(a + b)| == |EntriesBytes(a)| + |EntriesBytes(b)|
  {
    if a == [] {
      assert a + b == b;
    } else {
      assert (a + b)[1..] == a[1..] + b;
      BytesConcat(a[1..], b);
    }
  }

  lemma BytesAppend(es: seq<Entry>, e: Entry)
    ensures |EntriesBytes(es + [e])| == |EntriesBytes(es)| + |EntryBytes(e)|
  {
    BytesConcat(es, [e]);
    assert EntriesBytes([e]) == EntryBytes(e) + EntriesBytes([]);
  }

  lemma {:induction false} SplitByTag(es: seq<Entry>, tag: byte)
    ensures |EntriesBytes(es)| == |EntriesBytes(Tagged(es, tag, true))| + |EntriesBytes(Tagged(es, tag, false))|
  {
    if es != [] {
      var init, e := es[..|es| - 1], es[|es| - 1];
      assert es == init + [e];
      SplitByTag(init, tag);
      BytesAppend(init, e);
      BytesAppend(Tagged(init, tag, e.tag == tag), e);
    }
  }

  lemma {:induction false} OthersUnchanged(es: seq<Entry>, tag: byte, other: byte)
    requires other != tag
    ensures Last(Tagged(es, tag, false), other) == Last(es, other)
    ensures tag != USER_PROPERTY ==> UserOf(Tagged(es, tag, false)) == UserOf(es)
  {
    if es != [] {
      var init, e := es[..|es| - 1], es[|es| - 1];
      OthersUnchanged(init, tag, other);
      var rest := Tagged(init, tag, false);
      assert (rest + [e])[..|rest|] == rest;
    }
  }

  /** The entries of one identifier take at least the bytes of the field they set. */
  lemma {:induction false} FieldSize(es: seq<Entry>, slot: Slot)
    requires SlotMatches(slot, LastOf(es), UserOf(es)) && (slot.One? ==> slot.tag != USER_PROPERTY)
    requires slot.Users? ==> forall e :: e in es && e.tag == USER_PROPERTY ==> e.value.Pair?
    ensures |EntriesBytes(SlotEntries(slot))| <= |EntriesBytes(Tagged(es, SlotTag(slot), true))|
    decreases |es|
  {
    if es == [] {
      assert slot.Users? ==> PairEntries(slot.pairs) == [];
    } else {
      var init, e := es[..|es| - 1], es[|es| - 1];
      BytesAppend(Tagged(init, SlotTag(slot), true), e);
      match slot
      case One(tag, o) =>
        if e.tag == tag {
          assert SlotEntries(slot) == [e];
          BytesAppend([], e);
          assert [] + [e] == [e];
        } else {
          FieldSize(init, slot);
        }
      case Users(us) =>
        if e.tag == USER_PROPERTY {
          assert e in es;
          var u := (e.value.k, e.value.v);
          var before := us[..|us| - 1];
          assert us == UserOf(init) + [u] && before == UserOf(init);
          FieldSize(init, Users(before));
          assert PairEntries(us) == PairEntries(before) + [e];
          BytesAppend(PairEntries(before), e);
        } else {
          assert UserOf(es) == UserOf(init) + [];
          FieldSize(init, slot);
        }
    }
  }

  lemma {:induction false} TaggedSubset(es: seq<Entry>, tag: byte)
    ensures forall e :: e in Tagged(es, tag, false) ==> e in es
  {
    if es != [] {
      TaggedSubset(es[..|es| - 1], tag);
    }
  }

  /** Printing keeps at most one entry of each single-valued property, so it never grows. */
  lemma {:induction false} PrintedSize(slots: seq<Slot>, es: seq<Entry>)
    requires DistinctTags(slots) && SlotsMatch(slots, LastOf(es), UserOf(es))
    requires forall i :: 0 <= i < |slots| && slots[i].One? ==> slots[i].tag != USER_PROPERTY
    requires forall e :: e in es && e.tag == USER_PROPERTY ==> e.value.Pair?
    ensures |EntriesBytes(Printed(slots))| <= |EntriesBytes(es)|
    decreases |slots|
  {
    if slots != [] {
      var tag, others := SlotTag(slots[0]), slots[1..];
      var rest := Tagged(es, tag, false);
      assert SlotMatches(slots[0], LastOf(es), UserOf(es));
      FieldSize(es, slots[0]);
      SplitByTag(es, tag);
      TaggedSubset(es, tag);
      forall i | 0 <= i < |others| ensures SlotMatches(others[i], LastOf(rest), UserOf(rest)) {
        assert SlotMatches(slots[i + 1], LastOf(es), UserOf(es)) && SlotTag(slots[i + 1]) != tag;
        OthersUnchanged(es, tag, SlotTag(slots[i + 1]));
      }
      assert DistinctTags(others) by {
        assert forall i :: 0 <= i < |others| ==> others[i] == slots[i + 1];
      }
      PrintedSize(others, rest);
      BytesConcat(SlotEntries(slots[0]), Printed(others));
    }
  }

  lemma {:induction false} VarintSizeMonotone(a: nat, b: nat)
    requires a <= b
    ensures |EncodeVarint(a)| <= |EncodeVarint(b)|
    decreases b
  {
    if a >= 128 {
      VarintSizeMonotone(a / 128, b / 128);
    }
  }

  /** Printing what entries stand for takes no more bytes than the entries. */
  lemma PrintedSizeOf<P(!new)>(schema: Schema<P>, good: P -> bool, es: seq<Entry>)
    requires Lawful(schema, good) && GoodEntries(schema.kind, es)
    ensures |BlockBody(schema, From(schema, es))| <= |EntriesBytes(es)|
  {
    FromIsGood(schema, good, es);
    var slots := SlotsOf(schema, From(schema, es));
    SlotsAreGood(schema, good, From(schema, es));
    forall i | 0 <= i < |slots| && slots[i].One? ensures slots[i].tag != USER_PROPERTY {
      assert GoodSlot(schema.kind, slots[i]);
    }
    forall e | e in es && e.tag == USER_PROPERTY ensures e.value.Pair? {
      assert GoodEntry(schema.kind, e);
    }
    PrintedSize(slots, es);
  }

  /** A block that was read prints in the bytes that were read, or in one byte where there were none. */
  ghost predicate NoLonger<P>(schema: Schema<P>, s: Bytes)
    requires ReadBlock(schema, s).Ok?
  {
    var (p, rest) := ReadBlock(schema, s).value;
    |BlockBytes(schema, p)| + |rest| <= |s| + (if s == [] then 1 else 0)
  }

  /** What `*Properties::decode` accepts is well formed, and prints in no more bytes than were read. */
  lemma BlockRead<P(!new)>(schema: Schema<P>, good: P -> bool, s: Bytes)
    requires Lawful(schema, good) && ReadBlock(schema, s).Ok?
    ensures good(ReadBlock(schema, s).value.0) && NoLonger(schema, s)
  {
    if s == [] {
      FromIsGood(schema, good, []);
      PrintedSizeOf(schema, good, []);
    } else {
      var (n, rest) := ReadVarint(s).value;
      var es := ParseEntries(schema.kind, rest[..n]).value;
      EncodedIsShortest(s, 0);
      ParsedIsGood(schema.kind, rest[..n]);
      ParsedSize(schema.kind, rest[..n]);
      FromIsGood(schema, good, es);
      PrintedSizeOf(schema, good, es);
      VarintSizeMonotone(|BlockBody(schema, From(schema, es))|, n);
    }
  }
}
