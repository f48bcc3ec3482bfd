/** Topic strings: splitting at '/', and the `$share/group/filter` prefix. */
module Topics {
  import opened Basics

  const SLASH: byte := 0x2F
  const PLUS: Text := [0x2B]
  const HASH: Text := [0x23]
  const SHARE_PREFIX: Text := [0x24, 0x73, 0x68, 0x61, 0x72, 0x65, 0x2F]

  type Levels = seq<Text>

  /** `str::split('/')`: always at least one level; an empty string has one empty level. */
  function Split(t: Text): (levels: Levels)
    ensures |levels| >= 1
  {
    if t == [] then [[]]
    else
      var rest := Split(t[1..]);
      if t[0] == SLASH then [[]] + rest
      else [[t[0]] + rest[0]] + rest[1..]
  }

  function Join(levels: Levels): Text {
    if levels == [] then []
    else if |levels| == 1 then levels[0]
    else levels[0] + [SLASH] + Join(levels[1..])
  }

  lemma {:induction false} JoinSplit(t: Text)
    ensures Join(Split(t)) == t
  {
    if t != [] {
      JoinSplit(t[1..]);
      var rest := Split(t[1..]);
      if t[0] == SLASH {
        assert ([[]] + rest)[1..] == rest;
      } else {
        assert Split(t)[1..] == rest[1..];
      }
    }
  }

  /** Different strings have different levels, so a filter can be recovered from its levels. */
  lemma SplitInjective(s: Text, t: Text)
    requires Split(s) == Split(t)
    ensures s == t
  {
    JoinSplit(s);
    JoinSplit(t);
  }

  lemma {:induction false} SplitFlat(t: Text)
    requires SLASH !in t
    ensures Split(t) == [t]
  {
    if t != [] {
      assert t[0] != SLASH && SLASH !in t[1..];
      SplitFlat(t[1..]);
      assert t == [t[0]] + t[1..];
    }
  }

  lemma {:induction false} SplitAt(a: Text, b: Text)
    requires SLASH !in a
    ensures Split(a + [SLASH] + b) == [a] + Split(b)
  {
    var t := a + [SLASH] + b;
    if a == [] {
      assert t[1..] == b;
    } else {
      assert a[0] != SLASH && t[0] == a[0] && t[1..] == a[1..] + [SLASH] + b;
      SplitAt(a[1..], b);
      assert a == [a[0]] + a[1..];
      assert ([a[1..]] + Split(b))[1..] == Split(b);
    }
  }

  lemma {:induction false} SplitHasNoSlash(t: Text)
    ensures forall i :: 0 <= i < |Split(t)| ==> SLASH !in Split(t)[i]
  {
    if t != [] { SplitHasNoSlash(t[1..]); }
  }

  /** Every list of levels without slashes is some topic's. */
  lemma {:induction false} SplitJoin(levels: Levels)
    requires levels != [] && forall i :: 0 <= i < |levels| ==> SLASH !in levels[i]
    ensures Split(Join(levels)) == levels
  {
    if |levels| == 1 {
      SplitFlat(levels[0]);
    } else {
      SplitJoin(levels[1..]);
      SplitAt(levels[0], Join(levels[1..]));
    }
  }

  /** Index of the first '/' at or after `from`, or |t|. */
  function FindSlash(t: Text, from: nat): (i: nat)
    requires from <= |t|
    ensures from <= i <= |t|
    ensures SLASH !in t[from..i]
    ensures i < |t| ==> t[i] == SLASH
    decreases |t| - from
  {
    if from == |t| || t[from] == SLASH then from
    else
      var i := FindSlash(t, from + 1);
      assert t[from..i] == [t[from]] + t[from + 1..i];
      i
  }

  /** `parse_shared_subscription`: the optional group, and the filter proper. */
  function ParseShared(filter: Text): (r: (Option<Text>, Text)) {
    if SHARE_PREFIX <= filter then
      var i := FindSlash(filter, |SHARE_PREFIX|);
      if i < |filter| then (Some(filter[|SHARE_PREFIX|..i]), filter[i + 1..])
      else (None, filter)
    else (None, filter)
  }

  lemma ParseSharedSome(filter: Text)
    requires ParseShared(filter).0.Some?
    ensures filter == SHARE_PREFIX + ParseShared(filter).0.value + [SLASH] + ParseShared(filter).1
  {
    var i := FindSlash(filter, |SHARE_PREFIX|);
    assert filter == filter[..|SHARE_PREFIX|] + filter[|SHARE_PREFIX|..i] + [filter[i]] + filter[i + 1..];
  }

  lemma ParseSharedOf(group: Text, proper: Text)
    requires SLASH !in group
    ensures ParseShared(SHARE_PREFIX + group + [SLASH] + proper) == (Some(group), proper)
  {
    var filter, end := SHARE_PREFIX + group + [SLASH] + proper, |SHARE_PREFIX| + |group|;
    assert filter[end] == SLASH && filter[|SHARE_PREFIX|..end] == group && filter[end + 1..] == proper;
    FirstSlash(filter, |SHARE_PREFIX|, end);
  }

  lemma {:induction false} FirstSlash(t: Text, from: nat, end: nat)
    requires from <= end < |t| && t[end] == SLASH && SLASH !in t[from..end]
    ensures FindSlash(t, from) == end
    decreases end - from
  {
    if from < end {
      assert t[from] in t[from..end];
      assert forall x :: x in t[from + 1..end] ==> x in t[from..end];
      FirstSlash(t, from + 1, end);
    }
  }

  /**
   What a filter asks for, on its bytes: "$share/" + group + "/" + proper for a group without a slash, and otherwise,
   when it is not of that form, itself.
   */
  ghost predicate AsksFor(filter: Text, group: Option<Text>, proper: Text) {
    match group
    case Some(g) => 0x2F !in g && filter == [0x24, 0x73, 0x68, 0x61, 0x72, 0x65, 0x2F] + g + [0x2F] + proper
    case None =>
      && proper == filter
      && forall g: Text, f: Text ::
           0x2F !in g ==> filter != [0x24, 0x73, 0x68, 0x61, 0x72, 0x65, 0x2F] + g + [0x2F] + f
  }

  /** The parse finds what the filter asks for, and nothing else. */
  lemma ParseSharedExactly(filter: Text, group: Option<Text>, proper: Text)
    ensures ParseShared(filter) == (group, proper) <==> AsksFor(filter, group, proper)
  {
    var (g, f) := ParseShared(filter);
    if g.Some? {
      ParseSharedSome(filter);
    }
    forall h: Text, rest: Text | 0x2F !in h && filter == SHARE_PREFIX + h + [SLASH] + rest
      ensures ParseShared(filter) == (Some(h), rest)
    {
      ParseSharedOf(h, rest);
    }
  }

  /** Two filters the router files under the same group and levels are the same string. */
  lemma FilterIsRecoverable(f: Text, g: Text)
    requires ParseShared(f).0 == ParseShared(g).0
    requires Split(ParseShared(f).1) == Split(ParseShared(g).1)
    ensures f == g
  {
    SplitInjective(ParseShared(f).1, ParseShared(g).1);
    if ParseShared(f).0.Some? {
      ParseSharedSome(f);
      ParseSharedSome(g);
    }
  }

  /** Levels up to and including the first "#": where `subscribe` stops walking. */
  function Truncate(levels: Levels): (r: Levels)
    ensures HashOnlyLast(r)
    ensures r <= levels
    ensures r == levels <==> HashOnlyLast(levels)
    ensures levels != [] ==> r != []
    ensures r != levels ==> r[|r| - 1] == HASH
  {
    if levels == [] then []
    else if levels[0] == HASH then
      assert |levels| > 1 ==> !HashOnlyLast(levels);
      [HASH]
    else
      var r := [levels[0]] + Truncate(levels[1..]);
      assert levels == [levels[0]] + levels[1..];
      assert HashOnlyLast(levels) ==> HashOnlyLast(levels[1..]) by {
        assert forall i :: 0 <= i < |levels| - 2 ==> levels[1..][i] == levels[i + 1];
      }
      assert HashOnlyLast(levels[1..]) ==> HashOnlyLast(levels) by {
        assert forall i :: 0 < i < |levels| - 1 ==> levels[i] == levels[1..][i - 1];
      }
      r
  }

  predicate HashOnlyLast(levels: Levels) {
    forall i :: 0 <= i < |levels| - 1 ==> levels[i] != HASH
  }
}
