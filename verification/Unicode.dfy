/** UTF-8 by its definition: a text is valid exactly if it spells a sequence of Unicode scalar values. */
module Unicode {
  import opened Basics
  import opened Varint
  import opened Wire

  /** Code points without the surrogates. */
  type Scalar = c: int | 0 <= c < 0x11_0000 && !(0xD800 <= c < 0xE000)

  /** Section 3 of RFC 3629: one byte up to U+007F, two up to U+07FF, three up to U+FFFF, four beyond. */
  function Spelled(c: Scalar): (t: Bytes)
    ensures t != []
  {
    if c < 0x80 then [c]
    else if c < 0x800 then [0xC0 + c / 64, 0x80 + c % 64]
    else if c < 0x1_0000 then [0xE0 + c / 4096, 0x80 + c / 64 % 64, 0x80 + c % 64]
    else [0xF0 + c / 262144, 0x80 + c / 4096 % 64, 0x80 + c / 64 % 64, 0x80 + c % 64]
  }

  function SpelledAll(cs: seq<Scalar>): Bytes {
    if cs == [] then [] else Spelled(cs[0]) + SpelledAll(cs[1..])
  }

  /** A spelled character is recognised, whatever follows. */
  lemma SpelledIsRead(c: Scalar, rest: Bytes)
    ensures CharLength(Spelled(c) + rest) == |Spelled(c)|
  {
    if 0x800 <= c < 0x1_0000 {
      assert c / 64 == c / 4096 * 64 + c / 64 % 64;
    } else if c >= 0x1_0000 {
      assert c / 4096 == c / 262144 * 64 + c / 4096 % 64;
    }
  }

  /** What is recognised is spelled by some scalar value. */
  lemma ReadIsSpelled(t: Bytes) returns (c: Scalar)
    requires CharLength(t) > 0
    ensures Spelled(c) == t[..CharLength(t)]
  {
    var n := CharLength(t);
    if n == 1 {
      c := t[0];
    } else if n == 2 {
      var a: int, x: int := t[0] - 0xC0, t[1] - 0x80;
      c := a * 64 + x;
    } else if n == 3 {
      c := ThreeBytes(t[0] - 0xE0, t[1] - 0x80, t[2] - 0x80);
    } else {
      c := FourBytes(t[0] - 0xF0, t[1] - 0x80, t[2] - 0x80, t[3] - 0x80);
    }
  }

  lemma ThreeBytes(a: nat, x: nat, y: nat) returns (c: Scalar)
    requires a < 16 && x < 64 && y < 64 && (a == 0 ==> x >= 32) && (a == 13 ==> x < 32)
    ensures Spelled(c) == [0xE0 + a, 0x80 + x, 0x80 + y]
  {
    c := a * 4096 + x * 64 + y;
    assert c / 64 == a * 64 + x && c % 64 == y;
    assert c / 4096 == a;
  }

  lemma FourBytes(a: nat, x: nat, y: nat, z: nat) returns (c: Scalar)
    requires a < 5 && x < 64 && y < 64 && z < 64 && (a == 0 ==> x >= 16) && (a == 4 ==> x < 16)
    ensures Spelled(c) == [0xF0 + a, 0x80 + x, 0x80 + y, 0x80 + z]
  {
    c := a * 262144 + x * 4096 + y * 64 + z;
    assert c / 64 == a * 4096 + x * 64 + y && c % 64 == z;
    assert c / 4096 == a * 64 + x;
    assert c / 262144 == a;
  }

  lemma {:induction false} SpelledIsUtf8(cs: seq<Scalar>)
    ensures Utf8(SpelledAll(cs))
  {
    if cs != [] {
      var rest := SpelledAll(cs[1..]);
      SpelledIsRead(cs[0], rest);
      assert (Spelled(cs[0]) + rest)[|Spelled(cs[0])|..] == rest;
      SpelledIsUtf8(cs[1..]);
    }
  }

  lemma {:induction false} Utf8IsSpelled(t: Text) returns (cs: seq<Scalar>)
    requires Utf8(t)
    ensures SpelledAll(cs) == t
    decreases |t|
  {
    if t == [] {
      cs := [];
    } else {
      var n := CharLength(t);
      var c := ReadIsSpelled(t);
      var more := Utf8IsSpelled(t[n..]);
      cs := [c] + more;
      assert cs[1..] == more;
      assert t == t[..n] + t[n..];
    }
  }

  /** The texts that `str::from_utf8` accepts are exactly the spellings of scalar values. */
  lemma Utf8Exactly(t: Text)
    ensures Utf8(t) <==> exists cs: seq<Scalar> :: SpelledAll(cs) == t
  {
    if Utf8(t) {
      var cs := Utf8IsSpelled(t);
    }
    if cs: seq<Scalar> :| SpelledAll(cs) == t {
      SpelledIsUtf8(cs);
    }
  }

  /** `read_str`: a big-endian length, then that many bytes, which must spell scalar values. */
  lemma StringsExactly(s: Bytes, t: Text, rest: Bytes)
    ensures ReadStr(s) == Ok((t, rest)) <==>
            && |t| < 0x1_0000 && s == [|t| / 256, |t| % 256] + t + rest
            && exists cs: seq<Scalar> :: SpelledAll(cs) == t
    ensures ReadStr(s) == Err(Incomplete) <==> |s| < 2 || |s| < 2 + s[0] as int * 256 + s[1] as int
    ensures ReadStr(s).Err? ==> ReadStr(s).error == Incomplete || ReadStr(s).error == MalformedPacket
  {
    Utf8Exactly(t);
    if |t| < 0x1_0000 && s == [|t| / 256, |t| % 256] + t + rest {
      assert s[0] as int * 256 + s[1] as int == |t| && s[2..] == t + rest;
    }
    if ReadStr(s) == Ok((t, rest)) {
      assert s[2..] == t + rest && s[0] as int * 256 + s[1] as int == |t|;
      assert s == s[..2] + s[2..];
    }
  }
}
