/** Primitive wire types: what each reader consumes and each writer appends, and the mutable cursor and buffer. */
module Wire {
  import opened Basics
  import opened Varint

  // ------------------------------------------------------------------- UTF-8

  predicate Continuation(b: byte) {
    0x80 <= b < 0xC0
  }

  /** Length of the well-formed character at the front (Unicode Standard, table 3-7), or 0 if there is none. */
  function CharLength(t: Bytes): (n: nat)
    ensures n <= |t| && n <= 4
  {
    if t == [] then 0
    else if t[0] < 0x80 then 1
    else if |t| >= 2 && 0xC2 <= t[0] < 0xE0 && Continuation(t[1]) then 2
    else if |t| >= 3 && 0xE0 <= t[0] < 0xF0 && Continuation(t[1]) && Continuation(t[2])
            && (t[0] == 0xE0 ==> t[1] >= 0xA0) && (t[0] == 0xED ==> t[1] < 0xA0) then 3
    else if |t| >= 4 && 0xF0 <= t[0] < 0xF5 && Continuation(t[1]) && Continuation(t[2]) && Continuation(t[3])
            && (t[0] == 0xF0 ==> t[1] >= 0x90) && (t[0] == 0xF4 ==> t[1] < 0x90) then 4
    else 0
  }

  /** `str::from_utf8` succeeds. */
  predicate Utf8(t: Bytes)
    decreases |t|
  {
    t == [] || (CharLength(t) > 0 && Utf8(t[CharLength(t)..]))
  }

  // ------------------------------------------------------------ reading a slice

  function ReadU8(s: Bytes): Result<(byte, Bytes)> {
    if s == [] then Err(Incomplete) else Ok((s[0], s[1..]))
  }

  /** `u16::from_be_bytes` and `u32::from_be_bytes`. */
  function FromBe16(hi: int, lo: int): int {
    hi * 0x100 + lo
  }

  function FromBe32(b3: int, b2: int, b1: int, b0: int): int {
    b3 * 0x100_0000 + b2 * 0x1_0000 + b1 * 0x100 + b0
  }

  function ReadU16(s: Bytes): (r: Result<(u16, Bytes)>)
    ensures r.Ok? ==> |r.value.1| == |s| - 2
  {
    if |s| < 2 then Err(Incomplete) else Ok((FromBe16(s[0], s[1]), s[2..]))
  }

  function ReadU32(s: Bytes): Result<(u32, Bytes)> {
    if |s| < 4 then Err(Incomplete)
    else Ok((FromBe32(s[0], s[1], s[2], s[3]), s[4..]))
  }

  function ReadBytes(s: Bytes): Result<(Bytes, Bytes)> {
    var (n, rest) :- ReadU16(s);
    if |rest| < n then Err(Incomplete) else Ok((rest[..n], rest[n..]))
  }

  function ReadStr(s: Bytes): Result<(Text, Bytes)> {
    var (t, rest) :- ReadBytes(s);
    if Utf8(t) then Ok((t, rest)) else Err(MalformedPacket)
  }

  function ReadVarint(s: Bytes): Result<(u32, Bytes)> {
    var (v, n) :- DecodeVarint(s, 0);
    Ok((v, s[n..]))
  }

  // ------------------------------------------------------------ what is written

  function U16Bytes(v: u16): Bytes {
    [v / 0x100, v % 0x100]
  }

  function U32Bytes(v: u32): Bytes {
    [v / 0x100_0000, v / 0x1_0000 % 0x100, v / 0x100 % 0x100, v % 0x100]
  }

  /** `write_str` and `write_bytes`: the length is cut to 16 bits, the data is not. */
  function Prefixed(data: Bytes): Bytes {
    U16Bytes(LowU16(|data|)) + data
  }

  predicate FitsPrefix(data: Bytes) {
    |data| < U16_SIZE
  }

  predicate GoodText(t: Text) {
    FitsPrefix(t) && Utf8(t)
  }

  lemma U16RoundTrip(v: u16, rest: Bytes)
    ensures ReadU16(U16Bytes(v) + rest) == Ok((v, rest))
  {
  }

  lemma U32RoundTrip(v: u32, rest: Bytes)
    ensures ReadU32(U32Bytes(v) + rest) == Ok((v, rest))
  {
    var s := U32Bytes(v) + rest;
    assert s[4..] == rest;
    var a, b := v / 0x1_0000, v % 0x1_0000;
    assert v / 0x100 == a * 0x100 + b / 0x100;
    assert v / 0x100 % 0x100 == b / 0x100;
    assert v % 0x100 == b % 0x100;
  }

  lemma BytesRoundTrip(data: Bytes, rest: Bytes)
    requires FitsPrefix(data)
    ensures ReadBytes(Prefixed(data) + rest) == Ok((data, rest))
    ensures Utf8(data) ==> ReadStr(Prefixed(data) + rest) == Ok((data, rest))
  {
    assert Prefixed(data) + rest == U16Bytes(|data|) + (data + rest);
    U16RoundTrip(|data|, data + rest);
  }

  lemma VarintReadRoundTrip(v: u32, rest: Bytes)
    requires v < VARINT_LIMIT
    ensures ReadVarint(EncodeVarint(v) + rest) == Ok((v, rest))
  {
    VarintRoundTrip(v, rest);
  }

  // ---------------------------------------------------------------- the cursor

  /** The `&mut &[u8]` cursor of the decoders: the bytes not yet read. */
  class Reader {
    var rest: Bytes

    constructor (bytes: Bytes)
      ensures rest == bytes
    {
      rest := bytes;
    }

    /** One byte, where the caller has seen that there is one. */
    method Next() returns (b: byte)
      requires rest != []
      modifies this
      ensures b == old(rest)[0] && rest == old(rest)[1..]
    {
      b := rest[0];
      rest := rest[1..];
    }

    method U8() returns (r: Result<byte>)
      modifies this
      ensures match ReadU8(old(rest))
              case Ok((v, after)) => r == Ok(v) && rest == after
              case Err(e) => r == Err(e)
    {
      if rest == [] {
        return Err(Incomplete);
      }
      r := Ok(rest[0]);
      rest := rest[1..];
    }

    method U16() returns (r: Result<u16>)
      modifies this
      ensures match ReadU16(old(rest))
              case Ok((v, after)) => r == Ok(v) && rest == after
              case Err(e) => r == Err(e)
    {
      if |rest| < 2 {
        return Err(Incomplete);
      }
      r := Ok(FromBe16(rest[0], rest[1]));
      rest := rest[2..];
    }

    method U32() returns (r: Result<u32>)
      modifies this
      ensures match ReadU32(old(rest))
              case Ok((v, after)) => r == Ok(v) && rest == after
              case Err(e) => r == Err(e)
    {
      if |rest| < 4 {
        return Err(Incomplete);
      }
      r := Ok(FromBe32(rest[0], rest[1], rest[2], rest[3]));
      rest := rest[4..];
    }

    method Data() returns (r: Result<Bytes>)
      modifies this
      ensures match ReadBytes(old(rest))
              case Ok((v, after)) => r == Ok(v) && rest == after
              case Err(e) => r == Err(e)
    {
      var n :- U16();
      if |rest| < n {
        return Err(Incomplete);
      }
      r := Ok(rest[..n]);
      rest := rest[n..];
    }

    method Str() returns (r: Result<Text>)
      modifies this
      ensures match ReadStr(old(rest))
              case Ok((v, after)) => r == Ok(v) && rest == after
              case Err(e) => r == Err(e)
    {
      var n :- U16();
      if |rest| < n {
        return Err(Incomplete);
      }
      if !Utf8(rest[..n]) {
        return Err(MalformedPacket);
      }
      r := Ok(rest[..n]);
      rest := rest[n..];
    }

    method VarInt() returns (r: Result<u32>)
      modifies this
      ensures match ReadVarint(old(rest))
              case Ok((v, after)) => r == Ok(v) && rest == after
              case Err(e) => r == Err(e)
    {
      var decoded :- DecodeVarintLoop(rest);
      r := Ok(decoded.0);
      rest := rest[decoded.1..];
    }
  }

  /** The `Vec<u8>` an encoder appends to. */
  class Writer {
    var bytes: Bytes

    constructor ()
      ensures bytes == []
    {
      bytes := [];
    }

    method U8(v: byte)
      modifies this
      ensures bytes == old(bytes) + [v]
    {
      bytes := bytes + [v];
    }

    method U16(v: u16)
      modifies this
      ensures bytes == old(bytes) + U16Bytes(v)
    {
      bytes := bytes + [v / 0x100, v % 0x100];
    }

    method U32(v: u32)
      modifies this
      ensures bytes == old(bytes) + U32Bytes(v)
    {
      bytes := bytes + [v / 0x100_0000, v / 0x1_0000 % 0x100, v / 0x100 % 0x100, v % 0x100];
    }

    method Raw(data: Bytes)
      modifies this
      ensures bytes == old(bytes) + data
    {
      bytes := bytes + data;
    }

    method Data(data: Bytes)
      modifies this
      ensures bytes == old(bytes) + Prefixed(data)
    {
      U16(LowU16(|data|));
      Raw(data);
    }

    method VarInt(v: u32)
      modifies this
      ensures bytes == old(bytes) + EncodeVarint(v)
    {
      bytes := EncodeVarintLoop(v, bytes);
    }
  }
}
