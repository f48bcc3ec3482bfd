/** Variable byte integers (section 1.5.5 of MQTT Version 5.0). */
module Varint {
  import opened Basics

  /** `CodecError`, and the out-of-range slice that panics in the Will branch of CONNECT. */
  datatype CodecError =
    | Incomplete
    | InvalidVarint
    | MalformedPacket
    | UnsupportedProtocolVersion(version: byte)
    | SliceOutOfRange

  datatype Result<+T> = Ok(value: T) | Err(error: CodecError) {
    predicate IsFailure() { Err? }
    function PropagateFailure<U>(): Result<U>
      requires Err?
    {
      Err(error)
    }
    function Extract(): T
      requires Ok?
    {
      value
    }
  }

  const VARINT_LIMIT := 0x1000_0000

  /** The shortest encoding: seven bits a byte, least significant first, top bit on all but the last. */
  function EncodeVarint(v: nat): (r: Bytes)
    ensures r != []
  {
    if v < 128 then [v] else [v % 128 + 128] + EncodeVarint(v / 128)
  }

  /** How many more bytes may follow: at most four in all. */
  function VarintBound(seen: nat): nat {
    if seen == 0 then VARINT_LIMIT else if seen == 1 then 0x20_0000 else if seen == 2 then 0x4000 else 128
  }

  /** The value at the front of a buffer and its length, after `seen` continuation bytes. */
  function DecodeVarint(buf: Bytes, seen: nat): (r: Result<(nat, nat)>)
    requires seen <= 3
    ensures r.Ok? ==> r.value.0 < VarintBound(seen) && 1 <= r.value.1 <= |buf| && r.value.1 <= 4 - seen
    decreases |buf|
  {
    if buf == [] then Err(Incomplete)
    else if buf[0] < 128 then Ok((buf[0], 1))
    else if seen == 3 then Err(InvalidVarint)
    else
      var (v, n) :- DecodeVarint(buf[1..], seen + 1);
      Ok((buf[0] % 128 + 128 * v, n + 1))
  }

  lemma {:induction false} DecodeEncoded(v: nat, seen: nat, rest: Bytes)
    requires seen <= 3 && v < VarintBound(seen)
    ensures DecodeVarint(EncodeVarint(v) + rest, seen) == Ok((v, |EncodeVarint(v)|))
    decreases v
  {
    if v >= 128 {
      DecodeEncoded(v / 128, seen + 1, rest);
      assert (EncodeVarint(v) + rest)[1..] == EncodeVarint(v / 128) + rest;
      assert (v % 128 + 128) % 128 == v % 128;
    }
  }

  lemma {:induction false} TooLargeRejected(v: nat, seen: nat, rest: Bytes)
    requires seen <= 3 && v >= VarintBound(seen)
    ensures DecodeVarint(EncodeVarint(v) + rest, seen) == Err(InvalidVarint)
    decreases v
  {
    if seen < 3 {
      TooLargeRejected(v / 128, seen + 1, rest);
      assert (EncodeVarint(v) + rest)[1..] == EncodeVarint(v / 128) + rest;
    }
  }

  lemma {:induction false} EncodedIsShortest(buf: Bytes, seen: nat)
    requires seen <= 3 && DecodeVarint(buf, seen).Ok?
    ensures |EncodeVarint(DecodeVarint(buf, seen).value.0)| <= DecodeVarint(buf, seen).value.1
    decreases |buf|
  {
    if buf[0] >= 128 {
      EncodedIsShortest(buf[1..], seen + 1);
      var v := DecodeVarint(buf[1..], seen + 1).value.0;
      var w := buf[0] % 128 + 128 * v;
      assert w / 128 == v;
    }
  }

  /** Decoding undoes encoding, whatever follows, exactly for the values below 2^28; larger ones are rejected. */
  lemma VarintRoundTrip(v: u32, rest: Bytes)
    ensures v < VARINT_LIMIT ==> DecodeVarint(EncodeVarint(v) + rest, 0) == Ok((v, |EncodeVarint(v)|))
    ensures v >= VARINT_LIMIT ==> DecodeVarint(EncodeVarint(v) + rest, 0) == Err(InvalidVarint)
  {
    if v < VARINT_LIMIT { DecodeEncoded(v, 0, rest); } else { TooLargeRejected(v, 0, rest); }
  }

  /** A decoded value fits 28 bits, re-encodes to at most the bytes read, and decodes to itself again. */
  lemma VarintCanonical(buf: Bytes)
    requires DecodeVarint(buf, 0).Ok?
    ensures var (v, n) := DecodeVarint(buf, 0).value;
            && v <= 268_435_455 && |EncodeVarint(v)| <= n <= 4
            && DecodeVarint(EncodeVarint(v), 0) == Ok((v, |EncodeVarint(v)|))
  {
    EncodedIsShortest(buf, 0);
    var v := DecodeVarint(buf, 0).value.0;
    DecodeEncoded(v, 0, []);
    assert EncodeVarint(v) + [] == EncodeVarint(v);
  }

  /** Bytes after a decided varint change nothing; cutting a decoded one short leaves it incomplete. */
  lemma {:induction false} VarintStable(buf: Bytes, more: Bytes, seen: nat)
    requires seen <= 3
    ensures DecodeVarint(buf, seen) != Err(Incomplete) ==> DecodeVarint(buf + more, seen) == DecodeVarint(buf, seen)
    decreases |buf|
  {
    if buf != [] {
      VarintStable(if buf[0] >= 128 && seen < 3 then buf[1..] else [], more, if seen < 3 then seen + 1 else 3);
      assert (buf + more)[0] == buf[0] && (buf + more)[1..] == buf[1..] + more;
    }
  }

  lemma {:induction false} VarintPrefixIncomplete(buf: Bytes, k: nat, seen: nat)
    requires seen <= 3 && DecodeVarint(buf, seen).Ok? && k < DecodeVarint(buf, seen).value.1
    ensures DecodeVarint(buf[..k], seen) == Err(Incomplete)
    decreases k
  {
    if k > 0 {
      VarintPrefixIncomplete(buf[1..], k - 1, seen + 1);
      assert buf[..k][1..] == buf[1..][..k - 1];
    }
  }

  function DigitSum(a: int, b: int, c: int, d: int): int {
    a + 128 * (b + 128 * (c + 128 * d))
  }

  /** The encoding digit by digit: seven bits a byte, from the low end, with the top bit on all but the last. */
  lemma FirstDigit(a: nat, w: nat, more: Bytes)
    requires a < 128 && EncodeVarint(w) == more
    ensures EncodeVarint(a + 128 * w) == if w == 0 then [a] else [a + 128] + more
  {
    assert (a + 128 * w) % 128 == a && (a + 128 * w) / 128 == w;
  }

  lemma TwoDigits(a: nat, b: nat)
    requires a < 128 && 0 < b < 128
    ensures EncodeVarint(a + 128 * b) == [a + 128, b]
  {
    FirstDigit(a, b, [b]);
  }

  lemma ThreeDigits(a: nat, b: nat, c: nat)
    requires a < 128 && b < 128 && 0 < c < 128
    ensures EncodeVarint(a + 128 * (b + 128 * c)) == [a + 128, b + 128, c]
  {
    TwoDigits(b, c);
    FirstDigit(a, b + 128 * c, [b + 128, c]);
  }

  lemma FourDigits(a: nat, b: nat, c: nat, d: nat)
    requires a < 128 && b < 128 && c < 128 && 0 < d < 128
    ensures EncodeVarint(a + 128 * (b + 128 * (c + 128 * d))) == [a + 128, b + 128, c + 128, d]
  {
    ThreeDigits(b, c, d);
    FirstDigit(a, b + 128 * (c + 128 * d), [b + 128, c + 128, d]);
  }

  lemma DecodeStep(b: Bytes, seen: nat)
    requires seen <= 3 && seen < |b|
    ensures DecodeVarint(b[seen..], seen)
         == if b[seen] < 128 then Ok((b[seen], 1)) else if seen == 3 then Err(InvalidVarint)
            else match DecodeVarint(b[seen + 1..], seen + 1)
                 case Err(e) => Err(e)
                 case Ok((v, n)) => Ok((b[seen] as int - 128 + 128 * v, n + 1))
  {
    assert b[seen..][0] == b[seen] && b[seen..][1..] == b[seen + 1..];
  }

  /** The decoding digit by digit: of at most four bytes, the first below 128 is the last. */
  lemma DecodedByDigits(b: Bytes)
    ensures DecodeVarint(b, 0) ==
            if |b| > 0 && b[0] < 128 then Ok((b[0], 1))
            else if |b| > 1 && b[1] < 128 then Ok((DigitSum(b[0] - 128, b[1], 0, 0), 2))
            else if |b| > 2 && b[2] < 128 then Ok((DigitSum(b[0] - 128, b[1] - 128, b[2], 0), 3))
            else if |b| > 3 && b[3] < 128 then Ok((DigitSum(b[0] - 128, b[1] - 128, b[2] - 128, b[3]), 4))
            else if |b| > 3 then Err(InvalidVarint) else Err(Incomplete)
  {
    assert b[0..] == b;
    if |b| > 0 { DecodeStep(b, 0); }
    if |b| > 1 { DecodeStep(b, 1); }
    if |b| > 2 { DecodeStep(b, 2); }
    if |b| > 3 { DecodeStep(b, 3); }
  }

  /** The multiplier of the loop after so many bytes. */
  function Weight(bytesRead: nat): (w: u32)
    requires bytesRead <= 3
  {
    if bytesRead == 0 then 1 else if bytesRead == 1 then 128 else if bytesRead == 2 then 0x4000 else 0x20_0000
  }

  /** The result of the whole loop, from what is accumulated and what the remaining bytes decode to. */
  function Accumulated(value: nat, bytesRead: nat, rest: Result<(nat, nat)>): Result<(nat, nat)>
    requires bytesRead <= 3
  {
    match rest
    case Err(e) => Err(e)
    case Ok((v, n)) => Ok((value + Weight(bytesRead) * v, n + bytesRead))
  }

  lemma AccumulateStep(buf: Bytes, value: nat, bytesRead: nat)
    requires bytesRead <= 3 && bytesRead < |buf| && value < Weight(bytesRead)
    ensures value + buf[bytesRead] % 128 * Weight(bytesRead) < 128 * Weight(bytesRead) <= VARINT_LIMIT
    ensures Accumulated(value, bytesRead, DecodeVarint(buf[bytesRead..], bytesRead))
            == if buf[bytesRead] < 128 then Ok((value + buf[bytesRead] * Weight(bytesRead), bytesRead + 1))
               else if bytesRead == 3 then Err(InvalidVarint)
               else Accumulated(value + buf[bytesRead] % 128 * Weight(bytesRead), bytesRead + 1,
                                DecodeVarint(buf[bytesRead + 1..], bytesRead + 1))
  {
    assert buf[bytesRead..][1..] == buf[bytesRead + 1..];
    if bytesRead < 3 && DecodeVarint(buf[bytesRead + 1..], bytesRead + 1).Ok? {
      var v := DecodeVarint(buf[bytesRead + 1..], bytesRead + 1).value.0;
      assert Weight(bytesRead + 1) * v == Weight(bytesRead) * (128 * v);
    }
  }

  /** `decode_varint`: the accumulating loop. The u32 locals never overflow. */
  method DecodeVarintLoop(buf: Bytes) returns (r: Result<(u32, nat)>)
    ensures r == DecodeVarint(buf, 0)
  {
    var multiplier: u32, value: u32, bytesRead := 1, 0, 0;
    assert buf[0..] == buf;
    while bytesRead < |buf|
      invariant bytesRead <= |buf| && bytesRead <= 3
      invariant multiplier == Weight(bytesRead) && value < multiplier
      invariant DecodeVarint(buf, 0) == Accumulated(value, bytesRead, DecodeVarint(buf[bytesRead..], bytesRead))
    {
      AccumulateStep(buf, value, bytesRead);
      var b := buf[bytesRead];
      bytesRead := bytesRead + 1;
      value := value + b % 128 * multiplier;
      if b < 128 {
        return Ok((value, bytesRead));
      }
      if multiplier >= 128 * 128 * 128 {
        return Err(InvalidVarint);
      }
      multiplier := multiplier * 128;
    }
    return Err(Incomplete);
  }

  /** `encode_varint`: appends to a buffer. */
  method EncodeVarintLoop(v: u32, buf: Bytes) returns (r: Bytes)
    ensures r == buf + EncodeVarint(v)
  {
    var value := v;
    r := buf;
    while true
      invariant 0 <= value
      invariant r + EncodeVarint(value) == buf + EncodeVarint(v)
      decreases value
    {
      var b := value % 128;
      var high := value / 128;
      if high > 0 {
        assert r + ([b + 128] + EncodeVarint(high)) == (r + [b + 128]) + EncodeVarint(high);
        r := r + [b + 128];
        value := high;
      } else {
        r := r + [b];
        break;
      }
    }
  }
}
