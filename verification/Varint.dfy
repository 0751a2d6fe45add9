/** Unsigned varints of 64-bit numbers: seven bits a byte, least significant first, at most ten bytes,
    and no longer than needed. */
module Varint {
  import opened Common

  const U64_LIMIT: nat := 0x1_0000_0000_0000_0000

  type U64 = n: nat | n < U64_LIMIT

  const MAX_BYTES: nat := 10

  datatype DecodeError = Insufficient | Overflow | NotMinimal

  function Encode(n: nat): Bytes {
    if n < 128 then [n] else [n % 128 + 128] + Encode(n / 128)
  }

  /** The number at the front of the bytes from byte `i` of its encoding on, and the bytes after it. */
  function DecodeFrom(b: Bytes, i: nat): Result<(nat, Bytes), DecodeError>
    decreases |b|
  {
    if b == [] then Err(Insufficient)
    else if b[0] < 128 then if b[0] == 0 && i > 0 then Err(NotMinimal) else Ok((b[0], b[1..]))
    else if i + 1 >= MAX_BYTES then Err(Overflow)
    else
      match DecodeFrom(b[1..], i + 1)
      case Err(e) => Err(e)
      case Ok((high, rest)) => Ok((b[0] - 128 + 128 * high, rest))
  }

  /** Bits beyond the 64th, which only a tenth byte can hold, are dropped. */
  function Decode(b: Bytes): Result<(U64, Bytes), DecodeError> {
    match DecodeFrom(b, 0)
    case Err(e) => Err(e)
    case Ok((n, rest)) => Ok((n % U64_LIMIT, rest))
  }

  function Power(k: nat): nat {
    if k == 0 then 1 else 128 * Power(k - 1)
  }

  lemma {:induction false} EncodedLength(n: nat, k: nat)
    requires n < Power(k) && k > 0
    ensures 1 <= |Encode(n)| <= k
    decreases k
  {
    assert Power(1) == 128 * Power(0);
    if n >= 128 {
      EncodedLength(n / 128, k - 1);
    }
  }

  lemma {:induction false} EncodedAtLeast(n: nat, k: nat)
    requires n >= Power(k)
    ensures |Encode(n)| >= k + 1
    decreases k
  {
    if k > 0 {
      EncodedAtLeast(n / 128, k - 1);
    }
  }

  lemma {:induction false} TenBytesAreEnough(n: U64)
    ensures |Encode(n)| <= MAX_BYTES
  {
    assert Power(1) == 128 && Power(2) == 0x4000 && Power(3) == 0x20_0000;
    assert Power(4) == 0x1000_0000 && Power(5) == 0x8_0000_0000 && Power(6) == 0x400_0000_0000;
    assert Power(7) == 0x2_0000_0000_0000 && Power(8) == 0x100_0000_0000_0000;
    assert Power(9) == 0x8000_0000_0000_0000 && Power(10) == 0x40_0000_0000_0000_0000;
    EncodedLength(n, 10);
  }

  lemma {:induction false} DecodesEncoded(n: nat, i: nat, rest: Bytes)
    requires i + |Encode(n)| <= MAX_BYTES && (n == 0 ==> i == 0)
    ensures DecodeFrom(Encode(n) + rest, i) == Ok((n, rest))
    decreases n
  {
    var b := Encode(n) + rest;
    if n < 128 {
      assert b[1..] == rest;
    } else {
      assert b[1..] == Encode(n / 128) + rest;
      DecodesEncoded(n / 128, i + 1, rest);
    }
  }

  /** Whatever follows it, an encoded number decodes to itself. */
  lemma {:induction false} RoundTrip(n: U64, rest: Bytes)
    ensures Decode(Encode(n) + rest) == Ok((n, rest))
  {
    TenBytesAreEnough(n);
    DecodesEncoded(n, 0, rest);
  }

  /** Only its own encoding decodes to a number, as long as no bits were dropped. */
  lemma {:induction false} OnlyEncodingsDecode(b: Bytes, i: nat)
    requires DecodeFrom(b, i).Ok?
    ensures b == Encode(DecodeFrom(b, i).value.0) + DecodeFrom(b, i).value.1
    ensures DecodeFrom(b, i).value.0 == 0 ==> i == 0
    decreases |b|
  {
    var (n, rest) := DecodeFrom(b, i).value;
    if b[0] < 128 {
      assert b == [b[0]] + b[1..];
    } else {
      OnlyEncodingsDecode(b[1..], i + 1);
      var high := DecodeFrom(b[1..], i + 1).value.0;
      assert n % 128 == b[0] - 128 && n / 128 == high;
      assert b == [b[0]] + (Encode(high) + rest);
      Assoc([b[0]], Encode(high), rest);
    }
  }

  /** The accepted bytes are the number's encoding exactly when no bits were dropped. */
  lemma {:induction false} Canonical(b: Bytes)
    requires Decode(b).Ok?
    ensures b == Encode(Decode(b).value.0) + Decode(b).value.1 <==> DecodeFrom(b, 0).value.0 < U64_LIMIT
  {
    OnlyEncodingsDecode(b, 0);
    var (n, rest) := DecodeFrom(b, 0).value;
    if n >= U64_LIMIT && b == Encode(n % U64_LIMIT) + rest {
      TenBytesAreEnough(n % U64_LIMIT);
      DecodesEncoded(n % U64_LIMIT, 0, rest);
    }
  }
}
