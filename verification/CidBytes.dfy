/** Cids and cid prefixes as bytes. */
module CidBytes {
  import opened Common
  import opened Varint

  /** The hash functions the code knows, and their digests. */
  datatype Hashing = Hashing(known: set<nat>, digest: (nat, Bytes) -> Bytes)
  {
    ghost predicate Valid() {
      && SHA2_256 in known
      && (forall data :: |digest(SHA2_256, data)| == 32)
      && (forall code, data :: code in known ==> code < U64_LIMIT && |digest(code, data)| <= MAX_DIGEST)
    }
  }

  const MAX_DIGEST: nat := 64

  datatype CidError = BadVarint(error: DecodeError) | InvalidVersion | InvalidV0 | ExplicitV0 | InvalidDigest | UnknownCode

  /** A cid as it can exist: version 0 stands for dag-pb with a 32-byte SHA2-256. */
  predicate ValidCid(c: Cid) {
    && c.codec < U64_LIMIT && c.hashCode < U64_LIMIT && |c.digest| <= MAX_DIGEST
    && (c.version == V0 ==> c.codec == DAG_PB && c.hashCode == SHA2_256 && |c.digest| == 32)
  }

  function NewCid(version: Version, codec: U64, hashCode: U64, digest: Bytes): Result<Cid, CidError> {
    if version == V0 && (codec != DAG_PB || hashCode != SHA2_256 || |digest| != 32) then Err(InvalidV0)
    else Ok(Cid(version, codec, hashCode, digest))
  }

  // ---------------------------------------------------------------------------------------------
  // Whole cids

  function MultihashBytes(c: Cid): Bytes {
    Encode(c.hashCode) + (Encode(|c.digest|) + c.digest)
  }

  function ToBytes(c: Cid): Bytes {
    if c.version == V0 then MultihashBytes(c) else Encode(1) + (Encode(c.codec) + MultihashBytes(c))
  }

  function Version1(codec: U64, b: Bytes): Result<Cid, CidError> {
    match Decode(b)
    case Err(e) => Err(BadVarint(e))
    case Ok((code, rest)) =>
      match Decode(rest)
      case Err(e) => Err(BadVarint(e))
      case Ok((size, digest)) =>
        if size > MAX_DIGEST || size > |digest| then Err(InvalidDigest)
        else NewCid(V1, codec, code, digest[..size])
  }

  /** Bytes after the cid are ignored. */
  function FromBytes(b: Bytes): Result<Cid, CidError> {
    match Decode(b)
    case Err(e) => Err(BadVarint(e))
    case Ok((version, rest)) =>
      match Decode(rest)
      case Err(e) => Err(BadVarint(e))
      case Ok((codec, rest)) =>
        if version == SHA2_256 && codec == 32 then
          if |rest| < 32 then Err(InvalidDigest) else NewCid(V0, DAG_PB, SHA2_256, rest[..32])
        else if version == 0 then Err(ExplicitV0)
        else if version != 1 then Err(InvalidVersion)
        else Version1(codec, rest)
  }

  /** Every cid reads back as itself. */
  lemma {:induction false} CidRoundTrip(c: Cid)
    requires ValidCid(c)
    ensures FromBytes(ToBytes(c)) == Ok(c)
  {
    var tail := Encode(|c.digest|) + c.digest;
    Varint.RoundTrip(|c.digest|, c.digest);
    Varint.RoundTrip(c.hashCode, tail);
    assert c.digest[..|c.digest|] == c.digest;
    if c.version == V1 {
      Varint.RoundTrip(1, Encode(c.codec) + MultihashBytes(c));
      Varint.RoundTrip(c.codec, MultihashBytes(c));
    }
  }

  /** Whatever follows it, a cid reads back from its bytes. */
  lemma {:induction false} CidReadsBefore(c: Cid, rest: Bytes)
    requires ValidCid(c)
    ensures FromBytes(ToBytes(c) + rest) == Ok(c)
  {
    hide Encode, Decode;
    var tail := c.digest + rest;
    var a, b, d := Encode(c.hashCode), Encode(|c.digest|), c.digest;
    Varint.RoundTrip(|c.digest|, tail);
    Varint.RoundTrip(c.hashCode, b + tail);
    Assoc(b, d, rest);
    Assoc(a, b + d, rest);
    assert tail[..|c.digest|] == c.digest;
    if c.version == V1 {
      var e, f := Encode(1), Encode(c.codec);
      Varint.RoundTrip(1, f + (MultihashBytes(c) + rest));
      Varint.RoundTrip(c.codec, MultihashBytes(c) + rest);
      Assoc(f, MultihashBytes(c), rest);
      Assoc(e, f + MultihashBytes(c), rest);
    }
  }

  /** The first `k` numbers of the bytes decode, and none of them beyond 64 bits. */
  ghost predicate Exact(b: Bytes, k: nat)
    decreases k
  {
    k > 0 ==> Decode(b).Ok? && DecodeFrom(b, 0).value.0 < U64_LIMIT && Exact(Decode(b).value.1, k - 1)
  }

  /** Apart from numbers beyond 64 bits, which are cut, bytes read as a cid exactly when they start with
      the bytes of that cid. */
  lemma {:induction false} CidsAreTheirBytes(b: Bytes, c: Cid)
    requires Exact(b, 2) && (Decode(b).value.0 == 1 ==> Exact(b, 4))
    ensures FromBytes(b) == Ok(c) <==> ValidCid(c) && ToBytes(c) <= b
  {
    if ValidCid(c) && ToBytes(c) <= b {
      CidReadsBefore(c, b[|ToBytes(c)|..]);
      assert ToBytes(c) + b[|ToBytes(c)|..] == b;
    }
    if FromBytes(b) == Ok(c) {
      var (version, b1) := Decode(b).value;
      var (codec, b2) := Decode(b1).value;
      Varint.Canonical(b);
      Varint.Canonical(b1);
      if version == SHA2_256 && codec == 32 {
        V0IsThere(b, b2, c);
      } else {
        V1IsThere(b, b1, b2, c);
      }
    }
  }

  lemma {:induction false} V0IsThere(b: Bytes, b2: Bytes, c: Cid)
    requires b == Encode(SHA2_256) + (Encode(32) + b2) && |b2| >= 32 && c == Cid(V0, DAG_PB, SHA2_256, b2[..32])
    ensures ValidCid(c) && ToBytes(c) <= b
  {
    hide Encode;
    var d := b2[..32];
    assert b2 == d + b2[32..];
    Assoc(Encode(32), d, b2[32..]);
    Assoc(Encode(SHA2_256), Encode(32) + d, b2[32..]);
    assert ToBytes(c) + b2[32..] == b;
  }

  lemma {:induction false} V1IsThere(b: Bytes, b1: Bytes, b2: Bytes, c: Cid)
    requires Decode(b).Ok? && Decode(b).value == (1, b1) && b == Encode(1) + b1
    requires Decode(b1).Ok? && Decode(b1).value.1 == b2 && b1 == Encode(Decode(b1).value.0) + b2 && Exact(b2, 2)
    requires Version1(Decode(b1).value.0, b2) == Ok(c)
    ensures ValidCid(c) && ToBytes(c) <= b
  {
    var (code, b3) := Decode(b2).value;
    var (size, b4) := Decode(b3).value;
    Varint.Canonical(b2);
    Varint.Canonical(b3);
    V1Bytes(c, b, b1, b2, b3, b4);
  }

  lemma {:induction false} V1Bytes(c: Cid, b: Bytes, b1: Bytes, b2: Bytes, b3: Bytes, b4: Bytes)
    requires c.version == V1 && b == Encode(1) + b1 && b1 == Encode(c.codec) + b2 && b2 == Encode(c.hashCode) + b3
    requires b3 == Encode(|c.digest|) + b4 && c.digest <= b4
    ensures ToBytes(c) <= b
  {
    hide Encode;
    var d, rest := c.digest, b4[|c.digest|..];
    assert b4 == d + rest;
    Assoc(Encode(|d|), d, rest);
    Assoc(Encode(c.hashCode), Encode(|d|) + d, rest);
    Assoc(Encode(c.codec), MultihashBytes(c), rest);
    Assoc(Encode(1), Encode(c.codec) + MultihashBytes(c), rest);
    assert ToBytes(c) + rest == b;
  }

  // ---------------------------------------------------------------------------------------------
  // Prefixes

  /** A cid without its digest. */
  datatype Prefix = Prefix(version: Version, codec: U64, hashCode: U64, digestSize: U64)

  /** The prefix of a cid; a cid with an unknown hash function has none. */
  function PrefixOf(h: Hashing, c: Cid): Option<Prefix>
    requires ValidCid(c)
  {
    if c.hashCode in h.known then Some(Prefix(c.version, c.codec, c.hashCode, |c.digest|)) else None
  }

  function VersionNumber(v: Version): U64 { if v == V0 then 0 else 1 }

  function PrefixBytes(p: Prefix): Bytes {
    Encode(VersionNumber(p.version)) + (Encode(p.codec) + (Encode(p.hashCode) + Encode(p.digestSize)))
  }

  /** Appends the four numbers one after the other. */
  method WritePrefix(p: Prefix) returns (bytes: Bytes)
    ensures bytes == PrefixBytes(p)
  {
    bytes := [];
    bytes := bytes + Encode(VersionNumber(p.version));
    bytes := bytes + Encode(p.codec);
    bytes := bytes + Encode(p.hashCode);
    bytes := bytes + Encode(p.digestSize);
    hide Encode;
    Assoc(Encode(VersionNumber(p.version)), Encode(p.codec), Encode(p.hashCode));
    Assoc(Encode(VersionNumber(p.version)), Encode(p.codec) + Encode(p.hashCode), Encode(p.digestSize));
    Assoc(Encode(p.codec), Encode(p.hashCode), Encode(p.digestSize));
  }

  function ReadPrefix(h: Hashing, b: Bytes): Result<Prefix, CidError> {
    match Decode(b)
    case Err(e) => Err(BadVarint(e))
    case Ok((version, rest)) =>
      if version > 1 then Err(InvalidVersion)
      else
        match Decode(rest)
        case Err(e) => Err(BadVarint(e))
        case Ok((codec, rest)) =>
          match Decode(rest)
          case Err(e) => Err(BadVarint(e))
          case Ok((code, rest)) =>
            match Decode(rest)
            case Err(e) => Err(BadVarint(e))
            case Ok((size, _)) =>
              if code !in h.known then Err(UnknownCode) else Ok(Prefix(if version == 0 then V0 else V1, codec, code, size))
  }

  /** The cid of the data under the prefix; the prefix's digest size plays no part. */
  function PrefixCid(h: Hashing, p: Prefix, data: Bytes): Result<Cid, CidError> {
    NewCid(p.version, p.codec, p.hashCode, h.digest(p.hashCode, data))
  }

  /** Every prefix with a known hash function reads back as itself, whatever follows it. */
  lemma {:induction false} PrefixRoundTrip(h: Hashing, p: Prefix, rest: Bytes)
    requires p.hashCode in h.known
    ensures ReadPrefix(h, PrefixBytes(p) + rest) == Ok(p)
  {
    var a, b, c, d := Encode(VersionNumber(p.version)), Encode(p.codec), Encode(p.hashCode), Encode(p.digestSize);
    hide Encode, Decode;
    Varint.RoundTrip(VersionNumber(p.version), b + (c + (d + rest)));
    Varint.RoundTrip(p.codec, c + (d + rest));
    Varint.RoundTrip(p.hashCode, d + rest);
    Varint.RoundTrip(p.digestSize, rest);
    Assoc(a, b + (c + d), rest);
    Assoc(b, c + d, rest);
    Assoc(c, d, rest);
  }

  /** Apart from cut numbers, bytes read as a prefix exactly when they start with its bytes and its hash
      function is known. */
  lemma {:induction false} PrefixesAreTheirBytes(h: Hashing, b: Bytes, p: Prefix)
    requires Exact(b, 4)
    ensures ReadPrefix(h, b) == Ok(p) <==> p.hashCode in h.known && PrefixBytes(p) <= b
  {
    if p.hashCode in h.known && PrefixBytes(p) <= b {
      PrefixRoundTrip(h, p, b[|PrefixBytes(p)|..]);
      assert PrefixBytes(p) + b[|PrefixBytes(p)|..] == b;
    }
    if ReadPrefix(h, b) == Ok(p) {
      var b1 := Decode(b).value.1;
      var b2 := Decode(b1).value.1;
      var b3 := Decode(b2).value.1;
      var b4 := Decode(b3).value.1;
      assert Exact(b1, 3) && Exact(b2, 2) && Exact(b3, 1);
      Varint.Canonical(b);
      Varint.Canonical(b1);
      Varint.Canonical(b2);
      Varint.Canonical(b3);
      FourNumbers(p, b, b1, b2, b3, b4);
    }
  }

  lemma {:induction false} FourNumbers(p: Prefix, b: Bytes, b1: Bytes, b2: Bytes, b3: Bytes, b4: Bytes)
    requires b == Encode(VersionNumber(p.version)) + b1 && b1 == Encode(p.codec) + b2
    requires b2 == Encode(p.hashCode) + b3 && b3 == Encode(p.digestSize) + b4
    ensures PrefixBytes(p) <= b
  {
    hide Encode;
    Assoc(Encode(p.hashCode), Encode(p.digestSize), b4);
    Assoc(Encode(p.codec), Encode(p.hashCode) + Encode(p.digestSize), b4);
    Assoc(Encode(VersionNumber(p.version)), Encode(p.codec) + (Encode(p.hashCode) + Encode(p.digestSize)), b4);
    assert PrefixBytes(p) + b4 == b;
  }

  /** The data's hash is the cid's. */
  predicate Verifies(h: Hashing, c: Cid, data: Bytes) {
    c.hashCode in h.known && h.digest(c.hashCode, data) == c.digest
  }

  /** A block's prefix and data give back its cid exactly when its hash verifies. */
  lemma {:induction false} PrefixKeepsVerified(h: Hashing, c: Cid, data: Bytes)
    requires h.Valid() && ValidCid(c) && PrefixOf(h, c).Some?
    ensures PrefixCid(h, PrefixOf(h, c).value, data) == Ok(c) <==> Verifies(h, c, data)
  {
  }

  /** What a prefix makes of data always verifies. */
  lemma {:induction false} PrefixCidVerifies(h: Hashing, p: Prefix, data: Bytes)
    requires h.Valid() && p.hashCode in h.known && PrefixCid(h, p, data).Ok?
    ensures ValidCid(PrefixCid(h, p, data).value) && Verifies(h, PrefixCid(h, p, data).value, data)
  {
  }
}
