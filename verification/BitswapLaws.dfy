/** What each operation on a Bitswap message changes, and what a message read from the wire holds, said by
    its maps alone. */
module BitswapLaws {
  import opened Common
  import opened CidBytes
  import opened Bitswap
  import opened BitswapWire
  import RoundTrip = BitswapRoundTrip
  import Varint

  // ---------------------------------------------------------------------------------------------
  // Operations

  /** Exactly the blocks whose hash function is known and gives their digest stay, as they were; nothing
      else changes. */
  lemma {:induction false} OnlyVerifiedStay(h: Hashing, m: Content, c: Cid)
    ensures var m1 := Verified(h, m);
            && (c in m1.blocks
                <==> && c in m.blocks && m.blocks[c].cid.hashCode in h.known
                     && h.digest(m.blocks[c].cid.hashCode, m.blocks[c].data) == m.blocks[c].cid.digest)
            && (c in m1.blocks ==> m1.blocks[c] == m.blocks[c])
            && m1 == m.(blocks := m1.blocks)
  {
  }

  /** A block is there afterwards, in place of any other of its cid, and a presence of its cid is not. */
  lemma {:induction false} BlockIsAdded(m: Content, b: Block, c: Cid)
    ensures var m1 := WithBlock(m, b);
            && b.cid in m1.blocks && m1.blocks[b.cid] == b && b.cid !in m1.presences
            && (c != b.cid ==> (c in m1.blocks <==> c in m.blocks) && (c in m1.presences <==> c in m.presences))
            && (c != b.cid && c in m.blocks ==> m1.blocks[c] == m.blocks[c])
            && (c != b.cid && c in m.presences ==> m1.presences[c] == m.presences[c])
            && m1 == m.(blocks := m1.blocks, presences := m1.presences)
  {
  }

  /** A presence is there afterwards, in place of any other, unless there is a block of its cid. */
  lemma {:induction false} PresenceIsAdded(m: Content, d: Cid, typ: Presence, c: Cid)
    ensures var m1 := WithPresence(m, d, typ);
            && (d in m.blocks ==> m1 == m)
            && (d !in m.blocks ==> d in m1.presences && m1.presences[d] == typ)
            && (c != d ==> (c in m1.presences <==> c in m.presences))
            && (c != d && c in m.presences ==> m1.presences[c] == m.presences[c])
            && m1 == m.(presences := m1.presences)
  {
  }

  /** Asking touches the entry of its cid only, and a new entry is the request. */
  lemma {:induction false} EntryIsAsked(m: Content, d: Cid, r: Request, c: Cid)
    ensures var m1 := Ask(m, d, r);
            && d in m1.wantlist
            && (d !in m.wantlist ==> m1.wantlist[d] == Entry(d, r.priority, r.wantType, r.cancel, r.sendDontHave))
            && (c != d ==> (c in m1.wantlist <==> c in m.wantlist))
            && (c != d && c in m.wantlist ==> m1.wantlist[c] == m.wantlist[c])
            && m1 == m.(wantlist := m1.wantlist)
  {
  }

  // ---------------------------------------------------------------------------------------------
  // Reading wants

  /** The requests for a cid, in the order of their entries. */
  function RequestsFor(es: seq<PbEntry>, c: Cid): seq<Request> {
    if es == [] then []
    else (if FromBytes(es[0].block) == Ok(c) then [Request(es[0].priority, es[0].cancel, es[0].wantType, es[0].sendDontHave)] else [])
         + RequestsFor(es[1..], c)
  }

  lemma {:induction false} AllInTail<T>(s: seq<T>, p: T -> bool)
    requires s != []
    ensures (forall i :: 0 <= i < |s| ==> p(s[i])) <==> p(s[0]) && forall i :: 0 <= i < |s| - 1 ==> p(s[1..][i])
  {
    if p(s[0]) && forall i :: 0 <= i < |s| - 1 ==> p(s[1..][i]) {
      forall i | 0 <= i < |s|
        ensures p(s[i])
      {
        if i > 0 {
          assert s[i] == s[1..][i - 1];
        }
      }
    }
    if forall i :: 0 <= i < |s| ==> p(s[i]) {
      forall i | 0 <= i < |s| - 1
        ensures p(s[1..][i])
      {
        assert s[1..][i] == s[i + 1];
      }
    }
  }

  /** Entries read exactly when all their bytes are cids; then the entry of a cid is what the known
      requests and those of its entries, in order, amount to. */
  lemma {:induction false} EntriesRead(es: seq<PbEntry>, m: Content, c: Cid, before: seq<Request>)
    requires EntryOf(m, c) == Folded(c, before)
    ensures ReadEntries(es, m).Ok? <==> forall i :: 0 <= i < |es| ==> FromBytes(es[i].block).Ok?
    ensures ReadEntries(es, m).Ok? ==>
              && EntryOf(ReadEntries(es, m).value, c) == Folded(c, before + RequestsFor(es, c))
              && ReadEntries(es, m).value == m.(wantlist := ReadEntries(es, m).value.wantlist)
    decreases es
  {
    hide FromBytes, Folded, Merge;
    if es == [] {
      assert before + [] == before;
    } else {
      AllInTail(es, (e: PbEntry) => FromBytes(e.block).Ok?);
      if FromBytes(es[0].block).Ok? {
        var d := FromBytes(es[0].block).value;
        var r := Request(es[0].priority, es[0].cancel, es[0].wantType, es[0].sendDontHave);
        var known := if d == c then before + [r] else before;
        FoldedOneMore(c, before, r);
        EntriesRead(es[1..], Ask(m, d, r), c, known);
        Assoc(before, [r], RequestsFor(es[1..], c));
        assert [] + RequestsFor(es[1..], c) == RequestsFor(es[1..], c);
      }
    }
  }

  // ---------------------------------------------------------------------------------------------
  // Reading blocks

  ghost predicate SomeData(h: Hashing, bs: seq<Bytes>, c: Cid) {
    exists i :: 0 <= i < |bs| && c == Cid(V0, DAG_PB, SHA2_256, h.digest(SHA2_256, bs[i]))
  }

  ghost predicate SomePayload(h: Hashing, bs: seq<PbBlock>, c: Cid) {
    exists i :: 0 <= i < |bs| && PayloadCid(h, bs[i]) == Ok(c)
  }

  lemma {:induction false} SomeDataTail(h: Hashing, bs: seq<Bytes>, c: Cid)
    requires bs != []
    ensures SomeData(h, bs, c) <==> c == Cid(V0, DAG_PB, SHA2_256, h.digest(SHA2_256, bs[0])) || SomeData(h, bs[1..], c)
  {
    assert forall i :: 0 <= i < |bs| - 1 ==> bs[1..][i] == bs[i + 1];
    if i :| 0 <= i < |bs| && c == Cid(V0, DAG_PB, SHA2_256, h.digest(SHA2_256, bs[i])) {
      if i > 0 {
        assert bs[1..][i - 1] == bs[i];
      }
    }
  }

  lemma {:induction false} SomePayloadTail(h: Hashing, bs: seq<PbBlock>, c: Cid)
    requires bs != []
    ensures SomePayload(h, bs, c) <==> PayloadCid(h, bs[0]) == Ok(c) || SomePayload(h, bs[1..], c)
  {
    hide PayloadCid;
    assert forall i :: 0 <= i < |bs| - 1 ==> bs[1..][i] == bs[i + 1];
    if i :| 0 <= i < |bs| && PayloadCid(h, bs[i]) == Ok(c) {
      if i > 0 {
        assert bs[1..][i - 1] == bs[i];
      }
    }
  }

  /** Bare data always reads, each under the version 0 cid of its SHA2-256. */
  lemma {:induction false} DataRead(h: Hashing, bs: seq<Bytes>, m: Content, c: Cid)
    requires h.Valid()
    ensures ReadBlocks(h, bs, m).Ok?
    ensures var m1 := ReadBlocks(h, bs, m).value;
            && (c in m1.blocks <==> c in m.blocks || SomeData(h, bs, c))
            && (c in m1.presences <==> c in m.presences && !SomeData(h, bs, c))
            && m1 == m.(blocks := m1.blocks, presences := m1.presences)
    decreases bs
  {
    if bs != [] {
      hide SomeData;
      var d := Cid(V0, DAG_PB, SHA2_256, h.digest(SHA2_256, bs[0]));
      assert V0Cid(h, bs[0]) == Ok(d);
      SomeDataTail(h, bs, c);
      DataRead(h, bs[1..], WithBlock(m, Block(d, bs[0])), c);
    }
  }

  /** Prefixed blocks read exactly when all their prefixes do, each under the cid its prefix makes. */
  lemma {:induction false} PayloadRead(h: Hashing, bs: seq<PbBlock>, m: Content, c: Cid)
    ensures ReadPayload(h, bs, m).Ok? <==> forall i :: 0 <= i < |bs| ==> PayloadCid(h, bs[i]).Ok?
    ensures ReadPayload(h, bs, m).Ok? ==>
              var m1 := ReadPayload(h, bs, m).value;
              && (c in m1.blocks <==> c in m.blocks || SomePayload(h, bs, c))
              && (c in m1.presences <==> c in m.presences && !SomePayload(h, bs, c))
              && m1 == m.(blocks := m1.blocks, presences := m1.presences)
    decreases bs
  {
    hide PayloadCid;
    if bs != [] {
      AllInTail(bs, (b: PbBlock) => PayloadCid(h, b).Ok?);
      SomePayloadTail(h, bs, c);
      if PayloadCid(h, bs[0]).Ok? {
        hide SomePayload;
        PayloadRead(h, bs[1..], WithBlock(m, Block(PayloadCid(h, bs[0]).value, bs[0].data)), c);
      }
    }
  }

  /** Apart from cut numbers, a prefix makes exactly the cids it starts the bytes of and the data hashes to. */
  lemma {:induction false} PayloadCidLaw(h: Hashing, b: PbBlock, c: Cid)
    requires h.Valid() && Exact(b.prefix, 4)
    ensures PayloadCid(h, b) == Ok(c)
            <==> && ValidCid(c) && Verifies(h, c, b.data)
                 && exists size: Varint.U64 :: PrefixBytes(Prefix(c.version, c.codec, c.hashCode, size)) <= b.prefix
  {
    hide PrefixBytes, ReadPrefix, Exact;
    if PayloadCid(h, b) == Ok(c) {
      var p := ReadPrefix(h, b.prefix).value;
      PrefixesAreTheirBytes(h, b.prefix, p);
      PrefixCidVerifies(h, p, b.data);
      assert p == Prefix(c.version, c.codec, c.hashCode, p.digestSize);
    }
    if ValidCid(c) && Verifies(h, c, b.data) {
      if size: Varint.U64 :| PrefixBytes(Prefix(c.version, c.codec, c.hashCode, size)) <= b.prefix {
        var p := Prefix(c.version, c.codec, c.hashCode, size);
        PrefixesAreTheirBytes(h, b.prefix, p);
      }
    }
  }

  // ---------------------------------------------------------------------------------------------
  // Reading presences

  /** The last presence of the cid. */
  ghost predicate LastPresence(ps: seq<PbPresence>, c: Cid, i: nat) {
    i < |ps| && FromBytes(ps[i].cid) == Ok(c) && forall j :: i < j < |ps| ==> FromBytes(ps[j].cid) != Ok(c)
  }

  /** Presences read exactly when all their bytes are cids; those with a block are passed over, and of
      several for a cid the last counts. */
  lemma {:induction false} PresencesRead(ps: seq<PbPresence>, m: Content, c: Cid, i: nat)
    ensures ReadPresences(ps, m).Ok? <==> forall k :: 0 <= k < |ps| ==> FromBytes(ps[k].cid).Ok?
    ensures ReadPresences(ps, m).Ok? ==>
              var m1 := ReadPresences(ps, m).value;
              && (LastPresence(ps, c, i) && c !in m.blocks ==> c in m1.presences && m1.presences[c] == ps[i].typ)
              && ((forall k :: 0 <= k < |ps| ==> FromBytes(ps[k].cid) != Ok(c)) || c in m.blocks ==>
                    (c in m1.presences <==> c in m.presences) && (c in m.presences ==> m1.presences[c] == m.presences[c]))
              && m1 == m.(presences := m1.presences)
  {
    hide FromBytes, ReadPresences, LastPresence;
    AllPresencesRead(ps, m);
    if ReadPresences(ps, m).Ok? {
      PresencesKept(ps, m, c);
      LastPresenceKept(ps, m, c, i);
    }
  }

  lemma {:induction false} AllPresencesRead(ps: seq<PbPresence>, m: Content)
    ensures ReadPresences(ps, m).Ok? <==> forall k :: 0 <= k < |ps| ==> FromBytes(ps[k].cid).Ok?
    ensures ReadPresences(ps, m).Ok? ==> ReadPresences(ps, m).value == m.(presences := ReadPresences(ps, m).value.presences)
    decreases ps
  {
    hide FromBytes;
    if ps != [] {
      AllInTail(ps, (p: PbPresence) => FromBytes(p.cid).Ok?);
      if FromBytes(ps[0].cid).Ok? {
        AllPresencesRead(ps[1..], WithPresence(m, FromBytes(ps[0].cid).value, ps[0].typ));
      }
    }
  }

  lemma {:induction false} PresencesKept(ps: seq<PbPresence>, m: Content, c: Cid)
    requires ReadPresences(ps, m).Ok?
    ensures (forall k :: 0 <= k < |ps| ==> FromBytes(ps[k].cid) != Ok(c)) || c in m.blocks ==>
              var m1 := ReadPresences(ps, m).value;
              (c in m1.presences <==> c in m.presences) && (c in m.presences ==> m1.presences[c] == m.presences[c])
    decreases ps
  {
    hide FromBytes;
    if ps != [] {
      AllInTail(ps, (p: PbPresence) => FromBytes(p.cid) != Ok(c));
      PresencesKept(ps[1..], WithPresence(m, FromBytes(ps[0].cid).value, ps[0].typ), c);
    }
  }

  lemma {:induction false} LastPresenceKept(ps: seq<PbPresence>, m: Content, c: Cid, i: nat)
    requires ReadPresences(ps, m).Ok?
    ensures LastPresence(ps, c, i) && c !in m.blocks ==>
              c in ReadPresences(ps, m).value.presences && ReadPresences(ps, m).value.presences[c] == ps[i].typ
    decreases ps
  {
    hide FromBytes;
    if ps != [] && LastPresence(ps, c, i) {
      LastInTail(ps, c, i);
      var m1 := WithPresence(m, FromBytes(ps[0].cid).value, ps[0].typ);
      PresencesKept(ps[1..], m1, c);
      LastPresenceKept(ps[1..], m1, c, if i > 0 then i - 1 else 0);
    }
  }

  lemma {:induction false} LastInTail(ps: seq<PbPresence>, c: Cid, i: nat)
    requires ps != [] && LastPresence(ps, c, i)
    ensures i > 0 ==> LastPresence(ps[1..], c, i - 1) && ps[1..][i - 1] == ps[i]
    ensures i == 0 ==> forall k :: 0 <= k < |ps| - 1 ==> FromBytes(ps[1..][k].cid) != Ok(c)
  {
    hide FromBytes;
    assert forall k :: 0 <= k < |ps| - 1 ==> ps[1..][k] == ps[k + 1];
  }

  // ---------------------------------------------------------------------------------------------
  // Whole messages

  function Entries(pb: PbMessage): seq<PbEntry> { if pb.wantlist.Some? then pb.wantlist.value.entries else [] }

  /** All cids and prefixes of the message read. */
  ghost predicate AllRead(h: Hashing, pb: PbMessage) {
    && (forall i :: 0 <= i < |Entries(pb)| ==> FromBytes(Entries(pb)[i].block).Ok?)
    && (forall i :: 0 <= i < |pb.payload| ==> PayloadCid(h, pb.payload[i]).Ok?)
    && (forall i :: 0 <= i < |pb.presences| ==> FromBytes(pb.presences[i].cid).Ok?)
  }

  /** A message reads exactly when all its cids and prefixes do. It then wants what its entries amount to,
      holds a block for each piece of data under the cid made for it, the presences of other cids, and the
      flags as they are. */
  lemma {:induction false} MessageReads(h: Hashing, pb: PbMessage, c: Cid, i: nat)
    requires h.Valid()
    ensures ReadMessage(h, pb).Ok? <==> AllRead(h, pb)
    ensures ReadMessage(h, pb).Ok? ==>
              var m := ReadMessage(h, pb).value;
              && m.full == (pb.wantlist.Some? && pb.wantlist.value.full) && m.pendingBytes == pb.pendingBytes
              && EntryOf(m, c) == Folded(c, RequestsFor(Entries(pb), c))
              && (c in m.blocks <==> SomeData(h, pb.blocks, c) || SomePayload(h, pb.payload, c))
              && (c in m.presences ==> c !in m.blocks && exists k :: 0 <= k < |pb.presences| && FromBytes(pb.presences[k].cid) == Ok(c))
              && (LastPresence(pb.presences, c, i) && c !in m.blocks ==> c in m.presences && m.presences[c] == pb.presences[i].typ)
  {
    hide FromBytes, PayloadCid, Folded, ReadEntries, ReadBlocks, ReadPayload, ReadPresences, SomeData, SomePayload, RequestsFor, LastPresence;
    var start := Empty(pb.wantlist.Some? && pb.wantlist.value.full);
    FoldedNothing(c);
    EntriesRead(Entries(pb), start, c, []);
    assert [] + RequestsFor(Entries(pb), c) == RequestsFor(Entries(pb), c);
    var wants := ReadEntries(Entries(pb), start);
    if wants.Ok? {
      DataRead(h, pb.blocks, wants.value, c);
      var older := ReadBlocks(h, pb.blocks, wants.value).value;
      PayloadRead(h, pb.payload, older, c);
      var all := ReadPayload(h, pb.payload, older);
      if all.Ok? {
        PresencesRead(pb.presences, all.value, c, i);
      }
    }
  }

  /** What the cids and prefixes of a message read as, in the order in which they are read. */
  function EntryCids(es: seq<PbEntry>): seq<Result<Cid, CidError>> {
    if es == [] then [] else [FromBytes(es[0].block)] + EntryCids(es[1..])
  }

  function PayloadCids(h: Hashing, bs: seq<PbBlock>): seq<Result<Cid, CidError>> {
    if bs == [] then [] else [PayloadCid(h, bs[0])] + PayloadCids(h, bs[1..])
  }

  function PresenceCids(ps: seq<PbPresence>): seq<Result<Cid, CidError>> {
    if ps == [] then [] else [FromBytes(ps[0].cid)] + PresenceCids(ps[1..])
  }

  function FirstError(rs: seq<Result<Cid, CidError>>): Option<CidError> {
    if rs == [] then None else if rs[0].Err? then Some(rs[0].error) else FirstError(rs[1..])
  }

  lemma {:induction false} FirstOfTwo(a: seq<Result<Cid, CidError>>, b: seq<Result<Cid, CidError>>)
    ensures FirstError(a + b) == if FirstError(a).Some? then FirstError(a) else FirstError(b)
  {
    if a == [] {
      assert a + b == b;
    } else {
      assert (a + b)[1..] == a[1..] + b;
      FirstOfTwo(a[1..], b);
    }
  }

  function ErrorOf(r: Result<Content, CidError>): Option<CidError> { if r.Err? then Some(r.error) else None }

  lemma {:induction false} EntriesFail(es: seq<PbEntry>, m: Content)
    ensures ErrorOf(ReadEntries(es, m)) == FirstError(EntryCids(es))
    decreases es
  {
    hide FromBytes, Ask;
    if es != [] && FromBytes(es[0].block).Ok? {
      EntriesFail(es[1..], Ask(m, FromBytes(es[0].block).value, Request(es[0].priority, es[0].cancel, es[0].wantType, es[0].sendDontHave)));
      assert EntryCids(es)[1..] == EntryCids(es[1..]);
    }
  }

  lemma {:induction false} PayloadFails(h: Hashing, bs: seq<PbBlock>, m: Content)
    ensures ErrorOf(ReadPayload(h, bs, m)) == FirstError(PayloadCids(h, bs))
    decreases bs
  {
    hide PayloadCid, WithBlock;
    if bs != [] && PayloadCid(h, bs[0]).Ok? {
      PayloadFails(h, bs[1..], WithBlock(m, Block(PayloadCid(h, bs[0]).value, bs[0].data)));
      assert PayloadCids(h, bs)[1..] == PayloadCids(h, bs[1..]);
    }
  }

  lemma {:induction false} PresencesFail(ps: seq<PbPresence>, m: Content)
    ensures ErrorOf(ReadPresences(ps, m)) == FirstError(PresenceCids(ps))
    decreases ps
  {
    hide FromBytes, WithPresence;
    if ps != [] && FromBytes(ps[0].cid).Ok? {
      PresencesFail(ps[1..], WithPresence(m, FromBytes(ps[0].cid).value, ps[0].typ));
      assert PresenceCids(ps)[1..] == PresenceCids(ps[1..]);
    }
  }

  /** The error is the first among those of the entries, the prefixes and the presences, in this order. */
  lemma {:induction false} FirstErrorIsReported(h: Hashing, pb: PbMessage)
    requires h.Valid()
    ensures ErrorOf(ReadMessage(h, pb)) == FirstError(EntryCids(Entries(pb)) + (PayloadCids(h, pb.payload) + PresenceCids(pb.presences)))
  {
    hide ReadEntries, ReadBlocks, ReadPayload, ReadPresences, EntryCids, PayloadCids, PresenceCids, FirstError;
    var start := Empty(pb.wantlist.Some? && pb.wantlist.value.full);
    var es, ps := EntryCids(Entries(pb)), PresenceCids(pb.presences);
    FirstOfTwo(es, PayloadCids(h, pb.payload) + ps);
    FirstOfTwo(PayloadCids(h, pb.payload), ps);
    EntriesFail(Entries(pb), start);
    var wants := ReadEntries(Entries(pb), start);
    if wants.Ok? {
      DataRead(h, pb.blocks, wants.value, Cid(V0, 0, 0, []));
      var older := ReadBlocks(h, pb.blocks, wants.value).value;
      PayloadFails(h, pb.payload, older);
      var all := ReadPayload(h, pb.payload, older);
      if all.Ok? {
        PresencesFail(pb.presences, all.value);
      }
    }
  }

  // ---------------------------------------------------------------------------------------------
  // Lengths

  /** An entry as protobuf bytes: each field that is not at its default, behind its tag. */
  function EntryBytes(e: Entry): Bytes
    requires -0x8000_0000 <= e.priority < 0x8000_0000
  {
    (if ToBytes(e.cid) == [] then [] else [10] + Varint.Encode(|ToBytes(e.cid)|) + ToBytes(e.cid))
    + (if e.priority == 0 then [] else [16] + Varint.Encode(if e.priority < 0 then Varint.U64_LIMIT + e.priority else e.priority))
    + (if e.cancel then [24, 1] else [])
    + (if e.wantType == WantHave then [32, 1] else [])
    + (if e.sendDontHave then [40, 1] else [])
  }

  lemma {:induction false} NegativeLength(n: int)
    requires -0x8000_0000 <= n < 0
    ensures |Varint.Encode(Varint.U64_LIMIT + n)| == 10
  {
    var m := Varint.U64_LIMIT + n;
    Varint.TenBytesAreEnough(m);
    NinthPower();
    Varint.EncodedAtLeast(m, 9);
  }

  lemma {:induction false} NinthPower()
    ensures Varint.Power(9) == 0x8000_0000_0000_0000
  {
    assert Varint.Power(1) == 128 && Varint.Power(2) == 0x4000 && Varint.Power(3) == 0x20_0000;
    assert Varint.Power(4) == 0x1000_0000 && Varint.Power(5) == 0x8_0000_0000 && Varint.Power(6) == 0x400_0000_0000;
    assert Varint.Power(7) == 0x2_0000_0000_0000 && Varint.Power(8) == 0x100_0000_0000_0000;
  }

  /** The computed length of an entry is that of its bytes. */
  lemma {:induction false} LengthOfEntry(e: Entry)
    requires -0x8000_0000 <= e.priority < 0x8000_0000
    ensures EntryLength(e) == |EntryBytes(e)|
  {
    hide ToBytes, Varint.Encode;
    if e.priority < 0 {
      NegativeLength(e.priority);
    }
  }

  function PresenceBytes(c: Cid, typ: Presence): Bytes {
    (if ToBytes(c) == [] then [] else [10] + Varint.Encode(|ToBytes(c)|) + ToBytes(c)) + (if typ == DontHave then [16, 1] else [])
  }

  lemma {:induction false} LengthOfPresence(c: Cid, typ: Presence)
    ensures PresenceLength(c, typ) == |PresenceBytes(c, typ)|
  {
    hide ToBytes, Varint.Encode;
  }

  // ---------------------------------------------------------------------------------------------
  // The written forms

  lemma {:induction false} WrittenEntries(w: map<Cid, Entry>, order: seq<Cid>, i: nat)
    requires RoundTrip.From(order, w)
    ensures |RoundTrip.WriteEntries(w, order)| == |order|
    ensures i < |order| ==>
              var e := w[order[i]];
              RoundTrip.WriteEntries(w, order)[i] == PbEntry(ToBytes(e.cid), e.priority, e.cancel, e.wantType, e.sendDontHave)
    decreases order
  {
    if order != [] {
      WrittenEntries(w, order[1..], if i > 0 then i - 1 else 0);
    }
  }

  lemma {:induction false} WrittenPayload(h: Hashing, bs: map<Cid, Block>, order: seq<Cid>, i: nat)
    requires RoundTrip.From(order, bs) && RoundTrip.AllWritable(h, bs)
    ensures |RoundTrip.WritePayload(h, bs, order)| == |order|
    ensures i < |order| ==>
              var b := bs[order[i]];
              RoundTrip.WritePayload(h, bs, order)[i] == PbBlock(PrefixBytes(Prefix(b.cid.version, b.cid.codec, b.cid.hashCode, |b.cid.digest|)), b.data)
    decreases order
  {
    if order != [] {
      hide PrefixBytes;
      WrittenPayload(h, bs, order[1..], if i > 0 then i - 1 else 0);
    }
  }

  lemma {:induction false} WrittenPresences(ps: map<Cid, Presence>, order: seq<Cid>, i: nat)
    requires RoundTrip.From(order, ps)
    ensures |RoundTrip.WritePresences(ps, order)| == |order|
    ensures i < |order| ==> RoundTrip.WritePresences(ps, order)[i] == PbPresence(ToBytes(order[i]), ps[order[i]])
    decreases order
  {
    if order != [] {
      hide ToBytes;
      WrittenPresences(ps, order[1..], if i > 0 then i - 1 else 0);
    }
  }

  lemma {:induction false} WrittenData(bs: map<Cid, Block>, order: seq<Cid>, i: nat)
    requires RoundTrip.From(order, bs)
    ensures |RoundTrip.WriteData(bs, order)| == |order|
    ensures i < |order| ==> RoundTrip.WriteData(bs, order)[i] == bs[order[i]].data
    decreases order
  {
    if order != [] {
      WrittenData(bs, order[1..], if i > 0 then i - 1 else 0);
    }
  }

  /** The newer form: an entry for each want, a prefixed block for each block and none of bare data, a
      presence for each, and the two other fields. */
  lemma {:induction false} NewerForm(h: Hashing, m: Content, wants: seq<Cid>, blocks: seq<Cid>, presences: seq<Cid>, i: nat)
    requires RoundTrip.From(wants, m.wantlist) && RoundTrip.From(blocks, m.blocks) && RoundTrip.From(presences, m.presences)
    requires RoundTrip.AllWritable(h, m.blocks)
    ensures var pb := RoundTrip.V1Message(h, m, wants, blocks, presences);
            && pb.wantlist.Some? && pb.wantlist.value.full == m.full && pb.blocks == [] && pb.pendingBytes == m.pendingBytes
            && |pb.wantlist.value.entries| == |wants| && |pb.payload| == |blocks| && |pb.presences| == |presences|
            && (i < |wants| ==>
                  var e := m.wantlist[wants[i]];
                  pb.wantlist.value.entries[i] == PbEntry(ToBytes(e.cid), e.priority, e.cancel, e.wantType, e.sendDontHave))
            && (i < |blocks| ==>
                  var b := m.blocks[blocks[i]];
                  pb.payload[i] == PbBlock(PrefixBytes(Prefix(b.cid.version, b.cid.codec, b.cid.hashCode, |b.cid.digest|)), b.data))
            && (i < |presences| ==> pb.presences[i] == PbPresence(ToBytes(presences[i]), m.presences[presences[i]]))
  {
    hide ToBytes, PrefixBytes, RoundTrip.WriteEntries, RoundTrip.WritePayload, RoundTrip.WritePresences;
    WrittenEntries(m.wantlist, wants, i);
    WrittenPayload(h, m.blocks, blocks, i);
    WrittenPresences(m.presences, presences, i);
  }

  /** The older form: the same wants and bare data, and nothing else. */
  lemma {:induction false} OlderForm(m: Content, wants: seq<Cid>, blocks: seq<Cid>, i: nat)
    requires RoundTrip.From(wants, m.wantlist) && RoundTrip.From(blocks, m.blocks)
    ensures var pb := RoundTrip.V0Message(m, wants, blocks);
            && pb.wantlist.Some? && pb.wantlist.value.full == m.full && pb.payload == [] && pb.presences == [] && pb.pendingBytes == 0
            && |pb.wantlist.value.entries| == |wants| && |pb.blocks| == |blocks|
            && (i < |wants| ==>
                  var e := m.wantlist[wants[i]];
                  pb.wantlist.value.entries[i] == PbEntry(ToBytes(e.cid), e.priority, e.cancel, e.wantType, e.sendDontHave))
            && (i < |blocks| ==> pb.blocks[i] == m.blocks[blocks[i]].data)
  {
    hide ToBytes, RoundTrip.WriteEntries, RoundTrip.WriteData;
    WrittenEntries(m.wantlist, wants, i);
    WrittenData(m.blocks, blocks, i);
  }

  /** Known bytes: two-byte varints, version 0 cids, and version 1 cids and prefixes of raw SHA2-256 blocks. */
  lemma {:induction false} KnownBytes(digest: Bytes)
    requires |digest| == 32
    ensures Varint.Encode(300) == [0xac, 0x02] && Varint.Encode(127) == [0x7f] && Varint.Encode(128) == [0x80, 0x01]
    ensures ToBytes(Cid(V0, DAG_PB, SHA2_256, digest)) == [0x12, 0x20] + digest
    ensures ToBytes(Cid(V1, 0x55, SHA2_256, digest)) == [0x01, 0x55, 0x12, 0x20] + digest
    ensures PrefixBytes(Prefix(V1, 0x55, SHA2_256, 32)) == [0x01, 0x55, 0x12, 0x20]
    ensures PrefixBytes(Prefix(V0, DAG_PB, SHA2_256, 32)) == [0x00, 0x70, 0x12, 0x20]
  {
    assert Varint.Encode(SHA2_256) == [0x12] && Varint.Encode(32) == [0x20] && Varint.Encode(0x55) == [0x55];
  }
}
