/** Writing Bitswap messages, and what reading them back gives. */
module BitswapRoundTrip {
  import opened Common
  import opened CidBytes
  import opened Bitswap
  import opened BitswapWire

  // ---------------------------------------------------------------------------------------------
  // Maps in any order

  ghost predicate From<V>(order: seq<Cid>, src: map<Cid, V>) {
    forall i :: 0 <= i < |order| ==> order[i] in src
  }

  /** A map grown by the listed keys of another. */
  ghost function Into<V>(src: map<Cid, V>, order: seq<Cid>, base: map<Cid, V>): map<Cid, V>
    requires From(order, src)
    decreases order
  {
    if order == [] then base else Into(src, order[1..], base[order[0] := src[order[0]]])
  }

  lemma {:induction false} IntoIs<V>(src: map<Cid, V>, order: seq<Cid>, base: map<Cid, V>)
    requires From(order, src)
    ensures forall c :: c in Into(src, order, base) <==> c in base || c in order
    ensures forall c :: c in order ==> Into(src, order, base)[c] == src[c]
    ensures forall c :: c in base && c !in order ==> Into(src, order, base)[c] == base[c]
    decreases order
  {
    if order != [] {
      IntoIs(src, order[1..], base[order[0] := src[order[0]]]);
      assert forall c :: c in order <==> c == order[0] || c in order[1..];
    }
  }

  lemma {:induction false} IntoAll<V>(src: map<Cid, V>, order: seq<Cid>)
    requires Lists(order, src.Keys)
    ensures From(order, src) && Into(src, order, map[]) == src
  {
    IntoIs(src, order, map[]);
  }

  // ---------------------------------------------------------------------------------------------
  // Writing

  function WriteEntry(e: Entry): PbEntry {
    PbEntry(ToBytes(e.cid), e.priority, e.cancel, e.wantType, e.sendDontHave)
  }

  function WriteEntries(w: map<Cid, Entry>, order: seq<Cid>): seq<PbEntry>
    requires From(order, w)
  {
    if order == [] then [] else [WriteEntry(w[order[0]])] + WriteEntries(w, order[1..])
  }

  function WriteData(bs: map<Cid, Block>, order: seq<Cid>): seq<Bytes>
    requires From(order, bs)
  {
    if order == [] then [] else [bs[order[0]].data] + WriteData(bs, order[1..])
  }

  /** A block with the prefix of its cid; there is none for an unknown hash function. */
  function WriteBlock(h: Hashing, b: Block): Option<PbBlock>
    requires ValidCid(b.cid)
  {
    match PrefixOf(h, b.cid)
    case None => None
    case Some(p) => Some(PbBlock(PrefixBytes(p), b.data))
  }

  predicate Writable(h: Hashing, b: Block) { ValidCid(b.cid) && b.cid.hashCode in h.known }

  ghost predicate AllWritable(h: Hashing, bs: map<Cid, Block>) {
    forall c :: c in bs ==> Writable(h, bs[c])
  }

  ghost function WritePayload(h: Hashing, bs: map<Cid, Block>, order: seq<Cid>): seq<PbBlock>
    requires From(order, bs) && AllWritable(h, bs)
  {
    if order == [] then [] else [WriteBlock(h, bs[order[0]]).value] + WritePayload(h, bs, order[1..])
  }

  function WritePresences(ps: map<Cid, Presence>, order: seq<Cid>): seq<PbPresence>
    requires From(order, ps)
  {
    if order == [] then [] else [PbPresence(ToBytes(order[0]), ps[order[0]])] + WritePresences(ps, order[1..])
  }

  /** Every cid in the message is one that can exist. */
  ghost predicate ValidCids(m: Content) {
    && (forall c :: c in m.wantlist ==> ValidCid(c))
    && (forall c :: c in m.blocks ==> ValidCid(c))
    && (forall c :: c in m.presences ==> ValidCid(c))
  }

  ghost function V1Message(h: Hashing, m: Content, wants: seq<Cid>, blocks: seq<Cid>, presences: seq<Cid>): PbMessage
    requires From(wants, m.wantlist) && From(blocks, m.blocks) && From(presences, m.presences) && AllWritable(h, m.blocks)
  {
    PbMessage(Some(PbWantlist(WriteEntries(m.wantlist, wants), m.full)), [], WritePayload(h, m.blocks, blocks),
              WritePresences(m.presences, presences), m.pendingBytes)
  }

  ghost function V0Message(m: Content, wants: seq<Cid>, blocks: seq<Cid>): PbMessage
    requires From(wants, m.wantlist) && From(blocks, m.blocks)
  {
    PbMessage(Some(PbWantlist(WriteEntries(m.wantlist, wants), m.full)), WriteData(m.blocks, blocks), [], [], 0)
  }

  lemma {:induction false} EntriesAppend(w: map<Cid, Entry>, order: seq<Cid>, c: Cid)
    requires From(order, w) && c in w
    ensures From(order + [c], w) && WriteEntries(w, order + [c]) == WriteEntries(w, order) + [WriteEntry(w[c])]
    decreases order
  {
    if order == [] {
      assert order + [c] == [c] && [c][1..] == [];
    } else {
      assert (order + [c])[1..] == order[1..] + [c];
      EntriesAppend(w, order[1..], c);
    }
  }

  lemma {:induction false} PayloadAppend(h: Hashing, bs: map<Cid, Block>, order: seq<Cid>, c: Cid)
    requires From(order, bs) && c in bs && AllWritable(h, bs)
    ensures From(order + [c], bs) && WritePayload(h, bs, order + [c]) == WritePayload(h, bs, order) + [WriteBlock(h, bs[c]).value]
    decreases order
  {
    if order == [] {
      assert order + [c] == [c] && [c][1..] == [];
    } else {
      assert (order + [c])[1..] == order[1..] + [c];
      PayloadAppend(h, bs, order[1..], c);
    }
  }

  lemma {:induction false} DataAppend(bs: map<Cid, Block>, order: seq<Cid>, c: Cid)
    requires From(order, bs) && c in bs
    ensures From(order + [c], bs) && WriteData(bs, order + [c]) == WriteData(bs, order) + [bs[c].data]
    decreases order
  {
    if order == [] {
      assert order + [c] == [c] && [c][1..] == [];
    } else {
      assert (order + [c])[1..] == order[1..] + [c];
      DataAppend(bs, order[1..], c);
    }
  }

  lemma {:induction false} PresencesAppend(ps: map<Cid, Presence>, order: seq<Cid>, c: Cid)
    requires From(order, ps) && c in ps
    ensures From(order + [c], ps) && WritePresences(ps, order + [c]) == WritePresences(ps, order) + [PbPresence(ToBytes(c), ps[c])]
    decreases order
  {
    if order == [] {
      assert order + [c] == [c] && [c][1..] == [];
    } else {
      assert (order + [c])[1..] == order[1..] + [c];
      PresencesAppend(ps, order[1..], c);
    }
  }

  method EncodeWants(w: map<Cid, Entry>) returns (entries: seq<PbEntry>, order: seq<Cid>)
    ensures Lists(order, w.Keys) && From(order, w) && entries == WriteEntries(w, order)
  {
    hide ToBytes;
    order := InSomeOrder(w.Keys);
    entries := [];
    for i := 0 to |order|
      invariant From(order[..i], w) && entries == WriteEntries(w, order[..i])
    {
      assert order[i] in order;
      EntriesAppend(w, order[..i], order[i]);
      assert order[..i] + [order[i]] == order[..i + 1];
      entries := entries + [WriteEntry(w[order[i]])];
    }
    assert order[..|order|] == order;
  }

  method EncodePayload(h: Hashing, bs: map<Cid, Block>) returns (r: Option<seq<PbBlock>>, order: seq<Cid>)
    requires forall c :: c in bs ==> ValidCid(bs[c].cid)
    ensures r.None? <==> !AllWritable(h, bs)
    ensures r.Some? ==> Lists(order, bs.Keys) && From(order, bs) && r.value == WritePayload(h, bs, order)
  {
    hide ToBytes, PrefixBytes, ValidCid;
    order := InSomeOrder(bs.Keys);
    var payload := [];
    for i := 0 to |order|
      invariant From(order[..i], bs)
      invariant forall k :: 0 <= k < i ==> Writable(h, bs[order[k]])
      invariant AllWritable(h, bs) ==> payload == WritePayload(h, bs, order[..i])
    {
      assert order[i] in order;
      var b := bs[order[i]];
      var prefix := PrefixOf(h, b.cid);
      if prefix.None? {
        return None, order;
      }
      var bytes := WritePrefix(prefix.value);
      if AllWritable(h, bs) {
        PayloadAppend(h, bs, order[..i], order[i]);
      }
      assert order[..i] + [order[i]] == order[..i + 1];
      payload := payload + [PbBlock(bytes, b.data)];
    }
    assert order[..|order|] == order;
    assert AllWritable(h, bs);
    r := Some(payload);
  }

  method EncodePresences(ps: map<Cid, Presence>) returns (r: seq<PbPresence>, order: seq<Cid>)
    ensures Lists(order, ps.Keys) && From(order, ps) && r == WritePresences(ps, order)
  {
    hide ToBytes;
    order := InSomeOrder(ps.Keys);
    r := [];
    for i := 0 to |order|
      invariant From(order[..i], ps) && r == WritePresences(ps, order[..i])
    {
      assert order[i] in order;
      PresencesAppend(ps, order[..i], order[i]);
      assert order[..i] + [order[i]] == order[..i + 1];
      r := r + [PbPresence(ToBytes(order[i]), ps[order[i]])];
    }
    assert order[..|order|] == order;
  }

  /** Writes the form of Bitswap 1.1.0 and later. A block whose hash function is unknown panics. */
  method EncodeV1(h: Hashing, message: BitswapMessage)
    returns (r: Outcome<PbMessage, ()>, ghost wants: seq<Cid>, ghost blocks: seq<Cid>, ghost presences: seq<Cid>)
    requires message.Valid() && ValidCids(message.Contents())
    ensures r.Panicked? <==> !AllWritable(h, message.blocks)
    ensures !r.Failed?
    ensures r.Done? ==>
              && Lists(wants, message.wantlist.Keys) && Lists(blocks, message.blocks.Keys) && Lists(presences, message.presences.Keys)
              && From(wants, message.wantlist) && From(blocks, message.blocks) && From(presences, message.presences)
              && r.value == V1Message(h, message.Contents(), wants, blocks, presences)
  {
    hide ToBytes, PrefixBytes, WriteEntries, WritePayload, WritePresences, Lists, From, AllWritable, ValidCid;
    presences := [];
    var entries, wanted := EncodeWants(message.wantlist);
    wants := wanted;
    var payload, order := EncodePayload(h, message.blocks);
    blocks := order;
    if payload.None? {
      return Panicked, wants, blocks, presences;
    }
    var ps, present := EncodePresences(message.presences);
    presences := present;
    r := Done(PbMessage(Some(PbWantlist(entries, message.full)), [], payload.value, ps, message.pendingBytes));
  }

  /** Writes the form of Bitswap 1.0.0: wants and bare data. */
  method EncodeV0(message: BitswapMessage) returns (pb: PbMessage, ghost wants: seq<Cid>, ghost blocks: seq<Cid>)
    ensures Lists(wants, message.wantlist.Keys) && Lists(blocks, message.blocks.Keys)
    ensures From(wants, message.wantlist) && From(blocks, message.blocks)
    ensures pb == V0Message(message.Contents(), wants, blocks)
  {
    var entries, wanted := EncodeWants(message.wantlist);
    wants := wanted;
    var order := InSomeOrder(message.blocks.Keys);
    blocks := order;
    var data := [];
    for i := 0 to |order|
      invariant From(order[..i], message.blocks) && data == WriteData(message.blocks, order[..i])
    {
      assert order[i] in order;
      DataAppend(message.blocks, order[..i], order[i]);
      assert order[..i] + [order[i]] == order[..i + 1];
      data := data + [message.blocks[order[i]].data];
    }
    assert order[..|order|] == order;
    pb := PbMessage(Some(PbWantlist(entries, message.full)), data, [], [], 0);
  }

  // ---------------------------------------------------------------------------------------------
  // Reading back

  /** Asking for an entry's cid as the entry does adds the entry. */
  lemma {:induction false} AsksAgain(m: Content, e: Entry)
    requires e.cid !in m.wantlist
    ensures Ask(m, e.cid, Request(e.priority, e.cancel, e.wantType, e.sendDontHave)) == m.(wantlist := m.wantlist[e.cid := e])
  {
  }

  lemma {:induction false} EntriesComeBack(w: map<Cid, Entry>, order: seq<Cid>, m: Content)
    requires From(order, w) && Distinct(order)
    requires forall c :: c in order ==> ValidCid(c) && w[c].cid == c && c !in m.wantlist
    ensures ReadEntries(WriteEntries(w, order), m) == Ok(m.(wantlist := Into(w, order, m.wantlist)))
    decreases order
  {
    if order != [] {
      hide ToBytes, FromBytes, ValidCid;
      var c := order[0];
      CidRoundTrip(c);
      AsksAgain(m, w[c]);
      hide Ask;
      var next := m.(wantlist := m.wantlist[c := w[c]]);
      assert forall d :: d in order[1..] ==> d in order && d != c;
      EntriesComeBack(w, order[1..], next);
      assert WriteEntries(w, order)[1..] == WriteEntries(w, order[1..]);
    }
  }

  lemma {:induction false} PayloadComesBack(h: Hashing, bs: map<Cid, Block>, order: seq<Cid>, m: Content)
    requires h.Valid() && From(order, bs) && AllWritable(h, bs) && m.presences == map[]
    requires forall c :: c in order ==> bs[c].cid == c && Verifies(h, c, bs[c].data)
    ensures ReadPayload(h, WritePayload(h, bs, order), m) == Ok(m.(blocks := Into(bs, order, m.blocks)))
    decreases order
  {
    if order != [] {
      var c := order[0];
      BlockComesBack(h, bs[c]);
      hide WriteBlock, PayloadCid, Verifies, Writable;
      var next := WithBlock(m, bs[c]);
      assert next == m.(blocks := m.blocks[c := bs[c]]);
      assert forall d :: d in order[1..] ==> d in order;
      PayloadComesBack(h, bs, order[1..], next);
      assert WritePayload(h, bs, order)[1..] == WritePayload(h, bs, order[1..]);
    }
  }

  lemma {:induction false} BlockComesBack(h: Hashing, b: Block)
    requires h.Valid() && Writable(h, b) && Verifies(h, b.cid, b.data)
    ensures WriteBlock(h, b).Some? && WriteBlock(h, b).value.data == b.data
    ensures PayloadCid(h, WriteBlock(h, b).value) == Ok(b.cid)
  {
    var p := PrefixOf(h, b.cid).value;
    PrefixRoundTrip(h, p, []);
    assert PrefixBytes(p) + [] == PrefixBytes(p);
    PrefixKeepsVerified(h, b.cid, b.data);
  }

  lemma {:induction false} PresencesComeBack(ps: map<Cid, Presence>, order: seq<Cid>, m: Content)
    requires From(order, ps) && forall c :: c in order ==> ValidCid(c) && c !in m.blocks
    ensures ReadPresences(WritePresences(ps, order), m) == Ok(m.(presences := Into(ps, order, m.presences)))
    decreases order
  {
    if order != [] {
      var c := order[0];
      CidRoundTrip(c);
      hide ToBytes, FromBytes;
      var next := WithPresence(m, c, ps[c]);
      assert next == m.(presences := m.presences[c := ps[c]]);
      assert forall d :: d in order[1..] ==> d in order;
      PresencesComeBack(ps, order[1..], next);
      assert WritePresences(ps, order)[1..] == WritePresences(ps, order[1..]);
    }
  }

  lemma {:induction false} WantsComeBack(m: Content, wants: seq<Cid>)
    requires Proper(m) && ValidCids(m) && Lists(wants, m.wantlist.Keys) && From(wants, m.wantlist)
    ensures ReadEntries(WriteEntries(m.wantlist, wants), Empty(m.full)) == Ok(Empty(m.full).(wantlist := m.wantlist))
  {
    hide ValidCid;
    EntriesComeBack(m.wantlist, wants, Empty(m.full));
    IntoAll(m.wantlist, wants);
  }

  lemma {:induction false} V1ComesBack(h: Hashing, m: Content, wants: seq<Cid>, blocks: seq<Cid>, presences: seq<Cid>)
    requires h.Valid() && Proper(m) && ValidCids(m) && AllWritable(h, m.blocks)
    requires Lists(wants, m.wantlist.Keys) && Lists(blocks, m.blocks.Keys) && Lists(presences, m.presences.Keys)
    requires From(wants, m.wantlist) && From(blocks, m.blocks) && From(presences, m.presences)
    requires forall c :: c in m.blocks ==> Verifies(h, c, m.blocks[c].data)
    ensures ReadMessage(h, V1Message(h, m, wants, blocks, presences)) == Ok(m)
  {
    hide ValidCid, Verifies, Writable, ReadEntries, WriteEntries, ReadPayload, WritePayload, ReadPresences, WritePresences, Into;
    var a := Empty(m.full).(wantlist := m.wantlist);
    WantsComeBack(m, wants);
    assert ReadBlocks(h, [], a) == Ok(a);
    PayloadComesBack(h, m.blocks, blocks, a);
    IntoAll(m.blocks, blocks);
    PresencesComeBack(m.presences, presences, a.(blocks := m.blocks));
    IntoAll(m.presences, presences);
  }

  /** Whatever the order of the maps, reading what was written gives the same message if and only if
      all its blocks verify. */
  lemma {:induction false} V1RoundTrip(h: Hashing, m: Content, wants: seq<Cid>, blocks: seq<Cid>, presences: seq<Cid>)
    requires h.Valid() && Proper(m) && ValidCids(m) && AllWritable(h, m.blocks)
    requires Lists(wants, m.wantlist.Keys) && Lists(blocks, m.blocks.Keys) && Lists(presences, m.presences.Keys)
    requires From(wants, m.wantlist) && From(blocks, m.blocks) && From(presences, m.presences)
    ensures ReadMessage(h, V1Message(h, m, wants, blocks, presences)) == Ok(m)
            <==> forall c :: c in m.blocks ==> Verifies(h, c, m.blocks[c].data)
  {
    hide ReadMessage, V1Message, ValidCids, Verifies, Lists, From, AllWritable;
    var pb := V1Message(h, m, wants, blocks, presences);
    if ReadMessage(h, pb).Ok? {
      ReadBlocksVerify(h, pb);
    }
    if forall c :: c in m.blocks ==> Verifies(h, c, m.blocks[c].data) {
      V1ComesBack(h, m, wants, blocks, presences);
    }
  }

  // ---------------------------------------------------------------------------------------------
  // The older form

  ghost function V0CidOf(h: Hashing, data: Bytes): Cid {
    Cid(V0, DAG_PB, SHA2_256, h.digest(SHA2_256, data))
  }

  lemma {:induction false} DataComesBack(h: Hashing, bs: map<Cid, Block>, order: seq<Cid>, m: Content)
    requires h.Valid() && From(order, bs) && m.presences == map[]
    ensures ReadBlocks(h, WriteData(bs, order), m).Ok?
    ensures var r := ReadBlocks(h, WriteData(bs, order), m).value;
            && r == m.(blocks := r.blocks)
            && (forall c :: c in r.blocks <==> c in m.blocks || exists d :: d in order && c == V0CidOf(h, bs[d].data))
            && (forall c :: c in r.blocks ==> (c in m.blocks && r.blocks[c] == m.blocks[c]) || exists d :: d in order && c == V0CidOf(h, bs[d].data) && r.blocks[c] == Block(c, bs[d].data))
    decreases order
  {
    if order != [] {
      var d := order[0];
      var c := V0CidOf(h, bs[d].data);
      assert V0Cid(h, bs[d].data) == Ok(c);
      var next := WithBlock(m, Block(c, bs[d].data));
      assert next == m.(blocks := m.blocks[c := Block(c, bs[d].data)]);
      assert WriteData(bs, order)[1..] == WriteData(bs, order[1..]);
      hide V0Cid;
      DataComesBack(h, bs, order[1..], next);
      assert forall x :: x in order <==> x == d || x in order[1..];
    }
  }

  /** No two blocks of the message have data with the same SHA2-256. */
  ghost predicate NoCollision(h: Hashing, bs: map<Cid, Block>) {
    forall c, d :: c in bs && d in bs && V0CidOf(h, bs[c].data) == V0CidOf(h, bs[d].data) ==> bs[c].data == bs[d].data
  }

  /** The older form keeps the wantlist, the full flag and, as long as no two blocks collide, every
      verifying version 0 block; each block comes back under the version 0 cid of its data, and
      presences and pending bytes are lost. */
  lemma {:induction false} V0RoundTrip(h: Hashing, m: Content, wants: seq<Cid>, blocks: seq<Cid>)
    requires h.Valid() && Proper(m) && ValidCids(m)
    requires Lists(wants, m.wantlist.Keys) && Lists(blocks, m.blocks.Keys) && From(wants, m.wantlist) && From(blocks, m.blocks)
    ensures ReadMessage(h, V0Message(m, wants, blocks)).Ok?
    ensures var r := ReadMessage(h, V0Message(m, wants, blocks)).value;
            && r == Content(m.full, m.wantlist, r.blocks, map[], 0)
            && (forall c :: c in r.blocks <==> exists d :: d in m.blocks && c == V0CidOf(h, m.blocks[d].data))
            && (NoCollision(h, m.blocks) ==>
                  forall c :: c in m.blocks && c.version == V0 && Verifies(h, c, m.blocks[c].data) ==>
                    c in r.blocks && r.blocks[c] == m.blocks[c])
  {
    hide ValidCid, Verifies;
    var a := Empty(m.full).(wantlist := m.wantlist);
    WantsComeBack(m, wants);
    hide ReadEntries, WriteEntries;
    DataComesBack(h, m.blocks, blocks, a);
    hide ReadBlocks, WriteData;
    var b := ReadBlocks(h, WriteData(m.blocks, blocks), a).value;
    assert ReadPayload(h, [], b) == Ok(b) && ReadPresences([], b) == Ok(b);
    forall c | NoCollision(h, m.blocks) && c in m.blocks && c.version == V0 && Verifies(h, c, m.blocks[c].data)
      ensures c in b.blocks && b.blocks[c] == m.blocks[c]
    {
      VerifyingV0(h, m, c);
    }
  }

  lemma {:induction false} VerifyingV0(h: Hashing, m: Content, c: Cid)
    requires ValidCids(m) && Proper(m) && c in m.blocks && c.version == V0 && Verifies(h, c, m.blocks[c].data)
    ensures c == V0CidOf(h, m.blocks[c].data) && m.blocks[c] == Block(c, m.blocks[c].data)
  {
  }

  /** Writes a message and reads it back. */
  method SendAndReceive(h: Hashing, message: BitswapMessage) returns (r: Outcome<BitswapMessage, CidError>)
    requires h.Valid() && message.Valid() && ValidCids(message.Contents())
    ensures r.Panicked? <==> !AllWritable(h, message.blocks)
    ensures r.Done? && r.value.Contents() == message.Contents() <==> forall c :: c in message.blocks ==> Verifies(h, c, message.blocks[c].data)
  {
    hide ReadMessage, V1Message;
    var written, wants, blocks, presences := EncodeV1(h, message);
    if written.Panicked? {
      assert exists c :: c in message.blocks && !Writable(h, message.blocks[c]);
      return Panicked;
    }
    V1RoundTrip(h, message.Contents(), wants, blocks, presences);
    var read := Read(h, written.value);
    r := if read.Ok? then Done(read.value) else Failed(read.error);
  }
}
