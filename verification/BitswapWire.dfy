/** Bitswap messages on the wire, as protobuf structures. */
module BitswapWire {
  import opened Common
  import opened CidBytes
  import opened Bitswap

  datatype PbEntry = PbEntry(block: Bytes, priority: int, cancel: bool, wantType: WantType, sendDontHave: bool)

  datatype PbWantlist = PbWantlist(entries: seq<PbEntry>, full: bool)

  datatype PbBlock = PbBlock(prefix: Bytes, data: Bytes)

  datatype PbPresence = PbPresence(cid: Bytes, typ: Presence)

  datatype PbMessage = PbMessage(
    wantlist: Option<PbWantlist>,
    blocks: seq<Bytes>,
    payload: seq<PbBlock>,
    presences: seq<PbPresence>,
    pendingBytes: int)

  // ---------------------------------------------------------------------------------------------
  // Reading

  function V0Cid(h: Hashing, data: Bytes): Result<Cid, CidError> {
    NewCid(V0, DAG_PB, SHA2_256, h.digest(SHA2_256, data))
  }

  function ReadEntries(es: seq<PbEntry>, m: Content): Result<Content, CidError>
    decreases es
  {
    if es == [] then Ok(m)
    else
      match FromBytes(es[0].block)
      case Err(e) => Err(e)
      case Ok(c) => ReadEntries(es[1..], Ask(m, c, Request(es[0].priority, es[0].cancel, es[0].wantType, es[0].sendDontHave)))
  }

  function ReadBlocks(h: Hashing, bs: seq<Bytes>, m: Content): Result<Content, CidError>
    decreases bs
  {
    if bs == [] then Ok(m)
    else
      match V0Cid(h, bs[0])
      case Err(e) => Err(e)
      case Ok(c) => ReadBlocks(h, bs[1..], WithBlock(m, Block(c, bs[0])))
  }

  function PayloadCid(h: Hashing, b: PbBlock): Result<Cid, CidError> {
    match ReadPrefix(h, b.prefix)
    case Err(e) => Err(e)
    case Ok(p) => PrefixCid(h, p, b.data)
  }

  function ReadPayload(h: Hashing, bs: seq<PbBlock>, m: Content): Result<Content, CidError>
    decreases bs
  {
    if bs == [] then Ok(m)
    else
      match PayloadCid(h, bs[0])
      case Err(e) => Err(e)
      case Ok(c) => ReadPayload(h, bs[1..], WithBlock(m, Block(c, bs[0].data)))
  }

  function ReadPresences(ps: seq<PbPresence>, m: Content): Result<Content, CidError>
    decreases ps
  {
    if ps == [] then Ok(m)
    else
      match FromBytes(ps[0].cid)
      case Err(e) => Err(e)
      case Ok(c) => ReadPresences(ps[1..], WithPresence(m, c, ps[0].typ))
  }

  /** The message a protobuf structure stands for, or the first error in it. */
  function ReadMessage(h: Hashing, pb: PbMessage): Result<Content, CidError> {
    var start := Empty(pb.wantlist.Some? && pb.wantlist.value.full);
    match ReadEntries(if pb.wantlist.Some? then pb.wantlist.value.entries else [], start)
    case Err(e) => Err(e)
    case Ok(wants) =>
      match ReadBlocks(h, pb.blocks, wants)
      case Err(e) => Err(e)
      case Ok(older) =>
        match ReadPayload(h, pb.payload, older)
        case Err(e) => Err(e)
        case Ok(all) =>
          match ReadPresences(pb.presences, all)
          case Err(e) => Err(e)
          case Ok(m) => Ok(m.(pendingBytes := pb.pendingBytes))
  }

  /** Reads a message, adding entries, blocks and presences one by one. */
  method Read(h: Hashing, pb: PbMessage) returns (r: Result<BitswapMessage, CidError>)
    ensures match ReadMessage(h, pb)
            case Err(e) => r == Err(e)
            case Ok(m) => r.Ok? && fresh(r.value) && r.value.Valid() && r.value.Contents() == m
  {
    hide FromBytes, PayloadCid, V0Cid, Ask, WithBlock, WithPresence;
    var message := new BitswapMessage(pb.wantlist.Some? && pb.wantlist.value.full);
    ghost var start := message.Contents();
    ghost var entries := if pb.wantlist.Some? then pb.wantlist.value.entries else [];
    if pb.wantlist.Some? {
      var es := pb.wantlist.value.entries;
      assert es[0..] == es;
      for i := 0 to |es|
        invariant message.Valid() && ReadEntries(entries, start) == ReadEntries(es[i..], message.Contents())
      {
        assert es[i..][0] == es[i] && es[i..][1..] == es[i + 1..];
        var c := FromBytes(es[i].block);
        if c.Err? {
          return Err(c.error);
        }
        var _ := message.AddFullEntry(c.value, es[i].priority, es[i].cancel, es[i].wantType, es[i].sendDontHave);
      }
    }
    var failed := AddOldBlocks(h, message, pb.blocks);
    if failed.Some? {
      return Err(failed.value);
    }
    failed := AddPayload(h, message, pb.payload);
    if failed.Some? {
      return Err(failed.value);
    }
    failed := AddPresences(message, pb.presences);
    if failed.Some? {
      return Err(failed.value);
    }
    message.SetPendingBytes(pb.pendingBytes);
    r := Ok(message);
  }

  method AddOldBlocks(h: Hashing, message: BitswapMessage, bs: seq<Bytes>) returns (failed: Option<CidError>)
    requires message.Valid()
    modifies message
    ensures message.Valid()
    ensures match ReadBlocks(h, bs, old(message.Contents()))
            case Err(e) => failed == Some(e)
            case Ok(m) => failed.None? && message.Contents() == m
  {
    hide V0Cid, WithBlock;
    assert bs[0..] == bs;
    for i := 0 to |bs|
      invariant message.Valid() && ReadBlocks(h, bs, old(message.Contents())) == ReadBlocks(h, bs[i..], message.Contents())
    {
      assert bs[i..][0] == bs[i] && bs[i..][1..] == bs[i + 1..];
      var c := V0Cid(h, bs[i]);
      if c.Err? {
        return Some(c.error);
      }
      message.AddBlock(Block(c.value, bs[i]));
    }
    failed := None;
  }

  method AddPayload(h: Hashing, message: BitswapMessage, bs: seq<PbBlock>) returns (failed: Option<CidError>)
    requires message.Valid()
    modifies message
    ensures message.Valid()
    ensures match ReadPayload(h, bs, old(message.Contents()))
            case Err(e) => failed == Some(e)
            case Ok(m) => failed.None? && message.Contents() == m
  {
    hide ReadPrefix, PrefixCid, WithBlock;
    assert bs[0..] == bs;
    for i := 0 to |bs|
      invariant message.Valid() && ReadPayload(h, bs, old(message.Contents())) == ReadPayload(h, bs[i..], message.Contents())
    {
      assert bs[i..][0] == bs[i] && bs[i..][1..] == bs[i + 1..];
      var prefix := ReadPrefix(h, bs[i].prefix);
      if prefix.Err? {
        return Some(prefix.error);
      }
      var c := PrefixCid(h, prefix.value, bs[i].data);
      if c.Err? {
        return Some(c.error);
      }
      message.AddBlock(Block(c.value, bs[i].data));
    }
    failed := None;
  }

  method AddPresences(message: BitswapMessage, ps: seq<PbPresence>) returns (failed: Option<CidError>)
    requires message.Valid()
    modifies message
    ensures message.Valid()
    ensures match ReadPresences(ps, old(message.Contents()))
            case Err(e) => failed == Some(e)
            case Ok(m) => failed.None? && message.Contents() == m
  {
    hide FromBytes, WithPresence;
    assert ps[0..] == ps;
    for i := 0 to |ps|
      invariant message.Valid() && ReadPresences(ps, old(message.Contents())) == ReadPresences(ps[i..], message.Contents())
    {
      assert ps[i..][0] == ps[i] && ps[i..][1..] == ps[i + 1..];
      var c := FromBytes(ps[i].cid);
      if c.Err? {
        return Some(c.error);
      }
      message.AddBlockPresence(c.value, ps[i].typ);
    }
    failed := None;
  }

  // ---------------------------------------------------------------------------------------------
  // Everything read verifies

  ghost predicate BlocksVerify(h: Hashing, m: Content) {
    forall c :: c in m.blocks ==> m.blocks[c].cid == c && Verifies(h, c, m.blocks[c].data)
  }

  lemma {:induction false} EntriesLeaveBlocks(es: seq<PbEntry>, m: Content)
    requires ReadEntries(es, m).Ok?
    ensures ReadEntries(es, m).value.blocks == m.blocks && ReadEntries(es, m).value.presences == m.presences
    ensures ReadEntries(es, m).value.full == m.full
    decreases es
  {
    if es != [] {
      var c := FromBytes(es[0].block).value;
      hide FromBytes;
      EntriesLeaveBlocks(es[1..], Ask(m, c, Request(es[0].priority, es[0].cancel, es[0].wantType, es[0].sendDontHave)));
    }
  }

  lemma {:induction false} OldBlocksVerify(h: Hashing, bs: seq<Bytes>, m: Content)
    requires h.Valid() && BlocksVerify(h, m) && ReadBlocks(h, bs, m).Ok?
    ensures BlocksVerify(h, ReadBlocks(h, bs, m).value)
    decreases bs
  {
    if bs != [] {
      OldBlocksVerify(h, bs[1..], WithBlock(m, Block(V0Cid(h, bs[0]).value, bs[0])));
    }
  }

  lemma {:induction false} PayloadVerifies(h: Hashing, bs: seq<PbBlock>, m: Content)
    requires h.Valid() && BlocksVerify(h, m) && ReadPayload(h, bs, m).Ok?
    ensures BlocksVerify(h, ReadPayload(h, bs, m).value)
    decreases bs
  {
    if bs != [] {
      var p := ReadPrefix(h, bs[0].prefix).value;
      assert p.hashCode in h.known;
      PrefixCidVerifies(h, p, bs[0].data);
      hide ReadPrefix, PrefixCid;
      PayloadVerifies(h, bs[1..], WithBlock(m, Block(PayloadCid(h, bs[0]).value, bs[0].data)));
    }
  }

  lemma {:induction false} PresencesLeaveBlocks(ps: seq<PbPresence>, m: Content)
    requires ReadPresences(ps, m).Ok?
    ensures ReadPresences(ps, m).value.blocks == m.blocks && ReadPresences(ps, m).value.wantlist == m.wantlist
    decreases ps
  {
    if ps != [] {
      var c := FromBytes(ps[0].cid).value;
      hide FromBytes;
      PresencesLeaveBlocks(ps[1..], WithPresence(m, c, ps[0].typ));
    }
  }

  /** Every block of a message that was read verifies, so verifying its blocks removes nothing. */
  lemma {:induction false} ReadBlocksVerify(h: Hashing, pb: PbMessage)
    requires h.Valid() && ReadMessage(h, pb).Ok?
    ensures BlocksVerify(h, ReadMessage(h, pb).value)
    ensures Verified(h, ReadMessage(h, pb).value) == ReadMessage(h, pb).value
  {
    var entries := if pb.wantlist.Some? then pb.wantlist.value.entries else [];
    var start := Empty(pb.wantlist.Some? && pb.wantlist.value.full);
    var wants := ReadEntries(entries, start).value;
    var older := ReadBlocks(h, pb.blocks, wants).value;
    var all := ReadPayload(h, pb.payload, older).value;
    EntriesLeaveBlocks(entries, start);
    OldBlocksVerify(h, pb.blocks, wants);
    PayloadVerifies(h, pb.payload, older);
    PresencesLeaveBlocks(pb.presences, all);
    hide ReadEntries, ReadBlocks, ReadPayload, ReadPresences, Verifies;
    var m := ReadMessage(h, pb).value;
    assert Verified(h, m).blocks == m.blocks;
  }
}
