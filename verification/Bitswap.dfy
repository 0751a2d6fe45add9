/** The Bitswap message: wants, blocks and presences, and how they are merged. */
module Bitswap {
  import opened Common
  import opened CidBytes
  import Varint

  datatype WantType = WantBlock | WantHave

  datatype Presence = Have | DontHave

  /** A wantlist entry. */
  datatype Entry = Entry(cid: Cid, priority: int, wantType: WantType, cancel: bool, sendDontHave: bool)

  datatype Block = Block(cid: Cid, data: Bytes)

  /** The contents of a message. */
  datatype Content = Content(
    full: bool,
    wantlist: map<Cid, Entry>,
    blocks: map<Cid, Block>,
    presences: map<Cid, Presence>,
    pendingBytes: int)

  /** A want or a cancel for one cid. */
  datatype Request = Request(priority: int, cancel: bool, wantType: WantType, sendDontHave: bool)

  const CANCEL := Request(0, true, WantBlock, false)

  function Empty(full: bool): Content { Content(full, map[], map[], map[], 0) }

  /** Keys are the cids of what they lead to, and no cid has both a block and a presence. */
  ghost predicate Proper(m: Content) {
    && (forall c :: c in m.wantlist ==> m.wantlist[c].cid == c)
    && (forall c :: c in m.blocks ==> m.blocks[c].cid == c)
    && m.blocks.Keys !! m.presences.Keys
  }

  // ---------------------------------------------------------------------------------------------
  // Operations

  /** An entry after one more request for its cid. */
  function Merge(known: Option<Entry>, c: Cid, r: Request): Entry {
    match known
    case None => Entry(c, r.priority, r.wantType, r.cancel, r.sendDontHave)
    case Some(e) =>
      Entry(e.cid,
            if e.wantType == r.wantType then r.priority else e.priority,
            if r.wantType == WantBlock then WantBlock else e.wantType,
            e.cancel || r.cancel,
            e.sendDontHave || r.sendDontHave)
  }

  function EntryOf(m: Content, c: Cid): Option<Entry> {
    if c in m.wantlist then Some(m.wantlist[c]) else None
  }

  function Ask(m: Content, c: Cid, r: Request): Content {
    m.(wantlist := m.wantlist[c := Merge(EntryOf(m, c), c, r)])
  }

  /** The length that asking reports: a new entry's, and nothing for a known one. */
  function Reported(m: Content, c: Cid, r: Request): nat {
    if c in m.wantlist then 0 else EntryLength(Merge(None, c, r))
  }

  function WithBlock(m: Content, b: Block): Content {
    m.(presences := m.presences - {b.cid}, blocks := m.blocks[b.cid := b])
  }

  function WithPresence(m: Content, c: Cid, typ: Presence): Content {
    if c in m.blocks then m else m.(presences := m.presences[c := typ])
  }

  function Verified(h: Hashing, m: Content): Content {
    m.(blocks := map c | c in m.blocks && Verifies(h, m.blocks[c].cid, m.blocks[c].data) :: m.blocks[c])
  }

  // ---------------------------------------------------------------------------------------------
  // Encoded lengths: a tag of one byte before each field that is not at its default

  /** A negative number is extended to 64 bits, whose sign bit takes the longest form. */
  function VarintLength(n: int): nat { if n < 0 then Varint.MAX_BYTES else |Varint.Encode(n)| }

  function BytesLength(n: nat): nat { if n == 0 then 0 else 1 + VarintLength(n) + n }

  /** A field whose only other value is 1. */
  function FlagLength(flag: bool): nat { if flag then 2 else 0 }

  function EntryLength(e: Entry): nat {
    BytesLength(|ToBytes(e.cid)|) + (if e.priority == 0 then 0 else 1 + VarintLength(e.priority))
    + FlagLength(e.cancel) + FlagLength(e.wantType == WantHave) + FlagLength(e.sendDontHave)
  }

  function PresenceLength(c: Cid, typ: Presence): nat { BytesLength(|ToBytes(c)|) + FlagLength(typ == DontHave) }

  class BitswapMessage {
    var full: bool
    var wantlist: map<Cid, Entry>
    var blocks: map<Cid, Block>
    var presences: map<Cid, Presence>
    var pendingBytes: int

    function Contents(): Content
      reads this
    {
      Content(full, wantlist, blocks, presences, pendingBytes)
    }

    ghost predicate Valid()
      reads this
    {
      Proper(Contents())
    }

    constructor (full: bool)
      ensures Valid() && Contents() == Empty(full)
    {
      this.full := full;
      wantlist, blocks, presences, pendingBytes := map[], map[], map[], 0;
    }

    method Clear(full: bool)
      modifies this
      ensures Valid() && Contents() == Empty(full)
    {
      this.full := full;
      wantlist, blocks, presences, pendingBytes := map[], map[], map[], 0;
    }

    method SetPendingBytes(bytes: int)
      requires Valid()
      modifies this
      ensures Valid() && Contents() == old(Contents()).(pendingBytes := bytes)
    {
      pendingBytes := bytes;
    }

    method Remove(c: Cid)
      requires Valid()
      modifies this
      ensures Valid() && Contents() == old(Contents()).(wantlist := old(wantlist) - {c})
    {
      wantlist := wantlist - {c};
    }

    /** Merges a request into the entry of its cid, field by field. */
    method AddFullEntry(c: Cid, priority: int, cancel: bool, wantType: WantType, sendDontHave: bool) returns (size: nat)
      requires Valid()
      modifies this
      ensures Valid() && Contents() == Ask(old(Contents()), c, Request(priority, cancel, wantType, sendDontHave))
      ensures size == Reported(old(Contents()), c, Request(priority, cancel, wantType, sendDontHave))
    {
      hide EntryLength;
      if c in wantlist {
        var entry := wantlist[c];
        if entry.wantType == wantType {
          entry := entry.(priority := priority);
        }
        if cancel {
          entry := entry.(cancel := true);
        }
        if sendDontHave {
          entry := entry.(sendDontHave := true);
        }
        if wantType == WantBlock && entry.wantType == WantHave {
          entry := entry.(wantType := WantBlock);
        }
        wantlist := wantlist[c := entry];
        return 0;
      }
      var entry := Entry(c, priority, wantType, cancel, sendDontHave);
      size := EntryLength(entry);
      wantlist := wantlist[c := entry];
    }

    method AddEntry(c: Cid, priority: int, wantType: WantType, sendDontHave: bool) returns (size: nat)
      requires Valid()
      modifies this
      ensures Valid() && Contents() == Ask(old(Contents()), c, Request(priority, false, wantType, sendDontHave))
      ensures size == Reported(old(Contents()), c, Request(priority, false, wantType, sendDontHave))
    {
      size := AddFullEntry(c, priority, false, wantType, sendDontHave);
    }

    method Cancel(c: Cid) returns (size: nat)
      requires Valid()
      modifies this
      ensures Valid() && Contents() == Ask(old(Contents()), c, CANCEL)
      ensures size == Reported(old(Contents()), c, CANCEL)
    {
      size := AddFullEntry(c, 0, true, WantBlock, false);
    }

    method AddBlock(b: Block)
      requires Valid()
      modifies this
      ensures Valid() && Contents() == WithBlock(old(Contents()), b)
    {
      presences := presences - {b.cid};
      blocks := blocks[b.cid := b];
    }

    method AddBlockPresence(c: Cid, typ: Presence)
      requires Valid()
      modifies this
      ensures Valid() && Contents() == WithPresence(old(Contents()), c, typ)
    {
      if c in blocks {
        return;
      }
      presences := presences[c := typ];
    }

    method VerifyBlocks(h: Hashing)
      requires Valid()
      modifies this
      ensures Valid() && Contents() == Verified(h, old(Contents()))
    {
      var kept := blocks;
      blocks := map c | c in kept && Verifies(h, kept[c].cid, kept[c].data) :: kept[c];
    }
  }

  // ---------------------------------------------------------------------------------------------
  // Any sequence of operations

  datatype Operation =
    | AddWant(cid: Cid, priority: int, wantType: WantType, sendDontHave: bool)
    | AddCancel(cid: Cid)
    | RemoveWant(cid: Cid)
    | AddBlock(block: Block)
    | AddPresence(cid: Cid, typ: Presence)
    | VerifyBlocks
    | Clear(full: bool)
    | SetPendingBytes(bytes: int)

  function Apply(h: Hashing, m: Content, op: Operation): Content {
    match op
    case AddWant(c, priority, wantType, sendDontHave) => Ask(m, c, Request(priority, false, wantType, sendDontHave))
    case AddCancel(c) => Ask(m, c, CANCEL)
    case RemoveWant(c) => m.(wantlist := m.wantlist - {c})
    case AddBlock(b) => WithBlock(m, b)
    case AddPresence(c, typ) => WithPresence(m, c, typ)
    case VerifyBlocks => Verified(h, m)
    case Clear(full) => Empty(full)
    case SetPendingBytes(bytes) => m.(pendingBytes := bytes)
  }

  function ApplyAll(h: Hashing, m: Content, ops: seq<Operation>): Content
    decreases ops
  {
    if ops == [] then m else ApplyAll(h, Apply(h, m, ops[0]), ops[1..])
  }

  /** The requests for a cid after one more operation. */
  function Noted(op: Operation, c: Cid, before: seq<Request>): seq<Request> {
    match op
    case AddWant(d, priority, wantType, sendDontHave) =>
      if d == c then before + [Request(priority, false, wantType, sendDontHave)] else before
    case AddCancel(d) => if d == c then before + [CANCEL] else before
    case RemoveWant(d) => if d == c then [] else before
    case Clear(_) => []
    case _ => before
  }

  /** The requests for a cid since it was last removed. */
  function Since(ops: seq<Operation>, c: Cid, before: seq<Request>): seq<Request>
    decreases ops
  {
    if ops == [] then before else Since(ops[1..], c, Noted(ops[0], c, before))
  }

  /** The entry that requests amount to. */
  function Folded(c: Cid, rs: seq<Request>): Option<Entry>
    decreases |rs|
  {
    if rs == [] then None else Some(Merge(Folded(c, rs[..|rs| - 1]), c, rs[|rs| - 1]))
  }

  lemma {:induction false} FoldedNothing(c: Cid)
    ensures Folded(c, []) == None
  {
  }

  lemma {:induction false} FoldedOneMore(c: Cid, rs: seq<Request>, r: Request)
    ensures Folded(c, rs + [r]) == Some(Merge(Folded(c, rs), c, r))
  {
    assert (rs + [r])[..|rs|] == rs;
  }

  /** After any operations, the message is proper and an entry is what the requests since its last
      removal amount to. */
  lemma {:induction false} EntriesFoldRequests(h: Hashing, m: Content, ops: seq<Operation>, c: Cid, before: seq<Request>)
    requires Proper(m) && EntryOf(m, c) == Folded(c, before)
    ensures Proper(ApplyAll(h, m, ops))
    ensures EntryOf(ApplyAll(h, m, ops), c) == Folded(c, Since(ops, c, before))
    decreases ops
  {
    hide Apply, Proper, EntryOf, Folded, Noted;
    if ops != [] {
      OperationKeeps(h, m, ops[0], c, before);
      EntriesFoldRequests(h, Apply(h, m, ops[0]), ops[1..], c, Noted(ops[0], c, before));
    }
  }

  lemma {:induction false} OperationKeeps(h: Hashing, m: Content, op: Operation, c: Cid, before: seq<Request>)
    requires Proper(m) && EntryOf(m, c) == Folded(c, before)
    ensures Proper(Apply(h, m, op)) && EntryOf(Apply(h, m, op), c) == Folded(c, Noted(op, c, before))
  {
    hide Proper, Merge, Folded;
    OperationKeepsProper(h, m, op);
    FoldedNothing(c);
    if op.AddWant? {
      FoldedOneMore(c, before, Request(op.priority, false, op.wantType, op.sendDontHave));
    } else if op.AddCancel? {
      FoldedOneMore(c, before, CANCEL);
    }
  }

  /** No operation lets a cid have both a block and a presence. */
  lemma {:induction false} OperationKeepsProper(h: Hashing, m: Content, op: Operation)
    requires Proper(m)
    ensures Proper(Apply(h, m, op))
  {
    hide Verifies;
  }

  /** Performs the operations on a new message. */
  method Replay(h: Hashing, full: bool, ops: seq<Operation>) returns (message: BitswapMessage)
    ensures fresh(message) && message.Contents() == ApplyAll(h, Empty(full), ops)
    ensures Proper(message.Contents())
    ensures forall c :: EntryOf(message.Contents(), c) == Folded(c, Since(ops, c, []))
  {
    message := new BitswapMessage(full);
    assert ops[0..] == ops;
    hide Ask, WithBlock, WithPresence, Verified;
    for i := 0 to |ops|
      invariant fresh(message) && message.Valid()
      invariant ApplyAll(h, Empty(full), ops) == ApplyAll(h, message.Contents(), ops[i..])
    {
      assert ops[i..][0] == ops[i] && ops[i..][1..] == ops[i + 1..];
      match ops[i] {
        case AddWant(c, priority, wantType, sendDontHave) => var _ := message.AddEntry(c, priority, wantType, sendDontHave);
        case AddCancel(c) => var _ := message.Cancel(c);
        case RemoveWant(c) => message.Remove(c);
        case AddBlock(b) => message.AddBlock(b);
        case AddPresence(c, typ) => message.AddBlockPresence(c, typ);
        case VerifyBlocks => message.VerifyBlocks(h);
        case Clear(f) => message.Clear(f);
        case SetPendingBytes(bytes) => message.SetPendingBytes(bytes);
      }
    }
    forall c
      ensures EntryOf(message.Contents(), c) == Folded(c, Since(ops, c, []))
    {
      EntriesFoldRequests(h, Empty(full), ops, c, []);
    }
  }

  // ---------------------------------------------------------------------------------------------
  // What requests amount to

  lemma {:induction false} InLast(rs: seq<Request>)
    requires rs != []
    ensures rs == rs[..|rs| - 1] + [rs[|rs| - 1]]
    ensures forall r :: r in rs <==> r in rs[..|rs| - 1] || r == rs[|rs| - 1]
  {
    assert rs == rs[..|rs| - 1] + [rs[|rs| - 1]];
  }

  lemma {:induction false} CancelsAccumulate(c: Cid, rs: seq<Request>)
    requires rs != []
    ensures Folded(c, rs).value.cid == c
    ensures Folded(c, rs).value.cancel <==> exists r :: r in rs && r.cancel
    decreases |rs|
  {
    InLast(rs);
    if |rs| > 1 {
      CancelsAccumulate(c, rs[..|rs| - 1]);
    }
  }

  lemma {:induction false} DontHavesAccumulate(c: Cid, rs: seq<Request>)
    requires rs != []
    ensures Folded(c, rs).value.sendDontHave <==> exists r :: r in rs && r.sendDontHave
    decreases |rs|
  {
    InLast(rs);
    if |rs| > 1 {
      DontHavesAccumulate(c, rs[..|rs| - 1]);
    }
  }

  lemma {:induction false} BlockWantsAccumulate(c: Cid, rs: seq<Request>)
    requires rs != []
    ensures Folded(c, rs).value.wantType == WantBlock <==> exists r :: r in rs && r.wantType == WantBlock
    decreases |rs|
  {
    InLast(rs);
    if |rs| > 1 {
      BlockWantsAccumulate(c, rs[..|rs| - 1]);
    }
  }

  /** An entry is a cancel, wants DONT_HAVEs, or wants the block, if any of its requests does. */
  lemma {:induction false} FlagsAccumulate(c: Cid, rs: seq<Request>)
    requires rs != []
    ensures var e := Folded(c, rs).value;
            && e.cid == c
            && (e.cancel <==> exists r :: r in rs && r.cancel)
            && (e.sendDontHave <==> exists r :: r in rs && r.sendDontHave)
            && (e.wantType == WantBlock <==> exists r :: r in rs && r.wantType == WantBlock)
  {
    hide Merge;
    CancelsAccumulate(c, rs);
    DontHavesAccumulate(c, rs);
    BlockWantsAccumulate(c, rs);
  }

  /** So these fields depend only on which requests were made, not on their order or number. */
  lemma {:induction false} FlagsDependOnTheSet(c: Cid, rs: seq<Request>, qs: seq<Request>)
    requires forall r :: r in rs <==> r in qs
    ensures Folded(c, rs).None? <==> Folded(c, qs).None?
    ensures rs != [] ==>
              var e, f := Folded(c, rs).value, Folded(c, qs).value;
              e.cancel == f.cancel && e.sendDontHave == f.sendDontHave && e.wantType == f.wantType
  {
    assert qs != [] ==> qs[0] in rs;
    if rs != [] {
      assert rs[0] in qs;
      FlagsAccumulate(c, rs);
      FlagsAccumulate(c, qs);
    }
  }

  /** The position of the first request for the block, or the number of requests. */
  function FirstBlock(rs: seq<Request>): (i: nat)
    ensures i <= |rs| && (i < |rs| ==> rs[i].wantType == WantBlock)
    ensures forall j :: 0 <= j < i ==> rs[j].wantType == WantHave
  {
    if rs == [] || rs[0].wantType == WantBlock then 0 else 1 + FirstBlock(rs[1..])
  }

  /** The priority is that of the last request of the entry's type; but the request that first turns a
      want-have into a want-block leaves the want-have's priority until another one follows. */
  ghost predicate PriorityOf(rs: seq<Request>, priority: int)
    requires rs != []
  {
    var first := FirstBlock(rs);
    if first == |rs| then priority == rs[|rs| - 1].priority
    else if 0 < first && (forall j :: first < j < |rs| ==> rs[j].wantType == WantHave) then priority == rs[first - 1].priority
    else exists last: nat :: LastBlock(rs, last) && priority == rs[last].priority
  }

  ghost predicate LastBlock(rs: seq<Request>, last: nat) {
    last < |rs| && rs[last].wantType == WantBlock && forall j :: last < j < |rs| ==> rs[j].wantType == WantHave
  }

  lemma {:induction false} FirstBlockOneMore(rs: seq<Request>, r: Request)
    ensures FirstBlock(rs + [r]) == if FirstBlock(rs) < |rs| then FirstBlock(rs) else if r.wantType == WantBlock then |rs| else |rs| + 1
  {
    var all := rs + [r];
    assert forall j :: 0 <= j < |rs| ==> all[j] == rs[j];
    assert all[|rs|] == r;
  }

  lemma {:induction false} PriorityLaw(c: Cid, rs: seq<Request>)
    requires rs != []
    ensures PriorityOf(rs, Folded(c, rs).value.priority)
    decreases |rs|
  {
    var init, r := rs[..|rs| - 1], rs[|rs| - 1];
    assert rs == init + [r];
    if init == [] {
      if r.wantType == WantBlock {
        assert LastBlock(rs, 0);
      }
    } else {
      PriorityLaw(c, init);
      FlagsAccumulate(c, init);
      FirstBlockOneMore(init, r);
      hide Folded, FirstBlock;
      PriorityOneMore(c, init, r);
    }
  }

  lemma {:induction false} PriorityOneMore(c: Cid, rs: seq<Request>, r: Request)
    requires rs != [] && PriorityOf(rs, Folded(c, rs).value.priority)
    ensures PriorityOf(rs + [r], Folded(c, rs + [r]).value.priority)
  {
    FoldedOneMore(c, rs, r);
    FlagsAccumulate(c, rs);
    FirstBlockOneMore(rs, r);
    var all, first, e := rs + [r], FirstBlock(rs), Folded(c, rs).value;
    hide Folded, FirstBlock;
    if r.wantType == WantBlock {
      assert LastBlock(all, |rs|);
      if first < |rs| {
        assert rs[first] in rs && e.wantType == WantBlock;
        assert all[|rs|] == r;
      } else {
        assert forall q :: q in rs ==> q.wantType == WantHave;
      }
    } else if first < |rs| {
      assert rs[first] in rs && e.wantType == WantBlock;
      if last :| LastBlock(rs, last) {
        assert LastBlock(all, last);
      }
      assert forall j :: 0 <= j < |rs| ==> all[j] == rs[j];
    } else {
      assert forall q :: q in rs ==> q.wantType == WantHave;
    }
  }
}
