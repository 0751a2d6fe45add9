/** The encoded length of a Bitswap message, and how much of its growth is reported. */
module BitswapLength {
  import opened Common
  import opened Bitswap
  import opened CidBytes

  ghost function Pick(w: map<Cid, nat>): (c: Cid)
    requires w != map[]
    ensures c in w
  {
    var c :| c in w;
    c
  }

  ghost function Sum(w: map<Cid, nat>): nat
    decreases |w|
  {
    if w == map[] then 0 else w[Pick(w)] + Sum(w - {Pick(w)})
  }

  /** The sum does not depend on the order in which the map is walked. */
  lemma {:induction false} SumSplit(w: map<Cid, nat>, c: Cid)
    requires c in w
    ensures Sum(w) == w[c] + Sum(w - {c})
    decreases |w|
  {
    var d := Pick(w);
    if c != d {
      SumSplit(w - {d}, c);
      SumSplit(w - {c}, d);
      assert w - {d} - {c} == w - {c} - {d};
    }
  }

  lemma {:induction false} SumUpdate(w: map<Cid, nat>, c: Cid, n: nat)
    ensures Sum(w[c := n]) == Sum(w) - (if c in w then w[c] else 0) + n
  {
    SumSplit(w[c := n], c);
    assert w[c := n] - {c} == w - {c};
    if c in w {
      SumSplit(w, c);
    } else {
      assert w - {c} == w;
    }
  }

  method AddUp(w: map<Cid, nat>) returns (total: nat)
    ensures total == Sum(w)
  {
    total := 0;
    var left := w;
    while left != map[]
      invariant total + Sum(left) == Sum(w)
      decreases |left|
    {
      var c :| c in left;
      SumSplit(left, c);
      total := total + left[c];
      left := left - {c};
    }
  }

  function WantLengths(m: Content): map<Cid, nat> { map c | c in m.wantlist :: EntryLength(m.wantlist[c]) }

  function BlockLengths(m: Content): map<Cid, nat> { map c | c in m.blocks :: |m.blocks[c].data| }

  function PresenceLengths(m: Content): map<Cid, nat> { map c | c in m.presences :: PresenceLength(c, m.presences[c]) }

  ghost function ContentLength(m: Content): nat {
    Sum(BlockLengths(m)) + Sum(PresenceLengths(m)) + Sum(WantLengths(m))
  }

  method EncodedLength(message: BitswapMessage) returns (n: nat)
    ensures n == ContentLength(message.Contents())
  {
    var blocks := AddUp(BlockLengths(message.Contents()));
    var presences := AddUp(PresenceLengths(message.Contents()));
    var wants := AddUp(WantLengths(message.Contents()));
    n := blocks + presences + wants;
  }

  /** The length changes by the merged entry's length less the known one's. */
  lemma {:induction false} AskingChangesLength(m: Content, c: Cid, r: Request)
    ensures var m1 := Ask(m, c, r);
            ContentLength(m1) == ContentLength(m) + EntryLength(m1.wantlist[c]) - (if c in m.wantlist then EntryLength(m.wantlist[c]) else 0)
  {
    hide EntryLength, Merge, PresenceLength;
    var m1 := Ask(m, c, r);
    assert WantLengths(m1) == WantLengths(m)[c := EntryLength(m1.wantlist[c])];
    SumUpdate(WantLengths(m), c, EntryLength(m1.wantlist[c]));
  }

  /** What asking reports is the growth of the message if and only if the cid is new or its entry
      keeps its length. */
  lemma {:induction false} ReportedIsGrowth(m: Content, c: Cid, r: Request)
    ensures ContentLength(Ask(m, c, r)) == ContentLength(m) + Reported(m, c, r)
            <==> c !in m.wantlist || EntryLength(Merge(Some(m.wantlist[c]), c, r)) == EntryLength(m.wantlist[c])
  {
    hide EntryLength, ContentLength;
    AskingChangesLength(m, c, r);
  }

  lemma {:induction false} OneByte()
    ensures VarintLength(1) == 1
  {
  }

  /** Raising the priority of a known want makes the message longer, and nothing is reported. */
  lemma {:induction false} UnreportedGrowth(m: Content, c: Cid)
    requires c in m.wantlist && m.wantlist[c] == Entry(c, 0, WantBlock, false, false)
    ensures var r := Request(1, false, WantBlock, false);
            Reported(m, c, r) == 0 && ContentLength(Ask(m, c, r)) == ContentLength(m) + 2
  {
    hide ContentLength, ToBytes, BytesLength, VarintLength;
    OneByte();
    AskingChangesLength(m, c, Request(1, false, WantBlock, false));
  }
}
