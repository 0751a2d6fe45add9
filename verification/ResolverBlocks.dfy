/** What one segment does in any dag-pb block, said by the block's fields and links. */
module ResolverBlocks {
  import opened Common
  import opened UnixFs
  import opened Ipld
  import opened Resolver

  // ---------------------------------------------------------------------------------------------
  // Links by name

  /** Link `i` is the only one of that name. */
  ghost predicate OnlyNamed(links: seq<PbLink>, name: string, i: nat) {
    i < |links| && forall j :: 0 <= j < |links| ==> (links[j].name == name <==> j == i)
  }

  ghost predicate NoneNamed(links: seq<PbLink>, name: string) {
    forall j :: 0 <= j < |links| ==> links[j].name != name
  }

  lemma {:induction false} NamedNone(links: seq<PbLink>, name: string)
    ensures Named(links, name) == [] <==> NoneNamed(links, name)
  {
    if links != [] {
      NamedNone(links[1..], name);
      assert forall j :: 0 <= j < |links| - 1 ==> links[1..][j] == links[j + 1];
    }
  }

  lemma {:induction false} NamedOnly(links: seq<PbLink>, name: string, i: nat)
    requires OnlyNamed(links, name, i)
    ensures Named(links, name) == [links[i]]
    decreases links
  {
    NamedNone(links[1..], name);
    assert forall j :: 0 <= j < |links| - 1 ==> links[1..][j] == links[j + 1];
    if i > 0 {
      NamedOnly(links[1..], name, i - 1);
    }
  }

  lemma {:induction false} NamedOnce(links: seq<PbLink>, name: string) returns (i: nat)
    requires |Named(links, name)| == 1
    ensures OnlyNamed(links, name, i)
    decreases links
  {
    NamedNone(links[1..], name);
    if links[0].name == name {
      assert Named(links[1..], name) == [];
      assert forall j :: 0 < j < |links| ==> links[j] == links[1..][j - 1];
      i := 0;
    } else {
      var k := NamedOnce(links[1..], name);
      assert forall j :: 0 < j < |links| ==> links[j] == links[1..][j - 1];
      i := k + 1;
    }
  }

  /** Looking a name up among links finds the cid of the only link of that name; several links of the
      name, or one without a cid, are refused. */
  lemma {:induction false} LooksUpTheOnlyName(links: seq<PbLink>, name: string, d: Cid)
    ensures PlainLookup(links, name) == To(d) <==> exists i: nat :: OnlyNamed(links, name, i) && links[i].cid == Some(d)
    ensures PlainLookup(links, name) == Missing <==> NoneNamed(links, name)
    ensures PlainLookup(links, name).To? || PlainLookup(links, name).Missing? || PlainLookup(links, name).Refused?
  {
    hide Named;
    NamedNone(links, name);
    if PlainLookup(links, name) == To(d) {
      var i := NamedOnce(links, name);
      NamedOnly(links, name, i);
    }
    if i: nat :| OnlyNamed(links, name, i) && links[i].cid == Some(d) {
      NamedOnly(links, name, i);
    }
  }

  /** A dag-pb block whose links are looked up by name: without readable UnixFS data, or a directory
      without data and without fields of files or shards. */
  predicate PlainBlock(pb: PbBlock) {
    || pb.NotUnixFs?
    || (&& pb.Parsed? && pb.node.typ == Directory
        && |pb.node.data| == 0 && pb.node.filesize == None && |pb.node.blocksizes| == 0
        && pb.node.hashType == None && pb.node.fanout == None)
  }

  /** One segment in such a block: to the only link of that name; "Data" as the last segment, where no
      link has that name, is the block's data; anything else fails. */
  lemma {:induction false} PlainBlockHops(store: Store, rank: Cid -> nat, cid: Cid, segs: seq<string>, d: Cid)
    requires Ranked(store, rank) && cid in store && cid.codec == DAG_PB && PlainBlock(store[cid].pb) && segs != []
    ensures var links, hop := PbLinks(store[cid].pb), OneHop(store, rank, cid, segs);
            && (hop == Jump(cid, d, segs[1..], true) <==> exists i: nat :: OnlyNamed(links, segs[0], i) && links[i].cid == Some(d))
            && (hop.Jump? ==> hop == Jump(cid, hop.dest, segs[1..], true))
            && (hop == Arrive(DagPbData(cid)) <==> segs == ["Data"] && NoneNamed(links, "Data"))
            && (hop == Blocked(Nowhere(NoEntry, cid, segs[0], segs[1..])) <==> segs != ["Data"] && NoneNamed(links, segs[0]))
            && (hop.Jump? || NoneNamed(links, segs[0]) || hop == Blocked(CannotRead(cid)))
  {
    hide PlainLookup, Search, Inside, OnlyNamed, NoneNamed;
    LooksUpTheOnlyName(PbLinks(store[cid].pb), segs[0], d);
  }

  /** A block that is neither such a block nor a shard: nothing is found below a file, and every other
      block is unsupported. */
  lemma {:induction false} OtherBlockHops(store: Store, rank: Cid -> nat, cid: Cid, segs: seq<string>)
    requires Ranked(store, rank) && cid in store && cid.codec == DAG_PB && segs != []
    requires var pb := store[cid].pb; !PlainBlock(pb) && !(pb.Parsed? && pb.node.typ == HamtShard)
    ensures OneHop(store, rank, cid, segs)
            == if store[cid].pb.Parsed? && store[cid].pb.node.typ == File then Blocked(Nowhere(NoEntry, cid, segs[0], segs[1..]))
               else Blocked(CannotRead(cid))
  {
    hide PlainLookup, Search, Inside;
  }

  // ---------------------------------------------------------------------------------------------
  // Shards

  predicate MatchesEntry(l: PbLink, name: string) { |l.name| > 2 && l.name[2..] == name }

  predicate IsBucketLink(l: PbLink) { |l.name| == 2 }

  /** The cids of the links to further buckets, in order. */
  function BucketCids(links: seq<PbLink>): seq<Cid> {
    if links == [] then []
    else (if IsBucketLink(links[0]) && links[0].cid.Some? then [links[0].cid.value] else []) + BucketCids(links[1..])
  }

  /** Some link of the shard that matters has no cid, or two entries match. */
  ghost predicate Ambiguous(links: seq<PbLink>, name: string) {
    || (exists i :: 0 <= i < |links| && (MatchesEntry(links[i], name) || IsBucketLink(links[i])) && links[i].cid.None?)
    || exists i, j :: 0 <= i < j < |links| && MatchesEntry(links[i], name) && MatchesEntry(links[j], name)
  }

  ghost predicate Matched(links: seq<PbLink>, name: string, d: Cid) {
    exists i :: 0 <= i < |links| && MatchesEntry(links[i], name) && links[i].cid == Some(d)
  }

  lemma {:induction false} MatchedTail(links: seq<PbLink>, name: string, d: Cid)
    requires links != []
    ensures Matched(links, name, d) <==> (MatchesEntry(links[0], name) && links[0].cid == Some(d)) || Matched(links[1..], name, d)
  {
    hide MatchesEntry;
    assert forall i :: 0 <= i < |links| - 1 ==> links[1..][i] == links[i + 1];
    if Matched(links, name, d) {
      var i :| 0 <= i < |links| && MatchesEntry(links[i], name) && links[i].cid == Some(d);
      if i > 0 {
        assert links[1..][i - 1] == links[i];
      }
    }
  }

  ghost predicate AnyMatch(links: seq<PbLink>, name: string) {
    exists i :: 0 <= i < |links| && MatchesEntry(links[i], name)
  }

  lemma {:induction false} AnyMatchTail(links: seq<PbLink>, name: string)
    requires links != []
    ensures AnyMatch(links, name) <==> MatchesEntry(links[0], name) || AnyMatch(links[1..], name)
  {
    hide MatchesEntry;
    assert forall i :: 0 <= i < |links| - 1 ==> links[1..][i] == links[i + 1];
    if AnyMatch(links, name) {
      var i :| 0 <= i < |links| && MatchesEntry(links[i], name);
      if i > 0 {
        assert links[1..][i - 1] == links[i];
      }
    }
  }

  lemma {:induction false} AmbiguousTail(links: seq<PbLink>, name: string)
    requires links != []
    ensures var l := links[0];
            Ambiguous(links, name)
            <==> || ((MatchesEntry(l, name) || IsBucketLink(l)) && l.cid.None?)
                 || (MatchesEntry(l, name) && AnyMatch(links[1..], name))
                 || Ambiguous(links[1..], name)
  {
    hide MatchesEntry, IsBucketLink;
    var rest := links[1..];
    assert forall i :: 0 <= i < |rest| ==> rest[i] == links[i + 1];
    if i :| 0 <= i < |links| && (MatchesEntry(links[i], name) || IsBucketLink(links[i])) && links[i].cid.None? {
      if i > 0 {
        assert rest[i - 1] == links[i];
      }
    }
    if i, j :| 0 <= i < j < |links| && MatchesEntry(links[i], name) && MatchesEntry(links[j], name) {
      assert rest[j - 1] == links[j];
      if i > 0 {
        assert rest[i - 1] == links[i];
      }
    }
  }

  lemma {:induction false} PartitionUnfolds(links: seq<PbLink>, name: string, found: Option<Cid>, queue: seq<Cid>)
    requires links != []
    ensures var l, rest := links[0], links[1..];
            Partition(links, name, found, queue)
            == if MatchesEntry(l, name) then if found.Some? || l.cid.None? then BadPartition else Partition(rest, name, l.cid, queue)
               else if IsBucketLink(l) then if l.cid.None? then BadPartition else Partition(rest, name, found, queue + [l.cid.value])
               else Partition(rest, name, found, queue)
    ensures MatchesEntry(links[0], name) ==> !IsBucketLink(links[0])
  {
  }

  lemma {:induction false} NothingMatches(name: string, d: Cid, found: Option<Cid>, queue: seq<Cid>)
    ensures !Ambiguous([], name) && !AnyMatch([], name) && !Matched([], name, d) && BucketCids([]) == []
    ensures Partition([], name, found, queue) == Parted(found, queue)
  {
  }

  lemma {:induction false} PartitionLaw(links: seq<PbLink>, name: string, found: Option<Cid>, queue: seq<Cid>, d: Cid)
    ensures var p := Partition(links, name, found, queue);
            && (p.BadPartition? <==> Ambiguous(links, name) || (found.Some? && AnyMatch(links, name)))
            && (p.Parted? ==> (p.found == Some(d) <==> found == Some(d) || Matched(links, name, d)))
            && (p.Parted? ==> (p.found.None? <==> found.None? && !AnyMatch(links, name)))
    decreases links
  {
    hide Ambiguous, AnyMatch, Matched, Partition, MatchesEntry, IsBucketLink, BucketCids;
    if links == [] {
      NothingMatches(name, d, found, queue);
    } else {
      var l, rest := links[0], links[1..];
      PartitionUnfolds(links, name, found, queue);
      AmbiguousTail(links, name);
      AnyMatchTail(links, name);
      MatchedTail(links, name, d);
      if MatchesEntry(l, name) {
        PartitionLaw(rest, name, l.cid, queue, d);
      } else if IsBucketLink(l) && l.cid.Some? {
        PartitionLaw(rest, name, found, queue + [l.cid.value], d);
      } else if !IsBucketLink(l) {
        PartitionLaw(rest, name, found, queue, d);
      }
    }
  }

  lemma {:induction false} PartitionQueues(links: seq<PbLink>, name: string, found: Option<Cid>, queue: seq<Cid>)
    requires Partition(links, name, found, queue).Parted?
    ensures Partition(links, name, found, queue).buckets == queue + BucketCids(links)
    decreases links
  {
    hide Partition, MatchesEntry, IsBucketLink;
    if links == [] {
      NothingMatches(name, Cid(V0, 0, 0, []), found, queue);
      assert queue + [] == queue;
    } else {
      var l, rest := links[0], links[1..];
      PartitionUnfolds(links, name, found, queue);
      if MatchesEntry(l, name) {
        PartitionQueues(rest, name, l.cid, queue);
        assert [] + BucketCids(rest) == BucketCids(rest);
      } else if IsBucketLink(l) {
        PartitionQueues(rest, name, found, queue + [l.cid.value]);
        Assoc(queue, [l.cid.value], BucketCids(rest));
      } else {
        PartitionQueues(rest, name, found, queue);
        assert [] + BucketCids(rest) == BucketCids(rest);
      }
    }
  }

  predicate PlainShard(n: Node) {
    n.fanout == Some(256) && n.hashType == Some(34) && n.filesize == None && |n.blocksizes| == 0
  }

  /** One shard: the entry whose name follows the two-character prefix, or else all buckets waiting, those
      of this shard last; ambiguous links and foreign fields are refused. */
  lemma {:induction false} ShardLooksUp(n: Node, name: string, queue: seq<Cid>, d: Cid)
    ensures var step := ShardLookup(n, name, queue);
            var plain := PlainShard(n) && !Ambiguous(n.links, name);
            && (step == Refused <==> !plain)
            && (step == To(d) <==> plain && Matched(n.links, name, d))
            && (step == Missing <==> plain && !AnyMatch(n.links, name) && queue + BucketCids(n.links) == [])
            && (step.SearchIn? <==> plain && !AnyMatch(n.links, name) && queue + BucketCids(n.links) != [])
            && (step.SearchIn? ==> step.buckets == queue + BucketCids(n.links))
            && !step.NotADirectory?
  {
    hide Ambiguous, AnyMatch, Matched, Partition, BucketCids;
    PartitionLaw(n.links, name, None, queue, d);
    var p := Partition(n.links, name, None, queue);
    if p.Parted? {
      PartitionQueues(n.links, name, None, queue);
    }
    if p.Parted? && p.found.Some? {
      PartitionLaw(n.links, name, None, queue, p.found.value);
      MatchedIsAny(n.links, name, p.found.value);
    }
  }

  lemma {:induction false} MatchedIsAny(links: seq<PbLink>, name: string, d: Cid)
    requires Matched(links, name, d)
    ensures AnyMatch(links, name)
  {
  }

  /** A search ends with nothing at the first bucket that is not stored or is no readable shard, and goes
      from each bucket to its entry or to the buckets waiting. */
  lemma {:induction false} SearchSteps(store: Store, rank: Cid -> nat, queue: seq<Cid>, name: string, d: Cid)
    requires Ranked(store, rank) && queue != []
    ensures var c := queue[0];
            var usable := c in store && store[c].pb.Parsed? && store[c].pb.node.typ == HamtShard
                          && PlainShard(store[c].pb.node) && !Ambiguous(store[c].pb.node.links, name);
            && (!usable ==> Search(store, rank, queue, name) == None)
            && (usable && Matched(store[c].pb.node.links, name, d) ==> Search(store, rank, queue, name) == Some(d))
            && (usable && !AnyMatch(store[c].pb.node.links, name) ==>
                  Search(store, rank, queue, name) == Search(store, rank, queue[1..] + BucketCids(store[c].pb.node.links), name))
  {
    hide ShardLookup, Ambiguous, AnyMatch, Matched, BucketCids, PlainShard, QueueWeight;
    var c := queue[0];
    if c in store && store[c].pb.Parsed? {
      ShardLooksUp(store[c].pb.node, name, queue[1..], d);
    }
  }

  /** One segment in a shard: counted to its own entry, uncounted to one found in further buckets. */
  lemma {:induction false} ShardHops(store: Store, rank: Cid -> nat, cid: Cid, segs: seq<string>, d: Cid)
    requires Ranked(store, rank) && cid in store && cid.codec == DAG_PB && segs != []
    requires store[cid].pb.Parsed? && store[cid].pb.node.typ == HamtShard
    ensures var n, name, hop := store[cid].pb.node, segs[0], OneHop(store, rank, cid, segs);
            var plain, below := PlainShard(n) && !Ambiguous(n.links, name), BucketCids(n.links);
            && (hop == Jump(cid, d, segs[1..], true) <==> plain && Matched(n.links, name, d))
            && (hop == Jump(cid, d, segs[1..], false)
                <==> plain && !AnyMatch(n.links, name) && below != [] && Search(store, rank, below, name) == Some(d))
            && (plain && !AnyMatch(n.links, name) && below == [] ==>
                  hop == if segs == ["Data"] then Arrive(DagPbData(cid)) else Blocked(Nowhere(NoEntry, cid, name, segs[1..])))
            && (!plain || (!AnyMatch(n.links, name) && below != [] && Search(store, rank, below, name).None?) ==> hop == Blocked(CannotRead(cid)))
  {
    hide ShardLookup, Ambiguous, AnyMatch, Matched, BucketCids, PlainShard, Search, Inside;
    var n := store[cid].pb.node;
    ShardLooksUp(n, segs[0], [], d);
    assert [] + BucketCids(n.links) == BucketCids(n.links);
    if Matched(n.links, segs[0], d) {
      MatchedIsAny(n.links, segs[0], d);
    }
  }
}
