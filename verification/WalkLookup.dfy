/** The walker and the resolver agree: what a walk reports at a path is what resolving the path finds. */
module WalkLookup {
  import opened Common
  import opened UnixFs
  import opened FileVisit
  import opened Walk
  import opened WalkTree
  import opened WalkFacts
  import opened Ipld
  import opened Resolver

  // ---------------------------------------------------------------------------------------------
  // Looking names up in a tree

  /** The entries of a directory with the given name, those in further buckets included. */
  function Hits(es: seq<TreeEntry>, sharded: bool, name: string): seq<Tree>
    decreases es
  {
    if es == [] then []
    else
      (if !sharded then if es[0].name == name then [es[0].tree] else []
       else if |es[0].name| > 2 then if es[0].name[2..] == name then [es[0].tree] else []
       else if es[0].tree.Shard? then Hits(es[0].tree.entries, true, name)
       else [])
      + Hits(es[1..], sharded, name)
  }

  function TreeLookup(t: Tree, segs: seq<string>): Option<Tree>
    decreases |segs|
  {
    if segs == [] then Some(t)
    else if !(t.Dir? || t.Shard?) then None
    else
      var hits := Hits(t.entries, t.Shard?, segs[0]);
      if |hits| == 1 then TreeLookup(hits[0], segs[1..]) else None
  }

  /** No name occurs twice in a directory, across all its buckets. */
  ghost predicate Distinct(t: Tree)
    decreases t, 1
  {
    match t
    case Dir(_, _, entries) => Unambiguous(entries, false) && EntriesDistinct(entries)
    case Shard(_, _, entries) => Unambiguous(entries, true) && EntriesDistinct(entries)
    case FileNode(_, _) => true
    case SymlinkNode(_, _, _) => true
  }

  ghost predicate Unambiguous(es: seq<TreeEntry>, sharded: bool) {
    forall name :: |Hits(es, sharded, name)| <= 1
  }

  ghost predicate EntriesDistinct(es: seq<TreeEntry>)
    decreases es, 0
  {
    es != [] ==> Distinct(es[0].tree) && EntriesDistinct(es[1..])
  }

  /** Every block of the tree has a dag-pb cid. */
  ghost predicate DagPbTree(t: Tree)
    decreases t, 1
  {
    && TreeCid(t).codec == DAG_PB
    && match t
       case Dir(_, _, entries) => DagPbEntries(entries)
       case Shard(_, _, entries) => DagPbEntries(entries)
       case FileNode(_, _) => true
       case SymlinkNode(_, _, _) => true
  }

  ghost predicate DagPbEntries(es: seq<TreeEntry>)
    decreases es, 0
  {
    es != [] ==> DagPbTree(es[0].tree) && DagPbEntries(es[1..])
  }

  ghost function PbView(store: Store): map<Cid, PbBlock> {
    map c | c in store :: store[c].pb
  }

  /** A tree that is stored whole, with usable and distinct names. */
  ghost predicate Sound(store: Store, t: Tree) {
    TreeStored(PbView(store), t) && WellNamed(t) && Distinct(t) && DagPbTree(t)
  }

  ghost predicate SoundEntries(store: Store, es: seq<TreeEntry>, sharded: bool) {
    EntriesStored(PbView(store), es) && EntriesWellNamed(es, sharded) && EntriesDistinct(es) && DagPbEntries(es)
  }

  lemma {:induction false} SoundHead(store: Store, es: seq<TreeEntry>, sharded: bool)
    requires SoundEntries(store, es, sharded) && es != []
    ensures Sound(store, es[0].tree) && SoundEntries(store, es[1..], sharded) && EntryNameOk(es[0], sharded)
  {
  }

  lemma {:induction false} SoundInside(store: Store, t: Tree)
    requires Sound(store, t) && (t.Dir? || t.Shard?)
    ensures SoundEntries(store, t.entries, t.Shard?) && Unambiguous(t.entries, t.Shard?)
  {
  }

  lemma {:induction false} SoundBlock(store: Store, t: Tree)
    requires Sound(store, t)
    ensures TreeCid(t) in store && TreeCid(t).codec == DAG_PB && IsTreeBlock(store[TreeCid(t)].pb, t)
  {
    assert PbView(store)[TreeCid(t)] == store[TreeCid(t)].pb;
  }

  lemma {:induction false} HitsAreSound(store: Store, es: seq<TreeEntry>, sharded: bool, name: string)
    requires SoundEntries(store, es, sharded)
    ensures forall t :: t in Hits(es, sharded, name) ==> Sound(store, t)
    decreases es
  {
    if es != [] {
      SoundHead(store, es, sharded);
      hide Sound, SoundEntries;
      HitsAreSound(store, es[1..], sharded, name);
      if sharded && |es[0].name| == 2 {
        SoundInside(store, es[0].tree);
        HitsAreSound(store, es[0].tree.entries, true, name);
      }
    }
  }

  // ---------------------------------------------------------------------------------------------
  // The resolver's lookup in one block

  function Cids(ts: seq<Tree>): seq<Cid> {
    if ts == [] then [] else [TreeCid(ts[0])] + Cids(ts[1..])
  }

  lemma {:induction false} NamedAreHits(links: seq<PbLink>, es: seq<TreeEntry>, name: string)
    requires LinksMatch(links, es)
    ensures |Named(links, name)| == |Hits(es, false, name)|
    ensures forall i :: 0 <= i < |Named(links, name)| ==> Named(links, name)[i].cid == Some(TreeCid(Hits(es, false, name)[i]))
    decreases links
  {
    if links != [] {
      hide TreeCid;
      assert links[0] == PbLink(Some(TreeCid(es[0].tree)), es[0].name);
      assert LinksMatch(links[1..], es[1..]);
      NamedAreHits(links[1..], es[1..], name);
      var named, hits := Named(links, name), Hits(es, false, name);
      if es[0].name == name {
        assert named == [links[0]] + Named(links[1..], name) && hits == [es[0].tree] + Hits(es[1..], false, name);
      } else {
        assert named == Named(links[1..], name) && hits == Hits(es[1..], false, name);
      }
    }
  }

  function Direct(es: seq<TreeEntry>, name: string): seq<Tree> {
    if es == [] then []
    else (if |es[0].name| > 2 && es[0].name[2..] == name then [es[0].tree] else []) + Direct(es[1..], name)
  }

  function Buckets(es: seq<TreeEntry>): seq<Tree> {
    if es == [] then []
    else (if |es[0].name| == 2 && es[0].tree.Shard? then [es[0].tree] else []) + Buckets(es[1..])
  }

  ghost predicate AllShards(ts: seq<Tree>) {
    forall i :: 0 <= i < |ts| ==> ts[i].Shard?
  }

  function QueueHits(ts: seq<Tree>, name: string): seq<Tree>
    requires forall i :: 0 <= i < |ts| ==> ts[i].Shard?
  {
    if ts == [] then [] else Hits(ts[0].entries, true, name) + QueueHits(ts[1..], name)
  }

  lemma {:induction false} BucketsAreSound(store: Store, es: seq<TreeEntry>)
    requires SoundEntries(store, es, true)
    ensures forall t :: t in Buckets(es) ==> t.Shard? && Sound(store, t)
    decreases es
  {
    if es != [] {
      SoundHead(store, es, true);
      hide Sound, SoundEntries;
      BucketsAreSound(store, es[1..]);
    }
  }

  lemma {:induction false} CidsAppend(a: seq<Tree>, b: seq<Tree>)
    ensures Cids(a + b) == Cids(a) + Cids(b)
  {
    if a == [] {
      assert a + b == b;
    } else {
      assert (a + b)[1..] == a[1..] + b;
      CidsAppend(a[1..], b);
    }
  }

  lemma {:induction false} QueueHitsAppend(a: seq<Tree>, b: seq<Tree>, name: string)
    requires AllShards(a) && AllShards(b)
    ensures QueueHits(a + b, name) == QueueHits(a, name) + QueueHits(b, name)
  {
    if a == [] {
      assert a + b == b;
    } else {
      assert (a + b)[1..] == a[1..] + b;
      QueueHitsAppend(a[1..], b, name);
    }
  }

  lemma {:induction false} BucketsAreShards(es: seq<TreeEntry>)
    ensures AllShards(Buckets(es))
  {
    if es != [] {
      BucketsAreShards(es[1..]);
    }
  }

  /** The hits of a shard are its own entries and those of its buckets. */
  lemma {:induction false} HitsSplit(es: seq<TreeEntry>, name: string)
    requires EntriesWellNamed(es, true)
    ensures AllShards(Buckets(es))
    ensures |Hits(es, true, name)| == |Direct(es, name)| + |QueueHits(Buckets(es), name)|
    ensures Direct(es, name) == [] ==> Hits(es, true, name) == QueueHits(Buckets(es), name)
    ensures QueueHits(Buckets(es), name) == [] ==> Hits(es, true, name) == Direct(es, name)
    decreases es
  {
    BucketsAreShards(es);
    if es != [] {
      assert EntryNameOk(es[0], true);
      HitsSplit(es[1..], name);
      if |es[0].name| == 2 {
        assert Buckets(es) == [es[0].tree] + Buckets(es[1..]);
        assert Buckets(es)[1..] == Buckets(es[1..]);
        assert QueueHits(Buckets(es), name) == Hits(es[0].tree.entries, true, name) + QueueHits(Buckets(es[1..]), name);
      } else {
        assert Buckets(es) == Buckets(es[1..]);
      }
    }
  }

  lemma {:induction false} PartitionSplits(links: seq<PbLink>, es: seq<TreeEntry>, name: string, found: Option<Cid>, queue: seq<Cid>)
    requires LinksMatch(links, es) && EntriesWellNamed(es, true)
    requires |Direct(es, name)| <= 1 && (found.Some? ==> Direct(es, name) == [])
    ensures Partition(links, name, found, queue)
            == Parted(if Direct(es, name) == [] then found else Some(TreeCid(Direct(es, name)[0])), queue + Cids(Buckets(es)))
    decreases links
  {
    if links == [] {
      assert queue + [] == queue;
    } else {
      var l := links[0];
      assert l == PbLink(Some(TreeCid(es[0].tree)), es[0].name);
      assert LinksMatch(links[1..], es[1..]);
      assert EntryNameOk(es[0], true) && EntriesWellNamed(es[1..], true);
      if |l.name| > 2 && l.name[2..] == name {
        assert Direct(es, name) == [es[0].tree] + Direct(es[1..], name);
        PartitionSplits(links[1..], es[1..], name, l.cid, queue);
        assert Buckets(es) == Buckets(es[1..]);
      } else if |l.name| == 2 {
        PartitionSplits(links[1..], es[1..], name, found, queue + [l.cid.value]);
        assert Buckets(es) == [es[0].tree] + Buckets(es[1..]);
        assert Buckets(es)[1..] == Buckets(es[1..]);
        Assoc(queue, [l.cid.value], Cids(Buckets(es[1..])));
      } else {
        assert Buckets(es) == Buckets(es[1..]) && Direct(es, name) == Direct(es[1..], name);
        PartitionSplits(links[1..], es[1..], name, found, queue);
      }
    }
  }

  ghost function HitCid(hits: seq<Tree>): Option<Cid> {
    if hits == [] then None else Some(TreeCid(hits[0]))
  }

  lemma {:induction false} CidsEmpty(ts: seq<Tree>)
    ensures Cids(ts) == [] <==> ts == []
  {
  }

  /** One step of a bucket search, for an unambiguous name. */
  lemma {:induction false} BucketStep(store: Store, t: Tree, rest: seq<Tree>, name: string)
    requires t.Shard? && Sound(store, t) && |Direct(t.entries, name)| <= 1
    ensures TreeCid(t) in store && IsTreeBlock(store[t.cid].pb, t)
    ensures var step := ShardLookup(store[t.cid].pb.node, name, Cids(rest));
            if Direct(t.entries, name) != [] then step == To(TreeCid(Direct(t.entries, name)[0]))
            else if rest + Buckets(t.entries) == [] then step == Missing
            else step == SearchIn(Cids(rest + Buckets(t.entries)))
  {
    SoundBlock(store, t);
    SoundInside(store, t);
    hide Sound;
    PartitionSplits(store[t.cid].pb.node.links, t.entries, name, None, Cids(rest));
    hide EntriesStored, EntriesWellNamed, EntriesDistinct, DagPbEntries, LinksMatch;
    CidsAppend(rest, Buckets(t.entries));
    CidsEmpty(rest + Buckets(t.entries));
  }

  lemma {:induction false} QueueUnfolds(queue: seq<Tree>, name: string)
    requires AllShards(queue) && queue != []
    ensures AllShards(queue[1..]) && queue[0].Shard?
    ensures QueueHits(queue, name) == Hits(queue[0].entries, true, name) + QueueHits(queue[1..], name)
  {
  }

  /** Moving on from the head of the queue to its buckets keeps the hit. */
  lemma {:induction false} QueueMovesOn(queue: seq<Tree>, name: string)
    requires AllShards(queue) && queue != [] && queue[0].Shard? && EntriesWellNamed(queue[0].entries, true)
    requires |QueueHits(queue, name)| <= 1
    ensures AllShards(queue[1..] + Buckets(queue[0].entries))
    ensures |Direct(queue[0].entries, name)| <= 1
    ensures Direct(queue[0].entries, name) != [] ==> QueueHits(queue, name) == Direct(queue[0].entries, name)
    ensures Direct(queue[0].entries, name) == [] ==>
              QueueHits(queue[1..] + Buckets(queue[0].entries), name) == QueueHits(queue, name)
  {
    hide EntriesWellNamed, Hits, Direct, Buckets, QueueHits;
    var es, rest := queue[0].entries, queue[1..];
    QueueUnfolds(queue, name);
    HitsSplit(es, name);
    var here, below, later := Direct(es, name), QueueHits(Buckets(es), name), QueueHits(rest, name);
    QueueHitsAppend(rest, Buckets(es), name);
    if here != [] {
      assert here + [] == here;
    } else {
      assert below == [] || later == [];
      assert below + [] == [] + below && later + [] == [] + later;
    }
  }

  /** The head of the queue either holds the hit itself or passes the search on. */
  lemma {:induction false} QueueStep(store: Store, queue: seq<Tree>, name: string)
    requires AllShards(queue) && queue != [] && Sound(store, queue[0])
    requires |QueueHits(queue, name)| <= 1
    ensures AllShards(queue[1..] + Buckets(queue[0].entries))
    ensures forall t :: t in Buckets(queue[0].entries) ==> Sound(store, t)
    ensures |Direct(queue[0].entries, name)| <= 1
    ensures Direct(queue[0].entries, name) != [] ==> QueueHits(queue, name) == Direct(queue[0].entries, name)
    ensures Direct(queue[0].entries, name) == [] ==>
              QueueHits(queue[1..] + Buckets(queue[0].entries), name) == QueueHits(queue, name)
  {
    hide Sound, EntriesStored, EntriesWellNamed, EntriesDistinct, DagPbEntries, Hits, Direct, Buckets, QueueHits;
    QueueUnfolds(queue, name);
    SoundInside(store, queue[0]);
    BucketsAreSound(store, queue[0].entries);
    QueueMovesOn(queue, name);
  }

  /** Searching buckets breadth first finds the entry of that name, wherever it is. */
  lemma {:induction false} SearchFindsTheHit(store: Store, rank: Cid -> nat, queue: seq<Tree>, name: string)
    requires Ranked(store, rank) && AllShards(queue)
    requires forall t :: t in queue ==> Sound(store, t)
    requires |QueueHits(queue, name)| <= 1
    ensures Search(store, rank, Cids(queue), name) == HitCid(QueueHits(queue, name))
    decreases QueueWeight(store, rank, Cids(queue))
  {
    if queue != [] {
      hide Sound, Ranked, ShardLookup, Direct, Buckets, Hits, QueueWeight;
      var t, rest := queue[0], queue[1..];
      var cids := Cids(queue);
      assert t in queue && cids[0] == t.cid && cids[1..] == Cids(rest);
      QueueStep(store, queue, name);
      BucketStep(store, t, rest, name);
      hide QueueHits, Cids, LinksMatch;
      if Direct(t.entries, name) == [] {
        var more := rest + Buckets(t.entries);
        if more == [] {
          assert QueueHits(more, name) == [] by {
            NoHits(name);
          }
        } else {
          SearchShrinks(store, rank, cids, name);
          SearchFindsTheHit(store, rank, more, name);
        }
      }
    }
  }

  lemma {:induction false} NoHits(name: string)
    ensures QueueHits([], name) == [] && Cids([]) == []
  {
  }

  lemma {:induction false} HopInDir(store: Store, rank: Cid -> nat, t: Tree, name: string)
    requires t.Dir? && Sound(store, t)
    ensures TreeCid(t) in store
    ensures Lookup(store[t.cid].pb, name)
            == match HitCid(Hits(t.entries, false, name)) case Some(c) => To(c) case None => Missing
    ensures |Hits(t.entries, false, name)| <= 1
  {
    SoundBlock(store, t);
    SoundInside(store, t);
    hide Sound, Hits, Named;
    NamedAreHits(store[t.cid].pb.node.links, t.entries, name);
    assert |Hits(t.entries, false, name)| <= 1;
  }

  lemma {:induction false} ShardParts(store: Store, t: Tree, name: string)
    requires t.Shard? && Sound(store, t)
    ensures AllShards(Buckets(t.entries)) && forall b :: b in Buckets(t.entries) ==> Sound(store, b)
    ensures |Hits(t.entries, true, name)| <= 1
    ensures |Hits(t.entries, true, name)| == |Direct(t.entries, name)| + |QueueHits(Buckets(t.entries), name)|
    ensures Direct(t.entries, name) == [] ==> Hits(t.entries, true, name) == QueueHits(Buckets(t.entries), name)
    ensures Direct(t.entries, name) != [] ==> Hits(t.entries, true, name) == Direct(t.entries, name)
  {
    SoundInside(store, t);
    hide Sound, Hits, Buckets, Direct, QueueHits;
    assert |Hits(t.entries, true, name)| <= 1;
    BucketsAreSound(store, t.entries);
    HitsSplit(t.entries, name);
  }

  lemma {:induction false} HopInShard(store: Store, rank: Cid -> nat, t: Tree, name: string)
    requires t.Shard? && Sound(store, t) && Ranked(store, rank)
    ensures TreeCid(t) in store
    ensures match Lookup(store[t.cid].pb, name)
            case To(c) => HitCid(Hits(t.entries, true, name)) == Some(c)
            case SearchIn(buckets) => Search(store, rank, buckets, name) == HitCid(Hits(t.entries, true, name))
            case Missing => Hits(t.entries, true, name) == []
            case _ => false
    ensures |Hits(t.entries, true, name)| <= 1
  {
    hide Sound, Hits, Buckets, Direct, Search, Ranked, ShardLookup, LinksMatch, QueueHits, Cids;
    var buckets := Buckets(t.entries);
    ShardParts(store, t, name);
    assert [] + buckets == buckets;
    NoHits(name);
    BucketStep(store, t, [], name);
    if Direct(t.entries, name) == [] {
      SearchFindsTheHit(store, rank, buckets, name);
    }
  }

  ghost predicate HopsTo(hop: Hop, hits: seq<Tree>, segs: seq<string>)
    requires segs != []
  {
    if |hits| == 1 then hop.Jump? && hop.dest == TreeCid(hits[0]) && hop.rest == segs[1..]
    else !hop.Jump? && (hop.Arrive? ==> !hop.node.BlockNode?)
  }

  lemma {:induction false} HopFromDir(store: Store, rank: Cid -> nat, t: Tree, segs: seq<string>)
    requires Ranked(store, rank) && Sound(store, t) && segs != [] && t.Dir?
    ensures HopsTo(OneHop(store, rank, TreeCid(t), segs), Hits(t.entries, false, segs[0]), segs)
  {
    hide Sound, Hits, Search, Ranked, Inside, Lookup;
    SoundBlock(store, t);
    HopInDir(store, rank, t, segs[0]);
  }

  lemma {:induction false} HopFromShard(store: Store, rank: Cid -> nat, t: Tree, segs: seq<string>)
    requires Ranked(store, rank) && Sound(store, t) && segs != [] && t.Shard?
    ensures HopsTo(OneHop(store, rank, TreeCid(t), segs), Hits(t.entries, true, segs[0]), segs)
  {
    hide Sound, Hits, Search, Ranked, Inside, Lookup;
    SoundBlock(store, t);
    HopInShard(store, rank, t, segs[0]);
  }

  lemma {:induction false} HopFromLeaf(store: Store, rank: Cid -> nat, t: Tree, segs: seq<string>)
    requires Ranked(store, rank) && Sound(store, t) && segs != [] && !t.Dir? && !t.Shard?
    ensures HopsTo(OneHop(store, rank, TreeCid(t), segs), [], segs)
  {
    hide Sound, Search, Ranked, Inside;
    SoundBlock(store, t);
  }

  /** One segment below a sound tree: to the entry of that name, or nowhere. */
  lemma {:induction false} HopInTree(store: Store, rank: Cid -> nat, t: Tree, segs: seq<string>)
    requires Ranked(store, rank) && Sound(store, t) && segs != []
    ensures HopsTo(OneHop(store, rank, TreeCid(t), segs), if t.Dir? || t.Shard? then Hits(t.entries, t.Shard?, segs[0]) else [], segs)
  {
    hide Sound, Hits, Ranked, OneHop, HopsTo;
    if t.Dir? {
      HopFromDir(store, rank, t, segs);
    } else if t.Shard? {
      HopFromShard(store, rank, t, segs);
    } else {
      HopFromLeaf(store, rank, t, segs);
    }
  }

  /** Resolving a path below a stored tree finds exactly the entry the path names. */
  lemma {:induction false} ResolveFollowsTheTree(store: Store, rank: Cid -> nat, t: Tree, segs: seq<string>, late: nat)
    requires Ranked(store, rank) && Sound(store, t)
    ensures var answer := Resolve(store, rank, TreeCid(t), segs, late);
            match TreeLookup(t, segs)
            case Some(f) => answer.Found? && answer.node == BlockNode(TreeCid(f)) && answer.inside == []
            case None => answer.Found? ==> !answer.node.BlockNode?
    decreases |segs|
  {
    if segs == [] {
      assert TreeCid(t) in PbView(store);
    } else {
      HopInTree(store, rank, t, segs);
      var hop := OneHop(store, rank, TreeCid(t), segs);
      if hop.Jump? {
        HitsAreSound(store, t.entries, t.Shard?, segs[0]);
        var next := Hits(t.entries, t.Shard?, segs[0])[0];
        JumpsGoDown(store, rank, TreeCid(t), segs);
        hide OneHop, Sound, Hits;
        ResolveFollowsTheTree(store, rank, next, segs[1..], if hop.counted then late else late + 1);
      } else {
        hide OneHop, Sound, Hits;
      }
    }
  }

  // ---------------------------------------------------------------------------------------------
  // The walk's events

  ghost predicate Reported(es: seq<Event>, path: Path, c: Cid) {
    exists e :: e in es && !e.BucketEvent? && e.path == path && e.cid == c
  }

  lemma {:induction false} TopEvent(item: Item, root: bool)
    ensures forall e :: e in TopEvents(item, root) ==> e.path == ItemPath(item) && e.cid == TreeCid(item.tree)
    ensures TopEvents(item, root) != []
    ensures forall e :: e in TopEvents(item, root) ==> (e.BucketEvent? <==> item.tree.Shard? && !root && item.name == "")
  {
    if item.tree.FileNode? {
      var file := item.tree.file;
      assert Segments(file, 0, None) != [];
      hide Segments;
      FileEventsShape(Segments(file, 0, None), true, file.cid, ItemPath(item), item.tree.meta, Size(file));
    }
  }

  lemma {:induction false} EventsSplit(item: Item, root: bool)
    ensures Events(item, root) == TopEvents(item, root)
            + if item.tree.Dir? || item.tree.Shard? then EntryEvents(item.tree.entries, item.tree.Shard?, ItemPath(item)) else []
  {
    hide TopEvents;
  }

  /** Every step but those for buckets reports the entry that its path names. */
  lemma {:induction false} StepsReportEntries(item: Item, root: bool, e: Event) returns (segs: seq<string>)
    requires WellNamed(item.tree) && Distinct(item.tree) && e in Events(item, root) && !e.BucketEvent?
    ensures e.path == ItemPath(item) + segs
    ensures TreeLookup(item.tree, segs).Some? && e.cid == TreeCid(TreeLookup(item.tree, segs).value)
    decreases item.tree, 1
  {
    EventsSplit(item, root);
    TopEvent(item, root);
    hide TopEvents, Events, Hits;
    if e in TopEvents(item, root) {
      segs := [];
      assert ItemPath(item) + [] == ItemPath(item);
    } else {
      var name, tree, rest := EntryStepsReport(item.tree.entries, item.tree.Shard?, ItemPath(item), e);
      segs := [name] + rest;
      Assoc(ItemPath(item), [name], rest);
      assert segs[1..] == rest;
      assert |Hits(item.tree.entries, item.tree.Shard?, name)| <= 1;
      assert Hits(item.tree.entries, item.tree.Shard?, name)[0] == tree;
    }
  }

  lemma {:induction false} EntryStepsReport(es: seq<TreeEntry>, sharded: bool, path: Path, e: Event)
    returns (name: string, tree: Tree, segs: seq<string>)
    requires EntriesWellNamed(es, sharded) && EntriesDistinct(es) && e in EntryEvents(es, sharded, path) && !e.BucketEvent?
    ensures tree in Hits(es, sharded, name)
    ensures e.path == path + [name] + segs
    ensures TreeLookup(tree, segs).Some? && e.cid == TreeCid(TreeLookup(tree, segs).value)
    decreases es, 0
  {
    var item := EntryItem(es[0], sharded, path);
    hide TreeLookup, Events;
    assert EntryNameOk(es[0], sharded);
    if e !in Events(item, false) {
      name, tree, segs := EntryStepsReport(es[1..], sharded, path, e);
    } else if item.name == "" {
      EventsSplit(item, false);
      TopEvent(item, false);
      name, tree, segs := EntryStepsReport(es[0].tree.entries, true, path, e);
    } else {
      segs := StepsReportEntries(item, false, e);
      name, tree := item.name, item.tree;
    }
  }

  /** Every entry a path names is reported by some step. */
  lemma {:induction false} EntriesAreReported(item: Item, root: bool, segs: seq<string>)
    requires WellNamed(item.tree) && TreeLookup(item.tree, segs).Some?
    requires segs != [] || root || item.name != "" || !item.tree.Shard?
    ensures Reported(Events(item, root), ItemPath(item) + segs, TreeCid(TreeLookup(item.tree, segs).value))
    decreases item.tree, 1
  {
    EventsSplit(item, root);
    hide Events, Hits, EntryEvents;
    if segs == [] {
      TopEvent(item, root);
      hide TopEvents;
      var top := TopEvents(item, root)[0];
      assert ItemPath(item) + segs == ItemPath(item);
      assert top in Events(item, root);
    } else {
      hide TopEvents;
      var h := Hits(item.tree.entries, item.tree.Shard?, segs[0])[0];
      HitsAreReported(item.tree.entries, item.tree.Shard?, ItemPath(item), segs[0], h, segs[1..]);
      assert segs == [segs[0]] + segs[1..];
      Assoc(ItemPath(item), [segs[0]], segs[1..]);
      assert forall e :: e in EntryEvents(item.tree.entries, item.tree.Shard?, ItemPath(item)) ==> e in Events(item, root);
    }
  }

  lemma {:induction false} HitsAreReported(es: seq<TreeEntry>, sharded: bool, path: Path, name: string, h: Tree, segs: seq<string>)
    requires EntriesWellNamed(es, sharded) && h in Hits(es, sharded, name) && TreeLookup(h, segs).Some?
    ensures Reported(EntryEvents(es, sharded, path), path + [name] + segs, TreeCid(TreeLookup(h, segs).value))
    decreases es, 0
  {
    hide TreeLookup, Events;
    var item := EntryItem(es[0], sharded, path);
    var head, tail := Events(item, false), EntryEvents(es[1..], sharded, path);
    assert EntryEvents(es, sharded, path) == head + tail;
    assert EntryNameOk(es[0], sharded);
    if h in Hits(es[1..], sharded, name) {
      HitsAreReported(es[1..], sharded, path, name, h, segs);
      assert forall e :: e in tail ==> e in head + tail;
    } else if item.name == "" {
      HitsAreReported(es[0].tree.entries, true, path, name, h, segs);
      EventsSplit(item, false);
      assert forall e :: e in EntryEvents(es[0].tree.entries, true, path) ==> e in head;
      assert forall e :: e in head ==> e in head + tail;
    } else {
      EntriesAreReported(item, false, segs);
      assert forall e :: e in head ==> e in head + tail;
    }
  }

  lemma {:induction false} WithoutBucketsMembers(es: seq<Event>, e: Event)
    ensures e in WithoutBuckets(es) <==> e in es && !e.BucketEvent?
  {
    if es != [] {
      WithoutBucketsMembers(es[1..], e);
    }
  }

  lemma {:induction false} WalkReportsEvents(t: Tree, name: string, e: Event)
    requires !e.BucketEvent?
    ensures e in WalkEvents(t, name) <==> e in Events(Item(t, name, []), true)
  {
    var es := Events(Item(t, name, []), true);
    if t.Shard? && es != [] {
      ReportKeepsTheRest(es[1..], Some(t.cid));
      WithoutBucketsMembers(es[1..], e);
      WithoutBucketsMembers(Report(es[1..], Some(t.cid)), e);
      assert es == [es[0]] + es[1..];
    }
  }

  ghost predicate FindsBlock(answer: Answer, c: Cid) {
    answer.Found? && answer.node == BlockNode(c) && answer.inside == []
  }

  /** For a stored tree with distinct names, plain and sharded directories alike: a walk reports a
      cid at a path if and only if resolving the path finds the block with that cid. */
  lemma {:induction false} WalkAndLookupAgree(store: Store, rank: Cid -> nat, t: Tree, name: string, segs: seq<string>, c: Cid)
    requires Ranked(store, rank) && Sound(store, t)
    ensures Reported(WalkEvents(t, name), PushName([], name) + segs, c)
            <==> FindsBlock(Resolve(store, rank, TreeCid(t), segs, 0), c)
  {
    hide Events, WalkEvents, Resolve, TreeLookup, TreeStored, DagPbTree;
    var item, path := Item(t, name, []), PushName([], name) + segs;
    ResolveFollowsTheTree(store, rank, t, segs, 0);
    if Reported(WalkEvents(t, name), path, c) {
      var e :| e in WalkEvents(t, name) && !e.BucketEvent? && e.path == path && e.cid == c;
      WalkReportsEvents(t, name, e);
      var found := StepsReportEntries(item, true, e);
      assert found == path[|PushName([], name)|..] == segs;
    }
    if TreeLookup(t, segs).Some? {
      EntriesAreReported(item, true, segs);
      var e :| e in Events(item, true) && !e.BucketEvent? && e.path == path && e.cid == TreeCid(TreeLookup(t, segs).value);
      WalkReportsEvents(t, name, e);
    }
  }
}
