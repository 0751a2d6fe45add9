/** Whole runs of the repository: what a recursive pin protects, and for how long. */
module RepoRuns {
  import opened Common
  import UnixFs
  import opened Ipld
  import opened Pins
  import opened Refs
  import opened RefsUnique
  import opened Repo

  // ---------------------------------------------------------------------------------------------
  // Pin, then collect

  /** After a successful recursive pin, a cleanup keeps the root and every stored block below it, and
      removes and returns exactly the blocks without a pin. */
  method PinAndCollect(repo: Repository, root: Cid) returns (pinned: Result<(), RepoError>, removed: seq<Cid>)
    requires repo.Valid()
    modifies repo.store, repo.pinStore
    ensures repo.Valid() && PinnedRecursively(old(repo.State()), root, Snapshot(old(repo.store.blocks), repo.pinStore.pins), pinned.Ok?)
    ensures forall c :: c in removed <==> c in old(repo.store.blocks) && c !in repo.pinStore.pins
    ensures repo.store.blocks == old(repo.store.blocks) - set c | c in removed
    ensures pinned.Ok? ==>
              forall c :: c in old(repo.store.blocks) && (c == root || Beneath(old(repo.store.blocks), root, c)) ==> c in repo.store.blocks
  {
    hide Readable, Beneath, AllDecode;
    pinned := repo.InsertRecursivePin(root);
    ghost var blocks, pins := repo.store.blocks, repo.pinStore.pins;
    if pinned.Ok? {
      forall c | c in blocks && (c == root || Beneath(blocks, root, c))
        ensures c in pins
      {
        assert c == root || c in StoredBeneath(blocks, root);
      }
    }
    removed := repo.Cleanup();
  }

  // ---------------------------------------------------------------------------------------------
  // Pin, then unpin

  /** Unpinning right after pinning succeeds if and only if everything below the root is stored; then
      the pins are as before if and only if the root had no pin of its own and no stored block below
      it carried its mark already. */
  method PinAndUnpin(repo: Repository, root: Cid) returns (pinned: Result<(), RepoError>, unpinned: Result<(), RepoError>)
    requires repo.Valid()
    modifies repo.pinStore
    ensures repo.Valid() && repo.store.blocks == old(repo.store.blocks)
    ensures pinned.Ok? ==> (unpinned.Ok? <==> AllStored(repo.store.blocks, root))
    ensures pinned.Ok? && unpinned.Ok? ==>
              (repo.pinStore.pins == old(repo.pinStore.pins) <==> Unmentioned(old(repo.State()), root))
  {
    hide Readable, Beneath, AllDecode, AllStored, StoredBeneath, AllStayPinned, MarkedAmong, UnmarkedAmong, Grown, Shrunk;
    ghost var s := repo.State();
    pinned := repo.InsertRecursivePin(root);
    ghost var t := repo.State();
    unpinned := repo.RemoveRecursivePin(root);
    if pinned.Ok? {
      PinGuards(s, root, t);
      GuardedStayPinned(t, root);
      if unpinned.Ok? {
        RoundTrip(s, root, t, repo.State());
      }
    }
  }

  /** The root's own document holds neither a direct nor a recursive pin, and no stored block below the
      root carries the mark that both versions of the root share. */
  ghost predicate Unmentioned(s: Snapshot, root: Cid)
    requires GoodStore(s.blocks)
  {
    && Doc(s.pins, root).recursive == Not && !Doc(s.pins, root).direct
    && forall c :: c in StoredBeneath(s.blocks, root) ==> ToV1(root) !in Doc(s.pins, c).indirectBy
  }

  /** Marked blocks stay pinned without the root's own pin. */
  lemma {:induction false} GuardedStayPinned(s: Snapshot, root: Cid)
    requires GoodStore(s.blocks) && Guarded(s, root, StoredBeneath(s.blocks, root))
    ensures AllStayPinned(s, root)
  {
    hide StoredBeneath, Readable;
    forall c | c in StoredBeneath(s.blocks, root)
      ensures StaysPinned(s.pins, root, c)
    {
      assert ToV1(root) in Doc(s.pins, c).indirectBy;
    }
  }

  lemma {:induction false} RoundTrip(s: Snapshot, root: Cid, t: Snapshot, u: Snapshot)
    requires GoodStore(s.blocks) && GoodPins(s.pins) && GoodPins(u.pins) && t.blocks == s.blocks
    requires PinnedRecursively(s, root, t, true) && UnpinnedRecursively(t, root, u, true)
    ensures u.pins == s.pins <==> Unmentioned(s, root)
  {
    hide Beneath, AllDecode, AllStored, Readable, Grown, Shrunk, AllStayPinned;
    var below := StoredBeneath(s.blocks, root);
    hide StoredBeneath;
    forall c
      ensures Doc(u.pins, c) == Doc(s.pins, c)
              <==> (c == root ==> Doc(s.pins, c).recursive == Not && !Doc(s.pins, c).direct)
                   && (c in below ==> ToV1(root) !in Doc(s.pins, c).indirectBy)
    {
      MarkThenUnmark(Doc(s.pins, c), c == root, c in below, ToV1(root), |below|);
    }
    SamePins(s.pins, u.pins);
  }

  lemma {:induction false} SamePins(a: Pins, b: Pins)
    requires GoodPins(a) && GoodPins(b)
    ensures a == b <==> forall c :: Doc(a, c) == Doc(b, c)
  {
    if forall c :: Doc(a, c) == Doc(b, c) {
      forall c
        ensures c in a <==> c in b
      {
        assert Doc(a, c) == Doc(b, c);
      }
      forall c | c in a
        ensures a[c] == b[c]
      {
        assert Doc(a, c) == Doc(b, c);
      }
    }
  }

  // ---------------------------------------------------------------------------------------------
  // Any run

  datatype Operation =
    | PutBlock(cid: Cid, block: Block)
    | RemoveBlock(cid: Cid)
    | Pin(cid: Cid, recursive: bool)
    | Unpin(cid: Cid, recursive: bool)
    | Cleanup

  /** A recursively pinned root is stored, and so is everything in `below`, under the root's mark. */
  ghost predicate Guarded(s: Snapshot, root: Cid, below: set<Cid>) {
    && root in s.blocks && Doc(s.pins, root).recursive.Count?
    && forall c :: c in below ==> c in s.blocks && ToV1(root) in Doc(s.pins, c).indirectBy
  }

  /** Unpins the root, under either version of its cid. */
  predicate Releases(op: Operation, root: Cid) {
    op.Unpin? && op.recursive && ToV1(op.cid) == ToV1(root)
  }

  /** What one operation may do to the repository. */
  ghost predicate Step(s: Snapshot, op: Operation, t: Snapshot) {
    match op
    case PutBlock(c, b) => t == s.(blocks := if c in s.blocks then s.blocks else s.blocks[c := b])
    case RemoveBlock(c) => t == s.(blocks := if c in s.pins then s.blocks else s.blocks - {c})
    case Pin(_, _) => t.blocks == s.blocks && Grown(s.pins, t.pins)
    case Unpin(c, recursive) =>
      && t.blocks == s.blocks
      && (if recursive then Shrunk(s.pins, c, t.pins)
          else forall d :: Doc(t.pins, d) == if d == c then Doc(s.pins, d).(direct := false) else Doc(s.pins, d))
    case Cleanup => t == s.(blocks := map c | c in s.blocks && c in s.pins :: s.blocks[c])
  }

  /** The blocks a set of cids names, unchanged. */
  ghost predicate SameBlocks(s: Snapshot, t: Snapshot, cids: set<Cid>) {
    forall c :: c in cids && c in s.blocks ==> c in t.blocks && t.blocks[c] == s.blocks[c]
  }

  /** No operation but unpinning the root ends its protection. */
  lemma {:induction false} StepKeepsGuard(s: Snapshot, op: Operation, t: Snapshot, root: Cid, below: set<Cid>)
    requires Step(s, op, t) && Guarded(s, root, below) && !Releases(op, root)
    ensures Guarded(t, root, below) && SameBlocks(s, t, below + {root})
  {
    forall c | c in below
      ensures c in t.blocks && ToV1(root) in Doc(t.pins, c).indirectBy && c in s.pins
    {
      assert ToV1(root) in Doc(s.pins, c).indirectBy;
    }
    assert root in s.pins;
  }

  method Perform(repo: Repository, op: Operation)
    requires repo.Valid() && (op.PutBlock? && op.block.ipld.Some? ==> Readable(op.cid, op.block.ipld.value))
    modifies repo.store, repo.pinStore
    ensures repo.Valid() && Step(old(repo.State()), op, repo.State())
  {
    hide Readable, Beneath, AllDecode, AllStored;
    match op {
      case PutBlock(c, b) =>
        var _ := repo.PutBlock(c, b);
      case RemoveBlock(c) =>
        var _ := repo.RemoveBlock(c);
        assert c !in old(repo.store.blocks) ==> old(repo.store.blocks) - {c} == old(repo.store.blocks);
      case Pin(c, recursive) =>
        if recursive {
          var _ := repo.InsertRecursivePin(c);
        } else {
          var _ := repo.InsertDirectPin(c);
        }
      case Unpin(c, recursive) =>
        if recursive {
          var _ := repo.RemoveRecursivePin(c);
        } else {
          var _ := repo.RemoveDirectPin(c);
        }
      case Cleanup =>
        var _ := repo.Cleanup();
    }
  }

  ghost predicate Performable(ops: seq<Operation>) {
    forall i :: 0 <= i < |ops| && ops[i].PutBlock? && ops[i].block.ipld.Some? ==> Readable(ops[i].cid, ops[i].block.ipld.value)
  }

  /** A guarded root and everything guarded with it survive any run, cleanups included, in which
      nobody unpins the root under either version of its cid. */
  method Run(repo: Repository, ops: seq<Operation>, ghost root: Cid, ghost below: set<Cid>)
    requires repo.Valid() && Performable(ops)
    modifies repo.store, repo.pinStore
    ensures repo.Valid()
    ensures old(Guarded(repo.State(), root, below)) && (forall i :: 0 <= i < |ops| ==> !Releases(ops[i], root)) ==>
              Guarded(repo.State(), root, below) && SameBlocks(old(repo.State()), repo.State(), below + {root})
  {
    hide Readable, Guarded, Step;
    ghost var safe := Guarded(repo.State(), root, below) && forall i :: 0 <= i < |ops| ==> !Releases(ops[i], root);
    ghost var start := repo.State();
    for i := 0 to |ops|
      invariant repo.Valid()
      invariant safe ==> Guarded(repo.State(), root, below) && SameBlocks(start, repo.State(), below + {root})
    {
      ghost var s := repo.State();
      Perform(repo, ops[i]);
      if safe {
        StepKeepsGuard(s, ops[i], repo.State(), root, below);
      }
    }
  }

  /** A successful recursive pin guards everything stored below the root. */
  lemma {:induction false} PinGuards(s: Snapshot, root: Cid, t: Snapshot)
    requires GoodStore(s.blocks) && PinnedRecursively(s, root, t, true)
    ensures Guarded(t, root, StoredBeneath(s.blocks, root))
  {
    hide Readable, Beneath, AllDecode, Grown;
  }

  /** The pin protects its blocks through any later run without the root's unpinning. */
  method PinThenRun(repo: Repository, root: Cid, ops: seq<Operation>) returns (pinned: Result<(), RepoError>)
    requires repo.Valid() && Performable(ops)
    modifies repo.store, repo.pinStore
    ensures repo.Valid()
    ensures pinned.Ok? && (forall i :: 0 <= i < |ops| ==> !Releases(ops[i], root)) ==>
              SameBlocks(old(repo.State()), repo.State(), old(StoredBeneath(repo.store.blocks, root)) + {root})
  {
    hide Readable, Beneath, AllDecode, AllStored, Guarded, StoredBeneath;
    ghost var below := StoredBeneath(repo.store.blocks, root);
    ghost var s := repo.State();
    pinned := repo.InsertRecursivePin(root);
    if pinned.Ok? {
      PinGuards(s, root, repo.State());
    }
    Run(repo, ops, root, below);
  }

  // ---------------------------------------------------------------------------------------------
  // The two versions of a cid

  /** Unpinning another version of a pinned root takes the mark both share from every block below: a
      block pinned for no other reason is then removed by the next cleanup, with the root still pinned. */
  lemma {:induction false} OtherVersionReleases(s: Snapshot, root: Cid, other: Cid, t: Snapshot, u: Snapshot, c: Cid)
    requires GoodStore(s.blocks) && GoodPins(t.pins)
    requires other != root && ToV1(other) == ToV1(root)
    requires Decodes(s.blocks, other) && Doc(s.pins, other).recursive != Not
    requires UnpinnedRecursively(s, other, t, true) && Step(t, Cleanup, u)
    requires Guarded(s, root, {c}) && c in StoredBeneath(s.blocks, other) && c != root && c != other
    ensures Doc(u.pins, root).recursive.Count? && root in u.blocks
    ensures c in u.blocks <==> Doc(s.pins, c) != PinDoc(false, Not, {ToV1(root)})
  {
    hide Readable, Beneath, AllDecode, AllStored, AllStayPinned;
    var v1, doc := ToV1(root), Doc(s.pins, c);
    assert Doc(t.pins, c) == doc.(indirectBy := doc.indirectBy - {v1});
    assert Doc(t.pins, root).recursive == Doc(s.pins, root).recursive;
    if doc.indirectBy - {v1} == {} {
      assert doc.indirectBy == {v1};
    }
  }

  /** A root with a single link, to a block without links. */
  function OneLink(leaf: Cid): Ipld {
    Map([Field("Links", List([Map([Field("Hash", Link(leaf)), Field("Name", Text("a"))])]))])
  }

  lemma {:induction false} OneLinkLinks(root: Cid, leaf: Cid)
    requires root.codec == DAG_PB
    ensures Readable(root, OneLink(leaf)) && IpldLinks(root, OneLink(leaf)) == [(Some("a"), leaf)]
  {
    var link := Map([Field("Hash", Link(leaf)), Field("Name", Text("a"))]);
    assert Get(link.fields, "Hash") == Some(Link(leaf));
    assert link.fields[1..] == [Field("Name", Text("a"))];
    assert Get(link.fields[1..], "Name") == Some(Text("a"));
    assert Get(link.fields, "Name") == Some(Text("a"));
    assert [link][1..] == [];
    assert DagPbLinks([link]) == [(Some("a"), leaf)] + DagPbLinks([]);
  }

  /** Only the leaf lies below a root with one link to it. */
  lemma {:induction false} OnlyTheLeaf(blocks: Store, root: Cid, leaf: Cid, c: Cid)
    requires GoodStore(blocks) && root.codec == DAG_PB && leaf.codec != DAG_PB
    requires root in blocks && blocks[root].ipld == Some(OneLink(leaf)) && leaf in blocks && blocks[leaf].ipld == Some(Null)
    ensures Beneath(blocks, root, c) <==> c == leaf
  {
    OneLinkLinks(root, leaf);
    hide OneLink, IpldLinks, Readable;
    var ctx, origins := WalkContext(blocks, true), Root(blocks, root);
    assert origins[1..] == [];
    TargetsAre([(Some("a"), leaf)]);
    assert OriginTargets(origins) == {leaf};
    assert Within(ctx, origins, 1, leaf);
    forall n: nat, d | Within(ctx, origins, n, d)
      ensures d == leaf
    {
      LeafWithin(blocks, root, leaf, n, d);
    }
  }

  lemma {:induction false} LeafWithin(blocks: Store, root: Cid, leaf: Cid, n: nat, d: Cid)
    requires GoodStore(blocks) && Decodes(blocks, root) && leaf.codec != DAG_PB && leaf in blocks && blocks[leaf].ipld == Some(Null)
    requires OriginTargets(Root(blocks, root)) == {leaf} && Within(WalkContext(blocks, true), Root(blocks, root), n, d)
    ensures d == leaf
    decreases n
  {
    hide OriginTargets;
    var ctx, origins := WalkContext(blocks, true), Root(blocks, root);
    if d != leaf {
      var p, l :| Within(ctx, origins, n - 1, p) && HasLink(ctx, p, l) && l.1 == d;
      LeafWithin(blocks, root, leaf, n - 1, p);
      assert false;
    }
  }

  /** Two versions of a root over one leaf. */
  ghost predicate TwoVersions(blocks: Store, root: Cid, other: Cid, leaf: Cid) {
    && GoodStore(blocks) && root != other && other == ToV1(root) && leaf != root && leaf != other && leaf in blocks
    && forall r :: r in {root, other} ==>
         Decodes(blocks, r) && StoredBeneath(blocks, r) == {leaf} && AllDecode(blocks, r) && AllStored(blocks, r)
  }

  const PINNED := PinDoc(false, Count(1), {})

  function MarkedBy(c: Cid): PinDoc { PinDoc(false, Not, {c}) }

  lemma {:induction false} PinBoth(blocks: Store, root: Cid, other: Cid, leaf: Cid)
    requires TwoVersions(blocks, root, other, leaf)
    ensures var pins := map[root := PINNED, leaf := MarkedBy(other)];
            && PinnedRecursively(Snapshot(blocks, map[]), root, Snapshot(blocks, pins), true)
            && PinnedRecursively(Snapshot(blocks, pins), other, Snapshot(blocks, pins[other := PINNED]), true)
  {
    hide GoodStore, Beneath, AllDecode, AllStored, StoredBeneath;
    assert root in {root, other} && other in {root, other};
    assert {other} + {other} == {other} && {} + {other} == {other};
  }

  lemma {:induction false} UnpinOne(blocks: Store, root: Cid, other: Cid, leaf: Cid)
    requires TwoVersions(blocks, root, other, leaf)
    ensures var pins := map[root := PINNED, leaf := MarkedBy(other), other := PINNED];
            UnpinnedRecursively(Snapshot(blocks, pins), other, Snapshot(blocks, map[root := PINNED]), true)
  {
    hide GoodStore, Beneath, AllDecode, AllStored, StoredBeneath;
    assert other in {root, other};
    assert {other} - {other} == {};
  }

  /** Two roots with one link each, to the same block without links. */
  lemma {:induction false} RootsOverLeaf(root: Cid, other: Cid, leaf: Cid) returns (blocks: Store)
    requires root.codec == DAG_PB && other.codec == DAG_PB && leaf.codec != DAG_PB
    ensures GoodStore(blocks) && root in blocks && other in blocks && leaf in blocks
    ensures blocks[root].ipld == Some(OneLink(leaf)) && blocks[other].ipld == Some(OneLink(leaf)) && blocks[leaf].ipld == Some(Null)
  {
    hide OneLink, Links;
    OneLinkLinks(root, leaf);
    OneLinkLinks(other, leaf);
    var parent, child := Block(UnixFs.NotDagPb, Some(OneLink(leaf))), Block(UnixFs.NotDagPb, Some(Null));
    blocks := map[root := parent, other := parent, leaf := child];
  }

  lemma {:induction false} LeafBeneath(blocks: Store, root: Cid, leaf: Cid)
    requires GoodStore(blocks) && root.codec == DAG_PB && leaf.codec != DAG_PB
    requires root in blocks && blocks[root].ipld == Some(OneLink(leaf)) && leaf in blocks && blocks[leaf].ipld == Some(Null)
    ensures Decodes(blocks, root) && StoredBeneath(blocks, root) == {leaf} && AllDecode(blocks, root) && AllStored(blocks, root)
  {
    hide Beneath, Readable, OneLink;
    forall c
      ensures Beneath(blocks, root, c) <==> c == leaf
    {
      OnlyTheLeaf(blocks, root, leaf, c);
    }
  }

  lemma {:induction false} ExampleStore() returns (blocks: Store, root: Cid, other: Cid, leaf: Cid)
    ensures TwoVersions(blocks, root, other, leaf)
  {
    hide GoodStore, StoredBeneath, AllDecode, AllStored, Decodes, OneLink;
    root, leaf := Cid(V0, DAG_PB, SHA2_256, [1]), Cid(V1, 0x55, SHA2_256, [2]);
    other := ToV1(root);
    blocks := RootsOverLeaf(root, other, leaf);
    LeafBeneath(blocks, root, leaf);
    LeafBeneath(blocks, other, leaf);
  }

  /** Such a run from a repository without pins: both versions of a root are pinned, one is unpinned,
      and the cleanup removes the block below the root that is still pinned. */
  lemma {:induction false} PinnedBlockIsRemoved()
    returns (root: Cid, other: Cid, leaf: Cid, s: seq<Snapshot>)
    ensures |s| == 5 && GoodStore(s[0].blocks) && s[0].pins == map[] && s[1].blocks == s[2].blocks == s[0].blocks
    ensures PinnedRecursively(s[0], root, s[1], true) && PinnedRecursively(s[1], other, s[2], true)
    ensures UnpinnedRecursively(s[2], other, s[3], true) && Step(s[3], Cleanup, s[4])
    ensures Doc(s[4].pins, root).recursive.Count? && leaf in StoredBeneath(s[0].blocks, root)
    ensures leaf !in s[4].blocks
  {
    var blocks;
    blocks, root, other, leaf := ExampleStore();
    PinBoth(blocks, root, other, leaf);
    UnpinOne(blocks, root, other, leaf);
    assert root in {root, other};
    hide PinnedRecursively, UnpinnedRecursively, StoredBeneath, GoodStore;
    var pins := map[root := PINNED, leaf := MarkedBy(other)];
    var last := map c | c in blocks && c in map[root := PINNED] :: blocks[c];
    s := [Snapshot(blocks, map[]), Snapshot(blocks, pins), Snapshot(blocks, pins[other := PINNED]), Snapshot(blocks, map[root := PINNED]), Snapshot(last, map[root := PINNED])];
  }
}
