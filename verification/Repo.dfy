/** The repository: a block store, the pins, and garbage collection that respects them. */
module Repo {
  import opened Common
  import opened Ipld
  import opened Pins
  import opened Refs
  import opened RefsUnique
  import opened RefsWalk

  // ---------------------------------------------------------------------------------------------
  // The block store

  datatype BlockPut = NewBlock | Existed

  class MemBlockStore {
    var blocks: Store

    constructor ()
      ensures blocks == map[]
    {
      blocks := map[];
    }

    method Put(c: Cid, b: Block) returns (r: BlockPut)
      modifies this
      ensures r == Existed <==> c in old(blocks)
      ensures blocks == if c in old(blocks) then old(blocks) else old(blocks)[c := b]
    {
      if c in blocks {
        return Existed;
      }
      blocks := blocks[c := b];
      r := NewBlock;
    }

    method Remove(c: Cid) returns (r: bool)
      modifies this
      ensures r <==> c in old(blocks)
      ensures blocks == old(blocks) - {c}
    {
      r := c in blocks;
      blocks := blocks - {c};
    }

    /** The stored cids in some order. */
    method List() returns (cids: seq<Cid>)
      ensures Lists(cids, blocks.Keys)
    {
      cids := InSomeOrder(blocks.Keys);
    }
  }

  // ---------------------------------------------------------------------------------------------
  // What lies below a block

  /** The walk can read the links of every document in the store. */
  ghost predicate GoodStore(blocks: Store) {
    forall c :: c in blocks && blocks[c].ipld.Some? ==> Readable(c, blocks[c].ipld.value)
  }

  ghost function WalkContext(blocks: Store, download: bool): (ctx: Context)
    requires GoodStore(blocks)
    ensures ctx.Valid()
  {
    Context(blocks, {}, None, true, download)
  }

  predicate Decodes(blocks: Store, c: Cid) {
    c in blocks && blocks[c].ipld.Some?
  }

  ghost function Root(blocks: Store, root: Cid): (origins: Origins)
    requires GoodStore(blocks) && Decodes(blocks, root)
    ensures ReadableOrigins(origins)
  {
    [(root, blocks[root].ipld.value)]
  }

  /** Reachable from the root's links through documents in the store. */
  ghost predicate Beneath(blocks: Store, root: Cid, c: Cid)
    requires GoodStore(blocks)
  {
    Decodes(blocks, root) && Reached(WalkContext(blocks, true), Root(blocks, root), c)
  }

  lemma {:induction false} SameWithin(blocks: Store, root: Cid, n: nat, c: Cid)
    requires GoodStore(blocks) && Decodes(blocks, root)
    ensures Within(WalkContext(blocks, false), Root(blocks, root), n, c) <==> Within(WalkContext(blocks, true), Root(blocks, root), n, c)
    decreases n
  {
    hide Readable, IpldLinks, OriginTargets;
    var off, on, origins := WalkContext(blocks, false), WalkContext(blocks, true), Root(blocks, root);
    if n > 0 && c !in OriginTargets(origins) {
      forall p, l
        ensures Within(off, origins, n - 1, p) && HasLink(off, p, l) <==> Within(on, origins, n - 1, p) && HasLink(on, p, l)
      {
        SameWithin(blocks, root, n - 1, p);
      }
    }
  }

  /** What lies below does not depend on whether missing blocks are fetched. */
  lemma {:induction false} SameReached(blocks: Store, root: Cid, download: bool, c: Cid)
    requires GoodStore(blocks) && Decodes(blocks, root)
    ensures Reached(WalkContext(blocks, download), Root(blocks, root), c) <==> Beneath(blocks, root, c)
  {
    hide Within;
    if !download {
      forall n: nat
        ensures Within(WalkContext(blocks, false), Root(blocks, root), n, c) <==> Within(WalkContext(blocks, true), Root(blocks, root), n, c)
      {
        SameWithin(blocks, root, n, c);
      }
    }
  }

  ghost predicate AllDecode(blocks: Store, root: Cid)
    requires GoodStore(blocks)
  {
    forall c :: Beneath(blocks, root, c) && c in blocks ==> Decodes(blocks, c)
  }

  ghost predicate AllStored(blocks: Store, root: Cid)
    requires GoodStore(blocks)
  {
    forall c :: Beneath(blocks, root, c) ==> c in blocks
  }

  function ToReferences(items: seq<RefItem>): (refs: References)
    ensures |refs| == |items|
    ensures forall i :: 0 <= i < |items| ==> refs[i] == if items[i].Edge? then Ok(items[i].destination) else Err(BadReference)
  {
    if items == [] then []
    else [if items[0].Edge? then Ok(items[0].destination) else Err(BadReference)] + ToReferences(items[1..])
  }

  ghost function StoredBeneath(blocks: Store, root: Cid): set<Cid>
    requires GoodStore(blocks)
  {
    set c | c in blocks && Beneath(blocks, root, c)
  }

  /** The references a walk gives: stored blocks below the root, each once; all of them, and without
      error, exactly when everything below that the walk meets decodes and, if nothing is fetched, is
      stored. */
  ghost predicate Complete(blocks: Store, root: Cid, download: bool, refs: References)
    requires GoodStore(blocks)
  {
    && (UpToError(refs) == |refs| <==> AllDecode(blocks, root) && (download || AllStored(blocks, root)))
    && (forall c :: Ok(c) in refs ==> c in StoredBeneath(blocks, root))
    && (UpToError(refs) == |refs| ==> (forall c :: c in StoredBeneath(blocks, root) ==> Ok(c) in refs) && Distinct(refs))
  }

  /** What the walk says of the blocks below the root. */
  lemma {:induction false} WalkedBeneath(blocks: Store, root: Cid, download: bool, items: seq<RefItem>, depths: seq<nat>, stopped: bool)
    requires GoodStore(blocks) && Decodes(blocks, root)
    requires BreadthFirst(WalkContext(blocks, download), Root(blocks, root), items, depths, stopped)
    ensures stopped <==> !download && !AllStored(blocks, root)
    ensures !stopped ==> forall c :: c in StoredBeneath(blocks, root) ==> exists i :: 0 <= i < |items| && About(items[i]) == c
    ensures forall i :: 0 <= i < |items| ==> Beneath(blocks, root, About(items[i])) && (items[i].Edge? <==> Decodes(blocks, About(items[i])))
    ensures stopped ==> items != [] && !items[|items| - 1].Edge?
    ensures forall i, j :: 0 <= i < j < |items| ==> About(items[i]) != About(items[j])
  {
    hide Within, Readable, IpldLinks, RealEdge, Beneath, Reached;
    var ctx, origins := WalkContext(blocks, download), Root(blocks, root);
    forall c
      ensures Reached(ctx, origins, c) <==> Beneath(blocks, root, c)
    {
      SameReached(blocks, root, download, c);
    }
    assert forall i :: 0 <= i < |items| ==> Report(ctx, origins, items[i], depths[i]);
    if !stopped {
      forall c | c in StoredBeneath(blocks, root)
        ensures exists i :: 0 <= i < |items| && About(items[i]) == c
      {
        var it :| it in items && About(it) == c;
        var i :| 0 <= i < |items| && items[i] == it;
      }
    }
  }

  lemma {:induction false} ReferencesAre(items: seq<RefItem>, c: Cid)
    ensures Ok(c) in ToReferences(items) <==> exists i :: 0 <= i < |items| && items[i].Edge? && About(items[i]) == c
  {
    var refs := ToReferences(items);
    if Ok(c) in refs {
      var i :| 0 <= i < |refs| && refs[i] == Ok(c);
      assert items[i].Edge?;
    }
    if i :| 0 <= i < |items| && items[i].Edge? && About(items[i]) == c {
      assert refs[i] == Ok(c);
    }
  }

  lemma {:induction false} AllOk(items: seq<RefItem>)
    ensures UpToError(ToReferences(items)) == |items| <==> forall i :: 0 <= i < |items| ==> items[i].Edge?
  {
  }

  lemma {:induction false} AllEdges(blocks: Store, root: Cid, download: bool, items: seq<RefItem>, stopped: bool)
    requires GoodStore(blocks)
    requires stopped <==> !download && !AllStored(blocks, root)
    requires !stopped ==> forall c :: c in StoredBeneath(blocks, root) ==> exists i :: 0 <= i < |items| && About(items[i]) == c
    requires forall i :: 0 <= i < |items| ==> Beneath(blocks, root, About(items[i])) && (items[i].Edge? <==> Decodes(blocks, About(items[i])))
    requires stopped ==> items != [] && !items[|items| - 1].Edge?
    requires !stopped && download ==> forall i :: 0 <= i < |items| ==> About(items[i]) in blocks
    ensures (forall i :: 0 <= i < |items| ==> items[i].Edge?) <==> AllDecode(blocks, root) && (download || AllStored(blocks, root))
  {
    hide Beneath;
    if !stopped && forall i :: 0 <= i < |items| ==> items[i].Edge? {
      forall c | Beneath(blocks, root, c) && c in blocks
        ensures Decodes(blocks, c)
      {
        assert c in StoredBeneath(blocks, root);
        var i :| 0 <= i < |items| && About(items[i]) == c;
        assert items[i].Edge?;
      }
    }
  }

  lemma {:induction false} WalkedStored(blocks: Store, root: Cid, download: bool, items: seq<RefItem>, depths: seq<nat>, stopped: bool)
    requires GoodStore(blocks) && Decodes(blocks, root)
    requires BreadthFirst(WalkContext(blocks, download), Root(blocks, root), items, depths, stopped) && !stopped
    ensures forall i :: 0 <= i < |items| ==> About(items[i]) in blocks
  {
    hide Within, Readable, IpldLinks, RealEdge, Reached, Report;
    forall i | 0 <= i < |items|
      ensures About(items[i]) in blocks
    {
      var c := About(items[i]);
      assert items[i] in items;
      assert Reached(WalkContext(blocks, download), Root(blocks, root), c) && WalkContext(blocks, download).Loads(c);
    }
  }

  lemma {:induction false} RefsAreComplete(blocks: Store, root: Cid, download: bool, items: seq<RefItem>, depths: seq<nat>, stopped: bool)
    requires GoodStore(blocks) && Decodes(blocks, root)
    requires BreadthFirst(WalkContext(blocks, download), Root(blocks, root), items, depths, stopped)
    ensures Complete(blocks, root, download, ToReferences(items))
  {
    hide Beneath, AllDecode, AllStored, BreadthFirst, Readable;
    var refs := ToReferences(items);
    WalkedBeneath(blocks, root, download, items, depths, stopped);
    if !stopped {
      WalkedStored(blocks, root, download, items, depths, stopped);
    }
    AllEdges(blocks, root, download, items, stopped);
    AllOk(items);
    forall c | Ok(c) in refs
      ensures c in StoredBeneath(blocks, root)
    {
      ReferencesAre(items, c);
    }
    if UpToError(refs) == |refs| {
      forall c | c in StoredBeneath(blocks, root)
        ensures Ok(c) in refs
      {
        ReferencesAre(items, c);
        var i :| 0 <= i < |items| && About(items[i]) == c;
        assert items[i].Edge?;
      }
    }
  }

  lemma {:induction false} DistinctSize(refs: References, cids: set<Cid>)
    requires forall i :: 0 <= i < |refs| ==> refs[i].Ok?
    requires forall c :: Ok(c) in refs <==> c in cids
    requires Distinct(refs)
    ensures |refs| == |cids|
    decreases refs
  {
    if refs == [] {
      assert forall c :: c in cids ==> Ok(c) in refs;
      assert cids == {};
    } else {
      var c := refs[0].value;
      assert refs[0] == Ok(c);
      forall d
        ensures Ok(d) in refs[1..] <==> d in cids - {c}
      {
        if Ok(d) in refs[1..] {
          var i :| 0 <= i < |refs| - 1 && refs[1..][i] == Ok(d);
          assert refs[i + 1] == Ok(d) && Ok(d) in refs;
        }
        if d in cids - {c} {
          var i :| 0 <= i < |refs| && refs[i] == Ok(d);
          assert refs[1..][i - 1] == Ok(d);
        }
      }
      DistinctSize(refs[1..], cids - {c});
    }
  }

  // ---------------------------------------------------------------------------------------------
  // What the operations do

  datatype RepoError = NotFound | NotDecodable | BlockIsPinned | PinFailed(error: PinError)

  datatype Snapshot = Snapshot(blocks: Store, pins: Pins)

  /** Pins are only added. */
  ghost predicate Grown(s: Pins, t: Pins) {
    forall c :: Doc(s, c).indirectBy <= Doc(t, c).indirectBy && (Doc(s, c).recursive.Count? ==> Doc(t, c).recursive == Doc(s, c).recursive)
  }

  /** The documents after marking `marked`, some of the stored blocks below the root. */
  ghost predicate MarkedAmong(s: Snapshot, root: Cid, marked: set<Cid>, t: Pins, state: Recursive)
    requires GoodStore(s.blocks)
  {
    && marked <= StoredBeneath(s.blocks, root)
    && forall c :: Doc(t, c) == Marked(Doc(s.pins, c), c == root, c in marked, ToV1(root), state)
  }

  /** Recursively pinning a root succeeds exactly when the root is stored, decodes and is not yet pinned
      so, and every stored block below it decodes; then the root has its pin and all stored blocks
      below carry its mark. It fails without a trace on the root itself, and otherwise leaves an
      intention and some of the marks. */
  ghost predicate PinnedRecursively(s: Snapshot, root: Cid, t: Snapshot, ok: bool)
    requires GoodStore(s.blocks)
  {
    var below := StoredBeneath(s.blocks, root);
    && t.blocks == s.blocks && Grown(s.pins, t.pins)
    && (ok <==> Decodes(s.blocks, root) && !Doc(s.pins, root).recursive.Count? && AllDecode(s.blocks, root))
    && (ok ==> MarkedAmong(s, root, below, t.pins, Count(|below|)))
    && (!ok ==> if Decodes(s.blocks, root) && !Doc(s.pins, root).recursive.Count?
                then exists marked :: MarkedAmong(s, root, marked, t.pins, Intent)
                else t.pins == s.pins)
  }

  /** Only the mark of `root`, its own recursive pin, or a direct pin on it is taken away. */
  ghost predicate Shrunk(s: Pins, root: Cid, t: Pins) {
    forall c ::
      && Doc(s, c).indirectBy - {ToV1(root)} <= Doc(t, c).indirectBy <= Doc(s, c).indirectBy
      && (c != root ==> Doc(t, c).recursive == Doc(s, c).recursive && Doc(t, c).direct == Doc(s, c).direct)
  }

  ghost predicate UnmarkedAmong(s: Snapshot, root: Cid, unmarked: set<Cid>, t: Pins)
    requires GoodStore(s.blocks)
  {
    && unmarked <= StoredBeneath(s.blocks, root)
    && forall c :: Doc(t, c) == Unmarked(Doc(s.pins, c), c == root, c in unmarked, ToV1(root))
  }

  /** Every stored block below the root is pinned for some reason besides the root's own pin. */
  ghost predicate AllStayPinned(s: Snapshot, root: Cid)
    requires GoodStore(s.blocks)
  {
    forall c :: c in StoredBeneath(s.blocks, root) ==> StaysPinned(s.pins, root, c)
  }

  /** Unpinning a recursively pinned root succeeds exactly when everything below it is stored, decodes
      and is pinned, and then takes all its marks; otherwise the root's pin and some of the marks are
      gone. A root with only a direct pin loses that; any other is left alone. */
  ghost predicate UnpinnedRecursively(s: Snapshot, root: Cid, t: Snapshot, ok: bool)
    requires GoodStore(s.blocks)
  {
    var was, below := Doc(s.pins, root), StoredBeneath(s.blocks, root);
    && t.blocks == s.blocks && Shrunk(s.pins, root, t.pins)
    && if !Decodes(s.blocks, root) then !ok && t.pins == s.pins
       else if was.recursive != Not then
         && (ok <==> AllDecode(s.blocks, root) && AllStored(s.blocks, root) && AllStayPinned(s, root))
         && (ok ==> UnmarkedAmong(s, root, below, t.pins))
         && (!ok ==> exists unmarked :: UnmarkedAmong(s, root, unmarked, t.pins))
       else if was.direct && was.indirectBy == {} then ok && forall c :: Doc(t.pins, c) == if c == root then UNPINNED else Doc(s.pins, c)
       else !ok && t.pins == s.pins
  }

  // ---------------------------------------------------------------------------------------------
  // From references to blocks

  ghost function Referred(refs: References, n: nat): set<Cid>
    requires n <= |refs|
  {
    set r | r in refs[..n] && r.Ok? :: r.value
  }

  lemma {:induction false} ReferredAre(refs: References, n: nat, c: Cid)
    requires n <= |refs|
    ensures c in Referred(refs, n) <==> Refers(refs, n, c)
    ensures c in Referred(refs, n) ==> Ok(c) in refs
  {
    if Refers(refs, n, c) {
      assert Ok(c) in refs[..n] && Result<Cid, PinError>.Ok(c).value == c;
    }
  }

  lemma {:induction false} ReferredBeneath(blocks: Store, root: Cid, download: bool, refs: References, n: nat)
    requires GoodStore(blocks) && Complete(blocks, root, download, refs) && n <= |refs|
    ensures Referred(refs, n) <= StoredBeneath(blocks, root)
    ensures n == |refs| == UpToError(refs) ==> Referred(refs, n) == StoredBeneath(blocks, root)
  {
    hide Referred, StoredBeneath, AllDecode, AllStored;
    forall c | c in Referred(refs, n)
      ensures c in StoredBeneath(blocks, root)
    {
      ReferredAre(refs, n, c);
    }
    if n == |refs| == UpToError(refs) {
      forall c | c in StoredBeneath(blocks, root)
        ensures c in Referred(refs, n)
      {
        assert refs[..n] == refs;
        ReferredAre(refs, n, c);
      }
    }
  }

  lemma {:induction false} CompleteSize(blocks: Store, root: Cid, download: bool, refs: References)
    requires GoodStore(blocks) && Complete(blocks, root, download, refs) && UpToError(refs) == |refs|
    ensures |refs| == |StoredBeneath(blocks, root)|
  {
    hide StoredBeneath, AllDecode, AllStored;
    DistinctSize(refs, StoredBeneath(blocks, root));
  }

  lemma {:induction false} MarkedReferences(s: Snapshot, root: Cid, refs: References, n: nat, t: Pins, state: Recursive)
    requires GoodStore(s.blocks) && n <= |refs| && MarkedUpTo(s.pins, t, root, refs, n, state)
    requires Referred(refs, n) <= StoredBeneath(s.blocks, root)
    ensures MarkedAmong(s, root, Referred(refs, n), t, state)
  {
    hide Referred, StoredBeneath, Marked, Refers;
    forall c
      ensures Doc(t, c) == Marked(Doc(s.pins, c), c == root, c in Referred(refs, n), ToV1(root), state)
    {
      ReferredAre(refs, n, c);
    }
  }

  lemma {:induction false} UnmarkedReferences(s: Snapshot, root: Cid, refs: References, n: nat, t: Pins)
    requires GoodStore(s.blocks) && n <= |refs| && UnmarkedUpTo(s.pins, t, root, refs, n)
    requires Referred(refs, n) <= StoredBeneath(s.blocks, root)
    ensures UnmarkedAmong(s, root, Referred(refs, n), t)
  {
    hide Referred, StoredBeneath, Unmarked, Refers;
    forall c
      ensures Doc(t, c) == Unmarked(Doc(s.pins, c), c == root, c in Referred(refs, n), ToV1(root))
    {
      ReferredAre(refs, n, c);
    }
  }

  lemma {:induction false} MarkingGrows(s: Snapshot, root: Cid, marked: set<Cid>, t: Pins, state: Recursive)
    requires GoodStore(s.blocks) && MarkedAmong(s, root, marked, t, state) && !Doc(s.pins, root).recursive.Count?
    ensures Grown(s.pins, t)
  {
    hide StoredBeneath;
    forall c
      ensures Doc(s.pins, c).indirectBy <= Doc(t, c).indirectBy && (Doc(s.pins, c).recursive.Count? ==> Doc(t, c).recursive == Doc(s.pins, c).recursive)
    {
    }
  }

  lemma {:induction false} UnmarkingShrinks(s: Snapshot, root: Cid, unmarked: set<Cid>, t: Pins)
    requires GoodStore(s.blocks) && UnmarkedAmong(s, root, unmarked, t)
    ensures Shrunk(s.pins, root, t)
  {
    hide StoredBeneath;
  }

  lemma {:induction false} PinsComplete(s: Snapshot, root: Cid, refs: References, t: Snapshot, ok: bool)
    requires GoodStore(s.blocks) && Decodes(s.blocks, root) && Complete(s.blocks, root, true, refs) && t.blocks == s.blocks
    requires InsertedRecursively(s.pins, root, refs, t.pins, ok)
    ensures PinnedRecursively(s, root, t, ok)
  {
    hide StoredBeneath, AllDecode, AllStored, MarkedUpTo, MarkedAmong, Referred, Grown, Distinct;
    if Doc(s.pins, root).recursive.Count? {
      SameIsGrown(s.pins);
    } else {
      var n, state := UpToError(refs), if ok then Count(|refs|) else Intent;
      ReferredBeneath(s.blocks, root, true, refs, n);
      MarkedReferences(s, root, refs, n, t.pins, state);
      MarkingGrows(s, root, Referred(refs, n), t.pins, state);
      if ok {
        CompleteSize(s.blocks, root, true, refs);
      }
    }
  }

  lemma {:induction false} SameIsGrown(pins: Pins)
    ensures Grown(pins, pins)
  {
  }

  lemma {:induction false} SameIsShrunk(pins: Pins, root: Cid)
    ensures Shrunk(pins, root, pins)
  {
  }

  lemma {:induction false} StayPinned(s: Snapshot, root: Cid, refs: References)
    requires GoodStore(s.blocks) && Complete(s.blocks, root, false, refs) && UpToError(refs) == |refs|
    ensures Unpinned(s.pins, root, refs, 0) == |refs| <==> AllStayPinned(s, root)
  {
    hide StoredBeneath, AllDecode, AllStored, StaysPinned;
    UnpinsAll(s.pins, root, refs, 0);
    if AllStayPinned(s, root) {
      forall k | 0 <= k < |refs|
        ensures StaysPinned(s.pins, root, refs[k].value)
      {
        assert refs[k] in refs;
      }
    }
    if forall k :: 0 <= k < |refs| ==> StaysPinned(s.pins, root, refs[k].value) {
      forall c | c in StoredBeneath(s.blocks, root)
        ensures StaysPinned(s.pins, root, c)
      {
        var k :| 0 <= k < |refs| && refs[k] == Ok(c);
        assert refs[k].value == c;
      }
    }
  }

  lemma {:induction false} UnpinsComplete(s: Snapshot, root: Cid, refs: References, t: Snapshot, ok: bool)
    requires GoodStore(s.blocks) && Decodes(s.blocks, root) && Complete(s.blocks, root, false, refs) && t.blocks == s.blocks
    requires RemovedRecursively(s.pins, root, refs, t.pins, ok) && Doc(s.pins, root).recursive != Not
    ensures UnpinnedRecursively(s, root, t, ok)
  {
    hide StoredBeneath, AllDecode, AllStored, AllStayPinned, UnmarkedUpTo, UnmarkedAmong, Referred, Shrunk, Distinct, Unpinned;
    var n := Unpinned(s.pins, root, refs, 0);
    UnpinsUpToError(s.pins, root, refs, 0);
    ReferredBeneath(s.blocks, root, false, refs, n);
    UnmarkedReferences(s, root, refs, n, t.pins);
    UnmarkingShrinks(s, root, Referred(refs, n), t.pins);
    if UpToError(refs) == |refs| {
      StayPinned(s, root, refs);
    }
  }

  lemma {:induction false} UnpinsOthers(s: Snapshot, root: Cid, refs: References, t: Snapshot, ok: bool)
    requires GoodStore(s.blocks) && Decodes(s.blocks, root) && t.blocks == s.blocks
    requires RemovedRecursively(s.pins, root, refs, t.pins, ok) && Doc(s.pins, root).recursive == Not
    ensures UnpinnedRecursively(s, root, t, ok)
  {
    hide StoredBeneath, Unpinned;
  }

  class Repository {
    const store: MemBlockStore
    const pinStore: MemPinStore

    ghost predicate Valid()
      reads this, store, pinStore
    {
      pinStore.Valid() && GoodStore(store.blocks)
    }

    ghost function State(): Snapshot
      reads this, store, pinStore
    {
      Snapshot(store.blocks, pinStore.pins)
    }

    constructor ()
      ensures Valid() && fresh(store) && fresh(pinStore)
      ensures State() == Snapshot(map[], map[])
    {
      store := new MemBlockStore();
      pinStore := new MemPinStore();
    }

    /** The references of a root, as the pinning code streams them. */
    method References(root: Cid, download: bool) returns (refs: References)
      requires Valid() && Decodes(store.blocks, root)
      ensures Complete(store.blocks, root, download, refs)
    {
      hide Readable;
      ghost var ctx := WalkContext(store.blocks, download);
      var items, stopped, depths := UniqueRefs(Context(store.blocks, {}, None, true, download), [(root, store.blocks[root].ipld.value)]);
      RefsAreComplete(store.blocks, root, download, items, depths, stopped);
      refs := ToReferences(items);
    }

    method InsertDirectPin(c: Cid) returns (r: Result<(), RepoError>)
      requires Valid()
      modifies pinStore
      ensures Valid() && store.blocks == old(store.blocks)
      ensures r.Ok? <==> c in store.blocks && Doc(old(pinStore.pins), c).recursive == Not
      ensures forall d :: Doc(pinStore.pins, d)
                          == if r.Ok? && d == c then Doc(old(pinStore.pins), d).(direct := true) else Doc(old(pinStore.pins), d)
      ensures r.Err? ==> r.error == if c !in store.blocks then NotFound else PinFailed(AlreadyPinnedRecursive)
    {
      if c !in store.blocks {
        return Err(NotFound);
      }
      var done := pinStore.InsertDirect(c);
      r := if done.Ok? then Ok(()) else Err(PinFailed(done.error));
    }

    method InsertRecursivePin(root: Cid) returns (r: Result<(), RepoError>)
      requires Valid()
      modifies pinStore
      ensures Valid() && PinnedRecursively(old(State()), root, State(), r.Ok?)
      ensures root !in store.blocks ==> r == Err(NotFound)
      ensures root in store.blocks && !Decodes(store.blocks, root) ==> r == Err(NotDecodable)
      ensures Decodes(store.blocks, root) && Doc(old(pinStore.pins), root).recursive.Count? ==> r == Err(PinFailed(AlreadyPinnedRecursive))
    {
      hide Beneath, AllDecode, AllStored, StoredBeneath, GoodStore, GoodPins, Complete, MarkedAmong, InsertedRecursively, Readable;
      ghost var before := State();
      SameIsGrown(before.pins);
      if root !in store.blocks {
        return Err(NotFound);
      }
      if store.blocks[root].ipld.None? {
        return Err(NotDecodable);
      }
      var refs := References(root, true);
      var done := pinStore.InsertRecursive(root, refs);
      PinsComplete(before, root, refs, State(), done.Ok?);
      r := if done.Ok? then Ok(()) else Err(PinFailed(done.error));
    }

    method RemoveDirectPin(c: Cid) returns (r: Result<(), RepoError>)
      requires Valid()
      modifies pinStore
      ensures Valid() && store.blocks == old(store.blocks)
      ensures forall d :: Doc(pinStore.pins, d) == if d == c then Doc(old(pinStore.pins), d).(direct := false) else Doc(old(pinStore.pins), d)
      ensures r.Ok? <==> Doc(old(pinStore.pins), c).direct
      ensures r.Err? ==>
                r.error == PinFailed(if c !in old(pinStore.pins) then NotPinned
                                     else if old(pinStore.pins)[c].recursive == Not then CannotUnpinUnpinned
                                     else CannotUnpinDirectOnRecursivelyPinned)
    {
      var done := pinStore.RemoveDirect(c);
      r := if done.Ok? then Ok(()) else Err(PinFailed(done.error));
    }

    method RemoveRecursivePin(root: Cid) returns (r: Result<(), RepoError>)
      requires Valid()
      modifies pinStore
      ensures Valid() && UnpinnedRecursively(old(State()), root, State(), r.Ok?)
      ensures root !in store.blocks ==> r == Err(NotFound)
      ensures root in store.blocks && !Decodes(store.blocks, root) ==> r == Err(NotDecodable)
      ensures r.Err? && Decodes(store.blocks, root) && Doc(old(pinStore.pins), root).recursive == Not ==> r == Err(PinFailed(PinnedIndirectly))
    {
      hide Beneath, AllDecode, AllStored, StoredBeneath, GoodStore, GoodPins, Complete, UnmarkedAmong, RemovedRecursively, Readable,
        AllStayPinned;
      ghost var before := State();
      SameIsShrunk(before.pins, root);
      if root !in store.blocks {
        return Err(NotFound);
      }
      if store.blocks[root].ipld.None? {
        return Err(NotDecodable);
      }
      var refs := References(root, false);
      var done := pinStore.RemoveRecursive(root, refs);
      if Doc(before.pins, root).recursive != Not {
        UnpinsComplete(before, root, refs, State(), done.Ok?);
      } else {
        UnpinsOthers(before, root, refs, State(), done.Ok?);
      }
      r := if done.Ok? then Ok(()) else Err(PinFailed(done.error));
    }

    method PutBlock(c: Cid, b: Block) returns (r: BlockPut)
      requires Valid() && (b.ipld.Some? ==> Readable(c, b.ipld.value))
      modifies store
      ensures Valid() && pinStore.pins == old(pinStore.pins)
      ensures r == if c in old(store.blocks) then Existed else NewBlock
      ensures store.blocks == if c in old(store.blocks) then old(store.blocks) else old(store.blocks)[c := b]
    {
      hide Readable;
      r := store.Put(c, b);
    }

    method RemoveBlock(c: Cid) returns (r: Result<Cid, RepoError>)
      requires Valid()
      modifies store
      ensures Valid() && pinStore.pins == old(pinStore.pins)
      ensures r == if c in pinStore.pins then Err(BlockIsPinned) else if c in old(store.blocks) then Ok(c) else Err(NotFound)
      ensures store.blocks == if r.Ok? then old(store.blocks) - {c} else old(store.blocks)
    {
      hide Readable;
      var pinned := pinStore.IsPinned(c);
      if pinned {
        return Err(BlockIsPinned);
      }
      var removed := store.Remove(c);
      r := if removed then Ok(c) else Err(NotFound);
    }

    /** Removes every unpinned block, and no other, and returns exactly those. */
    method Cleanup() returns (removed: seq<Cid>)
      requires Valid()
      modifies store
      ensures Valid() && pinStore.pins == old(pinStore.pins)
      ensures store.blocks == map c | c in old(store.blocks) && c in pinStore.pins :: old(store.blocks)[c]
      ensures forall c :: c in removed <==> c in old(store.blocks) && c !in pinStore.pins
      ensures Distinct(removed)
    {
      hide Readable, GoodPins;
      removed := [];
      var blocks := store.List();
      ghost var before := store.blocks;
      for i := 0 to |blocks|
        invariant Valid() && pinStore.pins == old(pinStore.pins)
        invariant forall c :: c in removed <==> c in blocks[..i] && c !in pinStore.pins
        invariant Distinct(removed)
        invariant forall c :: c in store.blocks <==> c in before && c !in removed
        invariant forall c :: c in store.blocks ==> store.blocks[c] == before[c]
      {
        var pinned := pinStore.IsPinned(blocks[i]);
        assert blocks[i] in blocks && blocks[i] !in blocks[..i];
        if !pinned {
          var r := RemoveBlock(blocks[i]);
          if r.Ok? {
            removed := removed + [r.value];
          }
        }
        assert blocks[..i + 1] == blocks[..i] + [blocks[i]];
      }
      assert blocks[..|blocks|] == blocks;
    }
  }
}
