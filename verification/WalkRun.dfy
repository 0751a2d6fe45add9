/** Every step of the walk takes one block off the pre-order of what is left. */
module WalkRun {
  import opened Common
  import opened UnixFs
  import opened FileVisit
  import opened Walk
  import opened WalkTree

  function ItemPending(i: Item): Pending { Pending(TreeCid(i.tree), i.name, |ItemPath(i)| + 1) }

  function PendingItems(todo: seq<Item>): (r: seq<Pending>)
    ensures |r| == |todo|
  {
    if todo == [] then [] else [ItemPending(todo[0])] + PendingItems(todo[1..])
  }

  /** The look-ahead slot and the stack hold exactly `todo`, first one next. */
  ghost predicate Queue(s: State, todo: seq<Item>) {
    if todo == [] then s.next.None? && s.pending == []
    else s.next == Some(ItemPending(todo[0])) && s.pending == Reverse(PendingItems(todo[1..]))
  }

  ghost predicate ItemOk(store: map<Cid, PbBlock>, i: Item) {
    && TreeStored(store, i.tree) && WellNamed(i.tree)
    && (if i.name == "" then i.tree.Shard? else GoodName(i.name))
  }

  ghost predicate ItemsOk(store: map<Cid, PbBlock>, todo: seq<Item>) {
    forall i :: 0 <= i < |todo| ==> ItemOk(store, todo[i])
  }

  /** Each item's directory lies on the path reached when its turn comes. */
  ghost predicate Stacked(path: Path, todo: seq<Item>)
    decreases todo
  {
    todo != [] ==> todo[0].parent <= path && Stacked(todo[0].parent, todo[1..])
  }

  ghost predicate AllAt(path: Path, todo: seq<Item>) {
    forall i :: 0 <= i < |todo| ==> todo[i].parent == path
  }

  /** The entry just reported is a plain directory. */
  predicate AtDirectory(e: Entry) { e.kind.RootDirectory? || e.kind.PlainDirectory? }

  function Stale(e: Entry): Option<Cid> { if e.kind.BucketAtRoot? then Some(e.cid) else None }

  /** The state has reported entry `e`, has the file blocks `ft` of it and the items `todo` to go. */
  ghost predicate Walking(store: map<Cid, PbBlock>, s: State, todo: seq<Item>, ft: seq<Placed>) {
    && s.current.Some?
    && var e := s.current.value;
    && e.depth == |e.path| + 1
    && (if ft == [] then !BusyFile(e.kind)
        else BusyFile(e.kind) && e.kind.visit.value.target == None && Visiting(store, e.kind.visit.value, ft))
    && Queue(s, todo)
    && (s.more <==> todo != [] || ft != [])
    && ItemsOk(store, todo)
    && Stacked(e.path, todo)
    && (e.kind.BucketAtRoot? ==> AllAt(e.path, todo))
  }

  function RestEvents(e: Entry, todo: seq<Item>, ft: seq<Placed>): seq<Event> {
    FileEvents(PlacedSegments(ft, None), false, e.cid, e.path, e.meta, if e.kind.FileKind? then e.kind.size else 0)
    + Report(AllEvents(todo), Stale(e))
  }

  function RestBlocks(todo: seq<Item>, ft: seq<Placed>): seq<Cid> {
    SegmentCids(PlacedSegments(ft, None)) + AllBlocks(todo)
  }

  // ---------------------------------------------------------------------------------------------
  // The stack of pending links

  lemma {:induction false} PendingItemsAppend(a: seq<Item>, b: seq<Item>)
    ensures PendingItems(a + b) == PendingItems(a) + PendingItems(b)
  {
    if a == [] {
      assert a + b == b;
    } else {
      assert (a + b)[1..] == a[1..] + b;
      PendingItemsAppend(a[1..], b);
    }
  }

  lemma {:induction false} PushLinksHead(pending: seq<Pending>, links: seq<PbLink>, depth: nat, sharded: bool)
    requires links != []
    requires PushLinks(pending, links[1..], depth, sharded).AllPushed?
    requires ConvertLink(links[0], 0, depth, sharded).Done?
    ensures PushLinks(pending, links, depth, sharded)
            == AllPushed(PushLinks(pending, links[1..], depth, sharded).pending + [ConvertLink(links[0], 0, depth, sharded).value])
    decreases |links|
  {
    var last := |links| - 1;
    if last == 0 {
      assert links[..0] == [] && links[1..] == [];
    } else {
      assert links[1..][last - 1] == links[last];
      assert links[1..][..last - 1] == links[..last][1..];
      var p := ConvertLink(links[last], last, depth, sharded).value;
      PushLinksHead(pending + [p], links[..last], depth, sharded);
    }
  }

  lemma {:induction false} ConvertEntry(link: PbLink, e: TreeEntry, nth: nat, sharded: bool, path: Path)
    requires link == PbLink(Some(TreeCid(e.tree)), e.name) && EntryNameOk(e, sharded)
    ensures ConvertLink(link, nth, |path| + 1, sharded) == Done(ItemPending(EntryItem(e, sharded, path)))
  {
  }

  lemma {:induction false} PushLinksItems(pending: seq<Pending>, links: seq<PbLink>, es: seq<TreeEntry>, sharded: bool, path: Path)
    requires LinksMatch(links, es) && EntriesWellNamed(es, sharded)
    ensures PushLinks(pending, links, |path| + 1, sharded) == AllPushed(pending + Reverse(PendingItems(EntryItems(es, sharded, path))))
    decreases es
  {
    if es == [] {
      assert pending + [] == pending;
    } else {
      PushLinksItems(pending, links[1..], es[1..], sharded, path);
      ConvertEntry(links[0], es[0], 0, sharded, path);
      hide ConvertLink, EntryItem, ItemPending, EntryNameOk, WellNamed;
      PushLinksHead(pending, links, |path| + 1, sharded);
      var all := PendingItems(EntryItems(es, sharded, path));
      assert all[1..] == PendingItems(EntryItems(es[1..], sharded, path));
      assert pending + Reverse(all) == (pending + Reverse(all[1..])) + [all[0]];
    }
  }

  lemma {:induction false} PoppedQueue(e: Entry, todo: seq<Item>)
    ensures Queue(Popped(Some(e), Reverse(PendingItems(todo))), todo)
    ensures Popped(Some(e), Reverse(PendingItems(todo))).more <==> todo != []
  {
    if todo != [] {
      assert PendingItems(todo)[1..] == PendingItems(todo[1..]);
    }
  }

  lemma {:induction false} EntryItemsOk(store: map<Cid, PbBlock>, es: seq<TreeEntry>, sharded: bool, path: Path)
    requires EntriesStored(store, es) && EntriesWellNamed(es, sharded)
    ensures ItemsOk(store, EntryItems(es, sharded, path))
    ensures AllAt(path, EntryItems(es, sharded, path))
    decreases es
  {
    if es != [] {
      EntryItemsOk(store, es[1..], sharded, path);
    }
  }

  lemma {:induction false} StackedAppend(path: Path, a: seq<Item>, b: seq<Item>)
    requires AllAt(path, a) && Stacked(path, b)
    ensures Stacked(path, a + b)
    decreases a
  {
    if a == [] {
      assert a + b == b;
    } else {
      assert (a + b)[1..] == a[1..] + b;
      StackedAppend(path, a[1..], b);
    }
  }

  lemma {:induction false} StackedDeeper(shallow: Path, path: Path, todo: seq<Item>)
    requires Stacked(shallow, todo) && shallow <= path
    ensures Stacked(path, todo)
  {
  }

  // ---------------------------------------------------------------------------------------------
  // Arriving at an entry

  /** The state after arriving at `e`, the entry of `item`, with its children to go before `rest`. */
  function Arrived(e: Entry, item: Item, rest: seq<Item>): State {
    Popped(Some(e), Reverse(PendingItems(Children(item.tree, e.path) + rest)))
  }

  lemma {:induction false} ItemsOkAppend(store: map<Cid, PbBlock>, a: seq<Item>, b: seq<Item>)
    requires ItemsOk(store, a) && ItemsOk(store, b)
    ensures ItemsOk(store, a + b)
  {
    hide ItemOk;
  }

  lemma {:induction false} AllAtAppend(path: Path, a: seq<Item>, b: seq<Item>)
    requires AllAt(path, a) && AllAt(path, b)
    ensures AllAt(path, a + b)
  {
  }

  lemma {:induction false} ChildrenOk(store: map<Cid, PbBlock>, t: Tree, path: Path)
    requires TreeStored(store, t) && WellNamed(t)
    ensures ItemsOk(store, Children(t, path)) && AllAt(path, Children(t, path))
  {
    if t.Dir? || t.Shard? {
      EntryItemsOk(store, t.entries, t.Shard?, path);
    }
  }

  lemma {:induction false} ArrivedWalks(store: map<Cid, PbBlock>, e: Entry, item: Item, rest: seq<Item>)
    requires e.path == ItemPath(item) && e.depth == |e.path| + 1 && !BusyFile(e.kind)
    requires TreeStored(store, item.tree) && WellNamed(item.tree)
    requires ItemsOk(store, rest) && Stacked(item.parent, rest)
    requires e.kind.BucketAtRoot? ==> AllAt(e.path, rest)
    ensures Walking(store, Arrived(e, item, rest), Children(item.tree, e.path) + rest, [])
    ensures Arrived(e, item, rest).current == Some(e)
  {
    hide TreeStored, WellNamed, Children, ItemsOk, AllAt, Stacked, Queue, PendingItems, Reverse;
    var children := Children(item.tree, e.path);
    PoppedQueue(e, children + rest);
    ChildrenOk(store, item.tree, e.path);
    ItemsOkAppend(store, children, rest);
    StackedDeeper(item.parent, e.path, rest);
    StackedAppend(e.path, children, rest);
    if e.kind.BucketAtRoot? {
      AllAtAppend(e.path, children, rest);
    }
  }

  lemma {:induction false} ArrivedPending(store: map<Cid, PbBlock>, item: Item, path: Path, rest: seq<Item>)
    requires item.tree.Dir? || item.tree.Shard?
    requires TreeStored(store, item.tree) && WellNamed(item.tree)
    ensures PushLinks(Reverse(PendingItems(rest)), store[item.tree.cid].node.links, |path| + 1, item.tree.Shard?)
            == AllPushed(Reverse(PendingItems(Children(item.tree, path) + rest)))
  {
    var children := Children(item.tree, path);
    PushLinksItems(Reverse(PendingItems(rest)), store[item.tree.cid].node.links, item.tree.entries, item.tree.Shard?, path);
    PendingItemsAppend(children, rest);
    ReverseAppend(PendingItems(children), PendingItems(rest));
  }

  /** A named item's entry: the patched path is the item's full path. */
  lemma {:induction false} BecomesNamed(e: Entry, item: Item, kind: Kind, rootKind: Kind, meta: Metadata)
    requires !BusyFile(e.kind) && e.depth == |e.path| + 1 && item.name != "" && item.parent <= e.path
    ensures Become(Some(e), ItemPending(item), kind, rootKind, meta)
            == Some(Entry(TreeCid(item.tree), kind, ItemPath(item), meta, |ItemPath(item)| + 1))
  {
    assert e.path[..|item.parent|] == item.parent;
  }

  // ---------------------------------------------------------------------------------------------
  // The step of each kind of item

  /** The step from `s` on the block it asks for takes one block and one event off what is left. */
  ghost predicate Advances(store: map<Cid, PbBlock>, s: State, todo: seq<Item>, ft: seq<Placed>, todo': seq<Item>, ft': seq<Placed>)
    requires s.current.Some?
  {
    && NextCid(s).Some? && NextCid(s).value in store
    && var r := Step(s, store[NextCid(s).value]);
    && r.Stepped? && r.state.current.Some? && Walking(store, r.state, todo', ft')
    && Accounted(NextCid(s).value, s.current.value, todo, ft, r.event, r.state.current.value, todo', ft')
  }

  ghost predicate Accounted(cid: Cid, e: Entry, todo: seq<Item>, ft: seq<Placed>, event: Event, e': Entry, todo': seq<Item>, ft': seq<Placed>) {
    && RestEvents(e, todo, ft) == [event] + RestEvents(e', todo', ft')
    && RestBlocks(todo, ft) == [cid] + RestBlocks(todo', ft')
    && (TodoSafe(AtDirectory(e), todo) <==> TodoSafe(AtDirectory(e'), todo'))
  }

  lemma {:induction false} AdvancesBy(store: map<Cid, PbBlock>, s: State, todo: seq<Item>, ft: seq<Placed>, cid: Cid, s': State, event: Event, todo': seq<Item>, ft': seq<Placed>)
    requires s.current.Some? && NextCid(s) == Some(cid) && cid in store && Step(s, store[cid]) == Stepped(s', event)
    requires s'.current.Some? && Walking(store, s', todo', ft')
    requires Accounted(cid, s.current.value, todo, ft, event, s'.current.value, todo', ft')
    ensures Advances(store, s, todo, ft, todo', ft')
  {
    hide Step, NextCid, Walking, Accounted;
  }

  /** The walker is between entries, with `item` in the look-ahead slot and `rest` on the stack. */
  ghost predicate Between(store: map<Cid, PbBlock>, s: State, e: Entry, item: Item, rest: seq<Item>) {
    && s.current == Some(e) && !BusyFile(e.kind) && e.depth == |e.path| + 1
    && s.next == Some(ItemPending(item)) && s.pending == Reverse(PendingItems(rest))
    && item.parent <= e.path
    && NextCid(s) == Some(TreeCid(item.tree)) && TreeCid(item.tree) in store && IsTreeBlock(store[TreeCid(item.tree)], item.tree)
    && ItemOk(store, item) && ItemsOk(store, rest) && Stacked(item.parent, rest)
    && (e.kind.BucketAtRoot? ==> item.parent == e.path && AllAt(e.path, rest))
  }

  lemma {:induction false} WalkingBetween(store: map<Cid, PbBlock>, s: State, todo: seq<Item>)
    requires Walking(store, s, todo, []) && todo != []
    ensures s.current.Some? && Between(store, s, s.current.value, todo[0], todo[1..])
  {
    hide Reverse, PendingItems, Stacked, StackOrder, WellNamed, EntriesStored, FileStored;
    assert ItemOk(store, todo[0]);
    assert TreeStored(store, todo[0].tree);
    WalkingStacked(s.current.value.path, todo);
  }

  lemma {:induction false} WalkingStacked(path: Path, todo: seq<Item>)
    requires Stacked(path, todo) && todo != []
    ensures todo[0].parent <= path && Stacked(todo[0].parent, todo[1..])
  {
  }

  lemma {:induction false} NoFileEvents(e: Entry, todo: seq<Item>)
    ensures RestEvents(e, todo, []) == Report(AllEvents(todo), Stale(e))
    ensures RestBlocks(todo, []) == AllBlocks(todo)
  {
  }

  /** The event reported for a directory, shard or bucket arrived at from `e`. */
  function DirectoryReport(e: Entry, i: Item): Event
    requires i.tree.Dir? || i.tree.Shard?
  {
    var path := ItemPath(i);
    if i.tree.Dir? then DirectoryEvent(i.tree.cid, path, i.tree.meta)
    else if i.name != "" then RootDirectoryEvent(i.tree.cid, path, i.tree.meta)
    else BucketEvent(if Stale(e).Some? then e.cid else i.tree.cid, path)
  }

  lemma {:induction false} ReportCons(event: Event, rest: seq<Event>, stale: Option<Cid>)
    ensures Report([event] + rest, stale)
            == if event.BucketEvent? && stale.Some? then [BucketEvent(stale.value, event.path)] + Report(rest, stale)
               else [event] + Report(rest, None)
  {
    assert ([event] + rest)[1..] == rest;
  }

  lemma {:induction false} DirectoryTop(todo: seq<Item>)
    requires todo != [] && (todo[0].tree.Dir? || todo[0].tree.Shard?) && WellNamed(todo[0].tree)
    ensures AllEvents(todo) == TopEvents(todo[0], false) + AllEvents(Children(todo[0].tree, ItemPath(todo[0])) + todo[1..])
    ensures |TopEvents(todo[0], false)| == 1
  {
    var (t, path, rest) := (todo[0].tree, ItemPath(todo[0]), todo[1..]);
    assert |TopEvents(todo[0], false)| == 1;
    hide WellNamed, Children, TopEvents;
    calc {
      AllEvents(todo);
      (TopEvents(todo[0], false) + EntryEvents(t.entries, t.Shard?, path)) + AllEvents(rest);
      { Assoc(TopEvents(todo[0], false), EntryEvents(t.entries, t.Shard?, path), AllEvents(rest)); }
      TopEvents(todo[0], false) + (EntryEvents(t.entries, t.Shard?, path) + AllEvents(rest));
      { ChildrenSummary(t, path, rest); }
      TopEvents(todo[0], false) + AllEvents(Children(t, path) + rest);
    }
  }

  lemma {:induction false} DirectoryEvents(e: Entry, todo: seq<Item>, e': Entry)
    requires todo != [] && (todo[0].tree.Dir? || todo[0].tree.Shard?) && WellNamed(todo[0].tree)
    requires todo[0].name == "" ==> todo[0].tree.Shard? && Stale(e') == Stale(e)
    requires todo[0].name != "" ==> Stale(e').None?
    ensures Report(AllEvents(todo), Stale(e))
            == [DirectoryReport(e, todo[0])] + Report(AllEvents(Children(todo[0].tree, ItemPath(todo[0])) + todo[1..]), Stale(e'))
  {
    var item := todo[0];
    DirectoryTop(todo);
    hide AllEvents, Children, WellNamed, Report, Segments, FileEvents, Size;
    ReportCons(TopEvents(item, false)[0], AllEvents(Children(item.tree, ItemPath(item)) + todo[1..]), Stale(e));
  }

  lemma {:induction false} DirectoryAccounted(e: Entry, todo: seq<Item>, e': Entry)
    requires todo != [] && (todo[0].tree.Dir? || todo[0].tree.Shard?) && WellNamed(todo[0].tree)
    requires todo[0].name == "" ==> todo[0].tree.Shard? && !AtDirectory(e) && Stale(e') == Stale(e)
    requires todo[0].name != "" ==> Stale(e').None?
    requires AtDirectory(e') <==> todo[0].tree.Dir?
    ensures Accounted(todo[0].tree.cid, e, todo, [], DirectoryReport(e, todo[0]), e',
                      Children(todo[0].tree, ItemPath(todo[0])) + todo[1..], [])
  {
    var item, rest := todo[0], todo[1..];
    hide Children, WellNamed, AllEvents, RestEvents, RestBlocks, Blocks, Report, DirectoryReport, Safe, EndsInEmptyDir;
    NoFileEvents(e, todo);
    NoFileEvents(e', Children(item.tree, ItemPath(item)) + rest);
    ChildrenSummary(item.tree, ItemPath(item), rest);
    DirectoryEvents(e, todo, e');
  }

  /** Arriving at a directory, shard or bucket is one step of the account. */
  lemma {:induction false} DirectoryAdvances(store: map<Cid, PbBlock>, s: State, e: Entry, todo: seq<Item>, e': Entry)
    requires todo != [] && Between(store, s, e, todo[0], todo[1..]) && (todo[0].tree.Dir? || todo[0].tree.Shard?)
    requires Step(s, store[todo[0].tree.cid]) == Stepped(Arrived(e', todo[0], todo[1..]), DirectoryReport(e, todo[0]))
    requires e'.path == ItemPath(todo[0]) && e'.depth == |e'.path| + 1 && !BusyFile(e'.kind)
    requires todo[0].name == "" ==> !AtDirectory(e) && Stale(e') == Stale(e)
    requires todo[0].name != "" ==> Stale(e').None?
    requires AtDirectory(e') <==> todo[0].tree.Dir?
    requires e'.kind.BucketAtRoot? ==> AllAt(e'.path, todo[1..])
    ensures Advances(store, s, todo, [], Children(todo[0].tree, ItemPath(todo[0])) + todo[1..], [])
  {
    hide Step, DirectoryReport, Children, WellNamed, TreeStored, Accounted, Arrived, NextCid, Stale, AtDirectory, Walking, Advances, IsTreeBlock, ItemsOk, Stacked, AllAt, Reverse, PendingItems, BusyFile;
    var item, rest := todo[0], todo[1..];
    ArrivedWalks(store, e', item, rest);
    DirectoryAccounted(e, todo, e');
    AdvancesBy(store, s, todo, [], item.tree.cid, Arrived(e', item, rest), DirectoryReport(e, item), Children(item.tree, ItemPath(item)) + rest, []);
  }

  lemma {:induction false} DirSteps(store: map<Cid, PbBlock>, s: State, e: Entry, item: Item, rest: seq<Item>)
    requires Between(store, s, e, item, rest) && item.tree.Dir?
    ensures var path := ItemPath(item);
            Step(s, store[item.tree.cid])
            == Stepped(Arrived(Entry(item.tree.cid, PlainDirectory, path, item.tree.meta, |path| + 1), item, rest), DirectoryReport(e, item))
  {
    hide TreeStored, WellNamed, ItemsOk, Stacked, NextCid, LinksMatch, Reverse, PendingItems, Children, AllAt, PushLinks, GoodName;
    assert TreeStored(store, item.tree) && WellNamed(item.tree);
    ArrivedPending(store, item, ItemPath(item), rest);
    BecomesNamed(e, item, PlainDirectory, RootDirectory, item.tree.meta);
    hide Become, BusyFile;
  }

  lemma {:induction false} StepOfDir(store: map<Cid, PbBlock>, s: State, todo: seq<Item>)
    requires Walking(store, s, todo, []) && todo != [] && todo[0].tree.Dir?
    ensures Advances(store, s, todo, [], Children(todo[0].tree, ItemPath(todo[0])) + todo[1..], [])
  {
    hide Walking, Advances, Between, Step, Arrived, DirectoryReport, Children;
    var item, rest := todo[0], todo[1..];
    WalkingBetween(store, s, todo);
    var e, path := s.current.value, ItemPath(item);
    ItemNamed(store, s, e, item, rest);
    DirSteps(store, s, e, item, rest);
    DirectoryAdvances(store, s, e, todo, Entry(item.tree.cid, PlainDirectory, path, item.tree.meta, |path| + 1));
  }

  lemma {:induction false} ItemNamed(store: map<Cid, PbBlock>, s: State, e: Entry, item: Item, rest: seq<Item>)
    requires Between(store, s, e, item, rest)
    ensures item.name == "" ==> item.tree.Shard?
  {
    hide TreeStored, WellNamed, ItemsOk, Stacked, NextCid, IsTreeBlock, AllAt;
  }

  lemma {:induction false} NamedShardSteps(store: map<Cid, PbBlock>, s: State, e: Entry, item: Item, rest: seq<Item>)
    requires Between(store, s, e, item, rest) && item.tree.Shard? && item.name != ""
    ensures var path := ItemPath(item);
            Step(s, store[item.tree.cid])
            == Stepped(Arrived(Entry(item.tree.cid, RootBucket, path, item.tree.meta, |path| + 1), item, rest), DirectoryReport(e, item))
  {
    hide TreeStored, WellNamed, ItemsOk, Stacked, NextCid, LinksMatch, Reverse, PendingItems, Children, AllAt, PushLinks, GoodName;
    assert TreeStored(store, item.tree) && WellNamed(item.tree);
    ArrivedPending(store, item, ItemPath(item), rest);
    BecomesNamed(e, item, RootBucket, BucketAtRoot, item.tree.meta);
    hide Become, BusyFile;
  }

  lemma {:induction false} StepOfNamedShard(store: map<Cid, PbBlock>, s: State, todo: seq<Item>)
    requires Walking(store, s, todo, []) && todo != [] && todo[0].tree.Shard? && todo[0].name != ""
    ensures Advances(store, s, todo, [], Children(todo[0].tree, ItemPath(todo[0])) + todo[1..], [])
  {
    hide Walking, Advances, Between, Step, Arrived, DirectoryReport, Children;
    var item, rest := todo[0], todo[1..];
    WalkingBetween(store, s, todo);
    var e, path := s.current.value, ItemPath(item);
    NamedShardSteps(store, s, e, item, rest);
    DirectoryAdvances(store, s, e, todo, Entry(item.tree.cid, RootBucket, path, item.tree.meta, |path| + 1));
  }

  /** The entry a bucket leaves: the walk climbs back to the bucket's directory. */
  function BucketEntry(e: Entry, i: Item): Entry {
    if e.kind.BucketAtRoot? then e
    else Entry(TreeCid(i.tree), Bucket, ItemPath(i), e.meta, |ItemPath(i)| + 1)
  }

  lemma {:induction false} BecomesBucket(e: Entry, item: Item)
    requires item.name == "" && item.tree.Shard? && !BusyFile(e.kind)
    requires e.depth == |e.path| + 1 && item.parent <= e.path
    requires e.kind.BucketAtRoot? ==> item.parent == e.path
    ensures BecomeBucket(e, ItemPending(item)) == if AtDirectory(e) then None else Some(BucketEntry(e, item))
    ensures !AtDirectory(e) ==> BucketEntry(e, item).path == ItemPath(item)
  {
    assert e.path[..|item.parent|] == item.parent;
  }

  lemma {:induction false} BucketSteps(store: map<Cid, PbBlock>, s: State, e: Entry, item: Item, rest: seq<Item>)
    requires Between(store, s, e, item, rest) && item.tree.Shard? && item.name == ""
    ensures Step(s, store[item.tree.cid])
            == if AtDirectory(e) then StepPanic else Stepped(Arrived(BucketEntry(e, item), item, rest), DirectoryReport(e, item))
    ensures !AtDirectory(e) ==> BucketEntry(e, item).path == ItemPath(item)
  {
    hide TreeStored, WellNamed, ItemsOk, Stacked, NextCid, LinksMatch, Reverse, PendingItems, Children, AllAt, PushLinks, GoodName;
    assert TreeStored(store, item.tree) && WellNamed(item.tree);
    ArrivedPending(store, item, ItemPath(item), rest);
    BecomesBucket(e, item);
    hide BecomeBucket;
  }

  /** A bucket is walked over, except right after a plain directory, where the walk panics. */
  lemma {:induction false} StepOfBucket(store: map<Cid, PbBlock>, s: State, todo: seq<Item>)
    requires Walking(store, s, todo, []) && todo != [] && todo[0].tree.Shard? && todo[0].name == ""
    ensures if AtDirectory(s.current.value)
            then todo[0].tree.cid in store && NextCid(s) == Some(todo[0].tree.cid) && Step(s, store[todo[0].tree.cid]).StepPanic?
            else Advances(store, s, todo, [], Children(todo[0].tree, ItemPath(todo[0])) + todo[1..], [])
  {
    hide Walking, Advances, Step, Arrived, DirectoryReport, Children, NextCid, TreeStored, WellNamed, IsTreeBlock, ItemsOk, Stacked, AllAt;
    WalkingBetween(store, s, todo);
    var e := s.current.value;
    BucketSteps(store, s, e, todo[0], todo[1..]);
    if !AtDirectory(e) {
      DirectoryAdvances(store, s, e, todo, BucketEntry(e, todo[0]));
    }
  }

  lemma {:induction false} SymlinkAccounted(e: Entry, todo: seq<Item>, e': Entry)
    requires todo != [] && todo[0].tree.SymlinkNode? && todo[0].name != ""
    requires !AtDirectory(e') && Stale(e').None?
    ensures Accounted(todo[0].tree.cid, e, todo, [], TopEvents(todo[0], false)[0], e', todo[1..], [])
  {
    NoFileEvents(e, todo);
    NoFileEvents(e', todo[1..]);
    SymlinkTop(todo, Stale(e), AtDirectory(e));
    hide AllEvents, AllBlocks, Report, RestEvents, RestBlocks, TodoSafe, TopEvents;
  }

  lemma {:induction false} SymlinkTop(todo: seq<Item>, stale: Option<Cid>, before: bool)
    requires todo != [] && todo[0].tree.SymlinkNode? && todo[0].name != ""
    ensures Report(AllEvents(todo), stale) == [TopEvents(todo[0], false)[0]] + Report(AllEvents(todo[1..]), None)
    ensures AllBlocks(todo) == [todo[0].tree.cid] + AllBlocks(todo[1..])
    ensures TodoSafe(before, todo) <==> TodoSafe(false, todo[1..])
  {
    SymlinkUnfolds(todo, before);
    hide AllEvents, AllBlocks, TodoSafe, Report;
    ReportCons(TopEvents(todo[0], false)[0], AllEvents(todo[1..]), stale);
  }

  lemma {:induction false} SymlinkUnfolds(todo: seq<Item>, before: bool)
    requires todo != [] && todo[0].tree.SymlinkNode? && todo[0].name != ""
    ensures AllEvents(todo) == [TopEvents(todo[0], false)[0]] + AllEvents(todo[1..])
    ensures AllBlocks(todo) == [todo[0].tree.cid] + AllBlocks(todo[1..])
    ensures TodoSafe(before, todo) <==> TodoSafe(false, todo[1..])
  {
    hide Events, Blocks, Safe, EndsInEmptyDir, TopEvents;
    SymlinkItem(todo[0]);
  }

  lemma {:induction false} SymlinkItem(i: Item)
    requires i.tree.SymlinkNode?
    ensures |TopEvents(i, false)| == 1 && Events(i, false) == [TopEvents(i, false)[0]]
    ensures Blocks(i.tree) == [i.tree.cid] && Safe(i.tree) && !EndsInEmptyDir(i.tree)
  {
  }

  lemma {:induction false} SymlinkSteps(store: map<Cid, PbBlock>, s: State, e: Entry, item: Item, rest: seq<Item>)
    requires Between(store, s, e, item, rest) && item.tree.SymlinkNode?
    ensures var path := ItemPath(item);
            Step(s, store[item.tree.cid])
            == Stepped(Popped(Some(Entry(item.tree.cid, SymlinkKind, path, item.tree.meta, |path| + 1)), s.pending), TopEvents(item, false)[0])
  {
    ItemNamed(store, s, e, item, rest);
    hide TreeStored, WellNamed, ItemOk, ItemsOk, Stacked, NextCid, Reverse, PendingItems, AllAt;
    BecomesNamed(e, item, SymlinkKind, SymlinkKind, item.tree.meta);
    hide Become, BusyFile, Popped;
  }

  /** The state after an entry without children. */
  lemma {:induction false} LeafWalks(store: map<Cid, PbBlock>, s: State, e: Entry, item: Item, rest: seq<Item>, e': Entry)
    requires Between(store, s, e, item, rest)
    requires e'.path == ItemPath(item) && e'.depth == |e'.path| + 1 && !BusyFile(e'.kind) && !e'.kind.BucketAtRoot?
    ensures Walking(store, Popped(Some(e'), s.pending), rest, [])
    ensures Popped(Some(e'), s.pending).current == Some(e')
  {
    hide TreeStored, WellNamed, ItemOk, ItemsOk, Stacked, NextCid, Reverse, PendingItems, Queue, IsTreeBlock, AllAt;
    PoppedQueue(e', rest);
    StackedDeeper(item.parent, e'.path, rest);
  }

  lemma {:induction false} StepOfSymlink(store: map<Cid, PbBlock>, s: State, todo: seq<Item>)
    requires Walking(store, s, todo, []) && todo != [] && todo[0].tree.SymlinkNode?
    ensures Advances(store, s, todo, [], todo[1..], [])
  {
    assert |TopEvents(todo[0], false)| == 1;
    hide Walking, Advances, Step, TopEvents, Accounted, NextCid, TreeStored, WellNamed, ItemsOk, Stacked, AllAt, Popped, IsTreeBlock;
    var item, rest := todo[0], todo[1..];
    WalkingBetween(store, s, todo);
    var e, path := s.current.value, ItemPath(item);
    var e' := Entry(item.tree.cid, SymlinkKind, path, item.tree.meta, |path| + 1);
    SymlinkSteps(store, s, e, item, rest);
    LeafWalks(store, s, e, item, rest, e');
    SymlinkAccounted(e, todo, e');
    AdvancesBy(store, s, todo, [], item.tree.cid, Popped(Some(e'), s.pending), TopEvents(item, false)[0], rest, []);
  }

  // ---------------------------------------------------------------------------------------------
  // Files

  lemma {:induction false} SegmentsNonEmpty(ft: seq<Placed>)
    ensures PlacedSegments(ft, None) == [] <==> ft == []
  {
  }

  /** The blocks of a file that have been started: one event each, the last one flagged last. */
  lemma {:induction false} FileAccounted(cid: Cid, bytes: Bytes, e: Entry, todo: seq<Item>, ft: seq<Placed>, e': Entry, ft': seq<Placed>)
    requires PlacedSegments(ft, None) == [(cid, bytes)] + PlacedSegments(ft', None)
    requires e.kind.FileKind? && e'.kind.FileKind? && e' == e.(kind := e'.kind) && e'.kind.size == e.kind.size
    ensures Accounted(cid, e, todo, ft, FileEvent(Segment(bytes, false, ft' == []), e.cid, e.path, e.meta, e.kind.size), e', todo, ft')
  {
    SegmentsNonEmpty(ft');
    var tail := PlacedSegments(ft', None);
    assert SegmentCids([(cid, bytes)] + tail) == [cid] + SegmentCids(tail) by { assert ([(cid, bytes)] + tail)[1..] == tail; }
    FileEventsCons((cid, bytes), tail, false, e.cid, e.path, e.meta, e.kind.size);
    hide PlacedSegments, Report, AllEvents, AllBlocks, FileEvents, SegmentCids;
    Assoc([cid], SegmentCids(tail), AllBlocks(todo));
    Assoc([FileEvent(Segment(bytes, false, ft' == []), e.cid, e.path, e.meta, e.kind.size)],
          FileEvents(tail, false, e.cid, e.path, e.meta, e.kind.size), Report(AllEvents(todo), None));
  }

  /** A step inside a file, on the visit's next block. */
  lemma {:induction false} FileContinues(store: map<Cid, PbBlock>, s: State, todo: seq<Item>, ft: seq<Placed>, ft': seq<Placed>)
    requires Walking(store, s, todo, ft) && ft != []
    requires s.current.value.kind.visit.value.pending != [] && ft[0].tree.cid in store
    requires Continues(store, s.current.value.kind.visit.value, ft, ft') && VisitLinks(s.current.value.kind.visit.value).0 == ft[0].tree.cid
    ensures var e := s.current.value;
            var cid := ft[0].tree.cid;
            var v := Continue(e.kind.visit.value, store[cid]).value;
            var e' := e.(kind := FileKind(v.rest, e.kind.size));
            var s' := State(Some(e'), s.next, s.pending, v.rest.Some? || s.next.Some?);
            && NextCid(s) == Some(cid)
            && Step(s, store[cid]) == Stepped(s', FileEvent(Segment(v.bytes, false, ft' == []), e.cid, e.path, e.meta, e.kind.size))
            && Walking(store, s', todo, ft')
  {
    hide Continue, Visiting, PlacedSegments, ItemsOk, Stacked, AllAt, StackOrder, Reverse, PendingItems, VisitLinks;
  }

  lemma {:induction false} VisitAsks(store: map<Cid, PbBlock>, v: Visit, ft: seq<Placed>)
    requires Visiting(store, v, ft)
    ensures ft != [] && v.pending != [] && VisitLinks(v).0 == ft[0].tree.cid && ft[0].tree.cid in store
  {
    PendingTail(v, ft);
  }

  lemma {:induction false} StepInFile(store: map<Cid, PbBlock>, s: State, todo: seq<Item>, ft: seq<Placed>)
    returns (ft': seq<Placed>)
    requires Walking(store, s, todo, ft) && ft != []
    ensures Advances(store, s, todo, ft, todo, ft')
  {
    var e := s.current.value;
    var v := e.kind.visit.value;
    assert Visiting(store, v, ft) && v.target == None;
    hide Continue, Visiting, Accounted, Walking, Advances, Step, NextCid, PlacedSegments;
    VisitAsks(store, v, ft);
    ft' := ContinueVisits(store, v, ft);
    FileContinues(store, s, todo, ft, ft');
    var cid := ft[0].tree.cid;
    var step := Continue(v, store[cid]).value;
    var e' := e.(kind := FileKind(step.rest, e.kind.size));
    FileAccounted(cid, step.bytes, e, todo, ft, e', ft');
    AdvancesBy(store, s, todo, ft, cid, State(Some(e'), s.next, s.pending, step.rest.Some? || s.next.Some?),
               FileEvent(Segment(step.bytes, false, ft' == []), e.cid, e.path, e.meta, e.kind.size), todo, ft');
  }

  lemma {:induction false} NewFileEvents(item: Item, bytes: Bytes, rest: seq<Item>, ft': seq<Placed>, stale: Option<Cid>)
    requires item.tree.FileNode?
    requires Segments(item.tree.file, 0, None) == [(item.tree.file.cid, bytes)] + PlacedSegments(ft', None)
    ensures var t := item.tree;
            Report(AllEvents([item] + rest), stale)
            == [FileEvent(Segment(bytes, true, ft' == []), t.file.cid, ItemPath(item), t.meta, Size(t.file))]
               + (FileEvents(PlacedSegments(ft', None), false, t.file.cid, ItemPath(item), t.meta, Size(t.file))
                  + Report(AllEvents(rest), None))
  {
    SegmentsNonEmpty(ft');
    var t, path := item.tree, ItemPath(item);
    var ss, tail := Segments(t.file, 0, None), PlacedSegments(ft', None);
    FileTop(item, rest);
    hide Segments, PlacedSegments, Size, AllEvents, FileEvents, Report;
    var top := FileEvents(ss, true, t.file.cid, path, t.meta, Size(t.file));
    var head := FileEvent(Segment(bytes, true, ft' == []), t.file.cid, path, t.meta, Size(t.file));
    calc {
      Report(AllEvents([item] + rest), stale);
      Report(top + AllEvents(rest), stale);
      { FileEventsReported(ss, true, t.file.cid, path, t.meta, Size(t.file), AllEvents(rest), stale); }
      top + Report(AllEvents(rest), None);
      { FileEventsCons((t.file.cid, bytes), tail, true, t.file.cid, path, t.meta, Size(t.file)); }
      ([head] + FileEvents(tail, false, t.file.cid, path, t.meta, Size(t.file))) + Report(AllEvents(rest), None);
      { Assoc([head], FileEvents(tail, false, t.file.cid, path, t.meta, Size(t.file)), Report(AllEvents(rest), None)); }
      [head] + (FileEvents(tail, false, t.file.cid, path, t.meta, Size(t.file)) + Report(AllEvents(rest), None));
    }
  }

  lemma {:induction false} FileTop(item: Item, rest: seq<Item>)
    requires item.tree.FileNode?
    ensures var t := item.tree;
            AllEvents([item] + rest)
            == FileEvents(Segments(t.file, 0, None), true, t.file.cid, ItemPath(item), t.meta, Size(t.file)) + AllEvents(rest)
  {
    assert ([item] + rest)[1..] == rest;
    hide Segments, FileEvents, Size;
    assert TopEvents(item, false) + [] == TopEvents(item, false);
  }

  lemma {:induction false} FileEventsCons(s: (Cid, Bytes), ss: seq<(Cid, Bytes)>, first: bool, cid: Cid, path: Path, meta: Metadata, size: nat)
    ensures FileEvents([s] + ss, first, cid, path, meta, size)
            == [FileEvent(Segment(s.1, first, ss == []), cid, path, meta, size)] + FileEvents(ss, false, cid, path, meta, size)
  {
    assert ([s] + ss)[1..] == ss;
  }

  lemma {:induction false} NewFileBlocks(item: Item, bytes: Bytes, rest: seq<Item>, ft': seq<Placed>, before: bool)
    requires item.tree.FileNode? && item.name != ""
    requires Segments(item.tree.file, 0, None) == [(item.tree.file.cid, bytes)] + PlacedSegments(ft', None)
    ensures AllBlocks([item] + rest) == [item.tree.file.cid] + (SegmentCids(PlacedSegments(ft', None)) + AllBlocks(rest))
    ensures TodoSafe(before, [item] + rest) <==> TodoSafe(false, rest)
  {
    assert ([item] + rest)[1..] == rest;
    assert Segments(item.tree.file, 0, None)[1..] == PlacedSegments(ft', None);
    hide Segments, PlacedSegments;
  }

  lemma {:induction false} NewFileAccounted(e: Entry, todo: seq<Item>, bytes: Bytes, e': Entry, ft': seq<Placed>)
    requires todo != [] && todo[0].tree.FileNode? && todo[0].name != ""
    requires Segments(todo[0].tree.file, 0, None) == [(todo[0].tree.file.cid, bytes)] + PlacedSegments(ft', None)
    requires e'.kind.FileKind? && e'.kind.size == Size(todo[0].tree.file)
    requires e'.cid == todo[0].tree.file.cid && e'.path == ItemPath(todo[0]) && e'.meta == todo[0].tree.meta
    ensures Accounted(e'.cid, e, todo, [], FileEvent(Segment(bytes, true, ft' == []), e'.cid, e'.path, e'.meta, e'.kind.size), e', todo[1..], ft')
  {
    var item, rest := todo[0], todo[1..];
    assert [item] + rest == todo;
    NoFileEvents(e, todo);
    NewFileBlocks(item, bytes, rest, ft', AtDirectory(e));
    NewFileEvents(item, bytes, rest, ft', Stale(e));
    hide *;
    assert RestEvents(e, todo, []) == Report(AllEvents(todo), Stale(e));
  }

  lemma {:induction false} FileEventsReported(ss: seq<(Cid, Bytes)>, first: bool, cid: Cid, path: Path, meta: Metadata, size: nat, rest: seq<Event>, stale: Option<Cid>)
    requires ss != []
    ensures Report(FileEvents(ss, first, cid, path, meta, size) + rest, stale)
            == FileEvents(ss, first, cid, path, meta, size) + Report(rest, None)
    decreases ss
  {
    var es := FileEvents(ss, first, cid, path, meta, size);
    assert (es + rest)[1..] == es[1..] + rest;
    assert es[1..] == FileEvents(ss[1..], false, cid, path, meta, size);
    if |ss| > 1 {
      FileEventsReported(ss[1..], false, cid, path, meta, size, rest, None);
    } else {
      assert es[1..] + rest == rest;
    }
  }

  lemma {:induction false} FileArrived(store: map<Cid, PbBlock>, s: State, e: Entry, item: Item, rest: seq<Item>, e': Entry, ft': seq<Placed>)
    requires Between(store, s, e, item, rest)
    requires e'.path == ItemPath(item) && e'.depth == |e'.path| + 1 && e'.kind.FileKind?
    requires if ft' == [] then e'.kind.visit.None?
             else e'.kind.visit.Some? && e'.kind.visit.value.target == None && Visiting(store, e'.kind.visit.value, ft')
    ensures var popped := Popped(Some(e'), s.pending);
            Walking(store, popped.(more := popped.more || ft' != []), rest, ft') && popped.current == Some(e')
  {
    hide TreeStored, WellNamed, ItemOk, ItemsOk, Stacked, NextCid, Reverse, PendingItems, IsTreeBlock, AllAt, Visiting;
    PoppedQueue(e', rest);
    StackedDeeper(item.parent, e'.path, rest);
  }

  lemma {:induction false} FileStepped(store: map<Cid, PbBlock>, s: State, e: Entry, item: Item, rest: seq<Item>, v: Visited)
    requires Between(store, s, e, item, rest) && item.tree.FileNode?
    requires Start(store[item.tree.file.cid].node, None) == Done(v)
    ensures var path := ItemPath(item);
            var e' := Entry(item.tree.file.cid, FileKind(v.rest, v.fileSize), path, v.meta, |path| + 1);
            var popped := Popped(Some(e'), s.pending);
            Step(s, store[item.tree.file.cid])
            == Stepped(popped.(more := popped.more || v.rest.Some?),
                       FileEvent(Segment(v.bytes, true, v.rest.None?), e'.cid, path, v.meta, v.fileSize))
  {
    ItemNamed(store, s, e, item, rest);
    FileBlockType(store[item.tree.file.cid], item.tree.file);
    hide Start, TreeStored, WellNamed, ItemOk, ItemsOk, Stacked, NextCid, Reverse, PendingItems, AllAt, IsFileBlock;
    BecomesNamed(e, item, FileKind(v.rest, v.fileSize), FileKind(v.rest, v.fileSize), v.meta);
    hide Become, BusyFile, Popped;
  }

  lemma {:induction false} FileBlockType(b: PbBlock, t: FileTree)
    ensures IsFileBlock(b, t, true) ==> b.Parsed? && (b.node.typ == Raw || b.node.typ == File)
  {
  }

  lemma {:induction false} StepOfFile(store: map<Cid, PbBlock>, s: State, todo: seq<Item>)
    returns (ft': seq<Placed>)
    requires Walking(store, s, todo, []) && todo != [] && todo[0].tree.FileNode?
    ensures Advances(store, s, todo, [], todo[1..], ft')
  {
    hide Walking, Advances, Between, Start, Started, Step, Accounted, Visiting, Popped;
    var item, rest := todo[0], todo[1..];
    WalkingBetween(store, s, todo);
    FileItemFacts(store, s, s.current.value, item, rest);
    var e, file, path := s.current.value, item.tree.file, ItemPath(item);
    ft' := StartVisits(store, file, None);
    StartedFacts(store, file, ft');
    var v := Start(store[file.cid].node, None).value;
    var e' := Entry(file.cid, FileKind(v.rest, v.fileSize), path, v.meta, |path| + 1);
    FileStepped(store, s, e, item, rest, v);
    FileArrived(store, s, e, item, rest, e', ft');
    hide Segments, PlacedSegments, Size, FileStored;
    NewFileAccounted(e, todo, v.bytes, e', ft');
    var popped := Popped(Some(e'), s.pending);
    AdvancesBy(store, s, todo, [], file.cid, popped.(more := popped.more || ft' != []),
               FileEvent(Segment(v.bytes, true, ft' == []), e'.cid, path, v.meta, v.fileSize), rest, ft');
  }

  /** What starting a whole file gives. */
  lemma {:induction false} StartedFacts(store: map<Cid, PbBlock>, t: FileTree, todo: seq<Placed>)
    requires FileStored(store, t, true) && Started(store, t, None, todo)
    ensures var r := Start(store[t.cid].node, None);
            && r.Done? && r.value.fileSize == Size(t) && r.value.meta == store[t.cid].node.meta
            && (if todo == [] then r.value.rest.None?
                else r.value.rest.Some? && Visiting(store, r.value.rest.value, todo) && r.value.rest.value.target == None)
            && Segments(t, 0, None) == [(t.cid, r.value.bytes)] + PlacedSegments(todo, None)
  {
    hide Start, Visiting, Segments, PlacedSegments, Size;
  }

  lemma {:induction false} FileItemFacts(store: map<Cid, PbBlock>, s: State, e: Entry, item: Item, rest: seq<Item>)
    requires Between(store, s, e, item, rest) && item.tree.FileNode?
    ensures var t := item.tree;
            && FileStored(store, t.file, true) && store[t.file.cid].Parsed? && store[t.file.cid].node.meta == t.meta
            && item.name != "" && NextCid(s) == Some(t.file.cid) && t.file.cid in store
  {
    hide NextCid, ItemsOk, Stacked, AllAt, FileStored, IsFileBlock, Reverse, PendingItems;
    assert ItemOk(store, item);
  }

  // ---------------------------------------------------------------------------------------------
  // Any step, and the first one

  /** Every step takes exactly one block, the one it asks for, and one event off what is left,
      except that it panics at a bucket right after a plain directory. */
  lemma {:induction false} StepWalks(store: map<Cid, PbBlock>, s: State, todo: seq<Item>, ft: seq<Placed>)
    returns (todo': seq<Item>, ft': seq<Placed>)
    requires Walking(store, s, todo, ft) && s.more
    ensures NextCid(s).Some? && NextCid(s).value in store
    ensures if Step(s, store[NextCid(s).value]).StepPanic? then !TodoSafe(AtDirectory(s.current.value), todo)
            else Advances(store, s, todo, ft, todo', ft')
  {
    todo', ft' := todo, ft;
    hide Step, NextCid, Accounted, TodoSafe, TreeStored, WellNamed, Stacked, AllAt;
    if ft != [] {
      ft' := StepInFile(store, s, todo, ft);
    } else {
      var item := todo[0];
      assert ItemOk(store, item);
      match item.tree {
        case Dir(_, _, _) =>
          StepOfDir(store, s, todo);
          todo' := Children(item.tree, ItemPath(item)) + todo[1..];
        case Shard(_, _, _) =>
          if item.name == "" { StepOfBucket(store, s, todo); BucketAfterDirectory(todo); } else { StepOfNamedShard(store, s, todo); }
          todo' := Children(item.tree, ItemPath(item)) + todo[1..];
        case FileNode(_, _) =>
          ft' := StepOfFile(store, s, todo);
          todo' := todo[1..];
        case SymlinkNode(_, _, _) =>
          StepOfSymlink(store, s, todo);
          todo' := todo[1..];
      }
    }
  }

  lemma {:induction false} BucketAfterDirectory(todo: seq<Item>)
    requires todo != [] && todo[0].name == ""
    ensures !TodoSafe(true, todo)
  {
  }

  lemma {:induction false} WalkedOut(store: map<Cid, PbBlock>, s: State, todo: seq<Item>, ft: seq<Placed>)
    requires Walking(store, s, todo, ft) && !s.more
    ensures RestEvents(s.current.value, todo, ft) == [] && RestBlocks(todo, ft) == []
    ensures TodoSafe(AtDirectory(s.current.value), todo)
  {
  }

  lemma {:induction false} ReportNothingStale(es: seq<Event>)
    ensures Report(es, None) == es
  {
    if es != [] {
      ReportNothingStale(es[1..]);
    }
  }

  /** The first step on a tree's root block took the root off the account. */
  ghost predicate Begins(store: map<Cid, PbBlock>, t: Tree, name: string, todo: seq<Item>, ft: seq<Placed>) {
    && TreeCid(t) in store
    && var r := Step(Initial(TreeCid(t), name), store[TreeCid(t)]);
    && r.Stepped? && r.state.current.Some? && Walking(store, r.state, todo, ft)
    && var e := r.state.current.value;
    && WalkEvents(t, name) == [r.event] + RestEvents(e, todo, ft)
    && Blocks(t) == [TreeCid(t)] + RestBlocks(todo, ft)
    && (Safe(t) <==> TodoSafe(AtDirectory(e), todo))
  }

  predicate RootName(name: string) { name == "" || GoodName(name) }

  /** The entry of a directory or shard at the root. */
  function RootEntry(t: Tree, name: string): Entry
    requires t.Dir? || t.Shard?
  {
    var path := PushName([], name);
    Entry(t.cid, if t.Dir? then RootDirectory else BucketAtRoot, path, t.meta, |path| + 1)
  }

  lemma {:induction false} DirectoryRootStep(store: map<Cid, PbBlock>, t: Tree, name: string)
    requires (t.Dir? || t.Shard?) && TreeStored(store, t) && WellNamed(t) && RootName(name)
    ensures var e := RootEntry(t, name);
            Step(Initial(t.cid, name), store[t.cid])
            == Stepped(Arrived(e, Item(t, name, []), []), RootDirectoryEvent(t.cid, e.path, t.meta))
  {
    hide WellNamed, PushLinks, Children, Reverse, PendingItems;
    ArrivedPending(store, Item(t, name, []), PushName([], name), []);
    NothingPending();
    assert IsTreeBlock(store[t.cid], t);
    hide TreeStored, LinksMatch, Popped;
    if t.Dir? {
      hide StepShard;
    } else {
      hide StepDirectory;
    }
  }

  lemma {:induction false} NothingPending()
    ensures Reverse(PendingItems([])) == []
  {
  }

  lemma {:induction false} DirectoryRootAccount(t: Tree, name: string)
    requires (t.Dir? || t.Shard?) && WellNamed(t)
    ensures var e := RootEntry(t, name);
            var todo := Children(t, e.path);
            && WalkEvents(t, name) == [RootDirectoryEvent(t.cid, e.path, t.meta)] + RestEvents(e, todo, [])
            && Blocks(t) == [t.cid] + RestBlocks(todo, [])
            && (Safe(t) <==> TodoSafe(AtDirectory(e), todo))
  {
    var e := RootEntry(t, name);
    var todo := Children(t, e.path);
    assert todo + [] == todo;
    ChildrenSummary(t, e.path, []);
    DirectoryRootEvents(t, name);
    hide Children, WellNamed, Blocks, EntryEvents, WalkEvents;
    NoFileEvents(e, todo);
    assert AllEvents(todo) == EntryEvents(t.entries, t.Shard?, e.path);
    assert Blocks(t) + [] == Blocks(t);
  }

  lemma {:induction false} DirectoryBegins(store: map<Cid, PbBlock>, t: Tree, name: string)
    requires (t.Dir? || t.Shard?) && TreeStored(store, t) && WellNamed(t) && RootName(name)
    ensures Begins(store, t, name, Children(t, PushName([], name)), [])
  {
    var e := RootEntry(t, name);
    var todo := Children(t, e.path);
    assert todo + [] == todo;
    DirectoryRootStep(store, t, name);
    DirectoryRootAccount(t, name);
    hide Step, WellNamed, Children, WalkEvents, RestEvents, RestBlocks, Blocks, TodoSafe, Safe;
    ArrivedWalks(store, e, Item(t, name, []), []);
    hide Walking;
  }

  lemma {:induction false} DirectoryRootEvents(t: Tree, name: string)
    requires t.Dir? || t.Shard?
    ensures var path := PushName([], name);
            WalkEvents(t, name) == [RootDirectoryEvent(t.cid, path, t.meta)]
                                   + Report(EntryEvents(t.entries, t.Shard?, path), if t.Dir? then None else Some(t.cid))
  {
    var path := PushName([], name);
    var es := Events(Item(t, name, []), true);
    assert es[1..] == EntryEvents(t.entries, t.Shard?, path);
    if t.Dir? {
      ReportNothingStale(EntryEvents(t.entries, false, path));
    }
  }

  lemma {:induction false} FileRootStep(store: map<Cid, PbBlock>, t: Tree, name: string, v: Visited)
    requires t.FileNode? && t.file.cid in store && IsTreeBlock(store[t.file.cid], t) && RootName(name)
    requires Start(store[t.file.cid].node, None) == Done(v)
    ensures var path := PushName([], name);
            var e := Entry(t.file.cid, FileKind(v.rest, v.fileSize), path, v.meta, |path| + 1);
            Step(Initial(t.file.cid, name), store[t.file.cid])
            == Stepped(State(Some(e), None, [], v.rest.Some?), FileEvent(Segment(v.bytes, true, v.rest.None?), e.cid, path, v.meta, v.fileSize))
  {
    FileBlockType(store[t.file.cid], t.file);
    hide Start, IsFileBlock;
  }

  lemma {:induction false} FileRootAccount(t: Tree, name: string, bytes: Bytes, e: Entry, ft: seq<Placed>)
    requires t.FileNode? && Segments(t.file, 0, None) == [(t.file.cid, bytes)] + PlacedSegments(ft, None)
    requires e.kind.FileKind? && e.kind.size == Size(t.file)
    requires e.cid == t.file.cid && e.path == PushName([], name) && e.meta == t.meta
    ensures WalkEvents(t, name)
            == [FileEvent(Segment(bytes, true, ft == []), e.cid, e.path, e.meta, e.kind.size)] + RestEvents(e, [], ft)
    ensures Blocks(t) == [t.file.cid] + RestBlocks([], ft)
    ensures Safe(t) && TodoSafe(AtDirectory(e), [])
  {
    var tail := PlacedSegments(ft, None);
    SegmentsNonEmpty(ft);
    assert SegmentCids([(t.file.cid, bytes)] + tail) == [t.file.cid] + SegmentCids(tail) by {
      assert ([(t.file.cid, bytes)] + tail)[1..] == tail;
    }
    hide Segments, PlacedSegments, Size, SegmentCids;
    FileEventsCons((t.file.cid, bytes), tail, true, e.cid, e.path, e.meta, e.kind.size);
    hide FileEvents;
    var rest := FileEvents(tail, false, e.cid, e.path, e.meta, e.kind.size);
    assert rest + [] == rest;
    assert SegmentCids(tail) + [] == SegmentCids(tail);
    FileRootEvents(t, name);
  }

  lemma {:induction false} FileRootEvents(t: Tree, name: string)
    requires t.FileNode?
    ensures WalkEvents(t, name) == FileEvents(Segments(t.file, 0, None), true, t.file.cid, PushName([], name), t.meta, Size(t.file))
  {
    hide Segments, FileEvents, Size;
    var top := TopEvents(Item(t, name, []), true);
    assert top + [] == top;
  }

  lemma {:induction false} FileBegins(store: map<Cid, PbBlock>, t: Tree, name: string)
    returns (ft: seq<Placed>)
    requires t.FileNode? && TreeStored(store, t) && RootName(name)
    ensures Begins(store, t, name, [], ft)
  {
    var file, path := t.file, PushName([], name);
    assert IsTreeBlock(store[file.cid], t) && FileStored(store, file, true);
    hide Start, Started, FileStored, Segments, Size, PlacedSegments, WalkEvents, RestEvents, RestBlocks, Blocks, Step, IsFileBlock, TreeStored, Safe;
    ft := StartVisits(store, file, None);
    StartedFacts(store, file, ft);
    var v := Start(store[file.cid].node, None).value;
    var e := Entry(file.cid, FileKind(v.rest, v.fileSize), path, v.meta, |path| + 1);
    FileRootStep(store, t, name, v);
    FileRootAccount(t, name, v.bytes, e, ft);
    hide Visiting;
    assert Walking(store, State(Some(e), None, [], v.rest.Some?), [], ft);
  }

  lemma {:induction false} SymlinkBegins(store: map<Cid, PbBlock>, t: Tree, name: string)
    requires t.SymlinkNode? && TreeStored(store, t) && RootName(name)
    ensures Begins(store, t, name, [], [])
  {
    var path := PushName([], name);
    var e := Entry(t.cid, SymlinkKind, path, t.meta, |path| + 1);
    assert Step(Initial(t.cid, name), store[t.cid]) == Stepped(State(Some(e), None, [], false), SymlinkEvent(t.target, t.cid, path, t.meta));
    hide Step, TreeStored;
    assert Walking(store, State(Some(e), None, [], false), [], []);
    hide Walking;
    NoFileEvents(e, []);
    hide RestEvents, RestBlocks;
    assert WalkEvents(t, name) == [SymlinkEvent(t.target, t.cid, path, t.meta)] + [];
  }

  /** The first step reports the root and leaves the rest of the tree to go. */
  lemma {:induction false} RootWalks(store: map<Cid, PbBlock>, t: Tree, name: string)
    returns (todo: seq<Item>, ft: seq<Placed>)
    requires TreeStored(store, t) && WellNamed(t) && RootName(name)
    ensures Begins(store, t, name, todo, ft)
  {
    todo, ft := [], [];
    if t.FileNode? {
      ft := FileBegins(store, t, name);
    } else if t.SymlinkNode? {
      SymlinkBegins(store, t, name);
    } else {
      DirectoryBegins(store, t, name);
      todo := Children(t, PushName([], name));
    }
  }

  function FileCids(ft: seq<Placed>): seq<Cid> {
    if ft == [] then [] else [ft[0].tree.cid] + FileCids(ft[1..])
  }

  function ItemCids(todo: seq<Item>): seq<Cid> {
    if todo == [] then [] else [TreeCid(todo[0].tree)] + ItemCids(todo[1..])
  }

  lemma {:induction false} QueueCids(s: State, todo: seq<Item>)
    requires Queue(s, todo)
    ensures (if s.next.Some? then [s.next.value.cid] else []) + StackOrder(s.pending) == ItemCids(todo)
  {
    if todo != [] {
      StackCids(todo[1..]);
      hide StackOrder;
    }
  }

  /** The links a walker offers for prefetching are those of the entries still to go, soonest first. */
  lemma {:induction false} PrefetchOrder(store: map<Cid, PbBlock>, s: State, todo: seq<Item>, ft: seq<Placed>)
    requires Walking(store, s, todo, ft) && s.more
    ensures NextLinks(s).Some?
    ensures [NextLinks(s).value.0] + NextLinks(s).value.1 == FileCids(ft) + ItemCids(todo)
  {
    hide StackOrder, ItemsOk, Stacked, AllAt;
    QueueCids(s, todo);
    var next := if s.next.Some? then [s.next.value.cid] else [];
    if ft != [] {
      var v := s.current.value.kind.visit.value;
      var (first, rest) := VisitLinks(v);
      VisitCids(v, ft);
      hide Walking, Visiting, VisitLinks, Queue;
      Assoc([first], rest, ItemCids(todo));
      Assoc(rest, next, StackOrder(s.pending));
    } else {
      assert FileCids(ft) + ItemCids(todo) == ItemCids(todo);
    }
  }

  lemma {:induction false} StackCids(todo: seq<Item>)
    ensures StackOrder(Reverse(PendingItems(todo))) == ItemCids(todo)
  {
    if todo != [] {
      StackCids(todo[1..]);
      var all := PendingItems(todo);
      assert all[1..] == PendingItems(todo[1..]);
      assert Reverse(all)[..|all| - 1] == Reverse(all[1..]);
    }
  }

  lemma {:induction false} ReversedCids(ft: seq<Placed>, i: nat)
    requires i < |ft|
    ensures |FileCids(ft)| == |ft| && Reverse(AsPending(ft))[|ft| - 1 - i].cid == FileCids(ft)[i]
    decreases ft
  {
    var all := AsPending(ft);
    assert all[1..] == AsPending(ft[1..]);
    if i > 0 {
      ReversedCids(ft[1..], i - 1);
      assert Reverse(all)[|ft| - 1 - i] == Reverse(all[1..])[|ft| - 1 - i];
    } else if |ft| > 1 {
      ReversedCids(ft[1..], 0);
    }
  }

  lemma {:induction false} VisitCids(v: Visit, ft: seq<Placed>)
    requires ft != [] && v.pending == Reverse(AsPending(ft))
    ensures [VisitLinks(v).0] + VisitLinks(v).1 == FileCids(ft)
  {
    ReversedCids(ft, 0);
    var all := [VisitLinks(v).0] + VisitLinks(v).1;
    forall i | 0 <= i < |ft|
      ensures all[i] == FileCids(ft)[i]
    {
      ReversedCids(ft, i);
    }
  }

  /** A block that does not parse ends the walk with an error, except in the middle of a file,
      where it panics. */
  lemma {:induction false} UnreadableBlock(store: map<Cid, PbBlock>, s: State, todo: seq<Item>, ft: seq<Placed>, b: PbBlock)
    requires Walking(store, s, todo, ft) && s.more && !b.Parsed?
    ensures if ft == [] then Step(s, b).Errored? && Step(s, b).error == ParsingFailed else Step(s, b).StepPanic?
  {
    if ft != [] {
      PendingTail(s.current.value.kind.visit.value, ft);
    }
  }
}
