/** UnixFS trees, their recursive pre-order, and the walk's agreement with it. */
module WalkTree {
  import opened Common
  import opened UnixFs
  import opened FileVisit
  import opened Walk

  /** The unfolded tree below a root block. */
  datatype Tree =
    | Dir(cid: Cid, meta: Metadata, entries: seq<TreeEntry>)
    | Shard(cid: Cid, meta: Metadata, entries: seq<TreeEntry>)
    | FileNode(file: FileTree, meta: Metadata)
    | SymlinkNode(cid: Cid, meta: Metadata, target: Bytes)

  datatype TreeEntry = TreeEntry(name: string, tree: Tree)

  function TreeCid(t: Tree): Cid { if t.FileNode? then t.file.cid else t.cid }

  ghost predicate LinksMatch(links: seq<PbLink>, entries: seq<TreeEntry>) {
    && |links| == |entries|
    && forall i :: 0 <= i < |links| ==> links[i] == PbLink(Some(TreeCid(entries[i].tree)), entries[i].name)
  }

  ghost predicate IsTreeBlock(b: PbBlock, t: Tree) {
    && b.Parsed?
    && b.node.meta == t.meta
    && match t
       case Dir(_, _, entries) =>
         && b.node.typ == Directory && LinksMatch(b.node.links, entries)
         && b.node.data == [] && b.node.filesize.None? && b.node.blocksizes == []
         && b.node.hashType.None? && b.node.fanout.None?
       case Shard(_, _, entries) =>
         && b.node.typ == HamtShard && LinksMatch(b.node.links, entries)
         && b.node.hashType == Some(34) && b.node.fanout == Some(256)
         && b.node.filesize.None? && b.node.blocksizes == []
       case FileNode(file, _) => IsFileBlock(b, file, true)
       case SymlinkNode(_, _, target) => b.node.typ == Symlink && b.node.data == target
  }

  /** The store holds the blocks of the whole tree. */
  ghost predicate TreeStored(store: map<Cid, PbBlock>, t: Tree)
    decreases t, 1
  {
    && TreeCid(t) in store && IsTreeBlock(store[TreeCid(t)], t)
    && match t
       case Dir(_, _, entries) => EntriesStored(store, entries)
       case Shard(_, _, entries) => EntriesStored(store, entries)
       case FileNode(file, _) => FileStored(store, file, true)
       case SymlinkNode(_, _, _) => true
  }

  ghost predicate EntriesStored(store: map<Cid, PbBlock>, es: seq<TreeEntry>)
    decreases es, 0
  {
    es != [] ==> TreeStored(store, es[0].tree) && EntriesStored(store, es[1..])
  }

  /** A name that is one component of a path. */
  predicate GoodName(name: string) { name != "" && '/' !in name && name != "." }

  predicate EntryNameOk(e: TreeEntry, sharded: bool) {
    if !sharded then GoodName(e.name)
    else |e.name| >= 2 && (if |e.name| == 2 then e.tree.Shard? else GoodName(e.name[2..]))
  }

  /** Every name is usable, and two-character shard links lead to further buckets. */
  predicate WellNamed(t: Tree)
    decreases t, 1
  {
    match t
    case Dir(_, _, entries) => EntriesWellNamed(entries, false)
    case Shard(_, _, entries) => EntriesWellNamed(entries, true)
    case FileNode(_, _) => true
    case SymlinkNode(_, _, _) => true
  }

  predicate EntriesWellNamed(es: seq<TreeEntry>, sharded: bool)
    decreases es, 0
  {
    es != [] ==> EntryNameOk(es[0], sharded) && WellNamed(es[0].tree) && EntriesWellNamed(es[1..], sharded)
  }

  /** A tree at a place: its name (empty for a continuation bucket) below the path of its directory. */
  datatype Item = Item(tree: Tree, name: string, parent: Path)

  function ItemPath(i: Item): Path { PushName(i.parent, i.name) }

  function EntryItem(e: TreeEntry, sharded: bool, path: Path): Item {
    if !sharded then Item(e.tree, e.name, path)
    else Item(e.tree, if |e.name| <= 2 then "" else e.name[2..], path)
  }

  function EntryItems(es: seq<TreeEntry>, sharded: bool, path: Path): (r: seq<Item>)
    ensures |r| == |es|
  {
    if es == [] then [] else [EntryItem(es[0], sharded, path)] + EntryItems(es[1..], sharded, path)
  }

  function Children(t: Tree, path: Path): seq<Item> {
    if t.Dir? || t.Shard? then EntryItems(t.entries, t.Shard?, path) else []
  }

  // ---------------------------------------------------------------------------------------------
  // The recursive pre-order

  function FileEvents(ss: seq<(Cid, Bytes)>, first: bool, cid: Cid, path: Path, meta: Metadata, size: nat): seq<Event> {
    if ss == [] then []
    else [FileEvent(Segment(ss[0].1, first, |ss| == 1), cid, path, meta, size)]
         + FileEvents(ss[1..], false, cid, path, meta, size)
  }

  /** The event of the block at the top of a tree; files report all their blocks. */
  function TopEvents(i: Item, root: bool): seq<Event> {
    var path := ItemPath(i);
    match i.tree
    case Dir(cid, meta, _) => [if root then RootDirectoryEvent(cid, path, meta) else DirectoryEvent(cid, path, meta)]
    case Shard(cid, meta, _) => [if !root && i.name == "" then BucketEvent(cid, path) else RootDirectoryEvent(cid, path, meta)]
    case FileNode(file, meta) => FileEvents(Segments(file, 0, None), true, file.cid, path, meta, Size(file))
    case SymlinkNode(cid, meta, target) => [SymlinkEvent(target, cid, path, meta)]
  }

  function Events(i: Item, root: bool): seq<Event>
    decreases i.tree, 1
  {
    TopEvents(i, root)
    + match i.tree
      case Dir(_, _, entries) => EntryEvents(entries, false, ItemPath(i))
      case Shard(_, _, entries) => EntryEvents(entries, true, ItemPath(i))
      case FileNode(_, _) => []
      case SymlinkNode(_, _, _) => []
  }

  function EntryEvents(es: seq<TreeEntry>, sharded: bool, path: Path): seq<Event>
    decreases es, 0
  {
    if es == [] then []
    else Events(EntryItem(es[0], sharded, path), false) + EntryEvents(es[1..], sharded, path)
  }

  function AllEvents(todo: seq<Item>): seq<Event> {
    if todo == [] then [] else Events(todo[0], false) + AllEvents(todo[1..])
  }

  /** The blocks of the unfolded tree in pre-order. */
  function Blocks(t: Tree): seq<Cid>
    decreases t, 1
  {
    match t
    case Dir(cid, _, entries) => [cid] + EntryBlocks(entries)
    case Shard(cid, _, entries) => [cid] + EntryBlocks(entries)
    case FileNode(file, _) => SegmentCids(Segments(file, 0, None))
    case SymlinkNode(cid, _, _) => [cid]
  }

  function EntryBlocks(es: seq<TreeEntry>): seq<Cid>
    decreases es, 0
  {
    if es == [] then [] else Blocks(es[0].tree) + EntryBlocks(es[1..])
  }

  function AllBlocks(todo: seq<Item>): seq<Cid> {
    if todo == [] then [] else Blocks(todo[0].tree) + AllBlocks(todo[1..])
  }

  /** While only buckets of a sharded root have been seen, the walk reports the root's cid for them. */
  function Report(es: seq<Event>, stale: Option<Cid>): seq<Event> {
    if es == [] then []
    else if es[0].BucketEvent? && stale.Some? then [BucketEvent(stale.value, es[0].path)] + Report(es[1..], stale)
    else [es[0]] + Report(es[1..], None)
  }

  /** What a whole walk reports. */
  function WalkEvents(t: Tree, name: string): seq<Event> {
    var es := Events(Item(t, name, []), true);
    if t.Shard? && es != [] then [es[0]] + Report(es[1..], Some(t.cid)) else es
  }

  // ---------------------------------------------------------------------------------------------
  // Where the walk cannot go on: a bucket right after an empty plain directory

  /** The last entry of the tree's pre-order is an empty plain directory. */
  predicate EndsInEmptyDir(t: Tree)
    decreases t, 1
  {
    match t
    case Dir(_, _, entries) => EntriesEnd(true, entries)
    case Shard(_, _, entries) => EntriesEnd(false, entries)
    case FileNode(_, _) => false
    case SymlinkNode(_, _, _) => false
  }

  predicate EntriesEnd(before: bool, es: seq<TreeEntry>)
    decreases es, 0
  {
    if es == [] then before else EntriesEnd(EndsInEmptyDir(es[0].tree), es[1..])
  }

  /** No continuation bucket directly follows an empty plain directory anywhere in the tree. */
  predicate Safe(t: Tree)
    decreases t, 1
  {
    match t
    case Dir(_, _, entries) => EntriesSafe(true, entries, false)
    case Shard(_, _, entries) => EntriesSafe(false, entries, true)
    case FileNode(_, _) => true
    case SymlinkNode(_, _, _) => true
  }

  predicate EntriesSafe(afterEmptyDir: bool, es: seq<TreeEntry>, sharded: bool)
    decreases es, 0
  {
    es != [] ==>
      && !(afterEmptyDir && sharded && |es[0].name| == 2)
      && Safe(es[0].tree)
      && EntriesSafe(EndsInEmptyDir(es[0].tree), es[1..], sharded)
  }

  predicate TodoEnd(before: bool, todo: seq<Item>)
    decreases todo
  {
    if todo == [] then before else TodoEnd(EndsInEmptyDir(todo[0].tree), todo[1..])
  }

  predicate TodoSafe(afterEmptyDir: bool, todo: seq<Item>)
    decreases todo
  {
    todo != [] ==>
      && !(afterEmptyDir && todo[0].name == "")
      && Safe(todo[0].tree)
      && TodoSafe(EndsInEmptyDir(todo[0].tree), todo[1..])
  }

  // ---------------------------------------------------------------------------------------------
  // Lists of items: appending, and the items below a directory

  lemma {:induction false} EventsAppend(a: seq<Item>, b: seq<Item>)
    ensures AllEvents(a + b) == AllEvents(a) + AllEvents(b)
    ensures AllBlocks(a + b) == AllBlocks(a) + AllBlocks(b)
  {
    hide Events, Blocks;
    if a == [] {
      assert a + b == b;
    } else {
      assert (a + b)[0] == a[0] && (a + b)[1..] == a[1..] + b;
      EventsAppend(a[1..], b);
      Assoc(Events(a[0], false), AllEvents(a[1..]), AllEvents(b));
      Assoc(Blocks(a[0].tree), AllBlocks(a[1..]), AllBlocks(b));
    }
  }

  lemma {:induction false} SafeAppend(before: bool, a: seq<Item>, b: seq<Item>)
    ensures TodoSafe(before, a + b) <==> TodoSafe(before, a) && TodoSafe(TodoEnd(before, a), b)
    decreases a
  {
    if a == [] {
      assert a + b == b;
    } else {
      assert (a + b)[1..] == a[1..] + b;
      hide Safe, EndsInEmptyDir;
      SafeAppend(EndsInEmptyDir(a[0].tree), a[1..], b);
    }
  }

  lemma {:induction false} EntryItemsSummary(es: seq<TreeEntry>, sharded: bool, path: Path, before: bool)
    requires EntriesWellNamed(es, sharded)
    ensures AllEvents(EntryItems(es, sharded, path)) == EntryEvents(es, sharded, path)
    ensures AllBlocks(EntryItems(es, sharded, path)) == EntryBlocks(es)
    ensures TodoSafe(before, EntryItems(es, sharded, path)) <==> EntriesSafe(before, es, sharded)
    ensures TodoEnd(before, EntryItems(es, sharded, path)) == EntriesEnd(before, es)
    decreases es
  {
    if es != [] {
      EntryItemsSummary(es[1..], sharded, path, EndsInEmptyDir(es[0].tree));
    }
  }

  lemma {:induction false} ChildrenUnfold(t: Tree, path: Path)
    requires t.Dir? || t.Shard?
    requires WellNamed(t)
    ensures EntriesWellNamed(t.entries, t.Shard?)
    ensures Children(t, path) == EntryItems(t.entries, t.Shard?, path)
    ensures Blocks(t) == [t.cid] + EntryBlocks(t.entries)
    ensures Safe(t) <==> EntriesSafe(t.Dir?, t.entries, t.Shard?)
    ensures EndsInEmptyDir(t) <==> EntriesEnd(t.Dir?, t.entries)
  {
  }

  /** Replacing a directory by its entries accounts for everything except its own block. */
  lemma {:induction false} ChildrenSummary(t: Tree, path: Path, rest: seq<Item>)
    requires t.Dir? || t.Shard?
    requires WellNamed(t)
    ensures AllEvents(Children(t, path) + rest) == EntryEvents(t.entries, t.Shard?, path) + AllEvents(rest)
    ensures Blocks(t) + AllBlocks(rest) == [t.cid] + AllBlocks(Children(t, path) + rest)
    ensures TodoSafe(t.Dir?, Children(t, path) + rest) <==> Safe(t) && TodoSafe(EndsInEmptyDir(t), rest)
  {
    hide WellNamed, EntriesWellNamed, Children, EntryItems, Blocks, EntryBlocks, AllBlocks, EntryEvents, AllEvents, Safe,
      EntriesSafe, TodoSafe, TodoEnd, EndsInEmptyDir, EntriesEnd;
    ChildrenUnfold(t, path);
    EntryItemsSummary(t.entries, t.Shard?, path, t.Dir?);
    EventsAppend(Children(t, path), rest);
    SafeAppend(t.Dir?, Children(t, path), rest);
  }
}
