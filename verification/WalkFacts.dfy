/** What the pre-order says about files, sharded directories and where the walk cannot go. */
module WalkFacts {
  import opened Common
  import opened UnixFs
  import opened FileVisit
  import opened Walk
  import opened WalkTree
  import opened WalkRun

  // ---------------------------------------------------------------------------------------------
  // Files

  function EventBytes(es: seq<Event>): Bytes {
    if es == [] then []
    else (if es[0].FileEvent? then es[0].segment.bytes else []) + EventBytes(es[1..])
  }

  lemma {:induction false} FileEventsShape(ss: seq<(Cid, Bytes)>, first: bool, cid: Cid, path: Path, meta: Metadata, size: nat)
    ensures var es := FileEvents(ss, first, cid, path, meta, size);
            && |es| == |ss|
            && EventBytes(es) == SegmentBytes(ss)
            && forall i :: 0 <= i < |es| ==>
                 es[i] == FileEvent(Segment(ss[i].1, first && i == 0, i == |es| - 1), cid, path, meta, size)
    decreases ss
  {
    if ss != [] {
      FileEventsShape(ss[1..], false, cid, path, meta, size);
      var es, tail := FileEvents(ss, first, cid, path, meta, size), FileEvents(ss[1..], false, cid, path, meta, size);
      assert es[1..] == tail;
      forall i | 0 <= i < |es|
        ensures es[i] == FileEvent(Segment(ss[i].1, first && i == 0, i == |es| - 1), cid, path, meta, size)
      {
        if i > 0 {
          assert es[i] == tail[i - 1];
        }
      }
    }
  }

  /** A file's segments come one after the other, the first alone flagged first and the last alone
      flagged last, and together they are the file. */
  lemma {:induction false} FileSegments(item: Item, root: bool)
    requires item.tree.FileNode?
    ensures var es := Events(item, root);
            && es != []
            && EventBytes(es) == FileBytes(item.tree.file)
            && forall i :: 0 <= i < |es| ==>
                 && es[i].FileEvent? && es[i].path == ItemPath(item) && es[i].size == Size(item.tree.file)
                 && (es[i].segment.first <==> i == 0)
                 && (es[i].segment.last <==> i == |es| - 1)
  {
    var t := item.tree;
    var ss := Segments(t.file, 0, None);
    assert ss != [];
    SegmentsCarryTarget(t.file, 0, None);
    hide Segments, FileBytes, SegmentBytes, EventBytes;
    FileEventsShape(ss, true, t.file.cid, ItemPath(item), t.meta, Size(t.file));
    assert Events(item, root) == FileEvents(ss, true, t.file.cid, ItemPath(item), t.meta, Size(t.file));
  }

  // ---------------------------------------------------------------------------------------------
  // One call per block

  lemma {:induction false} SegmentCidsLength(ss: seq<(Cid, Bytes)>)
    ensures |SegmentCids(ss)| == |ss|
  {
    if ss != [] {
      SegmentCidsLength(ss[1..]);
    }
  }

  lemma {:induction false} OneEventPerBlock(item: Item, root: bool)
    ensures |Events(item, root)| == |Blocks(item.tree)|
    decreases item.tree, 1
  {
    match item.tree {
      case Dir(_, _, entries) => EntriesOneEventPerBlock(entries, false, ItemPath(item));
      case Shard(_, _, entries) => EntriesOneEventPerBlock(entries, true, ItemPath(item));
      case FileNode(file, meta) =>
        SegmentCidsLength(Segments(file, 0, None));
        FileEventsShape(Segments(file, 0, None), true, file.cid, ItemPath(item), meta, Size(file));
      case SymlinkNode(_, _, _) =>
    }
  }

  lemma {:induction false} EntriesOneEventPerBlock(es: seq<TreeEntry>, sharded: bool, path: Path)
    ensures |EntryEvents(es, sharded, path)| == |EntryBlocks(es)|
    decreases es, 0
  {
    if es != [] {
      OneEventPerBlock(EntryItem(es[0], sharded, path), false);
      EntriesOneEventPerBlock(es[1..], sharded, path);
    }
  }

  // ---------------------------------------------------------------------------------------------
  // Sharded directories flatten

  /** A directory tree as a user sees it, with the buckets of sharded directories merged. */
  datatype Flat =
    | FlatDir(cid: Cid, meta: Metadata, sharded: bool, entries: seq<FlatEntry>)
    | FlatFile(file: FileTree, meta: Metadata)
    | FlatSymlink(cid: Cid, meta: Metadata, target: Bytes)

  datatype FlatEntry = FlatEntry(name: string, node: Flat)

  function Flatten(t: Tree): Flat
    decreases t, 1
  {
    match t
    case Dir(cid, meta, entries) => FlatDir(cid, meta, false, FlattenEntries(entries, false))
    case Shard(cid, meta, entries) => FlatDir(cid, meta, true, FlattenEntries(entries, true))
    case FileNode(file, meta) => FlatFile(file, meta)
    case SymlinkNode(cid, meta, target) => FlatSymlink(cid, meta, target)
  }

  function FlattenEntries(es: seq<TreeEntry>, sharded: bool): seq<FlatEntry>
    decreases es, 0
  {
    if es == [] then []
    else
      (if !sharded then [FlatEntry(es[0].name, Flatten(es[0].tree))]
       else if |es[0].name| > 2 then [FlatEntry(es[0].name[2..], Flatten(es[0].tree))]
       else if es[0].tree.Shard? then FlattenEntries(es[0].tree.entries, true)
       else [])
      + FlattenEntries(es[1..], sharded)
  }

  function FlatEvents(f: Flat, path: Path, root: bool): seq<Event>
    decreases f, 1
  {
    match f
    case FlatDir(cid, meta, sharded, entries) =>
      [if root || sharded then RootDirectoryEvent(cid, path, meta) else DirectoryEvent(cid, path, meta)]
      + FlatEntryEvents(entries, path)
    case FlatFile(file, meta) => FileEvents(Segments(file, 0, None), true, file.cid, path, meta, Size(file))
    case FlatSymlink(cid, meta, target) => [SymlinkEvent(target, cid, path, meta)]
  }

  function FlatEntryEvents(es: seq<FlatEntry>, path: Path): seq<Event>
    decreases es, 0
  {
    if es == [] then [] else FlatEvents(es[0].node, path + [es[0].name], false) + FlatEntryEvents(es[1..], path)
  }

  function WithoutBuckets(es: seq<Event>): seq<Event> {
    if es == [] then []
    else (if es[0].BucketEvent? then [] else [es[0]]) + WithoutBuckets(es[1..])
  }

  lemma {:induction false} WithoutBucketsAppend(a: seq<Event>, b: seq<Event>)
    ensures WithoutBuckets(a + b) == WithoutBuckets(a) + WithoutBuckets(b)
  {
    if a == [] {
      assert a + b == b;
    } else {
      assert (a + b)[1..] == a[1..] + b;
      WithoutBucketsAppend(a[1..], b);
    }
  }

  lemma {:induction false} FlatEntryEventsAppend(a: seq<FlatEntry>, b: seq<FlatEntry>, path: Path)
    ensures FlatEntryEvents(a + b, path) == FlatEntryEvents(a, path) + FlatEntryEvents(b, path)
  {
    if a == [] {
      assert a + b == b;
    } else {
      assert (a + b)[1..] == a[1..] + b;
      hide FlatEvents;
      FlatEntryEventsAppend(a[1..], b, path);
    }
  }

  lemma {:induction false} FilesHaveNoBuckets(ss: seq<(Cid, Bytes)>, first: bool, cid: Cid, path: Path, meta: Metadata, size: nat)
    ensures WithoutBuckets(FileEvents(ss, first, cid, path, meta, size)) == FileEvents(ss, first, cid, path, meta, size)
    decreases ss
  {
    if ss != [] {
      FilesHaveNoBuckets(ss[1..], false, cid, path, meta, size);
      assert FileEvents(ss, first, cid, path, meta, size)[1..] == FileEvents(ss[1..], false, cid, path, meta, size);
    }
  }

  /** Leaving the bucket steps out, the walk is the pre-order of the flattened tree. */
  lemma {:induction false} ShardsFlatten(item: Item, root: bool)
    requires WellNamed(item.tree) && (root || item.name != "")
    ensures WithoutBuckets(Events(item, root)) == FlatEvents(Flatten(item.tree), ItemPath(item), root)
    decreases item.tree, 1
  {
    var path := ItemPath(item);
    match item.tree {
      case Dir(_, _, entries) =>
        EntriesFlatten(entries, false, path);
        assert Events(item, root)[1..] == EntryEvents(entries, false, path);
      case Shard(_, _, entries) =>
        EntriesFlatten(entries, true, path);
        assert Events(item, root)[1..] == EntryEvents(entries, true, path);
      case FileNode(file, meta) =>
        var top := FileEvents(Segments(file, 0, None), true, file.cid, path, meta, Size(file));
        FilesHaveNoBuckets(Segments(file, 0, None), true, file.cid, path, meta, Size(file));
        assert Events(item, root) == top;
      case SymlinkNode(_, _, _) =>
    }
  }

  lemma {:induction false} EntriesFlatten(es: seq<TreeEntry>, sharded: bool, path: Path)
    requires EntriesWellNamed(es, sharded)
    ensures WithoutBuckets(EntryEvents(es, sharded, path)) == FlatEntryEvents(FlattenEntries(es, sharded), path)
    decreases es, 0
  {
    if es != [] {
      EntryFlattens(es[0], sharded, path);
      EntriesFlatten(es[1..], sharded, path);
      var item := EntryItem(es[0], sharded, path);
      FlattenCons(es, sharded);
      hide Flatten, FlattenEntries, Events, WithoutBuckets, FlatEntryEvents;
      WithoutBucketsAppend(Events(item, false), EntryEvents(es[1..], sharded, path));
      FlatEntryEventsAppend(FlattenEntries([es[0]], sharded), FlattenEntries(es[1..], sharded), path);
    }
  }

  lemma {:induction false} FlattenCons(es: seq<TreeEntry>, sharded: bool)
    requires es != []
    ensures FlattenEntries(es, sharded) == FlattenEntries([es[0]], sharded) + FlattenEntries(es[1..], sharded)
  {
    hide Flatten;
    assert [es[0]][1..] == [];
  }

  lemma {:induction false} EntryFlattens(e: TreeEntry, sharded: bool, path: Path)
    requires EntryNameOk(e, sharded) && WellNamed(e.tree)
    ensures WithoutBuckets(Events(EntryItem(e, sharded, path), false)) == FlatEntryEvents(FlattenEntries([e], sharded), path)
    decreases e, 0
  {
    var item := EntryItem(e, sharded, path);
    assert [e][1..] == [];
    if item.name == "" {
      EntriesFlatten(e.tree.entries, true, path);
      assert Events(item, false)[1..] == EntryEvents(e.tree.entries, true, path);
      assert FlattenEntries([e], sharded) == FlattenEntries(e.tree.entries, true);
    } else {
      ShardsFlatten(item, false);
      assert FlattenEntries([e], sharded) == [FlatEntry(item.name, Flatten(e.tree))];
      assert [FlatEntry(item.name, Flatten(e.tree))][1..] == [];
    }
  }

  /** The wrong cids of leading buckets are all that distinguishes the report from the pre-order. */
  lemma {:induction false} ReportKeepsTheRest(es: seq<Event>, stale: Option<Cid>)
    ensures WithoutBuckets(Report(es, stale)) == WithoutBuckets(es)
  {
    if es != [] {
      ReportKeepsTheRest(es[1..], stale);
      ReportKeepsTheRest(es[1..], None);
      var r := Report(es, stale);
      assert r[1..] == Report(es[1..], if es[0].BucketEvent? && stale.Some? then stale else None);
    }
  }

  /** A whole walk of any well-named tree reports the flattened tree, plus bucket steps. */
  lemma {:induction false} WalkFlattens(t: Tree, name: string)
    requires WellNamed(t)
    ensures WithoutBuckets(WalkEvents(t, name)) == FlatEvents(Flatten(t), PushName([], name), true)
  {
    var es := Events(Item(t, name, []), true);
    ShardsFlatten(Item(t, name, []), true);
    if t.Shard? {
      assert es != [];
      ReportKeepsTheRest(es[1..], Some(t.cid));
      assert WalkEvents(t, name)[1..] == Report(es[1..], Some(t.cid));
    }
  }

  // ---------------------------------------------------------------------------------------------
  // Buckets report the path of the directory they continue

  /** An earlier step reported the directory with this path, and the walk has not left it since. */
  ghost predicate InsideDirectory(es: seq<Event>, i: nat)
    requires i < |es|
  {
    exists j :: 0 <= j < i && es[j].RootDirectoryEvent? && es[j].path == es[i].path && StaysUnder(es, j, i)
  }

  ghost predicate StaysUnder(es: seq<Event>, j: nat, i: nat)
    requires i < |es|
  {
    forall k :: j <= k <= i ==> es[i].path <= es[k].path
  }

  ghost predicate Under(es: seq<Event>, path: Path) {
    forall k :: 0 <= k < |es| ==> path <= es[k].path
  }

  /** Every bucket step continues the directory at `path` or one reported within `es`. */
  ghost predicate BucketsContinue(es: seq<Event>, path: Path) {
    forall i :: 0 <= i < |es| && es[i].BucketEvent? ==> es[i].path == path || InsideDirectory(es, i)
  }

  ghost predicate BucketsInside(es: seq<Event>) {
    forall i :: 0 <= i < |es| && es[i].BucketEvent? ==> InsideDirectory(es, i)
  }

  lemma {:induction false} InsideShift(a: seq<Event>, es: seq<Event>, b: seq<Event>, i: nat)
    requires i < |es| && InsideDirectory(es, i)
    ensures InsideDirectory(a + es + b, |a| + i)
  {
    var all := a + es + b;
    var j :| 0 <= j < i && es[j].RootDirectoryEvent? && es[j].path == es[i].path && StaysUnder(es, j, i);
    assert all[|a| + j] == es[j] && all[|a| + i] == es[i];
    forall k | |a| + j <= k <= |a| + i
      ensures all[|a| + i].path <= all[k].path
    {
      assert all[k] == es[k - |a|];
    }
    assert StaysUnder(all, |a| + j, |a| + i);
  }

  lemma {:induction false} ContinueAppend(a: seq<Event>, b: seq<Event>, path: Path)
    requires BucketsContinue(a, path) && BucketsContinue(b, path)
    ensures BucketsContinue(a + b, path)
  {
    var all := a + b;
    forall i | 0 <= i < |all| && all[i].BucketEvent? && all[i].path != path
      ensures InsideDirectory(all, i)
    {
      if i < |a| {
        InsideShift([], a, b, i);
        assert [] + a + b == all;
      } else {
        InsideShift(a, b, [], i - |a|);
        assert a + b + [] == all;
      }
    }
  }

  lemma {:induction false} HeadContains(head: Event, es: seq<Event>)
    requires head.RootDirectoryEvent? && BucketsContinue(es, head.path) && Under(es, head.path)
    ensures BucketsInside([head] + es)
  {
    var all := [head] + es;
    forall i | 0 <= i < |all| && all[i].BucketEvent?
      ensures InsideDirectory(all, i)
    {
      if all[i].path == head.path {
        assert StaysUnder(all, 0, i);
      } else {
        assert all[i] == es[i - 1];
        InsideShift([head], es, [], i - 1);
        assert [head] + es + [] == all;
      }
    }
  }

  lemma {:induction false} EventsUnder(item: Item, root: bool)
    ensures Under(Events(item, root), ItemPath(item))
    decreases item.tree, 1
  {
    match item.tree {
      case Dir(_, _, entries) => EntriesUnder(entries, false, ItemPath(item));
      case Shard(_, _, entries) => EntriesUnder(entries, true, ItemPath(item));
      case FileNode(file, meta) =>
        FileEventsShape(Segments(file, 0, None), true, file.cid, ItemPath(item), meta, Size(file));
      case SymlinkNode(_, _, _) =>
    }
  }

  lemma {:induction false} EntriesUnder(es: seq<TreeEntry>, sharded: bool, path: Path)
    ensures Under(EntryEvents(es, sharded, path), path)
    decreases es, 0
  {
    if es != [] {
      EventsUnder(EntryItem(es[0], sharded, path), false);
      EntriesUnder(es[1..], sharded, path);
    }
  }

  lemma {:induction false} InsideAppend(a: seq<Event>, b: seq<Event>)
    requires BucketsInside(a) && BucketsInside(b)
    ensures BucketsInside(a + b)
  {
    var all := a + b;
    forall i | 0 <= i < |all| && all[i].BucketEvent?
      ensures InsideDirectory(all, i)
    {
      if i < |a| {
        InsideShift([], a, b, i);
        assert [] + a + b == all;
      } else {
        InsideShift(a, b, [], i - |a|);
        assert a + b + [] == all;
      }
    }
  }

  lemma {:induction false} InsideContinues(es: seq<Event>, path: Path)
    requires BucketsInside(es)
    ensures BucketsContinue(es, path)
  {
  }

  lemma {:induction false} NoBuckets(es: seq<Event>)
    requires forall i :: 0 <= i < |es| ==> !es[i].BucketEvent?
    ensures BucketsInside(es)
  {
  }

  lemma {:induction false} OneBucket(cid: Cid, path: Path)
    ensures BucketsContinue([BucketEvent(cid, path)], path)
  {
  }

  lemma {:induction false} EventsUnfold(item: Item, root: bool)
    ensures var t := item.tree;
            if t.Dir? || t.Shard?
            then Events(item, root) == TopEvents(item, root) + EntryEvents(t.entries, t.Shard?, ItemPath(item))
            else Events(item, root) == TopEvents(item, root)
  {
  }

  /** Every bucket step of a walk reports the path of a directory that is being walked. */
  lemma {:induction false} BucketsReportTheirDirectory(item: Item, root: bool)
    requires WellNamed(item.tree)
    ensures BucketsContinue(Events(item, root), item.parent)
    ensures root || item.name != "" ==> BucketsInside(Events(item, root))
    decreases item.tree, 1
  {
    hide Events, EntryEvents, BucketsContinue, BucketsInside, InsideDirectory, Under, FileEvents, Segments;
    var path, es := ItemPath(item), Events(item, root);
    EventsUnfold(item, root);
    match item.tree {
      case Dir(_, _, entries) =>
        EntryBuckets(entries, false, path);
        NoBuckets(TopEvents(item, root));
        InsideAppend(TopEvents(item, root), EntryEvents(entries, false, path));
        InsideContinues(es, item.parent);
      case Shard(cid, meta, entries) =>
        EntryBuckets(entries, true, path);
        EntriesUnder(entries, true, path);
        var rest := EntryEvents(entries, true, path);
        if root || item.name != "" {
          HeadContains(RootDirectoryEvent(cid, path, meta), rest);
          InsideContinues(es, item.parent);
        } else {
          OneBucket(cid, path);
          ContinueAppend([BucketEvent(cid, path)], rest, path);
        }
      case FileNode(file, meta) =>
        FileEventsShape(Segments(file, 0, None), true, file.cid, path, meta, Size(file));
        NoBuckets(es);
        InsideContinues(es, item.parent);
      case SymlinkNode(_, _, _) =>
        NoBuckets(es);
        InsideContinues(es, item.parent);
    }
  }

  lemma {:induction false} EntryBuckets(es: seq<TreeEntry>, sharded: bool, path: Path)
    requires EntriesWellNamed(es, sharded)
    ensures BucketsContinue(EntryEvents(es, sharded, path), path)
    ensures !sharded ==> BucketsInside(EntryEvents(es, sharded, path))
    decreases es, 0
  {
    if es != [] {
      var item := EntryItem(es[0], sharded, path);
      var a, b := Events(item, false), EntryEvents(es[1..], sharded, path);
      BucketsReportTheirDirectory(item, false);
      EntryBuckets(es[1..], sharded, path);
      hide Events, EntryEvents;
      ContinueAppend(a, b, path);
      if !sharded {
        InsideAppend(a, b);
      }
    }
  }

  // ---------------------------------------------------------------------------------------------
  // Where the walk can go

  /** No plain directory lies below a sharded one. */
  predicate NoDirBelowShard(t: Tree, below: bool)
    decreases t, 1
  {
    match t
    case Dir(_, _, entries) => !below && EntriesNoDir(entries, false)
    case Shard(_, _, entries) => EntriesNoDir(entries, true)
    case FileNode(_, _) => true
    case SymlinkNode(_, _, _) => true
  }

  predicate EntriesNoDir(es: seq<TreeEntry>, below: bool)
    decreases es, 0
  {
    es != [] ==> NoDirBelowShard(es[0].tree, below) && EntriesNoDir(es[1..], below)
  }

  /** Trees that do not mix the two kinds that way can be walked to the end. */
  lemma {:induction false} UnmixedTreesAreSafe(t: Tree, below: bool)
    requires NoDirBelowShard(t, below)
    ensures Safe(t) && (below ==> !EndsInEmptyDir(t))
    decreases t, 1
  {
    match t {
      case Dir(_, _, entries) => UnmixedEntriesAreSafe(true, entries, false);
      case Shard(_, _, entries) => UnmixedEntriesAreSafe(false, entries, true);
      case FileNode(_, _) =>
      case SymlinkNode(_, _, _) =>
    }
  }

  lemma {:induction false} UnmixedEntriesAreSafe(before: bool, es: seq<TreeEntry>, sharded: bool)
    requires EntriesNoDir(es, sharded) && (sharded ==> !before)
    ensures EntriesSafe(before, es, sharded) && (sharded ==> !EntriesEnd(before, es))
    decreases es, 0
  {
    if es != [] {
      UnmixedTreesAreSafe(es[0].tree, sharded);
      UnmixedEntriesAreSafe(EndsInEmptyDir(es[0].tree), es[1..], sharded);
    }
  }

  /** A sharded directory holding an empty plain directory before a bucket stops the walk;
      with a file in that directory, the same tree is walked to the end. */
  lemma EmptyDirBeforeBucket(shard: Cid, dir: Cid, bucket: Cid, link: Cid)
    ensures var filled := Dir(dir, NO_METADATA, [TreeEntry("l", SymlinkNode(link, NO_METADATA, []))]);
            var empty := Dir(dir, NO_METADATA, []);
            var rest := TreeEntry("01", Shard(bucket, NO_METADATA, []));
            && WellNamed(Shard(shard, NO_METADATA, [TreeEntry("00d", empty), rest]))
            && !Safe(Shard(shard, NO_METADATA, [TreeEntry("00d", empty), rest]))
            && Safe(Shard(shard, NO_METADATA, [TreeEntry("00d", filled), rest]))
  {
    var filled := Dir(dir, NO_METADATA, [TreeEntry("l", SymlinkNode(link, NO_METADATA, []))]);
    var empty := Dir(dir, NO_METADATA, []);
    var rest := TreeEntry("01", Shard(bucket, NO_METADATA, []));
    var a, b := [TreeEntry("00d", empty), rest], [TreeEntry("00d", filled), rest];
    var symlink := filled.entries[0].tree;
    assert "00d"[2..] == "d";
    assert a[1..] == [rest] && b[1..] == [rest] && [rest][1..] == [] && filled.entries[1..] == [];
    assert Safe(rest.tree) && WellNamed(rest.tree) && !EndsInEmptyDir(rest.tree);
    assert EntriesSafe(EndsInEmptyDir(rest.tree), [], true);
    assert EntriesSafe(false, [rest], true) && !EntriesSafe(true, [rest], true);
    assert EntriesWellNamed([], true);
    assert EntriesWellNamed([rest], true);
    assert WellNamed(empty) && EndsInEmptyDir(empty) && EntriesWellNamed(a, true);
    assert EntriesSafe(EndsInEmptyDir(symlink), [], false);
    assert EntriesSafe(true, filled.entries, false);
    assert !EntriesEnd(EndsInEmptyDir(symlink), []);
    assert !EntriesEnd(true, filled.entries);
    assert !EndsInEmptyDir(filled) && Safe(filled);
  }
}
