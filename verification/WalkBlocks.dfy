/** What a step of the walk makes of any block at all: which blocks are accepted, which are refused and
    how, in terms of their fields. */
module WalkBlocks {
  import opened Common
  import opened UnixFs
  import opened FileVisit
  import opened Walk

  // ---------------------------------------------------------------------------------------------
  // Links

  /** A link with a cid and, after the two-character prefix in a shard, a name that is one component. */
  predicate Usable(link: PbLink, sharded: bool) {
    && link.cid.Some?
    && if sharded then |link.name| >= 2 && '/' !in link.name[2..] else link.name != "" && '/' !in link.name
  }

  ghost predicate AllUsable(links: seq<PbLink>, sharded: bool) {
    forall i :: 0 <= i < |links| ==> Usable(links[i], sharded)
  }

  /** Link `i` is the last that is not usable, the first one to be met. */
  ghost predicate LastUnusable(links: seq<PbLink>, sharded: bool, i: nat) {
    i < |links| && !Usable(links[i], sharded) && forall j :: i < j < |links| ==> Usable(links[j], sharded)
  }

  function LastBad(links: seq<PbLink>, sharded: bool): Option<nat>
    decreases |links|
  {
    if links == [] then None
    else if !Usable(links[|links| - 1], sharded) then Some(|links| - 1)
    else LastBad(links[..|links| - 1], sharded)
  }

  lemma {:induction false} LastBadIs(links: seq<PbLink>, sharded: bool, i: nat)
    ensures LastBad(links, sharded) == Some(i) <==> LastUnusable(links, sharded, i)
    ensures LastBad(links, sharded).None? <==> AllUsable(links, sharded)
    decreases |links|
  {
    if links != [] {
      hide Usable;
      LastBadIs(links[..|links| - 1], sharded, i);
    }
  }

  lemma {:induction false} PushOutcome(pending: seq<Pending>, links: seq<PbLink>, depth: nat, sharded: bool)
    ensures var r := PushLinks(pending, links, depth, sharded);
            match LastBad(links, sharded)
            case None => r.AllPushed?
            case Some(i) => i < |links| && if links[i].cid.None? then r.BadLink? && r.error == InvalidCidInLink(i) else r.PushPanic?
    decreases |links|
  {
    if links != [] && Usable(links[|links| - 1], sharded) {
      var last := |links| - 1;
      PushOutcome(pending + [ConvertLink(links[last], last, depth, sharded).value], links[..last], depth, sharded);
    }
  }

  /** All links are pushed if and only if all are usable; otherwise the last unusable one decides: an
      error with its index when it has no cid, a panic when its name is bad. */
  lemma {:induction false} PushesUsable(pending: seq<Pending>, links: seq<PbLink>, depth: nat, sharded: bool, i: nat)
    ensures var r := PushLinks(pending, links, depth, sharded);
            && (r.AllPushed? <==> AllUsable(links, sharded))
            && (r.BadLink? && r.error == InvalidCidInLink(i) <==> LastUnusable(links, sharded, i) && links[i].cid.None?)
            && (r.BadLink? ==> r.error.InvalidCidInLink?)
            && (LastUnusable(links, sharded, i) ==> (r.PushPanic? <==> links[i].cid.Some?))
  {
    hide PushLinks, LastBad, LastUnusable, AllUsable;
    PushOutcome(pending, links, depth, sharded);
    LastBadIs(links, sharded, i);
    assert LastUnusable(links, sharded, i) ==> i < |links|;
  }

  // ---------------------------------------------------------------------------------------------
  // Directories and shards

  /** A block for which no file visit waits and which was asked for. */
  predicate Awaited(s: State) {
    s.next.Some? && !(s.current.Some? && BusyFile(s.current.value.kind))
  }

  /** A directory block is refused exactly when it carries data or a field of files or shards, whatever
      its metadata; the last unusable link is an error or a panic; and a root directory is entered
      exactly when there is neither. */
  lemma {:induction false} DirectoryBlocks(s: State, n: Node, i: nat)
    requires Awaited(s) && n.typ == Directory
    ensures var r := Step(s, Parsed(n));
            var plain := n.filesize == None && |n.blocksizes| == 0 && n.hashType == None && n.fanout == None && |n.data| == 0;
            && (r.Errored? && r.error == UnsupportedDirectory <==> !plain)
            && (r.Errored? && r.error == InvalidCidInLink(i) <==> plain && LastUnusable(n.links, false, i) && n.links[i].cid.None?)
            && (plain && LastUnusable(n.links, false, i) && n.links[i].cid.Some? ==> r.StepPanic?)
            && (s.current.None? ==> (r.Stepped? <==> plain && AllUsable(n.links, false)))
            && (s.current.None? && r.Stepped? ==>
                  r.event == RootDirectoryEvent(s.next.value.cid, PushName([], s.next.value.name), n.meta))
  {
    hide PushLinks, CanSetPath, NewPath;
    PushesUsable(s.pending, n.links, s.next.value.depth, false, i);
  }

  /** A shard block is accepted exactly with fanout 256, hash function 34 and no field of files; its data
      and metadata do not matter. */
  lemma {:induction false} ShardBlocks(s: State, n: Node, i: nat)
    requires Awaited(s) && n.typ == HamtShard
    ensures var r := Step(s, Parsed(n));
            var plain := n.fanout == Some(256) && n.hashType == Some(34) && n.filesize == None && |n.blocksizes| == 0;
            && (r.Errored? && r.error == UnsupportedShard <==> !plain)
            && (r.Errored? && r.error == InvalidCidInLink(i) <==> plain && LastUnusable(n.links, true, i) && n.links[i].cid.None?)
            && (plain && LastUnusable(n.links, true, i) && n.links[i].cid.Some? ==> r.StepPanic?)
            && (s.current.None? ==> (r.Stepped? <==> plain && AllUsable(n.links, true)))
            && (s.current.None? && r.Stepped? ==>
                  r.event == RootDirectoryEvent(s.next.value.cid, PushName([], s.next.value.name), n.meta))
  {
    hide PushLinks, CanSetPath, NewPath, BecomeBucket;
    PushesUsable(s.pending, n.links, s.next.value.depth, true, i);
  }

  // ---------------------------------------------------------------------------------------------
  // Files

  /** A node that can be read as a block of a file. */
  predicate FileLike(n: Node) {
    && (n.typ == File || n.typ == Raw) && |n.links| == |n.blocksizes|
    && n.hashType == None && n.fanout == None
  }

  /** A block is read as part of a file exactly when it is of type file or raw, has as many sizes as
      links, no field of shards, a file size, and some content if it has a size but no links. Without a
      file size, a block without links panics. */
  lemma {:induction false} FileBlocksRead(n: Node, offset: nat, meta: Metadata)
    ensures var r := ReaderFromParts(n, offset, meta);
            && (r.Done? <==> FileLike(n) && n.filesize.Some? && (|n.links| == 0 && n.filesize.value > 0 ==> |n.data| > 0))
            && (r.Panicked? <==> FileLike(n) && n.filesize == None && |n.links| == 0)
            && (r.Done? ==>
                  && r.value.offset == offset && r.value.node == n && r.value.meta == meta && r.value.fileSize == n.filesize.value
                  && r.value.ending == if |n.links| == 0 then Chunk(offset + n.filesize.value) else TreeCoverage(offset + n.filesize.value))
  {
  }

  /** Which error a refused block gives: its type comes first, then the number of sizes, then missing
      content, then the fields of shards, then a missing size. */
  lemma {:induction false} FileBlocksRefused(n: Node, offset: nat, meta: Metadata)
    ensures var r := ReaderFromParts(n, offset, meta);
            var typed := n.typ == File || n.typ == Raw;
            var matched := typed && |n.links| == |n.blocksizes|;
            var filled := matched && (|n.data| > 0 || |n.links| > 0 || n.filesize == None || n.filesize == Some(0));
            var plain := filled && n.hashType == None && n.fanout == None;
            && (r == Failed(UnexpectedType(n.typ)) <==> !typed)
            && (r == Failed(Invalid(LinksAndBlocksizesMismatch)) <==> typed && !matched)
            && (r == Failed(Invalid(NoLinksNoContent)) <==> matched && !filled)
            && (r == Failed(Invalid(UnexpectedRawOrFileProperties)) <==> filled && !plain)
            && (r == Failed(Invalid(IntermediateNodeWithoutFileSize)) <==> plain && |n.links| > 0 && n.filesize == None)
  {
  }

  /** Which range may come next: after content, the one that starts where the content ended; after an
      inner block at `offset` that covers up to `end`, one that starts no earlier and ends inside, or one
      that starts after both. */
  lemma {:induction false} NextRanges(offset: nat, end: nat, next: Range)
    ensures CheckNext(Chunk(end), offset, next) == None <==> next.start == end
    ensures CheckNext(Chunk(end), offset, next) == Some(TreeJumpsBetweenLinks) <==> next.start != end
    ensures CheckNext(TreeCoverage(end), offset, next) == None
            <==> offset <= next.start && (next.end <= end || (end <= next.start && offset < next.start))
    ensures CheckNext(TreeCoverage(end), offset, next) == Some(TreeExpandsOnLinks) <==> next.start <= offset && end < next.end
    ensures CheckNext(TreeCoverage(end), offset, next) == Some(TreeOverlapsBetweenLinks)
            <==> offset < next.start < end < next.end
    ensures CheckNext(TreeCoverage(end), offset, next) == Some(EarlierLink) <==> next.start < offset && next.end <= end
  {
  }

  /** A block is in the target exactly when the two ranges have a position in common, ends included. */
  lemma {:induction false} TouchingRanges(block: Range, target: Range)
    ensures InTarget(block, None)
    ensures InTarget(block, Some(target)) <==> exists x: nat :: Within(block, x) && Within(target, x)
  {
    var x := if block.start < target.start then target.start else block.start;
    if InTarget(block, Some(target)) {
      assert Within(block, x) && Within(target, x);
    }
  }

  predicate Within(r: Range, x: nat) { r.start <= x <= r.end }

  /** Only the links in the target are looked at; the first of them without a cid is the error. */
  lemma {:induction false} PendingLinks(ranged: seq<(PbLink, Range)>, nth: nat, target: Option<Range>)
    ensures var r := ToPending(ranged, nth, target);
            && (r.Ok? <==> forall i :: 0 <= i < |ranged| && InTarget(ranged[i].1, target) ==> ranged[i].0.cid.Some?)
            && (forall k: nat :: r == Err(InvalidCid(nth + k)) <==> FirstWithoutCid(ranged, target, k))
            && (r.Err? ==> r.error.InvalidCid? && r.error.nth >= nth)
    decreases ranged
  {
    hide InTarget;
    if ranged != [] {
      PendingLinks(ranged[1..], nth + 1, target);
      if InTarget(ranged[0].1, target) && ranged[0].0.cid.None? {
        assert FirstWithoutCid(ranged, target, 0);
      } else {
        forall k: nat
          ensures FirstWithoutCid(ranged, target, k) <==> k > 0 && FirstWithoutCid(ranged[1..], target, k - 1)
        {
          LaterWithoutCid(ranged, target, k);
        }
        assert forall i :: 0 <= i < |ranged| - 1 ==> ranged[1..][i] == ranged[i + 1];
      }
    }
  }

  ghost predicate FirstWithoutCid(ranged: seq<(PbLink, Range)>, target: Option<Range>, k: nat) {
    && k < |ranged| && InTarget(ranged[k].1, target) && ranged[k].0.cid.None?
    && forall i :: 0 <= i < k && InTarget(ranged[i].1, target) ==> ranged[i].0.cid.Some?
  }

  lemma {:induction false} LaterWithoutCid(ranged: seq<(PbLink, Range)>, target: Option<Range>, k: nat)
    requires ranged != [] && !(InTarget(ranged[0].1, target) && ranged[0].0.cid.None?)
    ensures FirstWithoutCid(ranged, target, k) <==> k > 0 && FirstWithoutCid(ranged[1..], target, k - 1)
  {
    hide InTarget;
    var rest := ranged[1..];
    assert forall i :: 0 <= i < |rest| ==> rest[i] == ranged[i + 1];
    if k > 0 && FirstWithoutCid(rest, target, k - 1) {
      forall i | 0 <= i < k && InTarget(ranged[i].1, target)
        ensures ranged[i].0.cid.Some?
      {
        if i > 0 {
          assert rest[i - 1] == ranged[i];
        }
      }
    }
    if k > 0 && FirstWithoutCid(ranged, target, k) {
      assert rest[k - 1] == ranged[k];
    }
  }

  // ---------------------------------------------------------------------------------------------
  // Other types

  /** A metadata block is always refused; a root symlink is always entered, with its data as the target. */
  lemma {:induction false} OtherBlocks(s: State, n: Node)
    requires Awaited(s)
    ensures n.typ == MetadataNode ==> Step(s, Parsed(n)).Errored? && Step(s, Parsed(n)).error == UnsupportedType(MetadataNode)
    ensures n.typ == Symlink && s.current.None? ==>
              && Step(s, Parsed(n)).Stepped?
              && Step(s, Parsed(n)).event == SymlinkEvent(n.data, s.next.value.cid, PushName([], s.next.value.name), n.meta)
    ensures Step(s, NotDagPb).Errored? && Step(s, NotDagPb).error == ParsingFailed
    ensures Step(s, NotUnixFs(n.links)).Errored? && Step(s, NotUnixFs(n.links)).error == ParsingFailed
  {
  }

  /** Which later blocks of a file a visit accepts. */
  lemma {:induction false} LaterBlocks(v: Visit, b: PbBlock)
    requires v.pending != []
    ensures var next := v.pending[|v.pending| - 1].range;
            var r := Continue(v, b);
            && (r == Failed(Unreadable) <==> CheckNext(v.ending, v.offset, next) == None && !b.Parsed?)
            && (r == Failed(Invalid(NonRootDefinesMetadata))
                <==> CheckNext(v.ending, v.offset, next) == None && b.Parsed? && (b.node.meta.mode.Some? || b.node.meta.mtime.Some?))
            && (forall e :: CheckNext(v.ending, v.offset, next) == Some(e) ==> r == Failed(Invalid(e)))
  {
    hide ToPending, TargetSlice, LinkRanges;
    var next := v.pending[|v.pending| - 1];
    if b.Parsed? {
      FileBlocksRefused(b.node, next.range.start, v.meta);
    }
    if b.Parsed? && ReaderFromParts(b.node, next.range.start, v.meta).Done? {
      var ranged := LinkRanges(b.node.links, b.node.blocksizes, next.range.start);
      PendingLinks(ranged, 0, v.target);
      SlicesOrPanics(b.node.data, next.range, v.target);
    }
  }

  lemma {:induction false} SlicesOrPanics(content: Bytes, block: Range, target: Option<Range>)
    ensures !TargetSlice(content, block, target).Failed?
  {
  }
}
