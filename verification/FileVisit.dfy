/** Visiting the blocks of a UnixFS file tree, optionally restricted to a byte range. */
module FileVisit {
  import opened Common
  import opened UnixFs

  datatype Range = Range(start: nat, end: nat)

  datatype FileError =
    | LinksAndBlocksizesMismatch
    | NoLinksNoContent
    | NonRootDefinesMetadata
    | IntermediateNodeWithoutFileSize
    | TreeExpandsOnLinks
    | TreeOverlapsBetweenLinks
    | EarlierLink
    | TreeJumpsBetweenLinks
    | UnexpectedRawOrFileProperties

  datatype ReadFailed = Invalid(reason: FileError) | UnexpectedType(typ: NodeType) | Unreadable | InvalidCid(nth: nat)

  /** What the last visited block covered: a subtree up to `end`, or content up to `end`. */
  datatype Ending = TreeCoverage(end: nat) | Chunk(end: nat)

  datatype PendingBlock = PendingBlock(cid: Cid, range: Range)

  /** An ongoing visit. The next block to visit is the last of `pending`. */
  datatype Visit = Visit(
    pending: seq<PendingBlock>,
    target: Option<Range>,
    ending: Ending,
    offset: nat,
    fileSize: nat,
    meta: Metadata)

  /** One successful step: the bytes found in the block and the visit left to do. */
  datatype Visited = Visited(bytes: Bytes, fileSize: nat, meta: Metadata, rest: Option<Visit>)

  datatype Reader = Reader(offset: nat, ending: Ending, node: Node, meta: Metadata, fileSize: nat)

  function CheckNext(ending: Ending, offset: nat, next: Range): Option<FileError> {
    match ending
    case TreeCoverage(cover) =>
      if next.start <= offset && next.end > cover then Some(TreeExpandsOnLinks)
      else if next.start < cover && next.end > cover then Some(TreeOverlapsBetweenLinks)
      else if next.start < offset then Some(EarlierLink)
      else None
    case Chunk(end) =>
      if next.start != end then Some(TreeJumpsBetweenLinks) else None
  }

  function ReaderFromParts(n: Node, offset: nat, meta: Metadata): Outcome<Reader, ReadFailed> {
    var filesize := if n.filesize.Some? then n.filesize.value else 0;
    if n.typ != File && n.typ != Raw then Failed(UnexpectedType(n.typ))
    else if |n.links| != |n.blocksizes| then Failed(Invalid(LinksAndBlocksizesMismatch))
    else if n.data == [] && filesize != 0 && n.links == [] then Failed(Invalid(NoLinksNoContent))
    else if n.hashType.Some? || n.fanout.Some? then Failed(Invalid(UnexpectedRawOrFileProperties))
    else if n.links != [] && n.filesize.None? then Failed(Invalid(IntermediateNodeWithoutFileSize))
    else if n.filesize.None? then Panicked
    else
      var ending := if n.links == [] then Chunk(offset + filesize) else TreeCoverage(offset + filesize);
      Done(Reader(offset, ending, n, meta, filesize))
  }

  function Max(a: int, b: int): int { if a < b then b else a }

  function Min(a: int, b: int): int { if a < b then a else b }

  predicate InTarget(block: Range, target: Option<Range>) {
    target.Some? ==> Max(block.start, target.value.start) <= Min(block.end, target.value.end)
  }

  function TargetSlice(content: Bytes, block: Range, target: Option<Range>): Outcome<Bytes, ReadFailed> {
    if target.None? then Done(content)
    else if !InTarget(block, target) then Done([])
    else
      var t := target.value;
      var start := if t.start < block.start then 0 else t.start - block.start;
      var end :=
        if t.start < block.start then Min(t.end, block.end) - block.start
        else if t.end > block.end then Min(t.end, block.end) - block.start
        else start + (t.end - t.start);
      if 0 <= start <= end <= |content| then Done(content[start..end]) else Panicked
  }

  /** The byte range each link covers: consecutive ranges from `base`. */
  function LinkRanges(links: seq<PbLink>, sizes: seq<nat>, base: nat): (r: seq<(PbLink, Range)>)
    requires |links| == |sizes|
    ensures |r| == |links|
  {
    if links == [] then []
    else [(links[0], Range(base, base + sizes[0]))] + LinkRanges(links[1..], sizes[1..], base + sizes[0])
  }

  /** The links inside the target as pending blocks, in link order, or the first bad link's index. */
  function ToPending(ranged: seq<(PbLink, Range)>, nth: nat, target: Option<Range>): Result<seq<PendingBlock>, ReadFailed> {
    if ranged == [] then Ok([])
    else if !InTarget(ranged[0].1, target) then ToPending(ranged[1..], nth + 1, target)
    else if ranged[0].0.cid.None? then Err(InvalidCid(nth))
    else
      match ToPending(ranged[1..], nth + 1, target)
      case Err(e) => Err(e)
      case Ok(more) => Ok([PendingBlock(ranged[0].0.cid.value, ranged[0].1)] + more)
  }

  /** The step shared by the first and the later blocks. `pending` is the work left besides `r`. */
  function Advance(r: Reader, block: Range, pending: seq<PendingBlock>, target: Option<Range>, first: bool)
    : Outcome<Visited, ReadFailed>
    requires |r.node.links| == |r.node.blocksizes|
  {
    if r.node.links == [] then
      match TargetSlice(r.node.data, block, target)
      case Panicked => Panicked
      case Failed(e) => Failed(e)
      case Done(bytes) =>
        var rest := if pending == [] then None
                    else Some(Visit(pending, target, r.ending, r.offset, r.fileSize, r.meta));
        Done(Visited(bytes, r.fileSize, r.meta, rest))
    else
      match ToPending(LinkRanges(r.node.links, r.node.blocksizes, r.offset), 0, target)
      case Err(e) => Failed(e)
      case Ok(more) =>
        var all := pending + Reverse(more);
        // only the first block checks that there is anything to do
        if first && all == [] then Done(Visited([], r.fileSize, r.meta, None))
        else Done(Visited([], r.fileSize, r.meta, Some(Visit(all, target, r.ending, r.offset, r.fileSize, r.meta))))
  }

  /** Starts a visit from the root block of a file. */
  function Start(n: Node, target: Option<Range>): Outcome<Visited, ReadFailed> {
    match ReaderFromParts(n, 0, n.meta)
    case Panicked => Panicked
    case Failed(e) => Failed(e)
    case Done(r) => Advance(r, Range(0, |n.data|), [], target, true)
  }

  /** Continues a visit with the block of the last pending link. */
  function Continue(v: Visit, b: PbBlock): Outcome<Visited, ReadFailed> {
    if v.pending == [] then Panicked
    else
      var next := v.pending[|v.pending| - 1];
      var bad := CheckNext(v.ending, v.offset, next.range);
      if bad.Some? then Failed(Invalid(bad.value))
      else if !b.Parsed? then Failed(Unreadable)
      else if b.node.meta != NO_METADATA then Failed(Invalid(NonRootDefinesMetadata))
      else
        match ReaderFromParts(b.node, next.range.start, v.meta)
        case Panicked => Panicked
        case Failed(e) => Failed(e)
        case Done(r) => Advance(r, next.range, v.pending[..|v.pending| - 1], v.target, false)
  }

  /** The cid of the block a visit needs next and those to prefetch, in the order they will be needed. */
  function VisitLinks(v: Visit): (r: (Cid, seq<Cid>))
    requires v.pending != []
  {
    var n := |v.pending|;
    (v.pending[n - 1].cid, seq(n - 1, i requires 0 <= i < n - 1 => v.pending[n - 2 - i].cid))
  }

  // ---------------------------------------------------------------------------------------------
  // File trees and what visiting one is for

  /** The unfolded tree of a file's blocks. */
  datatype FileTree = Leaf(cid: Cid, data: Bytes) | Inner(cid: Cid, children: seq<FileTree>)

  function FileBytes(t: FileTree): Bytes
    decreases t, 1
  {
    match t
    case Leaf(_, data) => data
    case Inner(_, children) => ForestBytes(children)
  }

  function ForestBytes(ts: seq<FileTree>): Bytes
    decreases ts, 0
  {
    if ts == [] then [] else FileBytes(ts[0]) + ForestBytes(ts[1..])
  }

  function Size(t: FileTree): nat { |FileBytes(t)| }

  /** Block `b` is the block of tree `t`: sizes and links agree and it carries no foreign fields. */
  ghost predicate IsFileBlock(b: PbBlock, t: FileTree, root: bool) {
    && b.Parsed?
    && b.node.typ in {File, Raw}
    && b.node.hashType.None? && b.node.fanout.None?
    && (!root ==> b.node.meta == NO_METADATA)
    && b.node.filesize == Some(Size(t))
    && match t
       case Leaf(_, data) => b.node.data == data && b.node.links == [] && b.node.blocksizes == []
       case Inner(_, children) =>
         && children != []
         && |b.node.links| == |b.node.blocksizes| == |children|
         && forall i :: 0 <= i < |children| ==>
              b.node.links[i].cid == Some(children[i].cid) && b.node.blocksizes[i] == Size(children[i])
  }

  ghost predicate FileStored(store: map<Cid, PbBlock>, t: FileTree, root: bool)
    decreases t, 1
  {
    && t.cid in store && IsFileBlock(store[t.cid], t, root)
    && (t.Inner? ==> ForestStored(store, t.children))
  }

  ghost predicate ForestStored(store: map<Cid, PbBlock>, ts: seq<FileTree>)
    decreases ts, 0
  {
    ts != [] ==> FileStored(store, ts[0], false) && ForestStored(store, ts[1..])
  }

  function Before(bs: Bytes, k: int): Bytes { bs[..Max(0, Min(|bs|, k))] }

  function From(bs: Bytes, k: int): Bytes { bs[Max(0, Min(|bs|, k))..] }

  /** The bytes of `bs`, laid at `offset`, whose positions lie in the target. */
  function Clip(bs: Bytes, offset: nat, target: Option<Range>): Bytes {
    if target.None? then bs
    else From(Before(bs, target.value.end - offset), target.value.start - offset)
  }

  function Extent(t: FileTree, offset: nat): Range { Range(offset, offset + Size(t)) }

  /** Every block of the tree that touches the target, in pre-order, with the target's bytes in it. */
  function Segments(t: FileTree, offset: nat, target: Option<Range>): seq<(Cid, Bytes)>
    decreases t, 1
  {
    if !InTarget(Extent(t, offset), target) then []
    else
      match t
      case Leaf(cid, data) => [(cid, Clip(data, offset, target))]
      case Inner(cid, children) => [(cid, [])] + ForestSegments(children, offset, target)
  }

  function ForestSegments(ts: seq<FileTree>, offset: nat, target: Option<Range>): seq<(Cid, Bytes)>
    decreases ts, 0
  {
    if ts == [] then []
    else Segments(ts[0], offset, target) + ForestSegments(ts[1..], offset + Size(ts[0]), target)
  }

  function SegmentBytes(ss: seq<(Cid, Bytes)>): Bytes {
    if ss == [] then [] else ss[0].1 + SegmentBytes(ss[1..])
  }

  // ---------------------------------------------------------------------------------------------
  // The segments carry exactly the target's bytes

  lemma {:induction false} BeforeAppend(a: Bytes, b: Bytes, k: int)
    ensures Before(a + b, k) == Before(a, k) + Before(b, k - |a|)
  {
  }

  lemma {:induction false} FromAppend(a: Bytes, b: Bytes, k: int)
    ensures From(a + b, k) == From(a, k) + From(b, k - |a|)
  {
  }

  lemma {:induction false} BeforeEnd(a: Bytes, b: Bytes, k: int)
    ensures Before(b, k - |a|) == [] || Before(a, k) == a
  {
  }

  lemma {:induction false} FromNothing(k: int)
    ensures From([], k) == []
  {
  }

  lemma {:induction false} ClipAppend(a: Bytes, b: Bytes, offset: nat, target: Option<Range>)
    ensures Clip(a + b, offset, target) == Clip(a, offset, target) + Clip(b, offset + |a|, target)
  {
    hide Before, From;
    if target.Some? {
      var from, to := target.value.start - offset, target.value.end - offset;
      var a', b' := Before(a, to), Before(b, to - |a|);
      BeforeAppend(a, b, to);
      BeforeEnd(a, b, to);
      FromAppend(a', b', from);
      FromNothing(from - |a|);
      FromNothing(from - |a'|);
      assert target.value.end - (offset + |a|) == to - |a|;
      assert target.value.start - (offset + |a|) == from - |a|;
    }
  }

  lemma {:induction false} ClipOutside(bs: Bytes, offset: nat, target: Option<Range>)
    requires !InTarget(Range(offset, offset + |bs|), target)
    ensures Clip(bs, offset, target) == []
  {
  }

  lemma {:induction false} SegmentBytesAppend(a: seq<(Cid, Bytes)>, b: seq<(Cid, Bytes)>)
    ensures SegmentBytes(a + b) == SegmentBytes(a) + SegmentBytes(b)
  {
    if a == [] {
      assert a + b == b;
    } else {
      assert (a + b)[1..] == a[1..] + b;
      SegmentBytesAppend(a[1..], b);
    }
  }

  /** The bytes over all visited blocks are the file's bytes inside the target. */
  lemma {:induction false} SegmentsCarryTarget(t: FileTree, offset: nat, target: Option<Range>)
    ensures SegmentBytes(Segments(t, offset, target)) == Clip(FileBytes(t), offset, target)
    decreases t, 1
  {
    if !InTarget(Extent(t, offset), target) {
      ClipOutside(FileBytes(t), offset, target);
    } else if t.Inner? {
      ForestSegmentsCarryTarget(t.children, offset, target);
      var rest := ForestSegments(t.children, offset, target);
      SegmentBytesAppend([(t.cid, [])], rest);
    }
  }

  lemma {:induction false} ForestUnfolds(ts: seq<FileTree>, offset: nat, target: Option<Range>)
    requires ts != []
    ensures ForestBytes(ts) == FileBytes(ts[0]) + ForestBytes(ts[1..])
    ensures ForestSegments(ts, offset, target)
            == Segments(ts[0], offset, target) + ForestSegments(ts[1..], offset + Size(ts[0]), target)
  {
  }

  lemma {:induction false} NoForest(offset: nat, target: Option<Range>)
    ensures SegmentBytes(ForestSegments([], offset, target)) == []
    ensures Clip(ForestBytes([]), offset, target) == []
  {
  }

  lemma {:induction false} ForestSegmentsCarryTarget(ts: seq<FileTree>, offset: nat, target: Option<Range>)
    ensures SegmentBytes(ForestSegments(ts, offset, target)) == Clip(ForestBytes(ts), offset, target)
    decreases ts, 0
  {
    hide SegmentBytes, Segments, ForestSegments, FileBytes, ForestBytes, Clip;
    if ts == [] {
      NoForest(offset, target);
    } else {
      var (head, tail, mid) := (ts[0], ts[1..], offset + Size(ts[0]));
      ForestUnfolds(ts, offset, target);
      SegmentBytesAppend(Segments(head, offset, target), ForestSegments(tail, mid, target));
      SegmentsCarryTarget(head, offset, target);
      ForestSegmentsCarryTarget(tail, mid, target);
      ClipAppend(FileBytes(head), ForestBytes(tail), offset, target);
    }
  }

  // ---------------------------------------------------------------------------------------------
  // A visit works off a list of trees lying side by side in the file

  datatype Placed = Placed(tree: FileTree, offset: nat)

  function PlacedRange(p: Placed): Range { Extent(p.tree, p.offset) }

  function PlacedSegments(todo: seq<Placed>, target: Option<Range>): seq<(Cid, Bytes)> {
    if todo == [] then []
    else Segments(todo[0].tree, todo[0].offset, target) + PlacedSegments(todo[1..], target)
  }

  /** The trees of a forest that touch the target, with their offsets. */
  function InTargetForest(ts: seq<FileTree>, offset: nat, target: Option<Range>): seq<Placed> {
    if ts == [] then []
    else
      var rest := InTargetForest(ts[1..], offset + Size(ts[0]), target);
      if InTarget(Extent(ts[0], offset), target) then [Placed(ts[0], offset)] + rest else rest
  }

  function AsPending(todo: seq<Placed>): (r: seq<PendingBlock>)
    ensures |r| == |todo|
  {
    if todo == [] then []
    else [PendingBlock(todo[0].tree.cid, PlacedRange(todo[0]))] + AsPending(todo[1..])
  }

  ghost predicate Adjacent(todo: seq<Placed>) {
    |todo| >= 2 ==> todo[1].offset == PlacedRange(todo[0]).end && Adjacent(todo[1..])
  }

  ghost predicate AllPlaced(store: map<Cid, PbBlock>, todo: seq<Placed>, target: Option<Range>) {
    forall i :: 0 <= i < |todo| ==> FileStored(store, todo[i].tree, false) && InTarget(PlacedRange(todo[i]), target)
  }

  /** Visit `v` has exactly the trees of `todo` left, first one next, and will accept that one. */
  ghost predicate Visiting(store: map<Cid, PbBlock>, v: Visit, todo: seq<Placed>) {
    && todo != [] && v.pending == Reverse(AsPending(todo))
    && AllPlaced(store, todo, v.target)
    && Adjacent(todo)
    && CheckNext(v.ending, v.offset, PlacedRange(todo[0])).None?
  }

  lemma {:induction false} PlacedSegmentsAppend(a: seq<Placed>, b: seq<Placed>, target: Option<Range>)
    ensures PlacedSegments(a + b, target) == PlacedSegments(a, target) + PlacedSegments(b, target)
  {
    if a == [] {
      assert a + b == b;
    } else {
      assert (a + b)[1..] == a[1..] + b;
      PlacedSegmentsAppend(a[1..], b, target);
    }
  }

  lemma {:induction false} ForestPlacedSegments(ts: seq<FileTree>, offset: nat, target: Option<Range>)
    ensures PlacedSegments(InTargetForest(ts, offset, target), target) == ForestSegments(ts, offset, target)
  {
    if ts != [] {
      ForestPlacedSegments(ts[1..], offset + Size(ts[0]), target);
    }
  }

  lemma {:induction false} ForestAllPlaced(store: map<Cid, PbBlock>, ts: seq<FileTree>, offset: nat, target: Option<Range>)
    requires ForestStored(store, ts)
    ensures AllPlaced(store, InTargetForest(ts, offset, target), target)
    ensures forall i :: 0 <= i < |InTargetForest(ts, offset, target)| ==>
              offset <= InTargetForest(ts, offset, target)[i].offset
              && PlacedRange(InTargetForest(ts, offset, target)[i]).end <= offset + |ForestBytes(ts)|
  {
    if ts != [] {
      ForestAllPlaced(store, ts[1..], offset + Size(ts[0]), target);
    }
  }

  lemma {:induction false} ForestBeyondTarget(ts: seq<FileTree>, offset: nat, target: Option<Range>)
    requires target.Some? && target.value.end < offset
    ensures InTargetForest(ts, offset, target) == []
  {
    if ts != [] {
      ForestBeyondTarget(ts[1..], offset + Size(ts[0]), target);
    }
  }

  lemma {:induction false} ForestOutsideTarget(ts: seq<FileTree>, offset: nat, target: Option<Range>)
    requires !InTarget(Range(offset, offset + |ForestBytes(ts)|), target)
    ensures InTargetForest(ts, offset, target) == []
  {
    if ts != [] {
      ForestOutsideTarget(ts[1..], offset + Size(ts[0]), target);
    }
  }

  /** A non-empty forest that touches the target has a tree that does. */
  lemma {:induction false} ForestTouches(ts: seq<FileTree>, offset: nat, target: Option<Range>)
    requires ts != [] && InTarget(Range(offset, offset + |ForestBytes(ts)|), target)
    ensures InTargetForest(ts, offset, target) != []
  {
    ForestUnfolds(ts, offset, target);
    if |ts| > 1 && !InTarget(Extent(ts[0], offset), target) {
      ForestTouches(ts[1..], offset + Size(ts[0]), target);
    }
  }

  /** When something after the forest touches the target too, the trees reach the end of the forest. */
  lemma {:induction false} ForestReachesEnd(ts: seq<FileTree>, offset: nat, target: Option<Range>)
    requires InTargetForest(ts, offset, target) != []
    requires target.Some? ==> offset + |ForestBytes(ts)| <= target.value.end
    ensures var p := InTargetForest(ts, offset, target);
            PlacedRange(p[|p| - 1]).end == offset + |ForestBytes(ts)|
  {
    var mid := offset + Size(ts[0]);
    assert |ForestBytes(ts)| == Size(ts[0]) + |ForestBytes(ts[1..])|;
    hide FileBytes;
    if ts[1..] != [] {
      if InTarget(Extent(ts[0], offset), target) {
        assert InTarget(Range(mid, mid + |ForestBytes(ts[1..])|), target);
        ForestTouches(ts[1..], mid, target);
      }
      ForestReachesEnd(ts[1..], mid, target);
    }
  }

  /** Past the target's start, the first tree that touches the target is the first tree. */
  lemma {:induction false} ForestFirst(ts: seq<FileTree>, offset: nat, target: Option<Range>)
    requires target.Some? ==> target.value.start <= offset
    ensures var p := InTargetForest(ts, offset, target);
            p != [] ==> ts != [] && p[0] == Placed(ts[0], offset)
  {
    hide FileBytes;
    if ts != [] && !InTarget(Extent(ts[0], offset), target) {
      ForestBeyondTarget(ts, offset, target);
    }
  }

  /** The trees that touch the target lie side by side. */
  lemma {:induction false} ForestAdjacent(ts: seq<FileTree>, offset: nat, target: Option<Range>)
    ensures Adjacent(InTargetForest(ts, offset, target))
  {
    hide FileBytes;
    if ts != [] {
      var mid := offset + Size(ts[0]);
      ForestAdjacent(ts[1..], mid, target);
      if InTarget(Extent(ts[0], offset), target) {
        ForestFirst(ts[1..], mid, target);
        var rest := InTargetForest(ts[1..], mid, target);
        assert ([Placed(ts[0], offset)] + rest)[1..] == rest;
      }
    }
  }

  /** The links of an inner block become the pending blocks of its children in the target. */
  lemma {:induction false} ToPendingForest(links: seq<PbLink>, sizes: seq<nat>, ts: seq<FileTree>, offset: nat, nth: nat, target: Option<Range>)
    requires |links| == |sizes| == |ts|
    requires forall i :: 0 <= i < |ts| ==> links[i].cid == Some(ts[i].cid) && sizes[i] == Size(ts[i])
    ensures var p := InTargetForest(ts, offset, target);
            ToPending(LinkRanges(links, sizes, offset), nth, target)
            == Ok(AsPending(p))
  {
    if ts != [] {
      ToPendingForest(links[1..], sizes[1..], ts[1..], offset + Size(ts[0]), nth + 1, target);
      var ranged := LinkRanges(links, sizes, offset);
      assert ranged[1..] == LinkRanges(links[1..], sizes[1..], offset + sizes[0]);
    }
  }

  lemma {:induction false} AsPendingAppend(a: seq<Placed>, b: seq<Placed>)
    ensures AsPending(a + b) == AsPending(a) + AsPending(b)
  {
    if a == [] {
      assert a + b == b;
    } else {
      assert (a + b)[1..] == a[1..] + b;
      AsPendingAppend(a[1..], b);
    }
  }

  lemma {:induction false} AdjacentAppend(a: seq<Placed>, b: seq<Placed>)
    requires Adjacent(a) && Adjacent(b)
    requires a != [] && b != [] ==> b[0].offset == PlacedRange(a[|a| - 1]).end
    ensures Adjacent(a + b)
  {
    if a == [] {
      assert a + b == b;
    } else {
      assert (a + b)[1..] == a[1..] + b;
      AdjacentAppend(a[1..], b);
    }
  }

  /** Slicing a leaf's content by the target is clipping it, and never goes out of bounds. */
  lemma {:induction false} TargetSliceIsClip(data: Bytes, offset: nat, target: Option<Range>)
    ensures InTarget(Range(offset, offset + |data|), target) ==>
              TargetSlice(data, Range(offset, offset + |data|), target) == Done(Clip(data, offset, target))
  {
  }

  /** Once the children in the target are pending, the visit goes on with the first of them. */
  lemma {:induction false} InnerVisiting(store: map<Cid, PbBlock>, v: Visit, children: seq<FileTree>, rest: seq<Placed>)
    requires ForestStored(store, children) && children != []
    requires v.ending == TreeCoverage(v.offset + |ForestBytes(children)|)
    requires InTarget(Range(v.offset, v.offset + |ForestBytes(children)|), v.target)
    requires AllPlaced(store, rest, v.target) && Adjacent(rest)
    requires rest != [] ==> rest[0].offset == v.offset + |ForestBytes(children)|
    requires v.pending == Reverse(AsPending(InTargetForest(children, v.offset, v.target) + rest))
    ensures Visiting(store, v, InTargetForest(children, v.offset, v.target) + rest)
  {
    hide InTargetForest, FileStored, ForestStored, ForestBytes, Reverse, AsPending, Adjacent;
    var more := InTargetForest(children, v.offset, v.target);
    ForestAllPlaced(store, children, v.offset, v.target);
    ForestAdjacent(children, v.offset, v.target);
    ForestTouches(children, v.offset, v.target);
    if rest != [] {
      assert InTarget(PlacedRange(rest[0]), v.target);
      ForestReachesEnd(children, v.offset, v.target);
    }
    AdjacentAppend(more, rest);
    assert (more + rest)[0] == more[0];
  }

  /** The reader made for the block of a tree at `offset`. */
  function TreeReader(n: Node, t: FileTree, offset: nat, meta: Metadata): Reader {
    Reader(offset, if t.Leaf? then Chunk(offset + Size(t)) else TreeCoverage(offset + Size(t)), n, meta, Size(t))
  }

  lemma {:induction false} InnerStored(store: map<Cid, PbBlock>, t: FileTree, root: bool)
    requires FileStored(store, t, root) && t.Inner?
    ensures t.cid in store && store[t.cid].Parsed?
    ensures ForestStored(store, t.children) && t.children != [] && FileBytes(t) == ForestBytes(t.children)
  {
  }

  lemma {:induction false} ReaderOfTree(b: PbBlock, t: FileTree, root: bool, offset: nat, meta: Metadata)
    requires IsFileBlock(b, t, root)
    ensures ReaderFromParts(b.node, offset, meta) == Done(TreeReader(b.node, t, offset, meta))
  {
  }

  /** What starting a visit leaves: the root's segment reported, and `todo` to visit. */
  ghost predicate Started(store: map<Cid, PbBlock>, t: FileTree, target: Option<Range>, todo: seq<Placed>)
    requires t.cid in store && store[t.cid].Parsed?
  {
    var r := Start(store[t.cid].node, target);
    && r.Done? && r.value.fileSize == Size(t) && r.value.meta == store[t.cid].node.meta
    && (if todo == [] then r.value.rest.None?
        else r.value.rest.Some? && Visiting(store, r.value.rest.value, todo) && r.value.rest.value.target == target)
    && (if InTarget(Extent(t, 0), target)
        then Segments(t, 0, target) == [(t.cid, r.value.bytes)] + PlacedSegments(todo, target)
        else todo == [] && r.value.bytes == [])
  }

  lemma {:induction false} StartLeaf(store: map<Cid, PbBlock>, t: FileTree, target: Option<Range>)
    requires FileStored(store, t, true) && t.Leaf?
    ensures Started(store, t, target, [])
  {
    ReaderOfTree(store[t.cid], t, true, 0, store[t.cid].node.meta);
    TargetSliceIsClip(t.data, 0, target);
  }

  lemma {:induction false} StartInnerAdvances(store: map<Cid, PbBlock>, t: FileTree, target: Option<Range>)
    requires FileStored(store, t, true) && t.Inner?
    ensures var n := store[t.cid].node;
            var r := TreeReader(n, t, 0, n.meta);
            var todo := InTargetForest(t.children, 0, target);
            Start(n, target)
            == Done(Visited([], r.fileSize, n.meta,
                            if todo == [] then None
                            else Some(Visit(Reverse(AsPending(todo)), target, r.ending, 0, r.fileSize, n.meta))))
  {
    var n, children := store[t.cid].node, t.children;
    ReaderOfTree(store[t.cid], t, true, 0, n.meta);
    ToPendingForest(n.links, n.blocksizes, children, 0, 0, target);
    hide InTargetForest, FileStored, ToPending, LinkRanges, FileBytes, ReaderFromParts;
    var todo := InTargetForest(children, 0, target);
    assert [] + Reverse(AsPending(todo)) == Reverse(AsPending(todo));
  }

  lemma {:induction false} StartInnerInTarget(store: map<Cid, PbBlock>, t: FileTree, target: Option<Range>)
    requires FileStored(store, t, true) && t.Inner? && InTarget(Extent(t, 0), target)
    ensures Started(store, t, target, InTargetForest(t.children, 0, target))
  {
    hide Start, InTargetForest, FileStored, ForestStored, AsPending, Reverse, PlacedSegments, Visiting, FileBytes, ForestBytes,
      ForestSegments;
    var children := t.children;
    InnerStored(store, t, true);
    StartInnerAdvances(store, t, target);
    var todo := InTargetForest(children, 0, target);
    ForestTouches(children, 0, target);
    ForestPlacedSegments(children, 0, target);
    assert todo + [] == todo;
    InnerVisiting(store, Start(store[t.cid].node, target).value.rest.value, children, []);
  }

  lemma {:induction false} StartInner(store: map<Cid, PbBlock>, t: FileTree, target: Option<Range>)
    requires FileStored(store, t, true) && t.Inner?
    ensures Started(store, t, target, InTargetForest(t.children, 0, target))
  {
    if InTarget(Extent(t, 0), target) {
      StartInnerInTarget(store, t, target);
    } else {
      hide Start, FileStored, ForestStored, FileBytes, ForestBytes, InTargetForest;
      InnerStored(store, t, true);
      StartInnerAdvances(store, t, target);
      ForestOutsideTarget(t.children, 0, target);
    }
  }

  /** Starting a visit on a stored file reports the root's segment and leaves the visit of the rest. */
  lemma {:induction false} StartVisits(store: map<Cid, PbBlock>, t: FileTree, target: Option<Range>)
    returns (todo: seq<Placed>)
    requires FileStored(store, t, true)
    ensures Started(store, t, target, todo)
  {
    hide Started;
    if t.Leaf? {
      StartLeaf(store, t, target);
      todo := [];
    } else {
      StartInner(store, t, target);
      todo := InTargetForest(t.children, 0, target);
    }
  }

  ghost predicate Continues(store: map<Cid, PbBlock>, v: Visit, todo: seq<Placed>, todo': seq<Placed>)
    requires todo != [] && todo[0].tree.cid in store
  {
    var r := Continue(v, store[todo[0].tree.cid]);
    && r.Done?
    && (if todo' == [] then r.value.rest.None?
        else r.value.rest.Some? && Visiting(store, r.value.rest.value, todo') && r.value.rest.value.target == v.target)
    && PlacedSegments(todo, v.target) == [(todo[0].tree.cid, r.value.bytes)] + PlacedSegments(todo', v.target)
  }

  lemma {:induction false} PendingTail(v: Visit, todo: seq<Placed>)
    requires todo != [] && v.pending == Reverse(AsPending(todo))
    ensures v.pending[..|v.pending| - 1] == Reverse(AsPending(todo[1..]))
    ensures v.pending[|v.pending| - 1] == PendingBlock(todo[0].tree.cid, PlacedRange(todo[0]))
    ensures VisitLinks(v).0 == todo[0].tree.cid
  {
    assert AsPending(todo)[1..] == AsPending(todo[1..]);
  }

  /** What is known of the first tree of a visit and of the trees after it. */
  lemma {:induction false} VisitingParts(store: map<Cid, PbBlock>, v: Visit, todo: seq<Placed>)
    requires Visiting(store, v, todo)
    ensures todo != []
    ensures FileStored(store, todo[0].tree, false) && InTarget(PlacedRange(todo[0]), v.target)
    ensures AllPlaced(store, todo[1..], v.target) && Adjacent(todo[1..])
    ensures |todo| > 1 ==> todo[1].offset == PlacedRange(todo[0]).end
  {
    hide FileStored, AsPending, Reverse, Extent;
  }

  lemma {:induction false} ContinueAdvances(store: map<Cid, PbBlock>, v: Visit, todo: seq<Placed>)
    requires Visiting(store, v, todo)
    ensures var t := todo[0].tree;
            var n := store[t.cid].node;
            && |n.links| == |n.blocksizes|
            && Continue(v, store[t.cid])
               == Advance(TreeReader(n, t, todo[0].offset, v.meta), PlacedRange(todo[0]), Reverse(AsPending(todo[1..])), v.target, false)
  {
    PendingTail(v, todo);
    assert FileStored(store, todo[0].tree, false);
    ReaderOfTree(store[todo[0].tree.cid], todo[0].tree, false, todo[0].offset, v.meta);
  }

  lemma {:induction false} ContinueLeafAdvances(store: map<Cid, PbBlock>, v: Visit, todo: seq<Placed>)
    requires Visiting(store, v, todo) && todo[0].tree.Leaf?
    ensures var t := todo[0].tree;
            var r := TreeReader(store[t.cid].node, t, todo[0].offset, v.meta);
            var pending := Reverse(AsPending(todo[1..]));
            && Continue(v, store[t.cid])
               == Done(Visited(Clip(t.data, todo[0].offset, v.target), r.fileSize, v.meta,
                               if pending == [] then None
                               else Some(Visit(pending, v.target, r.ending, r.offset, r.fileSize, v.meta))))
  {
    ContinueAdvances(store, v, todo);
    VisitingParts(store, v, todo);
    hide Visiting, AsPending, Reverse, AllPlaced, Adjacent, Continue, Clip, TargetSlice;
    TargetSliceIsClip(todo[0].tree.data, todo[0].offset, v.target);
  }

  lemma {:induction false} ContinueLeaf(store: map<Cid, PbBlock>, v: Visit, todo: seq<Placed>)
    requires Visiting(store, v, todo) && todo[0].tree.Leaf?
    ensures Continues(store, v, todo, todo[1..])
  {
    hide Continue, FileStored, Clip;
    ContinueLeafAdvances(store, v, todo);
    VisitingParts(store, v, todo);
    var rest := todo[1..];
    assert rest == [] <==> Reverse(AsPending(rest)) == [];
  }

  lemma {:induction false} ContinueInnerAdvances(store: map<Cid, PbBlock>, v: Visit, todo: seq<Placed>)
    requires Visiting(store, v, todo) && todo[0].tree.Inner?
    ensures var t := todo[0].tree;
            var r := TreeReader(store[t.cid].node, t, todo[0].offset, v.meta);
            var todo' := InTargetForest(t.children, todo[0].offset, v.target) + todo[1..];
            && Continue(v, store[t.cid])
               == Done(Visited([], r.fileSize, v.meta,
                               Some(Visit(Reverse(AsPending(todo')), v.target, r.ending, r.offset, r.fileSize, v.meta))))
  {
    ContinueAdvances(store, v, todo);
    var t, offset := todo[0].tree, todo[0].offset;
    var n := store[t.cid].node;
    var more, rest := InTargetForest(t.children, offset, v.target), todo[1..];
    assert FileStored(store, t, false);
    ToPendingForest(n.links, n.blocksizes, t.children, offset, 0, v.target);
    AsPendingAppend(more, rest);
    ReverseAppend(AsPending(more), AsPending(rest));
  }

  lemma {:induction false} InnerSegments(t: FileTree, offset: nat, rest: seq<Placed>, target: Option<Range>)
    requires t.Inner? && InTarget(Extent(t, offset), target)
    ensures PlacedSegments([Placed(t, offset)] + rest, target)
            == [(t.cid, [])] + PlacedSegments(InTargetForest(t.children, offset, target) + rest, target)
  {
    ForestPlacedSegments(t.children, offset, target);
    PlacedSegmentsAppend(InTargetForest(t.children, offset, target), rest, target);
    assert ([Placed(t, offset)] + rest)[1..] == rest;
  }

  lemma {:induction false} ContinueInner(store: map<Cid, PbBlock>, v: Visit, todo: seq<Placed>)
    requires Visiting(store, v, todo) && todo[0].tree.Inner?
    ensures todo[0].tree.cid in store
    ensures Continues(store, v, todo, InTargetForest(todo[0].tree.children, todo[0].offset, v.target) + todo[1..])
  {
    hide Continue, Segments, InTargetForest, FileStored, AsPending, Reverse, PlacedSegments, AllPlaced, Adjacent, Visiting;
    VisitingParts(store, v, todo);
    InnerStored(store, todo[0].tree, false);
    var t, offset, rest := todo[0].tree, todo[0].offset, todo[1..];
    ContinueInnerAdvances(store, v, todo);
    ForestTouches(t.children, offset, v.target);
    InnerVisiting(store, Continue(v, store[t.cid]).value.rest.value, t.children, rest);
    InnerSegments(t, offset, rest, v.target);
    assert todo == [Placed(t, offset)] + rest;
  }

  /** Continuing a visit with the block it asked for reports that block's segment and goes on. */
  lemma {:induction false} ContinueVisits(store: map<Cid, PbBlock>, v: Visit, todo: seq<Placed>)
    returns (todo': seq<Placed>)
    requires Visiting(store, v, todo)
    ensures v.pending != [] && VisitLinks(v).0 == todo[0].tree.cid && todo[0].tree.cid in store
    ensures Continues(store, v, todo, todo')
  {
    PendingTail(v, todo);
    if todo[0].tree.Leaf? {
      ContinueLeaf(store, v, todo);
      todo' := todo[1..];
    } else {
      ContinueInner(store, v, todo);
      todo' := InTargetForest(todo[0].tree.children, todo[0].offset, v.target) + todo[1..];
    }
  }

  function SegmentCids(ss: seq<(Cid, Bytes)>): seq<Cid> {
    if ss == [] then [] else [ss[0].0] + SegmentCids(ss[1..])
  }

  lemma {:induction false} SegmentsSnoc(ss: seq<(Cid, Bytes)>, cid: Cid, bytes: Bytes)
    ensures SegmentBytes(ss + [(cid, bytes)]) == SegmentBytes(ss) + bytes
    ensures SegmentCids(ss + [(cid, bytes)]) == SegmentCids(ss) + [cid]
  {
    var last := [(cid, bytes)];
    if ss == [] {
      assert ss + last == last;
    } else {
      assert (ss + last)[1..] == ss[1..] + last;
      SegmentsSnoc(ss[1..], cid, bytes);
    }
  }

  lemma {:induction false} NoSegments(target: Option<Range>)
    ensures PlacedSegments([], target) == [] && SegmentBytes([]) == [] && SegmentCids([]) == []
  {
  }

  /** Drives a started visit to its end. */
  method FinishVisit(store: map<Cid, PbBlock>, start: Visit, ghost trees: seq<Placed>)
    returns (bytes: Bytes, loaded: seq<Cid>)
    requires Visiting(store, start, trees)
    ensures bytes == SegmentBytes(PlacedSegments(trees, start.target))
    ensures loaded == SegmentCids(PlacedSegments(trees, start.target))
  {
    hide Continue, Visiting, Segments, PlacedSegments, SegmentBytes, SegmentCids;
    var rest := Some(start);
    bytes, loaded := [], [];
    ghost var todo, done: seq<(Cid, Bytes)> := trees, [];
    NoSegments(start.target);
    while rest.Some?
      invariant PlacedSegments(trees, start.target) == done + PlacedSegments(todo, start.target)
      invariant loaded == SegmentCids(done) && bytes == SegmentBytes(done)
      invariant if rest.None? then PlacedSegments(todo, start.target) == []
                else Visiting(store, rest.value, todo) && rest.value.target == start.target
      decreases |PlacedSegments(todo, start.target)|
    {
      var visit := rest.value;
      todo := ContinueVisits(store, visit, todo);
      var cid := VisitLinks(visit).0;
      var step := Continue(visit, store[cid]).value;
      SegmentsSnoc(done, cid, step.bytes);
      done := done + [(cid, step.bytes)];
      bytes, loaded, rest := bytes + step.bytes, loaded + [cid], step.rest;
    }
    assert PlacedSegments(trees, start.target) == done;
  }

  lemma {:induction false} SegmentsSplit(t: FileTree, target: Option<Range>, first: Bytes, rest: seq<(Cid, Bytes)>)
    requires Segments(t, 0, target) == [(t.cid, first)] + rest
    ensures Clip(FileBytes(t), 0, target) == first + SegmentBytes(rest)
    ensures SegmentCids(Segments(t, 0, target)) == [t.cid] + SegmentCids(rest)
  {
    hide Segments, Clip;
    SegmentsCarryTarget(t, 0, target);
    assert ([(t.cid, first)] + rest)[1..] == rest;
  }

  /** Reads a file, or the part of it inside `target`, by loading the blocks the visit asks for. */
  method ReadFile(store: map<Cid, PbBlock>, root: Cid, target: Option<Range>, ghost t: FileTree)
    returns (bytes: Bytes, loaded: seq<Cid>)
    requires root == t.cid && FileStored(store, t, true)
    ensures bytes == Clip(FileBytes(t), 0, target)
    ensures loaded == if InTarget(Extent(t, 0), target) then SegmentCids(Segments(t, 0, target)) else [root]
  {
    ghost var todo := StartVisits(store, t, target);
    hide Start, Visiting, FileStored, Segments, PlacedSegments, Clip, Size;
    var step := Start(store[root].node, target).value;
    bytes, loaded := step.bytes, [root];
    NoSegments(target);
    if step.rest.Some? {
      var more, cids := FinishVisit(store, step.rest.value, todo);
      bytes, loaded := bytes + more, loaded + cids;
    }
    if InTarget(Extent(t, 0), target) {
      SegmentsSplit(t, target, step.bytes, PlacedSegments(todo, target));
    } else {
      ClipOutside(FileBytes(t), 0, target);
    }
  }
}
