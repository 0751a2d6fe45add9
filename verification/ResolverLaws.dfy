/** Laws of the resolver over every store and path: single steps against followed links, the paths in
    errors, and "." after a link. */
module ResolverLaws {
  import opened Common
  import opened UnixFs
  import opened Ipld
  import opened Resolver
  import opened ResolverDocs
  import opened ResolverLoop

  // ---------------------------------------------------------------------------------------------
  // Paths that never need a search through further buckets

  /** No segment is matched by a search through the buckets of a sharded directory. */
  ghost predicate AllCounted(store: Store, rank: Cid -> nat, cid: Cid, segs: seq<string>)
    requires Ranked(store, rank)
    decreases rank(cid)
  {
    match OneHop(store, rank, cid, segs)
    case Jump(_, dest, rest, counted) =>
      JumpsGoDown(store, rank, cid, segs);
      counted && AllCounted(store, rank, dest, rest)
    case _ => true
  }

  /** The counts are exact on exactly these paths. */
  lemma {:induction false} LateIsUncounted(store: Store, rank: Cid -> nat, cid: Cid, segs: seq<string>, late: nat)
    requires Ranked(store, rank)
    ensures Resolve(store, rank, cid, segs, late).late >= late
    ensures Resolve(store, rank, cid, segs, late).late == late <==> AllCounted(store, rank, cid, segs)
    decreases rank(cid)
  {
    hide OneHop;
    var hop := OneHop(store, rank, cid, segs);
    if hop.Jump? {
      JumpsGoDown(store, rank, cid, segs);
      LateIsUncounted(store, rank, hop.dest, hop.rest, if hop.counted then late else late + 1);
    }
  }

  /** The path in an error, for the errors that carry one. */
  function ErrorPath(e: ResolveError): Option<seq<string>> {
    match e
    case LoadingFailed(_) => None
    case UnsupportedDocument(_) => None
    case IndexOutOfRange(_, path, _, _) => Some(path)
    case NoLinksFound(_, path) => Some(path)
    case PathNotFound(_, path) => Some(path)
  }

  /** The path in an error is the path through the segment that failed, across any number of documents,
      if and only if no segment before was found by a bucket search. */
  lemma {:induction false} ErrorPathsEndAtTheFailure(store: Store, rank: Cid -> nat, cid: Cid, path: seq<string>, r: Result<(ResolvedNode, seq<string>), ResolveError>)
    requires Ranked(store, rank)
    requires FollowedResult(Resolve(store, rank, cid, path, 0), path, r)
    requires Resolve(store, rank, cid, path, 0).Lost? && Resolve(store, rank, cid, path, 0).fault.Nowhere?
    ensures var fault := Resolve(store, rank, cid, path, 0).fault;
            && r.Err? && ErrorPath(r.error).Some?
            && |fault.rest| < |path| && path[|path| - |fault.rest| - 1] == fault.segment && path[|path| - |fault.rest|..] == fault.rest
            && (ErrorPath(r.error).value == path[..|path| - |fault.rest|] <==> AllCounted(store, rank, cid, path))
  {
    hide OneHop, Resolve;
    LateIsUncounted(store, rank, cid, path, 0);
    var Lost(fault, late) := Resolve(store, rank, cid, path, 0);
    var failing := [fault.segment] + fault.rest;
    assert path[|path| - |failing|..][0] == fault.segment;
    assert path[|path| - |failing|..][1..] == path[|path| - |fault.rest|..];
    if ErrorPath(r.error).value == path[..|path| - |fault.rest|] {
      assert |path[..|path| - |fault.rest| - late]| == |path[..|path| - |fault.rest|]|;
    }
  }

  /** Which error each fault becomes. */
  lemma {:induction false} ErrorKinds(fault: Fault, path: seq<string>, late: nat)
    requires fault.Nowhere? ==> |fault.rest| + late < |path|
    ensures var e := FaultWithPath(fault, path, late);
            match fault
            case CannotLoad(c) => e == LoadingFailed(c)
            case CannotRead(c) => e == UnsupportedDocument(c)
            case Nowhere(why, document, _, rest) =>
              var cut := path[..|path| - |rest| - late];
              && (e == PathNotFound(document, cut) <==> why.NoEntry? || why.BadIndex?)
              && (forall i, n :: e == IndexOutOfRange(document, cut, i, n) <==> why == OutOfRange(i, n))
              && (e == NoLinksFound(document, cut) <==> why.NoLinks?)
  {
  }

  /** Which error a path gives that fails in a document: the segments before the failing one lead to a
      map without its key, to a list for which it is no index or one out of range, or to a value
      without anything below, and the error's path ends with the failing segment. */
  lemma {:induction false} DocumentErrors(store: Store, rank: Cid -> nat, cid: Cid, path: seq<string>, r: Result<(ResolvedNode, seq<string>), ResolveError>)
    returns (k: nat, w: Ipld)
    requires Ranked(store, rank) && IsDocument(store, cid) && path != [] && OneHop(store, rank, cid, path).Blocked?
    requires FollowedResult(Resolve(store, rank, cid, path, 0), path, r) || HopResult(OneHop(store, rank, cid, path), path, r)
    ensures k < |path| && LeadsTo(store[cid].ipld.value, path[..k], w) && !w.Link?
    ensures w.Map? ==> NoField(w.fields, path[k]) && r == Err(PathNotFound(cid, path[..k + 1]))
    ensures w.List? ==> forall n: nat :: IndexText(path[k], n) ==> n >= |w.items| && r == Err(IndexOutOfRange(cid, path[..k + 1], n, |w.items|))
    ensures w.List? && (forall n: nat :: !IndexText(path[k], n)) ==> r == Err(PathNotFound(cid, path[..k + 1]))
    ensures !w.Map? && !w.List? ==> r == Err(NoLinksFound(cid, path[..k + 1]))
  {
    hide LeadsTo, Ranked, IsSuffix, IndexText;
    k, w := FailsAtSegment(store, rank, cid, path);
    hide OneHop;
    assert |path| - |path[k + 1..]| == k + 1;
    if w.List? {
      OneIndex(path[k]);
    }
  }

  // ---------------------------------------------------------------------------------------------
  // Iterating single steps

  /** The result of the last step when each is resolved on its own: the node with the path inside its
      document, or the error with a path that starts at the failing document. */
  ghost predicate SteppedResult(answer: Answer, path: seq<string>, r: Result<(ResolvedNode, seq<string>), ResolveError>) {
    match answer
    case Found(node, inside, _) => r == Ok((node, inside))
    case Lost(fault, _) =>
      exists tail :: IsSuffix(tail, path) && (fault.Nowhere? ==> |fault.rest| < |tail|) && r == Err(FaultWithPath(fault, tail, 0))
  }

  lemma {:induction false} SuffixTrans(a: seq<string>, b: seq<string>, c: seq<string>)
    requires IsSuffix(a, b) && IsSuffix(b, c)
    ensures IsSuffix(a, c)
  {
    assert c[|c| - |a|..] == c[|c| - |b|..][|b| - |a|..];
  }

  /** Resolves one link at a time, each time from the returned destination and remaining path. */
  method ResolveByHops(store: Store, cid: Cid, path: seq<string>, ghost rank: Cid -> nat)
    returns (r: Result<(ResolvedNode, seq<string>), ResolveError>)
    requires Ranked(store, rank)
    ensures AllCounted(store, rank, cid, path) ==> SteppedResult(Resolve(store, rank, cid, path, 0), path, r)
  {
    hide OneHop, FaultWithPath;
    var current, rest := cid, path;
    ghost var exact := AllCounted(store, rank, cid, path);
    while true
      invariant exact ==> AllCounted(store, rank, current, rest) && IsSuffix(rest, path)
      invariant exact ==> Resolve(store, rank, cid, path, 0) == Resolve(store, rank, current, rest, 0)
      decreases rank(current)
    {
      ghost var hop := OneHop(store, rank, current, rest);
      r := ResolvePath(store, current, rest, false, rank);
      if r.Ok? && r.value.0.LinkNode? {
        ArrivesAtNodes(store, rank, current, rest);
        JumpsGoDown(store, rank, current, rest);
        HopSuffix(store, rank, current, rest);
        if exact {
          SuffixTrans(hop.rest, rest, path);
        }
        current, rest := r.value.0.dest, r.value.1;
      } else {
        return;
      }
    }
  }

  lemma {:induction false} ArrivesAtNodes(store: Store, rank: Cid -> nat, cid: Cid, segs: seq<string>)
    requires Ranked(store, rank)
    ensures OneHop(store, rank, cid, segs).Arrive? ==> !OneHop(store, rank, cid, segs).node.LinkNode?
  {
    hide Lookup, Search, Inside;
  }

  /** On paths without bucket searches, following links and iterating single steps end at the same node
      and the same path inside its document. */
  method FollowAgreesWithHops(store: Store, cid: Cid, path: seq<string>, ghost rank: Cid -> nat)
    returns (followed: Result<(ResolvedNode, seq<string>), ResolveError>, stepped: Result<(ResolvedNode, seq<string>), ResolveError>)
    requires Ranked(store, rank)
    ensures AllCounted(store, rank, cid, path) ==> followed.Ok? == stepped.Ok? && (followed.Ok? ==> followed == stepped)
    ensures FollowedResult(Resolve(store, rank, cid, path, 0), path, followed)
  {
    hide OneHop, Resolve;
    followed := ResolvePath(store, cid, path, true, rank);
    stepped := ResolveByHops(store, cid, path, rank);
    LateIsUncounted(store, rank, cid, path, 0);
  }

  /** A segment found by a bucket search is handed back in the remaining path although it was used. */
  lemma {:induction false} UncountedSegmentIsHandedBack(store: Store, rank: Cid -> nat, cid: Cid, path: seq<string>, r: Result<(ResolvedNode, seq<string>), ResolveError>)
    requires Ranked(store, rank)
    requires OneHop(store, rank, cid, path).Jump? && !OneHop(store, rank, cid, path).counted
    requires HopResult(OneHop(store, rank, cid, path), path, r)
    ensures r == Ok((LinkNode(cid, OneHop(store, rank, cid, path).dest), path))
    ensures OneHop(store, rank, cid, path).rest == path[1..]
  {
    hide Lookup, Search, Inside;
  }

  function Sharded(links: seq<PbLink>): Block {
    Block(Parsed(Node(HamtShard, [], None, [], Some(SHARD_HASH), Some(SHARD_FANOUT), NO_METADATA, links)), None)
  }

  /** The failing family is not empty: an entry one bucket below a sharded root is found when links are
      followed, but stepping asks its document for the same name once more and fails. */
  lemma {:induction false} SteppingFailsBelowABucket()
    returns (store: Store, rank: Cid -> nat, root: Cid, entry: Cid)
    ensures Ranked(store, rank)
    ensures Resolve(store, rank, root, ["a"], 0) == Found(BlockNode(entry), [], 1)
    ensures OneHop(store, rank, root, ["a"]) == Jump(root, entry, [], false)
    ensures OneHop(store, rank, entry, ["a"]).Blocked?
  {
    root := Cid(V1, DAG_PB, SHA2_256, [1]);
    var bucket := Cid(V1, DAG_PB, SHA2_256, [2]);
    entry := Cid(V1, 0x55, SHA2_256, [3]);
    store := BucketBelow(root, bucket, entry);
    rank := c => if c == root then 2 else if c == bucket then 1 else 0;
    hide *;
    BucketBelowRanked(root, bucket, entry, rank);
    BucketBelowHops(root, bucket, entry, rank);
  }

  lemma {:induction false} BucketBelowHops(root: Cid, bucket: Cid, entry: Cid, rank: Cid -> nat)
    requires root != bucket && bucket != entry && root != entry && root.codec == DAG_PB && entry.codec != DAG_PB
    requires Ranked(BucketBelow(root, bucket, entry), rank)
    ensures var store := BucketBelow(root, bucket, entry);
            && OneHop(store, rank, root, ["a"]) == Jump(root, entry, [], false)
            && OneHop(store, rank, entry, ["a"]).Blocked?
            && Resolve(store, rank, root, ["a"], 0) == Found(BlockNode(entry), [], 1)
  {
    var store := BucketBelow(root, bucket, entry);
    BucketBelowFinds(root, bucket, entry, rank);
    hide Search, Lookup, Ranked;
    assert ["a"][1..] == [];
    assert OneHop(store, rank, root, ["a"]) == Jump(root, entry, [], false);
    assert OneHop(store, rank, entry, []) == Arrive(BlockNode(entry));
    assert Resolve(store, rank, entry, [], 1) == Found(BlockNode(entry), [], 1);
  }

  lemma {:induction false} BucketBelowFinds(root: Cid, bucket: Cid, entry: Cid, rank: Cid -> nat)
    requires root != bucket && bucket != entry && root != entry && Ranked(BucketBelow(root, bucket, entry), rank)
    ensures var store := BucketBelow(root, bucket, entry);
            && Lookup(store[root].pb, "a") == SearchIn([bucket])
            && Search(store, rank, [bucket], "a") == Some(entry)
  {
    LookAbove(bucket);
    LookBelow(entry);
    hide Partition, Ranked;
    assert [bucket][1..] == [];
  }

  function BucketBelow(root: Cid, bucket: Cid, entry: Cid): Store {
    map[root := Sharded([PbLink(Some(bucket), "00")]), bucket := Sharded([PbLink(Some(entry), "00a")]), entry := Block(NotDagPb, Some(Null))]
  }

  lemma {:induction false} BucketBelowRanked(root: Cid, bucket: Cid, entry: Cid, rank: Cid -> nat)
    requires root != bucket && bucket != entry && root != entry && rank(entry) < rank(bucket) < rank(root)
    ensures Ranked(BucketBelow(root, bucket, entry), rank)
  {
  }

  lemma {:induction false} LookAbove(bucket: Cid)
    ensures Partition([PbLink(Some(bucket), "00")], "a", None, []) == Parted(None, [bucket])
  {
    assert [PbLink(Some(bucket), "00")][1..] == [] && [] + [bucket] == [bucket];
  }

  lemma {:induction false} LookBelow(entry: Cid)
    ensures Partition([PbLink(Some(entry), "00a")], "a", None, []) == Parted(Some(entry), [])
  {
    assert "00a"[2..] == "a" && [PbLink(Some(entry), "00a")][1..] == [];
  }

  // ---------------------------------------------------------------------------------------------
  // "." after a link

  /** The segments lead from a value to a link inside the same document. */
  ghost predicate Lands(v: Ipld, segs: seq<string>)
    decreases |segs|
  {
    if v.Link? then segs == []
    else if segs == [] then false
    else
      match v
      case Map(fields) => Get(fields, segs[0]).Some? && Lands(Get(fields, segs[0]).value, segs[1..])
      case List(items) =>
        var i := ParseIndex(segs[0]);
        i.Some? && i.value < |items| && Lands(items[i.value], segs[1..])
      case _ => false
  }

  /** The last segment, in whichever document it is used, lands on a link inside a document that is
      not dag-pb. */
  ghost predicate LandsOnLink(store: Store, rank: Cid -> nat, cid: Cid, segs: seq<string>)
    requires Ranked(store, rank)
    decreases rank(cid)
  {
    || (segs != [] && cid in store && cid.codec != DAG_PB && store[cid].ipld.Some? && Lands(store[cid].ipld.value, segs))
    || (match OneHop(store, rank, cid, segs)
        case Jump(_, dest, rest, _) =>
          JumpsGoDown(store, rank, cid, segs);
          rest != [] && LandsOnLink(store, rank, dest, rest)
        case _ => false)
  }

  lemma {:induction false} LandsThenDot(v: Ipld, pre: seq<string>, post: seq<string>)
    requires Lands(v, pre) && (post == [] || post[0] != ".")
    ensures Inside(v, pre + ["."] + post).AtLink?
    ensures Inside(v, pre + ["."] + post) == Inside(v, pre + post)
    decreases |pre|
  {
    hide ParseIndex, Get;
    if pre == [] {
      assert pre + post == post && pre + ["."] + post == ["."] + post;
      assert (["."] + post)[1..] == post;
    } else {
      var next := if v.Map? then Get(v.fields, pre[0]).value else v.items[ParseIndex(pre[0]).value];
      LandsThenDot(next, pre[1..], post);
      assert (pre + post)[1..] == pre[1..] + post;
      assert (pre + ["."] + post)[1..] == pre[1..] + ["."] + post;
    }
  }

  lemma {:induction false} InsideExtends(v: Ipld, segs: seq<string>, more: seq<string>)
    requires Inside(v, segs).AtLink? && Inside(v, segs).rest != []
    ensures Inside(v, segs + more) == AtLink(Inside(v, segs).dest, Inside(v, segs).rest + more)
    decreases |segs|
  {
    hide ParseIndex, Get;
    if v.Link? {
      assert (segs + more)[1..] == segs[1..] + more;
    } else {
      var next := if v.Map? then Get(v.fields, segs[0]).value else v.items[ParseIndex(segs[0]).value];
      InsideExtends(next, segs[1..], more);
      assert (segs + more)[1..] == segs[1..] + more;
    }
  }

  /** A jump that leaves segments over does not depend on what follows. */
  lemma {:induction false} HopExtends(store: Store, rank: Cid -> nat, cid: Cid, segs: seq<string>, more: seq<string>)
    requires Ranked(store, rank) && OneHop(store, rank, cid, segs).Jump?
    requires OneHop(store, rank, cid, segs).rest != []
    ensures var hop := OneHop(store, rank, cid, segs);
            OneHop(store, rank, cid, segs + more) == Jump(hop.source, hop.dest, hop.rest + more, hop.counted)
  {
    hide Lookup, Search, Inside;
    if cid.codec == DAG_PB {
      assert (segs + more)[1..] == segs[1..] + more;
    } else {
      InsideExtends(store[cid].ipld.value, segs, more);
    }
  }

  /** One "." after a segment that lands on a link changes neither where the path leads nor the part of
      it inside the last document. */
  lemma {:induction false} DotAfterLink(store: Store, rank: Cid -> nat, cid: Cid, pre: seq<string>, post: seq<string>, late: nat)
    requires Ranked(store, rank) && LandsOnLink(store, rank, cid, pre)
    requires post == [] || post[0] != "."
    ensures Resolve(store, rank, cid, pre + ["."] + post, late) == Resolve(store, rank, cid, pre + post, late)
    decreases rank(cid)
  {
    hide Lookup, Search, Inside;
    if pre != [] && cid in store && cid.codec != DAG_PB && store[cid].ipld.Some? && Lands(store[cid].ipld.value, pre) {
      LandsThenDot(store[cid].ipld.value, pre, post);
    } else {
      hide OneHop;
      var hop := OneHop(store, rank, cid, pre);
      JumpsGoDown(store, rank, cid, pre);
      HopExtends(store, rank, cid, pre, post);
      HopExtends(store, rank, cid, pre, ["."] + post);
      Assoc(pre, ["."], post);
      Assoc(hop.rest, ["."], post);
      DotAfterLink(store, rank, hop.dest, hop.rest, post, if hop.counted then late else late + 1);
    }
  }
}
