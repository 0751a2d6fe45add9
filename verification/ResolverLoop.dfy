/** The resolving loop, which counts segments instead of cutting paths, and its callers. */
module ResolverLoop {
  import opened Common
  import opened UnixFs
  import opened Ipld
  import opened Resolver
  import opened ResolverDocs

  /** The fault as the counting code reports it, for a path of `len` segments of which `late` went uncounted. */
  function RawFault(fault: Fault, len: nat, late: nat): RawError
    requires fault.Nowhere? ==> |fault.rest| + late < len
  {
    match fault
    case CannotLoad(c) => Loading(c)
    case CannotRead(c) => Unsupported(c)
    case Nowhere(why, document, _, rest) => RawStuck(why, document, len - |rest| - 1 - late)
  }

  /** Moves an index inside a document to its place in the whole path. */
  function AddStartingPoint(e: RawError, start: nat): RawError {
    match e
    case ListIndexOutOfRange(document, i, index, elements) => ListIndexOutOfRange(document, i + start, index, elements)
    case InvalidIndex(document, i) => InvalidIndex(document, i + start)
    case NoLinksAt(document, i) => NoLinksAt(document, i + start)
    case NotFound(document, i) => NotFound(document, i + start)
    case Loading(_) | Unsupported(_) => e
  }

  datatype Local = Complete(node: ResolvedNode) | Incomplete(source: Cid, buckets: seq<Cid>)

  /** The hop out of a document, as the local resolution at `pos` sees it. */
  ghost predicate LocalHop(hop: Hop, segments: seq<string>, pos: nat, r: Result<(Local, nat), RawError>, next: nat)
    requires pos <= next <= |segments|
  {
    match hop
    case Jump(source, dest, rest, _) => r == Ok((Complete(LinkNode(source, dest)), next - pos)) && segments[next..] == rest
    case Arrive(node) => r.Ok? && r.value.0 == Complete(node)
    case Blocked(fault) => (fault.Nowhere? ==> |fault.rest| < |segments| - pos) && r == Err(RawFault(fault, |segments| - pos, 0))
  }

  /** Resolves as far as one block goes. */
  method ResolveLocal(store: Store, cid: Cid, segments: seq<string>, pos: nat, ghost rank: Cid -> nat)
    returns (r: Result<(Local, nat), RawError>, next: nat)
    requires cid in store && pos <= |segments| && Ranked(store, rank)
    ensures pos <= next <= |segments|
    ensures if pos < |segments| && cid.codec == DAG_PB && Lookup(store[cid].pb, segments[pos]).SearchIn?
            then next == pos + 1 && r == Ok((Incomplete(cid, Lookup(store[cid].pb, segments[pos]).buckets), 0))
            else LocalHop(OneHop(store, rank, cid, segments[pos..]), segments, pos, r, next)
    ensures IsDocument(store, cid) && pos < |segments| ==>
              forall v :: r.Ok? && r.value.0 == Complete(Projection(cid, v)) <==> LeadsTo(store[cid].ipld.value, segments[pos..], v) && !v.Link?
  {
    hide Lookup, Inside, LeadsTo, Ranked;
    if IsDocument(store, cid) && pos < |segments| {
      ProjectsValues(store, rank, cid, segments[pos..]);
    }
    if pos == |segments| {
      return Ok((Complete(BlockNode(cid)), 0)), pos;
    }
    ghost var segs := segments[pos..];
    assert segs[0] == segments[pos] && segs[1..] == segments[pos + 1..];
    if cid.codec == DAG_PB {
      next := pos + 1;
      var isLast := next == |segments|;
      assert isLast && segments[pos] == "Data" <==> segs == ["Data"];
      match Lookup(store[cid].pb, segments[pos]) {
        case SearchIn(buckets) =>
          r := Ok((Incomplete(cid, buckets), 0));
        case To(dest) =>
          r := Ok((Complete(LinkNode(cid, dest)), 1));
        case Missing =>
          r := if segments[pos] == "Data" && isLast then Ok((Complete(DagPbData(cid)), 1)) else Err(NotFound(cid, 0));
        case NotADirectory =>
          r := Err(NotFound(cid, 0));
        case Refused =>
          r := Err(Unsupported(cid));
      }
    } else if store[cid].ipld.None? {
      r, next := Err(Unsupported(cid)), pos;
    } else {
      var local;
      local, next := ResolveLocalIpld(cid, store[cid].ipld.value, segments, pos);
      match local {
        case Ok((node, matched)) => r := Ok((Complete(node), matched));
        case Err(e) => r := Err(e);
      }
    }
  }

  /** What the loop may return for a path whose meaning is `answer`. */
  ghost predicate Counts(answer: Answer, len: nat, r: Result<(ResolvedNode, nat), RawError>) {
    match answer
    case Found(node, inside, late) => |inside| + late <= len && r == Ok((node, len - |inside| - late))
    case Lost(fault, late) => (fault.Nowhere? ==> |fault.rest| + late < len) && r == Err(RawFault(fault, len, late))
  }

  /** What one step without following links may return. */
  ghost predicate CountsHop(hop: Hop, len: nat, r: Result<(ResolvedNode, nat), RawError>) {
    match hop
    case Jump(source, dest, rest, counted) =>
      |rest| <= len && r == Ok((LinkNode(source, dest), if counted then len - |rest| else 0))
    case Arrive(node) => r == Ok((node, 0))
    case Blocked(fault) => (fault.Nowhere? ==> |fault.rest| < len) && r == Err(RawFault(fault, len, 0))
  }

  /** One document's part of the loop: resolve locally, and search further buckets if need be. */
  method ResolveHop(store: Store, cid: Cid, segments: seq<string>, pos: nat, ghost rank: Cid -> nat)
    returns (r: Result<(ResolvedNode, nat), RawError>, next: nat)
    requires pos <= |segments| && Ranked(store, rank)
    ensures pos <= next <= |segments|
    ensures match OneHop(store, rank, cid, segments[pos..])
            case Jump(source, dest, rest, counted) =>
              && segments[next..] == rest && (!counted ==> next == pos + 1)
              && r == Ok((LinkNode(source, dest), if counted then next - pos else 0))
            case Arrive(node) => r.Ok? && r.value.0 == node && !node.LinkNode?
            case Blocked(fault) => (fault.Nowhere? ==> |fault.rest| < |segments| - pos) && r == Err(RawFault(fault, |segments| - pos, 0))
  {
    if cid !in store {
      return Err(Loading(cid)), pos;
    }
    var local;
    local, next := ResolveLocal(store, cid, segments, pos, rank);
    hide Lookup, Inside, Search;
    match local {
      case Err(e) =>
        r := Err(e);
      case Ok((Complete(node), matched)) =>
        r := Ok((node, matched));
      case Ok((Incomplete(source, buckets), matched)) =>
        assert segments[pos..][1..] == segments[next..];
        LookupSearches(store[cid].pb, segments[pos]);
        var found := ResolveHamt(store, buckets, segments[pos], rank);
        r := if found.Some? then Ok((LinkNode(source, found.value), matched)) else Err(Unsupported(source));
    }
  }

  lemma {:induction false} LookupSearches(pb: PbBlock, name: string)
    ensures Lookup(pb, name).SearchIn? ==> Lookup(pb, name).buckets != []
  {
  }

  /** The loop over documents, keeping the current one and the total of matched segments. */
  method Resolve0(store: Store, cid: Cid, segments: seq<string>, followLinks: bool, ghost rank: Cid -> nat)
    returns (r: Result<(ResolvedNode, nat), RawError>)
    requires Ranked(store, rank)
    ensures followLinks ==> Counts(Resolve(store, rank, cid, segments, 0), |segments|, r)
    ensures !followLinks ==> CountsHop(OneHop(store, rank, cid, segments), |segments|, r)
  {
    hide OneHop;
    var current, total, pos := cid, 0, 0;
    assert segments[0..] == segments;
    while true
      invariant total <= pos <= |segments|
      invariant !followLinks ==> current == cid && pos == 0
      invariant Resolve(store, rank, cid, segments, 0) == Resolve(store, rank, current, segments[pos..], pos - total)
      decreases rank(current)
    {
      var start := total;
      ghost var hop := OneHop(store, rank, current, segments[pos..]);
      var step, next := ResolveHop(store, current, segments, pos, rank);
      match step {
        case Err(e) =>
          return Err(AddStartingPoint(e, start));
        case Ok((LinkNode(source, dest), matched)) =>
          assert hop.Jump?;
          JumpsGoDown(store, rank, current, segments[pos..]);
          total := total + matched;
          if !followLinks {
            return Ok((LinkNode(source, dest), total));
          }
          current, pos := dest, next;
        case Ok((other, _)) =>
          return Ok((other, start));
      }
    }
  }

  // ---------------------------------------------------------------------------------------------
  // The callers: remaining paths and truncated paths

  method IntoShifted(path: seq<string>, shifted: nat)
    returns (r: seq<string>)
    requires shifted <= |path|
    ensures r == path[shifted..]
  {
    r := path[shifted..];
  }

  method IntoTruncated(path: seq<string>, len: nat)
    returns (r: seq<string>)
    requires len <= |path|
    ensures r == path[..len]
  {
    r := path[..len];
  }

  /** The caller's view of a fault: the path up to and including the failing segment, short by the uncounted ones. */
  function FaultWithPath(fault: Fault, path: seq<string>, late: nat): ResolveError
    requires fault.Nowhere? ==> |fault.rest| + late < |path|
  {
    match fault
    case CannotLoad(c) => LoadingFailed(c)
    case CannotRead(c) => UnsupportedDocument(c)
    case Nowhere(why, document, _, rest) =>
      var cut := path[..|path| - |rest| - late];
      match why
      case NoEntry => PathNotFound(document, cut)
      case BadIndex => PathNotFound(document, cut)
      case OutOfRange(index, elements) => IndexOutOfRange(document, cut, index, elements)
      case NoLinks => NoLinksFound(document, cut)
  }

  method WithPath(e: RawError, path: seq<string>, ghost fault: Fault, ghost late: nat)
    returns (r: ResolveError)
    requires fault.Nowhere? ==> |fault.rest| + late < |path|
    requires e == RawFault(fault, |path|, late)
    ensures r == FaultWithPath(fault, path, late)
  {
    match e {
      case Loading(c) =>
        r := LoadingFailed(c);
      case Unsupported(c) =>
        r := UnsupportedDocument(c);
      case ListIndexOutOfRange(document, i, index, elements) =>
        var cut := IntoTruncated(path, i + 1);
        r := IndexOutOfRange(document, cut, index, elements);
      case NoLinksAt(document, i) =>
        var cut := IntoTruncated(path, i + 1);
        r := NoLinksFound(document, cut);
      case InvalidIndex(document, i) =>
        var cut := IntoTruncated(path, i + 1);
        r := PathNotFound(document, cut);
      case NotFound(document, i) =>
        var cut := IntoTruncated(path, i + 1);
        r := PathNotFound(document, cut);
    }
  }

  /** What resolving with links followed returns for a path whose meaning is `answer`. */
  ghost predicate FollowedResult(answer: Answer, path: seq<string>, r: Result<(ResolvedNode, seq<string>), ResolveError>) {
    match answer
    case Found(node, inside, late) =>
      && IsSuffix(inside, path) && |inside| + late <= |path|
      && r == Ok((node, path[|path| - |inside| - late..]))
    case Lost(fault, late) =>
      && (fault.Nowhere? ==> |fault.rest| + late < |path| && IsSuffix([fault.segment] + fault.rest, path))
      && r == Err(FaultWithPath(fault, path, late))
  }

  /** What resolving one link returns. */
  ghost predicate HopResult(hop: Hop, path: seq<string>, r: Result<(ResolvedNode, seq<string>), ResolveError>) {
    match hop
    case Jump(source, dest, rest, counted) => r == Ok((LinkNode(source, dest), if counted then rest else path))
    case Arrive(node) => r == Ok((node, path))
    case Blocked(fault) =>
      && (fault.Nowhere? ==> |fault.rest| < |path| && IsSuffix([fault.segment] + fault.rest, path))
      && r == Err(FaultWithPath(fault, path, 0))
  }

  /** The remaining path of a path whose meaning is `answer`. */
  lemma {:induction false} FoundShifted(answer: Answer, path: seq<string>, node: ResolvedNode, matched: nat)
    requires Counts(answer, |path|, Ok((node, matched)))
    requires answer.Found? ==> IsSuffix(answer.inside, path)
    ensures matched <= |path| && FollowedResult(answer, path, Ok((node, path[matched..])))
  {
  }

  lemma {:induction false} HopShifted(hop: Hop, path: seq<string>, node: ResolvedNode, matched: nat)
    requires CountsHop(hop, |path|, Ok((node, matched)))
    requires hop.Jump? ==> IsSuffix(hop.rest, path)
    ensures matched <= |path| && HopResult(hop, path, Ok((node, path[matched..])))
  {
  }

  ghost predicate FaultInPath(fault: Fault, path: seq<string>, late: nat) {
    fault.Nowhere? ==> |fault.rest| + late < |path| && IsSuffix([fault.segment] + fault.rest, path)
  }

  lemma {:induction false} LostTruncated(answer: Answer, path: seq<string>, e: RawError)
    requires Counts(answer, |path|, Err(e))
    requires answer.Lost? ==> FaultInPath(answer.fault, path, answer.late)
    ensures answer.Lost? && FaultInPath(answer.fault, path, answer.late) && e == RawFault(answer.fault, |path|, answer.late)
    ensures FollowedResult(answer, path, Err(FaultWithPath(answer.fault, path, answer.late)))
  {
  }

  lemma {:induction false} BlockedTruncated(hop: Hop, path: seq<string>, e: RawError)
    requires CountsHop(hop, |path|, Err(e))
    requires hop.Blocked? ==> FaultInPath(hop.fault, path, 0)
    ensures hop.Blocked? && FaultInPath(hop.fault, path, 0) && e == RawFault(hop.fault, |path|, 0)
    ensures HopResult(hop, path, Err(FaultWithPath(hop.fault, path, 0)))
  {
  }

  /** The suffixes that the meaning of a path and a hop leave. */
  lemma {:induction false} MeaningSuffixes(store: Store, rank: Cid -> nat, cid: Cid, path: seq<string>)
    requires Ranked(store, rank)
    ensures var answer := Resolve(store, rank, cid, path, 0);
            if answer.Found? then IsSuffix(answer.inside, path) else FaultInPath(answer.fault, path, answer.late)
    ensures var hop := OneHop(store, rank, cid, path);
            (hop.Jump? ==> IsSuffix(hop.rest, path)) && (hop.Blocked? ==> FaultInPath(hop.fault, path, 0))
  {
    hide Resolve, OneHop;
    ResolveSuffix(store, rank, cid, path, 0);
    HopSuffix(store, rank, cid, path);
  }

  /** A result of resolving in a document is a value exactly when the path leads to it. */
  lemma {:induction false} ReturnsValues(store: Store, rank: Cid -> nat, cid: Cid, path: seq<string>)
    requires Ranked(store, rank)
    ensures IsDocument(store, cid) && path != [] ==>
              forall r, v :: FollowedResult(Resolve(store, rank, cid, path, 0), path, r) || HopResult(OneHop(store, rank, cid, path), path, r) ==>
                (r.Ok? && r.value.0 == Projection(cid, v) <==> LeadsTo(store[cid].ipld.value, path, v) && !v.Link?)
    ensures forall r :: FollowedResult(Resolve(store, rank, cid, path, 0), path, r) || HopResult(OneHop(store, rank, cid, path), path, r) ==>
              (IsDocument(store, cid) && r.Ok? && r.value.0.Projection? && r.value.0.cid == cid ==> r.value.1 == path)
  {
    hide LeadsTo, Ranked, FaultWithPath, IsSuffix;
    if IsDocument(store, cid) {
      if path == [] {
        OtherDocuments(store, rank, cid, path);
      } else {
        ProjectsValues(store, rank, cid, path);
      }
      hide OneHop;
    }
  }

  /** Resolves a path below a cid, returning the node and the remaining path, or the path inside the
      last document when links are followed. */
  method ResolvePath(store: Store, cid: Cid, path: seq<string>, followLinks: bool, ghost rank: Cid -> nat)
    returns (r: Result<(ResolvedNode, seq<string>), ResolveError>)
    requires Ranked(store, rank)
    ensures followLinks ==> FollowedResult(Resolve(store, rank, cid, path, 0), path, r)
    ensures !followLinks ==> HopResult(OneHop(store, rank, cid, path), path, r)
    ensures IsDocument(store, cid) && path != [] ==>
              forall v :: r.Ok? && r.value.0 == Projection(cid, v) <==> LeadsTo(store[cid].ipld.value, path, v) && !v.Link?
    ensures IsDocument(store, cid) && r.Ok? && r.value.0.Projection? && r.value.0.cid == cid ==> r.value.1 == path
  {
    hide LeadsTo, Ranked;
    hide OneHop, Resolve, RawFault, FaultWithPath, Counts, CountsHop, FollowedResult, HopResult, IsSuffix;
    ghost var answer, hop := Resolve(store, rank, cid, path, 0), OneHop(store, rank, cid, path);
    MeaningSuffixes(store, rank, cid, path);
    ReturnsValues(store, rank, cid, path);
    var raw := Resolve0(store, cid, path, followLinks, rank);
    match raw {
      case Ok((node, matched)) =>
        if followLinks {
          FoundShifted(answer, path, node, matched);
        } else {
          HopShifted(hop, path, node, matched);
        }
        var rest := IntoShifted(path, matched);
        r := Ok((node, rest));
      case Err(e) =>
        if followLinks {
          LostTruncated(answer, path, e);
        } else {
          BlockedTruncated(hop, path, e);
        }
        ghost var fault, late := if followLinks then answer.fault else hop.fault, if followLinks then answer.late else 0;
        var error := WithPath(e, path, fault, late);
        r := Err(error);
    }
  }
}
