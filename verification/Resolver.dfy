/** Resolving a path through documents: what it means, and the counting loops that compute it. */
module Resolver {
  import opened Common
  import opened UnixFs
  import opened Ipld

  datatype ResolvedNode =
    | BlockNode(cid: Cid)
    | DagPbData(cid: Cid)
    | Projection(cid: Cid, value: Ipld)
    | LinkNode(source: Cid, dest: Cid)

  /** Why a segment could not be followed. */
  datatype Why = NoEntry | BadIndex | OutOfRange(index: nat, elements: nat) | NoLinks

  /** Errors with the index of the failing segment, counted from the start of the path. */
  datatype RawError =
    | Loading(cid: Cid)
    | Unsupported(cid: Cid)
    | ListIndexOutOfRange(document: Cid, segmentIndex: nat, index: nat, elements: nat)
    | InvalidIndex(document: Cid, segmentIndex: nat)
    | NoLinksAt(document: Cid, segmentIndex: nat)
    | NotFound(document: Cid, segmentIndex: nat)

  /** Errors as the caller sees them, with the path cut off after the failing segment. */
  datatype ResolveError =
    | LoadingFailed(cid: Cid)
    | UnsupportedDocument(cid: Cid)
    | IndexOutOfRange(document: Cid, path: seq<string>, index: nat, elements: nat)
    | NoLinksFound(document: Cid, path: seq<string>)
    | PathNotFound(document: Cid, path: seq<string>)

  // ---------------------------------------------------------------------------------------------
  // List indices

  const USIZE_LIMIT: nat := 0x1_0000_0000_0000_0000

  predicate IsDigit(c: char) { '0' <= c <= '9' }

  predicate AllDigits(ds: string) { forall i :: 0 <= i < |ds| ==> IsDigit(ds[i]) }

  function Decimal(ds: string): nat
    requires AllDigits(ds)
  {
    if ds == "" then 0
    else
      assert IsDigit(ds[|ds| - 1]);
      10 * Decimal(ds[..|ds| - 1]) + (ds[|ds| - 1] as int - '0' as int)
  }

  /** Decimal digits with an optional plus sign, below 2^64. */
  function ParseIndex(s: string): Option<nat> {
    var ds := if s != "" && s[0] == '+' then s[1..] else s;
    if ds == "" || !AllDigits(ds) then None
    else if Decimal(ds) < USIZE_LIMIT then Some(Decimal(ds)) else None
  }

  function DecimalText(n: nat): string {
    var digit := ('0' as int + n % 10) as char;
    if n < 10 then [digit] else DecimalText(n / 10) + [digit]
  }

  lemma {:induction false} DecimalReads(n: nat)
    ensures var ds := DecimalText(n); ds != "" && AllDigits(ds) && Decimal(ds) == n
  {
    if n >= 10 {
      DecimalReads(n / 10);
      var ds := DecimalText(n);
      assert ds[..|ds| - 1] == DecimalText(n / 10);
    }
  }

  /** A list index is read from its decimal text, with or without a plus sign, exactly up to the
      largest 64-bit number. */
  lemma {:induction false} IndexRoundTrip(n: nat)
    ensures ParseIndex(DecimalText(n)) == ParseIndex("+" + DecimalText(n)) == if n < USIZE_LIMIT then Some(n) else None
  {
    DecimalReads(n);
    var ds := DecimalText(n);
    assert IsDigit(ds[0]);
    assert ("+" + ds)[1..] == ds;
  }

  // ---------------------------------------------------------------------------------------------
  // Inside one document

  /** Where a path leaves a document: at a link with the rest of the path to go, at a value with the
      whole path used, or at a segment that leads nowhere. */
  datatype Stop =
    | AtLink(dest: Cid, rest: seq<string>)
    | AtValue(value: Ipld)
    | Stuck(why: Why, segment: string, rest: seq<string>)

  /** A link may be followed by one "." segment, which it absorbs. */
  function Inside(v: Ipld, segs: seq<string>): Stop
    decreases |segs|
  {
    if v.Link? then AtLink(v.cid, if segs != [] && segs[0] == "." then segs[1..] else segs)
    else if segs == [] then AtValue(v)
    else
      match v
      case Map(fields) =>
        (match Get(fields, segs[0])
         case None => Stuck(NoEntry, segs[0], segs[1..])
         case Some(f) => Inside(f, segs[1..]))
      case List(items) =>
        (match ParseIndex(segs[0])
         case None => Stuck(BadIndex, segs[0], segs[1..])
         case Some(i) =>
           if i < |items| then Inside(items[i], segs[1..])
           else Stuck(OutOfRange(i, |items|), segs[0], segs[1..]))
      case Null | Bool(_) | Integer(_) | Float(_) | Text(_) | Binary(_) => Stuck(NoLinks, segs[0], segs[1..])
  }

  lemma {:induction false} InsideUnfolds(v: Ipld, segs: seq<string>)
    ensures v.Link? ==> Inside(v, segs) == AtLink(v.cid, if segs != [] && segs[0] == "." then segs[1..] else segs)
    ensures !v.Link? && segs == [] ==> Inside(v, segs) == AtValue(v)
    ensures v.Map? && segs != [] ==>
              Inside(v, segs) == if Get(v.fields, segs[0]).None? then Stuck(NoEntry, segs[0], segs[1..]) else Inside(Get(v.fields, segs[0]).value, segs[1..])
    ensures v.List? && segs != [] ==>
              Inside(v, segs) == if ParseIndex(segs[0]).None? then Stuck(BadIndex, segs[0], segs[1..])
                                 else if ParseIndex(segs[0]).value < |v.items| then Inside(v.items[ParseIndex(segs[0]).value], segs[1..])
                                 else Stuck(OutOfRange(ParseIndex(segs[0]).value, |v.items|), segs[0], segs[1..])
    ensures !v.Link? && !v.Map? && !v.List? && segs != [] ==> Inside(v, segs) == Stuck(NoLinks, segs[0], segs[1..])
  {
    hide ParseIndex, Get;
  }

  function RawStuck(why: Why, document: Cid, index: nat): RawError {
    match why
    case NoEntry => NotFound(document, index)
    case BadIndex => InvalidIndex(document, index)
    case OutOfRange(i, n) => ListIndexOutOfRange(document, index, i, n)
    case NoLinks => NoLinksAt(document, index)
  }

  lemma {:induction false} InsideLinks(v: Ipld, segs: seq<string>)
    requires Inside(v, segs).AtLink?
    ensures Inside(v, segs).dest in Links(v)
    decreases |segs|
  {
    var d := Inside(v, segs).dest;
    match v {
      case Map(fields) =>
        InsideLinks(Get(fields, segs[0]).value, segs[1..]);
        GetLinks(fields, segs[0], d);
      case List(items) =>
        var i := ParseIndex(segs[0]).value;
        InsideLinks(items[i], segs[1..]);
        ItemAtLinks(items, i, d);
      case _ =>
    }
  }

  lemma {:induction false} InsideSuffix(v: Ipld, segs: seq<string>)
    ensures match Inside(v, segs)
            case AtLink(_, rest) => |rest| <= |segs| && segs[|segs| - |rest|..] == rest
            case AtValue(_) => true
            case Stuck(_, segment, rest) => |rest| < |segs| && segs[|segs| - |rest| - 1..] == [segment] + rest
    decreases |segs|
  {
    hide ParseIndex, Get, Inside;
    InsideUnfolds(v, segs);
    match v {
      case Map(fields) =>
        if segs != [] && Get(fields, segs[0]).Some? {
          InsideSuffix(Get(fields, segs[0]).value, segs[1..]);
        }
      case List(items) =>
        if segs != [] && ParseIndex(segs[0]).Some? && ParseIndex(segs[0]).value < |items| {
          InsideSuffix(items[ParseIndex(segs[0]).value], segs[1..]);
        }
      case _ =>
    }
  }

  /** Resolves inside a document, counting the matched segments and consuming the path from `start`. */
  method ResolveLocalIpld(document: Cid, ipld: Ipld, segments: seq<string>, start: nat)
    returns (r: Result<(ResolvedNode, nat), RawError>, pos: nat)
    requires start <= |segments|
    ensures start <= pos <= |segments|
    ensures match Inside(ipld, segments[start..])
            case AtLink(dest, rest) => r == Ok((LinkNode(document, dest), pos - start)) && segments[pos..] == rest
            case AtValue(v) => r == Ok((Projection(document, v), pos - start)) && pos == |segments|
            case Stuck(why, segment, rest) =>
              && pos > start && r == Err(RawStuck(why, document, pos - 1 - start))
              && segments[pos - 1] == segment && segments[pos..] == rest
  {
    hide ParseIndex, Get, Inside;
    var v, matched := ipld, 0;
    pos := start;
    while true
      invariant start <= pos <= |segments| && matched == pos - start
      invariant Inside(ipld, segments[start..]) == Inside(v, segments[pos..])
      decreases |segments| - pos
    {
      InsideUnfolds(v, segments[pos..]);
      if v.Link? && !(pos < |segments| && segments[pos] == ".") {
        return Ok((LinkNode(document, v.cid), matched)), pos;
      }
      if pos == |segments| {
        return Ok((Projection(document, v), matched)), pos;
      }
      var segment := segments[pos];
      assert segments[pos..][0] == segment && segments[pos..][1..] == segments[pos + 1..];
      pos := pos + 1;
      match v {
        case Link(cid) =>
          return Ok((LinkNode(document, cid), matched + 1)), pos;
        case Map(fields) =>
          var found := Get(fields, segment);
          if found.None? {
            return Err(NotFound(document, matched)), pos;
          }
          matched := matched + 1;
          v := found.value;
        case List(items) =>
          var index := ParseIndex(segment);
          if index.None? {
            return Err(InvalidIndex(document, matched)), pos;
          }
          if index.value >= |items| {
            return Err(ListIndexOutOfRange(document, matched, index.value, |items|)), pos;
          }
          matched := matched + 1;
          v := items[index.value];
        case _ =>
          return Err(NoLinksAt(document, matched)), pos;
      }
    }
  }

  // ---------------------------------------------------------------------------------------------
  // One segment through a dag-pb block

  /** The outcome of looking a name up in one dag-pb block. A file has no entries and no `Data`. */
  datatype PbStep = To(dest: Cid) | SearchIn(buckets: seq<Cid>) | Missing | NotADirectory | Refused

  function Named(links: seq<PbLink>, name: string): seq<PbLink> {
    if links == [] then []
    else (if links[0].name == name then [links[0]] else []) + Named(links[1..], name)
  }

  /** The name must be unique among the links. */
  function PlainLookup(links: seq<PbLink>, name: string): PbStep {
    var matching := Named(links, name);
    if matching == [] then Missing
    else if matching[0].cid.None? || |matching| > 1 then Refused
    else To(matching[0].cid.value)
  }

  datatype Parted = Parted(found: Option<Cid>, buckets: seq<Cid>) | BadPartition

  /** Splits a shard's links into the one that matches and the buckets to search further. */
  function Partition(links: seq<PbLink>, name: string, found: Option<Cid>, buckets: seq<Cid>): Parted
    decreases links
  {
    if links == [] then Parted(found, buckets)
    else
      var l := links[0];
      if |l.name| > 2 && l.name[2..] == name then
        if found.Some? || l.cid.None? then BadPartition else Partition(links[1..], name, l.cid, buckets)
      else if |l.name| == 2 then
        if l.cid.None? then BadPartition else Partition(links[1..], name, found, buckets + [l.cid.value])
      else Partition(links[1..], name, found, buckets)
  }

  function ShardLookup(n: Node, name: string, buckets: seq<Cid>): PbStep {
    if !ShardSupported(n) then Refused
    else
      match Partition(n.links, name, None, buckets)
      case BadPartition => Refused
      case Parted(Some(c), _) => To(c)
      case Parted(None, more) => if more == [] then Missing else SearchIn(more)
  }

  function Lookup(pb: PbBlock, name: string): PbStep {
    match pb
    case NotDagPb => Refused
    case NotUnixFs(links) => PlainLookup(links, name)
    case Parsed(n) =>
      match n.typ
      case HamtShard => ShardLookup(n, name, [])
      case Directory => if DirectorySupported(n) then PlainLookup(n.links, name) else Refused
      case File => NotADirectory
      case Raw | Symlink | MetadataNode => Refused
  }

  // ---------------------------------------------------------------------------------------------
  // Searching the buckets of a sharded directory, breadth first

  /** How many blocks a search below a bucket can visit. */
  ghost function Weight(store: Store, rank: Cid -> nat, c: Cid): nat
    requires Ranked(store, rank)
    decreases rank(c), 1
  {
    1 + if c in store then LinksWeight(store, rank, c, PbLinks(store[c].pb)) else 0
  }

  ghost function LinksWeight(store: Store, rank: Cid -> nat, c: Cid, links: seq<PbLink>): nat
    requires Ranked(store, rank) && c in store
    requires forall i :: 0 <= i < |links| ==> links[i] in PbLinks(store[c].pb)
    decreases rank(c), 0, links
  {
    if links == [] then 0
    else
      (if |links[0].name| == 2 && links[0].cid.Some? then
         var d := links[0].cid.value;
         assert links[0] in PbLinks(store[c].pb);
         assert LinksTo(store[c], d);
         Weight(store, rank, d)
       else 0)
      + LinksWeight(store, rank, c, links[1..])
  }

  ghost function QueueWeight(store: Store, rank: Cid -> nat, queue: seq<Cid>): nat
    requires Ranked(store, rank)
  {
    if queue == [] then 0 else Weight(store, rank, queue[0]) + QueueWeight(store, rank, queue[1..])
  }

  lemma {:induction false} QueueWeightAppend(store: Store, rank: Cid -> nat, a: seq<Cid>, b: seq<Cid>)
    requires Ranked(store, rank)
    ensures QueueWeight(store, rank, a + b) == QueueWeight(store, rank, a) + QueueWeight(store, rank, b)
  {
    if a == [] {
      assert a + b == b;
    } else {
      assert (a + b)[1..] == a[1..] + b;
      QueueWeightAppend(store, rank, a[1..], b);
    }
  }

  lemma {:induction false} PartitionWeight(store: Store, rank: Cid -> nat, c: Cid, links: seq<PbLink>, name: string, found: Option<Cid>, queue: seq<Cid>)
    requires Ranked(store, rank) && c in store
    requires forall i :: 0 <= i < |links| ==> links[i] in PbLinks(store[c].pb)
    requires Partition(links, name, found, queue).Parted?
    ensures QueueWeight(store, rank, Partition(links, name, found, queue).buckets)
            == QueueWeight(store, rank, queue) + LinksWeight(store, rank, c, links)
    decreases links
  {
    if links != [] {
      var l := links[0];
      if |l.name| > 2 && l.name[2..] == name {
        PartitionWeight(store, rank, c, links[1..], name, l.cid, queue);
      } else if |l.name| == 2 {
        PartitionWeight(store, rank, c, links[1..], name, found, queue + [l.cid.value]);
        QueueWeightAppend(store, rank, queue, [l.cid.value]);
      } else {
        PartitionWeight(store, rank, c, links[1..], name, found, queue);
      }
    }
  }

  /** Each searched bucket weighs more than the buckets it adds. */
  lemma {:induction false} SearchShrinks(store: Store, rank: Cid -> nat, queue: seq<Cid>, name: string)
    requires Ranked(store, rank) && queue != [] && queue[0] in store && store[queue[0]].pb.Parsed?
    requires ShardLookup(store[queue[0]].pb.node, name, queue[1..]).SearchIn?
    ensures QueueWeight(store, rank, ShardLookup(store[queue[0]].pb.node, name, queue[1..]).buckets)
            < QueueWeight(store, rank, queue)
  {
    PartitionWeight(store, rank, queue[0], store[queue[0]].pb.node.links, name, None, queue[1..]);
  }

  /** The entry the buckets hold for the name; a missing or unusable bucket on the way, or no entry
      at all, ends the search with nothing. */
  ghost function Search(store: Store, rank: Cid -> nat, queue: seq<Cid>, name: string): Option<Cid>
    requires Ranked(store, rank)
    decreases QueueWeight(store, rank, queue)
  {
    if queue == [] || queue[0] !in store || !store[queue[0]].pb.Parsed? || store[queue[0]].pb.node.typ != HamtShard then None
    else
      var step := ShardLookup(store[queue[0]].pb.node, name, queue[1..]);
      if step.To? then Some(step.dest)
      else if step.SearchIn? then
        SearchShrinks(store, rank, queue, name);
        Search(store, rank, step.buckets, name)
      else None
  }

  method ResolveHamt(store: Store, buckets: seq<Cid>, name: string, ghost rank: Cid -> nat)
    returns (r: Option<Cid>)
    requires Ranked(store, rank) && buckets != []
    ensures r == Search(store, rank, buckets, name)
  {
    var queue := buckets;
    while true
      invariant queue != [] && Search(store, rank, buckets, name) == Search(store, rank, queue, name)
      decreases QueueWeight(store, rank, queue)
    {
      var next := queue[0];
      if next !in store || !store[next].pb.Parsed? || store[next].pb.node.typ != HamtShard {
        return None;
      }
      match ShardLookup(store[next].pb.node, name, queue[1..]) {
        case To(c) =>
          return Some(c);
        case SearchIn(more) =>
          SearchShrinks(store, rank, queue, name);
          queue := more;
        case _ =>
          return None;
      }
    }
  }

  // ---------------------------------------------------------------------------------------------
  // From document to document

  datatype Fault =
    | CannotLoad(cid: Cid)
    | CannotRead(cid: Cid)
    | Nowhere(why: Why, document: Cid, segment: string, rest: seq<string>)

  /** What a path does in the document it starts in. A jump found by searching further buckets is
      not counted as a matched segment. */
  datatype Hop =
    | Jump(source: Cid, dest: Cid, rest: seq<string>, counted: bool)
    | Arrive(node: ResolvedNode)
    | Blocked(fault: Fault)

  ghost function OneHop(store: Store, rank: Cid -> nat, cid: Cid, segs: seq<string>): Hop
    requires Ranked(store, rank)
  {
    if cid !in store then Blocked(CannotLoad(cid))
    else if segs == [] then Arrive(BlockNode(cid))
    else if cid.codec == DAG_PB then
      match Lookup(store[cid].pb, segs[0])
      case To(d) => Jump(cid, d, segs[1..], true)
      case SearchIn(buckets) =>
        (match Search(store, rank, buckets, segs[0])
         case Some(d) => Jump(cid, d, segs[1..], false)
         case None => Blocked(CannotRead(cid)))
      case Missing =>
        if segs == ["Data"] then Arrive(DagPbData(cid)) else Blocked(Nowhere(NoEntry, cid, segs[0], segs[1..]))
      case NotADirectory => Blocked(Nowhere(NoEntry, cid, segs[0], segs[1..]))
      case Refused => Blocked(CannotRead(cid))
    else if store[cid].ipld.None? then Blocked(CannotRead(cid))
    else
      match Inside(store[cid].ipld.value, segs)
      case AtLink(d, rest) => Jump(cid, d, rest, true)
      case AtValue(v) => Arrive(Projection(cid, v))
      case Stuck(why, segment, rest) => Blocked(Nowhere(why, cid, segment, rest))
  }

  /** Where a path leads: the node and the part of the path inside its document. `late` is the number
      of segments on the way that were matched without being counted. */
  datatype Answer = Found(node: ResolvedNode, inside: seq<string>, late: nat) | Lost(fault: Fault, late: nat)

  lemma {:induction false} PartitionFinds(links: seq<PbLink>, name: string, found: Option<Cid>, queue: seq<Cid>)
    requires Partition(links, name, found, queue).Parted?
    ensures var p := Partition(links, name, found, queue);
            && (p.found.Some? ==> p.found == found || exists i :: 0 <= i < |links| && links[i].cid == p.found)
            && (forall d :: d in p.buckets ==> d in queue || exists i :: 0 <= i < |links| && links[i].cid == Some(d))
    decreases links
  {
    if links != [] {
      var l := links[0];
      if |l.name| > 2 && l.name[2..] == name {
        PartitionFinds(links[1..], name, l.cid, queue);
      } else if |l.name| == 2 {
        PartitionFinds(links[1..], name, found, queue + [l.cid.value]);
      } else {
        PartitionFinds(links[1..], name, found, queue);
      }
      var p := Partition(links, name, found, queue);
      assert forall i :: 0 <= i < |links| - 1 ==> links[1..][i] == links[i + 1];
    }
  }

  lemma {:induction false} NamedIsLinked(links: seq<PbLink>, name: string)
    ensures forall l :: l in Named(links, name) ==> l in links && l.name == name
  {
    if links != [] {
      NamedIsLinked(links[1..], name);
    }
  }

  lemma {:induction false} ShardLookupLinks(store: Store, rank: Cid -> nat, c: Cid, name: string, queue: seq<Cid>)
    requires Ranked(store, rank) && c in store && store[c].pb.Parsed?
    ensures var step := ShardLookup(store[c].pb.node, name, queue);
            && (step.To? ==> rank(step.dest) < rank(c))
            && (step.SearchIn? ==> forall d :: d in step.buckets ==> d in queue || rank(d) < rank(c))
  {
    var n := store[c].pb.node;
    if Partition(n.links, name, None, queue).Parted? {
      PartitionFinds(n.links, name, None, queue);
      forall i | 0 <= i < |n.links| && n.links[i].cid.Some?
        ensures LinksTo(store[c], n.links[i].cid.value)
      {
        assert PbLinks(store[c].pb)[i] == n.links[i];
      }
    }
  }

  lemma {:induction false} SearchGoesDown(store: Store, rank: Cid -> nat, queue: seq<Cid>, name: string, bound: nat)
    requires Ranked(store, rank) && Search(store, rank, queue, name).Some?
    requires forall d :: d in queue ==> rank(d) < bound
    ensures rank(Search(store, rank, queue, name).value) < bound
    decreases QueueWeight(store, rank, queue)
  {
    ShardLookupLinks(store, rank, queue[0], name, queue[1..]);
    var step := ShardLookup(store[queue[0]].pb.node, name, queue[1..]);
    if step.SearchIn? {
      SearchShrinks(store, rank, queue, name);
      SearchGoesDown(store, rank, step.buckets, name, bound);
    }
  }

  lemma {:induction false} LookupGoesDown(store: Store, rank: Cid -> nat, c: Cid, name: string)
    requires Ranked(store, rank) && c in store
    ensures var step := Lookup(store[c].pb, name);
            && (step.To? ==> rank(step.dest) < rank(c))
            && (step.SearchIn? ==> forall d :: d in step.buckets ==> rank(d) < rank(c))
  {
    var pb := store[c].pb;
    if pb.Parsed? && pb.node.typ == HamtShard {
      ShardLookupLinks(store, rank, c, name, []);
    } else if Lookup(pb, name).To? {
      var l := Named(PbLinks(pb), name)[0];
      NamedIsLinked(PbLinks(pb), name);
      assert l in PbLinks(pb);
      assert LinksTo(store[c], l.cid.value);
    }
  }

  /** Every jump goes down in rank, so following links ends. */
  lemma {:induction false} JumpsGoDown(store: Store, rank: Cid -> nat, cid: Cid, segs: seq<string>)
    requires Ranked(store, rank) && OneHop(store, rank, cid, segs).Jump?
    ensures rank(OneHop(store, rank, cid, segs).dest) < rank(cid)
  {
    if cid.codec == DAG_PB {
      LookupGoesDown(store, rank, cid, segs[0]);
      var step := Lookup(store[cid].pb, segs[0]);
      if step.SearchIn? {
        SearchGoesDown(store, rank, step.buckets, segs[0], rank(cid));
      }
    } else {
      InsideLinks(store[cid].ipld.value, segs);
      assert LinksTo(store[cid], OneHop(store, rank, cid, segs).dest);
    }
  }

  /** The meaning of a path: follow links until a document keeps the rest of it. */
  ghost function Resolve(store: Store, rank: Cid -> nat, cid: Cid, segs: seq<string>, late: nat): Answer
    requires Ranked(store, rank)
    decreases rank(cid)
  {
    match OneHop(store, rank, cid, segs)
    case Arrive(node) => Found(node, segs, late)
    case Blocked(fault) => Lost(fault, late)
    case Jump(_, dest, rest, counted) =>
      JumpsGoDown(store, rank, cid, segs);
      Resolve(store, rank, dest, rest, if counted then late else late + 1)
  }

  ghost predicate IsSuffix(tail: seq<string>, segs: seq<string>) {
    |tail| <= |segs| && segs[|segs| - |tail|..] == tail
  }

  lemma {:induction false} HopSuffix(store: Store, rank: Cid -> nat, cid: Cid, segs: seq<string>)
    requires Ranked(store, rank)
    ensures match OneHop(store, rank, cid, segs)
            case Jump(_, _, rest, counted) => IsSuffix(rest, segs) && (!counted ==> |rest| < |segs|)
            case Arrive(_) => true
            case Blocked(Nowhere(_, _, segment, rest)) => IsSuffix([segment] + rest, segs)
            case Blocked(_) => true
  {
    hide Lookup, Search, Inside;
    if cid in store && segs != [] && cid.codec != DAG_PB && store[cid].ipld.Some? {
      InsideSuffix(store[cid].ipld.value, segs);
    }
  }

  /** The part of the path inside the last document, and the failing segment with what follows it,
      are the end of the path; uncounted segments all lie before. */
  lemma {:induction false} ResolveSuffix(store: Store, rank: Cid -> nat, cid: Cid, segs: seq<string>, late: nat)
    requires Ranked(store, rank)
    ensures match Resolve(store, rank, cid, segs, late)
            case Found(_, inside, total) => IsSuffix(inside, segs) && late <= total <= late + |segs| - |inside|
            case Lost(Nowhere(_, _, segment, rest), total) =>
              IsSuffix([segment] + rest, segs) && late <= total < late + |segs| - |rest|
            case Lost(_, _) => true
    decreases rank(cid)
  {
    HopSuffix(store, rank, cid, segs);
    var hop := OneHop(store, rank, cid, segs);
    if hop.Jump? {
      hide OneHop;
      JumpsGoDown(store, rank, cid, segs);
      ResolveSuffix(store, rank, hop.dest, hop.rest, if hop.counted then late else late + 1);
    }
  }
}
