/** Where a path leads inside a document, said by the values and links it passes, and what the resolver
    makes of it. */
module ResolverDocs {
  import opened Common
  import opened UnixFs
  import opened Ipld
  import opened Resolver

  // ---------------------------------------------------------------------------------------------
  // The text of a list index

  /** Decimal digits, with or without a plus sign, for a number below 2^64. */
  ghost predicate IndexText(s: string, n: nat) {
    n < 0x1_0000_0000_0000_0000 && exists ds :: ds != "" && Digits(ds) && (s == ds || s == "+" + ds) && Decimal(ds) == n
  }

  ghost predicate Digits(ds: string)
    ensures Digits(ds) <==> AllDigits(ds)
  {
    forall i :: 0 <= i < |ds| ==> '0' <= ds[i] <= '9'
  }

  /** Exactly these texts are read as indices, leading zeros included. */
  lemma {:induction false} IndicesRead(s: string, n: nat)
    ensures ParseIndex(s) == Some(n) <==> IndexText(s, n)
  {
    hide Decimal, Digits, AllDigits;
    if ParseIndex(s) == Some(n) {
      var ds := if s != "" && s[0] == '+' then s[1..] else s;
      assert s == ds || s == "+" + ds;
      assert ds != "" && Digits(ds) && Decimal(ds) == n;
    }
    if IndexText(s, n) {
      var ds :| ds != "" && Digits(ds) && (s == ds || s == "+" + ds) && Decimal(ds) == n;
      assert ("+" + ds)[1..] == ds;
      FirstDigit(ds);
    }
  }

  lemma {:induction false} OneIndex(s: string)
    ensures forall m: nat, n: nat :: IndexText(s, m) && IndexText(s, n) ==> m == n
  {
    forall m: nat, n: nat | IndexText(s, m) && IndexText(s, n)
      ensures m == n
    {
      IndicesRead(s, m);
      IndicesRead(s, n);
    }
  }

  lemma {:induction false} FirstDigit(ds: string)
    requires ds != "" && Digits(ds)
    ensures ds[0] != '+'
  {
  }

  lemma {:induction false} LeadingZeros(ds: string)
    requires AllDigits(ds)
    ensures AllDigits("0" + ds) && Decimal("0" + ds) == Decimal(ds)
    decreases |ds|
  {
    if ds == "" {
      assert "0"[..0] == "";
    } else {
      assert ("0" + ds)[..|ds|] == "0" + ds[..|ds| - 1];
      LeadingZeros(ds[..|ds| - 1]);
    }
  }

  // ---------------------------------------------------------------------------------------------
  // The values on the way

  /** One segment leads from a map to a field or from a list to an element; nothing leads on from a
      link or any other value. */
  ghost predicate Child(parent: Ipld, segment: string, child: Ipld) {
    || (parent.Map? && HasField(parent.fields, segment, child))
    || (parent.List? && exists n: nat :: IndexText(segment, n) && n < |parent.items| && parent.items[n] == child)
  }

  /** The values passed when the segments are followed one by one. */
  ghost predicate Trail(values: seq<Ipld>, segs: seq<string>) {
    |values| == |segs| + 1 && forall i :: 0 <= i < |segs| ==> Child(values[i], segs[i], values[i + 1])
  }

  /** Following the segments from `v` leads to `w`. */
  ghost predicate LeadsTo(v: Ipld, segs: seq<string>, w: Ipld) {
    exists values :: Trail(values, segs) && values[0] == v && values[|segs|] == w
  }

  /** Why no value lies behind the segment. */
  ghost predicate NoWay(w: Ipld, segment: string, why: Why) {
    match w
    case Map(fields) => why == NoEntry && NoField(fields, segment)
    case List(items) =>
      || (why == BadIndex && forall n: nat :: !IndexText(segment, n))
      || (exists n: nat :: IndexText(segment, n) && n >= |items| && why == OutOfRange(n, |items|))
    case Link(_) => false
    case Null | Bool(_) | Integer(_) | Float(_) | Text(_) | Binary(_) => why == NoLinks
  }

  /** At most one value lies behind a segment. */
  lemma {:induction false} OneChild(parent: Ipld, segment: string, a: Ipld, b: Ipld)
    requires Child(parent, segment, a) && Child(parent, segment, b)
    ensures a == b
  {
    if parent.List? {
      var m: nat :| IndexText(segment, m) && m < |parent.items| && parent.items[m] == a;
      var n: nat :| IndexText(segment, n) && n < |parent.items| && parent.items[n] == b;
      IndicesRead(segment, m);
      IndicesRead(segment, n);
    }
  }

  lemma {:induction false} NoWayNoChild(w: Ipld, segment: string, why: Why, child: Ipld)
    requires NoWay(w, segment, why)
    ensures !Child(w, segment, child)
  {
    if w.List? && Child(w, segment, child) {
      var m: nat :| IndexText(segment, m) && m < |w.items| && w.items[m] == child;
      if why.OutOfRange? {
        var n: nat :| IndexText(segment, n) && n >= |w.items| && why == OutOfRange(n, |w.items|);
        IndicesRead(segment, m);
        IndicesRead(segment, n);
      }
    }
  }

  lemma {:induction false} TrailStep(v: Ipld, segs: seq<string>, child: Ipld, w: Ipld)
    requires segs != [] && Child(v, segs[0], child) && LeadsTo(child, segs[1..], w)
    ensures LeadsTo(v, segs, w)
  {
    hide Child;
    var rest :| Trail(rest, segs[1..]) && rest[0] == child && rest[|segs| - 1] == w;
    var values := [v] + rest;
    forall i | 0 <= i < |segs|
      ensures Child(values[i], segs[i], values[i + 1])
    {
      if i > 0 {
        assert Child(rest[i - 1], segs[1..][i - 1], rest[i]);
      }
    }
    assert Trail(values, segs);
  }

  /** Segments that lead somewhere lead to one value only. */
  lemma {:induction false} LeadsOnce(v: Ipld, segs: seq<string>, a: Ipld, b: Ipld)
    requires LeadsTo(v, segs, a) && LeadsTo(v, segs, b)
    ensures a == b
    decreases |segs|
  {
    hide Child;
    var xs :| Trail(xs, segs) && xs[0] == v && xs[|segs|] == a;
    var ys :| Trail(ys, segs) && ys[0] == v && ys[|segs|] == b;
    if segs != [] {
      OneChild(v, segs[0], xs[1], ys[1]);
      TrailTail(xs, segs);
      TrailTail(ys, segs);
      LeadsOnce(xs[1], segs[1..], a, b);
    }
  }

  lemma {:induction false} TrailTail(values: seq<Ipld>, segs: seq<string>)
    requires Trail(values, segs) && segs != []
    ensures LeadsTo(values[1], segs[1..], values[|segs|])
  {
    hide Child;
    var rest := values[1..];
    forall i | 0 <= i < |segs| - 1
      ensures Child(rest[i], segs[1..][i], rest[i + 1])
    {
      assert Child(values[i + 1], segs[i + 1], values[i + 2]);
    }
    assert Trail(rest, segs[1..]);
  }

  // ---------------------------------------------------------------------------------------------
  // One document

  /** Where following a path inside a document ends: at the value of the whole path; at a link after
      the first `k` segments, which absorbs one "." after it; or at a segment behind which nothing lies. */
  ghost predicate Ends(v: Ipld, segs: seq<string>, k: nat, stop: Stop)
    requires k <= |segs|
  {
    match stop
    case AtValue(w) => k == |segs| && LeadsTo(v, segs, w) && !w.Link?
    case AtLink(dest, rest) =>
      && LeadsTo(v, segs[..k], Link(dest))
      && rest == if k < |segs| && segs[k] == "." then segs[k + 1..] else segs[k..]
    case Stuck(why, segment, rest) =>
      && k < |segs| && segment == segs[k] && rest == segs[k + 1..]
      && exists w :: LeadsTo(v, segs[..k], w) && NoWay(w, segment, why)
  }

  lemma {:induction false} EndsHere(v: Ipld, segs: seq<string>, stop: Stop)
    requires segs == [] ==> (stop == AtValue(v) && !v.Link?) || (v.Link? && stop == AtLink(v.cid, []))
    requires segs != [] ==>
               || (v.Link? && stop == AtLink(v.cid, if segs[0] == "." then segs[1..] else segs))
               || (stop.Stuck? && stop.segment == segs[0] && stop.rest == segs[1..] && NoWay(v, segs[0], stop.why))
    ensures Ends(v, segs, 0, stop)
  {
    hide NoWay;
    assert Trail([v], []);
    assert LeadsTo(v, [], v);
    assert segs[..0] == [] && segs[0..] == segs;
  }

  lemma {:induction false} EndsBelow(v: Ipld, segs: seq<string>, child: Ipld, k: nat, stop: Stop)
    requires segs != [] && Child(v, segs[0], child) && k < |segs| && Ends(child, segs[1..], k, stop)
    ensures Ends(v, segs, k + 1, stop)
  {
    hide Child, NoWay, LeadsTo;
    assert segs[..k + 1][0] == segs[0] && segs[..k + 1][1..] == segs[1..][..k];
    match stop {
      case AtValue(w) => TrailStep(v, segs, child, w);
      case AtLink(dest, rest) => TrailStep(v, segs[..k + 1], child, Link(dest));
      case Stuck(why, segment, rest) =>
        var w :| LeadsTo(child, segs[1..][..k], w) && NoWay(w, segment, why);
        TrailStep(v, segs[..k + 1], child, w);
    }
  }

  /** The recursive meaning of a path inside a document ends where following it ends. */
  lemma {:induction false} InsideEnds(v: Ipld, segs: seq<string>) returns (k: nat)
    ensures k <= |segs| && Ends(v, segs, k, Inside(v, segs))
    decreases |segs|
  {
    hide Ends, Inside, Child, NoWay;
    InsideUnfolds(v, segs);
    k := 0;
    if v.Map? && segs != [] {
      MapChild(v.fields, segs[0]);
      if Get(v.fields, segs[0]).Some? {
        var child := Get(v.fields, segs[0]).value;
        var below := InsideEnds(child, segs[1..]);
        EndsBelow(v, segs, child, below, Inside(v, segs));
        k := below + 1;
        return;
      }
    } else if v.List? && segs != [] {
      ListChild(v.items, segs[0]);
      var n := ParseIndex(segs[0]);
      if n.Some? && n.value < |v.items| {
        var child := v.items[n.value];
        var below := InsideEnds(child, segs[1..]);
        EndsBelow(v, segs, child, below, Inside(v, segs));
        k := below + 1;
        return;
      }
    } else if !v.Link? && segs != [] {
      ScalarChild(v, segs[0]);
    }
    EndsHere(v, segs, Inside(v, segs));
  }

  lemma {:induction false} MapChild(fields: seq<Field>, segment: string)
    ensures match Get(fields, segment)
            case Some(child) => Child(Map(fields), segment, child)
            case None => NoWay(Map(fields), segment, NoEntry)
  {
    GetIsField(fields, segment);
  }

  lemma {:induction false} ListChild(items: seq<Ipld>, segment: string)
    ensures match ParseIndex(segment)
            case None => NoWay(List(items), segment, BadIndex)
            case Some(n) => if n < |items| then Child(List(items), segment, items[n]) else NoWay(List(items), segment, OutOfRange(n, |items|))
  {
    hide ParseIndex, IndexText;
    forall n: nat
      ensures ParseIndex(segment) == Some(n) <==> IndexText(segment, n)
    {
      IndicesRead(segment, n);
    }
  }

  lemma {:induction false} ScalarChild(v: Ipld, segment: string)
    requires !v.Map? && !v.List? && !v.Link?
    ensures NoWay(v, segment, NoLinks)
  {
  }

  /** The value of a path: a path ends at a value exactly when it leads there. */
  lemma {:induction false} ValueInside(v: Ipld, segs: seq<string>, w: Ipld)
    ensures Inside(v, segs) == AtValue(w) <==> LeadsTo(v, segs, w) && !w.Link?
    decreases |segs|
  {
    hide Child, Inside;
    InsideUnfolds(v, segs);
    if segs == [] {
      assert Trail([v], []);
      if LeadsTo(v, [], w) {
        LeadsOnce(v, [], v, w);
      }
    } else {
      if LeadsTo(v, segs, w) {
        var values :| Trail(values, segs) && values[0] == v && values[|segs|] == w;
        TrailTail(values, segs);
        ChildUnfolds(v, segs[0], values[1]);
        ValueInside(values[1], segs[1..], w);
      }
      if Inside(v, segs) == AtValue(w) {
        var k := InsideEnds(v, segs);
      }
    }
  }

  lemma {:induction false} ChildUnfolds(v: Ipld, segment: string, child: Ipld)
    requires Child(v, segment, child)
    ensures v.Map? || v.List?
    ensures v.Map? ==> Get(v.fields, segment) == Some(child)
    ensures v.List? ==> ParseIndex(segment).Some? && ParseIndex(segment).value < |v.items| && v.items[ParseIndex(segment).value] == child
  {
    hide ParseIndex, IndexText;
    if v.Map? {
      GetIsField(v.fields, segment);
    } else {
      var n: nat :| IndexText(segment, n) && n < |v.items| && v.items[n] == child;
      IndicesRead(segment, n);
    }
  }

  // ---------------------------------------------------------------------------------------------
  // Resolving

  /** The block is not dag-pb and decodes. */
  predicate IsDocument(store: Store, cid: Cid) {
    cid in store && cid.codec != DAG_PB && store[cid].ipld.Some?
  }

  /** A path ends at a value of a document exactly when following it in that document does: with links
      followed, and for a single hop. */
  lemma {:induction false} ResolvesToValue(store: Store, rank: Cid -> nat, cid: Cid, path: seq<string>, v: Ipld)
    requires Ranked(store, rank) && IsDocument(store, cid) && path != []
    ensures var wanted := LeadsTo(store[cid].ipld.value, path, v) && !v.Link?;
            && (OneHop(store, rank, cid, path) == Arrive(Projection(cid, v)) <==> wanted)
            && (Resolve(store, rank, cid, path, 0).Found? && Resolve(store, rank, cid, path, 0).node == Projection(cid, v) <==> wanted)
            && (wanted ==> Resolve(store, rank, cid, path, 0) == Found(Projection(cid, v), path, 0))
  {
    hide Inside, LeadsTo, Ranked;
    ValueInside(store[cid].ipld.value, path, v);
    var hop := OneHop(store, rank, cid, path);
    if hop.Jump? {
      JumpsGoDown(store, rank, cid, path);
      hide OneHop;
      StaysBelow(store, rank, hop.dest, hop.rest, if hop.counted then 0 else 1, rank(cid));
    }
  }

  lemma {:induction false} ProjectsValues(store: Store, rank: Cid -> nat, cid: Cid, path: seq<string>)
    requires Ranked(store, rank) && IsDocument(store, cid) && path != []
    ensures forall v :: OneHop(store, rank, cid, path) == Arrive(Projection(cid, v)) <==> LeadsTo(store[cid].ipld.value, path, v) && !v.Link?
    ensures forall v :: Resolve(store, rank, cid, path, 0).Found? && Resolve(store, rank, cid, path, 0).node == Projection(cid, v)
                        <==> LeadsTo(store[cid].ipld.value, path, v) && !v.Link?
    ensures forall v :: LeadsTo(store[cid].ipld.value, path, v) && !v.Link? ==> Resolve(store, rank, cid, path, 0) == Found(Projection(cid, v), path, 0)
  {
    hide OneHop, Resolve, LeadsTo, Ranked;
    forall v
      ensures var wanted := LeadsTo(store[cid].ipld.value, path, v) && !v.Link?;
              && (OneHop(store, rank, cid, path) == Arrive(Projection(cid, v)) <==> wanted)
              && (Resolve(store, rank, cid, path, 0).Found? && Resolve(store, rank, cid, path, 0).node == Projection(cid, v) <==> wanted)
              && (wanted ==> Resolve(store, rank, cid, path, 0) == Found(Projection(cid, v), path, 0))
    {
      ResolvesToValue(store, rank, cid, path, v);
    }
  }

  /** Following links only reaches documents of lower rank. */
  lemma {:induction false} StaysBelow(store: Store, rank: Cid -> nat, cid: Cid, segs: seq<string>, late: nat, bound: nat)
    requires Ranked(store, rank) && rank(cid) < bound
    ensures var answer := Resolve(store, rank, cid, segs, late);
            answer.Found? && answer.node.Projection? ==> rank(answer.node.cid) < bound
    decreases rank(cid)
  {
    hide Ranked;
    var hop := OneHop(store, rank, cid, segs);
    ArrivesInside(store, rank, cid, segs);
    if hop.Jump? {
      JumpsGoDown(store, rank, cid, segs);
      hide OneHop;
      StaysBelow(store, rank, hop.dest, hop.rest, if hop.counted then late else late + 1, bound);
    }
  }

  lemma {:induction false} ArrivesInside(store: Store, rank: Cid -> nat, cid: Cid, segs: seq<string>)
    requires Ranked(store, rank)
    ensures var hop := OneHop(store, rank, cid, segs);
            hop.Arrive? && hop.node.Projection? ==> hop.node.cid == cid
  {
    hide Inside, Lookup, Search;
  }

  /** Which link a path leaves a document by, and with what rest. */
  lemma {:induction false} LeavesByLink(store: Store, rank: Cid -> nat, cid: Cid, path: seq<string>) returns (k: nat)
    requires Ranked(store, rank) && IsDocument(store, cid) && path != [] && OneHop(store, rank, cid, path).Jump?
    ensures var hop := OneHop(store, rank, cid, path);
            && hop.source == cid && hop.counted && k <= |path|
            && LeadsTo(store[cid].ipld.value, path[..k], Link(hop.dest))
            && hop.rest == if k < |path| && path[k] == "." then path[k + 1..] else path[k..]
  {
    hide Inside, LeadsTo, Lookup, Search, Ranked;
    k := InsideEnds(store[cid].ipld.value, path);
  }

  /** Which segment of a path fails in a document, and why. */
  lemma {:induction false} FailsAtSegment(store: Store, rank: Cid -> nat, cid: Cid, path: seq<string>) returns (k: nat, w: Ipld)
    requires Ranked(store, rank) && IsDocument(store, cid) && path != [] && OneHop(store, rank, cid, path).Blocked?
    ensures var hop := OneHop(store, rank, cid, path);
            && hop.fault.Nowhere? && hop.fault.document == cid && k < |path|
            && hop.fault.segment == path[k] && hop.fault.rest == path[k + 1..]
            && LeadsTo(store[cid].ipld.value, path[..k], w) && NoWay(w, path[k], hop.fault.why)
  {
    hide Inside, LeadsTo, Lookup, Search, Ranked, NoWay;
    var doc := store[cid].ipld.value;
    k := InsideEnds(doc, path);
    w :| LeadsTo(doc, path[..k], w) && NoWay(w, path[k], OneHop(store, rank, cid, path).fault.why);
  }

  /** A block that is not dag-pb and does not decode is unsupported below its root; a block that is not
      stored cannot be loaded; the empty path is the block itself. */
  lemma {:induction false} OtherDocuments(store: Store, rank: Cid -> nat, cid: Cid, path: seq<string>)
    requires Ranked(store, rank)
    ensures OneHop(store, rank, cid, path) == Blocked(CannotLoad(cid)) <==> cid !in store
    ensures cid in store && path == [] ==> OneHop(store, rank, cid, path) == Arrive(BlockNode(cid))
    ensures cid in store && path != [] && cid.codec != DAG_PB ==>
              (OneHop(store, rank, cid, path) == Blocked(CannotRead(cid)) <==> store[cid].ipld.None?)
  {
    hide Inside, Lookup, Search;
  }
}
