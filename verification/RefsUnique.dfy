/** The reference walk in unique mode is a breadth-first search, on any graph. */
module RefsUnique {
  import opened Common
  import opened Ipld
  import opened Refs

  type Origins = seq<(Cid, Ipld)>

  ghost predicate ReadableOrigins(origins: Origins) {
    forall i :: 0 <= i < |origins| ==> Readable(origins[i].0, origins[i].1)
  }

  // ---------------------------------------------------------------------------------------------
  // Reachability

  ghost predicate OriginLink(origins: Origins, source: Cid, l: NamedLink)
    requires ReadableOrigins(origins)
  {
    && origins != []
    && ((origins[0].0 == source && l in IpldLinks(origins[0].0, origins[0].1)) || OriginLink(origins[1..], source, l))
  }

  ghost function OriginTargets(origins: Origins): set<Cid>
    requires ReadableOrigins(origins)
  {
    if origins == [] then {}
    else Targets(IpldLinks(origins[0].0, origins[0].1)) + OriginTargets(origins[1..])
  }

  ghost predicate HasLink(ctx: Context, c: Cid, l: NamedLink)
    requires ctx.Valid()
  {
    ctx.Good(c) && l in ctx.LinksOf(c)
  }

  /** Reachable from the origins by one to `n` links through documents that load and decode. */
  ghost predicate Within(ctx: Context, origins: Origins, n: nat, c: Cid)
    requires ctx.Valid() && ReadableOrigins(origins)
  {
    && n > 0
    && (|| c in OriginTargets(origins)
        || exists p, l :: Within(ctx, origins, n - 1, p) && HasLink(ctx, p, l) && l.1 == c)
  }

  /** Reachable within the depth limit, if there is one. */
  ghost predicate Reached(ctx: Context, origins: Origins, c: Cid)
    requires ctx.Valid() && ReadableOrigins(origins)
  {
    exists n: nat :: Within(ctx, origins, n, c) && (ctx.limit.None? || n <= ctx.limit.value)
  }

  lemma {:induction false} TargetsAre(links: seq<NamedLink>)
    ensures forall l :: l in links ==> l.1 in Targets(links)
    ensures forall c :: c in Targets(links) ==> exists l :: l in links && l.1 == c
  {
    if links != [] {
      TargetsAre(links[1..]);
      assert links == [links[0]] + links[1..];
    }
  }

  // ---------------------------------------------------------------------------------------------
  // Queues and items

  function About(it: RefItem): Cid {
    match it
    case Edge(_, destination, _) => destination
    case Undecodable(c) => c
    case Missing(c) => c
    case Unreadable(c) => c
  }

  ghost function Queued(queue: seq<Work>): set<Cid> {
    if queue == [] then {} else {queue[0].cid} + Queued(queue[1..])
  }

  ghost predicate DistinctWork(queue: seq<Work>) {
    queue != [] ==> queue[0].cid !in Queued(queue[1..]) && DistinctWork(queue[1..])
  }

  /** In order of depth from `lo` on. */
  ghost predicate OrderedWork(queue: seq<Work>, lo: nat) {
    queue != [] ==> lo <= queue[0].depth && OrderedWork(queue[1..], queue[0].depth)
  }

  /** The queued depths are those in `at`. */
  ghost predicate QueueAt(queue: seq<Work>, at: map<Cid, nat>) {
    queue != [] ==> queue[0].cid in at && at[queue[0].cid] == queue[0].depth && QueueAt(queue[1..], at)
  }

  lemma {:induction false} QueueAtAppend(a: seq<Work>, b: seq<Work>, at: map<Cid, nat>)
    requires QueueAt(a, at) && QueueAt(b, at)
    ensures QueueAt(a + b, at)
  {
    if a == [] {
      assert a + b == b;
    } else {
      assert (a + b)[1..] == a[1..] + b;
      QueueAtAppend(a[1..], b, at);
    }
  }

  lemma {:induction false} QueueAtGrows(queue: seq<Work>, at: map<Cid, nat>, at1: map<Cid, nat>)
    requires QueueAt(queue, at) && forall c :: c in at ==> c in at1 && at1[c] == at[c]
    ensures QueueAt(queue, at1)
  {
    if queue != [] {
      QueueAtGrows(queue[1..], at, at1);
    }
  }

  lemma {:induction false} QueuedAreAt(queue: seq<Work>, at: map<Cid, nat>)
    requires QueueAt(queue, at)
    ensures Queued(queue) <= at.Keys
  {
    if queue != [] {
      QueuedAreAt(queue[1..], at);
    }
  }

  lemma {:induction false} QueuesAppend(a: seq<Work>, b: seq<Work>)
    ensures Queued(a + b) == Queued(a) + Queued(b)
    ensures DistinctWork(a) && DistinctWork(b) && Queued(a) !! Queued(b) ==> DistinctWork(a + b)
  {
    if a == [] {
      assert a + b == b;
    } else {
      assert (a + b)[1..] == a[1..] + b;
      QueuesAppend(a[1..], b);
    }
  }

  lemma {:induction false} OrderedAppend(a: seq<Work>, b: seq<Work>, at: map<Cid, nat>, lo: nat, hi: nat)
    requires OrderedWork(a, lo) && OrderedWork(b, hi) && lo <= hi
    requires QueueAt(a, at) && forall c :: c in at ==> at[c] <= hi
    ensures OrderedWork(a + b, lo)
    decreases a
  {
    if a == [] {
      assert a + b == b;
    } else {
      assert (a + b)[1..] == a[1..] + b;
      OrderedAppend(a[1..], b, at, a[0].depth, hi);
    }
  }

  ghost function Abouts(items: seq<RefItem>): set<Cid> {
    if items == [] then {} else Abouts(items[..|items| - 1]) + {About(items[|items| - 1])}
  }

  ghost predicate DistinctItems(items: seq<RefItem>) {
    items != [] ==> About(items[|items| - 1]) !in Abouts(items[..|items| - 1]) && DistinctItems(items[..|items| - 1])
  }

  ghost predicate OrderedDepths(depths: seq<nat>, hi: nat) {
    depths != [] ==> depths[|depths| - 1] <= hi && OrderedDepths(depths[..|depths| - 1], depths[|depths| - 1])
  }

  // ---------------------------------------------------------------------------------------------
  // The invariant. `at` gives the depth at which each visited cid was queued.

  /** The queue spans at most two levels, the current one and the next. */
  ghost predicate QueueOk(st: State, at: map<Cid, nat>, cur: nat) {
    && at.Keys == st.visited
    && QueueAt(st.queue, at) && DistinctWork(st.queue) && OrderedWork(st.queue, cur)
    && (forall c :: c in at ==> at[c] <= cur + 1)
  }

  /** A link of a document, or of an origin at depth zero. */
  ghost predicate RealEdge(ctx: Context, origins: Origins, depth: nat, source: Cid, l: NamedLink)
    requires ctx.Valid() && ReadableOrigins(origins)
  {
    if depth == 0 then OriginLink(origins, source, l)
    else HasLink(ctx, source, l) && Within(ctx, origins, depth, source)
  }

  ghost predicate RealQueue(ctx: Context, origins: Origins, queue: seq<Work>)
    requires ctx.Valid() && ReadableOrigins(origins)
  {
    queue != [] ==>
      && RealEdge(ctx, origins, queue[0].depth, queue[0].source, (queue[0].name, queue[0].cid))
      && RealQueue(ctx, origins, queue[1..])
  }

  ghost predicate Sound(ctx: Context, origins: Origins, st: State, at: map<Cid, nat>)
    requires ctx.Valid() && ReadableOrigins(origins)
  {
    && (forall c :: c in at ==> Within(ctx, origins, at[c] + 1, c))
    && RealQueue(ctx, origins, st.queue)
  }

  /** A processed document's links have all been queued, at most one level below it. */
  ghost predicate Expanded(ctx: Context, at: map<Cid, nat>, c: Cid)
    requires ctx.Valid() && c in at
  {
    !ctx.Beyond(at[c]) ==> forall l :: HasLink(ctx, c, l) ==> l.1 in at && at[l.1] <= at[c] + 1
  }

  ghost predicate Processed(ctx: Context, st: State, at: map<Cid, nat>)
    requires ctx.Valid()
  {
    forall c :: c in at && c !in Queued(st.queue) ==>
      && Expanded(ctx, at, c)
      && (!ctx.Beyond(at[c]) && (ctx.Loads(c) || !ctx.download) ==> c in Abouts(st.items))
  }

  ghost predicate ItemOk(ctx: Context, origins: Origins, at: map<Cid, nat>, it: RefItem, depth: nat)
    requires ctx.Valid() && ReadableOrigins(origins)
  {
    && About(it) in at && at[About(it)] == depth && !ctx.Beyond(depth)
    && match it
       case Edge(source, c, name) => ctx.Good(c) && RealEdge(ctx, origins, depth, source, (name, c))
       case Undecodable(c) => ctx.Loads(c) && !ctx.Good(c)
       case Missing(c) => !ctx.Loads(c) && c !in ctx.broken && !ctx.download
       case Unreadable(c) => c in ctx.broken && !ctx.download
  }

  ghost predicate AllItemsOk(ctx: Context, origins: Origins, at: map<Cid, nat>, items: seq<RefItem>, depths: seq<nat>)
    requires ctx.Valid() && ReadableOrigins(origins)
    decreases items
  {
    && |items| == |depths|
    && (items != [] ==>
          && ItemOk(ctx, origins, at, items[|items| - 1], depths[|items| - 1])
          && AllItemsOk(ctx, origins, at, items[..|items| - 1], depths[..|items| - 1]))
  }

  /** Only the last item can be a block that does not load, and only if the walk stopped there. */
  ghost predicate StopsAtTheEnd(ctx: Context, items: seq<RefItem>, stopped: bool) {
    if stopped then items != [] && !ctx.Loads(About(items[|items| - 1]))
    else forall c :: c in Abouts(items) ==> ctx.Loads(c)
  }

  ghost predicate ItemsOk(ctx: Context, origins: Origins, st: State, at: map<Cid, nat>, cur: nat)
    requires ctx.Valid() && ReadableOrigins(origins)
  {
    && AllItemsOk(ctx, origins, at, st.items, st.depths)
    && Abouts(st.items) <= at.Keys && Abouts(st.items) !! Queued(st.queue)
    && DistinctItems(st.items) && OrderedDepths(st.depths, cur)
    && StopsAtTheEnd(ctx, st.items, st.stopped)
  }

  ghost predicate Searching(ctx: Context, origins: Origins, st: State, at: map<Cid, nat>, cur: nat)
    requires ctx.Valid() && ReadableOrigins(origins)
  {
    && QueueOk(st, at, cur)
    && Sound(ctx, origins, st, at)
    && (forall c :: c in OriginTargets(origins) ==> c in at && at[c] == 0)
    && Processed(ctx, st, at)
    && ItemsOk(ctx, origins, st, at, cur)
  }

  // ---------------------------------------------------------------------------------------------
  // Pushing links

  lemma {:induction false} FreshWork(links: seq<NamedLink>, visited: set<Cid>, depth: nat, source: Cid)
    ensures var q := Fresh(links, visited, depth, source);
            && DistinctWork(q) && OrderedWork(q, depth)
            && Queued(q) == Targets(links) - visited
            && |q| == |Targets(links) - visited|
    decreases links
  {
    if links != [] {
      var l, rest := links[0], links[1..];
      if l.1 in visited {
        FreshWork(rest, visited, depth, source);
        assert Targets(links) - visited == Targets(rest) - visited;
      } else {
        FreshWork(rest, visited + {l.1}, depth, source);
        assert Targets(links) - visited == {l.1} + (Targets(rest) - (visited + {l.1}));
        assert Fresh(links, visited, depth, source)[1..] == Fresh(rest, visited + {l.1}, depth, source);
      }
    }
  }

  lemma {:induction false} FreshAt(links: seq<NamedLink>, visited: set<Cid>, depth: nat, source: Cid, at: map<Cid, nat>)
    requires forall c :: c in Targets(links) - visited ==> c in at && at[c] == depth
    ensures QueueAt(Fresh(links, visited, depth, source), at)
    decreases links
  {
    if links != [] {
      var l, rest := links[0], links[1..];
      if l.1 in visited {
        FreshAt(rest, visited, depth, source, at);
      } else {
        FreshAt(rest, visited + {l.1}, depth, source, at);
        assert Fresh(links, visited, depth, source)[1..] == Fresh(rest, visited + {l.1}, depth, source);
      }
    }
  }

  lemma {:induction false} FreshReal(ctx: Context, origins: Origins, links: seq<NamedLink>, visited: set<Cid>, depth: nat, source: Cid)
    requires ctx.Valid() && ReadableOrigins(origins)
    requires forall l :: l in links ==> RealEdge(ctx, origins, depth, source, l)
    ensures RealQueue(ctx, origins, Fresh(links, visited, depth, source))
    decreases links
  {
    if links != [] {
      hide RealEdge;
      var l, rest := links[0], links[1..];
      if l.1 in visited {
        FreshReal(ctx, origins, rest, visited, depth, source);
      } else {
        FreshReal(ctx, origins, rest, visited + {l.1}, depth, source);
        assert Fresh(links, visited, depth, source)[1..] == Fresh(rest, visited + {l.1}, depth, source);
        assert (l.0, l.1) == l;
      }
    }
  }

  lemma {:induction false} RealAppend(ctx: Context, origins: Origins, a: seq<Work>, b: seq<Work>)
    requires ctx.Valid() && ReadableOrigins(origins) && RealQueue(ctx, origins, a) && RealQueue(ctx, origins, b)
    ensures RealQueue(ctx, origins, a + b)
  {
    hide RealEdge;
    if a == [] {
      assert a + b == b;
    } else {
      assert (a + b)[1..] == a[1..] + b;
      RealAppend(ctx, origins, a[1..], b);
    }
  }

  ghost function Extended(at: map<Cid, nat>, added: set<Cid>, depth: nat): map<Cid, nat> {
    map c | c in at.Keys + added :: if c in at then at[c] else depth
  }

  // ---------------------------------------------------------------------------------------------
  // One turn

  lemma {:induction false} PopHead(st: State, at: map<Cid, nat>, cur: nat)
    requires QueueOk(st, at, cur) && st.queue != []
    ensures QueueOk(st.(queue := st.queue[1..]), at, st.queue[0].depth)
    ensures Queued(st.queue[1..]) == Queued(st.queue) - {st.queue[0].cid}
    ensures st.queue[0].cid in Queued(st.queue) && st.queue[0].cid in at && at[st.queue[0].cid] == st.queue[0].depth
    ensures cur <= st.queue[0].depth
  {
  }

  /** The items after the visited block's item, if any, is added. */
  lemma {:induction false} ItemsGrow(ctx: Context, origins: Origins, st: State, st1: State, at: map<Cid, nat>, cur: nat, it: Option<RefItem>)
    requires ctx.Valid() && ReadableOrigins(origins)
    requires QueueOk(st, at, cur) && ItemsOk(ctx, origins, st, at, cur) && st.queue != [] && !st.stopped
    requires st1.queue == st.queue[1..]
    requires match it
             case None => st1.items == st.items && st1.depths == st.depths && !st1.stopped
             case Some(item) =>
               && st1.items == st.items + [item] && st1.depths == st.depths + [st.queue[0].depth]
               && About(item) == st.queue[0].cid && ItemOk(ctx, origins, at, item, st.queue[0].depth)
               && (st1.stopped <==> !ctx.Loads(About(item)))
    ensures ItemsOk(ctx, origins, st1, at, st.queue[0].depth)
    ensures Abouts(st1.items) == Abouts(st.items) + match it case None => {} case Some(item) => {st.queue[0].cid}
  {
    hide ItemOk, QueueOk, Abouts, DistinctItems, OrderedDepths, AllItemsOk, Queued, StopsAtTheEnd;
    PopHead(st, at, cur);
    OrderedRelax(st.depths, cur, st.queue[0].depth);
    if it.Some? {
      AddItem(st.items, it.value);
      AddLast(ctx, st.items, it.value, st1.stopped);
      AddDepth(ctx, origins, at, st.items, st.depths, it.value, st.queue[0].depth, cur);
    }
  }

  lemma {:induction false} AddItem(items: seq<RefItem>, it: RefItem)
    ensures Abouts(items + [it]) == Abouts(items) + {About(it)}
    ensures DistinctItems(items + [it]) <==> DistinctItems(items) && About(it) !in Abouts(items)
  {
    assert (items + [it])[..|items|] == items;
  }

  lemma {:induction false} AddLast(ctx: Context, items: seq<RefItem>, it: RefItem, stopped: bool)
    requires StopsAtTheEnd(ctx, items, false) && (stopped <==> !ctx.Loads(About(it)))
    ensures StopsAtTheEnd(ctx, items + [it], stopped)
  {
    hide Abouts;
    AddItem(items, it);
  }

  lemma {:induction false} AddDepth(ctx: Context, origins: Origins, at: map<Cid, nat>, items: seq<RefItem>, depths: seq<nat>, it: RefItem, depth: nat, cur: nat)
    requires ctx.Valid() && ReadableOrigins(origins)
    requires AllItemsOk(ctx, origins, at, items, depths) && ItemOk(ctx, origins, at, it, depth)
    requires OrderedDepths(depths, cur) && cur <= depth
    ensures AllItemsOk(ctx, origins, at, items + [it], depths + [depth])
    ensures OrderedDepths(depths + [depth], depth)
  {
    hide ItemOk;
    assert (items + [it])[..|items|] == items && (depths + [depth])[..|items|] == depths;
    OrderedRelax(depths, cur, depth);
  }

  lemma {:induction false} OrderedRelax(depths: seq<nat>, lo: nat, hi: nat)
    requires OrderedDepths(depths, lo) && lo <= hi
    ensures OrderedDepths(depths, hi)
  {
  }

  ghost function ItemOf(ctx: Context, w: Work): Option<RefItem> {
    if ctx.Beyond(w.depth) then None
    else if !ctx.Loads(w.cid) then
      if ctx.download then None else Some(if w.cid in ctx.broken then Unreadable(w.cid) else Missing(w.cid))
    else if !ctx.Good(w.cid) then Some(Undecodable(w.cid))
    else Some(Edge(w.source, w.cid, w.name))
  }

  /** What a turn does, item and queue separately. */
  lemma {:induction false} TurnEffect(ctx: Context, st: State)
    requires ctx.Valid() && st.queue != [] && !st.stopped
    ensures var w, st1 := st.queue[0], Turn(ctx, st);
            && (match ItemOf(ctx, w)
                case None => st1.items == st.items && st1.depths == st.depths && !st1.stopped
                case Some(it) =>
                  && st1.items == st.items + [it] && st1.depths == st.depths + [w.depth]
                  && (st1.stopped <==> !ctx.Loads(w.cid)))
            && if ctx.Beyond(w.depth) || !ctx.Good(w.cid) then st1.queue == st.queue[1..] && st1.visited == st.visited
               else if ctx.unique then
                 var more := Push(st.(queue := st.queue[1..]), ctx.LinksOf(w.cid), w.depth + 1, w.cid, true);
                 st1.queue == more.queue && st1.visited == more.visited
               else st1.queue == st.queue[1..] + ToWork(ctx.LinksOf(w.cid), w.depth + 1, w.cid) && st1.visited == st.visited
  {
    hide Readable, IpldLinks;
  }

  lemma {:induction false} ItemOfOk(ctx: Context, origins: Origins, st: State, at: map<Cid, nat>, cur: nat)
    requires ctx.Valid() && ReadableOrigins(origins) && st.queue != []
    requires QueueOk(st, at, cur) && Sound(ctx, origins, st, at)
    ensures var w := st.queue[0];
            match ItemOf(ctx, w)
            case None => ctx.Beyond(at[w.cid]) || (!ctx.Loads(w.cid) && ctx.download)
            case Some(it) => About(it) == w.cid && ItemOk(ctx, origins, at, it, w.depth)
    ensures RealQueue(ctx, origins, st.queue[1..])
  {
    hide Readable, IpldLinks, RealEdge, Within;
    assert RealEdge(ctx, origins, st.queue[0].depth, st.queue[0].source, (st.queue[0].name, st.queue[0].cid));
  }

  /** A turn that queues nothing. */
  lemma {:induction false} QuietTurn(ctx: Context, origins: Origins, st: State, at: map<Cid, nat>, cur: nat)
    requires ctx.Valid() && ReadableOrigins(origins)
    requires Searching(ctx, origins, st, at, cur) && st.queue != [] && !st.stopped
    requires ctx.Beyond(st.queue[0].depth) || !ctx.Good(st.queue[0].cid)
    ensures Searching(ctx, origins, Turn(ctx, st), at, st.queue[0].depth)
  {
    hide Readable, IpldLinks, Within, OriginTargets, RealEdge, RealQueue, QueueAt, DistinctWork, OrderedWork, Queued, Abouts, DistinctItems, OrderedDepths, AllItemsOk, ItemOk, Turn, ItemOf, StopsAtTheEnd;
    var w, st1 := st.queue[0], Turn(ctx, st);
    PopHead(st, at, cur);
    TurnEffect(ctx, st);
    ItemOfOk(ctx, origins, st, at, cur);
    assert Expanded(ctx, at, w.cid);
    ItemsGrow(ctx, origins, st, st1, at, cur, ItemOf(ctx, w));
  }

  lemma {:induction false} ExtendedIs(at: map<Cid, nat>, added: set<Cid>, depth: nat)
    requires forall c :: c in at ==> at[c] <= depth
    ensures var at1 := Extended(at, added, depth);
            && at1.Keys == at.Keys + added
            && (forall c :: c in at ==> c in at1 && at1[c] == at[c])
            && (forall c :: c in added - at.Keys ==> c in at1 && at1[c] == depth)
            && (forall c :: c in at1 ==> at1[c] <= depth)
  {
  }

  lemma {:induction false} PushQueueOk(st: State, at: map<Cid, nat>, links: seq<NamedLink>, depth: nat, source: Cid)
    requires QueueOk(st, at, depth)
    ensures QueueOk(Push(st, links, depth + 1, source, true), Extended(at, Targets(links), depth + 1), depth)
    ensures Queued(Push(st, links, depth + 1, source, true).queue) == Queued(st.queue) + (Targets(links) - st.visited)
  {
    hide Fresh, Targets, Queued, DistinctWork, OrderedWork, QueueAt, Extended;
    var more := Fresh(links, st.visited, depth + 1, source);
    var at1 := Extended(at, Targets(links), depth + 1);
    ExtendedIs(at, Targets(links), depth + 1);
    FreshWork(links, st.visited, depth + 1, source);
    QueuedAreAt(st.queue, at);
    QueuesAppend(st.queue, more);
    OrderedAppend(st.queue, more, at, depth, depth + 1);
    FreshAt(links, st.visited, depth + 1, source, at1);
    QueueAtGrows(st.queue, at, at1);
    QueueAtAppend(st.queue, more, at1);
  }

  /** Growing `at` keeps what was said about items and expanded documents. */
  lemma {:induction false} ExtendedKeepsItems(ctx: Context, origins: Origins, at: map<Cid, nat>, at1: map<Cid, nat>, items: seq<RefItem>, depths: seq<nat>)
    requires ctx.Valid() && ReadableOrigins(origins)
    requires forall c :: c in at ==> c in at1 && at1[c] == at[c]
    requires AllItemsOk(ctx, origins, at, items, depths)
    ensures AllItemsOk(ctx, origins, at1, items, depths)
    decreases items
  {
    hide RealEdge;
    if items != [] {
      ExtendedKeepsItems(ctx, origins, at, at1, items[..|items| - 1], depths[..|items| - 1]);
    }
  }

  lemma {:induction false} PushSound(ctx: Context, origins: Origins, st: State, at: map<Cid, nat>, c: Cid)
    requires ctx.Valid() && ReadableOrigins(origins) && ctx.Good(c) && c in at
    requires Sound(ctx, origins, st, at) && at.Keys == st.visited
    ensures var links := ctx.LinksOf(c);
            Sound(ctx, origins, Push(st, links, at[c] + 1, c, true), Extended(at, Targets(links), at[c] + 1))
  {
    hide Fresh, OriginTargets, Targets, Within, Readable, IpldLinks, RealQueue;
    var links, depth := ctx.LinksOf(c), at[c] + 1;
    TargetsWithin(ctx, origins, depth, c);
    forall l | l in links
      ensures RealEdge(ctx, origins, depth, c, l)
    {
      assert HasLink(ctx, c, l);
    }
    FreshReal(ctx, origins, links, st.visited, depth, c);
    RealAppend(ctx, origins, st.queue, Fresh(links, st.visited, depth, c));
  }

  lemma {:induction false} TargetsWithin(ctx: Context, origins: Origins, n: nat, c: Cid)
    requires ctx.Valid() && ReadableOrigins(origins) && ctx.Good(c) && Within(ctx, origins, n, c)
    ensures forall d :: d in Targets(ctx.LinksOf(c)) ==> Within(ctx, origins, n + 1, d)
  {
    hide Targets, OriginTargets, Readable, IpldLinks;
    forall d | d in Targets(ctx.LinksOf(c))
      ensures Within(ctx, origins, n + 1, d)
    {
      TargetsAre(ctx.LinksOf(c));
      var l :| l in ctx.LinksOf(c) && l.1 == d;
      assert HasLink(ctx, c, l);
    }
  }

  lemma {:induction false} PushProcessed(ctx: Context, st: State, st1: State, at: map<Cid, nat>, at1: map<Cid, nat>, c: Cid)
    requires ctx.Valid() && Processed(ctx, st, at)
    requires ctx.Good(c) && c in at
    requires at1 == Extended(at, Targets(ctx.LinksOf(c)), at[c] + 1)
    requires forall d :: d in at ==> at[d] <= at[c] + 1
    requires Queued(st1.queue) == Queued(st.queue) - {c} + (Targets(ctx.LinksOf(c)) - at.Keys)
    requires Abouts(st1.items) == Abouts(st.items) + {c}
    ensures Processed(ctx, st1, at1)
  {
    TargetsAre(ctx.LinksOf(c));
    hide Targets, Queued, Abouts;
    assert Expanded(ctx, at1, c);
    forall d | d in at1 && d !in Queued(st1.queue) && d != c
      ensures Expanded(ctx, at1, d) && (!ctx.Beyond(at1[d]) && (ctx.Loads(d) || !ctx.download) ==> d in Abouts(st1.items))
    {
      assert d in at && d !in Queued(st.queue);
      assert Expanded(ctx, at, d);
    }
  }

  /** A state with the same queue and visited cids. */
  ghost predicate SameQueue(a: State, b: State) {
    a.queue == b.queue && a.visited == b.visited
  }

  /** The first document of the queue visited and its links not yet queued. */
  lemma {:induction false} ExpandingPop(ctx: Context, origins: Origins, st: State, at: map<Cid, nat>, cur: nat) returns (popped: State)
    requires ctx.Valid() && ReadableOrigins(origins) && ctx.unique
    requires QueueOk(st, at, cur) && Sound(ctx, origins, st, at) && ItemsOk(ctx, origins, st, at, cur) && st.queue != [] && !st.stopped
    requires !ctx.Beyond(st.queue[0].depth) && ctx.Good(st.queue[0].cid)
    ensures var w, st1 := st.queue[0], Turn(ctx, st);
            && popped == st1.(queue := st.queue[1..], visited := st.visited)
            && SameQueue(st1, Push(popped, ctx.LinksOf(w.cid), w.depth + 1, w.cid, true))
            && w.cid in at && at[w.cid] == w.depth && Queued(popped.queue) == Queued(st.queue) - {w.cid}
            && QueueOk(popped, at, w.depth) && Sound(ctx, origins, popped, at) && ItemsOk(ctx, origins, popped, at, w.depth)
            && Abouts(popped.items) == Abouts(st.items) + {w.cid}
  {
    hide Readable, IpldLinks, Within, RealEdge, RealQueue, QueueAt, DistinctWork, OrderedWork, Queued, Abouts, ItemOk, Turn, ItemOf, ItemsOk, Fresh, Targets;
    var w, st1 := st.queue[0], Turn(ctx, st);
    popped := st1.(queue := st.queue[1..], visited := st.visited);
    PopHead(st, at, cur);
    TurnEffect(ctx, st);
    ItemOfOk(ctx, origins, st, at, cur);
    EdgeOf(ctx, w);
    ItemsGrow(ctx, origins, st, popped, at, cur, ItemOf(ctx, w));
  }

  lemma {:induction false} EdgeOf(ctx: Context, w: Work)
    requires !ctx.Beyond(w.depth) && ctx.Good(w.cid)
    ensures ItemOf(ctx, w) == Some(Edge(w.source, w.cid, w.name))
  {
  }

  /** Queueing the links keeps the items. */
  lemma {:induction false} PushItems(ctx: Context, origins: Origins, st: State, st1: State, at: map<Cid, nat>, at1: map<Cid, nat>, cur: nat, added: set<Cid>)
    requires ctx.Valid() && ReadableOrigins(origins) && ItemsOk(ctx, origins, st, at, cur)
    requires st1 == st.(queue := st1.queue, visited := st1.visited)
    requires Queued(st1.queue) == Queued(st.queue) + (added - at.Keys)
    requires at1.Keys == at.Keys + added && forall c :: c in at ==> c in at1 && at1[c] == at[c]
    ensures ItemsOk(ctx, origins, st1, at1, cur)
  {
    hide AllItemsOk, Abouts, Queued, DistinctItems, OrderedDepths, StopsAtTheEnd;
    ExtendedKeepsItems(ctx, origins, at, at1, st.items, st.depths);
  }

  /** A turn that visits a document and queues its links. */
  lemma {:induction false} ExpandingTurn(ctx: Context, origins: Origins, st: State, at: map<Cid, nat>, cur: nat)
    requires ctx.Valid() && ReadableOrigins(origins) && ctx.unique
    requires Searching(ctx, origins, st, at, cur) && st.queue != [] && !st.stopped
    requires !ctx.Beyond(st.queue[0].depth) && ctx.Good(st.queue[0].cid)
    ensures var w := st.queue[0];
            Searching(ctx, origins, Turn(ctx, st), Extended(at, Targets(ctx.LinksOf(w.cid)), w.depth + 1), w.depth)
  {
    hide Readable, IpldLinks, OriginTargets, RealQueue, QueueAt, DistinctWork, OrderedWork, Queued, Abouts, ItemsOk, Targets, Turn, Fresh, Extended, Processed, Within;
    var w, st1 := st.queue[0], Turn(ctx, st);
    var links := ctx.LinksOf(w.cid);
    var at1 := Extended(at, Targets(links), w.depth + 1);
    var popped := ExpandingPop(ctx, origins, st, at, cur);
    ExtendedIs(at, Targets(links), w.depth + 1);
    PushQueueOk(popped, at, links, w.depth, w.cid);
    PushSound(ctx, origins, popped, at, w.cid);
    PushItems(ctx, origins, popped, st1, at, at1, w.depth, Targets(links));
    PushProcessed(ctx, st, st1, at, at1, w.cid);
  }

  // ---------------------------------------------------------------------------------------------
  // The beginning

  lemma {:induction false} OriginsAppend(a: Origins, o: (Cid, Ipld))
    requires ReadableOrigins(a) && Readable(o.0, o.1)
    ensures ReadableOrigins(a + [o])
    ensures OriginTargets(a + [o]) == OriginTargets(a) + Targets(IpldLinks(o.0, o.1))
  {
    hide Readable, IpldLinks, Targets;
    if a == [] {
      assert a + [o] == [o] && [o][1..] == [];
    } else {
      assert (a + [o])[1..] == a[1..] + [o];
      OriginsAppend(a[1..], o);
    }
  }

  ghost function Zeros(cids: set<Cid>): map<Cid, nat> {
    map c | c in cids :: 0
  }

  /** Only links of the origins are queued, each cid once. */
  ghost predicate Starting(ctx: Context, all: Origins, done: Origins, st: State)
    requires ctx.Valid() && ReadableOrigins(all) && ReadableOrigins(done)
  {
    && st.visited == OriginTargets(done) && Queued(st.queue) == st.visited
    && QueueAt(st.queue, Zeros(st.visited)) && DistinctWork(st.queue) && OrderedWork(st.queue, 0)
    && RealQueue(ctx, all, st.queue)
    && st.items == [] && st.depths == [] && !st.stopped
  }

  lemma {:induction false} StartPush(ctx: Context, all: Origins, done: Origins, o: (Cid, Ipld), st: State)
    requires ctx.Valid() && ReadableOrigins(all) && ReadableOrigins(done) && Readable(o.0, o.1) && Starting(ctx, all, done, st)
    requires forall l :: l in IpldLinks(o.0, o.1) ==> OriginLink(all, o.0, l)
    ensures ReadableOrigins(done + [o])
    ensures Starting(ctx, all, done + [o], Push(st, IpldLinks(o.0, o.1), 0, o.0, true))
  {
    hide Readable, IpldLinks, Targets, Queued, DistinctWork, OrderedWork, OriginTargets, OriginLink, Fresh, QueueAt, RealQueue;
    OriginsAppend(done, o);
    var links := IpldLinks(o.0, o.1);
    var more, at := Fresh(links, st.visited, 0, o.0), Zeros(st.visited + Targets(links));
    FreshWork(links, st.visited, 0, o.0);
    QueuesAppend(st.queue, more);
    OrderedAppend(st.queue, more, Zeros(st.visited), 0, 0);
    FreshAt(links, st.visited, 0, o.0, at);
    QueueAtGrows(st.queue, Zeros(st.visited), at);
    QueueAtAppend(st.queue, more, at);
    FreshReal(ctx, all, links, st.visited, 0, o.0);
    RealAppend(ctx, all, st.queue, more);
  }

  lemma {:induction false} StartKeeps(ctx: Context, done: Origins, rest: Origins, st: State)
    requires ctx.Valid() && ReadableOrigins(done + rest) && ReadableOrigins(done) && ReadableOrigins(rest)
    requires Starting(ctx, done + rest, done, st)
    ensures Starting(ctx, done + rest, done + rest, Start(rest, st, true))
    decreases rest
  {
    if rest == [] {
      assert done + rest == done;
    } else {
      var o := rest[0];
      assert done + [o] + rest[1..] == done + rest;
      OriginsInclude(done, o, rest[1..]);
      StartPush(ctx, done + rest, done, o, st);
      hide Starting, Push, Readable;
      StartKeeps(ctx, done + [o], rest[1..], Push(st, IpldLinks(o.0, o.1), 0, o.0, true));
    }
  }

  lemma {:induction false} OriginsInclude(a: Origins, o: (Cid, Ipld), b: Origins)
    requires ReadableOrigins(a + [o] + b) && Readable(o.0, o.1)
    ensures forall l :: l in IpldLinks(o.0, o.1) ==> OriginLink(a + [o] + b, o.0, l)
    decreases a
  {
    hide Readable, IpldLinks;
    if a != [] {
      assert (a + [o] + b)[1..] == a[1..] + [o] + b;
      OriginsInclude(a[1..], o, b);
    }
  }

  lemma {:induction false} StartSearching(ctx: Context, origins: Origins, st: State)
    requires ctx.Valid() && ReadableOrigins(origins) && Starting(ctx, origins, origins, st)
    ensures Searching(ctx, origins, st, Zeros(st.visited), 0)
  {
    hide Readable, IpldLinks, OriginTargets, OriginLink, DistinctWork, OrderedWork, QueueAt, RealQueue, Queued;
    forall c | c in st.visited
      ensures Within(ctx, origins, 1, c)
    {
    }
  }

  // ---------------------------------------------------------------------------------------------
  // The end

  /** What an item says about its block: an edge is a real link to a document first reachable in
      `depth + 1` links. */
  ghost predicate Report(ctx: Context, origins: Origins, it: RefItem, depth: nat)
    requires ctx.Valid() && ReadableOrigins(origins)
  {
    && Within(ctx, origins, depth + 1, About(it)) && Reached(ctx, origins, About(it))
    && match it
       case Edge(source, c, name) => ctx.Good(c) && RealEdge(ctx, origins, depth, source, (name, c))
       case Undecodable(c) => ctx.Loads(c) && !ctx.Good(c)
       case Missing(c) => !ctx.Loads(c) && c !in ctx.broken && !ctx.download
       case Unreadable(c) => c in ctx.broken && !ctx.download
  }

  /** The items of a breadth-first search: each reachable block that loads, exactly once, nearest
      first; without fetching, the walk stops if and only if some reachable block does not load. */
  ghost predicate BreadthFirst(ctx: Context, origins: Origins, items: seq<RefItem>, depths: seq<nat>, stopped: bool)
    requires ctx.Valid() && ReadableOrigins(origins)
  {
    && |items| == |depths|
    && (stopped <==> !ctx.download && exists c :: Reached(ctx, origins, c) && !ctx.Loads(c))
    && (stopped ==> items != [] && !ctx.Loads(About(items[|items| - 1])))
    && (!stopped ==> forall c :: Reached(ctx, origins, c) && ctx.Loads(c) <==> exists it :: it in items && About(it) == c)
    && (forall i :: 0 <= i < |items| ==> Report(ctx, origins, items[i], depths[i]))
    && (forall i :: 0 <= i < |items| ==> !Within(ctx, origins, depths[i], About(items[i])))
    && (forall i, j :: 0 <= i < j < |items| ==> About(items[i]) != About(items[j]) && depths[i] <= depths[j])
  }

  lemma {:induction false} QueuedFrom(queue: seq<Work>, at: map<Cid, nat>, lo: nat)
    requires QueueAt(queue, at) && OrderedWork(queue, lo)
    ensures forall c :: c in Queued(queue) ==> c in at && lo <= at[c]
    decreases queue
  {
    if queue != [] {
      QueuedFrom(queue[1..], at, queue[0].depth);
    }
  }

  /** Everything reachable within the limit by paths up to the current level, or by any once the queue
      is empty, has been queued no later than its distance. */
  lemma {:induction false} SearchedAll(ctx: Context, origins: Origins, st: State, at: map<Cid, nat>, cur: nat, n: nat, c: Cid)
    requires ctx.Valid() && ReadableOrigins(origins)
    requires Searching(ctx, origins, st, at, cur) && (st.queue == [] || n <= cur + 1)
    requires Within(ctx, origins, n, c) && (ctx.limit.None? || n <= ctx.limit.value + 1)
    ensures c in at && at[c] < n
    decreases n
  {
    hide ItemsOk, Readable, IpldLinks, OriginTargets, Sound, QueueAt, OrderedWork, DistinctWork;
    if c !in OriginTargets(origins) {
      var p, l :| Within(ctx, origins, n - 1, p) && HasLink(ctx, p, l) && l.1 == c;
      SearchedAll(ctx, origins, st, at, cur, n - 1, p);
      QueuedFrom(st.queue, at, cur);
      assert p !in Queued(st.queue);
      assert Expanded(ctx, at, p);
    }
  }

  lemma {:induction false} AboutsAre(items: seq<RefItem>)
    ensures forall c :: c in Abouts(items) <==> exists it :: it in items && About(it) == c
    ensures DistinctItems(items) ==> forall i, j :: 0 <= i < j < |items| ==> About(items[i]) != About(items[j])
  {
    if items != [] {
      var init, last := items[..|items| - 1], items[|items| - 1];
      assert items == init + [last];
      AboutsAre(init);
      forall i | 0 <= i < |init|
        ensures items[i] in init
      {
        assert init[i] == items[i];
      }
    }
  }

  lemma {:induction false} OrderedAre(depths: seq<nat>, hi: nat)
    requires OrderedDepths(depths, hi)
    ensures forall i :: 0 <= i < |depths| ==> depths[i] <= hi
    ensures forall i, j :: 0 <= i < j < |depths| ==> depths[i] <= depths[j]
  {
    if depths != [] {
      OrderedAre(depths[..|depths| - 1], depths[|depths| - 1]);
    }
  }

  lemma {:induction false} AllItemsAre(ctx: Context, origins: Origins, at: map<Cid, nat>, items: seq<RefItem>, depths: seq<nat>)
    requires ctx.Valid() && ReadableOrigins(origins) && AllItemsOk(ctx, origins, at, items, depths)
    ensures |items| == |depths|
    ensures forall i :: 0 <= i < |items| ==> ItemOk(ctx, origins, at, items[i], depths[i])
    decreases items
  {
    hide ItemOk;
    if items != [] {
      AllItemsAre(ctx, origins, at, items[..|items| - 1], depths[..|items| - 1]);
    }
  }

  lemma {:induction false} ItemReports(ctx: Context, origins: Origins, st: State, at: map<Cid, nat>, it: RefItem, depth: nat)
    requires ctx.Valid() && ReadableOrigins(origins)
    requires Sound(ctx, origins, st, at) && ItemOk(ctx, origins, at, it, depth)
    ensures Report(ctx, origins, it, depth)
  {
    hide Within, RealEdge, Readable, IpldLinks;
    assert Within(ctx, origins, depth + 1, About(it));
  }

  lemma {:induction false} ReachedAreReported(ctx: Context, origins: Origins, st: State, at: map<Cid, nat>, cur: nat, c: Cid)
    requires ctx.Valid() && ReadableOrigins(origins) && ctx.limit != Some(0)
    requires Searching(ctx, origins, st, at, cur) && st.queue == [] && !st.stopped
    requires Reached(ctx, origins, c) && (ctx.Loads(c) || !ctx.download)
    ensures c in Abouts(st.items) && ctx.Loads(c)
  {
    hide Within, RealEdge, Readable, IpldLinks, Sound, AllItemsOk, Abouts, DistinctItems, OrderedDepths;
    var n: nat :| Within(ctx, origins, n, c) && (ctx.limit.None? || n <= ctx.limit.value);
    SearchedAll(ctx, origins, st, at, cur, n, c);
    assert c !in Queued(st.queue);
  }

  lemma {:induction false} SearchedItems(ctx: Context, origins: Origins, st: State, at: map<Cid, nat>, cur: nat)
    requires ctx.Valid() && ReadableOrigins(origins) && Searching(ctx, origins, st, at, cur)
    ensures |st.items| == |st.depths|
    ensures forall i :: 0 <= i < |st.items| ==> ItemOk(ctx, origins, at, st.items[i], st.depths[i])
    ensures forall i :: 0 <= i < |st.items| ==> Report(ctx, origins, st.items[i], st.depths[i])
    ensures forall i, j :: 0 <= i < j < |st.items| ==> About(st.items[i]) != About(st.items[j]) && st.depths[i] <= st.depths[j]
  {
    hide Within, RealEdge, Readable, IpldLinks, AllItemsOk, Abouts, DistinctItems, OrderedDepths, Processed, QueueOk, OriginTargets, ItemOk, Report, Sound;
    AllItemsAre(ctx, origins, at, st.items, st.depths);
    AboutsAre(st.items);
    OrderedAre(st.depths, cur);
    forall i | 0 <= i < |st.items|
      ensures Report(ctx, origins, st.items[i], st.depths[i])
    {
      ItemReports(ctx, origins, st, at, st.items[i], st.depths[i]);
    }
  }

  lemma {:induction false} SearchedToTheEnd(ctx: Context, origins: Origins, st: State, at: map<Cid, nat>, cur: nat)
    requires ctx.Valid() && ReadableOrigins(origins) && ctx.limit != Some(0)
    requires Searching(ctx, origins, st, at, cur) && st.queue == [] && !st.stopped
    ensures forall c :: Reached(ctx, origins, c) && (ctx.Loads(c) || !ctx.download) ==> ctx.Loads(c)
    ensures forall c :: Reached(ctx, origins, c) && ctx.Loads(c) <==> exists it :: it in st.items && About(it) == c
  {
    SearchedItems(ctx, origins, st, at, cur);
    assert StopsAtTheEnd(ctx, st.items, st.stopped);
    hide Searching, Reached, Within, ItemOk, Report, Abouts;
    forall c | Reached(ctx, origins, c) && (ctx.Loads(c) || !ctx.download)
      ensures c in Abouts(st.items) && ctx.Loads(c)
    {
      ReachedAreReported(ctx, origins, st, at, cur, c);
    }
    AboutsAre(st.items);
    ItemsAreReached(ctx, origins, st);
  }

  /** The walk ends as a breadth-first search. */
  lemma {:induction false} Searched(ctx: Context, origins: Origins, st: State, at: map<Cid, nat>, cur: nat)
    requires ctx.Valid() && ReadableOrigins(origins) && ctx.limit != Some(0)
    requires Searching(ctx, origins, st, at, cur) && (st.queue == [] || st.stopped)
    ensures BreadthFirst(ctx, origins, st.items, st.depths, st.stopped)
  {
    hide Searching, Within, Reached, ItemOk, Report;
    SearchedItems(ctx, origins, st, at, cur);
    AreNearest(ctx, origins, st, at, cur);
    if st.stopped {
      SearchStopped(ctx, origins, st, at, cur);
    } else {
      SearchedToTheEnd(ctx, origins, st, at, cur);
    }
  }

  lemma {:induction false} SearchStopped(ctx: Context, origins: Origins, st: State, at: map<Cid, nat>, cur: nat)
    requires ctx.Valid() && ReadableOrigins(origins) && Searching(ctx, origins, st, at, cur) && st.stopped
    ensures !ctx.download && exists c :: Reached(ctx, origins, c) && !ctx.Loads(c)
    ensures st.items != [] && !ctx.Loads(About(st.items[|st.items| - 1]))
  {
    SearchedItems(ctx, origins, st, at, cur);
    assert StopsAtTheEnd(ctx, st.items, st.stopped);
    hide Searching, Within, Reached, ItemOk, RealEdge;
    assert Report(ctx, origins, st.items[|st.items| - 1], st.depths[|st.items| - 1]);
  }

  lemma {:induction false} ItemsAreReached(ctx: Context, origins: Origins, st: State)
    requires ctx.Valid() && ReadableOrigins(origins) && |st.items| == |st.depths|
    requires forall i :: 0 <= i < |st.items| ==> Report(ctx, origins, st.items[i], st.depths[i])
    ensures forall it :: it in st.items ==> Reached(ctx, origins, About(it))
  {
    hide Within, RealEdge, Readable, IpldLinks;
    forall it | it in st.items
      ensures Reached(ctx, origins, About(it))
    {
      var i :| 0 <= i < |st.items| && st.items[i] == it;
      assert Report(ctx, origins, st.items[i], st.depths[i]);
    }
  }

  /** Items come no later than the current level, so each is at its exact distance. */
  lemma {:induction false} AreNearest(ctx: Context, origins: Origins, st: State, at: map<Cid, nat>, cur: nat)
    requires ctx.Valid() && ReadableOrigins(origins)
    requires Searching(ctx, origins, st, at, cur) && |st.items| == |st.depths|
    requires forall i :: 0 <= i < |st.items| ==> ItemOk(ctx, origins, at, st.items[i], st.depths[i])
    ensures forall i :: 0 <= i < |st.items| ==> !Within(ctx, origins, st.depths[i], About(st.items[i]))
  {
    assert OrderedDepths(st.depths, cur);
    hide Within, RealEdge, Readable, IpldLinks, AllItemsOk, Abouts, DistinctItems, OrderedDepths, Processed, QueueOk, OriginTargets, Searching;
    OrderedAre(st.depths, cur);
    forall i | 0 <= i < |st.items|
      ensures !Within(ctx, origins, st.depths[i], About(st.items[i]))
    {
      if Within(ctx, origins, st.depths[i], About(st.items[i])) {
        assert ItemOk(ctx, origins, at, st.items[i], st.depths[i]);
        SearchedAll(ctx, origins, st, at, cur, st.depths[i], About(st.items[i]));
      }
    }
  }

  // ---------------------------------------------------------------------------------------------
  // Each turn takes one from the queue and adds as many as it marks visited

  ghost function StoredTargets(ctx: Context): set<Cid>
    requires ctx.Valid()
  {
    set c, d | c in ctx.store && ctx.Good(c) && d in Targets(ctx.LinksOf(c)) :: d
  }

  ghost function Universe(ctx: Context, origins: Origins): set<Cid>
    requires ctx.Valid() && ReadableOrigins(origins)
  {
    OriginTargets(origins) + StoredTargets(ctx)
  }

  ghost function Left(ctx: Context, origins: Origins, st: State): nat
    requires ctx.Valid() && ReadableOrigins(origins)
  {
    |st.queue| + |Universe(ctx, origins) - st.visited|
  }

  lemma {:induction false} PushUnvisited(u: set<Cid>, visited: set<Cid>, targets: set<Cid>)
    requires targets <= u
    ensures |u - visited| == |u - (visited + targets)| + |targets - visited|
  {
    assert u - visited == (u - (visited + targets)) + (targets - visited);
    assert (u - (visited + targets)) !! (targets - visited);
  }

  lemma {:induction false} TargetsInUniverse(ctx: Context, origins: Origins, c: Cid)
    requires ctx.Valid() && ReadableOrigins(origins) && ctx.Good(c)
    ensures Targets(ctx.LinksOf(c)) <= Universe(ctx, origins)
  {
    hide Readable, IpldLinks, Targets, OriginTargets;
  }

  lemma {:induction false} TurnTakesOne(ctx: Context, origins: Origins, st: State)
    requires ctx.Valid() && ReadableOrigins(origins) && ctx.unique && st.queue != [] && !st.stopped
    ensures Left(ctx, origins, Turn(ctx, st)) == Left(ctx, origins, st) - 1
  {
    hide Readable, IpldLinks, Turn, ItemOf, Targets, OriginTargets, Fresh, Universe, DistinctWork, OrderedWork, Queued;
    TurnEffect(ctx, st);
    var w := st.queue[0];
    if !ctx.Beyond(w.depth) && ctx.Good(w.cid) {
      var links := ctx.LinksOf(w.cid);
      FreshWork(links, st.visited, w.depth + 1, w.cid);
      TargetsInUniverse(ctx, origins, w.cid);
      PushUnvisited(Universe(ctx, origins), st.visited, Targets(links));
    }
  }
}
