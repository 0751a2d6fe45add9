/** The reference walk itself. */
module RefsWalk {
  import opened Common
  import opened Ipld
  import opened Refs
  import opened RefsUnique
  import opened RefsLevels

  const NOTHING := State([], {}, [], [], false)

  /** Queues links, in unique mode only those seen for the first time. */
  method PushLinks(queue: seq<Work>, visited: set<Cid>, links: seq<NamedLink>, depth: nat, source: Cid, unique: bool)
    returns (queue1: seq<Work>, visited1: set<Cid>)
    ensures var st := Push(State(queue, visited, [], [], false), links, depth, source, unique);
            queue1 == st.queue && visited1 == st.visited
  {
    queue1, visited1 := queue, visited;
    ghost var goal := Push(State(queue, visited, [], [], false), links, depth, source, unique);
    assert links[0..] == links;
    for i := 0 to |links|
      invariant var st := Push(State(queue1, visited1, [], [], false), links[i..], depth, source, unique);
                goal.queue == st.queue && goal.visited == st.visited
    {
      assert links[i..][1..] == links[i + 1..];
      var (name, cid) := links[i];
      if unique && cid in visited1 {
        assert visited1 + Targets(links[i..]) == visited1 + Targets(links[i + 1..]);
        continue;
      }
      PushOne(queue1, visited1, links[i..], depth, source);
      queue1 := queue1 + [Work(depth, cid, source, name)];
      visited1 := if unique then visited1 + {cid} else visited1;
    }
    assert Targets([]) == {};
  }

  lemma {:induction false} PushOne(queue: seq<Work>, visited: set<Cid>, links: seq<NamedLink>, depth: nat, source: Cid)
    requires links != []
    ensures var w := Work(depth, links[0].1, source, links[0].0);
            && queue + ToWork(links, depth, source) == queue + [w] + ToWork(links[1..], depth, source)
            && visited + Targets(links) == visited + {links[0].1} + Targets(links[1..])
            && (links[0].1 !in visited ==>
                  queue + Fresh(links, visited, depth, source)
                  == queue + [w] + Fresh(links[1..], visited + {links[0].1}, depth, source))
  {
    var w := Work(depth, links[0].1, source, links[0].0);
    Assoc(queue, [w], ToWork(links[1..], depth, source));
    Assoc(queue, [w], Fresh(links[1..], visited + {links[0].1}, depth, source));
  }

  ghost function StartWork(origins: Origins): seq<Work>
    requires ReadableOrigins(origins)
  {
    Start(origins, NOTHING, false).queue
  }

  /** Queues the links of the origins. */
  method Begin(origins: Origins, unique: bool) returns (work: seq<Work>, visited: set<Cid>)
    requires ReadableOrigins(origins)
    ensures Start(origins, NOTHING, unique) == NOTHING.(queue := work, visited := visited)
  {
    hide Readable, IpldLinks;
    work, visited := [], {};
    assert origins[0..] == origins;
    for i := 0 to |origins|
      invariant Start(origins, NOTHING, unique) == Start(origins[i..], NOTHING.(queue := work, visited := visited), unique)
    {
      var (origin, ipld) := origins[i];
      assert origins[i..][0] == (origin, ipld) && origins[i..][1..] == origins[i + 1..];
      work, visited := PushLinks(work, visited, IpldLinks(origin, ipld), 0, origin, unique);
    }
  }

  /** One turn of the loop over the worklist. */
  method Visit(ctx: Context, work: seq<Work>, visited: set<Cid>, items: seq<RefItem>, ghost depths: seq<nat>)
    returns (work1: seq<Work>, visited1: set<Cid>, items1: seq<RefItem>, stopped: bool, ghost depths1: seq<nat>)
    requires ctx.Valid() && work != []
    ensures Turn(ctx, State(work, visited, items, depths, false)) == State(work1, visited1, items1, depths1, stopped)
    ensures var t := Turn(ctx, State(work, visited, items, [], false));
            t.queue == work1 && t.visited == visited1 && t.items == items1 && t.stopped == stopped
  {
    hide Readable, IpldLinks, ToWork, Fresh, Targets;
    var w := work[0];
    work1, visited1, items1, stopped := work[1..], visited, items, false;
    depths1 := depths;
    if ctx.limit.Some? && ctx.limit.value <= w.depth {
      return;
    }
    var traverse := !(ctx.limit.Some? && ctx.limit.value + 1 == w.depth);
    if !ctx.Loads(w.cid) {
      if !ctx.download {
        items1 := items + [if w.cid in ctx.broken then Unreadable(w.cid) else Missing(w.cid)];
        depths1 := depths + [w.depth];
        stopped := true;
      }
      return;
    }
    depths1 := depths + [w.depth];
    if ctx.store[w.cid].ipld.None? {
      items1 := items + [Undecodable(w.cid)];
      return;
    }
    if traverse {
      work1, visited1 := PushLinks(work1, visited, IpldLinks(w.cid, ctx.store[w.cid].ipld.value), w.depth + 1, w.cid, ctx.unique);
    }
    items1 := items + [Edge(w.source, w.cid, w.name)];
  }

  // ---------------------------------------------------------------------------------------------
  // The run

  /** Every linked cid names a block that loads and decodes. */
  ghost predicate AllGood(ctx: Context, origins: Origins)
    requires ctx.Valid() && ReadableOrigins(origins)
  {
    forall c :: c in Universe(ctx, origins) ==> ctx.Good(c)
  }

  ghost function HeightOf(ctx: Context, rank: Cid -> nat, ws: seq<Work>): nat {
    if ws == [] then 0
    else
      var h, t := Height(ctx, rank, ws[0]) + 1, HeightOf(ctx, rank, ws[1..]);
      if h < t then t else h
  }

  lemma {:induction false} HeightBounds(ctx: Context, rank: Cid -> nat, ws: seq<Work>)
    ensures Below(ctx, rank, ws, HeightOf(ctx, rank, ws))
  {
    if ws != [] {
      hide Height;
      HeightBounds(ctx, rank, ws[1..]);
      BelowRelax(ctx, rank, ws[1..], HeightOf(ctx, rank, ws[1..]), HeightOf(ctx, rank, ws));
    }
  }

  /** The number of link paths from the origins. */
  ghost function AllPaths(ctx: Context, rank: Cid -> nat, origins: Origins): nat
    requires ctx.Valid() && Bounded(ctx, rank) && ReadableOrigins(origins)
  {
    var start := StartWork(origins);
    HeightBounds(ctx, rank, start);
    PathCount(ctx, rank, start, HeightOf(ctx, rank, start))
  }

  /** Level by level: the items of all levels, the last of which is empty. */
  ghost predicate LevelByLevel(ctx: Context, origins: Origins, items: seq<RefItem>, k: nat)
    requires ctx.Valid() && ReadableOrigins(origins)
  {
    Level(ctx, StartWork(origins), k) == [] && items == EmitBelow(ctx, StartWork(origins), k)
  }

  lemma {:induction false} ToWorkQueued(links: seq<NamedLink>, depth: nat, source: Cid)
    ensures Queued(ToWork(links, depth, source)) == Targets(links)
  {
    if links != [] {
      ToWorkQueued(links[1..], depth, source);
    }
  }

  lemma {:induction false} StartQueued(done: Origins, rest: Origins, st: State)
    requires ReadableOrigins(done) && ReadableOrigins(rest) && Queued(st.queue) <= OriginTargets(done)
    ensures ReadableOrigins(done + rest)
    ensures Queued(Start(rest, st, false).queue) <= OriginTargets(done + rest)
    decreases rest
  {
    hide Readable, IpldLinks, ToWork, Targets, Queued;
    if rest == [] {
      assert done + rest == done;
    } else {
      var o := rest[0];
      var links := IpldLinks(o.0, o.1);
      assert done + [o] + rest[1..] == done + rest;
      OriginsAppend(done, o);
      ToWorkQueued(links, 0, o.0);
      QueuesAppend(st.queue, ToWork(links, 0, o.0));
      StartQueued(done + [o], rest[1..], Push(st, links, 0, o.0, false));
    }
  }

  lemma {:induction false} TurnStaysInside(ctx: Context, origins: Origins, st: State)
    requires ctx.Valid() && ReadableOrigins(origins) && !ctx.unique && st.queue != [] && !st.stopped
    requires Queued(st.queue) <= Universe(ctx, origins)
    ensures Queued(Turn(ctx, st).queue) <= Universe(ctx, origins)
  {
    hide Readable, IpldLinks, Turn, ItemOf, Targets, Universe;
    TurnEffect(ctx, st);
    var w := st.queue[0];
    if !ctx.Beyond(w.depth) && ctx.Good(w.cid) {
      var links := ctx.LinksOf(w.cid);
      TargetsInUniverse(ctx, origins, w.cid);
      ToWorkQueued(links, w.depth + 1, w.cid);
      QueuesAppend(st.queue[1..], ToWork(links, w.depth + 1, w.cid));
    }
  }

  /** One more item per turn when every block is good and there is no limit. */
  lemma {:induction false} TurnAddsOneItem(ctx: Context, origins: Origins, st: State)
    requires ctx.Valid() && ReadableOrigins(origins) && st.queue != [] && !st.stopped
    requires ctx.limit.None? && AllGood(ctx, origins) && Queued(st.queue) <= Universe(ctx, origins)
    ensures |Turn(ctx, st).items| == |st.items| + 1
  {
    hide Readable, IpldLinks, Turn, Universe;
    TurnEffect(ctx, st);
    assert st.queue[0].cid in Queued(st.queue);
  }

  /** Without a limit to reach, nothing is within reach. */
  lemma {:induction false} NothingReached(ctx: Context, origins: Origins)
    requires ctx.Valid() && ReadableOrigins(origins) && ctx.limit == Some(0)
    ensures BreadthFirst(ctx, origins, [], [], false)
    ensures LevelByLevel(ctx, origins, [], 1)
    ensures !SomeHalts(ctx, StartWork(origins))
  {
    assert forall c :: !Reached(ctx, origins, c);
    AllBeyond(ctx, StartWork(origins));
    assert Level(ctx, StartWork(origins), 0) == StartWork(origins);
    assert Level(ctx, StartWork(origins), 1) == Next(ctx, StartWork(origins));
    assert EmitBelow(ctx, StartWork(origins), 1) == [] + Emit(ctx, StartWork(origins));
  }

  lemma {:induction false} AllBeyond(ctx: Context, ws: seq<Work>)
    requires ctx.Valid() && ctx.limit == Some(0)
    ensures Next(ctx, ws) == [] && Emit(ctx, ws) == []
  {
    if ws != [] {
      AllBeyond(ctx, ws[1..]);
    }
  }

  /** Walks in unique mode. */
  method UniqueRefs(ctx: Context, origins: Origins)
    returns (items: seq<RefItem>, stopped: bool, ghost depths: seq<nat>)
    requires ctx.Valid() && ReadableOrigins(origins) && ctx.unique
    ensures BreadthFirst(ctx, origins, items, depths, stopped)
    ensures stopped <==> !ctx.download && exists c :: Reached(ctx, origins, c) && !ctx.Loads(c)
    ensures !stopped ==> forall c :: Reached(ctx, origins, c) && ctx.Loads(c) <==> exists it :: it in items && About(it) == c
  {
    hide Readable, IpldLinks, Turn, Searching, Start, Starting, Left, Report, Within, Reached;
    items, stopped, depths := [], false, [];
    if ctx.limit == Some(0) {
      NothingReached(ctx, origins);
      return;
    }
    var work, visited := Begin(origins, true);
    ghost var st := NOTHING.(queue := work, visited := visited);
    Started(ctx, origins);
    ghost var at, cur := Zeros(visited), 0;
    while work != [] && !stopped
      invariant st == State(work, visited, items, depths, stopped)
      invariant Searching(ctx, origins, st, at, cur)
      decreases Left(ctx, origins, st)
    {
      ghost var w := work[0];
      TurnTakesOne(ctx, origins, st);
      if ctx.Beyond(w.depth) || !ctx.Good(w.cid) {
        QuietTurn(ctx, origins, st, at, cur);
      } else {
        ExpandingTurn(ctx, origins, st, at, cur);
        at := Extended(at, Targets(ctx.LinksOf(w.cid)), w.depth + 1);
      }
      cur := w.depth;
      st := Turn(ctx, st);
      work, visited, items, stopped, depths := Visit(ctx, work, visited, items, depths);
    }
    Searched(ctx, origins, st, at, cur);
  }

  lemma {:induction false} Started(ctx: Context, origins: Origins)
    requires ctx.Valid() && ReadableOrigins(origins)
    ensures var st := Start(origins, NOTHING, true);
            Searching(ctx, origins, st, Zeros(st.visited), 0)
  {
    assert [] + origins == origins;
    hide Start, Searching;
    StartKeeps(ctx, [], origins, NOTHING);
    StartSearching(ctx, origins, Start(origins, NOTHING, true));
  }

  /** Walks without uniqueness: all links again and again, level by level. A walk of a store without
      cycles has one turn, and one edge if every block is good, for every path of links. Without
      fetching it stops, if and only if some block does not load, at the first such block. */
  method AllRefs(ctx: Context, origins: Origins, ghost rank: Cid -> nat)
    returns (items: seq<RefItem>, stopped: bool, ghost turns: nat, ghost k: nat, ghost i: nat)
    requires ctx.Valid() && ReadableOrigins(origins) && !ctx.unique && Bounded(ctx, rank)
    ensures stopped <==> !ctx.download && SomeHalts(ctx, StartWork(origins))
    ensures stopped ==> StopsAt(ctx, StartWork(origins), items, k, i)
    ensures !stopped ==> LevelByLevel(ctx, origins, items, k)
    ensures !stopped && ctx.limit != Some(0) ==> turns == AllPaths(ctx, rank, origins)
    ensures !stopped && ctx.limit.None? && AllGood(ctx, origins) ==> |items| == AllPaths(ctx, rank, origins)
  {
    hide Readable, IpldLinks, Turn, Start, Level, EmitBelow, Next, Emit, PathCount, Below, AllGood, Queued, Universe, StopsAt, Halts, NoneHalts,
      NoneHaltsBelow, SomeHalts;
    ghost var depths := [];
    items, stopped, turns, k, i := [], false, 0, 0, 0;
    if ctx.limit == Some(0) {
      NothingReached(ctx, origins);
      k := 1;
      return;
    }
    var work, visited := Begin(origins, false);
    ghost var start := StartWork(origins);
    ghost var height := HeightOf(ctx, rank, start);
    HeightBounds(ctx, rank, start);
    ghost var st := NOTHING.(queue := work, visited := visited);
    ghost var done, todo := [], start;
    AllStarted(ctx, origins);
    NothingHaltsYet(ctx, start);
    while work != []
      invariant st == State(work, visited, items, depths, stopped)
      invariant stopped ==> !ctx.download && StopsAt(ctx, start, items, k, i) && work == []
      invariant !stopped ==> InLevel(ctx, start, st, k, done, todo) && Queued(work) <= Universe(ctx, origins)
      invariant !stopped && !ctx.download ==> NoneHalts(ctx, done) && NoneHaltsBelow(ctx, start, k)
      invariant Below(ctx, rank, work, height)
      invariant !stopped ==> turns + PathCount(ctx, rank, work, height) == AllPaths(ctx, rank, origins)
      invariant !stopped && ctx.limit.None? && AllGood(ctx, origins) ==> |items| == turns
      decreases PathCount(ctx, rank, work, height)
    {
      if todo == [] {
        NextLevel(ctx, start, st, k, done);
        NextLevelHalts(ctx, start, k, done);
        k, done, todo := k + 1, [], work;
      }
      TurnTakesOnePath(ctx, rank, st, height);
      TurnStaysInside(ctx, origins, st);
      if ctx.limit.None? && AllGood(ctx, origins) {
        TurnAddsOneItem(ctx, origins, st);
      }
      TurnHalts(ctx, start, st, k, done, todo);
      if Turn(ctx, st).stopped {
        i := |done|;
      } else {
        TurnInLevel(ctx, start, st, k, done, todo);
        done, todo := done + [todo[0]], todo[1..];
      }
      turns := turns + 1;
      st := Turn(ctx, st);
      work, visited, items, stopped, depths := Visit(ctx, work, visited, items, depths);
      if stopped {
        EmptyCount(ctx, rank, work, height);
        work := [];
        st := st.(queue := []);
      }
    }
    if stopped {
      StopHalts(ctx, start, items, k, i);
    } else {
      LevelsEnd(ctx, start, st, k, done, todo);
      k := k + 1;
      EmptyCount(ctx, rank, work, height);
    }
  }

  lemma {:induction false} AllStarted(ctx: Context, origins: Origins)
    requires ctx.Valid() && ReadableOrigins(origins)
    ensures var st := Start(origins, NOTHING, false);
            && InLevel(ctx, StartWork(origins), st, 0, [], StartWork(origins))
            && Queued(st.queue) <= Universe(ctx, origins)
  {
    assert [] + origins == origins;
    StartQueued([], origins, NOTHING);
    StartHasNoItems(origins, NOTHING);
    NothingMore(ctx);
    hide Start;
    var start := StartWork(origins);
    assert [] + start == start && start + [] == start;
  }

  lemma {:induction false} StartHasNoItems(origins: Origins, st: State)
    requires ReadableOrigins(origins)
    ensures Start(origins, st, false).items == st.items && Start(origins, st, false).stopped == st.stopped
    decreases origins
  {
    hide Readable, IpldLinks;
    if origins != [] {
      StartHasNoItems(origins[1..], Push(st, IpldLinks(origins[0].0, origins[0].1), 0, origins[0].0, false));
    }
  }

  lemma {:induction false} NothingHaltsYet(ctx: Context, start: seq<Work>)
    requires ctx.Valid()
    ensures NoneHalts(ctx, []) && NoneHaltsBelow(ctx, start, 0)
  {
  }

  lemma {:induction false} NextLevelHalts(ctx: Context, start: seq<Work>, k: nat, done: seq<Work>)
    requires ctx.Valid() && Level(ctx, start, k) == done + []
    ensures NoneHalts(ctx, done) && NoneHaltsBelow(ctx, start, k) ==> NoneHaltsBelow(ctx, start, k + 1)
    ensures NoneHalts(ctx, [])
  {
    assert done + [] == done;
    hide Level, Halts;
  }

  /** A turn stops the walk exactly at a block that does not load, without fetching. */
  lemma {:induction false} TurnHalts(ctx: Context, start: seq<Work>, st: State, k: nat, done: seq<Work>, todo: seq<Work>)
    requires ctx.Valid() && InLevel(ctx, start, st, k, done, todo) && todo != []
    requires !ctx.download ==> NoneHalts(ctx, done) && NoneHaltsBelow(ctx, start, k)
    ensures Turn(ctx, st).stopped ==> !ctx.download && StopsAt(ctx, start, Turn(ctx, st).items, k, |done|)
    ensures !Turn(ctx, st).stopped && !ctx.download ==> NoneHalts(ctx, done + [todo[0]])
  {
    hide Turn, Level, Next, Emit, EmitBelow, NoneHalts, NoneHaltsBelow, StopsAt, Readable, IpldLinks;
    if ctx.download {
      assert st.queue[0] == todo[0];
      TurnEffect(ctx, st);
    } else {
      TurnStops(ctx, start, st, k, done, todo);
    }
  }

  lemma {:induction false} EmptyCount(ctx: Context, rank: Cid -> nat, ws: seq<Work>, height: nat)
    requires ctx.Valid() && Bounded(ctx, rank) && Below(ctx, rank, ws, height)
    ensures Below(ctx, rank, [], height) && PathCount(ctx, rank, [], height) == 0
    ensures PathCount(ctx, rank, ws, height) >= 0
  {
  }

  lemma {:induction false} LevelsEnd(ctx: Context, start: seq<Work>, st: State, k: nat, done: seq<Work>, todo: seq<Work>)
    requires ctx.Valid() && InLevel(ctx, start, st, k, done, todo) && st.queue == []
    ensures Level(ctx, start, k + 1) == [] && st.items == EmitBelow(ctx, start, k + 1)
    ensures NoneHalts(ctx, done) && NoneHaltsBelow(ctx, start, k) ==> !SomeHalts(ctx, start)
  {
    hide Emit, Next, NoneHalts, NoneHaltsBelow, SomeHalts;
    assert todo == [] && Next(ctx, done) == [];
    assert done + [] == done;
    if NoneHalts(ctx, done) && NoneHaltsBelow(ctx, start, k) {
      LevelHalts(ctx, start, k);
      NothingHalts(ctx, start, k + 1);
    }
  }

  // ---------------------------------------------------------------------------------------------
  // One edge for every path of links

  lemma {:induction false} NextInside(ctx: Context, origins: Origins, ws: seq<Work>)
    requires ctx.Valid() && ReadableOrigins(origins)
    ensures Queued(Next(ctx, ws)) <= Universe(ctx, origins)
  {
    if ws != [] {
      hide Readable, IpldLinks, Universe, ToWork, Targets, Queued;
      NextInside(ctx, origins, ws[1..]);
      QueuesAppend(Children(ctx, ws[0]), Next(ctx, ws[1..]));
      if !ctx.Beyond(ws[0].depth) && ctx.Good(ws[0].cid) {
        TargetsInUniverse(ctx, origins, ws[0].cid);
        ToWorkQueued(ctx.LinksOf(ws[0].cid), ws[0].depth + 1, ws[0].cid);
      } else {
        NothingQueued();
      }
    } else {
      NothingQueued();
    }
  }

  lemma {:induction false} NothingQueued()
    ensures Queued([]) == {}
  {
  }

  lemma {:induction false} LevelsInside(ctx: Context, origins: Origins, k: nat)
    requires ctx.Valid() && ReadableOrigins(origins)
    ensures Queued(Level(ctx, StartWork(origins), k)) <= Universe(ctx, origins)
  {
    hide Universe, Queued, Start;
    if k == 0 {
      AllStarted(ctx, origins);
    } else {
      NextInside(ctx, origins, Level(ctx, StartWork(origins), k - 1));
    }
  }

  lemma {:induction false} EmitsAll(ctx: Context, origins: Origins, ws: seq<Work>)
    requires ctx.Valid() && ReadableOrigins(origins) && ctx.limit.None? && AllGood(ctx, origins)
    requires Queued(ws) <= Universe(ctx, origins)
    ensures |Emit(ctx, ws)| == |ws|
    ensures forall i :: 0 <= i < |ws| ==> Emit(ctx, ws)[i] == Edge(ws[i].source, ws[i].cid, ws[i].name)
    decreases ws
  {
    if ws != [] {
      hide Universe;
      assert ctx.Good(ws[0].cid);
      EmitsAll(ctx, origins, ws[1..]);
    }
  }

  /** Where every block is good and there is no limit, a path of links and the place of its edge among
      the items of its length determine each other. */
  lemma {:induction false} OneEdgePerPath(ctx: Context, origins: Origins, p: seq<nat>)
    requires ctx.Valid() && ReadableOrigins(origins) && ctx.limit.None? && AllGood(ctx, origins)
    requires IsPath(ctx, StartWork(origins), p)
    ensures var start, k := StartWork(origins), |p| - 1;
            var edges, i, w := Emit(ctx, Level(ctx, start, k)), Position(ctx, start, p), End(ctx, start, p);
            && |edges| == |Level(ctx, start, k)|
            && i < |edges| && edges[i] == Edge(w.source, w.cid, w.name) && PathAt(ctx, start, k, i) == p
  {
    hide AllGood, StartWork;
    var level := Level(ctx, StartWork(origins), |p| - 1);
    LevelsInside(ctx, origins, |p| - 1);
    EmitsAll(ctx, origins, level);
    PathsHavePlaces(ctx, StartWork(origins), p);
  }

  /** The walk in either mode. */
  method IpldsRefs(ctx: Context, origins: Origins, ghost rank: Cid -> nat)
    returns (items: seq<RefItem>, stopped: bool, ghost depths: seq<nat>, ghost k: nat, ghost i: nat)
    requires ctx.Valid() && ReadableOrigins(origins) && (ctx.unique || Bounded(ctx, rank))
    ensures ctx.unique ==> BreadthFirst(ctx, origins, items, depths, stopped)
    ensures !ctx.unique && !stopped ==> LevelByLevel(ctx, origins, items, k)
    ensures !ctx.unique && stopped ==> StopsAt(ctx, StartWork(origins), items, k, i)
    ensures !ctx.unique ==> (stopped <==> !ctx.download && SomeHalts(ctx, StartWork(origins)))
    ensures stopped ==> !ctx.download
  {
    hide StopsAt, SomeHalts, LevelByLevel;
    k, i, depths := 0, 0, [];
    if ctx.unique {
      items, stopped, depths := UniqueRefs(ctx, origins);
    } else {
      ghost var turns;
      items, stopped, turns, k, i := AllRefs(ctx, origins, rank);
    }
  }
}
