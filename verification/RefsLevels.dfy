/** The reference walk without uniqueness: level by level, one edge for every path of links. */
module RefsLevels {
  import opened Common
  import opened Ipld
  import opened Refs
  import opened RefsUnique

  // ---------------------------------------------------------------------------------------------
  // Levels

  /** The work queued by visiting one block. */
  ghost function Children(ctx: Context, w: Work): seq<Work>
    requires ctx.Valid()
  {
    if ctx.Beyond(w.depth) || !ctx.Good(w.cid) then [] else ToWork(ctx.LinksOf(w.cid), w.depth + 1, w.cid)
  }

  ghost function Next(ctx: Context, ws: seq<Work>): seq<Work>
    requires ctx.Valid()
  {
    if ws == [] then [] else Children(ctx, ws[0]) + Next(ctx, ws[1..])
  }

  ghost function Level(ctx: Context, ws: seq<Work>, k: nat): seq<Work>
    requires ctx.Valid()
  {
    if k == 0 then ws else Next(ctx, Level(ctx, ws, k - 1))
  }

  ghost function Emit(ctx: Context, ws: seq<Work>): seq<RefItem> {
    if ws == [] then []
    else (match ItemOf(ctx, ws[0]) case None => [] case Some(it) => [it]) + Emit(ctx, ws[1..])
  }

  ghost function EmitBelow(ctx: Context, ws: seq<Work>, k: nat): seq<RefItem>
    requires ctx.Valid()
  {
    if k == 0 then [] else EmitBelow(ctx, ws, k - 1) + Emit(ctx, Level(ctx, ws, k - 1))
  }

  lemma {:induction false} NextAppend(ctx: Context, a: seq<Work>, b: seq<Work>)
    requires ctx.Valid()
    ensures Next(ctx, a + b) == Next(ctx, a) + Next(ctx, b)
  {
    if a == [] {
      assert a + b == b;
    } else {
      assert (a + b)[1..] == a[1..] + b;
      hide Children;
      NextAppend(ctx, a[1..], b);
    }
  }

  lemma {:induction false} EmitAppend(ctx: Context, a: seq<Work>, b: seq<Work>)
    ensures Emit(ctx, a + b) == Emit(ctx, a) + Emit(ctx, b)
  {
    if a == [] {
      assert a + b == b;
    } else {
      assert (a + b)[1..] == a[1..] + b;
      hide ItemOf;
      EmitAppend(ctx, a[1..], b);
    }
  }

  // ---------------------------------------------------------------------------------------------
  // The queue is the rest of one level and the beginning of the next

  ghost predicate InLevel(ctx: Context, start: seq<Work>, st: State, k: nat, done: seq<Work>, todo: seq<Work>)
    requires ctx.Valid()
  {
    && Level(ctx, start, k) == done + todo
    && st.queue == todo + Next(ctx, done)
    && st.items == EmitBelow(ctx, start, k) + Emit(ctx, done)
    && !st.stopped
  }

  lemma {:induction false} NextLevel(ctx: Context, start: seq<Work>, st: State, k: nat, done: seq<Work>)
    requires ctx.Valid() && InLevel(ctx, start, st, k, done, [])
    ensures InLevel(ctx, start, st, k + 1, [], st.queue)
  {
    hide Next, Emit;
    assert done + [] == done;
    assert [] + Next(ctx, done) == Next(ctx, done);
    assert Level(ctx, start, k + 1) == [] + st.queue;
    assert Next(ctx, []) == [] && Emit(ctx, []) == [] by {
      NothingMore(ctx);
    }
    assert EmitBelow(ctx, start, k + 1) == EmitBelow(ctx, start, k) + Emit(ctx, done);
    assert st.items + [] == st.items;
    assert st.queue + [] == st.queue;
  }

  lemma {:induction false} NothingMore(ctx: Context)
    requires ctx.Valid()
    ensures Next(ctx, []) == [] && Emit(ctx, []) == []
  {
  }

  lemma {:induction false} TurnInLevel(ctx: Context, start: seq<Work>, st: State, k: nat, done: seq<Work>, todo: seq<Work>)
    requires ctx.Valid() && !ctx.unique && InLevel(ctx, start, st, k, done, todo) && todo != []
    requires !Turn(ctx, st).stopped
    ensures InLevel(ctx, start, Turn(ctx, st), k, done + [todo[0]], todo[1..])
  {
    hide Turn, Next, Emit, ItemOf, Level, EmitBelow, Readable, IpldLinks;
    var w, st1 := todo[0], Turn(ctx, st);
    assert st.queue[0] == w && st.queue[1..] == todo[1..] + Next(ctx, done);
    TurnEffect(ctx, st);
    OneMore(ctx, done, w);
    assert todo == [w] + todo[1..];
    Assoc(done, [w], todo[1..]);
    Assoc(todo[1..], Next(ctx, done), Children(ctx, w));
    assert st1.queue == st.queue[1..] + Children(ctx, w);
    var emitted := match ItemOf(ctx, w) case None => [] case Some(it) => [it];
    assert st1.items == st.items + emitted;
    Assoc(EmitBelow(ctx, start, k), Emit(ctx, done), emitted);
  }

  lemma {:induction false} OneMore(ctx: Context, done: seq<Work>, w: Work)
    requires ctx.Valid()
    ensures Next(ctx, done + [w]) == Next(ctx, done) + Children(ctx, w)
    ensures Emit(ctx, done + [w]) == Emit(ctx, done) + match ItemOf(ctx, w) case None => [] case Some(it) => [it]
  {
    hide Children, ItemOf;
    NextAppend(ctx, done, [w]);
    EmitAppend(ctx, done, [w]);
    assert [w][1..] == [];
    assert Next(ctx, [w]) == Children(ctx, w);
  }

  // ---------------------------------------------------------------------------------------------
  // Where a walk that does not fetch stops

  /** The block is within the limit and does not load. */
  ghost predicate Halts(ctx: Context, w: Work) {
    !ctx.Beyond(w.depth) && !ctx.Loads(w.cid)
  }

  ghost predicate NoneHalts(ctx: Context, ws: seq<Work>) {
    forall w :: w in ws ==> !Halts(ctx, w)
  }

  ghost predicate NoneHaltsBelow(ctx: Context, start: seq<Work>, k: nat)
    requires ctx.Valid()
  {
    forall j :: 0 <= j < k ==> NoneHalts(ctx, Level(ctx, start, j))
  }

  /** The first block that does not load is number `i` of level `k`, and its item ends the items. */
  ghost predicate StopsAt(ctx: Context, start: seq<Work>, items: seq<RefItem>, k: nat, i: nat)
    requires ctx.Valid()
  {
    var level := Level(ctx, start, k);
    && i < |level| && Halts(ctx, level[i]) && NoneHalts(ctx, level[..i]) && NoneHaltsBelow(ctx, start, k)
    && items == EmitBelow(ctx, start, k) + Emit(ctx, level[..i + 1])
  }

  /** Some block on a path of links from the start is within the limit and does not load. */
  ghost predicate SomeHalts(ctx: Context, start: seq<Work>)
    requires ctx.Valid()
  {
    exists j: nat :: !NoneHalts(ctx, Level(ctx, start, j))
  }

  lemma {:induction false} TurnStops(ctx: Context, start: seq<Work>, st: State, k: nat, done: seq<Work>, todo: seq<Work>)
    requires ctx.Valid() && InLevel(ctx, start, st, k, done, todo) && todo != []
    requires NoneHalts(ctx, done) && NoneHaltsBelow(ctx, start, k)
    ensures Turn(ctx, st).stopped <==> !ctx.download && Halts(ctx, todo[0])
    ensures Turn(ctx, st).stopped ==> StopsAt(ctx, start, Turn(ctx, st).items, k, |done|)
    ensures !Halts(ctx, todo[0]) ==> NoneHalts(ctx, done + [todo[0]])
  {
    hide Turn, Next, Emit, Level, EmitBelow, Readable, IpldLinks, NoneHaltsBelow;
    var w, level := todo[0], Level(ctx, start, k);
    assert st.queue[0] == w;
    TurnEffect(ctx, st);
    OneMore(ctx, done, w);
    assert level[|done|] == w && level[..|done|] == done && level[..|done| + 1] == done + [w];
    if Turn(ctx, st).stopped {
      Assoc(EmitBelow(ctx, start, k), Emit(ctx, done), [ItemOf(ctx, w).value]);
    }
  }

  lemma {:induction false} LevelHalts(ctx: Context, start: seq<Work>, k: nat)
    requires ctx.Valid() && NoneHaltsBelow(ctx, start, k) && NoneHalts(ctx, Level(ctx, start, k))
    ensures NoneHaltsBelow(ctx, start, k + 1)
  {
    hide Level, NoneHalts;
  }

  /** After the last level nothing halts any more. */
  lemma {:induction false} NothingHalts(ctx: Context, start: seq<Work>, k: nat)
    requires ctx.Valid() && NoneHaltsBelow(ctx, start, k) && Level(ctx, start, k) == []
    ensures !SomeHalts(ctx, start)
  {
    forall j: nat
      ensures NoneHalts(ctx, Level(ctx, start, j))
    {
      if j >= k {
        EmptyLevels(ctx, start, k, j);
      }
    }
  }

  lemma {:induction false} StopHalts(ctx: Context, start: seq<Work>, items: seq<RefItem>, k: nat, i: nat)
    requires ctx.Valid() && StopsAt(ctx, start, items, k, i)
    ensures SomeHalts(ctx, start)
  {
    hide Level, Halts;
    assert Level(ctx, start, k)[i] in Level(ctx, start, k);
  }

  /** Every level from the first empty one on is empty. */
  lemma {:induction false} EmptyLevels(ctx: Context, start: seq<Work>, k: nat, m: nat)
    requires ctx.Valid() && Level(ctx, start, k) == [] && k <= m
    ensures Level(ctx, start, m) == [] && EmitBelow(ctx, start, m) == EmitBelow(ctx, start, k)
    decreases m
  {
    if k < m {
      EmptyLevels(ctx, start, k, m - 1);
    }
  }

  // ---------------------------------------------------------------------------------------------
  // Levels are the link paths

  /** A path of links, each given by its position among the links of the document before. */
  ghost predicate IsPath(ctx: Context, ws: seq<Work>, p: seq<nat>)
    requires ctx.Valid()
    decreases |p|
  {
    p != [] && p[0] < |ws| && (|p| > 1 ==> IsPath(ctx, Children(ctx, ws[p[0]]), p[1..]))
  }

  /** The last link of a path. */
  ghost function End(ctx: Context, ws: seq<Work>, p: seq<nat>): Work
    requires ctx.Valid() && IsPath(ctx, ws, p)
    decreases |p|
  {
    if |p| == 1 then ws[p[0]] else End(ctx, Children(ctx, ws[p[0]]), p[1..])
  }

  lemma {:induction false} LevelAppend(ctx: Context, a: seq<Work>, b: seq<Work>, k: nat)
    requires ctx.Valid()
    ensures Level(ctx, a + b, k) == Level(ctx, a, k) + Level(ctx, b, k)
    decreases k
  {
    if k > 0 {
      LevelAppend(ctx, a, b, k - 1);
      NextAppend(ctx, Level(ctx, a, k - 1), Level(ctx, b, k - 1));
    }
  }

  lemma {:induction false} LevelShift(ctx: Context, ws: seq<Work>, k: nat)
    requires ctx.Valid()
    ensures Level(ctx, ws, k + 1) == Level(ctx, Next(ctx, ws), k)
  {
    if k > 0 {
      LevelShift(ctx, ws, k - 1);
    }
  }

  /** A level of a list is a level of its head's children followed by that of its tail. */
  lemma {:induction false} LevelSplit(ctx: Context, ws: seq<Work>, k: nat)
    requires ctx.Valid() && ws != []
    ensures Level(ctx, ws, k + 1) == Level(ctx, Children(ctx, ws[0]), k) + Level(ctx, ws[1..], k + 1)
  {
    hide Children;
    LevelShift(ctx, ws, k);
    LevelShift(ctx, ws[1..], k);
    LevelAppend(ctx, Children(ctx, ws[0]), Next(ctx, ws[1..]), k);
  }

  /** Where a path is found in its level. */
  ghost function Position(ctx: Context, ws: seq<Work>, p: seq<nat>): nat
    requires ctx.Valid() && IsPath(ctx, ws, p)
    decreases |p|, |ws|
  {
    if |p| == 1 then p[0]
    else if p[0] == 0 then Position(ctx, Children(ctx, ws[0]), p[1..])
    else
      var q := [p[0] - 1] + p[1..];
      assert q[1..] == p[1..] && ws[1..][q[0]] == ws[p[0]];
      |Level(ctx, Children(ctx, ws[0]), |p| - 2)| + Position(ctx, ws[1..], q)
  }

  /** The path at a position of a level. */
  ghost function PathAt(ctx: Context, ws: seq<Work>, k: nat, i: nat): seq<nat>
    requires ctx.Valid()
    decreases k, |ws|
  {
    if k == 0 then [i]
    else if ws == [] then [0]
    else
      var below := Level(ctx, Children(ctx, ws[0]), k - 1);
      if i < |below| then [0] + PathAt(ctx, Children(ctx, ws[0]), k - 1, i)
      else
        var p := PathAt(ctx, ws[1..], k, i - |below|);
        if p == [] then [] else [p[0] + 1] + p[1..]
  }

  lemma {:induction false} DownPath(ctx: Context, ws: seq<Work>, p: seq<nat>)
    requires ctx.Valid() && ws != [] && IsPath(ctx, Children(ctx, ws[0]), p)
    ensures p != [] && IsPath(ctx, ws, [0] + p) && End(ctx, ws, [0] + p) == End(ctx, Children(ctx, ws[0]), p)
    ensures Position(ctx, ws, [0] + p) == Position(ctx, Children(ctx, ws[0]), p)
  {
    hide Children;
    assert ([0] + p)[1..] == p;
  }

  lemma {:induction false} AcrossPath(ctx: Context, ws: seq<Work>, p: seq<nat>)
    requires ctx.Valid() && ws != [] && IsPath(ctx, ws[1..], p) && |p| > 1
    ensures var q := [p[0] + 1] + p[1..];
            && IsPath(ctx, ws, q) && End(ctx, ws, q) == End(ctx, ws[1..], p)
            && Position(ctx, ws, q) == |Level(ctx, Children(ctx, ws[0]), |p| - 2)| + Position(ctx, ws[1..], p)
  {
    hide Children, Level;
    var q := [p[0] + 1] + p[1..];
    assert q[1..] == p[1..] && ws[q[0]] == ws[1..][p[0]];
    assert [q[0] - 1] + q[1..] == p;
  }

  /** Each place in level `k` is the end of a path of `k + 1` links, found at that place. */
  lemma {:induction false} PlacesArePaths(ctx: Context, ws: seq<Work>, k: nat, i: nat)
    requires ctx.Valid() && i < |Level(ctx, ws, k)|
    ensures var p := PathAt(ctx, ws, k, i);
            && |p| == k + 1 && IsPath(ctx, ws, p) && End(ctx, ws, p) == Level(ctx, ws, k)[i] && Position(ctx, ws, p) == i
    decreases k, |ws|
  {
    hide Children, Level, IsPath, End, Position;
    if k == 0 {
      ShortPath(ctx, ws, i);
    } else if ws == [] {
      EmptyStart(ctx, k);
    } else {
      LevelSplit(ctx, ws, k - 1);
      var below := Level(ctx, Children(ctx, ws[0]), k - 1);
      if i < |below| {
        PlacesArePaths(ctx, Children(ctx, ws[0]), k - 1, i);
        DownPath(ctx, ws, PathAt(ctx, Children(ctx, ws[0]), k - 1, i));
      } else {
        PlacesArePaths(ctx, ws[1..], k, i - |below|);
        AcrossPath(ctx, ws, PathAt(ctx, ws[1..], k, i - |below|));
      }
    }
  }

  lemma {:induction false} ShortPath(ctx: Context, ws: seq<Work>, i: nat)
    requires ctx.Valid() && i < |Level(ctx, ws, 0)|
    ensures IsPath(ctx, ws, [i]) && End(ctx, ws, [i]) == Level(ctx, ws, 0)[i] && Position(ctx, ws, [i]) == i
  {
  }

  lemma {:induction false} EmptyStart(ctx: Context, k: nat)
    requires ctx.Valid()
    ensures Level(ctx, [], k) == []
  {
    if k > 0 {
      EmptyStart(ctx, k - 1);
    }
  }

  /** The path `p` is found at its position, and nowhere else leads to it. */
  ghost predicate HasPlace(ctx: Context, ws: seq<Work>, p: seq<nat>)
    requires ctx.Valid() && IsPath(ctx, ws, p)
  {
    var k := |p| - 1;
    && Position(ctx, ws, p) < |Level(ctx, ws, k)|
    && Level(ctx, ws, k)[Position(ctx, ws, p)] == End(ctx, ws, p)
    && PathAt(ctx, ws, k, Position(ctx, ws, p)) == p
  }

  lemma {:induction false} DownHasPlace(ctx: Context, ws: seq<Work>, p: seq<nat>)
    requires ctx.Valid() && ws != [] && IsPath(ctx, Children(ctx, ws[0]), p) && HasPlace(ctx, Children(ctx, ws[0]), p)
    ensures IsPath(ctx, ws, [0] + p) && HasPlace(ctx, ws, [0] + p)
  {
    hide Children, Level, IsPath, End, Position;
    DownPath(ctx, ws, p);
    LevelSplit(ctx, ws, |p| - 1);
  }

  lemma {:induction false} AcrossHasPlace(ctx: Context, ws: seq<Work>, p: seq<nat>)
    requires ctx.Valid() && ws != [] && IsPath(ctx, ws[1..], p) && |p| > 1 && HasPlace(ctx, ws[1..], p)
    ensures var q := [p[0] + 1] + p[1..]; IsPath(ctx, ws, q) && HasPlace(ctx, ws, q)
  {
    hide Children, Level, IsPath, End, Position;
    LevelSplit(ctx, ws, |p| - 2);
    AcrossPath(ctx, ws, p);
  }

  /** Each path of links has exactly one place in the level of its length. */
  lemma {:induction false} PathsHavePlaces(ctx: Context, ws: seq<Work>, p: seq<nat>)
    requires ctx.Valid() && IsPath(ctx, ws, p)
    ensures HasPlace(ctx, ws, p)
    decreases |p|, |ws|
  {
    if |p| == 1 {
      assert p == [p[0]];
      ShortPath(ctx, ws, p[0]);
    } else if p[0] == 0 {
      hide Children, HasPlace;
      assert p == [0] + p[1..];
      PathsHavePlaces(ctx, Children(ctx, ws[0]), p[1..]);
      DownHasPlace(ctx, ws, p[1..]);
    } else {
      hide Children, HasPlace;
      var q := [p[0] - 1] + p[1..];
      assert q[1..] == p[1..] && ws[1..][q[0]] == ws[p[0]];
      PathsHavePlaces(ctx, ws[1..], q);
      assert p == [q[0] + 1] + q[1..];
      AcrossHasPlace(ctx, ws, q);
    }
  }

  // ---------------------------------------------------------------------------------------------
  // Path counts

  /** What goes down along a path: the depth left, or the rank in an acyclic store. */
  ghost function Height(ctx: Context, rank: Cid -> nat, w: Work): nat {
    if ctx.limit.None? then rank(w.cid)
    else if ctx.limit.value > w.depth then ctx.limit.value - w.depth
    else 0
  }

  ghost predicate Bounded(ctx: Context, rank: Cid -> nat) {
    ctx.limit.Some? || Ranked(ctx.store, rank)
  }

  ghost predicate Below(ctx: Context, rank: Cid -> nat, ws: seq<Work>, height: nat) {
    ws != [] ==> Height(ctx, rank, ws[0]) < height && Below(ctx, rank, ws[1..], height)
  }

  lemma {:induction false} BelowAppend(ctx: Context, rank: Cid -> nat, a: seq<Work>, b: seq<Work>, height: nat)
    ensures Below(ctx, rank, a + b, height) <==> Below(ctx, rank, a, height) && Below(ctx, rank, b, height)
  {
    if a == [] {
      assert a + b == b;
    } else {
      assert (a + b)[1..] == a[1..] + b;
      hide Height;
      BelowAppend(ctx, rank, a[1..], b, height);
    }
  }

  lemma {:induction false} BelowRelax(ctx: Context, rank: Cid -> nat, ws: seq<Work>, h: nat, height: nat)
    requires Below(ctx, rank, ws, h) && h <= height
    ensures Below(ctx, rank, ws, height)
  {
    if ws != [] {
      BelowRelax(ctx, rank, ws[1..], h, height);
    }
  }

  lemma {:induction false} ToWorkBelow(ctx: Context, rank: Cid -> nat, links: seq<NamedLink>, w: Work)
    requires !ctx.Beyond(w.depth)
    requires ctx.limit.None? ==> forall l :: l in links ==> rank(l.1) < rank(w.cid)
    ensures Below(ctx, rank, ToWork(links, w.depth + 1, w.cid), Height(ctx, rank, w))
  {
    if links != [] {
      ToWorkBelow(ctx, rank, links[1..], w);
    }
  }

  lemma {:induction false} ChildrenBelow(ctx: Context, rank: Cid -> nat, w: Work)
    requires ctx.Valid() && Bounded(ctx, rank)
    ensures Below(ctx, rank, Children(ctx, w), Height(ctx, rank, w))
  {
    if !ctx.Beyond(w.depth) && ctx.Good(w.cid) {
      ExtractedLinksAreLinks(w.cid, ctx.store[w.cid].ipld.value);
      hide IpldLinks, Readable;
      forall l | l in ctx.LinksOf(w.cid) && ctx.limit.None?
        ensures rank(l.1) < rank(w.cid)
      {
        assert LinksTo(ctx.store[w.cid], l.1);
      }
      ToWorkBelow(ctx, rank, ctx.LinksOf(w.cid), w);
    }
  }

  /** The number of link paths starting in `ws`, with the paths of one link. */
  ghost function PathCount(ctx: Context, rank: Cid -> nat, ws: seq<Work>, height: nat): nat
    requires ctx.Valid() && Bounded(ctx, rank) && Below(ctx, rank, ws, height)
    decreases height, |ws|
  {
    if ws == [] then 0
    else
      ChildrenBelow(ctx, rank, ws[0]);
      1 + PathCount(ctx, rank, Children(ctx, ws[0]), Height(ctx, rank, ws[0])) + PathCount(ctx, rank, ws[1..], height)
  }

  lemma {:induction false} PathCountRelax(ctx: Context, rank: Cid -> nat, ws: seq<Work>, h: nat, height: nat)
    requires ctx.Valid() && Bounded(ctx, rank) && Below(ctx, rank, ws, h) && Below(ctx, rank, ws, height)
    ensures PathCount(ctx, rank, ws, h) == PathCount(ctx, rank, ws, height)
    decreases ws
  {
    if ws != [] {
      hide Height, Children, Ranked;
      PathCountRelax(ctx, rank, ws[1..], h, height);
    }
  }

  lemma {:induction false} PathCountAppend(ctx: Context, rank: Cid -> nat, a: seq<Work>, b: seq<Work>, height: nat)
    requires ctx.Valid() && Bounded(ctx, rank) && Below(ctx, rank, a, height) && Below(ctx, rank, b, height)
    ensures Below(ctx, rank, a + b, height)
    ensures PathCount(ctx, rank, a + b, height) == PathCount(ctx, rank, a, height) + PathCount(ctx, rank, b, height)
    decreases a
  {
    BelowAppend(ctx, rank, a, b, height);
    if a == [] {
      assert a + b == b;
    } else {
      assert (a + b)[1..] == a[1..] + b;
      hide Height, Children, Ranked;
      PathCountAppend(ctx, rank, a[1..], b, height);
    }
  }

  /** Each turn takes one path from the count. */
  lemma {:induction false} TurnTakesOnePath(ctx: Context, rank: Cid -> nat, st: State, height: nat)
    requires ctx.Valid() && Bounded(ctx, rank) && !ctx.unique
    requires st.queue != [] && !st.stopped && Below(ctx, rank, st.queue, height)
    ensures Below(ctx, rank, Turn(ctx, st).queue, height)
    ensures PathCount(ctx, rank, Turn(ctx, st).queue, height) == PathCount(ctx, rank, st.queue, height) - 1
  {
    hide Turn, Height, Ranked, Readable, IpldLinks;
    var w, rest := st.queue[0], st.queue[1..];
    TurnEffect(ctx, st);
    ChildrenBelow(ctx, rank, w);
    assert Turn(ctx, st).queue == rest + Children(ctx, w);
    hide Children;
    BelowRelax(ctx, rank, Children(ctx, w), Height(ctx, rank, w), height);
    PathCountRelax(ctx, rank, Children(ctx, w), Height(ctx, rank, w), height);
    PathCountAppend(ctx, rank, rest, Children(ctx, w), height);
  }
}
