/** The walker object: fields and paths patched in place, block after block. */
module Walker {
  import opened Common
  import opened UnixFs
  import opened FileVisit
  import opened Walk
  import opened WalkTree
  import opened WalkRun

  /** What the walker is currently looking at. */
  class InnerEntry {
    var cid: Cid
    var kind: Kind
    var path: Path
    var meta: Metadata
    var depth: nat

    ghost function View(): Entry
      reads this
    {
      Entry(cid, kind, path, meta, depth)
    }

    constructor (cid: Cid, kind: Kind, name: string, meta: Metadata, depth: nat)
      ensures View() == Entry(cid, kind, PushName([], name), meta, depth)
    {
      this.cid, this.kind, this.meta, this.depth := cid, kind, meta, depth;
      this.path := PushName([], name);
    }

    /** Pops the path until there is room for `name` at `depth`; `ok` is false where an assert fails. */
    method SetPath(name: string, depth: nat)
      returns (ok: bool)
      modifies this`path, this`depth
      ensures ok <==> CanSetPath(old(View()), name, depth)
      ensures ok ==> View() == old(View()).(path := NewPath(old(path), name, depth), depth := depth)
    {
      if this.depth != |path| + 1 {
        return false;
      }
      while this.depth >= depth && this.depth > 0
        invariant this.depth == |path| + 1 && path <= old(path)
        invariant |path| == |old(path)| || |path| + 2 >= depth
        decreases this.depth
      {
        if path == [] {
          return false;
        }
        path := path[..|path| - 1];
        this.depth := this.depth - 1;
      }
      path := PushName(path, name);
      this.depth := depth;
      ok := this.depth == |path| + 1;
    }

    /** Moves on to a named directory, shard, file or symlink. */
    method MoveTo(p: Pending, kind: Kind, meta: Metadata)
      returns (ok: bool)
      modifies this
      ensures ok <==> Become(Some(old(View())), p, kind, kind, meta).Some?
      ensures ok ==> Some(View()) == Become(Some(old(View())), p, kind, kind, meta)
    {
      if BusyFile(this.kind) {
        return false;
      }
      cid := p.cid;
      this.kind := kind;
      ok := SetPath(p.name, p.depth);
      this.meta := meta;
    }

    /** Pops the path until the depth is `to`; `ok` is false where the path is too short. */
    method Climb(to: nat)
      returns (ok: bool)
      modifies this`path, this`depth
      ensures ok <==> to <= old(depth) && old(depth) - to <= |old(path)|
      ensures ok ==> depth == to && path == old(path)[..|old(path)| - (old(depth) - to)]
    {
      while depth > to
        invariant |path| <= |old(path)| && path == old(path)[..|path|]
        invariant depth <= old(depth) && old(depth) - depth == |old(path)| - |path|
        invariant depth == old(depth) || depth >= to
      {
        if path == [] {
          return false;
        }
        path := path[..|path| - 1];
        depth := depth - 1;
      }
      ok := depth == to;
    }

    /** Moves on to a continuation bucket: climbs back to the directory it belongs to. */
    method MoveToBucket(p: Pending)
      returns (ok: bool)
      requires p.name == ""
      modifies this
      ensures ok <==> BecomeBucket(old(View()), p).Some?
      ensures ok ==> Some(View()) == BecomeBucket(old(View()), p)
    {
      match kind {
        case BucketAtRoot =>
          ok := depth == p.depth;
        case RootBucket | Bucket | FileKind(None, _) | SymlinkKind =>
          cid := p.cid;
          kind := Bucket;
          ok := Climb(p.depth);
        case RootDirectory | PlainDirectory | FileKind(Some(_), _) =>
          ok := false;
      }
    }
  }

  /** A step does not look at whether there was more to come. */
  lemma {:induction false} MoreIsNotRead(s: State, b: PbBlock)
    ensures Step(s, b) == Step(s.(more := false), b)
  {
    hide Start, Continue, PushLinks, Become, BecomeBucket;
  }

  class Walker {
    var current: InnerEntry?
    var next: Option<Pending>
    var pending: seq<Pending>
    var more: bool

    ghost function View(): State
      reads this, current
    {
      State(if current == null then None else Some(current.View()), next, pending, more)
    }

    constructor (root: Cid, name: string)
      ensures View() == Initial(root, name)
    {
      current, pending, more := null, [], true;
      next := Some(Pending(root, name, if name == "" then 1 else 2));
    }

    /** The next cid to load and those to prefetch; `None` where the source panics. */
    method PendingLinks()
      returns (r: Option<(Cid, seq<Cid>)>)
      ensures r == NextLinks(View())
    {
      var cids, n := [], |pending|;
      assert pending[..n] == pending;
      while n > 0
        invariant 0 <= n <= |pending|
        invariant StackOrder(pending) == cids + StackOrder(pending[..n])
      {
        n := n - 1;
        assert pending[..n + 1][..n] == pending[..n];
        cids := cids + [pending[n].cid];
      }
      assert cids == StackOrder(pending);
      if current != null && BusyFile(current.kind) {
        var visit := current.kind.visit.value;
        if visit.pending == [] {
          return None;
        }
        var links := VisitLinks(visit);
        return Some((links.0, links.1 + (if next.Some? then [next.value.cid] else []) + cids));
      }
      r := if next.Some? then Some((next.value.cid, cids)) else None;
    }

    /** Pushes the links of a directory or shard, last one first. */
    method PushAll(links: seq<PbLink>, depth: nat, sharded: bool)
      returns (r: Outcome<(), WalkError>)
      modifies this`pending
      ensures match PushLinks(old(pending), links, depth, sharded)
              case AllPushed(p) => r == Done(()) && pending == p
              case BadLink(p, e) => r == Failed(e) && pending == p
              case PushPanic => r == Panicked
    {
      var n := |links|;
      assert links[..n] == links;
      while n > 0
        invariant 0 <= n <= |links|
        invariant PushLinks(old(pending), links, depth, sharded) == PushLinks(pending, links[..n], depth, sharded)
      {
        n := n - 1;
        assert links[..n + 1][..n] == links[..n];
        match ConvertLink(links[n], n, depth, sharded) {
          case Panicked =>
            return Panicked;
          case Failed(e) =>
            return Failed(e);
          case Done(p) =>
            pending := pending + [p];
        }
      }
      r := Done(());
    }

    /** Pops the next entry, if there is one, into the look-ahead slot. */
    method PopNext()
      modifies this`next, this`pending, this`more
      ensures View() == var popped := Popped(old(View()).current, old(pending));
                        if old(pending) == [] then popped.(next := old(next), more := old(more)) else popped
    {
      if pending != [] {
        next, pending, more := Some(pending[|pending| - 1]), pending[..|pending| - 1], true;
      }
    }

    /** The current entry becomes the one for `p`, a new object for the root. */
    method Enter(p: Pending, kind: Kind, rootKind: Kind, meta: Metadata)
      returns (ok: bool)
      modifies this`current, current
      ensures current != null && (current == old(current) || fresh(current))
      ensures var e := Become(old(View()).current, p, kind, rootKind, meta);
              (ok <==> e.Some?) && (ok ==> Some(current.View()) == e)
    {
      if current == null {
        current := new InnerEntry(p.cid, rootKind, p.name, meta, p.depth);
        ok := true;
      } else {
        ok := current.MoveTo(p, kind, meta);
      }
    }

    /** One step of the walk with the block of the next link. */
    method Next(b: PbBlock)
      returns (r: Outcome<Event, WalkError>)
      modifies this, current
      ensures current == old(current) || fresh(current)
      ensures match Step(old(View()), b)
              case Stepped(s, event) => r == Done(event) && View() == s
              case Errored(s, e) => r == Failed(e) && View() == s
              case StepPanic => r == Panicked
    {
      hide StepDirectory, StepShard, StepFileStart, StepSymlink, StepFile;
      MoreIsNotRead(View(), b);
      more := false;
      if current != null && BusyFile(current.kind) {
        r := ContinueFile(b);
        return;
      }
      if !b.Parsed? {
        return Failed(ParsingFailed);
      }
      match b.node.typ {
        case Directory => r := EnterDirectory(b.node);
        case HamtShard => r := EnterShard(b.node);
        case Raw | File => r := EnterFile(b.node);
        case MetadataNode => r := Failed(UnsupportedType(MetadataNode));
        case Symlink => r := EnterSymlink(b.node);
      }
    }

    method ContinueFile(b: PbBlock)
      returns (r: Outcome<Event, WalkError>)
      requires current != null && BusyFile(current.kind) && !more
      modifies this`more, current
      ensures match StepFile(old(View()), old(current.View()), b)
              case Stepped(s, event) => r == Done(event) && View() == s
              case Errored(s, e) => r == Failed(e) && View() == s
              case StepPanic => r == Panicked
    {
      var size := current.kind.size;
      var visit := current.kind.visit.value;
      current.kind := FileKind(None, size);
      match Continue(visit, b) {
        case Panicked => r := Panicked;
        case Failed(e) => r := if e.Unreadable? then Panicked else Failed(FileFailed(e));
        case Done(v) =>
          current.kind := FileKind(v.rest, size);
          more := v.rest.Some? || next.Some?;
          r := Done(FileEvent(Segment(v.bytes, false, v.rest.None?), current.cid, current.path, current.meta, size));
      }
    }

    method EnterDirectory(n: Node)
      returns (r: Outcome<Event, WalkError>)
      requires !more
      modifies this, current
      ensures current == old(current) || fresh(current)
      ensures match StepDirectory(old(View()), n)
              case Stepped(s, event) => r == Done(event) && View() == s
              case Errored(s, e) => r == Failed(e) && View() == s
              case StepPanic => r == Panicked
    {
      if !DirectorySupported(n) {
        return Failed(UnsupportedDirectory);
      }
      if next.None? {
        return Panicked;
      }
      var p := next.value;
      next := None;
      var pushed := PushAll(n.links, p.depth, false);
      if !pushed.Done? {
        return if pushed.Panicked? then Panicked else Failed(pushed.error);
      }
      PopNext();
      var root := current == null;
      var ok := Enter(p, PlainDirectory, RootDirectory, n.meta);
      if !ok {
        return Panicked;
      }
      r := Done(if root then RootDirectoryEvent(current.cid, current.path, current.meta)
                else DirectoryEvent(current.cid, current.path, current.meta));
    }

    method EnterShard(n: Node)
      returns (r: Outcome<Event, WalkError>)
      requires !more
      modifies this, current
      ensures current == old(current) || fresh(current)
      ensures match StepShard(old(View()), n)
              case Stepped(s, event) => r == Done(event) && View() == s
              case Errored(s, e) => r == Failed(e) && View() == s
              case StepPanic => r == Panicked
    {
      if !ShardSupported(n) {
        return Failed(UnsupportedShard);
      }
      if next.None? {
        return Panicked;
      }
      var p := next.value;
      next := None;
      var pushed := PushAll(n.links, p.depth, true);
      if !pushed.Done? {
        return if pushed.Panicked? then Panicked else Failed(pushed.error);
      }
      PopNext();
      if current != null && p.name == "" {
        var ok := current.MoveToBucket(p);
        return if ok then Done(BucketEvent(current.cid, current.path)) else Panicked;
      }
      var ok := Enter(p, RootBucket, BucketAtRoot, n.meta);
      r := if ok then Done(RootDirectoryEvent(current.cid, current.path, current.meta)) else Panicked;
    }

    method EnterFile(n: Node)
      returns (r: Outcome<Event, WalkError>)
      requires !more
      modifies this, current
      ensures current == old(current) || fresh(current)
      ensures match StepFileStart(old(View()), n)
              case Stepped(s, event) => r == Done(event) && View() == s
              case Errored(s, e) => r == Failed(e) && View() == s
              case StepPanic => r == Panicked
    {
      match Start(n, None) {
        case Panicked => r := Panicked;
        case Failed(e) => r := if e.Unreadable? then Panicked else Failed(FileFailed(e));
        case Done(v) =>
          if next.None? {
            return Panicked;
          }
          var p := next.value;
          next := None;
          var kind := FileKind(v.rest, v.fileSize);
          var ok := Enter(p, kind, kind, v.meta);
          if !ok {
            return Panicked;
          }
          PopNext();
          more := more || v.rest.Some?;
          r := Done(FileEvent(Segment(v.bytes, true, v.rest.None?), current.cid, current.path, current.meta, v.fileSize));
      }
    }

    method EnterSymlink(n: Node)
      returns (r: Outcome<Event, WalkError>)
      requires !more
      modifies this, current
      ensures current == old(current) || fresh(current)
      ensures match StepSymlink(old(View()), n)
              case Stepped(s, event) => r == Done(event) && View() == s
              case Errored(s, e) => r == Failed(e) && View() == s
              case StepPanic => r == Panicked
    {
      if next.None? {
        return Panicked;
      }
      var p := next.value;
      next := None;
      var ok := Enter(p, SymlinkKind, SymlinkKind, n.meta);
      if !ok {
        return Panicked;
      }
      PopNext();
      r := Done(SymlinkEvent(n.data, current.cid, current.path, current.meta));
    }
  }

  /** What has been reported and loaded, followed by what is left, is the whole walk. */
  ghost predicate Remaining(t: Tree, name: string, e: Entry, todo: seq<Item>, ft: seq<Placed>, events: seq<Event>, loaded: seq<Cid>) {
    && WalkEvents(t, name) == events + RestEvents(e, todo, ft)
    && Blocks(t) == loaded + RestBlocks(todo, ft)
    && (Safe(t) <==> TodoSafe(AtDirectory(e), todo))
  }

  lemma {:induction false} RemainingStep(t: Tree, name: string, events: seq<Event>, loaded: seq<Cid>, cid: Cid, event: Event,
                                         e: Entry, todo: seq<Item>, ft: seq<Placed>, e': Entry, todo': seq<Item>, ft': seq<Placed>)
    requires Remaining(t, name, e, todo, ft, events, loaded) && Accounted(cid, e, todo, ft, event, e', todo', ft')
    ensures Remaining(t, name, e', todo', ft', events + [event], loaded + [cid])
    ensures |RestBlocks(todo', ft')| < |RestBlocks(todo, ft)|
  {
    hide WalkEvents, RestEvents, RestBlocks, Blocks, Safe, TodoSafe;
    Assoc(events, [event], RestEvents(e', todo', ft'));
    Assoc(loaded, [cid], RestBlocks(todo', ft'));
  }

  /** Walks a whole tree, loading each block the walker asks for, until it has no more. */
  method WalkAll(store: map<Cid, PbBlock>, root: Cid, name: string, ghost t: Tree)
    returns (completed: bool, events: seq<Event>, loaded: seq<Cid>)
    requires root == TreeCid(t) && TreeStored(store, t) && WellNamed(t) && RootName(name)
    ensures completed <==> Safe(t)
    ensures completed ==> events == WalkEvents(t, name) && loaded == Blocks(t)
    ensures events <= WalkEvents(t, name) && loaded <= Blocks(t)
  {
    hide Step, Walking, RestEvents, RestBlocks, TodoSafe, Safe, WalkEvents, Blocks, NextLinks, TreeStored, WellNamed, Accounted;
    var walker := new Walker(root, name);
    ghost var todo, ft := RootWalks(store, t, name);
    var first := walker.Next(store[root]);
    events, loaded := [first.value], [root];
    while walker.more
      invariant walker.current != null && fresh(walker.current)
      invariant Walking(store, walker.View(), todo, ft)
      invariant Remaining(t, name, walker.View().current.value, todo, ft, events, loaded)
      decreases |RestBlocks(todo, ft)|
    {
      ghost var s := walker.View();
      ghost var todo', ft' := StepWalks(store, s, todo, ft);
      var links := walker.PendingLinks();
      var cid := links.value.0;
      var r := walker.Next(store[cid]);
      if r.Panicked? {
        return false, events, loaded;
      }
      RemainingStep(t, name, events, loaded, cid, r.value, s.current.value, todo, ft, walker.View().current.value, todo', ft');
      events, loaded, todo, ft := events + [r.value], loaded + [cid], todo', ft';
    }
    WalkedOut(store, walker.View(), todo, ft);
    completed := true;
  }
}
