/** The resumable walk over a UnixFS tree as a transition function on plain states. */
module Walk {
  import opened Common
  import opened UnixFs
  import opened FileVisit

  /** A path as its names; a path of n names has n + 1 ancestors counting itself. */
  type Path = seq<string>

  datatype Pending = Pending(cid: Cid, name: string, depth: nat)

  datatype Kind =
    | RootDirectory
    | BucketAtRoot
    | RootBucket
    | Bucket
    | PlainDirectory
    | FileKind(visit: Option<Visit>, size: nat)
    | SymlinkKind

  datatype Entry = Entry(cid: Cid, kind: Kind, path: Path, meta: Metadata, depth: nat)

  datatype State = State(current: Option<Entry>, next: Option<Pending>, pending: seq<Pending>, more: bool)

  datatype Segment = Segment(bytes: Bytes, first: bool, last: bool)

  /** What one step of the walk reports. */
  datatype Event =
    | BucketEvent(cid: Cid, path: Path)
    | DirectoryEvent(cid: Cid, path: Path, meta: Metadata)
    | RootDirectoryEvent(cid: Cid, path: Path, meta: Metadata)
    | FileEvent(segment: Segment, cid: Cid, path: Path, meta: Metadata, size: nat)
    | SymlinkEvent(target: Bytes, cid: Cid, path: Path, meta: Metadata)

  datatype WalkError =
    | UnsupportedType(typ: NodeType)
    | ParsingFailed
    | InvalidCidInLink(nth: nat)
    | FileFailed(reason: ReadFailed)
    | UnsupportedDirectory
    | UnsupportedShard

  datatype StepResult = Stepped(state: State, event: Event) | Errored(state: State, error: WalkError) | StepPanic

  function PushName(path: Path, name: string): Path { if name == "" then path else path + [name] }

  /** The state of a new walker. */
  function Initial(root: Cid, name: string): State {
    State(None, Some(Pending(root, name, if name == "" then 1 else 2)), [], true)
  }

  /** A directory or shard link as a pending entry. Bad cids fail, bad names panic. */
  function ConvertLink(link: PbLink, nth: nat, depth: nat, sharded: bool): Outcome<Pending, WalkError> {
    if link.cid.None? then Failed(InvalidCidInLink(nth))
    else if sharded then
      if |link.name| < 2 || '/' in link.name[2..] then Panicked
      else if |link.name| == 2 then Done(Pending(link.cid.value, "", depth))
      else Done(Pending(link.cid.value, link.name[2..], depth + 1))
    else
      if link.name == "" || '/' in link.name then Panicked
      else Done(Pending(link.cid.value, link.name, depth + 1))
  }

  datatype Pushed = AllPushed(pending: seq<Pending>) | BadLink(pending: seq<Pending>, error: WalkError) | PushPanic

  /** Pushes the links last first, so that the first is popped first. */
  function PushLinks(pending: seq<Pending>, links: seq<PbLink>, depth: nat, sharded: bool): Pushed
    decreases |links|
  {
    if links == [] then AllPushed(pending)
    else
      var last := |links| - 1;
      match ConvertLink(links[last], last, depth, sharded)
      case Panicked => PushPanic
      case Failed(e) => BadLink(pending, e)
      case Done(p) => PushLinks(pending + [p], links[..last], depth, sharded)
  }

  /** Whether `set_path` runs through its asserts, and the path it leaves. */
  predicate CanSetPath(e: Entry, name: string, depth: nat) {
    e.depth == |e.path| + 1 && 2 <= depth <= |e.path| + 2 && name != ""
  }

  function NewPath(path: Path, name: string, depth: nat): Path
    requires 2 <= depth <= |path| + 2
  {
    path[..depth - 2] + [name]
  }

  predicate BusyFile(k: Kind) { k.FileKind? && k.visit.Some? }

  /** The current entry turned into the next named one, `None` for a panic. */
  function Become(current: Option<Entry>, p: Pending, kind: Kind, rootKind: Kind, meta: Metadata): Option<Entry> {
    match current
    case None => Some(Entry(p.cid, rootKind, PushName([], p.name), meta, p.depth))
    case Some(e) =>
      if BusyFile(e.kind) || !CanSetPath(e, p.name, p.depth) then None
      else Some(Entry(p.cid, kind, NewPath(e.path, p.name, p.depth), meta, p.depth))
  }

  /** The current entry when a continuation bucket follows it, `None` for a panic. */
  function BecomeBucket(e: Entry, p: Pending): Option<Entry> {
    match e.kind
    case BucketAtRoot => if e.depth == p.depth then Some(e) else None
    case RootBucket | Bucket | FileKind(None, _) | SymlinkKind =>
      if p.name == "" && p.depth <= e.depth && e.depth - p.depth <= |e.path|
      then Some(e.(cid := p.cid, kind := Bucket, path := e.path[..|e.path| - (e.depth - p.depth)], depth := p.depth))
      else None
    case RootDirectory | PlainDirectory | FileKind(Some(_), _) => None
  }

  function Popped(current: Option<Entry>, pending: seq<Pending>): State {
    if pending == [] then State(current, None, [], false)
    else State(current, Some(pending[|pending| - 1]), pending[..|pending| - 1], true)
  }

  function StepFile(s: State, e: Entry, b: PbBlock): StepResult
    requires BusyFile(e.kind)
  {
    match Continue(e.kind.visit.value, b)
    case Panicked => StepPanic
    case Failed(r) =>
      // an unreadable later block is turned into an error nobody expects
      if r.Unreadable? then StepPanic
      else Errored(State(Some(e.(kind := FileKind(None, e.kind.size))), s.next, s.pending, false), FileFailed(r))
    case Done(v) =>
      Stepped(
        State(Some(e.(kind := FileKind(v.rest, e.kind.size))), s.next, s.pending, v.rest.Some? || s.next.Some?),
        FileEvent(Segment(v.bytes, false, v.rest.None?), e.cid, e.path, e.meta, e.kind.size))
  }

  function StepDirectory(s: State, n: Node): StepResult {
    if !DirectorySupported(n) then Errored(s.(more := false), UnsupportedDirectory)
    else if s.next.None? then StepPanic
    else
      var p := s.next.value;
      match PushLinks(s.pending, n.links, p.depth, false)
      case PushPanic => StepPanic
      case BadLink(pending, e) => Errored(State(s.current, None, pending, false), e)
      case AllPushed(pending) =>
        match Become(s.current, p, PlainDirectory, RootDirectory, n.meta)
        case None => StepPanic
        case Some(e) =>
          Stepped(Popped(Some(e), pending),
                  if s.current.None? then RootDirectoryEvent(e.cid, e.path, e.meta) else DirectoryEvent(e.cid, e.path, e.meta))
  }

  function StepShard(s: State, n: Node): StepResult {
    if !ShardSupported(n) then Errored(s.(more := false), UnsupportedShard)
    else if s.next.None? then StepPanic
    else
      var p := s.next.value;
      match PushLinks(s.pending, n.links, p.depth, true)
      case PushPanic => StepPanic
      case BadLink(pending, e) => Errored(State(s.current, None, pending, false), e)
      case AllPushed(pending) =>
        if s.current.Some? && p.name == "" then
          match BecomeBucket(s.current.value, p)
          case None => StepPanic
          case Some(e) => Stepped(Popped(Some(e), pending), BucketEvent(e.cid, e.path))
        else
          match Become(s.current, p, RootBucket, BucketAtRoot, n.meta)
          case None => StepPanic
          case Some(e) => Stepped(Popped(Some(e), pending), RootDirectoryEvent(e.cid, e.path, e.meta))
  }

  function StepFileStart(s: State, n: Node): StepResult {
    match Start(n, None)
    case Panicked => StepPanic
    case Failed(r) => if r.Unreadable? then StepPanic else Errored(s.(more := false), FileFailed(r))
    case Done(v) =>
      if s.next.None? then StepPanic
      else
        var kind := FileKind(v.rest, v.fileSize);
        match Become(s.current, s.next.value, kind, kind, v.meta)
        case None => StepPanic
        case Some(e) =>
          var popped := Popped(Some(e), s.pending);
          Stepped(popped.(more := popped.more || v.rest.Some?),
                  FileEvent(Segment(v.bytes, true, v.rest.None?), e.cid, e.path, e.meta, v.fileSize))
  }

  function StepSymlink(s: State, n: Node): StepResult {
    if s.next.None? then StepPanic
    else
      match Become(s.current, s.next.value, SymlinkKind, SymlinkKind, n.meta)
      case None => StepPanic
      case Some(e) => Stepped(Popped(Some(e), s.pending), SymlinkEvent(n.data, e.cid, e.path, e.meta))
  }

  /** One call of the walker with the next block. */
  function Step(s: State, b: PbBlock): StepResult {
    if s.current.Some? && BusyFile(s.current.value.kind) then StepFile(s, s.current.value, b)
    else if !b.Parsed? then Errored(s.(more := false), ParsingFailed)
    else
      match b.node.typ
      case Directory => StepDirectory(s, b.node)
      case HamtShard => StepShard(s, b.node)
      case Raw | File => StepFileStart(s, b.node)
      case MetadataNode => Errored(s.(more := false), UnsupportedType(MetadataNode))
      case Symlink => StepSymlink(s, b.node)
  }

  /** The cids on the stack, the one popped first in front. */
  function StackOrder(pending: seq<Pending>): seq<Cid> {
    if pending == [] then []
    else [pending[|pending| - 1].cid] + StackOrder(pending[..|pending| - 1])
  }

  /** The cid of the block the next step needs and those to prefetch, `None` when asking for it panics. */
  function NextLinks(s: State): Option<(Cid, seq<Cid>)> {
    if s.current.Some? && BusyFile(s.current.value.kind) then
      var v := s.current.value.kind.visit.value;
      if v.pending == [] then None
      else
        var (first, rest) := VisitLinks(v);
        Some((first, rest + (if s.next.Some? then [s.next.value.cid] else []) + StackOrder(s.pending)))
    else if s.next.None? then None
    else Some((s.next.value.cid, StackOrder(s.pending)))
  }

  function NextCid(s: State): Option<Cid> {
    match NextLinks(s)
    case None => None
    case Some((first, _)) => Some(first)
  }

  /** After any error the walk is over. */
  lemma ErrorsEndTheWalk(s: State, b: PbBlock)
    ensures Step(s, b).Errored? ==> !Step(s, b).state.more
  {
  }
}
