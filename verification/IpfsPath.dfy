/** Paths of slash-separated segments below a cid, a peer or a domain. */
module IpfsPath {
  import opened Common

  // ---------------------------------------------------------------------------------------------
  // Splitting and joining at slashes

  function Split(s: string): (pieces: seq<string>)
    ensures pieces != []
  {
    if s == "" then [""]
    else
      var rest := Split(s[1..]);
      if s[0] == '/' then [""] + rest else [[s[0]] + rest[0]] + rest[1..]
  }

  function Join(pieces: seq<string>): string {
    if pieces == [] then "" else if |pieces| == 1 then pieces[0] else pieces[0] + "/" + Join(pieces[1..])
  }

  predicate SlashFree(s: string) { '/' !in s }

  lemma {:induction false} SplitPieces(s: string)
    ensures forall i :: 0 <= i < |Split(s)| ==> SlashFree(Split(s)[i])
  {
    if s != "" {
      SplitPieces(s[1..]);
      var rest := Split(s[1..]);
      assert SlashFree(rest[0]);
      assert forall i :: 0 < i < |rest| ==> SlashFree(rest[i]);
    }
  }

  lemma {:induction false} SplitUnfolds(s: string)
    requires s != ""
    ensures Split(s) == var rest := Split(s[1..]); if s[0] == '/' then [""] + rest else [[s[0]] + rest[0]] + rest[1..]
  {
  }

  /** A slash separates what is split before and after it. */
  lemma {:induction false} SplitAtSlash(a: string, b: string)
    ensures Split(a + "/" + b) == Split(a) + Split(b)
    decreases a
  {
    var s := a + "/" + b;
    if a == "" {
      assert s == "/" + b && s[1..] == b;
    } else {
      hide Split;
      assert s[0] == a[0] && s[1..] == a[1..] + "/" + b;
      SplitUnfolds(s);
      SplitUnfolds(a);
      SplitAtSlash(a[1..], b);
      var rest := Split(a[1..]);
      if a[0] == '/' {
        Assoc([""], rest, Split(b));
      } else {
        assert (rest + Split(b))[1..] == rest[1..] + Split(b);
        Assoc([[a[0]] + rest[0]], rest[1..], Split(b));
      }
    }
  }

  lemma {:induction false} SplitSlashFree(s: string)
    requires SlashFree(s)
    ensures Split(s) == [s]
  {
    if s != "" {
      assert s == [s[0]] + s[1..];
      SplitSlashFree(s[1..]);
    }
  }

  lemma {:induction false} SplitJoined(pieces: seq<string>)
    requires pieces != [] && forall i :: 0 <= i < |pieces| ==> SlashFree(pieces[i])
    ensures Split(Join(pieces)) == pieces
  {
    SplitSlashFree(pieces[0]);
    if |pieces| == 1 {
      assert pieces == [pieces[0]];
    } else {
      SplitJoined(pieces[1..]);
      SplitAtSlash(pieces[0], Join(pieces[1..]));
      assert pieces == [pieces[0]] + pieces[1..];
    }
  }

  // ---------------------------------------------------------------------------------------------
  // Segments

  predicate GoodSegment(s: string) { s != "" && SlashFree(s) }

  predicate GoodSegments(segments: seq<string>) {
    forall i :: 0 <= i < |segments| ==> GoodSegment(segments[i])
  }

  /** The segments that pieces stand for: all of them non-empty, but for a last one that is dropped. */
  function Segments(pieces: seq<string>): Option<seq<string>> {
    if pieces == [] then Some([])
    else if pieces[0] == "" then if |pieces| == 1 then Some([]) else None
    else
      match Segments(pieces[1..])
      case None => None
      case Some(rest) => Some([pieces[0]] + rest)
  }

  /** How many pieces come before the first empty one. */
  function Leading(pieces: seq<string>): (n: nat)
    ensures n <= |pieces| && (n < |pieces| ==> pieces[n] == "")
    ensures forall i :: 0 <= i < n ==> pieces[i] != ""
  {
    if pieces == [] || pieces[0] == "" then 0 else 1 + Leading(pieces[1..])
  }

  lemma {:induction false} SegmentsAre(pieces: seq<string>)
    ensures Segments(pieces) == if Leading(pieces) + 1 >= |pieces| then Some(pieces[..Leading(pieces)]) else None
  {
    if pieces != [] && pieces[0] != "" {
      SegmentsAre(pieces[1..]);
      var n := Leading(pieces[1..]);
      assert pieces[..n + 1] == [pieces[0]] + pieces[1..][..n];
    }
  }

  class SlashedPath {
    var path: seq<string>

    ghost predicate Valid()
      reads this
    {
      GoodSegments(path)
    }

    constructor (path: seq<string>)
      ensures this.path == path
    {
      this.path := path;
    }

    /** Pushes pieces up to the first empty one, which must be the last. */
    method PushSplit(pieces: seq<string>) returns (ok: bool)
      requires Valid() && forall i :: 0 <= i < |pieces| ==> SlashFree(pieces[i])
      modifies this
      ensures Valid()
      ensures ok <==> Segments(pieces).Some?
      ensures path == old(path) + pieces[..Leading(pieces)]
      ensures ok ==> path == old(path) + Segments(pieces).value
    {
      SegmentsAre(pieces);
      var i := 0;
      assert path == old(path) + pieces[..0];
      while i < |pieces|
        invariant i <= Leading(pieces) && Valid() && path == old(path) + pieces[..i]
      {
        var piece := pieces[i];
        i := i + 1;
        if piece == "" {
          return i == |pieces|;
        }
        path := path + [piece];
        assert pieces[..i] == pieces[..i - 1] + [piece];
      }
      ok := true;
    }

    /** Pushes a string of segments. */
    method PushPath(s: string) returns (ok: bool)
      requires Valid()
      modifies this
      ensures Valid()
      ensures ok <==> SubPath(old(path), s).Some?
      ensures ok ==> path == SubPath(old(path), s).value
      ensures !ok ==> path == old(path) + Split(s)[..Leading(Split(s))]
    {
      if s == "" {
        return true;
      }
      SplitPieces(s);
      ok := PushSplit(Split(s));
    }

    method Shift(n: nat)
      requires Valid() && n <= |path|
      modifies this
      ensures Valid() && path == old(path)[n..]
    {
      path := path[n..];
    }

    method Truncate(len: nat)
      requires Valid()
      modifies this
      ensures Valid() && path == if len <= |old(path)| then old(path)[..len] else old(path)
    {
      if len < |path| {
        path := path[..len];
      }
    }
  }

  /** The path with the given segments appended. */
  function SubPath(path: seq<string>, s: string): Option<seq<string>> {
    if s == "" then Some(path)
    else
      match Segments(Split(s))
      case None => None
      case Some(segments) => Some(path + segments)
  }

  // ---------------------------------------------------------------------------------------------
  // Appending twice

  function SubPathTwice(path: seq<string>, a: string, b: string): Option<seq<string>> {
    match SubPath(path, a)
    case None => None
    case Some(p) => SubPath(p, b)
  }

  lemma {:induction false} SegmentsAppend(a: seq<string>, b: seq<string>)
    requires b != []
    ensures Segments(a + b) == if Leading(a) < |a| then None else match Segments(b) case None => None case Some(rest) => Some(a + rest)
  {
    if a == [] {
      assert a + b == b;
      if Segments(b).Some? {
        assert [] + Segments(b).value == Segments(b).value;
      }
    } else {
      assert (a + b)[1..] == a[1..] + b;
      SegmentsAppend(a[1..], b);
      if Segments(b).Some? {
        assert a == [a[0]] + a[1..];
        Assoc([a[0]], a[1..], Segments(b).value);
      }
    }
  }

  /** The last piece is empty exactly when the string is empty or ends in a slash. */
  lemma {:induction false} LastPiece(s: string)
    ensures Split(s)[|Split(s)| - 1] == "" <==> s == "" || s[|s| - 1] == '/'
  {
    if s != "" {
      LastPiece(s[1..]);
      var rest := Split(s[1..]);
      if |s| > 1 {
        assert s[1..][|s| - 2] == s[|s| - 1];
      }
      if s[0] == '/' {
        assert Split(s)[|Split(s)| - 1] == rest[|rest| - 1];
      } else if |rest| > 1 {
        assert Split(s)[|Split(s)| - 1] == rest[|rest| - 1];
        OnePiece(s[1..]);
      } else {
        OnePiece(s[1..]);
      }
    }
  }

  /** A string that is not split has no slash. */
  lemma {:induction false} OnePiece(s: string)
    ensures |Split(s)| == 1 <==> SlashFree(s)
  {
    if s != "" {
      OnePiece(s[1..]);
      assert s == [s[0]] + s[1..];
    }
  }

  ghost predicate AppendsAtOnce(a: string) {
    forall path: seq<string>, b: string :: SubPathTwice(path, a, b) == SubPath(path, a + "/" + b)
  }

  lemma {:induction false} AppendOnce(path: seq<string>, a: string, b: string)
    requires Segments(Split(a)).None? || (a != "" && a[|a| - 1] != '/')
    ensures SubPathTwice(path, a, b) == SubPath(path, a + "/" + b)
  {
    SplitAtSlash(a, b);
    SegmentsAppend(Split(a), Split(b));
    SegmentsAre(Split(a));
    LastPiece(a);
    if Segments(Split(a)).Some? {
      assert Split(a)[..|Split(a)|] == Split(a);
      if b == "" {
        assert Segments(Split(b)) == Some([]);
        assert Split(a) + [] == Split(a);
      } else if Segments(Split(b)).Some? {
        Assoc(path, Split(a), Segments(Split(b)).value);
      }
    }
  }

  /** Appending two strings one after the other is appending them with a slash between, for every path
      and every second string, if and only if the first is invalid itself, or is neither empty nor
      ends in a slash. */
  lemma {:induction false} AppendTwiceLaw(a: string)
    ensures AppendsAtOnce(a) <==> Segments(Split(a)).None? || (a != "" && a[|a| - 1] != '/')
  {
    if Segments(Split(a)).None? || (a != "" && a[|a| - 1] != '/') {
      forall path: seq<string>, b: string
        ensures SubPathTwice(path, a, b) == SubPath(path, a + "/" + b)
      {
        AppendOnce(path, a, b);
      }
    } else {
      SplitAtSlash(a, "q");
      SplitSlashFree("q");
      LastPiece(a);
      SegmentsAre(Split(a));
      SegmentsAppend(Split(a), ["q"]);
      assert Segments(["q"]) == Some(["q"] + []);
      assert SubPathTwice([], a, "q").Some?;
      assert SubPath([], a + "/" + "q").None?;
    }
  }

  // ---------------------------------------------------------------------------------------------
  // Whole paths as text

  type PeerId = Bytes

  datatype Root = Ipld(cid: Cid) | Ipns(peer: PeerId) | Dns(name: string)

  datatype Path = Path(root: Root, segments: seq<string>)

  /** How cids and peers are written and read; `cidPeer` reads a peer from a cid holding its key. */
  datatype Texts = Texts(
    cidText: Cid -> string,
    readCid: string -> Option<Cid>,
    peerText: PeerId -> string,
    readPeer: string -> Option<PeerId>,
    cidPeer: string -> Option<PeerId>)
  {
    /** What is written reads back, and holds no slash. */
    ghost predicate Valid() {
      && (forall c :: readCid(cidText(c)) == Some(c) && SlashFree(cidText(c)))
      && (forall p :: readPeer(peerText(p)) == Some(p) && SlashFree(peerText(p)))
    }
  }

  datatype ParseError = InvalidPath | InvalidCid

  /** The root behind "/ipns/": a peer in either form, or else a domain. */
  function NameRoot(t: Texts, key: string): Root {
    if t.readPeer(key).Some? then Ipns(t.readPeer(key).value)
    else if t.cidPeer(key).Some? then Ipns(t.cidPeer(key).value)
    else Dns(key)
  }

  function CidRoot(t: Texts, key: string): Result<Root, ParseError> {
    match t.readCid(key)
    case None => Err(InvalidCid)
    case Some(c) => Ok(Ipld(c))
  }

  /** The root and the pieces after it. */
  function ParseRoot(t: Texts, pieces: seq<string>): Result<(Root, seq<string>), ParseError>
    requires pieces != []
  {
    if pieces[0] != "" then
      match CidRoot(t, pieces[0])
      case Err(e) => Err(e)
      case Ok(root) => Ok((root, pieces[1..]))
    else if |pieces| < 3 then Err(InvalidPath)
    else if pieces[1] == "ipfs" || pieces[1] == "ipld" then
      match CidRoot(t, pieces[2])
      case Err(e) => Err(e)
      case Ok(root) => Ok((root, pieces[3..]))
    else if pieces[1] == "ipns" then Ok((NameRoot(t, pieces[2]), pieces[3..]))
    else Err(InvalidPath)
  }

  function Parse(t: Texts, s: string): Result<Path, ParseError> {
    match ParseRoot(t, Split(s))
    case Err(e) => Err(e)
    case Ok((root, rest)) =>
      match Segments(rest)
      case None => Err(InvalidPath)
      case Some(segments) => Ok(Path(root, segments))
  }

  /** Parses by pushing the pieces after the root onto an empty path. */
  method FromString(t: Texts, s: string) returns (r: Result<Path, ParseError>)
    ensures r == Parse(t, s)
    ensures r.Ok? ==> GoodSegments(r.value.segments)
  {
    var pieces := Split(s);
    var parsed := ParseRoot(t, pieces);
    if parsed.Err? {
      return Err(parsed.error);
    }
    var (root, rest) := parsed.value;
    SplitPieces(s);
    hide Split;
    var path := new SlashedPath([]);
    var ok := path.PushSplit(rest);
    assert forall x: seq<string> :: [] + x == x;
    r := if ok then Ok(Path(root, path.path)) else Err(InvalidPath);
  }

  function RootKey(t: Texts, root: Root): (string, string) {
    match root
    case Ipld(c) => ("ipfs", t.cidText(c))
    case Ipns(p) => ("ipns", t.peerText(p))
    case Dns(name) => ("ipns", name)
  }

  function Print(t: Texts, p: Path): string {
    var (protocol, key) := RootKey(t, p.root);
    var root := "" + "/" + (protocol + "/" + key);
    if p.segments == [] then root else root + "/" + Join(p.segments)
  }

  /** A path that parsing can produce. */
  ghost predicate Parsed(t: Texts, p: Path) {
    && GoodSegments(p.segments)
    && (p.root.Dns? ==> SlashFree(p.root.name) && NameRoot(t, p.root.name) == p.root)
  }

  lemma {:induction false} ParseGivesParsed(t: Texts, s: string)
    requires Parse(t, s).Ok?
    ensures Parsed(t, Parse(t, s).value)
  {
    SplitPieces(s);
    var pieces := Split(s);
    hide Split;
    var rest := ParseRoot(t, pieces).value.1;
    SegmentsAre(rest);
  }

  lemma {:induction false} PrintedPieces(t: Texts, p: Path)
    requires t.Valid() && Parsed(t, p)
    ensures var (protocol, key) := RootKey(t, p.root);
            Split(Print(t, p)) == [""] + ([protocol] + [key]) + p.segments
  {
    var (protocol, key) := RootKey(t, p.root);
    var root := "" + "/" + (protocol + "/" + key);
    SplitSlashFree("");
    SplitSlashFree(protocol);
    SplitSlashFree(key);
    SplitAtSlash(protocol, key);
    SplitAtSlash("", protocol + "/" + key);
    hide Split, Join;
    assert Split(root) == [""] + ([protocol] + [key]);
    if p.segments == [] {
      assert Split(root) + [] == Split(root);
    } else {
      SplitJoined(p.segments);
      SplitAtSlash(root, Join(p.segments));
    }
  }

  /** Good segments are what they stand for. */
  lemma {:induction false} GoodSegmentsStay(segments: seq<string>)
    requires GoodSegments(segments)
    ensures Segments(segments) == Some(segments)
  {
    SegmentsAre(segments);
    assert Leading(segments) == |segments|;
    assert segments[..|segments|] == segments;
  }

  /** Parsing a printed parsed path gives the same path. */
  lemma {:induction false} PrintThenParse(t: Texts, p: Path)
    requires t.Valid() && Parsed(t, p)
    ensures Parse(t, Print(t, p)) == Ok(p)
  {
    PrintedPieces(t, p);
    GoodSegmentsStay(p.segments);
    var (protocol, key) := RootKey(t, p.root);
    var pieces := [""] + ([protocol] + [key]) + p.segments;
    hide Split, Print, Segments;
    assert pieces[0] == "" && pieces[1] == protocol && pieces[2] == key && pieces[3..] == p.segments;
  }

  /** So printing loses nothing of any text that parses. */
  lemma {:induction false} ParsePrintParse(t: Texts, s: string)
    requires t.Valid() && Parse(t, s).Ok?
    ensures Parse(t, Print(t, Parse(t, s).value)) == Parse(t, s)
    ensures GoodSegments(Parse(t, s).value.segments)
  {
    ParseGivesParsed(t, s);
    PrintThenParse(t, Parse(t, s).value);
  }

  // ---------------------------------------------------------------------------------------------
  // Spellings of the same path

  lemma {:induction false} SplitPrefixed(protocol: string, s: string)
    requires SlashFree(protocol)
    ensures Split("" + "/" + (protocol + "/" + s)) == ["", protocol] + Split(s)
  {
    SplitAtSlash("", protocol + "/" + s);
    SplitAtSlash(protocol, s);
    SplitSlashFree("");
    SplitSlashFree(protocol);
    hide Split;
    Assoc([""], [protocol], Split(s));
  }

  lemma {:induction false} FirstPiece(s: string)
    requires s != "" && s[0] != '/'
    ensures Split(s)[0] != ""
  {
  }

  lemma {:induction false} SpelledWith(t: Texts, protocol: string, s: string)
    requires s != "" && s[0] != '/' && (protocol == "ipfs" || protocol == "ipld")
    ensures Parse(t, "" + "/" + (protocol + "/" + s)) == Parse(t, s)
  {
    hide Split, Segments, CidRoot;
    FirstPiece(s);
    SplitPrefixed(protocol, s);
    var pieces := ["", protocol] + Split(s);
    assert pieces[0] == "" && pieces[1] == protocol && pieces[2] == Split(s)[0] && pieces[3..] == Split(s)[1..];
  }

  /** A path that starts with a cid is the same behind "/ipfs/" and "/ipld/". */
  lemma {:induction false} SpellingsAgree(t: Texts, s: string)
    requires s != "" && s[0] != '/'
    ensures Parse(t, "" + "/" + ("ipfs" + "/" + s)) == Parse(t, s)
    ensures Parse(t, "" + "/" + ("ipld" + "/" + s)) == Parse(t, s)
  {
    hide Parse;
    SpelledWith(t, "ipfs", s);
    SpelledWith(t, "ipld", s);
  }

  lemma {:induction false} RestIsFull(t: Texts, s: string)
    requires Parse(t, s).Ok? && s != "" && s[|s| - 1] != '/'
    ensures var rest := ParseRoot(t, Split(s)).value.1;
            Leading(rest) == |rest| && Segments(rest) == Some(rest) && Parse(t, s).value.segments == rest
  {
    var pieces := Split(s);
    LastPiece(s);
    hide Split;
    var rest := ParseRoot(t, pieces).value.1;
    SegmentsAre(rest);
    assert rest != [] ==> rest[|rest| - 1] == pieces[|pieces| - 1];
    assert rest[..|rest|] == rest;
  }

  /** One slash at the end of a path that parses changes nothing. */
  lemma {:induction false} TrailingSlash(t: Texts, s: string)
    requires Parse(t, s).Ok? && s != "" && s[|s| - 1] != '/'
    ensures Parse(t, s + "/" + "") == Parse(t, s)
  {
    RestIsFull(t, s);
    SplitAtSlash(s, "");
    SplitSlashFree("");
    hide Split, Leading, ParseRoot;
    RootOfMore(t, Split(s), [""]);
    var rest := ParseRoot(t, Split(s)).value.1;
    assert Segments([""]) == Some([]);
    SegmentsAppend(rest, [""]);
    assert rest + [] == rest;
  }

  /** A second one makes it invalid: slashes are not merged. */
  lemma {:induction false} SecondTrailingSlash(t: Texts, s: string)
    requires Parse(t, s).Ok? && s != "" && s[|s| - 1] != '/'
    ensures Parse(t, s + "/" + "/").Err?
  {
    RestIsFull(t, s);
    SplitAtSlash(s, "/");
    SplitAtSlash("", "");
    SplitSlashFree("");
    assert "" + "/" + "" == "/" && [""] + [""] == ["", ""];
    hide Split, Leading, ParseRoot;
    RootOfMore(t, Split(s), ["", ""]);
    assert Segments(["", ""]).None?;
    SegmentsAppend(ParseRoot(t, Split(s)).value.1, ["", ""]);
  }

  lemma {:induction false} RootOfMore(t: Texts, pieces: seq<string>, more: seq<string>)
    requires pieces != [] && ParseRoot(t, pieces).Ok?
    ensures ParseRoot(t, pieces + more) == Ok((ParseRoot(t, pieces).value.0, ParseRoot(t, pieces).value.1 + more))
  {
    var all := pieces + more;
    if pieces[0] != "" {
      assert all[1..] == pieces[1..] + more;
    } else {
      assert all[3..] == pieces[3..] + more;
    }
  }
}
