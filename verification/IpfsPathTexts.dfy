/** Which texts are paths, with which root and segments, and which errors the others give. */
module IpfsPathTexts {
  import opened Common
  import opened IpfsPath

  // ---------------------------------------------------------------------------------------------
  // Roots

  /** A cid, bare or behind "/ipfs/" or "/ipld/". */
  predicate CidText(head: string, key: string) {
    SlashFree(key) && ((head == key && key != "") || head == "/ipfs/" + key || head == "/ipld/" + key)
  }

  predicate NameText(head: string, key: string) { SlashFree(key) && head == "/ipns/" + key }

  /** The root a text stands for: the cid or no cid; the peer the name reads as, directly or else as a
      cid holding its key; and only where neither reads, the domain. */
  predicate RootIs(t: Texts, head: string, key: string, root: Result<Root, ParseError>) {
    || (CidText(head, key) && root == if t.readCid(key).Some? then Ok(Ipld(t.readCid(key).value)) else Err(InvalidCid))
    || (NameText(head, key) && t.readPeer(key).Some? && root == Ok(Ipns(t.readPeer(key).value)))
    || (NameText(head, key) && t.readPeer(key).None? && t.cidPeer(key).Some? && root == Ok(Ipns(t.cidPeer(key).value)))
    || (NameText(head, key) && t.readPeer(key).None? && t.cidPeer(key).None? && root == Ok(Dns(key)))
  }

  lemma {:induction false} ProtocolPieces(protocol: string, s: string)
    requires SlashFree(protocol)
    ensures Split("/" + protocol + "/" + s) == ["", protocol] + Split(s)
  {
    SplitPrefixed(protocol, s);
    assert "/" + protocol + "/" + s == "" + "/" + (protocol + "/" + s);
  }

  /** The pieces of a text that starts with a root, and the root read from them. */
  lemma {:induction false} RootPieces(t: Texts, head: string, key: string, root: Result<Root, ParseError>, rest: seq<string>)
    requires RootIs(t, head, key, root)
    ensures var pieces := Split(head) + rest;
            ParseRoot(t, pieces) == match root case Err(e) => Err(e) case Ok(r) => Ok((r, rest))
  {
    hide Split;
    SplitSlashFree(key);
    var pieces := Split(head) + rest;
    if head == key && key != "" {
      assert pieces[0] == key && pieces[1..] == rest;
    } else {
      var protocol := if head == "/ipfs/" + key then "ipfs" else if head == "/ipld/" + key then "ipld" else "ipns";
      assert head == "/" + protocol + "/" + key;
      ProtocolPieces(protocol, key);
      assert pieces == ["", protocol, key] + rest;
      assert pieces[0] == "" && pieces[1] == protocol && pieces[2] == key && pieces[3..] == rest;
      DifferentProtocols(key);
    }
  }

  lemma {:induction false} DifferentProtocols(key: string)
    ensures "/ipfs/" + key != "/ipns/" + key && "/ipld/" + key != "/ipns/" + key
  {
    assert ("/ipfs/" + key)[3] == 'f' && ("/ipld/" + key)[3] == 'l' && ("/ipns/" + key)[3] == 'n';
  }

  // ---------------------------------------------------------------------------------------------
  // Segments

  ghost predicate Doubled(s: string) {
    exists i :: 0 <= i < |s| - 1 && s[i] == '/' && s[i + 1] == '/'
  }

  /** The text starts with a slash or has two in a row. */
  ghost predicate EmptySegment(s: string) {
    (s != "" && s[0] == '/') || Doubled(s)
  }

  lemma {:induction false} DoubledTail(s: string)
    requires s != ""
    ensures Doubled(s) <==> (|s| > 1 && s[0] == '/' && s[1] == '/') || Doubled(s[1..])
  {
    var u := s[1..];
    if i :| 0 <= i < |s| - 1 && s[i] == '/' && s[i + 1] == '/' {
      if i > 0 {
        assert u[i - 1] == '/' && u[i] == '/';
      }
    }
    if i :| 0 <= i < |u| - 1 && u[i] == '/' && u[i + 1] == '/' {
      assert s[i + 1] == '/' && s[i + 2] == '/';
    }
  }

  /** Some piece between the first and the last is empty. */
  ghost predicate EmptyBetween(pieces: seq<string>) {
    exists i :: 1 <= i < |pieces| - 1 && pieces[i] == ""
  }

  /** Some piece but the last is empty. */
  ghost predicate EmptyPiece(pieces: seq<string>) {
    (|pieces| > 1 && pieces[0] == "") || EmptyBetween(pieces)
  }

  lemma {:induction false} PrependPiece(piece: string, rest: seq<string>)
    requires rest != []
    ensures EmptyBetween([piece] + rest) <==> EmptyPiece(rest)
  {
    var pieces := [piece] + rest;
    if i :| 1 <= i < |pieces| - 1 && pieces[i] == "" {
      assert rest[i - 1] == "";
    }
    if i :| 1 <= i < |rest| - 1 && rest[i] == "" {
      assert pieces[i + 1] == "";
    }
    if |rest| > 1 && rest[0] == "" {
      assert pieces[1] == "";
    }
  }

  lemma {:induction false} ReplaceFirst(piece: string, rest: seq<string>)
    requires rest != []
    ensures EmptyBetween([piece] + rest[1..]) <==> EmptyBetween(rest)
  {
    var pieces := [piece] + rest[1..];
    assert forall i :: 1 <= i < |rest| ==> pieces[i] == rest[i];
  }

  lemma {:induction false} FirstPieceOf(s: string)
    ensures Split(s)[0] == "" <==> s == "" || s[0] == '/'
    ensures s == "" ==> Split(s) == [""]
    ensures s != "" && s[0] == '/' ==> |Split(s)| > 1
  {
  }

  lemma {:induction false} PiecesBetween(s: string)
    ensures EmptyBetween(Split(s)) <==> Doubled(s)
  {
    if s != "" {
      hide Split, Doubled, EmptyBetween;
      var u, rest := s[1..], Split(s[1..]);
      PiecesBetween(u);
      DoubledTail(s);
      SplitUnfolds(s);
      FirstPieceOf(u);
      if s[0] == '/' {
        PrependPiece("", rest);
      } else {
        ReplaceFirst([s[0]] + rest[0], rest);
      }
    }
  }

  lemma {:induction false} EmptyPieces(s: string)
    ensures EmptyPiece(Split(s)) <==> EmptySegment(s)
  {
    hide Split, Doubled, EmptyBetween;
    PiecesBetween(s);
    FirstPieceOf(s);
  }

  /** The pieces of the text, without a last one that is empty. */
  function Pieces(s: string): seq<string> {
    var pieces := Split(s);
    if pieces[|pieces| - 1] == "" then pieces[..|pieces| - 1] else pieces
  }

  lemma {:induction false} SegmentsOfText(s: string)
    ensures Segments(Split(s)) == if EmptySegment(s) then None else Some(Pieces(s))
  {
    EmptyPieces(s);
    SegmentsAre(Split(s));
    LeadingPieces(Split(s));
    hide Split, EmptySegment, EmptyPiece;
    assert Split(s)[..|Split(s)|] == Split(s);
  }

  lemma {:induction false} LeadingPieces(pieces: seq<string>)
    requires pieces != []
    ensures EmptyPiece(pieces) <==> Leading(pieces) + 1 < |pieces|
    ensures Leading(pieces) + 1 == |pieces| ==> pieces[|pieces| - 1] == ""
    ensures Leading(pieces) == |pieces| ==> pieces[|pieces| - 1] != ""
  {
    var n := Leading(pieces);
    if n + 1 < |pieces| {
      assert pieces[n] == "";
    }
  }

  /** Good segments are the pieces of their text. */
  lemma {:induction false} PiecesOfSegments(segments: seq<string>)
    requires GoodSegments(segments) && segments != []
    ensures Pieces(Join(segments)) == segments && !EmptySegment(Join(segments))
  {
    SplitJoined(segments);
    SegmentsOfText(Join(segments));
    GoodSegmentsStay(segments);
  }

  /** Appending a text appends its pieces, or fails if one but the last is empty; the empty text appends
      nothing. */
  lemma {:induction false} AppendsText(path: seq<string>, s: string)
    ensures SubPath(path, s) == if EmptySegment(s) then None else Some(path + Pieces(s))
  {
    hide Split, EmptySegment, Pieces;
    SegmentsOfText(s);
    if s == "" {
      NothingToAppend();
      assert path + [] == path;
    }
  }

  lemma {:induction false} NothingToAppend()
    ensures Pieces("") == [] && !EmptySegment("")
  {
  }

  // ---------------------------------------------------------------------------------------------
  // Whole texts

  /** A text that starts with a root: a bad cid is an error whatever follows; after a good root the rest
      is its segments, or an error if one but the last is empty. */
  lemma {:induction false} ParsesRoot(t: Texts, head: string, key: string, root: Result<Root, ParseError>, tail: string)
    requires RootIs(t, head, key, root)
    ensures Parse(t, head) == match root case Err(e) => Err(e) case Ok(r) => Ok(Path(r, []))
    ensures Parse(t, head + "/" + tail)
            == match root
               case Err(e) => Err(e)
               case Ok(r) => if EmptySegment(tail) then Err(InvalidPath) else Ok(Path(r, Pieces(tail)))
  {
    hide Split, RootIs, Pieces, EmptySegment, ParseRoot;
    RootPieces(t, head, key, root, []);
    assert Split(head) + [] == Split(head);
    RootPieces(t, head, key, root, Split(tail));
    SplitAtSlash(head, tail);
    SegmentsOfText(tail);
    NoSegments();
  }

  lemma {:induction false} NoSegments()
    ensures Segments([]) == Some([])
  {
  }

  /** A name parses as the peer it reads as, directly or else in cid form, and as a domain exactly when it
      reads as neither. */
  lemma {:induction false} NamesParse(t: Texts, key: string, segments: seq<string>, p: PeerId)
    requires SlashFree(key) && GoodSegments(segments)
    ensures var s := "/ipns/" + key + if segments == [] then "" else "/" + Join(segments);
            && Parse(t, s).Ok? && Parse(t, s).value.segments == segments
            && (Parse(t, s).value.root == Ipns(p) <==> t.readPeer(key) == Some(p) || (t.readPeer(key).None? && t.cidPeer(key) == Some(p)))
            && (Parse(t, s).value.root == Dns(key) <==> t.readPeer(key).None? && t.cidPeer(key).None?)
  {
    hide Parse, Pieces, EmptySegment, Join;
    var head := "/ipns/" + key;
    var root := if t.readPeer(key).Some? then Ipns(t.readPeer(key).value) else if t.cidPeer(key).Some? then Ipns(t.cidPeer(key).value) else Dns(key);
    ParsesRoot(t, head, key, Ok(root), Join(segments));
    if segments == [] {
      assert head + "" == head;
    } else {
      PiecesOfSegments(segments);
      assert head + ("/" + Join(segments)) == head + "/" + Join(segments);
    }
  }

  /** A path below a cid parses exactly when its cid does, in all three spellings. */
  lemma {:induction false} CidsParse(t: Texts, head: string, key: string, segments: seq<string>, c: Cid)
    requires CidText(head, key) && GoodSegments(segments)
    ensures var s := head + if segments == [] then "" else "/" + Join(segments);
            && (Parse(t, s) == Ok(Path(Ipld(c), segments)) <==> t.readCid(key) == Some(c))
            && (Parse(t, s) == Err(InvalidCid) <==> t.readCid(key).None?)
  {
    hide Parse, Pieces, EmptySegment, Join, CidText;
    var root := if t.readCid(key).Some? then Ok(Ipld(t.readCid(key).value)) else Err(InvalidCid);
    ParsesRoot(t, head, key, root, Join(segments));
    if segments == [] {
      assert head + "" == head;
    } else {
      PiecesOfSegments(segments);
      assert head + ("/" + Join(segments)) == head + "/" + Join(segments);
    }
  }

  /** The empty text, a slash with nothing but a protocol behind it, and any other protocol are no paths. */
  lemma {:induction false} NoPaths(t: Texts, protocol: string, rest: string)
    requires SlashFree(protocol)
    ensures Parse(t, "") == Err(InvalidPath)
    ensures Parse(t, "/" + protocol) == Err(InvalidPath)
    ensures protocol != "ipfs" && protocol != "ipld" && protocol != "ipns" ==> Parse(t, "/" + protocol + "/" + rest) == Err(InvalidPath)
  {
    FirstPieceOf("");
    SplitSlashFree(protocol);
    SplitAtSlash("", protocol);
    assert "" + "/" + protocol == "/" + protocol;
    ProtocolPieces(protocol, rest);
    hide Split, Segments, CidRoot, NameRoot;
    var pieces := ["", protocol] + Split(rest);
    assert pieces[0] == "" && pieces[1] == protocol;
  }

  ghost predicate NoPath(s: string) {
    || s == "" || (exists protocol :: SlashFree(protocol) && s == "/" + protocol)
    || exists protocol, rest :: SlashFree(protocol) && protocol !in {"ipfs", "ipld", "ipns"} && s == "/" + protocol + "/" + rest
  }

  ghost predicate StartsWithRoot(s: string, head: string, key: string) {
    (CidText(head, key) || NameText(head, key)) && (s == head || exists tail :: s == head + "/" + tail)
  }

  lemma {:induction false} BehindProtocol(protocol: string, v: string) returns (head: string, key: string)
    requires protocol == "ipfs" || protocol == "ipld" || protocol == "ipns"
    ensures StartsWithRoot("/" + protocol + "/" + v, head, key)
  {
    var a, b := CutAtSlash(v);
    head, key := "/" + protocol + "/" + a, a;
    assert protocol == "ipfs" ==> head == "/ipfs/" + key;
    assert protocol == "ipld" ==> head == "/ipld/" + key;
    assert protocol == "ipns" ==> head == "/ipns/" + key;
    if v == a + "/" + b {
      assert "/" + protocol + "/" + v == head + "/" + b;
    }
  }

  /** Every text is no path or starts with a root. */
  lemma {:induction false} EveryText(s: string) returns (head: string, key: string)
    ensures NoPath(s) || StartsWithRoot(s, head, key)
  {
    head, key := "", "";
    if s != "" {
      if s[0] != '/' {
        var a, b := CutAtSlash(s);
        head, key := a, a;
      } else {
        var u := s[1..];
        var protocol, v := CutAtSlash(u);
        hide StartsWithRoot;
        if u == protocol {
          assert s == "/" + protocol;
        } else {
          assert s == "/" + protocol + "/" + v;
          if protocol in {"ipfs", "ipld", "ipns"} {
            head, key := BehindProtocol(protocol, v);
          }
        }
      }
    }
  }

  /** The text up to its first slash, and what follows it. */
  lemma {:induction false} CutAtSlash(s: string) returns (a: string, b: string)
    ensures SlashFree(a) && (s == a || s == a + "/" + b)
    ensures s != "" && s[0] != '/' ==> a != ""
  {
    if s == "" {
      a, b := "", "";
    } else if s[0] == '/' {
      a, b := "", s[1..];
      assert s == "" + "/" + b;
    } else {
      var a1, b1 := CutAtSlash(s[1..]);
      a, b := [s[0]] + a1, b1;
      assert s == [s[0]] + s[1..];
      assert s[1..] == a1 + "/" + b1 ==> s == a + "/" + b;
    }
  }

  /** How a path is printed: cids behind "/ipfs/", peers and domains behind "/ipns/", then each segment
      behind a slash. */
  lemma {:induction false} PrintsAs(t: Texts, root: Root, segments: seq<string>)
    ensures var tail := if segments == [] then "" else "/" + Join(segments);
            Print(t, Path(root, segments))
            == match root
               case Ipld(c) => "/ipfs/" + t.cidText(c) + tail
               case Ipns(p) => "/ipns/" + t.peerText(p) + tail
               case Dns(name) => "/ipns/" + name + tail
  {
    hide Join;
    var (protocol, key) := RootKey(t, root);
    var head := "" + "/" + (protocol + "/" + key);
    assert protocol == "ipfs" ==> head == "/ipfs/" + key;
    assert protocol == "ipns" ==> head == "/ipns/" + key;
    assert head + ("/" + Join(segments)) == head + "/" + Join(segments);
    assert head + "" == head;
  }

  lemma {:induction false} JoinsWithSlashes(segments: seq<string>, last: string)
    requires segments != []
    ensures Join(segments + [last]) == Join(segments) + "/" + last
  {
    var all := segments + [last];
    if |segments| == 1 {
      assert all[1..] == [last];
    } else {
      assert all[1..] == segments[1..] + [last];
      JoinsWithSlashes(segments[1..], last);
      assert segments[0] + "/" + (Join(segments[1..]) + "/" + last) == segments[0] + "/" + Join(segments[1..]) + "/" + last;
    }
  }
}
