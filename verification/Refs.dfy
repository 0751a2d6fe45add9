/** The reference walk: links of documents, and one turn of the worklist. */
module Refs {
  import opened Common
  import opened Ipld

  /** A link with its name, which only dag-pb links have. */
  type NamedLink = (Option<string>, Cid)

  // ---------------------------------------------------------------------------------------------
  // The links of one document

  /** A dag-pb link as decoded to IPLD: either without a hash, or a hash with a name other than "/". */
  predicate ReadableLink(v: Ipld) {
    && v.Map?
    && (match Get(v.fields, "Hash")
        case None => true
        case Some(hash) =>
          && hash.Link?
          && var name := Get(v.fields, "Name");
             name.Some? && name.value.Text? && name.value.s != "/")
  }

  predicate ReadableLinks(vs: seq<Ipld>) {
    vs != [] ==> ReadableLink(vs[0]) && ReadableLinks(vs[1..])
  }

  /** A document from which the walk can read the links without giving up on purpose. */
  predicate Readable(cid: Cid, v: Ipld) {
    cid.codec == DAG_PB && v.Map? ==>
      && Get(v.fields, "Links").Some?
      && Get(v.fields, "Links").value.List?
      && ReadableLinks(Get(v.fields, "Links").value.items)
  }

  function DagPbLinks(vs: seq<Ipld>): seq<NamedLink>
    requires ReadableLinks(vs)
  {
    if vs == [] then []
    else
      (match Get(vs[0].fields, "Hash")
       case None => []
       case Some(hash) => [(Some(Get(vs[0].fields, "Name").value.s), hash.cid)])
      + DagPbLinks(vs[1..])
  }

  function Unnamed(cids: seq<Cid>): seq<NamedLink> {
    if cids == [] then [] else [(None, cids[0])] + Unnamed(cids[1..])
  }

  function IpldLinks(cid: Cid, v: Ipld): seq<NamedLink>
    requires Readable(cid, v)
  {
    if cid.codec != DAG_PB then Unnamed(Links(v))
    else if v.Map? then DagPbLinks(Get(v.fields, "Links").value.items)
    else []
  }

  lemma {:induction false} UnnamedAre(cids: seq<Cid>)
    ensures |Unnamed(cids)| == |cids|
    ensures forall i :: 0 <= i < |cids| ==> Unnamed(cids)[i] == (None, cids[i])
  {
    if cids != [] {
      UnnamedAre(cids[1..]);
    }
  }

  lemma {:induction false} DagPbLinksAreLinks(vs: seq<Ipld>)
    requires ReadableLinks(vs)
    ensures forall l :: l in DagPbLinks(vs) ==> l.0.Some? && l.1 in ItemLinks(vs)
  {
    if vs != [] {
      DagPbLinksAreLinks(vs[1..]);
      var hash := Get(vs[0].fields, "Hash");
      if hash.Some? {
        GetLinks(vs[0].fields, "Hash", hash.value.cid);
      }
    }
  }

  /** An entry of "Links" with a hash, which gives the link. */
  predicate GivesLink(v: Ipld, l: NamedLink) {
    && v.Map? && Get(v.fields, "Hash") == Some(Link(l.1))
    && l.0.Some? && Get(v.fields, "Name") == Some(Text(l.0.value))
  }

  predicate HasHash(v: Ipld) { v.Map? && Get(v.fields, "Hash").Some? }

  /** The places of the entries with a hash, counted from `start`. */
  function HashPlaces(vs: seq<Ipld>, start: nat): seq<nat> {
    if vs == [] then [] else (if HasHash(vs[0]) then [start] else []) + HashPlaces(vs[1..], start + 1)
  }

  lemma {:induction false} PlacesAre(vs: seq<Ipld>, start: nat, i: nat)
    ensures i in HashPlaces(vs, start) <==> start <= i < start + |vs| && HasHash(vs[i - start])
    decreases vs
  {
    if vs != [] {
      var at, rest := HashPlaces(vs, start), HashPlaces(vs[1..], start + 1);
      assert at == (if HasHash(vs[0]) then [start] else []) + rest;
      hide HasHash, HashPlaces;
      assert i in at <==> (i == start && HasHash(vs[0])) || i in rest;
      PlacesAre(vs[1..], start + 1, i);
      if start < i < start + |vs| {
        assert vs[1..][i - start - 1] == vs[i - start];
      }
    }
  }

  lemma {:induction false} PlacesInOrder(vs: seq<Ipld>, start: nat)
    ensures forall k, l :: 0 <= k < l < |HashPlaces(vs, start)| ==> HashPlaces(vs, start)[k] < HashPlaces(vs, start)[l]
    ensures forall k :: 0 <= k < |HashPlaces(vs, start)| ==> start <= HashPlaces(vs, start)[k]
    decreases vs
  {
    if vs != [] {
      hide HasHash;
      PlacesInOrder(vs[1..], start + 1);
    }
  }

  lemma {:induction false} ExtractsHead(vs: seq<Ipld>)
    requires ReadableLinks(vs) && vs != []
    ensures if HasHash(vs[0])
            then |DagPbLinks(vs)| == 1 + |DagPbLinks(vs[1..])| && GivesLink(vs[0], DagPbLinks(vs)[0]) && DagPbLinks(vs)[1..] == DagPbLinks(vs[1..])
            else DagPbLinks(vs) == DagPbLinks(vs[1..])
  {
  }

  lemma {:induction false} PlacesGive(vs: seq<Ipld>, start: nat, k: nat)
    requires ReadableLinks(vs)
    ensures |DagPbLinks(vs)| == |HashPlaces(vs, start)|
    ensures k < |DagPbLinks(vs)| ==>
              var i := HashPlaces(vs, start)[k]; start <= i < start + |vs| && GivesLink(vs[i - start], DagPbLinks(vs)[k])
    decreases vs
  {
    if vs != [] {
      ExtractsHead(vs);
      var at, rest := HashPlaces(vs, start), HashPlaces(vs[1..], start + 1);
      assert HasHash(vs[0]) ==> at == [start] + rest;
      assert !HasHash(vs[0]) ==> at == rest;
      hide HasHash, GivesLink, DagPbLinks, HashPlaces;
      var below := if HasHash(vs[0]) then k - 1 else k;
      PlacesGive(vs[1..], start + 1, if below < 0 then 0 else below);
      if 0 <= below < |rest| {
        assert at[k] == rest[below] && DagPbLinks(vs)[k] == DagPbLinks(vs[1..])[below];
        assert vs[at[k] - start] == vs[1..][rest[below] - start - 1];
      }
    }
  }

  /** The extracted links are those of exactly the entries with a hash, whatever their names, in order:
      `at` lists the places of these entries. */
  lemma {:induction false} EveryHashIsExtracted(vs: seq<Ipld>) returns (at: seq<nat>)
    requires ReadableLinks(vs)
    ensures forall i: nat :: i in at <==> i < |vs| && HasHash(vs[i])
    ensures forall k, l :: 0 <= k < l < |at| ==> at[k] < at[l]
    ensures |DagPbLinks(vs)| == |at|
    ensures forall k :: 0 <= k < |at| ==> at[k] < |vs| && GivesLink(vs[at[k]], DagPbLinks(vs)[k])
  {
    hide HasHash, GivesLink, DagPbLinks, HashPlaces;
    at := HashPlaces(vs, 0);
    PlacesInOrder(vs, 0);
    forall i: nat
      ensures i in at <==> i < |vs| && HasHash(vs[i])
    {
      PlacesAre(vs, 0, i);
    }
    PlacesGive(vs, 0, 0);
    forall k | 0 <= k < |at|
      ensures at[k] < |vs| && GivesLink(vs[at[k]], DagPbLinks(vs)[k])
    {
      PlacesGive(vs, 0, k);
    }
  }

  /** The links of a dag-pb document are those of exactly the entries of its "Links" with a hash, in order;
      a document that is no map has none. */
  lemma {:induction false} DagPbLinksAreAll(cid: Cid, v: Ipld) returns (items: seq<Ipld>, at: seq<nat>)
    requires Readable(cid, v) && cid.codec == DAG_PB
    ensures v.Map? ==> Get(v.fields, "Links") == Some(List(items))
    ensures !v.Map? ==> items == [] && IpldLinks(cid, v) == []
    ensures forall i: nat :: i in at <==> i < |items| && HasHash(items[i])
    ensures forall k, l :: 0 <= k < l < |at| ==> at[k] < at[l]
    ensures |IpldLinks(cid, v)| == |at|
    ensures forall k :: 0 <= k < |at| ==> at[k] < |items| && GivesLink(items[at[k]], IpldLinks(cid, v)[k])
  {
    items := if v.Map? then Get(v.fields, "Links").value.items else [];
    hide HasHash, GivesLink;
    if v.Map? {
      at := EveryHashIsExtracted(items);
    } else {
      at := [];
    }
  }

  /** Every extracted link is a link of the document; outside dag-pb every link is extracted, in order. */
  lemma {:induction false} ExtractedLinksAreLinks(cid: Cid, v: Ipld)
    requires Readable(cid, v)
    ensures forall l :: l in IpldLinks(cid, v) ==> l.1 in Links(v) && (l.0.Some? <==> cid.codec == DAG_PB)
    ensures cid.codec != DAG_PB ==>
              && |IpldLinks(cid, v)| == |Links(v)|
              && forall i :: 0 <= i < |Links(v)| ==> IpldLinks(cid, v)[i] == (None, Links(v)[i])
  {
    if cid.codec != DAG_PB {
      UnnamedAre(Links(v));
    } else if v.Map? {
      var items := Get(v.fields, "Links").value.items;
      DagPbLinksAreLinks(items);
      forall l | l in IpldLinks(cid, v)
        ensures l.1 in Links(v)
      {
        GetLinks(v.fields, "Links", l.1);
      }
    }
  }

  lemma {:induction false} GivesOne(v: Ipld, a: NamedLink, b: NamedLink)
    requires GivesLink(v, a) && GivesLink(v, b)
    ensures a == b && HasHash(v)
  {
  }

  /** A document has a link exactly when an entry of its "Links" gives it, or, outside dag-pb, when the
      iterator over its values meets it. */
  lemma {:induction false} LinksByDocument(cid: Cid, v: Ipld, l: NamedLink)
    requires Readable(cid, v)
    ensures cid.codec == DAG_PB ==>
              (l in IpldLinks(cid, v)
               <==> v.Map? && exists i :: 0 <= i < |Get(v.fields, "Links").value.items| && GivesLink(Get(v.fields, "Links").value.items[i], l))
    ensures cid.codec != DAG_PB ==> (l in IpldLinks(cid, v) <==> l.0.None? && l.1 in StackLinks([v]))
  {
    if cid.codec == DAG_PB {
      var items, at := DagPbLinksAreAll(cid, v);
      var links := IpldLinks(cid, v);
      hide GivesLink, HasHash, IpldLinks;
      if l in links {
        var k :| 0 <= k < |links| && links[k] == l;
        assert GivesLink(items[at[k]], l);
      }
      if i :| v.Map? && 0 <= i < |items| && GivesLink(items[i], l) {
        GivesOne(items[i], l, l);
        var k :| 0 <= k < |at| && at[k] == i;
        GivesOne(items[i], links[k], l);
      }
    } else {
      LinksAreIterated(v);
      UnnamedAre(Links(v));
      hide Links, StackLinks;
      if l in IpldLinks(cid, v) {
        var k :| 0 <= k < |Links(v)| && IpldLinks(cid, v)[k] == l;
      }
      if l.0.None? && l.1 in Links(v) {
        var k :| 0 <= k < |Links(v)| && Links(v)[k] == l.1;
        assert IpldLinks(cid, v)[k] == l;
      }
    }
  }

  // ---------------------------------------------------------------------------------------------
  // The worklist

  /** A block to visit and the link that leads to it. */
  datatype Work = Work(depth: nat, cid: Cid, source: Cid, name: Option<string>)

  /** What the walk yields. `Missing` and `Unreadable` end it. */
  datatype RefItem =
    | Edge(source: Cid, destination: Cid, name: Option<string>)
    | Undecodable(cid: Cid)
    | Missing(cid: Cid)
    | Unreadable(cid: Cid)

  /** The block store, the cids whose reading fails, the depth limit and the two modes. */
  datatype Context = Context(store: Store, broken: set<Cid>, limit: Option<nat>, unique: bool, download: bool)
  {
    predicate Loads(c: Cid) { c in store && c !in broken }

    /** The block loads and decodes. */
    predicate Good(c: Cid) { Loads(c) && store[c].ipld.Some? }

    predicate Beyond(depth: nat) { limit.Some? && limit.value <= depth }

    ghost predicate Valid() {
      forall c :: Good(c) ==> Readable(c, store[c].ipld.value)
    }

    function LinksOf(c: Cid): seq<NamedLink>
      requires Good(c) && Readable(c, store[c].ipld.value)
    {
      IpldLinks(c, store[c].ipld.value)
    }
  }

  function ToWork(links: seq<NamedLink>, depth: nat, source: Cid): (r: seq<Work>)
    ensures |r| == |links|
  {
    if links == [] then [] else [Work(depth, links[0].1, source, links[0].0)] + ToWork(links[1..], depth, source)
  }

  /** The links whose cids are seen for the first time. */
  function Fresh(links: seq<NamedLink>, visited: set<Cid>, depth: nat, source: Cid): seq<Work> {
    if links == [] then []
    else if links[0].1 in visited then Fresh(links[1..], visited, depth, source)
    else [Work(depth, links[0].1, source, links[0].0)] + Fresh(links[1..], visited + {links[0].1}, depth, source)
  }

  function Targets(links: seq<NamedLink>): set<Cid> {
    if links == [] then {} else {links[0].1} + Targets(links[1..])
  }

  datatype State = State(queue: seq<Work>, visited: set<Cid>, items: seq<RefItem>, depths: seq<nat>, stopped: bool)

  function Push(st: State, links: seq<NamedLink>, depth: nat, source: Cid, unique: bool): State {
    if unique
    then st.(queue := st.queue + Fresh(links, st.visited, depth, source), visited := st.visited + Targets(links))
    else st.(queue := st.queue + ToWork(links, depth, source))
  }

  /** The queue before the first turn. */
  function Start(origins: seq<(Cid, Ipld)>, st: State, unique: bool): State
    requires forall i :: 0 <= i < |origins| ==> Readable(origins[i].0, origins[i].1)
  {
    if origins == [] then st
    else
      assert Readable(origins[0].0, origins[0].1);
      Start(origins[1..], Push(st, IpldLinks(origins[0].0, origins[0].1), 0, origins[0].0, unique), unique)
  }

  /** One turn: visit the block at the head of the queue. `depths` follows the depth behind each item. */
  function Turn(ctx: Context, st: State): State
    requires st.queue != [] && (ctx.Good(st.queue[0].cid) ==> Readable(st.queue[0].cid, ctx.store[st.queue[0].cid].ipld.value))
  {
    var w, popped := st.queue[0], st.(queue := st.queue[1..]);
    if ctx.Beyond(w.depth) then popped
    else if !ctx.Loads(w.cid) then
      if ctx.download then popped
      else popped.(items := st.items + [if w.cid in ctx.broken then Unreadable(w.cid) else Missing(w.cid)],
                   depths := st.depths + [w.depth], stopped := true)
    else if !ctx.Good(w.cid) then popped.(items := st.items + [Undecodable(w.cid)], depths := st.depths + [w.depth])
    else
      Push(popped, ctx.LinksOf(w.cid), w.depth + 1, w.cid, ctx.unique)
        .(items := st.items + [Edge(w.source, w.cid, w.name)], depths := st.depths + [w.depth])
  }
}
