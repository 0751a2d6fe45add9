/** IPLD documents and the blocks of a store. */
module Ipld {
  import opened Common
  import opened UnixFs

  datatype Ipld =
    | Null
    | Bool(b: bool)
    | Integer(i: int)
    | Float(r: real)
    | Text(s: string)
    | Binary(bytes: Bytes)
    | List(items: seq<Ipld>)
    | Map(fields: seq<Field>)
    | Link(cid: Cid)

  /** A field of a map; a map's fields are in key order. */
  datatype Field = Field(key: string, value: Ipld)

  function Get(fields: seq<Field>, key: string): Option<Ipld> {
    if fields == [] then None
    else if fields[0].key == key then Some(fields[0].value)
    else Get(fields[1..], key)
  }

  /** The field of that key, the first one if there were several. */
  ghost predicate HasField(fields: seq<Field>, key: string, child: Ipld) {
    exists i :: 0 <= i < |fields| && fields[i] == Field(key, child) && forall j :: 0 <= j < i ==> fields[j].key != key
  }

  ghost predicate NoField(fields: seq<Field>, key: string) {
    forall i :: 0 <= i < |fields| ==> fields[i].key != key
  }

  lemma {:induction false} GetIsField(fields: seq<Field>, key: string)
    ensures match Get(fields, key) case Some(child) => HasField(fields, key, child) case None => NoField(fields, key)
  {
    if fields != [] {
      if fields[0].key == key {
        assert fields[0] == Field(key, fields[0].value);
      } else {
        GetIsField(fields[1..], key);
        if Get(fields[1..], key).Some? {
          var child := Get(fields[1..], key).value;
          var i :| 0 <= i < |fields| - 1 && fields[1..][i] == Field(key, child) && forall j :: 0 <= j < i ==> fields[1..][j].key != key;
          assert fields[i + 1] == Field(key, child);
          assert forall j :: 0 <= j < i + 1 ==> fields[j].key != key;
        }
      }
    }
  }

  /** Every link in the document, depth first. */
  function Links(v: Ipld): seq<Cid>
    decreases v, 1
  {
    match v
    case List(items) => ItemLinks(items)
    case Map(fields) => FieldLinks(fields)
    case Link(cid) => [cid]
    case Null | Bool(_) | Integer(_) | Float(_) | Text(_) | Binary(_) => []
  }

  function ItemLinks(vs: seq<Ipld>): seq<Cid>
    decreases vs, 0
  {
    if vs == [] then [] else Links(vs[0]) + ItemLinks(vs[1..])
  }

  function FieldLinks(fs: seq<Field>): seq<Cid>
    decreases fs, 0
  {
    if fs == [] then [] else Links(fs[0].value) + FieldLinks(fs[1..])
  }

  /** A block as its two readers see it: as dag-pb, and decoded as IPLD (`None` when that fails). */
  datatype Block = Block(pb: PbBlock, ipld: Option<Ipld>)

  type Store = map<Cid, Block>

  function PbLinks(pb: PbBlock): seq<PbLink> {
    match pb
    case NotDagPb => []
    case NotUnixFs(links) => links
    case Parsed(n) => n.links
  }

  /** Cid `d` is linked from the block, in either reading. */
  ghost predicate LinksTo(b: Block, d: Cid) {
    || (b.ipld.Some? && d in Links(b.ipld.value))
    || (exists i :: 0 <= i < |PbLinks(b.pb)| && PbLinks(b.pb)[i].cid == Some(d))
  }

  /** Links only lead downwards in `rank`: content addressing makes every store acyclic. */
  ghost predicate Ranked(store: Store, rank: Cid -> nat) {
    forall c, d :: c in store && LinksTo(store[c], d) ==> rank(d) < rank(c)
  }

  lemma {:induction false} GetLinks(fs: seq<Field>, key: string, d: Cid)
    requires Get(fs, key).Some? && d in Links(Get(fs, key).value)
    ensures d in FieldLinks(fs)
  {
    if fs[0].key != key {
      GetLinks(fs[1..], key, d);
    }
  }

  lemma {:induction false} ItemAtLinks(vs: seq<Ipld>, i: nat, d: Cid)
    requires i < |vs| && d in Links(vs[i])
    ensures d in ItemLinks(vs)
    decreases vs
  {
    if i > 0 {
      ItemAtLinks(vs[1..], i - 1, d);
    }
  }

  // ---------------------------------------------------------------------------------------------
  // Walking a document with a stack, as an iterator over all values does

  function Weight(v: Ipld): nat
    decreases v, 1
  {
    match v
    case List(items) => 1 + ItemsWeight(items)
    case Map(fields) => 1 + FieldsWeight(fields)
    case _ => 1
  }

  function ItemsWeight(vs: seq<Ipld>): nat
    decreases vs, 0
  {
    if vs == [] then 0 else Weight(vs[0]) + ItemsWeight(vs[1..])
  }

  function FieldsWeight(fs: seq<Field>): nat
    decreases fs, 0
  {
    if fs == [] then 0 else Weight(fs[0].value) + FieldsWeight(fs[1..])
  }

  function Values(fs: seq<Field>): seq<Ipld> {
    if fs == [] then [] else [fs[0].value] + Values(fs[1..])
  }

  lemma {:induction false} ItemsWeightAppend(a: seq<Ipld>, b: seq<Ipld>)
    ensures ItemsWeight(a + b) == ItemsWeight(a) + ItemsWeight(b)
  {
    if a == [] {
      assert a + b == b;
    } else {
      assert (a + b)[1..] == a[1..] + b;
      ItemsWeightAppend(a[1..], b);
    }
  }

  lemma {:induction false} ValuesWeight(fs: seq<Field>)
    ensures ItemsWeight(Values(fs)) == FieldsWeight(fs)
  {
    if fs != [] {
      ValuesWeight(fs[1..]);
      assert Values(fs)[1..] == Values(fs[1..]);
    }
  }

  lemma {:induction false} HeadWeight(stack: seq<Ipld>)
    requires stack != []
    ensures ItemsWeight(stack) > ItemsWeight(stack[1..])
    ensures stack[0].List? ==> ItemsWeight(stack) > ItemsWeight(stack[0].items + stack[1..])
    ensures stack[0].Map? ==> ItemsWeight(stack) > ItemsWeight(Values(stack[0].fields) + stack[1..])
  {
    var v, rest := stack[0], stack[1..];
    assert ItemsWeight(stack) == Weight(v) + ItemsWeight(rest);
    if v.List? {
      ItemsWeightAppend(v.items, rest);
    } else if v.Map? {
      ItemsWeightAppend(Values(v.fields), rest);
      ValuesWeight(v.fields);
    }
  }

  /** The links met when the first value of the stack is taken off again and again, and replaced by its
      elements if it is a list or a map. */
  function StackLinks(stack: seq<Ipld>): seq<Cid>
    decreases ItemsWeight(stack)
  {
    if stack == [] then []
    else
      HeadWeight(stack);
      match stack[0]
      case List(items) => StackLinks(items + stack[1..])
      case Map(fields) => StackLinks(Values(fields) + stack[1..])
      case Link(cid) => [cid] + StackLinks(stack[1..])
      case Null | Bool(_) | Integer(_) | Float(_) | Text(_) | Binary(_) => StackLinks(stack[1..])
  }

  lemma {:induction false} ItemLinksAppend(a: seq<Ipld>, b: seq<Ipld>)
    ensures ItemLinks(a + b) == ItemLinks(a) + ItemLinks(b)
  {
    if a == [] {
      assert a + b == b;
    } else {
      assert (a + b)[1..] == a[1..] + b;
      hide Links;
      ItemLinksAppend(a[1..], b);
    }
  }

  lemma {:induction false} ValuesLinks(fs: seq<Field>)
    ensures ItemLinks(Values(fs)) == FieldLinks(fs)
  {
    if fs != [] {
      ValuesLinks(fs[1..]);
      assert Values(fs)[1..] == Values(fs[1..]);
    }
  }

  lemma {:induction false} StackLinksAre(stack: seq<Ipld>)
    ensures StackLinks(stack) == ItemLinks(stack)
    decreases ItemsWeight(stack)
  {
    if stack != [] {
      var v, rest := stack[0], stack[1..];
      HeadWeight(stack);
      if v.List? {
        ItemLinksAppend(v.items, rest);
        StackLinksAre(v.items + rest);
      } else if v.Map? {
        ItemLinksAppend(Values(v.fields), rest);
        ValuesLinks(v.fields);
        StackLinksAre(Values(v.fields) + rest);
      } else {
        StackLinksAre(rest);
      }
    }
  }

  /** The links of a document are those an iterator over its values meets, in that order. */
  lemma {:induction false} LinksAreIterated(v: Ipld)
    ensures Links(v) == StackLinks([v])
  {
    StackLinksAre([v]);
    assert [v][1..] == [];
    assert Links(v) + [] == Links(v);
  }
}
