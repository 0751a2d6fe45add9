/** Pin documents and the pin store. */
module Pins {
  import opened Common

  datatype Recursive = Not | Intent | Count(descendants: nat)

  /** Why a block is pinned. `indirectBy` holds the version 1 forms of the recursively pinned roots above. */
  datatype PinDoc = PinDoc(direct: bool, recursive: Recursive, indirectBy: set<Cid>)

  const UNPINNED := PinDoc(false, Not, {})

  datatype PinKind = IndirectFrom(root: Cid) | Direct | RecursiveIntention | RecursivePin(descendants: nat)

  datatype PinError =
    | UnexpectedNumberOfDescendants(found: nat, expected: nat)
    | NotPinnedRecursive
    | AlreadyPinnedRecursive
    | CannotUnpinUnpinned
    | CannotUnpinDirectOnRecursivelyPinned
    | NotPinned
    | PinnedIndirectly
    | BadReference

  type Pins = map<Cid, PinDoc>

  function ToV1(c: Cid): Cid { c.(version := V1) }

  /** Adds or removes one kind of pin; the flag says whether the document changed. */
  function Update(doc: PinDoc, add: bool, kind: PinKind): Result<(PinDoc, bool), PinError> {
    match kind
    case IndirectFrom(root) =>
      var v1 := ToV1(root);
      if add then Ok((doc.(indirectBy := doc.indirectBy + {v1}), v1 !in doc.indirectBy))
      else Ok((doc.(indirectBy := doc.indirectBy - {v1}), v1 in doc.indirectBy))
    case Direct =>
      if doc.recursive != Not && !doc.direct && add then Err(AlreadyPinnedRecursive)
      else if !add && !doc.direct then
        if doc.recursive == Not then Err(CannotUnpinUnpinned) else Err(CannotUnpinDirectOnRecursivelyPinned)
      else Ok((doc.(direct := add), doc.direct != add))
    case RecursiveIntention =>
      if add then
        match doc.recursive
        case Count(_) => Err(AlreadyPinnedRecursive)
        case Intent => Ok((doc, false))
        case Not => Ok((doc.(recursive := Intent, direct := false), true))
      else Ok((doc.(recursive := Not), doc.recursive != Not))
    case RecursivePin(descendants) =>
      if doc.recursive.Count? && doc.recursive.descendants != descendants then
        Err(UnexpectedNumberOfDescendants(doc.recursive.descendants, descendants))
      else if add then
        if doc.recursive.Count? then Ok((doc, false))
        else Ok((doc.(recursive := Count(descendants), direct := false), true))
      else if doc.recursive == Not then Err(NotPinnedRecursive)
      else Ok((doc.(recursive := Not), true))
  }

  /** The documents a pin store holds: never an empty one, and never both direct and recursive. */
  predicate GoodDoc(doc: PinDoc) {
    doc != UNPINNED && (doc.recursive != Not ==> !doc.direct)
  }

  ghost predicate GoodPins(pins: Pins) {
    forall c :: c in pins ==> GoodDoc(pins[c])
  }

  function Doc(pins: Pins, c: Cid): PinDoc {
    if c in pins then pins[c] else UNPINNED
  }

  /** The flag is right, and documents stay good: an addition pins, a removal leaves a good document
      or none. */
  lemma {:induction false} UpdateKeepsGood(doc: PinDoc, add: bool, kind: PinKind)
    requires GoodDoc(doc) || doc == UNPINNED
    requires Update(doc, add, kind).Ok?
    ensures var (updated, modified) := Update(doc, add, kind).value;
            && (modified <==> updated != doc)
            && (GoodDoc(updated) || (!add && updated == UNPINNED))
  {
    var (updated, modified) := Update(doc, add, kind).value;
    if kind.IndirectFrom? {
      var v1 := ToV1(kind.root);
      if v1 in doc.indirectBy {
        assert doc.indirectBy + {v1} == doc.indirectBy;
        assert v1 !in doc.indirectBy - {v1};
      } else {
        assert doc.indirectBy - {v1} == doc.indirectBy;
        assert v1 in doc.indirectBy + {v1};
      }
      assert v1 in doc.indirectBy + {v1};
    }
  }

  /** What each kind of pin does to a document, and when it is refused: marks always succeed; a direct pin
      is refused on a recursive one and taken only where it is; an intention is refused on a counted pin;
      and a counted pin is refused where another count is. */
  lemma {:induction false} UpdateLaw(doc: PinDoc, root: Cid, n: nat)
    ensures Update(doc, true, IndirectFrom(root)).Ok? && Update(doc, false, IndirectFrom(root)).Ok?
    ensures Update(doc, true, IndirectFrom(root)).value.0 == doc.(indirectBy := doc.indirectBy + {root.(version := V1)})
    ensures Update(doc, false, IndirectFrom(root)).value.0 == doc.(indirectBy := doc.indirectBy - {root.(version := V1)})
    ensures GoodDoc(doc) || doc == UNPINNED ==>
              && (Update(doc, true, Direct).Ok? <==> doc.recursive == Not)
              && (Update(doc, true, Direct).Ok? ==> Update(doc, true, Direct).value.0 == doc.(direct := true))
              && (Update(doc, true, Direct).Err? ==> Update(doc, true, Direct).error == AlreadyPinnedRecursive)
    ensures Update(doc, false, Direct)
            == if doc.direct then Ok((doc.(direct := false), true))
               else Err(if doc.recursive == Not then CannotUnpinUnpinned else CannotUnpinDirectOnRecursivelyPinned)
    ensures doc.recursive.Count? ==> Update(doc, true, RecursiveIntention) == Err(AlreadyPinnedRecursive)
    ensures doc.recursive == Not ==> Update(doc, true, RecursiveIntention) == Ok((doc.(recursive := Intent, direct := false), true))
    ensures doc.recursive == Intent ==> Update(doc, true, RecursiveIntention) == Ok((doc, false))
    ensures Update(doc, false, RecursiveIntention).Ok? && Update(doc, false, RecursiveIntention).value.0 == doc.(recursive := Not)
    ensures doc.recursive.Count? && doc.recursive != Count(n) ==>
              forall add :: Update(doc, add, RecursivePin(n)) == Err(UnexpectedNumberOfDescendants(doc.recursive.descendants, n))
    ensures doc.recursive == Count(n) ==>
              Update(doc, true, RecursivePin(n)) == Ok((doc, false)) && Update(doc, false, RecursivePin(n)) == Ok((doc.(recursive := Not), true))
    ensures !doc.recursive.Count? ==> Update(doc, true, RecursivePin(n)) == Ok((doc.(recursive := Count(n), direct := false), true))
    ensures doc.recursive == Not ==> Update(doc, false, RecursivePin(n)) == Err(NotPinnedRecursive)
    ensures doc.recursive == Intent ==> Update(doc, false, RecursivePin(n)) == Ok((doc.(recursive := Not), true))
  {
  }

  // ---------------------------------------------------------------------------------------------
  // Documents after whole operations

  /** A document after recursively pinning a root: its own, if it is the root, and a mark if it is
      referenced. */
  function Marked(doc: PinDoc, isRoot: bool, referenced: bool, v1: Cid, state: Recursive): PinDoc {
    var own := if isRoot then doc.(recursive := state, direct := false) else doc;
    if referenced then own.(indirectBy := own.indirectBy + {v1}) else own
  }

  function Unmarked(doc: PinDoc, isRoot: bool, referenced: bool, v1: Cid): PinDoc {
    var own := if isRoot then doc.(recursive := Not) else doc;
    if referenced then own.(indirectBy := own.indirectBy - {v1}) else own
  }

  /** A stream of references: cids until the first error. */
  type References = seq<Result<Cid, PinError>>

  /** How many references come before the first error. */
  function UpToError(refs: References): (n: nat)
    ensures n <= |refs|
    ensures forall i :: 0 <= i < n ==> refs[i].Ok?
    ensures n < |refs| ==> refs[n].Err?
  {
    if refs == [] || refs[0].Err? then 0
    else
      var n := 1 + UpToError(refs[1..]);
      assert forall i :: 0 < i < n ==> refs[i] == refs[1..][i - 1];
      assert n < |refs| ==> refs[n] == refs[1..][n - 1];
      n
  }

  predicate Refers(refs: References, n: nat, c: Cid)
    requires n <= |refs|
  {
    Ok(c) in refs[..n]
  }

  /** How far unpinning gets from reference `i` on: to the first error, or to a block that is no
      longer pinned when its turn comes. */
  ghost function Unpinned(pins: Pins, target: Cid, refs: References, i: nat): (n: nat)
    requires i <= |refs|
    ensures i <= n <= |refs|
    decreases |refs| - i
  {
    if i == |refs| || refs[i].Err? then i
    else
      var c := refs[i].value;
      if Unmarked(Doc(pins, c), c == target, Refers(refs, i, c), ToV1(target)) == UNPINNED then i
      else Unpinned(pins, target, refs, i + 1)
  }

  /** The block is pinned for some reason besides the root's own recursive pin. */
  predicate StaysPinned(pins: Pins, target: Cid, c: Cid) {
    Unmarked(Doc(pins, c), c == target, false, ToV1(target)) != UNPINNED
  }

  /** With distinct references and no error, unpinning gets to the end if and only if they are all
      still pinned. */
  lemma {:induction false} UnpinsAll(pins: Pins, target: Cid, refs: References, i: nat)
    requires i <= |refs| && UpToError(refs) == |refs| && Distinct(refs)
    ensures Unpinned(pins, target, refs, i) == |refs| <==> forall k :: i <= k < |refs| ==> StaysPinned(pins, target, refs[k].value)
    decreases |refs| - i
  {
    if i < |refs| {
      assert refs[i] !in refs[..i];
      UnpinsAll(pins, target, refs, i + 1);
    }
  }

  /** Unpinning never gets past an error among the references. */
  lemma {:induction false} UnpinsUpToError(pins: Pins, target: Cid, refs: References, i: nat)
    requires i <= UpToError(refs)
    ensures Unpinned(pins, target, refs, i) <= UpToError(refs)
    decreases |refs| - i
  {
    if i < UpToError(refs) {
      UnpinsUpToError(pins, target, refs, i + 1);
    }
  }

  /** The documents after marking the first `n` references. */
  ghost predicate MarkedUpTo(before: Pins, after: Pins, target: Cid, refs: References, n: nat, state: Recursive)
    requires n <= |refs|
  {
    forall c :: Doc(after, c) == Marked(Doc(before, c), c == target, Refers(refs, n, c), ToV1(target), state)
  }

  ghost predicate UnmarkedUpTo(before: Pins, after: Pins, target: Cid, refs: References, n: nat)
    requires n <= |refs|
  {
    forall c :: Doc(after, c) == Unmarked(Doc(before, c), c == target, Refers(refs, n, c), ToV1(target))
  }

  /** Pinning fails on a fully pinned root, with nothing changed, and at the first bad reference, with
      an intention and the marks so far left behind. */
  ghost predicate InsertedRecursively(before: Pins, target: Cid, refs: References, after: Pins, ok: bool) {
    && (ok <==> !Doc(before, target).recursive.Count? && UpToError(refs) == |refs|)
    && if Doc(before, target).recursive.Count? then after == before
       else MarkedUpTo(before, after, target, refs, UpToError(refs), if ok then Count(|refs|) else Intent)
  }

  /** Unpinning takes the root's pin and its marks as far as it gets; a root that is not pinned
      recursively loses a direct pin if that is its only one. */
  ghost predicate RemovedRecursively(before: Pins, target: Cid, refs: References, after: Pins, ok: bool) {
    var was, n := Doc(before, target), Unpinned(before, target, refs, 0);
    if was.recursive != Not then (ok <==> n == |refs|) && UnmarkedUpTo(before, after, target, refs, n)
    else if was.direct && was.indirectBy == {} then ok && forall c :: Doc(after, c) == if c == target then UNPINNED else Doc(before, c)
    else !ok && after == before
  }

  class MemPinStore {
    var pins: Pins

    constructor ()
      ensures pins == map[]
    {
      pins := map[];
    }

    ghost predicate Valid()
      reads this
    {
      GoodPins(pins)
    }

    method IsPinned(c: Cid) returns (r: bool)
      ensures r <==> c in pins
    {
      r := c in pins;
    }

    method Insert(target: Cid, kind: PinKind) returns (r: Result<bool, PinError>)
      requires Valid()
      modifies this
      ensures Valid()
      ensures match Update(Doc(old(pins), target), true, kind)
              case Ok((doc, modified)) => r == Ok(modified) && pins == old(pins)[target := doc] && modified == (pins != old(pins))
              case Err(e) => r == Err(e) && pins == old(pins)
    {
      var doc := if target in pins then pins[target] else UNPINNED;
      match Update(doc, true, kind) {
        case Err(e) =>
          r := Err(e);
        case Ok((updated, modified)) =>
          UpdateKeepsGood(doc, true, kind);
          if target in pins && !modified {
            assert pins[target := updated] == pins;
          } else {
            pins := pins[target := updated];
            assert pins[target] == updated;
          }
          r := Ok(modified);
      }
    }

    method Remove(target: Cid, kind: PinKind) returns (r: Result<bool, PinError>)
      requires Valid()
      modifies this
      ensures Valid()
      ensures if target !in old(pins) then r == Err(NotPinned) && pins == old(pins)
              else match Update(old(pins)[target], false, kind)
                   case Ok((doc, modified)) =>
                     && r == Ok(modified) && modified == (pins != old(pins))
                     && pins == if doc == UNPINNED then old(pins) - {target} else old(pins)[target := doc]
                   case Err(e) => r == Err(e) && pins == old(pins)
    {
      if target !in pins {
        return Err(NotPinned);
      }
      match Update(pins[target], false, kind) {
        case Err(e) =>
          return Err(e);
        case Ok((updated, modified)) =>
          UpdateKeepsGood(pins[target], false, kind);
          if !modified {
            assert pins[target := updated] == pins;
            return Ok(false);
          }
          if updated == UNPINNED {
            pins := pins - {target};
            assert target !in pins;
          } else {
            pins := pins[target := updated];
            assert pins[target] == updated;
          }
          r := Ok(true);
      }
    }

    method InsertDirect(target: Cid) returns (r: Result<(), PinError>)
      requires Valid()
      modifies this
      ensures Valid()
      ensures forall c :: c != target ==> Doc(pins, c) == Doc(old(pins), c)
      ensures r.Ok? <==> Doc(old(pins), target).recursive == Not
      ensures Doc(pins, target) == if r.Ok? then Doc(old(pins), target).(direct := true) else Doc(old(pins), target)
      ensures r.Err? ==> r.error == AlreadyPinnedRecursive
    {
      var done := Insert(target, Direct);
      r := if done.Ok? then Ok(()) else Err(done.error);
    }

    method RemoveDirect(target: Cid) returns (r: Result<(), PinError>)
      requires Valid()
      modifies this
      ensures Valid()
      ensures forall c :: c != target ==> Doc(pins, c) == Doc(old(pins), c)
      ensures r.Ok? <==> Doc(old(pins), target).direct
      ensures Doc(pins, target) == Doc(old(pins), target).(direct := false)
      ensures r.Err? ==>
                r.error == if target !in old(pins) then NotPinned
                           else if old(pins)[target].recursive == Not then CannotUnpinUnpinned else CannotUnpinDirectOnRecursivelyPinned
    {
      var done := Remove(target, Direct);
      r := if done.Ok? then Ok(()) else Err(done.error);
    }

    /** Pins a root recursively: an intention, a mark for every reference, and the final count. What
        was written before an error stays. */
    method InsertRecursive(target: Cid, refs: References) returns (r: Result<(), PinError>)
      requires Valid()
      modifies this
      ensures Valid() && InsertedRecursively(old(pins), target, refs, pins, r.Ok?)
      ensures r.Err? ==>
                if Doc(old(pins), target).recursive.Count? then r.error == AlreadyPinnedRecursive
                else UpToError(refs) < |refs| && Err(r.error) == refs[UpToError(refs)]
    {
      hide MarkedUpTo, Marked, GoodPins;
      var intention := Insert(target, RecursiveIntention);
      if intention.Err? {
        return Err(intention.error);
      }
      var v1 := ToV1(target);
      ghost var before := old(pins);
      IntentionMarks(before, pins, target, refs);
      var count := 0;
      while count < |refs|
        invariant count <= UpToError(refs) && Valid()
        invariant MarkedUpTo(before, pins, target, refs, count, Intent)
      {
        var next := refs[count];
        if next.Err? {
          return Err(next.error);
        }
        ghost var was := pins;
        var _ := Insert(next.value, IndirectFrom(v1));
        OneMoreMark(before, was, pins, target, refs, count);
        count := count + 1;
      }
      CountMarks(before, pins, target, refs);
      var done := Insert(target, RecursivePin(count));
      if done.Err? {
        assert false;
      }
      r := Ok(());
    }

    /** Unpins a recursively pinned root and takes its mark from every reference. */
    method RemoveRecursive(target: Cid, refs: References) returns (r: Result<(), PinError>)
      requires Valid()
      modifies this
      ensures Valid() && RemovedRecursively(old(pins), target, refs, pins, r.Ok?)
      ensures r.Err? ==>
                if Doc(old(pins), target).recursive == Not then r.error == PinnedIndirectly
                else
                  var n := Unpinned(old(pins), target, refs, 0);
                  n < |refs| && r.error == if refs[n].Err? then refs[n].error else NotPinned
    {
      hide UnmarkedUpTo, Unmarked, GoodPins;
      if target !in pins {
        return Err(PinnedIndirectly);
      }
      var doc := pins[target];
      if doc.recursive == Not {
        if doc.indirectBy != {} {
          return Err(PinnedIndirectly);
        }
        OnlyDirect(pins, target);
        var removed := Remove(target, Direct);
        if removed.Err? {
          assert false;
        }
        return Ok(());
      }
      var kind := if doc.recursive.Count? then RecursivePin(doc.recursive.descendants) else RecursiveIntention;
      var removed := Remove(target, kind);
      var v1 := ToV1(target);
      ghost var before := old(pins);
      NothingUnmarked(before, pins, target, refs);
      var n := 0;
      while n < |refs|
        invariant n <= |refs| && Valid()
        invariant Unpinned(before, target, refs, 0) == Unpinned(before, target, refs, n)
        invariant UnmarkedUpTo(before, pins, target, refs, n)
      {
        var next := refs[n];
        if next.Err? {
          return Err(next.error);
        }
        ghost var was := pins;
        UnpinsWhilePinned(before, was, target, refs, n);
        var step := Remove(next.value, IndirectFrom(v1));
        if step.Err? {
          return Err(step.error);
        }
        OneMoreUnmarked(before, was, pins, target, refs, n);
        n := n + 1;
      }
      r := Ok(());
    }
  }

  lemma {:induction false} IntentionMarks(before: Pins, after: Pins, target: Cid, refs: References)
    requires GoodPins(before) && Update(Doc(before, target), true, RecursiveIntention).Ok?
    requires after == before[target := Update(Doc(before, target), true, RecursiveIntention).value.0]
    ensures MarkedUpTo(before, after, target, refs, 0, Intent)
  {
    assert forall c :: !Refers(refs, 0, c);
  }

  lemma {:induction false} OneMoreReference(refs: References, n: nat, c: Cid)
    requires n < |refs| && refs[n].Ok?
    ensures Refers(refs, n + 1, c) <==> Refers(refs, n, c) || c == refs[n].value
  {
    assert refs[..n + 1] == refs[..n] + [refs[n]];
  }

  lemma {:induction false} OneMoreMark(before: Pins, was: Pins, after: Pins, target: Cid, refs: References, n: nat)
    requires n < |refs| && refs[n].Ok? && MarkedUpTo(before, was, target, refs, n, Intent)
    requires after == was[refs[n].value := Update(Doc(was, refs[n].value), true, IndirectFrom(ToV1(target))).value.0]
    ensures MarkedUpTo(before, after, target, refs, n + 1, Intent)
  {
    hide Refers, Marked;
    forall c
      ensures Doc(after, c) == Marked(Doc(before, c), c == target, Refers(refs, n + 1, c), ToV1(target), Intent)
    {
      OneMoreReference(refs, n, c);
      MarkOnce(Doc(before, c), c == target, Refers(refs, n, c), ToV1(target));
    }
  }

  lemma {:induction false} CountMarks(before: Pins, was: Pins, target: Cid, refs: References)
    requires MarkedUpTo(before, was, target, refs, |refs|, Intent)
    ensures var r := Update(Doc(was, target), true, RecursivePin(|refs|));
            r.Ok? && MarkedUpTo(before, was[target := r.value.0], target, refs, |refs|, Count(|refs|))
  {
    assert Doc(was, target).recursive == Intent;
    hide Refers;
  }

  lemma {:induction false} OnlyDirect(pins: Pins, target: Cid)
    requires GoodPins(pins) && target in pins && pins[target].recursive == Not && pins[target].indirectBy == {}
    ensures pins[target].direct && Update(pins[target], false, Direct) == Ok((UNPINNED, true))
  {
  }

  lemma {:induction false} NothingUnmarked(before: Pins, after: Pins, target: Cid, refs: References)
    requires target in before && after == if before[target].(recursive := Not) == UNPINNED then before - {target} else before[target := before[target].(recursive := Not)]
    ensures UnmarkedUpTo(before, after, target, refs, 0)
  {
    assert forall c :: !Refers(refs, 0, c);
  }

  lemma {:induction false} UnpinsWhilePinned(before: Pins, was: Pins, target: Cid, refs: References, n: nat)
    requires n < |refs| && refs[n].Ok? && UnmarkedUpTo(before, was, target, refs, n) && GoodPins(was)
    ensures Unpinned(before, target, refs, n) == if refs[n].value in was then Unpinned(before, target, refs, n + 1) else n
  {
    hide Refers, Unmarked;
    assert Doc(was, refs[n].value) == Unmarked(Doc(before, refs[n].value), refs[n].value == target, Refers(refs, n, refs[n].value), ToV1(target));
  }

  lemma {:induction false} OneMoreUnmarked(before: Pins, was: Pins, after: Pins, target: Cid, refs: References, n: nat)
    requires n < |refs| && refs[n].Ok? && UnmarkedUpTo(before, was, target, refs, n) && refs[n].value in was
    requires var c, doc := refs[n].value, Update(was[refs[n].value], false, IndirectFrom(ToV1(target))).value.0;
             after == if doc == UNPINNED then was - {c} else was[c := doc]
    ensures UnmarkedUpTo(before, after, target, refs, n + 1)
  {
    hide Refers, Unmarked;
    forall c
      ensures Doc(after, c) == Unmarked(Doc(before, c), c == target, Refers(refs, n + 1, c), ToV1(target))
    {
      OneMoreReference(refs, n, c);
      UnmarkOnce(Doc(before, c), c == target, Refers(refs, n, c), ToV1(target));
    }
  }

  lemma {:induction false} MarkOnce(doc: PinDoc, isRoot: bool, referenced: bool, v1: Cid)
    ensures var marked := Marked(doc, isRoot, referenced, v1, Intent);
            marked.(indirectBy := marked.indirectBy + {v1}) == Marked(doc, isRoot, true, v1, Intent)
  {
    assert doc.indirectBy + {v1} + {v1} == doc.indirectBy + {v1};
  }

  lemma {:induction false} UnmarkOnce(doc: PinDoc, isRoot: bool, referenced: bool, v1: Cid)
    ensures var unmarked := Unmarked(doc, isRoot, referenced, v1);
            unmarked.(indirectBy := unmarked.indirectBy - {v1}) == Unmarked(doc, isRoot, true, v1)
  {
    assert doc.indirectBy - {v1} - {v1} == doc.indirectBy - {v1};
  }

  /** Pinning a root and unpinning it again restores a document if and only if the root had no pin of
      its own, direct or recursive, and the document, if referenced, did not carry the root's mark. */
  lemma {:induction false} MarkThenUnmark(doc: PinDoc, isRoot: bool, referenced: bool, v1: Cid, n: nat)
    ensures Unmarked(Marked(doc, isRoot, referenced, v1, Count(n)), isRoot, referenced, v1) == doc
            <==> (isRoot ==> doc.recursive == Not && !doc.direct) && (referenced ==> v1 !in doc.indirectBy)
  {
    if v1 in doc.indirectBy {
      assert v1 !in doc.indirectBy + {v1} - {v1};
    } else {
      assert doc.indirectBy + {v1} - {v1} == doc.indirectBy;
    }
  }
}
