/** Types shared by every part of the model. */
module Common {

  datatype Option<+T> = None | Some(value: T)

  datatype Result<+T, +E> = Ok(value: T) | Err(error: E)

  /** How a Rust call ends: with a value, with an `Err`, or in a panic
      (`expect`, `unwrap`, `unreachable!`, `todo!`, `assert!`). */
  datatype Outcome<+T, +E> = Done(value: T) | Failed(error: E) | Panicked

  type Byte = b: int | 0 <= b < 256

  type Bytes = seq<Byte>

  datatype Version = V0 | V1

  /** A content identifier: version, content codec and multihash (function code and digest). */
  datatype Cid = Cid(version: Version, codec: nat, hashCode: nat, digest: Bytes)

  const DAG_PB: nat := 0x70

  const SHA2_256: nat := 0x12

  function Reverse<T>(s: seq<T>): (r: seq<T>)
    ensures |r| == |s|
  {
    if s == [] then [] else Reverse(s[1..]) + [s[0]]
  }

  lemma Assoc<T>(a: seq<T>, b: seq<T>, c: seq<T>)
    ensures (a + b) + c == a + (b + c)
  {
  }

  ghost predicate Distinct<T>(s: seq<T>) {
    forall i, j :: 0 <= i < j < |s| ==> s[i] != s[j]
  }

  /** The elements of the set in some order, each once. */
  ghost predicate Lists<T(!new)>(order: seq<T>, keys: set<T>) {
    (forall x :: x in order <==> x in keys) && Distinct(order)
  }

  /** The order in which a hash map is walked is not fixed. */
  method InSomeOrder<T(!new, ==)>(keys: set<T>) returns (order: seq<T>)
    ensures Lists(order, keys)
  {
    order := [];
    var left := keys;
    while left != {}
      invariant forall x :: x in keys <==> x in left || x in order
      invariant forall x :: x in order ==> x !in left
      invariant Distinct(order)
      decreases left
    {
      var x :| x in left;
      order := order + [x];
      left := left - {x};
    }
  }

  lemma {:induction false} ReverseAppend<T>(a: seq<T>, b: seq<T>)
    ensures Reverse(a + b) == Reverse(b) + Reverse(a)
  {
    if a == [] {
      assert a + b == b;
    } else {
      assert (a + b)[1..] == a[1..] + b;
      ReverseAppend(a[1..], b);
    }
  }
}
