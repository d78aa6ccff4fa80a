/** Stock definitions that several modules share. */
module Basics {

  datatype Option<+T> = None | Some(value: T)

  type Byte = x: int | 0 <= x < 256

  type Bytes = seq<Byte>

  function Max(a: int, b: int): int {
    if a > b then a else b
  }

  /** The last `max` bytes of a stream. */
  function LastN(s: seq<Byte>, max: nat): seq<Byte> {
    if |s| <= max then s else s[|s| - max..]
  }

  /** A sequence without repetition. */
  ghost predicate NoDup<T>(s: seq<T>) {
    forall i, j :: 0 <= i < j < |s| ==> s[i] != s[j]
  }

  lemma {:induction false} NoDupAppend<T>(s: seq<T>, x: T)
    requires NoDup(s) && x !in s
    ensures NoDup(s + [x])
  {
  }

  lemma {:induction false} NoDupSize<T>(a: seq<T>)
    requires NoDup(a)
    ensures |set x | x in a| == |a|
    decreases |a|
  {
    if a != [] {
      var front, last := a[..|a| - 1], a[|a| - 1];
      NoDupSize(front);
      assert last !in front;
      assert (set x | x in a) == (set x | x in front) + {last};
    }
  }

  lemma {:induction false} ConcatAssoc<T>(a: seq<T>, b: seq<T>, c: seq<T>)
    ensures (a + b) + c == a + (b + c)
  {
  }

  /** `did` and `todo` split `all`. */
  ghost predicate Splits<T(!new)>(all: set<T>, did: set<T>, todo: set<T>) {
    (forall x :: x in all <==> x in did || x in todo) && (forall x :: !(x in did && x in todo))
  }

  lemma {:induction false} MoveOver<T(!new)>(all: set<T>, did: set<T>, todo: set<T>, x: T)
    requires Splits(all, did, todo) && x in todo
    ensures Splits(all, did + {x}, todo - {x}) && x !in did
  {
  }

  lemma {:induction false} AllMoved<T(!new)>(all: set<T>, did: set<T>)
    requires Splits(all, did, {})
    ensures did == all
  {
  }
}
