/** In-place sorting of a result array by a caller-supplied ordering, as
    `Array.prototype.sort(compare)` is used by both search paths. The ordering need
    not be transitive (the hybrid search comparator is not); it only has to relate
    every pair one way or the other. */
module Sorting {

  /** Every neighbouring pair of `s` is in order. */
  ghost predicate AdjacentSorted<T>(s: seq<T>, le: (T, T) -> bool) {
    forall k :: 0 <= k < |s| - 1 ==> le(s[k], s[k + 1])
  }

  /** Every pair of `s`, near or far, is in order. */
  ghost predicate Sorted<T>(s: seq<T>, le: (T, T) -> bool) {
    forall i, j :: 0 <= i < j < |s| ==> le(s[i], s[j])
  }

  /** The ordering relates any two values in at least one direction. */
  ghost predicate Total<T(!new)>(le: (T, T) -> bool) {
    forall x, y :: le(x, y) || le(y, x)
  }

  ghost predicate Transitive<T(!new)>(le: (T, T) -> bool) {
    forall x, y, z :: le(x, y) && le(y, z) ==> le(x, z)
  }

  /** Insertion sort by neighbour swaps. The result is a permutation of the input
      in which every neighbouring pair is in order; an input already in order is
      left as it is, so equal elements keep their places. */
  method Sort<T(!new)>(a: array<T>, le: (T, T) -> bool)
    requires Total(le)
    modifies a
    ensures multiset(a[..]) == old(multiset(a[..]))
    ensures AdjacentSorted(a[..], le)
    ensures AdjacentSorted(old(a[..]), le) ==> a[..] == old(a[..])
  {
    if a.Length == 0 {
      return;
    }
    var i := 1;
    while i < a.Length
      invariant 1 <= i <= a.Length
      invariant forall k :: 0 <= k < i - 1 ==> le(a[k], a[k + 1])
      invariant multiset(a[..]) == old(multiset(a[..]))
      invariant AdjacentSorted(old(a[..]), le) ==> a[..] == old(a[..])
    {
      Insert(a, i, le);
      i := i + 1;
    }
  }

  /** Moves `a[i]` left past every neighbour it is out of order with, so that the
      in-order prefix `a[..i]` grows to `a[..i + 1]`. */
  method Insert<T(!new)>(a: array<T>, i: nat, le: (T, T) -> bool)
    requires Total(le)
    requires 0 < i < a.Length
    requires forall k :: 0 <= k < i - 1 ==> le(a[k], a[k + 1])
    modifies a
    ensures forall k :: 0 <= k < i ==> le(a[k], a[k + 1])
    ensures multiset(a[..]) == old(multiset(a[..]))
    ensures le(old(a[i - 1]), old(a[i])) ==> a[..] == old(a[..])
  {
    if le(a[i - 1], a[i]) {
      return;
    }
    var j := i;
    while j > 0 && !le(a[j - 1], a[j])
      invariant 0 <= j <= i
      invariant forall k :: 0 <= k < i && k != j - 1 && k != j ==> le(a[k], a[k + 1])
      invariant j < i ==> le(a[j], a[j + 1])
      invariant 0 < j < i ==> le(a[j - 1], a[j + 1])
      invariant multiset(a[..]) == old(multiset(a[..]))
    {
      Swap(a, j);
      j := j - 1;
    }
  }

  /** Exchanges `a[i - 1]` and `a[i]`. */
  method Swap<T>(a: array<T>, i: nat)
    requires 0 < i < a.Length
    modifies a
    ensures a[i - 1] == old(a[i]) && a[i] == old(a[i - 1])
    ensures forall k :: 0 <= k < a.Length && k != i - 1 && k != i ==> a[k] == old(a[k])
    ensures multiset(a[..]) == old(multiset(a[..]))
  {
    a[i - 1], a[i] := a[i], a[i - 1];
  }

  /** For a transitive ordering, neighbour order is full order. */
  lemma {:induction false} AdjacentSortedIsSorted<T(!new)>(s: seq<T>, le: (T, T) -> bool)
    requires AdjacentSorted(s, le)
    requires Transitive(le)
    ensures Sorted(s, le)
  {
    forall i, j | 0 <= i < j < |s|
      ensures le(s[i], s[j])
    {
      var k := i + 1;
      while k < j
        invariant i < k <= j
        invariant le(s[i], s[k])
      {
        k := k + 1;
      }
    }
  }
}
