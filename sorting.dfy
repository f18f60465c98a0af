/** An in-place insertion sort over any total preorder. */
module Sorting {

  /** `le` is total and transitive. */
  ghost predicate TotalPreorder<T(!new)>(le: (T, T) -> bool) {
    (forall x, y :: le(x, y) || le(y, x)) &&
    (forall x, y, z :: le(x, y) && le(y, z) ==> le(x, z))
  }

  /** Every element of `s[..n]` is `le` every later one of `s[..n]`. */
  ghost predicate SortedUpTo<T>(s: seq<T>, n: int, le: (T, T) -> bool) {
    forall p, q :: 0 <= p < q < n && q < |s| ==> le(s[p], s[q])
  }

  /** Exchanges two neighbouring elements. */
  method SwapDown<T>(a: array<T>, j: nat)
    requires 0 < j < a.Length
    modifies a
    ensures a[j - 1] == old(a[j]) && a[j] == old(a[j - 1])
    ensures forall k :: 0 <= k < a.Length && k != j - 1 && k != j ==> a[k] == old(a[k])
    ensures multiset(a[..]) == multiset(old(a[..]))
  {
    a[j - 1], a[j] := a[j], a[j - 1];
  }

  /** Moves `a[i]` down into the sorted prefix `a[..i]`, stopping at the
      first element it is not smaller than. */
  method InsertDown<T(!new)>(a: array<T>, le: (T, T) -> bool, i: nat)
    requires TotalPreorder(le)
    requires i < a.Length && SortedUpTo(a[..], i, le)
    modifies a
    ensures SortedUpTo(a[..], i + 1, le)
    ensures multiset(a[..]) == multiset(old(a[..]))
    ensures forall k :: i < k < a.Length ==> a[k] == old(a[k])
    ensures i == 0 || le(old(a[i - 1]), old(a[i])) ==> a[..] == old(a[..])
  {
    if i == 0 || le(a[i - 1], a[i]) {
      forall p | 0 <= p < i - 1
        ensures le(a[p], a[i])
      {
        assert le(a[p], a[i - 1]);
      }
      return;
    }
    var j := i;
    while j > 0 && !le(a[j - 1], a[j])
      invariant 0 <= j <= i
      invariant forall p, q :: 0 <= p < q <= i && p != j && q != j ==> le(a[p], a[q])
      invariant forall q :: j < q <= i ==> le(a[j], a[q])
      invariant multiset(a[..]) == multiset(old(a[..]))
      invariant forall k :: i < k < a.Length ==> a[k] == old(a[k])
    {
      SwapDown(a, j);
      j := j - 1;
    }
    if j > 0 {
      forall p | 0 <= p < j - 1
        ensures le(a[p], a[j])
      {
        assert le(a[p], a[j - 1]);
      }
    }
  }

  /** Sorts `a` by `le`; an array already sorted is left as it is. */
  method InsertionSort<T(!new)>(a: array<T>, le: (T, T) -> bool)
    requires TotalPreorder(le)
    modifies a
    ensures SortedUpTo(a[..], a.Length, le)
    ensures multiset(a[..]) == multiset(old(a[..]))
    ensures SortedUpTo(old(a[..]), a.Length, le) ==> a[..] == old(a[..])
  {
    ghost var wasSorted := SortedUpTo(a[..], a.Length, le);
    var i := 0;
    while i < a.Length
      invariant 0 <= i <= a.Length
      invariant SortedUpTo(a[..], i, le)
      invariant multiset(a[..]) == multiset(old(a[..]))
      invariant wasSorted ==> a[..] == old(a[..])
    {
      if wasSorted && i > 0 {
        assert le(old(a[..])[i - 1], old(a[..])[i]);
      }
      InsertDown(a, le, i);
      i := i + 1;
    }
  }
}
