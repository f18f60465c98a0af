/** Generic facts about sequences and their multisets. */
module Sequences {

  /** `f` applied to every element, in order. */
  function MapSeq<T, U>(f: T -> U, s: seq<T>): (r: seq<U>)
    ensures |r| == |s|
    ensures forall k :: 0 <= k < |s| ==> r[k] == f(s[k])
  {
    seq(|s|, k requires 0 <= k < |s| => f(s[k]))
  }

  lemma MapSeqAppend<T, U>(f: T -> U, u: seq<T>, v: seq<T>)
    ensures MapSeq(f, u + v) == MapSeq(f, u) + MapSeq(f, v)
  {
  }

  /** Taking the first element of `a` and its copy at `k` out of `b` leaves
      two permutations of each other. */
  lemma RemoveMatching<T>(a: seq<T>, b: seq<T>, k: nat)
    requires multiset(a) == multiset(b) && a != [] && k < |b| && b[k] == a[0]
    ensures multiset(a[1..]) == multiset(b[..k] + b[k + 1..])
  {
    var x := a[0];
    assert a == [x] + a[1..];
    assert b == b[..k] + [x] + b[k + 1..];
    calc {
      multiset(a[1..]);
      multiset(a) - multiset{x};
      multiset(b) - multiset{x};
      multiset(b[..k]) + multiset(b[k + 1..]);
    }
  }

  /** Mapping both sides of a permutation gives a permutation. */
  lemma {:induction false} PermutationMaps<T, U>(f: T -> U, a: seq<T>, b: seq<T>)
    requires multiset(a) == multiset(b)
    ensures multiset(MapSeq(f, a)) == multiset(MapSeq(f, b))
    decreases |a|
  {
    if a == [] {
      assert |multiset(b)| == 0;
    } else {
      var x := a[0];
      assert x in multiset(b);
      var k :| 0 <= k < |b| && b[k] == x;
      var rest := b[..k] + b[k + 1..];
      RemoveMatching(a, b, k);
      PermutationMaps(f, a[1..], rest);
      var p, q := b[..k], b[k + 1..];
      calc {
        multiset(MapSeq(f, a));
        { assert a == [x] + a[1..]; MapSeqAppend(f, [x], a[1..]); }
        multiset(MapSeq(f, [x]) + MapSeq(f, a[1..]));
        multiset{f(x)} + multiset(MapSeq(f, rest));
        { MapSeqAppend(f, p, q); }
        multiset{f(x)} + multiset(MapSeq(f, p)) + multiset(MapSeq(f, q));
        multiset(MapSeq(f, p)) + multiset(MapSeq(f, [x])) + multiset(MapSeq(f, q));
        { MapSeqAppend(f, p, [x]); MapSeqAppend(f, p + [x], q); }
        multiset(MapSeq(f, p + [x] + q));
        { assert b == p + [x] + q; }
        multiset(MapSeq(f, b));
      }
    }
  }
}
