/** The row order of `sort_values(["AcctName", "InventoryCD", "TranDate"])`
    and the (`AcctName`, `InventoryCD`) grouping used by the feature builder. */
module Ordering {
  import opened Wrappers
  import opened Preprocessing

  /** Python's string order: lexicographic by code point, a proper prefix
      before any of its extensions. */
  predicate StrLe(a: string, b: string)
    ensures StrLe(a, b) <==>
      a <= b || exists k :: 0 <= k < |a| && k < |b| && a[..k] == b[..k] && a[k] < b[k]
  {
    if a == [] then true
    else if b == [] then false
    else if a[0] != b[0] then
      assert forall k :: 0 < k < |a| && k < |b| ==> a[..k] != b[..k] by {
        forall k | 0 < k < |a| && k < |b| ensures a[..k] != b[..k] {
          assert a[..k][0] == a[0] && b[..k][0] == b[0];
        }
      }
      assert a[0] < b[0] ==> a[..0] == b[..0];
      a[0] < b[0]
    else
      FirstDifferenceOfTails(a, b);
      StrLe(a[1..], b[1..])
  }

  /** Two strings with the same first character first differ where their
      tails first differ, one place further on. */
  lemma FirstDifferenceOfTails(a: string, b: string)
    requires a != [] && b != [] && a[0] == b[0]
    ensures (a <= b || exists k :: 0 <= k < |a| && k < |b| && a[..k] == b[..k] && a[k] < b[k]) <==>
      (a[1..] <= b[1..] ||
       exists k :: 0 <= k < |a| - 1 && k < |b| - 1 && a[1..][..k] == b[1..][..k] && a[1..][k] < b[1..][k])
  {
    assert a == [a[0]] + a[1..] && b == [b[0]] + b[1..];
    forall k | 0 <= k < |a| && k < |b| && a[..k] == b[..k] && a[k] < b[k]
      ensures k > 0 && a[1..][..k - 1] == b[1..][..k - 1] && a[1..][k - 1] < b[1..][k - 1]
    {
      assert a[1..][..k - 1] == a[..k][1..] && b[1..][..k - 1] == b[..k][1..];
    }
    forall k | 0 <= k < |a| - 1 && k < |b| - 1 && a[1..][..k] == b[1..][..k] && a[1..][k] < b[1..][k]
      ensures a[..k + 1] == b[..k + 1] && a[k + 1] < b[k + 1]
    {
      assert a[..k + 1] == [a[0]] + a[1..][..k] && b[..k + 1] == [b[0]] + b[1..][..k];
    }
  }

  lemma {:induction false} StrLeTotal(a: string, b: string)
    ensures StrLe(a, b) || StrLe(b, a)
    decreases |a|
  {
    if a != [] && b != [] && a[0] == b[0] {
      StrLeTotal(a[1..], b[1..]);
    }
  }

  lemma {:induction false} StrLeAntisymmetric(a: string, b: string)
    requires StrLe(a, b) && StrLe(b, a)
    ensures a == b
    decreases |a|
  {
    if a != [] && b != [] {
      StrLeAntisymmetric(a[1..], b[1..]);
      assert a == [a[0]] + a[1..] && b == [b[0]] + b[1..];
    }
  }

  lemma {:induction false} StrLeTransitive(a: string, b: string, c: string)
    requires StrLe(a, b) && StrLe(b, c)
    ensures StrLe(a, c)
    decreases |a|
  {
    if a != [] && b != [] && c != [] && a[0] == b[0] && b[0] == c[0] {
      StrLeTransitive(a[1..], b[1..], c[1..]);
    }
  }

  /** Timestamp order with NaT placed last (`na_position="last"`). */
  predicate DateLe(x: Option<int>, y: Option<int>)
    ensures y.None? ==> DateLe(x, y)
    ensures x.None? && y.Some? ==> !DateLe(x, y)
    ensures x.Some? && y.Some? ==> (DateLe(x, y) <==> x.value <= y.value)
  {
    match (x, y)
    case (Some(a), Some(b)) => a <= b
    case (_, None) => true
    case (None, Some(_)) => false
  }

  /** The sort key (`AcctName`, `InventoryCD`, `TranDate`), compared
      column by column. */
  predicate KeyLe(x: Txn, y: Txn)
    ensures SameGroup(x, y) ==> (KeyLe(x, y) <==> DateLe(x.tranDate, y.tranDate))
    ensures x.acctName == y.acctName && x.inventoryCD != y.inventoryCD ==> (KeyLe(x, y) <==> x.inventoryCD < y.inventoryCD)
    ensures x.acctName != y.acctName ==> (KeyLe(x, y) <==> StrLe(x.acctName, y.acctName))
  {
    if x.acctName != y.acctName then StrLe(x.acctName, y.acctName)
    else if x.inventoryCD != y.inventoryCD then x.inventoryCD < y.inventoryCD
    else DateLe(x.tranDate, y.tranDate)
  }

  /** Any two rows are comparable. */
  lemma KeyLeTotal(x: Txn, y: Txn)
    ensures KeyLe(x, y) || KeyLe(y, x)
  {
    StrLeTotal(x.acctName, y.acctName);
  }

  lemma KeyLeTransitive(x: Txn, y: Txn, z: Txn)
    requires KeyLe(x, y) && KeyLe(y, z)
    ensures KeyLe(x, z)
  {
    if x.acctName != y.acctName && y.acctName != z.acctName {
      StrLeTransitive(x.acctName, y.acctName, z.acctName);
      if x.acctName == z.acctName {
        StrLeAntisymmetric(x.acctName, y.acctName);
      }
    }
  }

  /** Two rows of the same (`AcctName`, `InventoryCD`) group. */
  predicate SameGroup(x: Txn, y: Txn)
    ensures SameGroup(x, y) <==> (x.acctName, x.inventoryCD) == (y.acctName, y.inventoryCD)
  {
    x.acctName == y.acctName && x.inventoryCD == y.inventoryCD
  }

  /** A row whose key lies between two keys of one group is in that group. */
  lemma GroupBetween(x: Txn, y: Txn, z: Txn)
    requires KeyLe(x, y) && KeyLe(y, z) && SameGroup(x, z)
    ensures SameGroup(y, z)
  {
    if x.acctName != y.acctName && y.acctName != z.acctName {
      StrLeAntisymmetric(x.acctName, y.acctName);
    }
  }

  /** Ascending by key. */
  predicate Sorted(t: seq<Txn>)
    ensures |t| <= 1 ==> Sorted(t)
    ensures Sorted(t) ==> forall i :: 0 < i < |t| ==> KeyLe(t[i - 1], t[i])
  {
    forall i, j :: 0 <= i < j < |t| ==> KeyLe(t[i], t[j])
  }

  /** In a sorted table every group occupies one contiguous run of rows. */
  lemma GroupContiguous(t: seq<Txn>, j: nat, k: nat, i: nat)
    requires Sorted(t) && j <= k <= i < |t|
    requires SameGroup(t[j], t[i])
    ensures SameGroup(t[k], t[i])
  {
    if j < k < i {
      GroupBetween(t[j], t[k], t[i]);
    }
  }
}
