/** `create_features` (feature_engineering.py) as the in-place pass it is:
    each step rewrites one column of the table, or sorts its rows, in the
    array that holds the table. */
module FeatureBuilder {
  import opened Wrappers
  import opened Preprocessing
  import opened Ordering
  import opened Features
  import opened Sequences
  import opened Sorting

  /** Row order by the sort key of the row's transaction. */
  predicate RowLe(x: FRow, y: FRow) {
    KeyLe(x.txn, y.txn)
  }

  lemma RowLeTotalPreorder()
    ensures TotalPreorder(RowLe)
  {
    forall x, y ensures RowLe(x, y) || RowLe(y, x) {
      KeyLeTotal(x.txn, y.txn);
    }
    forall x, y, z | RowLe(x, y) && RowLe(y, z) ensures RowLe(x, z) {
      KeyLeTransitive(x.txn, y.txn, z.txn);
    }
  }

  /** `sort_values(["AcctName", "InventoryCD", "TranDate"], inplace=True)`:
      sorted by key, a permutation, and a table already in key order is
      left as it is. */
  method SortByKey(a: array<FRow>)
    modifies a
    ensures Sorted(Txns(a[..]))
    ensures multiset(a[..]) == multiset(old(a[..]))
    ensures Sorted(Txns(old(a[..]))) ==> a[..] == old(a[..])
  {
    RowLeTotalPreorder();
    ghost var before := a[..];
    assert Sorted(Txns(before)) ==> SortedUpTo(before, |before|, RowLe);
    InsertionSort(a, RowLe);
    assert SortedUpTo(a[..], a.Length, RowLe);
  }

  /** Line 10: the `Weekday` column from each row's transaction date. */
  method AddWeekdays(df: array<FRow>)
    modifies df
    ensures forall k :: 0 <= k < df.Length ==>
      df[k] == old(df[k]).(weekday := WeekdayOf(old(df[k]).txn.tranDate))
  {
    var i := 0;
    while i < df.Length
      invariant 0 <= i <= df.Length
      invariant forall k :: 0 <= k < i ==> df[k] == old(df[k]).(weekday := WeekdayOf(old(df[k]).txn.tranDate))
      invariant forall k :: i <= k < df.Length ==> df[k] == old(df[k])
    {
      df[i] := df[i].(weekday := WeekdayOf(df[i].txn.tranDate));
      i := i + 1;
    }
  }

  /** The right-hand side of line 16: the grouped shift of the sorted
      table, read off the row above. */
  method ShiftColumn(df: array<FRow>, ghost t: seq<Txn>) returns (col: seq<Option<real>>)
    requires Txns(df[..]) == t
    ensures col == Lags(t)
    ensures forall k :: 0 <= k < |col| && Sorted(t) ==> col[k] == GroupShift(t, k)
  {
    col := [];
    var i := 0;
    while i < df.Length
      invariant 0 <= i <= df.Length
      invariant col == Lags(t)[..i]
    {
      var lag := if i > 0 && SameGroup(df[i - 1].txn, df[i].txn) then Some(df[i - 1].txn.returnRate) else None;
      col := col + [lag];
      i := i + 1;
    }
    forall k | 0 <= k < |col| && Sorted(t)
      ensures col[k] == GroupShift(t, k)
    {
      LagIsGroupShift(t, k);
    }
  }

  /** Line 16: `Prev_ReturnRate` as the grouped shift of the sorted table. */
  method AddLags(df: array<FRow>, ghost t: seq<Txn>)
    requires Txns(df[..]) == t
    modifies df
    ensures forall k :: 0 <= k < df.Length ==> df[k] == old(df[k]).(prevReturnRate := LagAt(t, k))
  {
    var col := ShiftColumn(df, t);
    AssignPrev(df, col);
  }

  /** `df["Prev_ReturnRate"] = col`. */
  method AssignPrev(df: array<FRow>, col: seq<Option<real>>)
    requires |col| == df.Length
    modifies df
    ensures forall k :: 0 <= k < df.Length ==> df[k] == old(df[k]).(prevReturnRate := col[k])
  {
    var i := 0;
    while i < df.Length
      invariant 0 <= i <= df.Length
      invariant forall k :: 0 <= k < i ==> df[k] == old(df[k]).(prevReturnRate := col[k])
      invariant forall k :: i <= k < df.Length ==> df[k] == old(df[k])
    {
      df[i] := df[i].(prevReturnRate := col[i]);
      i := i + 1;
    }
  }

  /** Line 19: backfill `Prev_ReturnRate` over the whole column, from the
      bottom row up, then default what is still missing to 0. */
  method BackFillLags(df: array<FRow>, ghost t: seq<Txn>)
    requires |t| == df.Length
    requires forall k :: 0 <= k < df.Length ==> df[k].prevReturnRate == LagAt(t, k)
    modifies df
    ensures forall k :: 0 <= k < df.Length ==> df[k] == old(df[k]).(prevReturnRate := Some(PrevFilled(t, k)))
  {
    ghost var lags := Lags(t);
    var next: Option<real> := None;
    var i := df.Length;
    while i > 0
      invariant 0 <= i <= df.Length
      invariant forall k :: 0 <= k < i ==> df[k] == old(df[k])
      invariant forall k :: i <= k < df.Length ==> df[k] == old(df[k]).(prevReturnRate := Some(PrevFilled(t, k)))
      invariant next == BackFillAt(lags, i)
    {
      i := i - 1;
      assert df[i].prevReturnRate == lags[i];
      if df[i].prevReturnRate.Some? {
        next := df[i].prevReturnRate;
      }
      df[i] := df[i].(prevReturnRate := Some(next.GetOr(0.0)));
    }
  }

  /** `rolling(3, min_periods=1).mean()` at row `i`: the mean of the row
      and of the one or two rows above it that belong to its group. */
  method WindowMean(df: array<FRow>, ghost t: seq<Txn>, i: nat) returns (mean: real)
    requires Txns(df[..]) == t && i < df.Length
    ensures mean == RollingAt(t, i)
  {
    mean := df[i].txn.returnRate;
    if i >= 1 && SameGroup(df[i - 1].txn, df[i].txn) {
      if i >= 2 && SameGroup(df[i - 2].txn, df[i - 1].txn) {
        mean := (df[i - 2].txn.returnRate + df[i - 1].txn.returnRate + df[i].txn.returnRate) / 3.0;
      } else {
        mean := (df[i - 1].txn.returnRate + df[i].txn.returnRate) / 2.0;
      }
    }
    RollingGroupStart(t, i);
  }

  /** The right-hand side of lines 22-27: the grouped rolling mean of
      every row. */
  method RollingColumn(df: array<FRow>, ghost t: seq<Txn>) returns (col: seq<real>)
    requires Txns(df[..]) == t
    ensures |col| == |t|
    ensures forall k :: 0 <= k < |t| ==> col[k] == RollingAt(t, k)
  {
    col := [];
    var i := 0;
    while i < df.Length
      invariant 0 <= i <= df.Length
      invariant |col| == i
      invariant forall k :: 0 <= k < i ==> col[k] == RollingAt(t, k)
    {
      var mean := WindowMean(df, t, i);
      col := col + [mean];
      i := i + 1;
    }
  }

  /** Lines 22-27: the `Rolling_ReturnRate` column. */
  method AddRolling(df: array<FRow>, ghost t: seq<Txn>)
    requires Txns(df[..]) == t
    modifies df
    ensures forall k :: 0 <= k < df.Length ==> df[k] == old(df[k]).(rollingReturnRate := Some(RollingAt(t, k)))
  {
    var col := RollingColumn(df, t);
    AssignRolling(df, col);
  }

  /** `df["Rolling_ReturnRate"] = col`. */
  method AssignRolling(df: array<FRow>, col: seq<real>)
    requires |col| == df.Length
    modifies df
    ensures forall k :: 0 <= k < df.Length ==> df[k] == old(df[k]).(rollingReturnRate := Some(col[k]))
  {
    var i := 0;
    while i < df.Length
      invariant 0 <= i <= df.Length
      invariant forall k :: 0 <= k < i ==> df[k] == old(df[k]).(rollingReturnRate := Some(col[k]))
      invariant forall k :: i <= k < df.Length ==> df[k] == old(df[k])
    {
      df[i] := df[i].(rollingReturnRate := Some(col[i]));
      i := i + 1;
    }
  }

  /** Line 30: `fillna(0, inplace=True)` on the date cells. */
  method FillMissing(df: array<FRow>)
    modifies df
    ensures forall k :: 0 <= k < df.Length ==> df[k] == old(df[k]).(txn := FillTxn(old(df[k]).txn))
  {
    var i := 0;
    while i < df.Length
      invariant 0 <= i <= df.Length
      invariant forall k :: 0 <= k < i ==> df[k] == old(df[k]).(txn := FillTxn(old(df[k]).txn))
      invariant forall k :: i <= k < df.Length ==> df[k] == old(df[k])
    {
      df[i] := df[i].(txn := FillTxn(df[i].txn));
      i := i + 1;
    }
  }

  /** Line 13 with what the rest of the pass needs from it: the sorted
      `Txn` column `t`, a permutation of the one before, and each row still
      carrying the weekday of its own date. */
  method SortRows(df: array<FRow>) returns (ghost t: seq<Txn>)
    requires forall k :: 0 <= k < df.Length ==>
      df[k].txn.tranDate.Some? && df[k].weekday == WeekdayOf(df[k].txn.tranDate)
    modifies df
    ensures t == Txns(df[..]) && Sorted(t)
    ensures multiset(t) == multiset(Txns(old(df[..])))
    ensures Sorted(Txns(old(df[..]))) ==> t == Txns(old(df[..]))
    ensures forall k :: 0 <= k < df.Length ==>
      t[k].tranDate.Some? && df[k].weekday == WeekdayOf(t[k].tranDate)
  {
    ghost var before := df[..];
    SortByKey(df);
    t := Txns(df[..]);
    PermutationMaps((r: FRow) => r.txn, df[..], before);
    forall k | 0 <= k < df.Length
      ensures t[k].tranDate.Some? && df[k].weekday == WeekdayOf(t[k].tranDate)
    {
      assert df[k] in multiset(before);
    }
  }

  /** The whole of `create_features`. The ghost result `t` is the table
      right after the sort; the array ends up as `FeatureTable(t)`. Line 7
      re-parses instants that are already instants, which changes nothing. */
  method CreateFeatures(df: array<FRow>) returns (ghost t: seq<Txn>)
    requires forall k :: 0 <= k < df.Length ==> df[k].txn.tranDate.Some?
    modifies df
    ensures multiset(t) == multiset(Txns(old(df[..])))
    ensures Sorted(t)
    ensures Sorted(Txns(old(df[..]))) ==> t == Txns(old(df[..]))
    ensures forall k :: 0 <= k < |t| ==> t[k].tranDate.Some?
    ensures df[..] == FeatureTable(t)
  {
    AddWeekdays(df);
    assert Txns(df[..]) == Txns(old(df[..]));
    t := SortRows(df);
    AddLags(df, t);
    BackFillLags(df, t);
    assert Txns(df[..]) == t;
    AddRolling(df, t);
    FillMissing(df);
    assert forall k :: 0 <= k < df.Length ==> df[k] == FeatureTable(t)[k];
  }

  /** Running the feature pass on a table it has already built changes
      nothing: the built table is a fixed point of `create_features`. */
  method CreateFeaturesOnBuilt(df: array<FRow>, ghost t0: seq<Txn>)
    requires Sorted(t0) && (forall k :: 0 <= k < |t0| ==> t0[k].tranDate.Some?)
    requires df[..] == FeatureTable(t0)
    modifies df
    ensures df[..] == old(df[..])
  {
    FeaturesComplete(t0);
    FeatureTableIdempotent(t0);
    ghost var t := CreateFeatures(df);
  }
}
