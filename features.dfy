/** What `create_features` (feature_engineering.py) computes, as functions
    of the sorted table: the weekday, the grouped lag of `ReturnRate` with
    its whole-column backfill, and the grouped trailing mean over up to
    three rows. The in-place method that computes them is in
    feature_builder.dfy. */
module Features {
  import opened Wrappers
  import opened Preprocessing
  import opened Ordering
  import opened Sequences

  datatype DayName = Monday | Tuesday | Wednesday | Thursday | Friday | Saturday | Sunday

  const SecondsPerDay: int := 86400

  /** The UTC calendar day name of an instant (1970-01-01 was a Thursday). */
  function DayOf(instant: int): (d: DayName)
    ensures d == Thursday <==> (instant / SecondsPerDay) % 7 == 0
    ensures d == Friday <==> (instant / SecondsPerDay) % 7 == 1
    ensures d == Saturday <==> (instant / SecondsPerDay) % 7 == 2
    ensures d == Sunday <==> (instant / SecondsPerDay) % 7 == 3
    ensures d == Monday <==> (instant / SecondsPerDay) % 7 == 4
    ensures d == Tuesday <==> (instant / SecondsPerDay) % 7 == 5
    ensures d == Wednesday <==> (instant / SecondsPerDay) % 7 == 6
  {
    var k := (instant / SecondsPerDay + 3) % 7;
    if k == 0 then Monday else if k == 1 then Tuesday else if k == 2 then Wednesday
    else if k == 3 then Thursday else if k == 4 then Friday else if k == 5 then Saturday
    else Sunday
  }

  /** `dt.day_name()`: missing for NaT. */
  function WeekdayOf(d: Option<int>): (r: Option<DayName>)
    ensures r.Some? <==> d.Some?
  {
    match d
    case Some(t) => Some(DayOf(t))
    case None => None
  }

  /** The day name repeats every seven days, and is the same at every
      instant of one UTC day. */
  lemma DayOfPeriodic(t: int, u: int)
    ensures DayOf(t + 7 * SecondsPerDay) == DayOf(t)
    ensures t / SecondsPerDay == u / SecondsPerDay ==> DayOf(t) == DayOf(u)
  {
    assert (t + 7 * SecondsPerDay) / SecondsPerDay == t / SecondsPerDay + 7;
  }

  lemma DayOfExamples()
    ensures DayOf(0) == Thursday
    ensures DayOf(1718409600) == Saturday  // 2024-06-15
    ensures DayOf(1735603200) == Tuesday   // 2024-12-31
  {
  }

  // ---------------------------------------------------------------- lag

  /** The nearest row before position `j` in the group of row `i`: what
      `groupby(...).shift(1)` picks, in any row order. */
  function PrevMember(t: seq<Txn>, i: nat, j: nat): (r: Option<nat>)
    requires i < |t| && j <= i
    ensures r.Some? ==> r.value < j && SameGroup(t[r.value], t[i])
    ensures r.Some? ==> forall m :: r.value < m < j ==> !SameGroup(t[m], t[i])
    ensures r.None? ==> forall m :: 0 <= m < j ==> !SameGroup(t[m], t[i])
    decreases j
  {
    if j == 0 then None
    else if SameGroup(t[j - 1], t[i]) then Some(j - 1)
    else PrevMember(t, i, j - 1)
  }

  /** The grouped shift by one: the previous group member's `ReturnRate`. */
  function GroupShift(t: seq<Txn>, i: nat): (r: Option<real>)
    requires i < |t|
    ensures r.None? <==> forall m :: 0 <= m < i ==> !SameGroup(t[m], t[i])
    ensures r.Some? ==>
      (exists j :: 0 <= j < i && SameGroup(t[j], t[i]) && r.value == t[j].returnRate &&
                   (forall m :: j < m < i ==> !SameGroup(t[m], t[i])))
  {
    match PrevMember(t, i, i)
    case Some(j) => Some(t[j].returnRate)
    case None => None
  }

  /** The lag as read off a sorted table: the row just above, when it is
      in the same group. */
  function LagAt(t: seq<Txn>, i: nat): (r: Option<real>)
    requires i < |t|
    ensures r.Some? ==> r == GroupShift(t, i)
  {
    if i > 0 && SameGroup(t[i - 1], t[i]) then Some(t[i - 1].returnRate) else None
  }

  /** On a sorted table, the adjacent-row lag is the grouped shift: a row
      that is not first in its group gets the `ReturnRate` of the row just
      before it, and a group's first row gets nothing. */
  lemma LagIsGroupShift(t: seq<Txn>, i: nat)
    requires Sorted(t) && i < |t|
    ensures LagAt(t, i) == GroupShift(t, i)
    ensures LagAt(t, i).None? <==> forall m :: 0 <= m < i ==> !SameGroup(t[m], t[i])
  {
    if !(i > 0 && SameGroup(t[i - 1], t[i])) {
      var p := PrevMember(t, i, i);
      if p.Some? {
        GroupContiguous(t, p.value, i - 1, i);
      }
    }
  }

  /** The `Prev_ReturnRate` column right after line 16. */
  function Lags(t: seq<Txn>): (c: seq<Option<real>>)
    ensures |c| == |t|
    ensures |t| > 0 ==> c[0].None?
    ensures forall k :: 0 < k < |t| && !SameGroup(t[k - 1], t[k]) ==> c[k].None?
  {
    seq(|t|, i requires 0 <= i < |t| => LagAt(t, i))
  }

  // ----------------------------------------------------------- backfill

  /** The first position at or after `i` holding a value. */
  function NextPresent(c: seq<Option<real>>, i: nat): (r: Option<nat>)
    requires i <= |c|
    ensures r.Some? ==> i <= r.value < |c| && c[r.value].Some?
    ensures r.Some? ==> forall m :: i <= m < r.value ==> c[m].None?
    ensures r.None? ==> forall m :: i <= m < |c| ==> c[m].None?
    decreases |c| - i
  {
    if i == |c| then None
    else if c[i].Some? then Some(i)
    else NextPresent(c, i + 1)
  }

  /** `fillna(method="bfill")` over a whole column, cell `i`. */
  function BackFillAt(c: seq<Option<real>>, i: nat): (r: Option<real>)
    requires i <= |c|
    ensures i == |c| ==> r.None?
    ensures i < |c| && c[i].Some? ==> r == c[i]
  {
    match NextPresent(c, i)
    case Some(k) => c[k]
    case None => None
  }

  /** `Prev_ReturnRate` after line 19: backfilled over the whole sorted
      table, across group boundaries, then defaulted to 0. */
  function PrevFilled(t: seq<Txn>, i: nat): (r: real)
    requires i < |t|
    ensures LagAt(t, i).Some? ==> r == LagAt(t, i).value
    ensures i + 1 == |t| && LagAt(t, i).None? ==> r == 0.0
  {
    BackFillAt(Lags(t), i).GetOr(0.0)
  }

  /** A missing lag takes the first lag present further down the table
      (whatever its group); with none left it becomes 0. A lag that is
      present is kept. */
  lemma PrevFilledIsNextLag(t: seq<Txn>, i: nat)
    requires i < |t|
    ensures LagAt(t, i).Some? ==> PrevFilled(t, i) == LagAt(t, i).value
    ensures (forall k :: i <= k < |t| ==> LagAt(t, k).None?) ==> PrevFilled(t, i) == 0.0
    ensures (forall k :: i <= k < |t| && LagAt(t, k).Some? && (forall m :: i <= m < k ==> LagAt(t, m).None?)
               ==> PrevFilled(t, i) == LagAt(t, k).value)
  {
    var c := Lags(t);
    forall k | i <= k < |t| && LagAt(t, k).Some? && (forall m :: i <= m < k ==> LagAt(t, m).None?)
      ensures PrevFilled(t, i) == LagAt(t, k).value
    {
      assert c[k].Some?;
      assert forall m :: i <= m < k ==> c[m].None?;
    }
    if forall k :: i <= k < |t| ==> LagAt(t, k).None? {
      assert forall m :: i <= m < |c| ==> c[m].None?;
    }
  }

  /** The backfill's effect on a group of two or more rows: the first row
      borrows the lag of the second, which is its own `ReturnRate`. */
  lemma FirstOfGroupTakesOwnRate(t: seq<Txn>, i: nat)
    requires i + 1 < |t|
    requires i == 0 || !SameGroup(t[i - 1], t[i])
    requires SameGroup(t[i], t[i + 1])
    ensures PrevFilled(t, i) == t[i].returnRate
  {
    PrevFilledIsNextLag(t, i);
    assert LagAt(t, i).None? && LagAt(t, i + 1) == Some(t[i].returnRate);
  }

  /** A one-row group followed by another group takes the same filled value
      as that group's first row: the backfill crosses group boundaries. */
  lemma SingletonBorrowsFromNextGroup(t: seq<Txn>, i: nat)
    requires i + 1 < |t|
    requires i == 0 || !SameGroup(t[i - 1], t[i])
    requires !SameGroup(t[i], t[i + 1])
    ensures PrevFilled(t, i) == PrevFilled(t, i + 1)
  {
    var c := Lags(t);
    assert c[i].None?;
    assert NextPresent(c, i) == NextPresent(c, i + 1);
  }

  // ------------------------------------------------------------ rolling

  function Sum(xs: seq<real>): (r: real) {
    if xs == [] then 0.0 else xs[0] + Sum(xs[1..])
  }

  function Mean(xs: seq<real>): (r: real)
    requires xs != []
  {
    Sum(xs) / |xs| as real
  }

  /** The arithmetic mean lies between the least and the greatest value. */
  lemma {:induction false} MeanBounds(xs: seq<real>, lo: real, hi: real)
    requires xs != []
    requires forall k :: 0 <= k < |xs| ==> lo <= xs[k] <= hi
    ensures lo <= Mean(xs) <= hi
  {
    SumBounds(xs, lo, hi);
  }

  lemma {:induction false} SumBounds(xs: seq<real>, lo: real, hi: real)
    requires forall k :: 0 <= k < |xs| ==> lo <= xs[k] <= hi
    ensures |xs| as real * lo <= Sum(xs) <= |xs| as real * hi
    decreases |xs|
  {
    if xs != [] {
      SumBounds(xs[1..], lo, hi);
    }
  }

  /** The first row of the window `rolling(3, min_periods=1)` averages over:
      up to two rows above, as long as they are in the row's group. */
  function WindowStart(t: seq<Txn>, i: nat): (s: nat)
    requires i < |t|
    ensures s <= i && i - s < 3
    ensures forall k :: s <= k <= i ==> SameGroup(t[k], t[i])
  {
    if i >= 1 && SameGroup(t[i - 1], t[i]) then
      if i >= 2 && SameGroup(t[i - 2], t[i - 1]) then i - 2 else i - 1
    else i
  }

  /** On a sorted table the window is the last (up to three) rows of the
      row's group up to and including the row: an earlier row of the group
      is left out only when the window is already full. */
  lemma WindowIsGroupTail(t: seq<Txn>, i: nat, j: nat)
    requires Sorted(t) && j <= i < |t|
    requires SameGroup(t[j], t[i])
    ensures j < WindowStart(t, i) ==> WindowStart(t, i) == i - 2
  {
    if j < i {
      GroupContiguous(t, j, i - 1, i);
      if j < i - 1 {
        GroupContiguous(t, j, i - 2, i);
      }
    }
  }

  function Rates(t: seq<Txn>): (r: seq<real>)
    ensures |r| == |t|
    ensures forall k :: 0 <= k < |t| ==> r[k] == t[k].returnRate
  {
    seq(|t|, k requires 0 <= k < |t| => t[k].returnRate)
  }

  /** `Rolling_ReturnRate` of row `i`. */
  function RollingAt(t: seq<Txn>, i: nat): (r: real)
    requires i < |t|
    ensures i == 0 || !SameGroup(t[i - 1], t[i]) ==> r == t[i].returnRate
  {
    var xs := Rates(t[WindowStart(t, i)..i + 1]);
    assert WindowStart(t, i) == i ==> xs == [t[i].returnRate];
    SumSmall(t[i].returnRate, 0.0, 0.0);
    Mean(xs)
  }

  /** The mean of one, two or three values. */
  lemma SumSmall(x: real, y: real, z: real)
    ensures Sum([x]) == x && Sum([x, y]) == x + y && Sum([x, y, z]) == x + y + z
  {
    assert [x, y][1..] == [y] && [y][1..] == [];
    assert Sum([x, y]) == x + Sum([y]);
    assert [x, y, z][1..] == [y, z];
    assert Sum([x, y, z]) == x + Sum([y, z]);
    assert [y, z][1..] == [z] && [z][1..] == [];
    assert Sum([y, z]) == y + Sum([z]);
  }

  /** The rolling mean lies between any bounds on the `ReturnRate` of its
      window rows. */
  lemma RollingBounds(t: seq<Txn>, i: nat, lo: real, hi: real)
    requires i < |t|
    requires forall k :: WindowStart(t, i) <= k <= i ==> lo <= t[k].returnRate <= hi
    ensures lo <= RollingAt(t, i) <= hi
  {
    var s := WindowStart(t, i);
    var xs := Rates(t[s..i + 1]);
    assert forall k :: 0 <= k < |xs| ==> xs[k] == t[s + k].returnRate;
    MeanBounds(xs, lo, hi);
  }

  /** A group's first row averages over itself alone; the next two rows of
      a group average over the rows of the group so far. */
  lemma RollingGroupStart(t: seq<Txn>, i: nat)
    requires i < |t|
    ensures i == 0 || !SameGroup(t[i - 1], t[i]) ==> RollingAt(t, i) == t[i].returnRate
    ensures WindowStart(t, i) == i - 1 ==> RollingAt(t, i) == (t[i - 1].returnRate + t[i].returnRate) / 2.0
    ensures WindowStart(t, i) == i - 2 ==>
      RollingAt(t, i) == (t[i - 2].returnRate + t[i - 1].returnRate + t[i].returnRate) / 3.0
  {
    var s := WindowStart(t, i);
    var xs := Rates(t[s..i + 1]);
    if s == i {
      assert xs == [t[i].returnRate];
      SumSmall(t[i].returnRate, 0.0, 0.0);
    } else if s == i - 1 {
      assert xs == [t[i - 1].returnRate, t[i].returnRate];
      SumSmall(t[i - 1].returnRate, t[i].returnRate, 0.0);
    } else {
      assert xs == [t[i - 2].returnRate, t[i - 1].returnRate, t[i].returnRate];
      SumSmall(t[i - 2].returnRate, t[i - 1].returnRate, t[i].returnRate);
    }
  }

  // ------------------------------------------------------- whole table

  /** One output row: the input row with `Weekday`, `Prev_ReturnRate` and
      `Rolling_ReturnRate` added. */
  datatype FRow = FRow(txn: Txn, weekday: Option<DayName>, prevReturnRate: Option<real>, rollingReturnRate: Option<real>)

  /** The `Txn` column of a table. */
  function Txns(s: seq<FRow>): (t: seq<Txn>)
    ensures |t| == |s|
    ensures forall k :: 0 <= k < |s| ==> t[k] == s[k].txn
  {
    MapSeq((r: FRow) => r.txn, s)
  }

  /** `fillna(0)` on the date cells of a row; nothing else changes. */
  function FillTxn(x: Txn): (r: Txn)
    ensures r.(tranDate := x.tranDate, deliveryDate := x.deliveryDate, returnDate := x.returnDate) == x
    ensures r.tranDate.Some? && r.deliveryDate.Some? && r.returnDate.Some?
    ensures x.tranDate.Some? ==> r.tranDate == x.tranDate
    ensures x.deliveryDate.Some? ==> r.deliveryDate == x.deliveryDate
    ensures x.returnDate.Some? ==> r.returnDate == x.returnDate
    ensures x.tranDate.None? ==> r.tranDate == Some(0)
    ensures x.deliveryDate.None? ==> r.deliveryDate == Some(0)
    ensures x.returnDate.None? ==> r.returnDate == Some(0)
  {
    x.(tranDate := Some(x.tranDate.GetOr(0)),
       deliveryDate := Some(x.deliveryDate.GetOr(0)),
       returnDate := Some(x.returnDate.GetOr(0)))
  }

  /** The table `create_features` returns for the sorted table `t`. */
  function FeatureTable(t: seq<Txn>): (r: seq<FRow>)
    ensures |r| == |t|
    ensures forall k :: 0 <= k < |t| ==> r[k].txn == FillTxn(t[k])
    ensures forall k :: 0 <= k < |t| ==> (r[k].weekday.Some? <==> t[k].tranDate.Some?)
    ensures forall k :: 0 <= k < |t| ==> r[k].prevReturnRate.Some? && r[k].rollingReturnRate.Some?
  {
    seq(|t|, i requires 0 <= i < |t| =>
      FRow(FillTxn(t[i]), WeekdayOf(t[i].tranDate), Some(PrevFilled(t, i)), Some(RollingAt(t, i))))
  }

  /** With every transaction date present, no output cell is missing, and
      every row keeps its key and its quantities. */
  lemma FeaturesComplete(t: seq<Txn>)
    requires forall k :: 0 <= k < |t| ==> t[k].tranDate.Some?
    ensures forall k :: 0 <= k < |t| ==>
      FeatureTable(t)[k].weekday.Some? && FeatureTable(t)[k].prevReturnRate.Some? && FeatureTable(t)[k].rollingReturnRate.Some?
    ensures Txns(FeatureTable(t)) == seq(|t|, k requires 0 <= k < |t| => FillTxn(t[k]))
    ensures Sorted(t) ==> Sorted(Txns(FeatureTable(t)))
  {
    var u := Txns(FeatureTable(t));
    forall k | 0 <= k < |t|
      ensures u[k] == FillTxn(t[k]) && u[k].tranDate == t[k].tranDate
    {
    }
    if Sorted(t) {
      forall i, j | 0 <= i < j < |u| ensures KeyLe(u[i], u[j]) {
        assert KeyLe(t[i], t[j]);
        assert u[i].acctName == t[i].acctName && u[i].inventoryCD == t[i].inventoryCD;
        assert u[j].acctName == t[j].acctName && u[j].inventoryCD == t[j].inventoryCD;
      }
    }
  }

  /** The derived columns depend only on each row's group key and
      `ReturnRate`: two tables that agree on those get the same lag, filled
      lag and rolling mean everywhere. */
  lemma DerivedDependOnKeyAndRate(t: seq<Txn>, u: seq<Txn>)
    requires |t| == |u|
    requires forall k :: 0 <= k < |t| ==>
      u[k].acctName == t[k].acctName && u[k].inventoryCD == t[k].inventoryCD && u[k].returnRate == t[k].returnRate
    ensures forall k :: 0 <= k < |t| ==> PrevFilled(u, k) == PrevFilled(t, k) && RollingAt(u, k) == RollingAt(t, k)
  {
    assert Lags(u) == Lags(t);
    forall k | 0 <= k < |t|
      ensures RollingAt(u, k) == RollingAt(t, k)
    {
      var s := WindowStart(t, k);
      assert WindowStart(u, k) == s;
      assert Rates(u[s..k + 1]) == Rates(t[s..k + 1]);
    }
  }

  /** Building the features of an already built, sorted table changes
      nothing: the table is a fixed point of the feature pass. */
  lemma FeatureTableIdempotent(t: seq<Txn>)
    requires forall k :: 0 <= k < |t| ==> t[k].tranDate.Some?
    ensures FeatureTable(Txns(FeatureTable(t))) == FeatureTable(t)
  {
    var f := FeatureTable(t);
    var u := Txns(f);
    forall k | 0 <= k < |t|
      ensures u[k] == FillTxn(t[k])
    {
    }
    DerivedDependOnKeyAndRate(t, u);
    var g := FeatureTable(u);
    forall k | 0 <= k < |t|
      ensures g[k] == f[k]
    {
      assert FillTxn(u[k]) == u[k];
    }
  }

  /** One group of three rows with `ReturnRate` 10, 20, 30 in date order:
      the filled lag is 10, 10, 20 and the rolling mean 10, 15, 20. */
  lemma ThreeRowGroupExample(a: Txn)
    ensures var t := [a.(returnRate := 10.0), a.(returnRate := 20.0), a.(returnRate := 30.0)];
      PrevFilled(t, 0) == 10.0 && PrevFilled(t, 1) == 10.0 && PrevFilled(t, 2) == 20.0 &&
      RollingAt(t, 0) == 10.0 && RollingAt(t, 1) == 15.0 && RollingAt(t, 2) == 20.0
  {
    var t := [a.(returnRate := 10.0), a.(returnRate := 20.0), a.(returnRate := 30.0)];
    FirstOfGroupTakesOwnRate(t, 0);
    PrevFilledIsNextLag(t, 1);
    PrevFilledIsNextLag(t, 2);
    RollingGroupStart(t, 0);
    RollingGroupStart(t, 1);
    RollingGroupStart(t, 2);
  }

  /** A one-row group borrows from the next group: account "A" with one row
      (rate 5) before account "B" with rates 10, 20 gets a filled lag of 10. */
  lemma BorrowExample(a: Txn)
    ensures var t := [a.(acctName := "A", returnRate := 5.0),
                      a.(acctName := "B", returnRate := 10.0),
                      a.(acctName := "B", returnRate := 20.0)];
      PrevFilled(t, 0) == 10.0
  {
    var t := [a.(acctName := "A", returnRate := 5.0),
              a.(acctName := "B", returnRate := 10.0),
              a.(acctName := "B", returnRate := 20.0)];
    SingletonBorrowsFromNextGroup(t, 0);
    FirstOfGroupTakesOwnRate(t, 1);
  }
}
