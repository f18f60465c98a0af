/** Loader/Cleaner stage (`load_clean_data` in data_preprocessing.py): type
    coercion of the raw columns, the three-way return-rate rule and the fixed
    transaction-date windows of the two yearly tables.

    Timestamps are instants in whole seconds since 1970-01-01 00:00 UTC. The
    text grammars of `pd.to_datetime` and `pd.to_numeric` are not modelled:
    they are passed in as parsers that either yield a value or fail. */
module Preprocessing {
  import opened Wrappers

  /** A raw CSV cell: `None` for an empty cell, `Some(text)` otherwise. */
  type Cell = Option<string>

  /** One raw row of a yearly extract, before any conversion. */
  datatype RawRow = RawRow(
    acctName: string,
    tranDate: Cell, deliveryDate: Cell, returnDate: Cell,
    inventoryCD: Cell, acctCD: Cell, shelfLife: Cell,
    year: Cell, month: Cell, day: Cell, weekNumber: Cell,
    orderedQty: Cell, deliveredQty: Cell, returnedQty: Cell)

  /** One cleaned transaction record: dates may be missing (NaT), every
      numeric column holds a value, and `returnRate` has been derived. */
  datatype Txn = Txn(
    acctName: string,
    tranDate: Option<int>, deliveryDate: Option<int>, returnDate: Option<int>,
    inventoryCD: int, acctCD: int, shelfLife: int,
    year: int, month: int, day: int, weekNumber: int,
    orderedQty: real, deliveredQty: real, returnedQty: real,
    returnRate: real)

  /** The two parsers the cleaner relies on: text to a UTC instant
      (`pd.to_datetime(..., utc=True)`), and text to a number
      (`pd.to_numeric`). `None` is a parse failure. */
  datatype Parsers = Parsers(date: string -> Option<int>, number: string -> Option<real>)

  /** A date cell with `errors="coerce"`: a failed parse or an empty cell
      becomes a missing value, never an error. */
  function CoerceDate(c: Cell, parse: string -> Option<int>): (r: Option<int>)
    ensures r.Some? <==> c.Some? && parse(c.value).Some?
    ensures r.Some? ==> r == parse(c.value)
  {
    match c
    case None => None
    case Some(text) => parse(text)
  }

  /** A float column: `pd.to_numeric(errors="coerce").fillna(0)`. */
  function CoerceReal(c: Cell, parse: string -> Option<real>): (r: real)
    ensures c.None? || parse(c.value).None? ==> r == 0.0
    ensures c.Some? && parse(c.value).Some? ==> r == parse(c.value).value
  {
    match c
    case None => 0.0
    case Some(text) => parse(text).GetOr(0.0)
  }

  /** `astype("int64")` of a float: truncation toward zero. */
  function TruncToInt(x: real): (r: int)
    ensures 0.0 <= x ==> r as real <= x < r as real + 1.0
    ensures x < 0.0 ==> r as real - 1.0 < x <= r as real
  {
    if x >= 0.0 then x.Floor else -((-x).Floor)
  }

  /** An int column: coerce to a number, default 0, then truncate. */
  function CoerceInt(c: Cell, parse: string -> Option<real>): (r: int)
    ensures c.None? || parse(c.value).None? ==> r == 0
    ensures c.Some? && parse(c.value).Some? && parse(c.value).value == parse(c.value).value.Floor as real
      ==> r == parse(c.value).value.Floor
  {
    TruncToInt(CoerceReal(c, parse))
  }

  /** `calculate_return_rate`: a percentage of the delivered quantity, the
      raw returned count when nothing was delivered but something came back,
      and 0 otherwise. */
  function ReturnRate(delivered: real, returned: real): (r: real)
    ensures delivered > 0.0 ==> r * delivered == returned * 100.0
    ensures delivered == 0.0 && returned > 0.0 ==> r == returned
    ensures delivered < 0.0 || (delivered == 0.0 && returned <= 0.0) ==> r == 0.0
    ensures r < 0.0 <==> delivered > 0.0 && returned < 0.0
  {
    if delivered > 0.0 then returned / delivered * 100.0
    else if delivered == 0.0 && returned > 0.0 then returned
    else 0.0
  }

  /** The conversions of lines 16-30 and the `ReturnRate` column of lines
      41-42, applied to one row. */
  function CleanRow(raw: RawRow, p: Parsers): (t: Txn)
    ensures t.acctName == raw.acctName
    ensures t.returnRate == ReturnRate(t.deliveredQty, t.returnedQty)
  {
    var delivered := CoerceReal(raw.deliveredQty, p.number);
    var returned := CoerceReal(raw.returnedQty, p.number);
    Txn(
      raw.acctName,
      CoerceDate(raw.tranDate, p.date), CoerceDate(raw.deliveryDate, p.date), CoerceDate(raw.returnDate, p.date),
      CoerceInt(raw.inventoryCD, p.number), CoerceInt(raw.acctCD, p.number), CoerceInt(raw.shelfLife, p.number),
      CoerceInt(raw.year, p.number), CoerceInt(raw.month, p.number), CoerceInt(raw.day, p.number),
      CoerceInt(raw.weekNumber, p.number),
      CoerceReal(raw.orderedQty, p.number), delivered, returned,
      ReturnRate(delivered, returned))
  }

  /** A cell the number parser cannot read (or an empty one). */
  predicate Unreadable(c: Cell, p: Parsers) {
    c.None? || p.number(c.value).None?
  }

  /** Every numeric column of a cleaned row whose raw cell was empty or
      unparseable holds exactly 0; a row with neither quantity readable has
      a return rate of 0. */
  lemma CleanRowDefaults(raw: RawRow, p: Parsers)
    ensures var t := CleanRow(raw, p);
      (Unreadable(raw.inventoryCD, p) ==> t.inventoryCD == 0) &&
      (Unreadable(raw.acctCD, p) ==> t.acctCD == 0) &&
      (Unreadable(raw.shelfLife, p) ==> t.shelfLife == 0) &&
      (Unreadable(raw.year, p) ==> t.year == 0) &&
      (Unreadable(raw.month, p) ==> t.month == 0) &&
      (Unreadable(raw.day, p) ==> t.day == 0) &&
      (Unreadable(raw.weekNumber, p) ==> t.weekNumber == 0) &&
      (Unreadable(raw.orderedQty, p) ==> t.orderedQty == 0.0) &&
      (Unreadable(raw.deliveredQty, p) ==> t.deliveredQty == 0.0) &&
      (Unreadable(raw.returnedQty, p) ==> t.returnedQty == 0.0) &&
      (Unreadable(raw.deliveredQty, p) && Unreadable(raw.returnedQty, p) ==> t.returnRate == 0.0)
  {
  }

  /** `df.apply(calculate_return_rate, axis=1)` after the conversions. */
  function CleanTable(raws: seq<RawRow>, p: Parsers): (ts: seq<Txn>)
    ensures |ts| == |raws|
    ensures forall i :: 0 <= i < |raws| ==> ts[i] == CleanRow(raws[i], p)
  {
    seq(|raws|, i requires 0 <= i < |raws| => CleanRow(raws[i], p))
  }

  /** A closed window of instants. */
  datatype Window = Window(lo: int, hi: int)

  /** 2024-01-01 00:00 UTC through 2024-12-31 00:00 UTC: the bound
      "2024-12-31" is an instant, so the rest of that day is outside. */
  const Window2024 := Window(1704067200, 1735603200)

  /** 2025-01-01 00:00 UTC through 2025-02-19 00:00 UTC. */
  const Window2025 := Window(1735689600, 1739923200)

  /** The row mask of lines 48-49; NaT compares false, so such rows drop. */
  predicate InWindow(t: Txn, w: Window)
    ensures InWindow(t, w) ==> t.tranDate.Some?
    ensures t.tranDate.Some? ==> (InWindow(t, w) <==> w.lo <= t.tranDate.value <= w.hi)
  {
    t.tranDate.Some? && w.lo <= t.tranDate.value <= w.hi
  }

  /** Boolean-mask row selection `df[mask]`. */
  function FilterWindow(s: seq<Txn>, w: Window): (r: seq<Txn>)
    ensures |r| <= |s|
    ensures forall k :: 0 <= k < |r| ==> InWindow(r[k], w)
  {
    if s == [] then []
    else (if InWindow(s[0], w) then [s[0]] else []) + FilterWindow(s[1..], w)
  }

  /** The positions of `s` that the mask keeps, in increasing order. */
  function KeptIndices(s: seq<Txn>, w: Window): (idx: seq<nat>)
    ensures |idx| <= |s|
    ensures forall k :: 0 <= k < |idx| ==> idx[k] < |s| && InWindow(s[idx[k]], w)
  {
    if s == [] then []
    else
      var tail := KeptIndices(s[1..], w);
      assert forall k :: 0 <= k < |tail| ==> s[tail[k] + 1] == s[1..][tail[k]];
      (if InWindow(s[0], w) then [0] else []) + Shift(tail)
  }

  /** Every index moved one place to the right. */
  function Shift(idx: seq<nat>): (r: seq<nat>)
    ensures |r| == |idx|
    ensures forall k :: 0 <= k < |idx| ==> r[k] == idx[k] + 1
  {
    seq(|idx|, k requires 0 <= k < |idx| => idx[k] + 1)
  }

  /** `r` is the subsequence of `s` at the strictly increasing positions `idx`. */
  predicate PicksFrom(r: seq<Txn>, s: seq<Txn>, idx: seq<nat>) {
    |idx| == |r| &&
    (forall k :: 0 <= k < |idx| ==> idx[k] < |s| && r[k] == s[idx[k]]) &&
    (forall k, m :: 0 <= k < m < |idx| ==> idx[k] < idx[m])
  }

  /** Positions into `s[1..]` are positions into `s` once shifted. */
  lemma PicksFromShifted(r: seq<Txn>, s: seq<Txn>, idx: seq<nat>)
    requires s != [] && PicksFrom(r, s[1..], idx)
    ensures PicksFrom(r, s, Shift(idx))
    ensures forall k :: 0 <= k < |idx| ==> 0 < Shift(idx)[k]
  {
    forall k | 0 <= k < |idx|
      ensures Shift(idx)[k] < |s| && r[k] == s[Shift(idx)[k]]
    {
      assert s[1..][idx[k]] == s[idx[k] + 1];
    }
  }

  /** Keeping the first row in front of a pick from the rest. */
  lemma PicksFromCons(r: seq<Txn>, s: seq<Txn>, idx: seq<nat>)
    requires s != [] && PicksFrom(r, s, idx)
    requires forall k :: 0 <= k < |idx| ==> 0 < idx[k]
    ensures PicksFrom([s[0]] + r, s, [0] + idx)
  {
  }

  /** The filtered table is the subsequence of the input at the kept
      positions: order and contents are kept, and nothing is added. */
  lemma {:induction false} FilterWindowIsSubsequence(s: seq<Txn>, w: Window)
    ensures PicksFrom(FilterWindow(s, w), s, KeptIndices(s, w))
    decreases |s|
  {
    if s != [] {
      var tail, tidx := FilterWindow(s[1..], w), KeptIndices(s[1..], w);
      FilterWindowIsSubsequence(s[1..], w);
      PicksFromShifted(tail, s, tidx);
      if InWindow(s[0], w) {
        PicksFromCons(tail, s, Shift(tidx));
      }
    }
  }

  /** The kept positions are exactly those whose row has a transaction date
      inside the window; rows with a missing date are never kept. */
  lemma {:induction false} FilterWindowKeepsExactly(s: seq<Txn>, w: Window)
    ensures forall i :: 0 <= i < |s| ==> (InWindow(s[i], w) <==> i in KeptIndices(s, w))
    decreases |s|
  {
    if s != [] {
      var tidx := KeptIndices(s[1..], w);
      FilterWindowKeepsExactly(s[1..], w);
      var head: seq<nat> := if InWindow(s[0], w) then [0] else [];
      assert KeptIndices(s, w) == head + Shift(tidx);
      forall i | 0 <= i < |s|
        ensures InWindow(s[i], w) <==> i in KeptIndices(s, w)
      {
        if i > 0 {
          assert s[i] == s[1..][i - 1];
          if i - 1 in tidx {
            var k :| 0 <= k < |tidx| && tidx[k] == i - 1;
            assert Shift(tidx)[k] == i;
          }
          if i in Shift(tidx) {
            var k :| 0 <= k < |tidx| && Shift(tidx)[k] == i;
          }
        }
      }
    }
  }

  /** `load_clean_data` without the file I/O: clean both extracts and keep
      each one's own transaction-date window. */
  function LoadCleanData(raw24: seq<RawRow>, raw25: seq<RawRow>, p: Parsers): (r: (seq<Txn>, seq<Txn>))
    ensures |r.0| <= |raw24| && |r.1| <= |raw25|
    ensures forall k :: 0 <= k < |r.0| ==> InWindow(r.0[k], Window2024)
    ensures forall k :: 0 <= k < |r.1| ==> InWindow(r.1[k], Window2025)
  {
    (FilterWindow(CleanTable(raw24, p), Window2024), FilterWindow(CleanTable(raw25, p), Window2025))
  }

  /** Each table `load_clean_data` returns is its cleaned extract with
      exactly the rows of the year's window kept, in their original order. */
  lemma LoadCleanDataSelects(raw24: seq<RawRow>, raw25: seq<RawRow>, p: Parsers)
    ensures var c24, c25 := CleanTable(raw24, p), CleanTable(raw25, p);
      var r := LoadCleanData(raw24, raw25, p);
      PicksFrom(r.0, c24, KeptIndices(c24, Window2024)) &&
      PicksFrom(r.1, c25, KeptIndices(c25, Window2025)) &&
      (forall i :: 0 <= i < |c24| ==> (InWindow(c24[i], Window2024) <==> i in KeptIndices(c24, Window2024))) &&
      (forall i :: 0 <= i < |c25| ==> (InWindow(c25[i], Window2025) <==> i in KeptIndices(c25, Window2025)))
  {
    var c24, c25 := CleanTable(raw24, p), CleanTable(raw25, p);
    FilterWindowIsSubsequence(c24, Window2024);
    FilterWindowIsSubsequence(c25, Window2025);
    FilterWindowKeepsExactly(c24, Window2024);
    FilterWindowKeepsExactly(c25, Window2025);
  }

  /** Concrete cases of the return-rate rule: 2 of 10 delivered is 20%,
      5 returned of none delivered is 5, and nothing of nothing is 0. */
  lemma ReturnRateExamples()
    ensures ReturnRate(10.0, 2.0) == 20.0
    ensures ReturnRate(0.0, 5.0) == 5.0
    ensures ReturnRate(0.0, 0.0) == 0.0
  {
  }

  /** The 2024 window: 2023-12-31 is out, 2024-06-15 is in, and noon on
      2024-12-31 is out because the upper bound is that day's midnight. */
  lemma Window2024Examples(t: Txn)
    ensures t.tranDate == Some(1703980800) ==> !InWindow(t, Window2024)
    ensures t.tranDate == Some(1718409600) ==> InWindow(t, Window2024)
    ensures t.tranDate == Some(1735603200) ==> InWindow(t, Window2024)
    ensures t.tranDate == Some(1735646400) ==> !InWindow(t, Window2024)
    ensures t.tranDate.None? ==> !InWindow(t, Window2024)
  {
  }
}
