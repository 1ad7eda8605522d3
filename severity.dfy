/** `get_severity_forecast` (app/utils/forecast_engine.py:305-492): pick the
    severity table of a selection, build a contiguous monthly series by
    interpolation, trim the months that may still be incomplete, forecast,
    and pad the future to exactly the horizon. The current month is a
    parameter (`pd.Timestamp.today()`), as is the model fit. */
module SeverityForecast {
  import opened Common
  import opened Text
  import opened Series
  import opened Scoring
  import opened Tables
  import opened Forecasting

  const Citywide: string := "CITYWIDE"
  const AllItems: string := "ALL"

  /** The keys of SEVERITY_MAP (app/utils/forecast_engine.py:95-104). */
  const SeverityKeys: set<string> := {"citywide", "neighborhood", "department", "division", "category",
                                      "neighborhood_department", "neighborhood_division", "neighborhood_category"}

  /** The severity table a selection reads: the neighbourhood-by-level table
      only when both a neighbourhood and an item are chosen, else the level's. */
  function LevelKey(neigh: string, item: string, level: string): string
  {
    if neigh != Citywide && item != AllItems then "neighborhood_" + Lower(level) else Lower(level)
  }

  /** `level_base.upper()`: the case-table column an item is matched in. */
  function FilterColumn(level: string): string
  {
    Upper(Lower(level))
  }

  function HasAttr(col: string, v: string): Rec<real> -> bool
  {
    (r: Rec<real>) => Attr(r, col) == Some(v)
  }

  /** A row of an item-level table passes the filters whose column the table has. */
  predicate ItemSelected(r: Rec<real>, cols: set<string>, neigh: string, item: string, level: string)
  {
    (neigh != Citywide && "NEIGHBORHOOD_CLEAN" in cols ==> Attr(r, "NEIGHBORHOOD_CLEAN") == Some(Clean(neigh)))
    && (FilterColumn(level) + "_CLEAN" in cols ==> Attr(r, FilterColumn(level) + "_CLEAN") == Some(Clean(item)))
  }

  /** The rows filtered by neighbourhood and item, each filter applied only
      when the table has its column (app/utils/forecast_engine.py:355-365). */
  function ItemRows(t: Table<real>, neigh: string, item: string, level: string): (r: seq<Rec<real>>)
    ensures forall i :: 0 <= i < |r| ==> r[i] in t.rows && ItemSelected(r[i], t.columns, neigh, item, level)
    ensures forall i :: 0 <= i < |t.rows| && ItemSelected(t.rows[i], t.columns, neigh, item, level) ==> t.rows[i] in r
  {
    var col := FilterColumn(level) + "_CLEAN";
    var byNeigh := if neigh != Citywide && "NEIGHBORHOOD_CLEAN" in t.columns
                   then Where(t.rows, HasAttr("NEIGHBORHOOD_CLEAN", Clean(neigh))) else t.rows;
    if col in t.columns then Where(byNeigh, HasAttr(col, Clean(item))) else byNeigh
  }

  /** The rows the series is built from; None when the level key names no table
      (the failsafe of app/utils/forecast_engine.py:337-342). Choosing all items
      always reads the citywide table, whatever the neighbourhood. */
  function SeveritySlice(tables: map<string, Table<real>>, neigh: string, item: string, level: string): (r: Option<seq<Rec<real>>>)
    requires "citywide" in tables
    ensures r.None? <==> LevelKey(neigh, item, level) !in tables
    ensures r.Some? && item == AllItems ==> r.value == tables["citywide"].rows
    ensures r.Some? && item != AllItems ==> r.value == ItemRows(tables[LevelKey(neigh, item, level)], neigh, item, level)
  {
    var key := LevelKey(neigh, item, level);
    if key !in tables then None
    else if item == AllItems then Some(tables["citywide"].rows)
    else Some(ItemRows(tables[key], neigh, item, level))
  }

  // ------------------------------------------------------------ series

  predicate DistinctRowMonths(rows: seq<Rec<real>>)
  {
    forall i, j :: 0 <= i < j < |rows| ==> rows[i].ds != rows[j].ds
  }

  /** The Severity of month `m`, if a row has it. */
  function ValueIn(rows: seq<Rec<real>>, m: int): Option<real>
  {
    if rows == [] then None
    else if rows[|rows| - 1].ds == m then Some(rows[|rows| - 1].value)
    else ValueIn(rows[..|rows| - 1], m)
  }

  /** A month has a value exactly when some row has that month, and the value
      is that of such a row. */
  lemma {:induction false} ValueInRows(rows: seq<Rec<real>>, m: int)
    ensures ValueIn(rows, m).Some? <==> exists i :: 0 <= i < |rows| && rows[i].ds == m
    ensures ValueIn(rows, m).Some? ==> exists i :: 0 <= i < |rows| && rows[i].ds == m && rows[i].value == ValueIn(rows, m).value
  {
    if rows != [] {
      var init := rows[..|rows| - 1];
      ValueInRows(init, m);
      assert forall i :: 0 <= i < |init| ==> init[i] == rows[i];
    }
  }

  /** With one row per month, the value of a row's month is that row's value. */
  lemma ValueInRow(rows: seq<Rec<real>>, i: int)
    requires DistinctRowMonths(rows) && 0 <= i < |rows|
    ensures ValueIn(rows, rows[i].ds) == Some(rows[i].value)
  {
    ValueInRows(rows, rows[i].ds);
    var j :| 0 <= j < |rows| && rows[j].ds == rows[i].ds && rows[j].value == ValueIn(rows, rows[i].ds).value;
  }

  /** The Severity column reindexed over every month from `lo`, for `n` months. */
  function Reindexed(rows: seq<Rec<real>>, lo: int, n: nat): (v: seq<Option<real>>)
    ensures |v| == n && forall i :: 0 <= i < n ==> v[i] == ValueIn(rows, lo + i)
  {
    seq(n, i requires 0 <= i < n => ValueIn(rows, lo + i))
  }

  /** The `n` months from `lo` on, each with the filled value. */
  function FilledRun(lo: int, y: seq<real>): (ts: seq<Obs>)
    ensures |ts| == |y| && forall i :: 0 <= i < |y| ==> ts[i].ds == lo + i && ts[i].y == y[i]
  {
    seq(|y|, i requires 0 <= i < |y| => Obs(lo + i, y[i]))
  }

  /** The first month of the slice and the number of months up to its last. */
  function First(rows: seq<Rec<real>>): (lo: int)
    requires |rows| > 0
    ensures forall i :: 0 <= i < |rows| ==> lo <= rows[i].ds
  {
    Min(RecMonths(rows))
  }

  function Span(rows: seq<Rec<real>>): (n: nat)
    requires |rows| > 0
    ensures forall i :: 0 <= i < |rows| ==> rows[i].ds - First(rows) < n
  {
    var d := RecMonths(rows);
    assert Min(d) <= d[0] <= Max(d);
    Max(d) - Min(d) + 1
  }

  /** `reindex(date_range(min, max))`: the Severity of every month of the span,
      None where no row has one. */
  function Gaps(rows: seq<Rec<real>>): (v: seq<Option<real>>)
    requires |rows| > 0
    ensures |v| == Span(rows) && v[rows[0].ds - First(rows)].Some?
    ensures forall i :: 0 <= i < |v| ==> v[i] == ValueIn(rows, First(rows) + i)
  {
    var v := Reindexed(rows, First(rows), Span(rows));
    ValueInRows(rows, rows[0].ds);
    assert v[rows[0].ds - First(rows)] == ValueIn(rows, rows[0].ds);
    v
  }

  /** `reindex(date_range(min, max))` followed by
      `interpolate().bfill().ffill()` (app/utils/forecast_engine.py:377-386):
      every month from the first to the last, months with a row keeping its value. */
  function SeveritySeries(rows: seq<Rec<real>>): (ts: seq<Obs>)
    requires |rows| > 0
    ensures |ts| == Span(rows)
    ensures forall i :: 0 <= i < |ts| ==> ts[i].ds == First(rows) + i
  {
    var v := Gaps(rows);
    assert v[rows[0].ds - First(rows)].Some?;
    FilledRun(First(rows), Interpolate(v))
  }

  /** A month that has a row keeps that row's value. */
  lemma SeveritySeriesKeeps(rows: seq<Rec<real>>, i: int)
    requires DistinctRowMonths(rows) && 0 <= i < |rows|
    ensures 0 <= rows[i].ds - First(rows) < |SeveritySeries(rows)|
    ensures SeveritySeries(rows)[rows[i].ds - First(rows)].y == rows[i].value
  {
    var v := Gaps(rows);
    assert v[rows[0].ds - First(rows)].Some?;
    ValueInRow(rows, i);
    assert v[rows[i].ds - First(rows)] == Some(rows[i].value);
  }

  /** Every filled value lies within the range of the slice's values. */
  lemma SeveritySeriesWithin(rows: seq<Rec<real>>, lo: real, hi: real)
    requires |rows| > 0
    requires forall i :: 0 <= i < |rows| ==> lo <= rows[i].value <= hi
    ensures forall i :: 0 <= i < |SeveritySeries(rows)| ==> lo <= SeveritySeries(rows)[i].y <= hi
  {
    var v := Gaps(rows);
    assert v[rows[0].ds - First(rows)].Some?;
    forall k | 0 <= k < |v| && v[k].Some? ensures lo <= v[k].value <= hi {
      ValueInRows(rows, First(rows) + k);
      var j :| 0 <= j < |rows| && rows[j].ds == First(rows) + k && rows[j].value == v[k].value;
    }
    InterpolateWithin(v, lo, hi);
  }

  lemma SeveritySeriesStrict(rows: seq<Rec<real>>)
    requires |rows| > 0
    ensures StrictlySorted(SeveritySeries(rows))
  {
  }

  // -------------------------------------------------------------- trim

  function Below(xs: seq<int>, t: int): seq<int>
  {
    Where(xs, (x: int) => x < t)
  }

  /** The second-latest of the slice's months; the latest one when there is
      no earlier month. */
  function SecondLast(months: seq<int>): (m: int)
    requires |months| > 0
    ensures m <= Max(months)
    ensures exists i :: 0 <= i < |months| && months[i] == m
    ensures (exists i :: 0 <= i < |months| && months[i] < Max(months)) ==>
              m < Max(months) && forall i :: 0 <= i < |months| && months[i] < Max(months) ==> months[i] <= m
  {
    var b := Below(months, Max(months));
    if b == [] then Max(months)
    else
      assert Max(b) in b;
      Max(b)
  }

  lemma TwoMonthsHaveSecond(rows: seq<Rec<real>>)
    requires DistinctRowMonths(rows) && |rows| >= 2
    ensures exists i :: 0 <= i < |RecMonths(rows)| && RecMonths(rows)[i] < Max(RecMonths(rows))
  {
    var d := RecMonths(rows);
    assert d[0] != d[1];
    if d[0] < Max(d) {
    } else {
      assert d[1] < Max(d);
    }
  }

  /** The month before which the series is kept: the latest month when the
      second-latest is at least 90% closed, the second-latest otherwise
      (app/utils/forecast_engine.py:408-411). */
  function TrimBound(last: int, second: int, rate: Option<real>): int
  {
    if rate.Some? && rate.value >= 0.90 then last else second
  }

  function ObsBefore(t: int): Obs -> bool
  {
    (o: Obs) => o.ds < t
  }

  /** The months of a series from `lo` before `t` are its first `t - lo` months. */
  lemma TrimIsPrefix(ts: seq<Obs>, lo: int, t: int)
    requires forall i :: 0 <= i < |ts| ==> ts[i].ds == lo + i
    requires lo <= t <= lo + |ts|
    ensures Where(ts, ObsBefore(t)) == ts[..t - lo]
  {
    WherePrefixAt(ts, ObsBefore(t), t - lo);
  }

  /** A case passes the filters of app/utils/forecast_engine.py:397-404. */
  function CaseIs(col: string, v: string): Case -> bool
  {
    (c: Case) => Clean(AsText(CaseAttr(c, col))) == v
  }

  /** The cases whose closure decides the trim: all of them for all items;
      otherwise those of the neighbourhood and of the item, each filter applied
      only when the case table has its column. */
  function CaseSubset(cases: CaseTable, neigh: string, item: string, level: string): seq<Case>
  {
    if item == AllItems then cases.rows
    else
      var byNeigh := if neigh != Citywide && "NEIGHBORHOOD" in cases.columns
                     then Where(cases.rows, CaseIs("NEIGHBORHOOD", Clean(neigh))) else cases.rows;
      if FilterColumn(level) in cases.columns then Where(byNeigh, CaseIs(FilterColumn(level), Clean(item))) else byNeigh
  }

  /** The month before which the series is kept, decided on the closure of
      the second-latest month. The rate is the corrected `ClosureRate`, which
      counts every case created in that month; the source's window misses its
      last day (see `Scoring.ClosureRateMissesLastDay`). */
  function TrimBoundOf(rows: seq<Rec<real>>, cases: seq<Case>): int
    requires |rows| > 0
  {
    var second := SecondLast(RecMonths(rows));
    TrimBound(Max(RecMonths(rows)), second, ClosureRate(cases, second))
  }

  /** With two months or more the bound is the latest month exactly when the
      second-latest is at least 90% closed, and otherwise the second-latest,
      which precedes it; both lie within the series. */
  lemma TrimRule(rows: seq<Rec<real>>, cases: seq<Case>)
    requires |rows| >= 2 && DistinctRowMonths(rows)
    ensures var second := SecondLast(RecMonths(rows));
            var rate := ClosureRate(cases, second);
            var bound := TrimBoundOf(rows, cases);
            second < Max(RecMonths(rows))
            && (bound == Max(RecMonths(rows)) <==> rate.Some? && rate.value >= 0.90)
            && (bound == second <==> !(rate.Some? && rate.value >= 0.90))
            && First(rows) <= bound < First(rows) + Span(rows)
  {
    TwoMonthsHaveSecond(rows);
    var d := RecMonths(rows);
    var second := SecondLast(d);
    var j :| 0 <= j < |d| && d[j] == second;
    var m :| 0 <= m < |d| && d[m] == Max(d);
    assert rows[j].ds == second && rows[m].ds == Max(d);
  }

  /** The series with only the months before `bound`. */
  function TrimmedAt(rows: seq<Rec<real>>, bound: int): seq<Obs>
    requires |rows| > 0
  {
    Where(SeveritySeries(rows), ObsBefore(bound))
  }

  /** The series after the trim (app/utils/forecast_engine.py:388-411): with
      at least two source rows, only the months before the trim bound. */
  function Trimmed(rows: seq<Rec<real>>, cases: seq<Case>): seq<Obs>
    requires |rows| > 0
  {
    if |rows| >= 2 then TrimmedAt(rows, TrimBoundOf(rows, cases)) else SeveritySeries(rows)
  }

  /** Trimming at a month of the series keeps the months from the slice's
      first up to that month, and each month with a source row keeps that
      row's Severity. */
  lemma TrimmedSeries(rows: seq<Rec<real>>, bound: int)
    requires |rows| > 0 && DistinctRowMonths(rows)
    requires First(rows) <= bound <= First(rows) + Span(rows)
    ensures var ts := TrimmedAt(rows, bound);
            StrictlySorted(ts) && |ts| == bound - First(rows)
            && (forall i :: 0 <= i < |ts| ==> ts[i].ds == First(rows) + i)
            && forall j :: 0 <= j < |rows| && rows[j].ds < bound ==> ts[rows[j].ds - First(rows)].y == rows[j].value
  {
    var full := SeveritySeries(rows);
    TrimIsPrefix(full, First(rows), bound);
    var ts := TrimmedAt(rows, bound);
    assert ts == full[..bound - First(rows)];
    forall j | 0 <= j < |rows| && rows[j].ds < bound
      ensures ts[rows[j].ds - First(rows)].y == rows[j].value
    {
      SeveritySeriesKeeps(rows, j);
    }
  }

  // ------------------------------------------------------------ future

  function FromMonth(t: int): Row -> bool
  {
    (r: Row) => r.ds >= t
  }

  predicate RowsStrict(rows: seq<Row>)
  {
    forall i, j :: 0 <= i < j < |rows| ==> rows[i].ds < rows[j].ds
  }

  /** `merged[merged["ds"] >= today_month].head(horizon)`
      (app/utils/forecast_engine.py:463-464). */
  function FutureWindow(merged: seq<Row>, today: int, h: nat): (sel: seq<Row>)
    ensures |sel| <= h
    ensures forall i :: 0 <= i < |sel| ==> sel[i] in merged && sel[i].ds >= today
  {
    var all := Where(merged, FromMonth(today));
    if |all| <= h then all else all[..h]
  }

  /** The values a padded month repeats. */
  datatype Fill = Fill(yhat: real, lower: real, upper: real, trend: real)

  /** The last row of the window, or the last actual value for all four when
      the window is empty (app/utils/forecast_engine.py:469, 481-484). */
  function FillOf(sel: seq<Row>, lastY: real): Fill
  {
    if sel == [] then Fill(lastY, lastY, lastY, lastY)
    else
      var l := sel[|sel| - 1];
      Fill(l.yhat, l.lower, l.upper, l.trend)
  }

  /** A padded month: no actual value, the fill, and a change of 0. */
  function PadRow(m: int, f: Fill): Row
  {
    Row(m, None, f.yhat, f.lower, f.upper, f.trend, Finite(0.0))
  }

  function RowMonths(rows: seq<Row>): (d: seq<int>)
    ensures |d| == |rows| && forall i :: 0 <= i < |rows| ==> d[i] == rows[i].ds
  {
    seq(|rows|, i requires 0 <= i < |rows| => rows[i].ds)
  }

  /** The first padded month: the month after the window's latest, or the
      current month when the window is empty (app/utils/forecast_engine.py:471-476). */
  function PadStart(sel: seq<Row>, today: int): int
  {
    if sel == [] then today else Max(RowMonths(sel)) + 1
  }

  /** The window followed by flat months from `start` on, up to `h` rows. */
  function Padded(sel: seq<Row>, h: nat, start: int, f: Fill): (r: seq<Row>)
    requires |sel| <= h
    ensures |r| == h
    ensures forall k :: 0 <= k < |sel| ==> r[k] == sel[k]
    ensures forall k :: |sel| <= k < h ==> r[k] == PadRow(start + (k - |sel|), f)
  {
    sel + seq(h - |sel|, k requires 0 <= k < h - |sel| => PadRow(start + k, f))
  }

  /** The future frame as the padding loop evidently intends it: the window,
      extended flat to exactly `h` months. The loop as written can overwrite a
      row instead (see `FutureAsWritten` and `PaddingLosesMonths`). */
  function SeverityFuture(merged: seq<Row>, today: int, h: nat, lastY: real): (r: seq<Row>)
    ensures |r| == h
  {
    var sel := FutureWindow(merged, today, h);
    Padded(sel, h, PadStart(sel, today), FillOf(sel, lastY))
  }

  /** The padding loop of app/utils/forecast_engine.py:466-486, one month per
      iteration, appending each new month after the rows already there. */
  method PadFuture(sel: seq<Row>, h: nat, start: int, f: Fill) returns (r: seq<Row>)
    requires |sel| <= h
    ensures r == Padded(sel, h, start, f)
  {
    var missing := h - |sel|;
    r := sel;
    for k := 0 to missing
      invariant |r| == |sel| + k
      invariant forall i :: 0 <= i < |sel| ==> r[i] == sel[i]
      invariant forall i :: |sel| <= i < |r| ==> r[i] == PadRow(start + (i - |sel|), f)
    {
      r := r + [PadRow(start + k, f)];
    }
    assert |r| == h;
  }

  /** In a frame ordered by month, the rows from a month on form a suffix. */
  lemma {:induction false} SuffixFrom(rows: seq<Row>, t: int) returns (k: nat)
    requires RowsStrict(rows)
    ensures k <= |rows|
    ensures forall i :: 0 <= i < |rows| ==> (rows[i].ds >= t <==> i >= k)
  {
    if rows == [] {
      k := 0;
    } else if rows[0].ds >= t {
      k := 0;
    } else {
      var k1 := SuffixFrom(rows[1..], t);
      k := k1 + 1;
      forall i | 0 <= i < |rows| ensures rows[i].ds >= t <==> i >= k {
        if i > 0 {
          assert rows[1..][i - 1] == rows[i];
        }
      }
    }
  }

  /** The window of a frame ordered by month is ordered by month, and padding
      starts the month after its last. */
  lemma WindowOrdered(merged: seq<Row>, today: int, h: nat)
    requires RowsStrict(merged)
    ensures RowsStrict(FutureWindow(merged, today, h))
    ensures var sel := FutureWindow(merged, today, h);
            sel != [] ==> PadStart(sel, today) == sel[|sel| - 1].ds + 1
  {
    var k := WindowAt(merged, today, h);
    DropOrdered(merged, k);
    TakenShape(merged[k..], FutureWindow(merged, today, h), today, h);
  }

  /** The first `h` rows of an ordered run are ordered, and padding starts
      the month after the last of them. */
  lemma TakenShape(tail: seq<Row>, sel: seq<Row>, today: int, h: nat)
    requires RowsStrict(tail)
    requires sel == if |tail| <= h then tail else tail[..h]
    ensures RowsStrict(sel)
    ensures sel != [] ==> PadStart(sel, today) == sel[|sel| - 1].ds + 1
  {
    TakeOrdered(tail, h);
    if sel != [] {
      LastIsLatest(sel);
    }
  }

  lemma DropOrdered(rows: seq<Row>, k: nat)
    requires RowsStrict(rows) && k <= |rows|
    ensures RowsStrict(rows[k..])
  {
  }

  /** The window is a run of consecutive rows of a frame ordered by month. */
  lemma WindowAt(merged: seq<Row>, today: int, h: nat) returns (k: nat)
    requires RowsStrict(merged)
    ensures k <= |merged|
    ensures FutureWindow(merged, today, h) == if |merged| - k <= h then merged[k..] else merged[k..][..h]
  {
    k := SuffixFrom(merged, today);
    WhereSuffixAt(merged, FromMonth(today), k);
  }

  lemma TakeOrdered(rows: seq<Row>, h: nat)
    requires RowsStrict(rows)
    ensures RowsStrict(if |rows| <= h then rows else rows[..h])
  {
  }

  lemma LastIsLatest(sel: seq<Row>)
    requires RowsStrict(sel) && sel != []
    ensures Max(RowMonths(sel)) == sel[|sel| - 1].ds
  {
    var d := RowMonths(sel);
    var m :| 0 <= m < |d| && d[m] == Max(d);
    assert m == |sel| - 1 || d[m] < d[|sel| - 1];
  }

  /** Flat months appended after an ordered window whose months all precede
      `start` keep the frame ordered and consecutive. */
  lemma PaddedOrdered(sel: seq<Row>, h: nat, start: int, f: Fill)
    requires |sel| <= h && RowsStrict(sel)
    requires forall i :: 0 <= i < |sel| ==> sel[i].ds < start
    ensures RowsStrict(Padded(sel, h, start, f))
  {
  }

  /** The future frame of a frame ordered by month is ordered by month and
      starts no earlier than the current month; its padded months follow the
      window's months one by one, carry no actual value and a change of 0. */
  lemma SeverityFutureOrdered(merged: seq<Row>, today: int, h: nat, lastY: real)
    requires RowsStrict(merged)
    ensures var r := SeverityFuture(merged, today, h, lastY);
            var sel := FutureWindow(merged, today, h);
            RowsStrict(r)
            && (forall i :: 0 <= i < h ==> r[i].ds >= today)
            && (forall i :: 0 <= i < |sel| ==> r[i] == sel[i])
            && (forall i :: |sel| <= i < h ==> r[i].y.None? && r[i].change == Finite(0.0))
            && (forall i :: |sel| <= i < h && 0 < i ==> r[i].ds == r[i - 1].ds + 1)
  {
    var sel := FutureWindow(merged, today, h);
    WindowBounds(merged, today, h);
    PaddedShape(sel, h, today, PadStart(sel, today), FillOf(sel, lastY));
  }

  /** The window is ordered by month, lies from the current month on, and
      ends before the first padded month, which directly follows it. */
  lemma WindowBounds(merged: seq<Row>, today: int, h: nat)
    requires RowsStrict(merged)
    ensures var sel := FutureWindow(merged, today, h);
            var start := PadStart(sel, today);
            RowsStrict(sel)
            && (forall i :: 0 <= i < |sel| ==> today <= sel[i].ds < start)
            && (if sel == [] then start == today else start == sel[|sel| - 1].ds + 1)
  {
    var sel := FutureWindow(merged, today, h);
    WindowOrdered(merged, today, h);
    if sel != [] {
      assert forall i :: 0 <= i < |sel| - 1 ==> sel[i].ds < sel[|sel| - 1].ds;
    }
  }

  /** A window ordered by month, from the current month on, padded from the
      month after its last. */
  lemma PaddedShape(sel: seq<Row>, h: nat, today: int, start: int, f: Fill)
    requires |sel| <= h && RowsStrict(sel)
    requires forall i :: 0 <= i < |sel| ==> today <= sel[i].ds < start
    requires if sel == [] then start == today else start == sel[|sel| - 1].ds + 1
    ensures var r := Padded(sel, h, start, f);
            RowsStrict(r)
            && (forall i :: 0 <= i < h ==> r[i].ds >= today)
            && (forall i :: 0 <= i < |sel| ==> r[i] == sel[i])
            && (forall i :: |sel| <= i < h ==> r[i].y.None? && r[i].change == Finite(0.0))
            && (forall i :: |sel| <= i < h && 0 < i ==> r[i].ds == r[i - 1].ds + 1)
  {
    PaddedOrdered(sel, h, start, f);
  }

  // ------------------------------------------------ padding as written

  /** A row of a pandas frame together with its index label. */
  datatype Slot = Slot(at: int, row: Row)

  /** The merged frame with its default index 0, 1, 2, ... */
  function Labelled(rows: seq<Row>): (f: seq<Slot>)
    ensures |f| == |rows| && forall i :: 0 <= i < |rows| ==> f[i] == Slot(i, rows[i])
  {
    seq(|rows|, i requires 0 <= i < |rows| => Slot(i, rows[i]))
  }

  function SlotFrom(t: int): Slot -> bool
  {
    (s: Slot) => s.row.ds >= t
  }

  function RowsOf(f: seq<Slot>): (rows: seq<Row>)
    ensures |rows| == |f| && forall i :: 0 <= i < |f| ==> rows[i] == f[i].row
  {
    seq(|f|, i requires 0 <= i < |f| => f[i].row)
  }

  /** The position of the first slot labelled `l`. */
  function SlotIndex(f: seq<Slot>, l: int): (k: Option<nat>)
    ensures k.Some? ==> k.value < |f| && f[k.value].at == l
    ensures k.None? ==> forall i :: 0 <= i < |f| ==> f[i].at != l
  {
    if f == [] then None
    else if f[0].at == l then Some(0)
    else
      match SlotIndex(f[1..], l)
      case None => None
      case Some(k) => Some(k + 1)
  }

  /** `frame.loc[l] = row`: overwrite the row labelled `l` if there is one,
      otherwise append it under that label. */
  function Put(f: seq<Slot>, l: int, row: Row): seq<Slot>
  {
    match SlotIndex(f, l)
    case Some(k) => f[k := Slot(l, row)]
    case None => f + [Slot(l, row)]
  }

  /** The padding loop as written: each month is stored under the label
      `len(future_df)`, which the window may already hold. */
  function PadAsWritten(f: seq<Slot>, months: seq<int>, fill: Fill): seq<Slot>
    decreases |months|
  {
    if months == [] then f
    else PadAsWritten(Put(f, |f|, PadRow(months[0], fill)), months[1..], fill)
  }

  /** The future frame as app/utils/forecast_engine.py:463-486 computes it,
      index labels included. */
  function FutureAsWritten(merged: seq<Row>, today: int, h: nat, lastY: real): seq<Row>
  {
    var all := Where(Labelled(merged), SlotFrom(today));
    var win := if |all| <= h then all else all[..h];
    var sel := RowsOf(win);
    if |win| < h then RowsOf(PadAsWritten(win, Range(PadStart(sel, today), h - |win|), FillOf(sel, lastY)))
    else sel
  }

  /** When the window's labels run from `p` with 1 <= p <= its length, label
      `len(future_df)` is always already taken: every padded month overwrites
      the same row and the frame never grows. */
  lemma {:induction false} PadOverwrites(f: seq<Slot>, months: seq<int>, fill: Fill, p: int)
    requires 1 <= p <= |f|
    requires forall i :: 0 <= i < |f| ==> f[i].at == p + i
    ensures |PadAsWritten(f, months, fill)| == |f|
    decreases |months|
  {
    if months != [] {
      var l := |f|;
      assert f[l - p].at == l;
      var k := SlotIndex(f, l);
      assert k.Some? && k.value == l - p;
      var g := Put(f, l, PadRow(months[0], fill));
      assert g == f[l - p := Slot(l, PadRow(months[0], fill))];
      PadOverwrites(g, months[1..], fill, p);
    }
  }

  /** A concrete case: six months of history, a 12-month horizon, and the
      current month eight months after the first. The window holds the
      forecast's last ten months, labelled 8 to 17, so both padded months are
      written to label 10: the frame keeps ten rows where twelve are due. */
  lemma PaddingLosesMonths(ts: seq<Obs>, band: int -> Band, w: int, b: int)
    requires |ts| == 6 && w >= 1
    requires forall i :: 0 <= i < 6 ==> ts[i].ds == b + i
    ensures |FutureAsWritten(MergedFrame(ts, band, 12, w), b + 8, 12, ts[5].y)| == 10
    ensures |SeverityFuture(MergedFrame(ts, band, 12, w), b + 8, 12, ts[5].y)| == 12
  {
    var merged := MergedFrame(ts, band, 12, w);
    MergedMonthsRun(ts, band, 12, w, b);
    var all := ExampleWindow(merged, b);
    TenSlotsStayTen(merged, b + 8, ts[5].y, all);
  }

  /** A window of ten slots labelled 8 to 17 pads to no more than ten rows. */
  lemma TenSlotsStayTen(merged: seq<Row>, today: int, lastY: real, all: seq<Slot>)
    requires all == Where(Labelled(merged), SlotFrom(today))
    requires |all| == 10 && forall i :: 0 <= i < 10 ==> all[i].at == 8 + i
    ensures |FutureAsWritten(merged, today, 12, lastY)| == 10
  {
    var sel := RowsOf(all);
    var padded := PadAsWritten(all, Range(PadStart(sel, today), 2), FillOf(sel, lastY));
    PadOverwrites(all, Range(PadStart(sel, today), 2), FillOf(sel, lastY), 8);
    assert FutureAsWritten(merged, today, 12, lastY) == RowsOf(padded);
  }

  /** The window of that case: eighteen consecutive months from `b`, the
      current month `b + 8`; the window is the last ten rows, with their labels. */
  lemma ExampleWindow(merged: seq<Row>, b: int) returns (all: seq<Slot>)
    requires |merged| == 18 && forall i :: 0 <= i < 18 ==> merged[i].ds == b + i
    ensures all == Where(Labelled(merged), SlotFrom(b + 8))
    ensures |all| == 10 && forall i :: 0 <= i < 10 ==> all[i].at == 8 + i
  {
    SlotsFromSuffix(merged, b, 8);
    all := Labelled(merged)[8..];
  }

  /** A history of consecutive months from `b` gives a merged frame of
      consecutive months from `b`. */
  lemma MergedMonthsRun(ts: seq<Obs>, band: int -> Band, h: nat, w: int, b: int)
    requires |ts| > 0 && w >= 1
    requires forall i :: 0 <= i < |ts| ==> ts[i].ds == b + i
    ensures forall i :: 0 <= i < |MergedFrame(ts, band, h, w)| ==> MergedFrame(ts, band, h, w)[i].ds == b + i
  {
    var merged := MergedFrame(ts, band, h, w);
    forall i | 0 <= i < |merged| ensures merged[i].ds == b + i {
      if i >= |ts| {
        assert merged[i].ds == ts[|ts| - 1].ds + 1 + (i - |ts|);
      }
    }
  }

  /** When the months run from `b` one by one, the slots from month `b + k` on
      are the labelled frame from position `k`. */
  lemma SlotsFromSuffix(merged: seq<Row>, b: int, k: nat)
    requires k <= |merged| && forall i :: 0 <= i < |merged| ==> merged[i].ds == b + i
    ensures Where(Labelled(merged), SlotFrom(b + k)) == Labelled(merged)[k..]
    ensures forall i :: 0 <= i < |merged| - k ==> Labelled(merged)[k..][i].at == k + i
  {
    var lab := Labelled(merged);
    forall i | 0 <= i < |lab| ensures SlotFrom(b + k)(lab[i]) <==> i >= k {
      assert lab[i].row == merged[i];
    }
    WhereSuffixAt(lab, SlotFrom(b + k), k);
  }

  // ------------------------------------------------------------ forecast

  /** The merged frame of a series in month order is in month order. */
  lemma MergedRowsStrict(ts: seq<Obs>, band: int -> Band, h: nat, w: int)
    requires |ts| > 0 && w >= 1 && StrictlySorted(ts)
    ensures RowsStrict(MergedFrame(ts, band, h, w))
  {
    var merged := MergedFrame(ts, band, h, w);
    forall i, j | 0 <= i < j < |merged| ensures merged[i].ds < merged[j].ds {
      if j < |ts| {
      } else if i < |ts| {
        assert merged[i].ds == ts[i].ds <= ts[|ts| - 1].ds;
      }
    }
  }

  /** The forecast of the trimmed series (app/utils/forecast_engine.py:427-492):
      too short a series is its own forecast; otherwise the model's history
      frame, the future from the current month padded to the horizon with the
      corrected padding (`SeverityFuture`), and the recent MAPE over the whole
      merged frame. */
  function FromSeries(ts: seq<Obs>, cfg: Config, horizon: Option<nat>, today: int, fit: Fitter): (r: Result<Forecast>)
    requires ValidConfig(cfg)
    ensures r.Err? <==> |ts| >= cfg.minMonths && fit(ts).None?
    ensures r.Err? ==> r.error == FitFailed
    ensures r.Ok? ==> r.value.reliability == Classify(r.value.mape, cfg.maxMape)
    ensures r.Ok? && r.value.mape.Some? ==> r.value.mape.value >= 0.0
    ensures r.Ok? && |ts| >= cfg.minMonths ==> |r.value.future| == Horizon(horizon, cfg)
    ensures r.Ok? ==> r.value.dated
  {
    if |ts| < cfg.minMonths then
      var d := Degenerate(ts, cfg.trendWindow);
      Ok(Forecast(d, d, Unreliable, None, true))
    else
      match fit(ts)
      case None => Err(FitFailed)
      case Some(band) =>
        var h := Horizon(horizon, cfg);
        var merged := MergedFrame(ts, band, h, cfg.trendWindow);
        var last := ts[|ts| - 1];
        var mape := RecentMape(ScoreRows(merged), true, true, 3);
        Ok(Forecast(Where(merged, UpTo(last.ds)), SeverityFuture(merged, today, h, last.y), Classify(mape, cfg.maxMape), mape, true))
  }

  /** Too short a series: both frames are the series with yhat, yhat_lower and
      yhat_upper equal to y, "Unreliable", no MAPE, and the model is never consulted. */
  lemma ShortSeries(ts: seq<Obs>, cfg: Config, horizon: Option<nat>, today: int, fit: Fitter, other: Fitter)
    requires ValidConfig(cfg) && |ts| < cfg.minMonths
    ensures FromSeries(ts, cfg, horizon, today, fit) == FromSeries(ts, cfg, horizon, today, other)
    ensures var f := FromSeries(ts, cfg, horizon, today, fit).value;
            f.hist == f.future && |f.hist| == |ts| && f.reliability == Unreliable && f.mape.None?
            && forall i :: 0 <= i < |ts| ==>
                 f.hist[i].ds == ts[i].ds && f.hist[i].y == Some(ts[i].y)
                 && f.hist[i].yhat == ts[i].y && f.hist[i].lower == ts[i].y && f.hist[i].upper == ts[i].y
  {
  }

  /** Whichever branch runs, a series in month order comes back as the
      history frame: same months, same values. */
  lemma FromSeriesHistory(ts: seq<Obs>, cfg: Config, horizon: Option<nat>, today: int, fit: Fitter)
    requires ValidConfig(cfg) && StrictlySorted(ts)
    ensures var r := FromSeries(ts, cfg, horizon, today, fit);
            r.Ok? ==> |r.value.hist| == |ts|
                      && forall i :: 0 <= i < |ts| ==> r.value.hist[i].ds == ts[i].ds && r.value.hist[i].y == Some(ts[i].y)
  {
    if |ts| < cfg.minMonths {
      assert FromSeries(ts, cfg, horizon, today, fit).value.hist == Degenerate(ts, cfg.trendWindow);
    } else if fit(ts).Some? {
      var band := fit(ts).value;
      var h := Horizon(horizon, cfg);
      FittedHistory(ts, band, h, cfg.trendWindow, cfg.maxMape);
      FromSeriesFittedHistory(ts, cfg, horizon, today, fit);
    }
  }

  /** A fitted forecast's history frame is the engine's fitted history frame. */
  lemma FromSeriesFittedHistory(ts: seq<Obs>, cfg: Config, horizon: Option<nat>, today: int, fit: Fitter)
    requires ValidConfig(cfg) && |ts| >= cfg.minMonths && fit(ts).Some?
    ensures FromSeries(ts, cfg, horizon, today, fit).Ok?
    ensures FromSeries(ts, cfg, horizon, today, fit).value.hist
            == Fitted(ts, fit(ts).value, Horizon(horizon, cfg), cfg.trendWindow, cfg.maxMape).hist
  {
    var merged := MergedFrame(ts, fit(ts).value, Horizon(horizon, cfg), cfg.trendWindow);
    assert FromSeries(ts, cfg, horizon, today, fit).value.hist == Where(merged, UpTo(ts[|ts| - 1].ds));
  }

  /** A fitted forecast's future frame has exactly the horizon's months, in
      month order, none before the current month; padded months carry no
      actual value and a change of 0, and follow each other month by month. */
  lemma FromSeriesFuture(ts: seq<Obs>, cfg: Config, horizon: Option<nat>, today: int, fit: Fitter)
    requires ValidConfig(cfg) && StrictlySorted(ts) && |ts| >= cfg.minMonths && fit(ts).Some?
    ensures var f := FromSeries(ts, cfg, horizon, today, fit).value;
            var merged := MergedFrame(ts, fit(ts).value, Horizon(horizon, cfg), cfg.trendWindow);
            var sel := FutureWindow(merged, today, Horizon(horizon, cfg));
            |f.future| == Horizon(horizon, cfg) && RowsStrict(f.future)
            && (forall i :: 0 <= i < |f.future| ==> f.future[i].ds >= today)
            && (forall i :: 0 <= i < |sel| ==> f.future[i] == sel[i])
            && (forall i :: |sel| <= i < |f.future| ==> f.future[i].y.None? && f.future[i].change == Finite(0.0))
            && (forall i :: |sel| <= i < |f.future| && 0 < i ==> f.future[i].ds == f.future[i - 1].ds + 1)
  {
    var band := fit(ts).value;
    var h := Horizon(horizon, cfg);
    MergedRowsStrict(ts, band, h, cfg.trendWindow);
    var merged := MergedFrame(ts, band, h, cfg.trendWindow);
    SeverityFutureOrdered(merged, today, h, ts[|ts| - 1].y);
  }

  /** `get_severity_forecast` with the corrected closure rate and padding. A
      level without a table, or a selection without rows, gives two empty
      frames; two rows of one month make the reindex fail; otherwise the
      trimmed series is forecast. */
  function SeverityForecast(tables: map<string, Table<real>>, cases: CaseTable, neigh: string, item: string, level: string,
                            cfg: Config, horizon: Option<nat>, today: int, fit: Fitter): (r: Result<Forecast>)
    requires "citywide" in tables && ValidConfig(cfg)
    ensures LevelKey(neigh, item, level) !in tables ==> r == Ok(Empty)
    ensures SeveritySlice(tables, neigh, item, level) == Some([]) ==> r == Ok(Empty)
    ensures SeveritySlice(tables, neigh, item, level).Some? && SeveritySlice(tables, neigh, item, level).value != [] ==>
              (!DistinctRowMonths(SeveritySlice(tables, neigh, item, level).value) ==> r == Err(DuplicateMonths))
    ensures r.Err? ==> r.error == DuplicateMonths || r.error == FitFailed
    ensures r.Ok? ==> r.value.reliability == Classify(r.value.mape, cfg.maxMape)
    ensures r.Ok? ==> (r.value.dated <==> SeveritySlice(tables, neigh, item, level).Some? && SeveritySlice(tables, neigh, item, level).value != [])
  {
    match SeveritySlice(tables, neigh, item, level)
    case None => Ok(Empty)
    case Some(rows) =>
      if rows == [] then Ok(Empty)
      else if !DistinctRowMonths(rows) then Err(DuplicateMonths)
      else FromSeries(Trimmed(rows, CaseSubset(cases, neigh, item, level)), cfg, horizon, today, fit)
  }

  /** Choosing all items forecasts the citywide series whatever the
      neighbourhood. */
  lemma AllItemsIgnoresNeighbourhood(tables: map<string, Table<real>>, cases: CaseTable, n1: string, n2: string, level: string,
                                     cfg: Config, horizon: Option<nat>, today: int, fit: Fitter)
    requires "citywide" in tables && ValidConfig(cfg)
    ensures SeverityForecast(tables, cases, n1, AllItems, level, cfg, horizon, today, fit)
            == SeverityForecast(tables, cases, n2, AllItems, level, cfg, horizon, today, fit)
  {
  }

  /** A history frame holds every month from the slice's first up to `bound`
      (exclusive), and each month with a source row carries that row's Severity. */
  predicate Covers(hist: seq<Row>, rows: seq<Rec<real>>, bound: int)
    requires |rows| > 0
  {
    |hist| == bound - First(rows)
    && (forall i :: 0 <= i < |hist| ==> hist[i].ds == First(rows) + i)
    && forall j :: 0 <= j < |rows| && rows[j].ds < bound ==>
         0 <= rows[j].ds - First(rows) < |hist| && hist[rows[j].ds - First(rows)].y == Some(rows[j].value)
  }

  /** With at least two source months, the history frame holds every month
      from the slice's first up to the trim bound (exclusive), and each month
      with a source row carries that row's Severity. */
  lemma SeverityHistory(tables: map<string, Table<real>>, cases: CaseTable, neigh: string, item: string, level: string,
                        cfg: Config, horizon: Option<nat>, today: int, fit: Fitter)
    requires "citywide" in tables && ValidConfig(cfg)
    requires SeveritySlice(tables, neigh, item, level).Some?
    requires var rows := SeveritySlice(tables, neigh, item, level).value;
             |rows| >= 2 && DistinctRowMonths(rows)
    ensures var rows := SeveritySlice(tables, neigh, item, level).value;
            var bound := TrimBoundOf(rows, CaseSubset(cases, neigh, item, level));
            var r := SeverityForecast(tables, cases, neigh, item, level, cfg, horizon, today, fit);
            r.Ok? ==> Covers(r.value.hist, rows, bound)
  {
    var rows := SeveritySlice(tables, neigh, item, level).value;
    var subset := CaseSubset(cases, neigh, item, level);
    SeverityForecastOfRows(tables, cases, neigh, item, level, cfg, horizon, today, fit);
    TrimRule(rows, subset);
    TrimmedHistory(rows, TrimBoundOf(rows, subset), cfg, horizon, today, fit);
  }

  /** A selection with rows of distinct months is the forecast of its trimmed series. */
  lemma SeverityForecastOfRows(tables: map<string, Table<real>>, cases: CaseTable, neigh: string, item: string, level: string,
                               cfg: Config, horizon: Option<nat>, today: int, fit: Fitter)
    requires "citywide" in tables && ValidConfig(cfg)
    requires SeveritySlice(tables, neigh, item, level).Some?
    requires var rows := SeveritySlice(tables, neigh, item, level).value;
             |rows| > 0 && DistinctRowMonths(rows)
    ensures var rows := SeveritySlice(tables, neigh, item, level).value;
            SeverityForecast(tables, cases, neigh, item, level, cfg, horizon, today, fit)
            == FromSeries(Trimmed(rows, CaseSubset(cases, neigh, item, level)), cfg, horizon, today, fit)
  {
  }

  lemma TrimmedHistory(rows: seq<Rec<real>>, bound: int, cfg: Config, horizon: Option<nat>, today: int, fit: Fitter)
    requires ValidConfig(cfg) && |rows| > 0 && DistinctRowMonths(rows)
    requires First(rows) <= bound <= First(rows) + Span(rows)
    ensures var r := FromSeries(TrimmedAt(rows, bound), cfg, horizon, today, fit);
            r.Ok? ==> Covers(r.value.hist, rows, bound)
  {
    TrimmedSeries(rows, bound);
    FromSeriesHistory(TrimmedAt(rows, bound), cfg, horizon, today, fit);
  }

  // -------------------------------------------------------------- method

  /** `get_severity_forecast`, step by step: the table and the case subset
      narrowed one filter at a time, the series trimmed, and the future padded
      month by month. It uses the corrected closure rate and the corrected
      padding, so it agrees with the source except where those two differ. */
  method GetSeverityForecast(tables: map<string, Table<real>>, cases: CaseTable, neigh: string, item: string, level: string,
                             cfg: Config, horizon: Option<nat>, today: int, fit: Fitter) returns (r: Result<Forecast>)
    requires "citywide" in tables && ValidConfig(cfg)
    ensures r == SeverityForecast(tables, cases, neigh, item, level, cfg, horizon, today, fit)
  {
    var found := SelectSeverity(tables, neigh, item, level);
    if found.None? {
      return Ok(Empty);
    }
    var severity := found.value;
    if severity == [] {
      return Ok(Empty);
    }
    if !DistinctRowMonths(severity) {
      return Err(DuplicateMonths);
    }
    var subset := SelectCases(cases, neigh, item, level);
    var ts := Trim(severity, subset);
    SeverityForecastOfRows(tables, cases, neigh, item, level, cfg, horizon, today, fit);
    r := SeriesForecast(ts, cfg, horizon, today, fit);
  }

  /** The severity rows of a selection, one filter at a time
      (app/utils/forecast_engine.py:327-365). */
  method SelectSeverity(tables: map<string, Table<real>>, neigh: string, item: string, level: string)
    returns (found: Option<seq<Rec<real>>>)
    requires "citywide" in tables
    ensures found == SeveritySlice(tables, neigh, item, level)
  {
    var levelKey := LevelKey(neigh, item, level);
    if levelKey !in tables {
      return None;
    }
    var table := tables[levelKey];
    var severity := table.rows;
    if item == AllItems {
      severity := tables["citywide"].rows;
    } else {
      if neigh != Citywide && "NEIGHBORHOOD_CLEAN" in table.columns {
        severity := Where(severity, HasAttr("NEIGHBORHOOD_CLEAN", Clean(neigh)));
      }
      var itemCol := FilterColumn(level) + "_CLEAN";
      if itemCol in table.columns {
        severity := Where(severity, HasAttr(itemCol, Clean(item)));
      }
    }
    found := Some(severity);
  }

  /** The cases whose closure decides the trim (app/utils/forecast_engine.py:394-404). */
  method SelectCases(cases: CaseTable, neigh: string, item: string, level: string) returns (subset: seq<Case>)
    ensures subset == CaseSubset(cases, neigh, item, level)
  {
    subset := cases.rows;
    if item != AllItems {
      if neigh != Citywide && "NEIGHBORHOOD" in cases.columns {
        subset := Where(subset, CaseIs("NEIGHBORHOOD", Clean(neigh)));
      }
      var filterCol := FilterColumn(level);
      if filterCol in cases.columns {
        subset := Where(subset, CaseIs(filterCol, Clean(item)));
      }
    }
  }

  /** The series of the rows, trimmed when there are two months or more
      (app/utils/forecast_engine.py:376-411). */
  method Trim(severity: seq<Rec<real>>, subset: seq<Case>) returns (ts: seq<Obs>)
    requires |severity| > 0 && DistinctRowMonths(severity)
    ensures ts == Trimmed(severity, subset)
  {
    ts := SeveritySeries(severity);
    if |severity| >= 2 {
      var months := RecMonths(severity);
      var last, second := Max(months), SecondLast(months);
      var rate := ClosureRate(subset, second);
      var bound;
      if rate.Some? && rate.value >= 0.90 {
        bound := last;
      } else {
        bound := second;
      }
      assert bound == TrimBoundOf(severity, subset);
      ts := Where(ts, ObsBefore(bound));
    }
  }

  /** The forecast of a trimmed series, with the padding loop. */
  method SeriesForecast(ts: seq<Obs>, cfg: Config, horizon: Option<nat>, today: int, fit: Fitter) returns (r: Result<Forecast>)
    requires ValidConfig(cfg)
    ensures r == FromSeries(ts, cfg, horizon, today, fit)
  {
    if |ts| < cfg.minMonths {
      var d := Degenerate(ts, cfg.trendWindow);
      return Ok(Forecast(d, d, Unreliable, None, true));
    }
    var fitted := fit(ts);
    if fitted.None? {
      return Err(FitFailed);
    }
    var h := Horizon(horizon, cfg);
    var merged := MergedFrame(ts, fitted.value, h, cfg.trendWindow);
    var last := ts[|ts| - 1];
    var hist := Where(merged, UpTo(last.ds));
    var sel := FutureWindow(merged, today, h);
    var future := PadFuture(sel, h, PadStart(sel, today), FillOf(sel, last.y));
    var mape := RecentMape(ScoreRows(merged), true, true, 3);
    r := Ok(Forecast(hist, future, Classify(mape, cfg.maxMape), mape, true));
  }
}
