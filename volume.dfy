/** `get_forecast` (app/utils/forecast_engine.py:218-302): resolve the slice
    of the monthly volume table a selection asks for, turn it into one
    contiguous monthly series of complaint counts, and forecast it. */
module VolumeForecast {
  import opened Common
  import opened Text
  import opened Series
  import opened Scoring
  import opened Tables
  import opened Forecasting

  const Citywide: string := "CITYWIDE"
  const AllItems: string := "ALL"

  /** The label column an item selection filters on: `level.lower()` mapped
      through {category, department, division}, CATEGORY otherwise; as an
      index into the label columns. */
  function LevelIndex(level: string): (k: nat)
    ensures 1 <= k < |LabelColumns|
    ensures Lower(level) == "department" <==> k == 1
    ensures Lower(level) == "division" <==> k == 2
    ensures k == 3 <==> Lower(level) != "department" && Lower(level) != "division"
  {
    var l := Lower(level);
    if l == "department" then 1
    else if l == "division" then 2
    else 3
  }

  /** The LEVEL value of the table rows that serve a selection. */
  function LevelKey(neigh: string, item: string, level: string): string
  {
    if neigh == Citywide && item == AllItems then "citywide"
    else if neigh == Citywide then Lower(level)
    else if item == AllItems then "neighborhood"
    else "neighborhood_" + Lower(level)
  }

  /** For the three levels the page offers, the level key tells the four
      kinds of selection apart. */
  lemma LevelKeyCases(neigh: string, item: string, level: string)
    requires Lower(level) in {"category", "department", "division"}
    ensures LevelKey(neigh, item, level) == "citywide" <==> neigh == Citywide && item == AllItems
    ensures LevelKey(neigh, item, level) == Lower(level) <==> neigh == Citywide && item != AllItems
    ensures LevelKey(neigh, item, level) == "neighborhood" <==> neigh != Citywide && item == AllItems
    ensures LevelKey(neigh, item, level) == "neighborhood_" + Lower(level) <==> neigh != Citywide && item != AllItems
  {
    var l := Lower(level);
    assert l != "citywide" && l != "neighborhood";
    assert |"neighborhood_" + l| > 13 > |"neighborhood"|;
  }

  function HasAttr(col: string, v: string): Rec<int> -> bool
  {
    (r: Rec<int>) => Attr(r, col) == Some(v)
  }

  /** A row belongs to the selection's slice. */
  predicate Selected(r: Rec<int>, neigh: string, item: string, level: string)
  {
    Attr(r, "LEVEL") == Some(LevelKey(neigh, item, level))
    && (neigh != Citywide ==> Attr(r, "NEIGHBORHOOD_CLEAN") == Some(Clean(neigh)))
    && (item != AllItems ==> Attr(r, CleanColumns[LevelIndex(level)]) == Some(Clean(item)))
  }

  /** The column a missing-column failure names, if any: LEVEL, then the
      neighbourhood companion, then the item companion, in the order the source
      reads them. */
  function FirstMissing(cols: set<string>, neigh: string, item: string, level: string): Option<string>
  {
    if "LEVEL" !in cols then Some("LEVEL")
    else if neigh != Citywide && "NEIGHBORHOOD_CLEAN" !in cols then Some("NEIGHBORHOOD_CLEAN")
    else if item != AllItems && CleanColumns[LevelIndex(level)] !in cols then Some(CleanColumns[LevelIndex(level)])
    else None
  }

  /** The filters of app/utils/forecast_engine.py:256-265: rows of the level
      key, then of the cleaned neighbourhood, then of the cleaned item. A
      missing column raises KeyError. The slice keeps exactly the selected
      rows, in table order. */
  function Slice(t: Table<int>, neigh: string, item: string, level: string): (r: Result<seq<Rec<int>>>)
    ensures r.Err? <==> FirstMissing(t.columns, neigh, item, level).Some?
    ensures r.Err? ==> r.error == MissingColumn(FirstMissing(t.columns, neigh, item, level).value)
    ensures r.Ok? ==> |r.value| <= |t.rows|
    ensures r.Ok? ==> forall i :: 0 <= i < |r.value| ==> r.value[i] in t.rows && Selected(r.value[i], neigh, item, level)
    ensures r.Ok? ==> forall i :: 0 <= i < |t.rows| && Selected(t.rows[i], neigh, item, level) ==> t.rows[i] in r.value
  {
    if "LEVEL" !in t.columns then Err(MissingColumn("LEVEL"))
    else if neigh != Citywide && "NEIGHBORHOOD_CLEAN" !in t.columns then Err(MissingColumn("NEIGHBORHOOD_CLEAN"))
    else if item != AllItems && CleanColumns[LevelIndex(level)] !in t.columns then Err(MissingColumn(CleanColumns[LevelIndex(level)]))
    else Ok(Filtered(t.rows, neigh, item, level))
  }

  /** The three filters in turn, once the columns they read are known to exist. */
  function Filtered(rows: seq<Rec<int>>, neigh: string, item: string, level: string): (r: seq<Rec<int>>)
    ensures |r| <= |rows|
    ensures forall i :: 0 <= i < |r| ==> r[i] in rows && Selected(r[i], neigh, item, level)
    ensures forall i :: 0 <= i < |rows| && Selected(rows[i], neigh, item, level) ==> rows[i] in r
  {
    var r := Stages(rows, neigh, item, level);
    forall i | 0 <= i < |r| ensures r[i] in rows && Selected(r[i], neigh, item, level) {
      StagesFrom(rows, neigh, item, level, r[i]);
    }
    forall i | 0 <= i < |rows| && Selected(rows[i], neigh, item, level) ensures rows[i] in r {
      StagesKeep(rows, neigh, item, level, rows[i]);
    }
    r
  }

  function Stages(rows: seq<Rec<int>>, neigh: string, item: string, level: string): (r: seq<Rec<int>>)
    ensures |r| <= |rows|
  {
    var byLevel := Where(rows, HasAttr("LEVEL", LevelKey(neigh, item, level)));
    var byNeigh := if neigh != Citywide then Where(byLevel, HasAttr("NEIGHBORHOOD_CLEAN", Clean(neigh))) else byLevel;
    if item != AllItems then Where(byNeigh, HasAttr(CleanColumns[LevelIndex(level)], Clean(item))) else byNeigh
  }

  lemma StagesFrom(rows: seq<Rec<int>>, neigh: string, item: string, level: string, x: Rec<int>)
    requires x in Stages(rows, neigh, item, level)
    ensures x in rows && Selected(x, neigh, item, level)
  {
    var byLevel := Where(rows, HasAttr("LEVEL", LevelKey(neigh, item, level)));
    var byNeigh := if neigh != Citywide then Where(byLevel, HasAttr("NEIGHBORHOOD_CLEAN", Clean(neigh))) else byLevel;
    if item != AllItems { WhereFrom(byNeigh, HasAttr(CleanColumns[LevelIndex(level)], Clean(item)), x); }
    if neigh != Citywide { WhereFrom(byLevel, HasAttr("NEIGHBORHOOD_CLEAN", Clean(neigh)), x); }
    WhereFrom(rows, HasAttr("LEVEL", LevelKey(neigh, item, level)), x);
  }

  lemma StagesKeep(rows: seq<Rec<int>>, neigh: string, item: string, level: string, x: Rec<int>)
    requires x in rows && Selected(x, neigh, item, level)
    ensures x in Stages(rows, neigh, item, level)
  {
    var byLevel := Where(rows, HasAttr("LEVEL", LevelKey(neigh, item, level)));
    var byNeigh := if neigh != Citywide then Where(byLevel, HasAttr("NEIGHBORHOOD_CLEAN", Clean(neigh))) else byLevel;
    WhereKeeps(rows, HasAttr("LEVEL", LevelKey(neigh, item, level)), x);
    if neigh != Citywide { WhereKeeps(byLevel, HasAttr("NEIGHBORHOOD_CLEAN", Clean(neigh)), x); }
    if item != AllItems { WhereKeeps(byNeigh, HasAttr(CleanColumns[LevelIndex(level)], Clean(item)), x); }
  }

  // ------------------------------------------------------ monthly series

  const DsOf: Rec<int> -> int := (r: Rec<int>) => r.ds
  const CountOf: Rec<int> -> int := (r: Rec<int>) => r.value

  /** The summed Count of month `m`. */
  function MonthCount(rows: seq<Rec<int>>, m: int): real
  {
    WSum(rows, DsOf, m, CountOf) as real
  }

  /** The summed Count of each month from `lo` on, for `n` months. */
  function MonthTotals(rows: seq<Rec<int>>, lo: int, n: nat): (r: seq<real>)
    ensures |r| == n
    ensures forall i :: 0 <= i < n ==> r[i] == MonthCount(rows, lo + i)
  {
    seq(n, i requires 0 <= i < n => MonthCount(rows, lo + i))
  }

  /** The `n` months from `lo` on, each with its summed Count. */
  function MonthRun(rows: seq<Rec<int>>, lo: int, n: nat): (ts: seq<Obs>)
    ensures |ts| == n
    ensures forall i :: 0 <= i < n ==> ts[i].ds == lo + i && ts[i].y == MonthCount(rows, lo + i)
  {
    seq(n, i requires 0 <= i < n => Obs(lo + i, MonthCount(rows, lo + i)))
  }

  /** `groupby("ds")["Count"].sum()` reindexed over `date_range(min, max)` with
      zeros (app/utils/forecast_engine.py:282-298): one observation per month
      from the earliest to the latest month of the slice. */
  function VolumeSeries(rows: seq<Rec<int>>): (ts: seq<Obs>)
    requires |rows| > 0
    ensures |ts| == Max(RecMonths(rows)) - Min(RecMonths(rows)) + 1
    ensures forall i :: 0 <= i < |ts| ==> ts[i].ds == Min(RecMonths(rows)) + i
    ensures forall i :: 0 <= i < |ts| ==> ts[i].y == MonthCount(rows, ts[i].ds)
  {
    var d := RecMonths(rows);
    var lo, hi := Min(d), Max(d);
    assert lo <= d[0] <= hi;
    MonthRun(rows, lo, hi - lo + 1)
  }

  /** Months run without gaps, so no month repeats. */
  lemma VolumeSeriesContiguous(rows: seq<Rec<int>>)
    requires |rows| > 0
    ensures StrictlySorted(VolumeSeries(rows)) && DistinctMonths(VolumeSeries(rows))
    ensures SortByDs(VolumeSeries(rows)) == VolumeSeries(rows)
  {
    SortByDsSorted(VolumeSeries(rows));
  }

  /** A month with no rows in the slice counts 0, and the monthly counts add
      up to the slice's total Count: aggregation and gap filling neither lose
      nor invent complaints. */
  lemma VolumeSeriesConserves(rows: seq<Rec<int>>)
    requires |rows| > 0
    ensures forall i :: 0 <= i < |VolumeSeries(rows)| && (forall j :: 0 <= j < |rows| ==> rows[j].ds != VolumeSeries(rows)[i].ds)
              ==> VolumeSeries(rows)[i].y == 0.0
    ensures Sum(Ys(VolumeSeries(rows))) == WTotal(rows, CountOf) as real
  {
    var ts := VolumeSeries(rows);
    var lo, hi := Min(RecMonths(rows)), Max(RecMonths(rows));
    var n := hi - lo + 1;
    forall i | 0 <= i < |ts| && (forall j :: 0 <= j < |rows| ==> rows[j].ds != ts[i].ds) ensures ts[i].y == 0.0 {
      WSumAbsent(rows, DsOf, ts[i].ds, CountOf);
    }
    assert Ys(ts) == MonthTotals(rows, lo, n);
    MonthTotalsSum(rows, lo, n);
    assert Distinct(Range(lo, n));
    PartitionByKeys(rows, DsOf, Range(lo, n), CountOf);
    forall j | 0 <= j < |rows| ensures DsOf(rows[j]) in Elems(Range(lo, n)) {
      assert RecMonths(rows)[j] == rows[j].ds;
      assert Range(lo, n)[rows[j].ds - lo] == rows[j].ds;
    }
    WSumInAll(rows, DsOf, Elems(Range(lo, n)), CountOf);
  }

  lemma {:induction false} MonthTotalsSum(rows: seq<Rec<int>>, lo: int, n: nat)
    ensures Sum(MonthTotals(rows, lo, n)) == WSumKeys(rows, DsOf, Range(lo, n), CountOf) as real
  {
    if n > 0 {
      MonthTotalsSum(rows, lo, n - 1);
      assert MonthTotals(rows, lo, n)[..n - 1] == MonthTotals(rows, lo, n - 1);
      assert Range(lo, n)[..n - 1] == Range(lo, n - 1);
    }
  }

  /** `get_forecast`. A missing column fails with its name; an empty slice
      first reads the table's DEPARTMENT column for a debug line (lines
      270-271), which fails when the table has none, and otherwise gives two
      empty frames, "Unreliable" and no MAPE; a non-empty slice's monthly
      series is forecast. */
  function GetForecast(t: Table<int>, neigh: string, item: string, level: string,
                       cfg: Config, horizon: Option<nat>, fit: Fitter): (r: Result<Forecast>)
    requires ValidConfig(cfg)
    ensures Slice(t, neigh, item, level).Err? ==> r == Err(Slice(t, neigh, item, level).error)
    ensures Slice(t, neigh, item, level) == Ok([]) && "DEPARTMENT" in t.columns ==> r == Ok(Empty)
    ensures Slice(t, neigh, item, level) == Ok([]) && "DEPARTMENT" !in t.columns ==> r == Err(MissingColumn("DEPARTMENT"))
    ensures r.Ok? ==> r.value.reliability == Classify(r.value.mape, cfg.maxMape)
    ensures r.Ok? ==> Slice(t, neigh, item, level).Ok? && (r.value.dated <==> Slice(t, neigh, item, level).value != [])
  {
    match Slice(t, neigh, item, level)
    case Err(e) => Err(e)
    case Ok(rows) =>
      if rows == [] then
        if "DEPARTMENT" in t.columns then Ok(Empty) else Err(MissingColumn("DEPARTMENT"))
      else
        VolumeSeriesContiguous(rows);
        ComputeForecast(VolumeSeries(rows), cfg, horizon, fit)
  }

  /** Whenever there is history to fit, the history frame of `get_forecast`
      has one row per month from the slice's first to its last month, each
      carrying that month's summed Count. */
  lemma VolumeHistory(t: Table<int>, neigh: string, item: string, level: string,
                      cfg: Config, horizon: Option<nat>, fit: Fitter)
    requires ValidConfig(cfg)
    requires Slice(t, neigh, item, level).Ok? && Slice(t, neigh, item, level).value != []
    ensures var rows := Slice(t, neigh, item, level).value;
            var r := GetForecast(t, neigh, item, level, cfg, horizon, fit);
            r.Ok? ==>
              |r.value.hist| == Max(RecMonths(rows)) - Min(RecMonths(rows)) + 1
              && forall i :: 0 <= i < |r.value.hist| ==>
                   r.value.hist[i].ds == Min(RecMonths(rows)) + i
                   && r.value.hist[i].y == Some(MonthCount(rows, r.value.hist[i].ds))
  {
    ForecastOfSlice(t, neigh, item, level, cfg, horizon, fit);
    SliceHistory(Slice(t, neigh, item, level).value, cfg, horizon, fit);
  }

  /** The history of the forecast of a non-empty slice's monthly series
      runs over the slice's months with their summed Counts. */
  lemma SliceHistory(rows: seq<Rec<int>>, cfg: Config, horizon: Option<nat>, fit: Fitter)
    requires ValidConfig(cfg) && |rows| > 0
    ensures var r := ComputeForecast(VolumeSeries(rows), cfg, horizon, fit);
            r.Ok? ==>
              |r.value.hist| == Max(RecMonths(rows)) - Min(RecMonths(rows)) + 1
              && forall i :: 0 <= i < |r.value.hist| ==>
                   r.value.hist[i].ds == Min(RecMonths(rows)) + i
                   && r.value.hist[i].y == Some(MonthCount(rows, r.value.hist[i].ds))
  {
    var ts := VolumeSeries(rows);
    VolumeSeriesContiguous(rows);
    HistoryIsSeries(ts, cfg, horizon, fit);
    var r := ComputeForecast(ts, cfg, horizon, fit);
    if r.Ok? {
      HistoryOverMonths(r.value.hist, ts, rows);
    }
  }

  lemma HistoryOverMonths(hist: seq<Row>, ts: seq<Obs>, rows: seq<Rec<int>>)
    requires |rows| > 0 && ts == VolumeSeries(rows)
    requires |hist| == |ts| && forall i :: 0 <= i < |ts| ==> hist[i].ds == ts[i].ds && hist[i].y == Some(ts[i].y)
    ensures |hist| == Max(RecMonths(rows)) - Min(RecMonths(rows)) + 1
    ensures forall i :: 0 <= i < |hist| ==>
              hist[i].ds == Min(RecMonths(rows)) + i && hist[i].y == Some(MonthCount(rows, hist[i].ds))
  {
  }

  /** With a non-empty slice, `get_forecast` forecasts the slice's monthly series. */
  lemma ForecastOfSlice(t: Table<int>, neigh: string, item: string, level: string,
                        cfg: Config, horizon: Option<nat>, fit: Fitter)
    requires ValidConfig(cfg)
    requires Slice(t, neigh, item, level).Ok? && Slice(t, neigh, item, level).value != []
    ensures DistinctMonths(VolumeSeries(Slice(t, neigh, item, level).value))
    ensures GetForecast(t, neigh, item, level, cfg, horizon, fit)
            == ComputeForecast(VolumeSeries(Slice(t, neigh, item, level).value), cfg, horizon, fit)
  {
    VolumeSeriesContiguous(Slice(t, neigh, item, level).value);
  }
}
