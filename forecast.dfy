/** `compute_forecast` (app/utils/forecast_engine.py:158-214): the engine's
    common path from a monthly series to history rows, future rows, a
    reliability label and a MAPE. The statistical model is a parameter: given
    the training series it either fails or yields a prediction band per month. */
module Forecasting {
  import opened Common
  import opened Series
  import opened Scoring
  import opened Tables

  /** One entry of FORECAST_CONFIG (app/utils/forecast_engine.py:6-19). */
  datatype Config = Config(minMonths: int, maxMape: real, horizon: nat, trendWindow: int)

  /** Both configured entries have at least one month of history and a rolling
      window of at least one month; pandas refuses a window below one. */
  predicate ValidConfig(c: Config)
  {
    c.minMonths >= 1 && c.trendWindow >= 1
  }

  const VolumeConfig: Config := Config(12, 50.0, 12, 3)
  const SeverityConfig: Config := Config(6, 70.0, 6, 2)

  lemma ConfigsValid()
    ensures ValidConfig(VolumeConfig) && ValidConfig(SeverityConfig)
    ensures VolumeConfig.horizon >= 1 && SeverityConfig.horizon >= 1
  {
  }

  /** `horizon or config["horizon_months"]`: no horizon, or horizon 0, means the configured one. */
  function Horizon(h: Option<nat>, c: Config): nat
  {
    if h.Some? && h.value != 0 then h.value else c.horizon
  }

  /** One row of a returned frame: ds, y (absent on future months), yhat,
      yhat_lower, yhat_upper, Rolling_Trend, Rolling_%_Change. */
  datatype Row = Row(ds: int, y: Option<real>, yhat: real, lower: real, upper: real, trend: real, change: Change)

  /** The four values every forecast function returns. `dated` says whether
      the frames' `ds` column holds datetimes: it does for every frame built
      from a series, and not for `pd.DataFrame(columns=...)`, whose columns
      are untyped. */
  datatype Forecast = Forecast(hist: seq<Row>, future: seq<Row>, reliability: Label, mape: Option<real>, dated: bool)

  /** Two empty frames with untyped columns, "Unreliable", None. */
  const Empty: Forecast := Forecast([], [], Unreliable, None, false)

  /** Fitting the model to a series: None when the fit raises, otherwise the
      predicted band of every month. */
  type Fitter = seq<Obs> -> Option<int -> Band>

  predicate AllEqual(ys: seq<real>)
  {
    forall i, j :: 0 <= i < |ys| && 0 <= j < |ys| ==> ys[i] == ys[j]
  }

  /** The series is long enough and not constant (`ts["y"].nunique() >= 2`). */
  predicate Sufficient(s: seq<Obs>, minMonths: int)
  {
    |s| >= minMonths && !AllEqual(Ys(s))
  }

  /** The short-circuit frame: each month predicted as its own value, plus
      its rolling trend and percentage change. */
  function Degenerate(s: seq<Obs>, w: int): (r: seq<Row>)
    requires w >= 1
    ensures |r| == |s|
    ensures forall i :: 0 <= i < |s| ==>
              r[i].ds == s[i].ds && r[i].y == Some(s[i].y)
              && r[i].yhat == s[i].y && r[i].lower == s[i].y && r[i].upper == s[i].y
    ensures |s| > 0 ==> r[0].change == Finite(0.0)
  {
    var tr := RollingTrend(Ys(s), w);
    var pc := PctChanges(Ys(s));
    seq(|s|, i requires 0 <= i < |s| => Row(s[i].ds, Some(s[i].y), s[i].y, s[i].y, s[i].y, tr[i], pc[i]))
  }

  /** The months of `make_future_dataframe`: the history's months then `h` more. */
  function MergedDs(s: seq<Obs>, h: nat): seq<int>
    requires |s| > 0
  {
    Ds(s) + Range(s[|s| - 1].ds + 1, h)
  }

  /** The `y` column after merging the history onto those months. */
  function MergedYs(s: seq<Obs>, h: nat): seq<Option<real>>
  {
    seq(|s|, i requires 0 <= i < |s| => Some(s[i].y)) + seq(h, k => None)
  }

  /** `y.fillna(yhat)`: the series the trend and change are computed on. */
  function BaseOf(ds: seq<int>, ys: seq<Option<real>>, band: int -> Band): (b: seq<real>)
    requires |ds| == |ys|
    ensures |b| == |ds|
    ensures forall i :: 0 <= i < |ds| ==> b[i] == (if ys[i].Some? then ys[i].value else band(ds[i]).yhat)
  {
    seq(|ds|, i requires 0 <= i < |ds| => if ys[i].Some? then ys[i].value else band(ds[i]).yhat)
  }

  /** The merged frame: each month with its actual value (if any), its band,
      and the rolling trend and percentage change of the filled series. */
  function Assemble(ds: seq<int>, ys: seq<Option<real>>, band: int -> Band, w: int): (r: seq<Row>)
    requires |ds| == |ys| && w >= 1
    ensures |r| == |ds|
    ensures forall i :: 0 <= i < |ds| ==>
              r[i].ds == ds[i] && r[i].y == ys[i] && r[i].yhat == band(ds[i]).yhat
              && r[i].lower == band(ds[i]).lower && r[i].upper == band(ds[i]).upper
    ensures |ds| > 0 ==> r[0].change == Finite(0.0)
  {
    var b := BaseOf(ds, ys, band);
    var tr := RollingTrend(b, w);
    var pc := PctChanges(b);
    seq(|ds|, i requires 0 <= i < |ds| =>
      var bd := band(ds[i]);
      Row(ds[i], ys[i], bd.yhat, bd.lower, bd.upper, tr[i], pc[i]))
  }

  /** What `compute_recent_mape` reads from a frame. */
  function ScoreRows(rows: seq<Row>): (r: seq<ScoreRow>)
    ensures |r| == |rows|
    ensures forall i :: 0 <= i < |rows| ==> r[i] == ScoreRow(rows[i].ds, rows[i].y, Some(rows[i].yhat))
  {
    seq(|rows|, i requires 0 <= i < |rows| => ScoreRow(rows[i].ds, rows[i].y, Some(rows[i].yhat)))
  }

  /** Some row has both values and a positive actual, whatever its month. */
  predicate HasValid(rows: seq<ScoreRow>)
  {
    exists i :: 0 <= i < |rows| && rows[i].y.Some? && rows[i].yhat.Some? && rows[i].y.value > 0.0
  }

  function UpTo(t: int): Row -> bool
  {
    (r: Row) => r.ds <= t
  }

  function After(t: int): Row -> bool
  {
    (r: Row) => r.ds > t
  }

  /** `pd.merge(ts, fc, on="ds", how="outer")` with the trend and change
      columns: the history's months with their actual values, then the `h`
      predicted months after the last one, without actual values; every month
      with its predicted band. */
  function MergedFrame(s: seq<Obs>, band: int -> Band, h: nat, w: int): (r: seq<Row>)
    requires |s| > 0 && w >= 1
    ensures |r| == |s| + h
    ensures forall i :: 0 <= i < |r| ==>
              r[i].yhat == band(r[i].ds).yhat && r[i].lower == band(r[i].ds).lower && r[i].upper == band(r[i].ds).upper
    ensures forall i :: 0 <= i < |s| ==> r[i].ds == s[i].ds && r[i].y == Some(s[i].y)
    ensures forall j :: |s| <= j < |r| ==> r[j].ds == s[|s| - 1].ds + 1 + (j - |s|) && r[j].y.None?
    ensures r[0].change == Finite(0.0)
  {
    var ds := MergedDs(s, h);
    var ys := MergedYs(s, h);
    forall j | |s| <= j < |s| + h ensures ds[j] == s[|s| - 1].ds + 1 + (j - |s|) && ys[j].None? {
      assert ds[j] == Range(s[|s| - 1].ds + 1, h)[j - |s|];
    }
    Assemble(ds, ys, band, w)
  }

  /** The model's part of `compute_forecast` (app/utils/forecast_engine.py:179-214):
      merge the history onto the predicted months, add trend and change,
      score the recent fit, and split at the last actual month. */
  function Fitted(s: seq<Obs>, band: int -> Band, h: nat, w: int, maxMape: real): (f: Forecast)
    requires |s| > 0 && w >= 1
    ensures f.reliability == Classify(f.mape, maxMape)
    ensures f.mape.Some? ==> f.mape.value >= 0.0
  {
    var merged := MergedFrame(s, band, h, w);
    var scores := ScoreRows(merged);
    var mape := if HasValid(scores) then RecentMape(scores, true, true, 3) else None;
    var last := s[|s| - 1].ds;
    Forecast(Where(merged, UpTo(last)), Where(merged, After(last)), Classify(mape, maxMape), mape, true)
  }

  /** `compute_forecast`. The series must not repeat a month: both callers
      pass one row per month. */
  function ComputeForecast(ts: seq<Obs>, cfg: Config, horizon: Option<nat>, fit: Fitter): (r: Result<Forecast>)
    requires ValidConfig(cfg) && DistinctMonths(ts)
    ensures r.Err? <==> Sufficient(SortByDs(ts), cfg.minMonths) && fit(SortByDs(ts)).None?
    ensures r.Err? ==> r.error == FitFailed
    ensures r.Ok? ==> r.value.reliability == Classify(r.value.mape, cfg.maxMape)
    ensures r.Ok? && r.value.mape.Some? ==> r.value.mape.value >= 0.0
    ensures r.Ok? ==> r.value.dated
  {
    var s := SortByDs(ts);
    if !Sufficient(s, cfg.minMonths) then
      var d := Degenerate(s, cfg.trendWindow);
      Ok(Forecast(d, d, Unreliable, None, true))
    else
      match fit(s)
      case None => Err(FitFailed)
      case Some(band) =>
        assert |s| > 0 by {
          assert |multiset(s)| == |multiset(ts)|;
        }
        Ok(Fitted(s, band, Horizon(horizon, cfg), cfg.trendWindow, cfg.maxMape))
  }

  /** Too little or constant history: both frames are the history itself with
      yhat, yhat_lower and yhat_upper equal to y, the label is "Unreliable",
      there is no MAPE, the first change is 0, and the model is never consulted. */
  lemma ShortCircuit(ts: seq<Obs>, cfg: Config, horizon: Option<nat>, fit: Fitter, other: Fitter)
    requires ValidConfig(cfg) && DistinctMonths(ts)
    requires |ts| < cfg.minMonths || AllEqual(Ys(ts))
    ensures ComputeForecast(ts, cfg, horizon, fit).Ok?
    ensures ComputeForecast(ts, cfg, horizon, fit) == ComputeForecast(ts, cfg, horizon, other)
    ensures var f := ComputeForecast(ts, cfg, horizon, fit).value;
            f.hist == f.future && |f.hist| == |ts| && f.reliability == Unreliable && f.mape.None?
            && (forall i :: 0 <= i < |f.hist| ==>
                  f.hist[i].y == Some(f.hist[i].yhat) && f.hist[i].lower == f.hist[i].yhat && f.hist[i].upper == f.hist[i].yhat)
            && (|ts| > 0 ==> f.hist[0].change == Finite(0.0))
  {
    var s := SortByDs(ts);
    assert |s| == |ts| by {
      assert |multiset(s)| == |multiset(ts)|;
    }
    if |ts| >= cfg.minMonths {
      SortedYsEqual(ts);
    }
  }

  /** A permutation of a constant series is constant. */
  lemma SortedYsEqual(ts: seq<Obs>)
    requires AllEqual(Ys(ts))
    ensures AllEqual(Ys(SortByDs(ts)))
  {
    var s := SortByDs(ts);
    forall i, j | 0 <= i < |s| && 0 <= j < |s| ensures s[i].y == s[j].y {
      assert s[i] in multiset(ts) && s[j] in multiset(ts);
      assert s[i] in ts && s[j] in ts;
      var a :| 0 <= a < |ts| && ts[a] == s[i];
      var b :| 0 <= b < |ts| && ts[b] == s[j];
      assert Ys(ts)[a] == Ys(ts)[b];
    }
  }

  /** The merged months strictly increase: the history's, then the `h` months after it. */
  lemma MergedStrict(s: seq<Obs>, h: nat)
    requires |s| > 0 && StrictlySorted(s)
    ensures forall i, j :: 0 <= i < j < |MergedDs(s, h)| ==> MergedDs(s, h)[i] < MergedDs(s, h)[j]
  {
    var d := MergedDs(s, h);
    forall i, j | 0 <= i < j < |d| ensures d[i] < d[j] {
      if j < |s| {
        assert d[i] == s[i].ds && d[j] == s[j].ds;
      } else if i < |s| {
        assert d[i] == s[i].ds <= s[|s| - 1].ds;
      }
    }
  }

  /** Splitting at the last actual month cuts the merged frame right after the history. */
  lemma FittedSplitsAtHistory(s: seq<Obs>, band: int -> Band, h: nat, w: int, maxMape: real)
    requires |s| > 0 && w >= 1 && StrictlySorted(s)
    ensures var merged := MergedFrame(s, band, h, w);
            var f := Fitted(s, band, h, w, maxMape);
            f.hist == merged[..|s|] && f.future == merged[|s|..]
  {
    var merged := MergedFrame(s, band, h, w);
    var last := s[|s| - 1].ds;
    forall i | 0 <= i < |merged| ensures merged[i].ds <= last <==> i < |s| {
      if i < |s| - 1 {
        assert merged[i].ds == s[i].ds < s[|s| - 1].ds;
      }
    }
    SplitAtMonth(merged, |s|, last);
  }

  /** When exactly the first `n` rows lie in or before month `last`, the two
      filters cut the frame at `n`. */
  lemma SplitAtMonth(merged: seq<Row>, n: nat, last: int)
    requires n <= |merged|
    requires forall i :: 0 <= i < |merged| ==> (merged[i].ds <= last <==> i < n)
    ensures Where(merged, UpTo(last)) == merged[..n] && Where(merged, After(last)) == merged[n..]
  {
    WherePrefixAt(merged, UpTo(last), n);
    WhereSuffixAt(merged, After(last), n);
  }

  /** The guard on valid rows never changes the MAPE: without a valid row no
      row qualifies for the recent window either. */
  lemma FittedMape(s: seq<Obs>, band: int -> Band, h: nat, w: int, maxMape: real)
    requires |s| > 0 && w >= 1 && StrictlySorted(s)
    ensures var f := Fitted(s, band, h, w, maxMape);
            f.mape == RecentMape(ScoreRows(f.hist + f.future), true, true, 3)
  {
    FittedSplitsAtHistory(s, band, h, w, maxMape);
    var f := Fitted(s, band, h, w, maxMape);
    var merged := MergedFrame(s, band, h, w);
    SplitJoin(merged, |s|);
    var scores := ScoreRows(merged);
    assert ScoreRows(f.hist + f.future) == scores;
    assert f.mape == if HasValid(scores) then RecentMape(scores, true, true, 3) else None;
    if !HasValid(scores) {
      NoValidNoMape(scores);
    }
  }

  /** Without a row that has both values and a positive actual, no row
      qualifies for the recent window, so there is no MAPE. */
  lemma NoValidNoMape(rows: seq<ScoreRow>)
    requires !HasValid(rows)
    ensures RecentMape(rows, true, true, 3).None?
  {
    if |rows| > 0 {
      forall i | 0 <= i < |rows| ensures !Qualifies(rows[i], Cutoff(rows, 3)) {
        assert !(rows[i].y.Some? && rows[i].yhat.Some? && rows[i].y.value > 0.0);
      }
    }
  }

  /** The history frame is exactly the sorted history, with its actual values
      and its predicted band. */
  lemma FittedHistory(s: seq<Obs>, band: int -> Band, h: nat, w: int, maxMape: real)
    requires |s| > 0 && w >= 1 && StrictlySorted(s)
    ensures var f := Fitted(s, band, h, w, maxMape);
            |f.hist| == |s|
            && forall i :: 0 <= i < |s| ==>
                 f.hist[i].ds == s[i].ds && f.hist[i].y == Some(s[i].y) && f.hist[i].yhat == band(s[i].ds).yhat
                 && f.hist[i].lower == band(s[i].ds).lower && f.hist[i].upper == band(s[i].ds).upper
  {
    FittedSplitsAtHistory(s, band, h, w, maxMape);
    HistoryPrefix(MergedFrame(s, band, h, w), s, band);
  }

  /** The first `|s|` rows of a frame that starts with the history `s`. */
  lemma HistoryPrefix(merged: seq<Row>, s: seq<Obs>, band: int -> Band)
    requires |s| <= |merged|
    requires forall i :: 0 <= i < |merged| ==>
               merged[i].yhat == band(merged[i].ds).yhat && merged[i].lower == band(merged[i].ds).lower
               && merged[i].upper == band(merged[i].ds).upper
    requires forall i :: 0 <= i < |s| ==> merged[i].ds == s[i].ds && merged[i].y == Some(s[i].y)
    ensures |merged[..|s|]| == |s|
    ensures forall i :: 0 <= i < |s| ==>
              merged[..|s|][i].ds == s[i].ds && merged[..|s|][i].y == Some(s[i].y) && merged[..|s|][i].yhat == band(s[i].ds).yhat
              && merged[..|s|][i].lower == band(s[i].ds).lower && merged[..|s|][i].upper == band(s[i].ds).upper
  {
    forall i | 0 <= i < |s| ensures merged[..|s|][i] == merged[i] {
    }
  }

  /** The future frame is exactly the `h` months after the last actual
      month, without actual values, with their predicted band. */
  lemma FittedFuture(s: seq<Obs>, band: int -> Band, h: nat, w: int, maxMape: real)
    requires |s| > 0 && w >= 1 && StrictlySorted(s)
    ensures var f := Fitted(s, band, h, w, maxMape);
            |f.future| == h
            && forall k :: 0 <= k < h ==>
                 f.future[k].ds == s[|s| - 1].ds + 1 + k && f.future[k].y.None?
                 && f.future[k].yhat == band(f.future[k].ds).yhat
                 && f.future[k].lower == band(f.future[k].ds).lower && f.future[k].upper == band(f.future[k].ds).upper
  {
    FittedSplitsAtHistory(s, band, h, w, maxMape);
    FutureSuffix(MergedFrame(s, band, h, w), |s|, s[|s| - 1].ds, band);
  }

  /** The rows of a frame after its first `n`, when those follow month `last` one by one. */
  lemma FutureSuffix(merged: seq<Row>, n: nat, last: int, band: int -> Band)
    requires n <= |merged|
    requires forall i :: 0 <= i < |merged| ==>
               merged[i].yhat == band(merged[i].ds).yhat && merged[i].lower == band(merged[i].ds).lower
               && merged[i].upper == band(merged[i].ds).upper
    requires forall j :: n <= j < |merged| ==> merged[j].ds == last + 1 + (j - n) && merged[j].y.None?
    ensures |merged[n..]| == |merged| - n
    ensures forall k :: 0 <= k < |merged| - n ==>
              merged[n..][k].ds == last + 1 + k && merged[n..][k].y.None?
              && merged[n..][k].yhat == band(merged[n..][k].ds).yhat
              && merged[n..][k].lower == band(merged[n..][k].ds).lower && merged[n..][k].upper == band(merged[n..][k].ds).upper
  {
    forall k | 0 <= k < |merged| - n ensures merged[n..][k] == merged[n + k] {
    }
  }

  /** With enough varying history and a successful fit, `compute_forecast` is
      the fitted forecast of the series sorted by month, whose months strictly increase. */
  lemma SufficientFits(ts: seq<Obs>, cfg: Config, horizon: Option<nat>, fit: Fitter)
    requires ValidConfig(cfg) && DistinctMonths(ts)
    requires Sufficient(SortByDs(ts), cfg.minMonths) && fit(SortByDs(ts)).Some?
    ensures |SortByDs(ts)| == |ts| > 0 && StrictlySorted(SortByDs(ts))
    ensures ComputeForecast(ts, cfg, horizon, fit)
            == Ok(Fitted(SortByDs(ts), fit(SortByDs(ts)).value, Horizon(horizon, cfg), cfg.trendWindow, cfg.maxMape))
  {
    var s := SortByDs(ts);
    assert |s| == |ts| by {
      assert |multiset(s)| == |multiset(ts)|;
    }
    SortByDsStrict(ts);
  }

  /** Whichever branch runs, a series already in month order comes back as
      the history frame: same months, same actual values. */
  lemma HistoryIsSeries(ts: seq<Obs>, cfg: Config, horizon: Option<nat>, fit: Fitter)
    requires ValidConfig(cfg) && StrictlySorted(ts)
    ensures DistinctMonths(ts)
    ensures var r := ComputeForecast(ts, cfg, horizon, fit);
            r.Ok? ==> |r.value.hist| == |ts|
                      && forall i :: 0 <= i < |ts| ==> r.value.hist[i].ds == ts[i].ds && r.value.hist[i].y == Some(ts[i].y)
  {
    SortByDsSorted(ts);
    if Sufficient(ts, cfg.minMonths) && fit(ts).Some? {
      SufficientFits(ts, cfg, horizon, fit);
      FittedHistory(ts, fit(ts).value, Horizon(horizon, cfg), cfg.trendWindow, cfg.maxMape);
    }
  }
}
