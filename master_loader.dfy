/** app/utils/forecast_loader.py: the homepage cell that holds the citywide
    volume forecast. The lock and the background thread are not modelled;
    each build runs to completion before the summary is read. */
module MasterForecastLoader {
  import opened Common
  import opened Text
  import opened Calendar
  import opened Tables
  import opened Scoring
  import opened Forecasting
  import opened VolumeForecast
  import opened ForecastCell

  /** `get_forecast("CITYWIDE", "ALL", "category", FORECAST_CONFIG["volume"])`. */
  function CitywideForecast(volume: Table<int>, fit: Fitter): (r: Result<Forecast>)
    ensures r.Ok? ==> r.value.reliability == Classify(r.value.mape, VolumeConfig.maxMape)
    ensures Slice(volume, Citywide, AllItems, "category").Err? ==> r.Err?
    ensures Slice(volume, Citywide, AllItems, "category") == Ok([]) && "DEPARTMENT" in volume.columns ==> r == Ok(Empty)
    ensures Slice(volume, Citywide, AllItems, "category") == Ok([]) && "DEPARTMENT" !in volume.columns ==>
              r == Err(MissingColumn("DEPARTMENT"))
    ensures r.Ok? ==> (r.value.dated <==> Slice(volume, Citywide, AllItems, "category").value != [])
  {
    ConfigsValid();
    GetForecast(volume, Citywide, AllItems, "category", VolumeConfig, None, fit)
  }

  /** The stored `fc[["ds", "yhat"]]`, and whether its `ds` column holds
      datetimes (it does not for the untyped frame of an empty slice). */
  datatype Frame = Frame(points: seq<Point>, dated: bool)

  /** The module globals `forecast_df` and `forecast_ready`. */
  class MasterCell {
    var forecast: Option<Frame>
    var ready: bool

    /** A ready cell holds a frame. */
    ghost predicate Valid()
      reads this
    {
      ready ==> forecast.Some?
    }

    /** The module's initial state (lines 5-6). */
    constructor ()
      ensures Valid() && !ready && forecast == None
    {
      forecast := None;
      ready := false;
    }

    /** `build_master_volume_forecast` (lines 8-22): the flag is cleared
        first; a forecast stores its future rows' ds and yhat and sets the
        flag, a failure clears both, so no stale frame survives. Whatever
        the state before, the cell is valid after. */
    method Build(volume: Table<int>, fit: Fitter)
      modifies this
      ensures Valid()
      ensures CitywideForecast(volume, fit).Ok? ==>
                var f := CitywideForecast(volume, fit).value;
                ready && forecast == Some(Frame(Points(f.future), f.dated))
      ensures CitywideForecast(volume, fit).Err? ==> !ready && forecast == None
    {
      ready := false;
      var r := CitywideForecast(volume, fit);
      if r.Ok? {
        forecast := Some(Frame(Points(r.value.future), r.value.dated));
        ready := true;
      } else {
        forecast := None;
        ready := false;
      }
    }

    /** `get_home_forecast_summary` (lines 29-43) at the clock reading `now`:
        the loading message unless a frame is ready; a frame whose `ds` holds
        no datetimes makes `.dt.month` raise AttributeError; otherwise the
        no-row message when no row falls in now's month and year, else the
        first such row's yhat formatted with thousands separators and no
        decimals. The outcomes never coincide. */
    function Summary(now: Timestamp): (r: Result<string>)
      requires Valid()
      reads this
      ensures r == Ok(Loading) <==> !ready
      ensures r.Err? <==> ready && !forecast.value.dated
      ensures r.Err? ==> r.error == NotDatetime
      ensures r == Ok(NoRow) <==> ready && forecast.value.dated && FirstIn(forecast.value.points, MonthOf(now)).None?
      ensures ready && forecast.value.dated && FirstIn(forecast.value.points, MonthOf(now)).Some? ==>
                r == Ok(FormatGrouped(FirstIn(forecast.value.points, MonthOf(now)).value))
    {
      if !ready then Ok(Loading)
      else if !forecast.value.dated then Err(NotDatetime)
      else
        match FirstIn(forecast.value.points, MonthOf(now))
        case None => Ok(NoRow)
        case Some(v) =>
          GroupedIsNoMessage(v);
          Ok(FormatGrouped(v))
    }
  }

  /** The homepage after one build on a fresh cell: still loading when the
      forecast failed, which an empty citywide slice does on a table without
      a DEPARTMENT column; the summary raises when the citywide slice was
      empty on a table with one; otherwise the no-row message or the current
      month's value from the forecast's future rows. */
  method BuildThenSummary(volume: Table<int>, fit: Fitter, now: Timestamp) returns (r: Result<string>)
    ensures CitywideForecast(volume, fit).Err? ==> r == Ok(Loading)
    ensures Slice(volume, Citywide, AllItems, "category") == Ok([]) && "DEPARTMENT" !in volume.columns ==> r == Ok(Loading)
    ensures Slice(volume, Citywide, AllItems, "category") == Ok([]) && "DEPARTMENT" in volume.columns ==> r == Err(NotDatetime)
    ensures CitywideForecast(volume, fit).Ok? && Slice(volume, Citywide, AllItems, "category").value != [] ==>
              var v := FirstIn(Points(CitywideForecast(volume, fit).value.future), MonthOf(now));
              r == Ok(if v.None? then NoRow else FormatGrouped(v.value))
  {
    var cell := new MasterCell();
    cell.Build(volume, fit);
    r := cell.Summary(now);
  }
}
