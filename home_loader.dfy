/** app/forecast_loader.py: the older homepage cell, which forecasts the
    monthly count of all cases directly. `make_forecast` (a Prophet fit) is
    not modelled: its outcome is a parameter, None standing for an exception.
    The lock and the background thread are not modelled either. */
module HomeForecastLoader {
  import opened Common
  import opened Text
  import opened Calendar
  import opened ForecastCell

  /** The text of a found value (line 60): month name, year, and the value
      with no decimals. */
  function Expected(now: Timestamp, v: real): (r: string)
    requires 1 <= now.month <= 12
    ensures r != Loading && r != NoRow
  {
    var r := "Expected total for " + MonthName(now.month) + " " + IntToString(now.year) + ": " + FormatFixed0(v) + " requests";
    assert r[0] == 'E';
    r
  }

  /** The module globals `forecast_df` and `forecast_ready`. */
  class HomeCell {
    var forecast: Option<seq<Point>>
    var ready: bool

    /** A ready cell holds a frame. */
    ghost predicate Valid()
      reads this
    {
      ready ==> forecast.Some?
    }

    /** The module's initial state (lines 7-8). */
    constructor ()
      ensures Valid() && !ready && forecast == None
    {
      forecast := None;
      ready := false;
    }

    /** `run_forecasts` (lines 22-32): the flag is cleared first; a forecast
        is stored and the flag set, an exception clears both. */
    method RunForecasts(made: Option<seq<Point>>)
      modifies this
      ensures Valid()
      ensures made.Some? ==> ready && forecast == made
      ensures made.None? ==> !ready && forecast == None
    {
      ready := false;
      if made.Some? {
        forecast := made;
        ready := true;
      } else {
        forecast := None;
        ready := false;
      }
    }

    /** `get_home_forecast_summary` (lines 38-60) at the clock reading `now`:
        the loading message unless a frame is ready, the no-row message when
        no row falls in now's month and year, else the expected total of
        the first such row. The three outcomes never coincide. */
    function Summary(now: Timestamp): (r: string)
      requires Valid() && 1 <= now.month <= 12
      reads this
      ensures r == Loading <==> !ready
      ensures r == NoRow <==> ready && FirstIn(forecast.value, MonthOf(now)).None?
      ensures ready && FirstIn(forecast.value, MonthOf(now)).Some? ==>
                r == Expected(now, FirstIn(forecast.value, MonthOf(now)).value)
    {
      if !ready then Loading
      else
        match FirstIn(forecast.value, MonthOf(now))
        case None => NoRow
        case Some(v) => Expected(now, v)
    }
  }

  /** The homepage after one run on a fresh cell. */
  method RunThenSummary(made: Option<seq<Point>>, now: Timestamp) returns (r: string)
    requires 1 <= now.month <= 12
    ensures made.None? ==> r == Loading
    ensures made.Some? ==>
              var v := FirstIn(made.value, MonthOf(now));
              r == if v.None? then NoRow else Expected(now, v.value)
  {
    var cell := new HomeCell();
    cell.RunForecasts(made);
    r := cell.Summary(now);
  }
}
