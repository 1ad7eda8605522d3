/** How the engine scores a forecast and judges how complete a month is:
    `classify_reliability`, `compute_recent_mape` and `month_closure_rate`
    (app/utils/forecast_engine.py:115-155). */
module Scoring {
  import opened Common
  import opened Calendar
  import opened Tables

  // ------------------------------------------------------------ labels

  datatype Label = Reliable | PossiblyUnreliable | Unreliable

  /** The label as the page shows it. */
  function LabelText(l: Label): string
  {
    match l
    case Reliable => "Reliable"
    case PossiblyUnreliable => "Possibly Unreliable"
    case Unreliable => "Unreliable"
  }

  /** 0 for the best label, 2 for the worst. */
  function Rank(l: Label): int
  {
    match l
    case Reliable => 0
    case PossiblyUnreliable => 1
    case Unreliable => 2
  }

  /** `classify_reliability` (app/utils/forecast_engine.py:115-122). */
  function Classify(mape: Option<real>, maxMape: real): (r: Label)
    ensures mape.None? ==> r == Unreliable
    ensures mape.Some? ==> (r == Reliable <==> mape.value <= 0.6 * maxMape)
    ensures mape.Some? ==> (r == PossiblyUnreliable <==> 0.6 * maxMape < mape.value <= maxMape)
    ensures mape.Some? ==> (r == Unreliable <==> 0.6 * maxMape < mape.value && maxMape < mape.value)
  {
    if mape.None? then Unreliable
    else if mape.value <= 0.6 * maxMape then Reliable
    else if mape.value <= maxMape then PossiblyUnreliable
    else Unreliable
  }

  /** A stricter threshold never gives a better label. */
  lemma ClassifyMonotone(mape: Option<real>, a: real, b: real)
    requires a <= b
    ensures Rank(Classify(mape, a)) >= Rank(Classify(mape, b))
  {
  }

  // -------------------------------------------------------- recent MAPE

  /** The columns `compute_recent_mape` reads from one row. */
  datatype ScoreRow = ScoreRow(ds: int, y: Option<real>, yhat: Option<real>)

  function MaxDs(rows: seq<ScoreRow>): (m: int)
    requires |rows| > 0
    ensures forall i :: 0 <= i < |rows| ==> rows[i].ds <= m
    ensures exists i :: 0 <= i < |rows| && rows[i].ds == m
  {
    if |rows| == 1 then rows[0].ds
    else
      var m := MaxDs(rows[..|rows| - 1]);
      assert forall i :: 0 <= i < |rows| - 1 ==> rows[..|rows| - 1][i] == rows[i];
      if rows[|rows| - 1].ds > m then rows[|rows| - 1].ds else m
  }

  /** A row counts towards the MAPE: recent enough, both values present, a
      positive actual. */
  predicate Qualifies(r: ScoreRow, cutoff: int)
  {
    r.ds >= cutoff && r.y.Some? && r.yhat.Some? && r.y.value > 0.0
  }

  function Abs(x: real): real
  {
    if x < 0.0 then -x else x
  }

  /** Absolute percentage error of a qualifying row, as a fraction. */
  function Ape(r: ScoreRow): (e: real)
    requires r.y.Some? && r.yhat.Some? && r.y.value > 0.0
    ensures e >= 0.0
  {
    Abs(r.y.value - r.yhat.value) / r.y.value
  }

  /** The errors of the qualifying rows, in row order. */
  function Apes(rows: seq<ScoreRow>, cutoff: int): (e: seq<real>)
    ensures |e| <= |rows|
    ensures forall k :: 0 <= k < |e| ==> e[k] >= 0.0
    ensures |e| == 0 <==> forall i :: 0 <= i < |rows| ==> !Qualifies(rows[i], cutoff)
  {
    if rows == [] then []
    else
      var rest := Apes(rows[..|rows| - 1], cutoff);
      var last := rows[|rows| - 1];
      assert forall i :: 0 <= i < |rows| - 1 ==> rows[..|rows| - 1][i] == rows[i];
      rest + (if Qualifies(last, cutoff) then [Ape(last)] else [])
  }

  /** The month `years` years before the latest month of the frame
      (`merged["ds"].max() - pd.DateOffset(years=years)`, on month-end dates). */
  function Cutoff(rows: seq<ScoreRow>, years: int): int
    requires |rows| > 0
  {
    MaxDs(rows) - 12 * years
  }

  /** `compute_recent_mape` (app/utils/forecast_engine.py:142-155). `hasY` and
      `hasYhat` say whether the frame has the `y` and `yhat` columns. */
  function RecentMape(rows: seq<ScoreRow>, hasY: bool, hasYhat: bool, years: int): (r: Option<real>)
    ensures r.None? <==> (|rows| == 0 || !hasY || !hasYhat
                          || forall i :: 0 <= i < |rows| ==> !Qualifies(rows[i], Cutoff(rows, years)))
    ensures r.Some? ==> r.value >= 0.0
  {
    if |rows| == 0 || !hasY || !hasYhat then None
    else
      var e := Apes(rows, Cutoff(rows, years));
      if |e| == 0 then None
      else
        MeanAtLeast(e, 0.0);
        Some(Mean(e) * 100.0)
  }

  /** Bounded errors give a bounded MAPE: if every qualifying row is off by at
      most the fraction `bound`, the MAPE is at most `100 * bound`. */
  lemma RecentMapeAtMost(rows: seq<ScoreRow>, years: int, bound: real)
    requires |rows| > 0
    requires forall i :: 0 <= i < |rows| && Qualifies(rows[i], Cutoff(rows, years)) ==> Ape(rows[i]) <= bound
    ensures RecentMape(rows, true, true, years).Some? ==> RecentMape(rows, true, true, years).value <= 100.0 * bound
  {
    var e := Apes(rows, Cutoff(rows, years));
    ApesAtMost(rows, Cutoff(rows, years), bound);
    if |e| > 0 {
      MeanAtMost(e, bound);
    }
  }

  lemma {:induction false} ApesAtMost(rows: seq<ScoreRow>, cutoff: int, bound: real)
    requires forall i :: 0 <= i < |rows| && Qualifies(rows[i], cutoff) ==> Ape(rows[i]) <= bound
    ensures forall k :: 0 <= k < |Apes(rows, cutoff)| ==> Apes(rows, cutoff)[k] <= bound
  {
    if rows != [] {
      var init := rows[..|rows| - 1];
      assert forall i :: 0 <= i < |init| ==> init[i] == rows[i];
      ApesAtMost(init, cutoff, bound);
    }
  }

  /** The MAPE is zero exactly when every qualifying row is predicted exactly. */
  lemma RecentMapeZeroIff(rows: seq<ScoreRow>, years: int)
    requires RecentMape(rows, true, true, years).Some?
    ensures RecentMape(rows, true, true, years).value == 0.0 <==>
            forall i :: 0 <= i < |rows| && Qualifies(rows[i], Cutoff(rows, years)) ==> rows[i].yhat == rows[i].y
  {
    var c := Cutoff(rows, years);
    var e := Apes(rows, c);
    assert RecentMape(rows, true, true, years) == Some(Mean(e) * 100.0);
    ApesZeroIff(rows, c);
    MeanZeroIff(e);
  }

  lemma {:induction false} ApesZeroIff(rows: seq<ScoreRow>, cutoff: int)
    ensures (forall k :: 0 <= k < |Apes(rows, cutoff)| ==> Apes(rows, cutoff)[k] == 0.0) <==>
            (forall i :: 0 <= i < |rows| && Qualifies(rows[i], cutoff) ==> rows[i].yhat == rows[i].y)
  {
    if rows != [] {
      var init := rows[..|rows| - 1];
      var last := rows[|rows| - 1];
      assert forall i :: 0 <= i < |init| ==> init[i] == rows[i];
      ApesZeroIff(init, cutoff);
      var e0 := Apes(init, cutoff);
      var e := Apes(rows, cutoff);
      assert e == e0 + (if Qualifies(last, cutoff) then [Ape(last)] else []);
      assert forall k :: 0 <= k < |e0| ==> e[k] == e0[k];
      if Qualifies(last, cutoff) {
        assert Ape(last) == 0.0 <==> last.yhat == last.y by {
          if Ape(last) == 0.0 {
            assert Abs(last.y.value - last.yhat.value) == Ape(last) * last.y.value;
          }
        }
        assert e[|e| - 1] == Ape(last);
      }
    }
  }

  /** A mean of non-negative numbers is zero exactly when each of them is. */
  lemma MeanZeroIff(s: seq<real>)
    requires |s| > 0
    requires forall k :: 0 <= k < |s| ==> s[k] >= 0.0
    ensures Mean(s) * 100.0 == 0.0 <==> forall k :: 0 <= k < |s| ==> s[k] == 0.0
  {
    SumZeroIff(s);
    SumAtLeast(s, 0.0);
    var n := |s| as real;
    assert Mean(s) == Sum(s) / n;
    assert Mean(s) * n == Sum(s);
  }

  /** A sum of non-negative numbers is zero exactly when each of them is. */
  lemma {:induction false} SumZeroIff(s: seq<real>)
    requires forall k :: 0 <= k < |s| ==> s[k] >= 0.0
    ensures Sum(s) == 0.0 <==> forall k :: 0 <= k < |s| ==> s[k] == 0.0
  {
    if s != [] {
      var init := s[..|s| - 1];
      assert forall k :: 0 <= k < |init| ==> init[k] == s[k];
      SumZeroIff(init);
      SumAtLeast(init, 0.0);
    }
  }

  // -------------------------------------------------------- closure rate

  /** Number of cases satisfying `p`. */
  function CountWhere(cases: seq<Case>, p: Case -> bool): (n: nat)
    ensures n <= |cases|
  {
    if cases == [] then 0
    else CountWhere(cases[..|cases| - 1], p) + (if p(cases[|cases| - 1]) then 1 else 0)
  }

  lemma {:induction false} CountWhereImplies(cases: seq<Case>, p: Case -> bool, q: Case -> bool)
    requires forall i :: 0 <= i < |cases| && p(cases[i]) ==> q(cases[i])
    ensures CountWhere(cases, p) <= CountWhere(cases, q)
    ensures CountWhere(cases, p) == CountWhere(cases, q) <==> forall i :: 0 <= i < |cases| && q(cases[i]) ==> p(cases[i])
  {
    if cases != [] {
      var init := cases[..|cases| - 1];
      assert forall i :: 0 <= i < |init| ==> init[i] == cases[i];
      CountWhereImplies(init, p, q);
    }
  }

  lemma {:induction false} CountWherePositive(cases: seq<Case>, p: Case -> bool)
    ensures CountWhere(cases, p) == 0 <==> forall i :: 0 <= i < |cases| ==> !p(cases[i])
  {
    if cases != [] {
      var init := cases[..|cases| - 1];
      assert forall i :: 0 <= i < |init| ==> init[i] == cases[i];
      CountWherePositive(init, p);
    }
  }

  /** Closed cases over all cases, among those selected by `inMonth`; None when none is selected. */
  function RateAmong(cases: seq<Case>, inMonth: Case -> bool): (r: Option<real>)
    ensures r.None? <==> forall i :: 0 <= i < |cases| ==> !inMonth(cases[i])
    ensures r.Some? ==> 0.0 <= r.value <= 1.0
    ensures r.Some? ==> (r.value == 1.0 <==> forall i :: 0 <= i < |cases| && inMonth(cases[i]) ==> cases[i].closed.Some?)
  {
    var isClosed := (c: Case) => inMonth(c) && c.closed.Some?;
    var total := CountWhere(cases, inMonth);
    var closed := CountWhere(cases, isClosed);
    CountWherePositive(cases, inMonth);
    CountWhereImplies(cases, isClosed, inMonth);
    assert (forall i :: 0 <= i < |cases| && inMonth(cases[i]) ==> isClosed(cases[i])) <==>
           (forall i :: 0 <= i < |cases| && inMonth(cases[i]) ==> cases[i].closed.Some?);
    if total == 0 then None
    else
      RatioOne(closed, total);
      Some((closed as real) / (total as real))
  }

  lemma RatioOne(a: nat, b: nat)
    requires 0 <= a <= b && b > 0
    ensures 0.0 <= (a as real) / (b as real) <= 1.0
    ensures (a as real) / (b as real) == 1.0 <==> a == b
  {
    RatioInUnit(a, b);
    var q := (a as real) / (b as real);
    assert q * (b as real) == a as real;
    if q == 1.0 {
      assert a as real == b as real;
    }
    if a == b {
      assert (q - 1.0) * (b as real) == 0.0;
    }
  }

  /** The window `month_closure_rate` uses as written: from midnight on the
      first day up to and including midnight on the last day. */
  predicate InWindowAsWritten(c: Case, m: int)
  {
    c.created.Some? && AtOrBefore(MonthStart(m), c.created.value) && AtOrBefore(c.created.value, MonthEnd(m))
  }

  /** The window the function is documented to use: every case created in month `m`. */
  predicate CreatedIn(c: Case, m: int)
  {
    c.created.Some? && MonthOf(c.created.value) == m
  }

  /** `month_closure_rate` as written (app/utils/forecast_engine.py:124-140). */
  function ClosureRateAsWritten(cases: seq<Case>, m: int): (r: Option<real>)
    ensures r.None? <==> forall i :: 0 <= i < |cases| ==> !InWindowAsWritten(cases[i], m)
    ensures r.Some? ==> 0.0 <= r.value <= 1.0
  {
    RateAmong(cases, c => InWindowAsWritten(c, m))
  }

  /** `month_closure_rate` over the whole month `m`: None when no case was
      created in it, otherwise the closed fraction, in [0, 1], and 1 exactly
      when every case of the month is closed. */
  function ClosureRate(cases: seq<Case>, m: int): (r: Option<real>)
    ensures r.None? <==> forall i :: 0 <= i < |cases| ==> !CreatedIn(cases[i], m)
    ensures r.Some? ==> 0.0 <= r.value <= 1.0
    ensures r.Some? ==> (r.value == 1.0 <==> forall i :: 0 <= i < |cases| && CreatedIn(cases[i], m) ==> cases[i].closed.Some?)
  {
    RateAmong(cases, c => CreatedIn(c, m))
  }

  /** The written window is the month minus everything after midnight on its last day. */
  lemma AsWrittenWindow(c: Case, m: int)
    requires c.created.Some? && ValidStamp(c.created.value)
    ensures InWindowAsWritten(c, m) <==>
            CreatedIn(c, m) && !(c.created.value.day == MonthEnd(m).day && c.created.value.second > 0)
  {
    var t := c.created.value;
    MonthOfWindow(t, m);
    if MonthOf(t) > m {
      EarlierMonthEarlierKey(MonthEnd(m), t);
    }
    if MonthOf(t) < m {
      EarlierMonthEarlierKey(t, MonthStart(m));
    }
  }

  lemma CountWhereOne(c: Case, p: Case -> bool)
    ensures CountWhere([c], p) == if p(c) then 1 else 0
  {
    assert [c][..0] == [];
  }

  /** A case created at 14:00 on 30 September 2025, still open: the written
      window does not see it, so the month looks empty instead of 0% closed. */
  lemma ClosureRateMissesLastDay()
    ensures ClosureRateAsWritten([Case(Some(Timestamp(2025, 9, 30, 50400)), None, None, map[])], MonthIndex(2025, 9)).None?
    ensures ClosureRate([Case(Some(Timestamp(2025, 9, 30, 50400)), None, None, map[])], MonthIndex(2025, 9)) == Some(0.0)
  {
    var c := Case(Some(Timestamp(2025, 9, 30, 50400)), None, None, map[]);
    var m := MonthIndex(2025, 9);
    assert YearOf(m) == 2025 && MonthNumberOf(m) == 9;
    assert MonthEnd(m) == Timestamp(2025, 9, 30, 0);
    AsWrittenWindow(c, m);
    assert !InWindowAsWritten(c, m);
    assert CreatedIn(c, m) && c.closed.None?;
    CountWhereOne(c, x => CreatedIn(x, m));
    CountWhereOne(c, x => CreatedIn(x, m) && x.closed.Some?);
  }
}
