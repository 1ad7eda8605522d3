/** What the two homepage forecast loaders share: the stored frame of
    (ds, yhat) rows, the reader's lookup of the current month, and the two
    fixed messages. */
module ForecastCell {
  import opened Common
  import opened Text
  import opened Forecasting

  /** One stored row: the month index of `ds` and its `yhat`. */
  datatype Point = Point(ds: int, yhat: real)

  /** `fc[["ds", "yhat"]]`. */
  function Points(rows: seq<Row>): (ps: seq<Point>)
    ensures |ps| == |rows| && forall i :: 0 <= i < |rows| ==> ps[i] == Point(rows[i].ds, rows[i].yhat)
  {
    seq(|rows|, i requires 0 <= i < |rows| => Point(rows[i].ds, rows[i].yhat))
  }

  const Loading: string := "Forecasts loading..."
  const NoRow: string := "No forecast available for current month."

  /** `current_row["yhat"].values[0]` of the rows whose month and year are
      those of month `m`: the yhat of the first such row, None when no row
      matches. */
  function FirstIn(points: seq<Point>, m: int): (v: Option<real>)
    ensures v.None? <==> forall i :: 0 <= i < |points| ==> points[i].ds != m
    ensures v.Some? ==> exists i :: 0 <= i < |points| && points[i].ds == m && points[i].yhat == v.value
                                    && forall j :: 0 <= j < i ==> points[j].ds != m
  {
    if points == [] then None
    else if points[0].ds == m then Some(points[0].yhat)
    else
      var v := FirstIn(points[1..], m);
      assert forall i :: 1 <= i < |points| ==> points[1..][i - 1] == points[i];
      assert v.Some? ==> exists i :: 1 <= i < |points| && points[i].ds == m && points[i].yhat == v.value
                                     && forall j :: 0 <= j < i ==> points[j].ds != m by {
        if v.Some? {
          var i :| 0 <= i < |points| - 1 && points[1..][i].ds == m && points[1..][i].yhat == v.value
                   && forall j :: 0 <= j < i ==> points[1..][j].ds != m;
          assert points[i + 1].ds == m && points[i + 1].yhat == v.value;
          forall j | 0 <= j < i + 1 ensures points[j].ds != m {
            if j > 0 {
              assert points[1..][j - 1] == points[j];
            }
          }
        }
      }
      v
  }

  /** The first row at month `m` decides, whatever follows it. */
  lemma {:induction false} FirstInAppend(a: seq<Point>, b: seq<Point>, m: int)
    ensures FirstIn(a + b, m) == if FirstIn(a, m).Some? then FirstIn(a, m) else FirstIn(b, m)
  {
    if a != [] {
      assert (a + b)[0] == a[0];
      if a[0].ds != m {
        assert (a + b)[1..] == a[1..] + b;
        FirstInAppend(a[1..], b, m);
      }
    } else {
      assert a + b == b;
    }
  }

  lemma {:induction false} GroupThousandsHead(d: string)
    requires |d| >= 1
    ensures |GroupThousands(d)| >= 1 && GroupThousands(d)[0] == d[0]
    decreases |d|
  {
    if |d| > 3 {
      GroupThousandsHead(d[..|d| - 3]);
    }
  }

  /** A formatted value starts with a sign or a digit, so it is never one of
      the two messages. */
  lemma GroupedIsNoMessage(x: real)
    ensures FormatGrouped(x) != Loading && FormatGrouped(x) != NoRow
  {
    var m := if x < 0.0 then -x else x;
    var d := NatToString(RoundHalfEven(m));
    GroupThousandsHead(d);
    var s := FormatGrouped(x);
    assert s[0] == '-' || IsDigit(s[0]);
  }
}
