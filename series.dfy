/** Monthly series and the column arithmetic the engine applies to them:
    sorting by month, the centred rolling mean (`rolling_trend`), the
    percentage change (`pct_change().fillna(0) * 100`) and the linear
    interpolation used to fill months without a severity value. */
module Series {
  import opened Common

  /** One observation of a monthly series: month index and value `y`. */
  datatype Obs = Obs(ds: int, y: real)

  /** What the fitted model predicts for one month. */
  datatype Band = Band(yhat: real, lower: real, upper: real)

  /** A percentage change. A rise from zero is infinite, as in floating point. */
  datatype Change = Finite(pct: real) | Infinite(positive: bool)

  function Ds(ts: seq<Obs>): seq<int>
  {
    seq(|ts|, i requires 0 <= i < |ts| => ts[i].ds)
  }

  function Ys(ts: seq<Obs>): seq<real>
  {
    seq(|ts|, i requires 0 <= i < |ts| => ts[i].y)
  }

  predicate SortedByDs(ts: seq<Obs>)
  {
    forall i, j :: 0 <= i < j < |ts| ==> ts[i].ds <= ts[j].ds
  }

  function InsertByDs(x: Obs, s: seq<Obs>): (r: seq<Obs>)
    requires SortedByDs(s)
    ensures SortedByDs(r) && multiset(r) == multiset(s) + multiset{x}
  {
    if s == [] then [x]
    else if x.ds <= s[0].ds then [x] + s
    else
      var t := InsertByDs(x, s[1..]);
      assert s == [s[0]] + s[1..];
      BoundFromMultiset(t, s[1..], x, s[0].ds);
      ConsSorted(s[0], t);
      var r := [s[0]] + t;
      assert multiset(r) == multiset{s[0]} + multiset(t);
      r
  }

  lemma ConsSorted(h: Obs, t: seq<Obs>)
    requires SortedByDs(t) && forall j :: 0 <= j < |t| ==> h.ds <= t[j].ds
    ensures SortedByDs([h] + t)
  {
    var r := [h] + t;
    forall i, j | 0 <= i < j < |r| ensures r[i].ds <= r[j].ds {
      assert r[j] == t[j - 1];
      if i > 0 { assert r[i] == t[i - 1]; }
    }
  }

  /** A lower bound on the months of `u` and on `x` bounds every month of a
      sequence holding the same observations as `u` plus `x`. */
  lemma BoundFromMultiset(t: seq<Obs>, u: seq<Obs>, x: Obs, b: int)
    requires multiset(t) == multiset(u) + multiset{x}
    requires b <= x.ds && forall k :: 0 <= k < |u| ==> b <= u[k].ds
    ensures forall j :: 0 <= j < |t| ==> b <= t[j].ds
  {
    forall j | 0 <= j < |t| ensures b <= t[j].ds {
      assert t[j] in multiset(t);
      if t[j] != x {
        assert t[j] in multiset(u);
        var k :| 0 <= k < |u| && u[k] == t[j];
      }
    }
  }

  /** `ts.sort_values("ds")`: the same observations, in month order. */
  function SortByDs(ts: seq<Obs>): (r: seq<Obs>)
    ensures SortedByDs(r) && multiset(r) == multiset(ts)
  {
    if ts == [] then []
    else
      assert ts == ts[..|ts| - 1] + [ts[|ts| - 1]];
      InsertByDs(ts[|ts| - 1], SortByDs(ts[..|ts| - 1]))
  }

  /** Months strictly increase along the series. */
  predicate StrictlySorted(ts: seq<Obs>)
  {
    forall i, j :: 0 <= i < j < |ts| ==> ts[i].ds < ts[j].ds
  }

  /** No two observations share a month. */
  predicate DistinctMonths(ts: seq<Obs>)
  {
    forall i, j :: 0 <= i < j < |ts| ==> ts[i].ds != ts[j].ds
  }

  lemma {:induction false} InsertByDsStrict(x: Obs, s: seq<Obs>)
    requires StrictlySorted(s)
    requires forall k :: 0 <= k < |s| ==> s[k].ds != x.ds
    ensures StrictlySorted(InsertByDs(x, s))
  {
    if s != [] && x.ds > s[0].ds {
      var t := InsertByDs(x, s[1..]);
      InsertByDsStrict(x, s[1..]);
      assert s == [s[0]] + s[1..];
      BoundFromMultiset(t, s[1..], x, s[0].ds + 1);
    }
  }

  /** Sorting a series whose months are distinct leaves its months strictly increasing. */
  lemma {:induction false} SortByDsStrict(ts: seq<Obs>)
    requires DistinctMonths(ts)
    ensures StrictlySorted(SortByDs(ts))
  {
    if ts != [] {
      var init := ts[..|ts| - 1];
      var last := ts[|ts| - 1];
      assert DistinctMonths(init) by {
        forall i, j | 0 <= i < j < |init| ensures init[i].ds != init[j].ds {
          assert init[i] == ts[i] && init[j] == ts[j];
        }
      }
      SortByDsStrict(init);
      var s := SortByDs(init);
      forall k | 0 <= k < |s| ensures s[k].ds != last.ds {
        FromSource(init, s, k);
        assert ts[|ts| - 1] == last;
      }
      InsertByDsStrict(last, s);
    }
  }

  /** Every element of a permutation occurs in the original. */
  lemma FromSource(init: seq<Obs>, s: seq<Obs>, k: int)
    requires multiset(s) == multiset(init) && 0 <= k < |s|
    ensures exists j :: 0 <= j < |init| && init[j] == s[k]
  {
    assert s[k] in multiset(s);
    assert s[k] in init;
  }

  lemma {:induction false} InsertByDsLast(x: Obs, s: seq<Obs>)
    requires SortedByDs(s)
    requires forall k :: 0 <= k < |s| ==> s[k].ds < x.ds
    ensures InsertByDs(x, s) == s + [x]
  {
    if s != [] {
      InsertByDsLast(x, s[1..]);
      assert s == [s[0]] + s[1..];
    }
  }

  /** Sorting a series already in strictly increasing month order changes nothing. */
  lemma {:induction false} SortByDsSorted(ts: seq<Obs>)
    requires StrictlySorted(ts)
    ensures SortByDs(ts) == ts
  {
    if ts != [] {
      var init := ts[..|ts| - 1];
      SortByDsSorted(init);
      InsertByDsLast(ts[|ts| - 1], init);
      assert ts == init + [ts[|ts| - 1]];
    }
  }

  // ------------------------------------------------------- rolling mean

  /** First index of the window pandas uses at position `i` for a centred
      rolling window of width `w`. */
  function WindowLo(i: int, w: int): int
  {
    var lo := i + 1 + (w - 1) / 2 - w;
    if lo < 0 then 0 else lo
  }

  /** One past the last index of that window, clipped to the series length `n`. */
  function WindowHi(i: int, w: int, n: int): int
  {
    var hi := i + 1 + (w - 1) / 2;
    if hi > n then n else hi
  }

  lemma WindowContains(i: int, w: int, n: int)
    requires 0 <= i < n && w >= 1
    ensures 0 <= WindowLo(i, w) <= i < WindowHi(i, w, n) <= n
    ensures WindowHi(i, w, n) - WindowLo(i, w) <= w
  {
  }

  /** `series.rolling(window=w, min_periods=1, center=True).mean()`
      (app/utils/forecast_engine.py:111-112): each position gets the mean of
      the in-bounds part of the centred window around it. */
  function RollingTrend(xs: seq<real>, w: int): (r: seq<real>)
    requires w >= 1
    ensures |r| == |xs|
  {
    seq(|xs|, i requires 0 <= i < |xs| =>
      WindowContains(i, w, |xs|);
      Mean(xs[WindowLo(i, w)..WindowHi(i, w, |xs|)]))
  }

  /** Every rolling value lies within the bounds of the values in its window. */
  lemma RollingTrendWithin(xs: seq<real>, w: int, i: int, lo: real, hi: real)
    requires w >= 1 && 0 <= i < |xs|
    requires forall j :: WindowLo(i, w) <= j < WindowHi(i, w, |xs|) ==> lo <= xs[j] <= hi
    ensures lo <= RollingTrend(xs, w)[i] <= hi
  {
    WindowContains(i, w, |xs|);
    var win := xs[WindowLo(i, w)..WindowHi(i, w, |xs|)];
    assert forall k :: 0 <= k < |win| ==> win[k] == xs[WindowLo(i, w) + k];
    MeanAtMost(win, hi);
    MeanAtLeast(win, lo);
  }

  /** A constant series is its own rolling trend. */
  lemma RollingTrendConstant(xs: seq<real>, w: int, c: real)
    requires w >= 1
    requires forall j :: 0 <= j < |xs| ==> xs[j] == c
    ensures RollingTrend(xs, w) == xs
  {
    var r := RollingTrend(xs, w);
    forall i | 0 <= i < |xs| ensures r[i] == xs[i] {
      WindowContains(i, w, |xs|);
      RollingTrendWithin(xs, w, i, c, c);
    }
  }

  // -------------------------------------------------- percentage change

  /** The change from `prev` to `cur`, after `.fillna(0) * 100`: 0/0 is NaN and
      becomes 0; a change from zero to anything else is infinite. */
  function PctStep(prev: real, cur: real): Change
  {
    if prev == 0.0 then (if cur == 0.0 then Finite(0.0) else Infinite(cur > 0.0))
    else Finite((cur / prev - 1.0) * 100.0)
  }

  /** The change at each position, the first one 0. */
  function PctAt(b: seq<real>, i: int): Change
    requires 0 <= i < |b|
  {
    if i == 0 then Finite(0.0) else PctStep(b[i - 1], b[i])
  }

  /** Applying the change `c` to `prev` gives `cur`. */
  predicate Restores(prev: real, c: Change, cur: real)
  {
    c.Finite? && prev * (1.0 + c.pct / 100.0) == cur
  }

  /** `s.pct_change().fillna(0) * 100`. */
  function PctChanges(b: seq<real>): (r: seq<Change>)
    ensures |r| == |b|
    ensures |b| > 0 ==> r[0] == Finite(0.0)
    ensures forall i :: 0 < i < |b| && b[i - 1] != 0.0 ==> Restores(b[i - 1], r[i], b[i])
    ensures forall i :: 0 < i < |b| && b[i - 1] == 0.0 ==>
              (r[i] == Finite(0.0) <==> b[i] == 0.0) && (r[i].Infinite? ==> (r[i].positive <==> b[i] > 0.0))
  {
    var r := seq(|b|, i requires 0 <= i < |b| => PctAt(b, i));
    forall i | 0 < i < |b| && b[i - 1] != 0.0
      ensures Restores(b[i - 1], r[i], b[i])
    {
      PctStepInverse(b[i - 1], b[i]);
    }
    r
  }

  /** Applying a finite change to the earlier value gives the later one back. */
  lemma PctStepInverse(prev: real, cur: real)
    requires prev != 0.0
    ensures PctStep(prev, cur).Finite?
    ensures prev * (1.0 + PctStep(prev, cur).pct / 100.0) == cur
  {
    var q := cur / prev;
    var p := (q - 1.0) * 100.0;
    assert PctStep(prev, cur) == Finite(p);
    assert p / 100.0 == q - 1.0;
    assert 1.0 + p / 100.0 == q;
    assert prev * q == cur;
  }

  /** A constant series changes by 0% everywhere. */
  lemma PctChangesConstant(b: seq<real>, c: real)
    requires forall j :: 0 <= j < |b| ==> b[j] == c
    ensures forall i :: 0 <= i < |b| ==> PctChanges(b)[i] == Finite(0.0)
  {
    var r := PctChanges(b);
    forall i | 0 < i < |b| ensures r[i] == Finite(0.0) {
      if c != 0.0 {
        assert c / c == 1.0;
        assert r[i] == PctStep(c, c);
      }
    }
  }

  // ------------------------------------------------------ interpolation

  /** Index of the nearest present value at or before `i`. */
  function PrevPresent(v: seq<Option<real>>, i: int): (r: Option<int>)
    requires i < |v|
    ensures r.Some? ==> 0 <= r.value <= i && v[r.value].Some?
    ensures r.Some? ==> forall k :: r.value < k <= i ==> v[k].None?
    ensures r.None? ==> forall k :: 0 <= k <= i ==> v[k].None?
    decreases i + 1
  {
    if i < 0 then None else if v[i].Some? then Some(i) else PrevPresent(v, i - 1)
  }

  /** Index of the nearest present value at or after `i`. */
  function NextPresent(v: seq<Option<real>>, i: int): (r: Option<int>)
    requires 0 <= i
    ensures r.Some? ==> i <= r.value < |v| && v[r.value].Some?
    ensures r.Some? ==> forall k :: i <= k < r.value ==> v[k].None?
    ensures r.None? ==> forall k :: i <= k < |v| ==> v[k].None?
    decreases |v| - i
  {
    if i >= |v| then None else if v[i].Some? then Some(i) else NextPresent(v, i + 1)
  }

  /** The value at `i` after `.interpolate().bfill().ffill()`: present values are
      kept, a gap between two present values is filled on the straight line
      between them, and a gap at either end takes the nearest present value. */
  function FillAt(v: seq<Option<real>>, i: int): real
    requires 0 <= i < |v|
    requires exists k :: 0 <= k < |v| && v[k].Some?
  {
    if v[i].Some? then v[i].value
    else
      var p, q := PrevPresent(v, i), NextPresent(v, i);
      if p.Some? && q.Some? then
        var a, b := v[p.value].value, v[q.value].value;
        a + (b - a) * ((i - p.value) as real / (q.value - p.value) as real)
      else if q.Some? then v[q.value].value
      else
        assert p.Some? by {
          var k :| 0 <= k < |v| && v[k].Some?;
          assert k <= i;
        }
        v[p.value].value
  }

  /** `ts["y"].interpolate().bfill().ffill()` on a series with at least one value. */
  function Interpolate(v: seq<Option<real>>): (r: seq<real>)
    requires exists k :: 0 <= k < |v| && v[k].Some?
    ensures |r| == |v|
    ensures forall i :: 0 <= i < |v| && v[i].Some? ==> r[i] == v[i].value
  {
    seq(|v|, i requires 0 <= i < |v| => FillAt(v, i))
  }

  lemma MulNonNegative(x: real, y: real)
    requires x >= 0.0 && y >= 0.0
    ensures x * y >= 0.0
  {
  }

  lemma BetweenEnds(a: real, b: real, t: real)
    requires 0.0 <= t <= 1.0
    ensures (if a <= b then a else b) <= a + (b - a) * t <= (if a <= b then b else a)
  {
    var d := b - a;
    if a <= b {
      MulNonNegative(d, t);
      MulNonNegative(d, 1.0 - t);
      assert d * (1.0 - t) == d - d * t;
    } else {
      MulNonNegative(-d, t);
      MulNonNegative(-d, 1.0 - t);
      assert (-d) * t == -(d * t);
      assert (-d) * (1.0 - t) == d * t - d;
    }
  }

  /** A filled value lies between the present values that bracket it. */
  lemma FillAtWithin(v: seq<Option<real>>, i: int, lo: real, hi: real)
    requires 0 <= i < |v|
    requires exists k :: 0 <= k < |v| && v[k].Some?
    requires forall k :: 0 <= k < |v| && v[k].Some? ==> lo <= v[k].value <= hi
    ensures lo <= FillAt(v, i) <= hi
  {
    if v[i].None? {
      var p, q := PrevPresent(v, i), NextPresent(v, i);
      if p.Some? && q.Some? {
        RatioInUnit(i - p.value, q.value - p.value);
        BetweenEnds(v[p.value].value, v[q.value].value, (i - p.value) as real / (q.value - p.value) as real);
      }
    }
  }

  /** Every value of the filled series lies within the range of the present ones. */
  lemma InterpolateWithin(v: seq<Option<real>>, lo: real, hi: real)
    requires exists k :: 0 <= k < |v| && v[k].Some?
    requires forall k :: 0 <= k < |v| && v[k].Some? ==> lo <= v[k].value <= hi
    ensures forall i :: 0 <= i < |v| ==> lo <= Interpolate(v)[i] <= hi
  {
    forall i | 0 <= i < |v| ensures lo <= Interpolate(v)[i] <= hi {
      FillAtWithin(v, i, lo, hi);
    }
  }
}
