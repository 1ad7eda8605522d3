/** The forecast inputs precomputed from the case table
    (precompute/forecast.py): the month bucket of every case, monthly counts
    per neighbourhood and citywide, and the monthly severity tables. The
    parquet writes are left out; each function returns the frame it writes. */
module Precompute {
  import opened Common
  import opened Text
  import opened Calendar
  import opened Tables

  /** A case with the month it was created in; None for a null CREATED DATE. */
  datatype BaseRow = BaseRow(c: Case, ds: Option<int>)

  /** `prepare_base`: ds is the month of CREATED DATE, labelled by its month end. */
  function PrepareBase(cases: seq<Case>): (b: seq<BaseRow>)
    ensures |b| == |cases|
    ensures forall i :: 0 <= i < |cases| ==> b[i].c == cases[i] && (b[i].ds.Some? <==> cases[i].created.Some?)
  {
    seq(|cases|, i requires 0 <= i < |cases| =>
      BaseRow(cases[i], if cases[i].created.Some? then Some(MonthOf(cases[i].created.value)) else None))
  }

  /** A case lands in month `m` exactly when it was created at or after the
      first midnight of `m` and before the first midnight of the next month. */
  lemma PrepareBaseMonth(cases: seq<Case>, i: int, m: int)
    requires 0 <= i < |cases| && cases[i].created.Some? && ValidStamp(cases[i].created.value)
    ensures var t := cases[i].created.value;
            PrepareBase(cases)[i].ds == Some(m) <==> AtOrBefore(MonthStart(m), t) && !AtOrBefore(MonthStart(m + 1), t)
  {
    MonthOfWindow(cases[i].created.value, m);
  }

  /** Every bucketed month is of a year from 0 on, so it has a `%Y-%m` label. */
  predicate NonNegativeMonths(base: seq<BaseRow>)
  {
    forall i :: 0 <= i < |base| && base[i].ds.Some? ==> base[i].ds.value >= 0
  }

  // ------------------------------------------------------ monthly volume

  /** `NEIGHBORHOOD.fillna("CITYWIDE")`. */
  function NeighKey(b: BaseRow): string
  {
    var n := CaseAttr(b.c, "NEIGHBORHOOD");
    if n.Some? then n.value else "CITYWIDE"
  }

  /** A row counts once when it has a month; `groupby("ds")` drops the others. */
  const Dated: BaseRow -> int := (b: BaseRow) => if b.ds.Some? then 1 else 0

  const MonthKey: BaseRow -> int := (b: BaseRow) => if b.ds.Some? then b.ds.value else 0

  const PairOf: BaseRow -> (string, int) := (b: BaseRow) => (NeighKey(b), MonthKey(b))

  /** One row of monthly_volume_full. */
  datatype VolumeRow = VolumeRow(ds: int, count: int, neighborhood: string, yearMonth: string)

  /** The neighbourhood groups, in the sorted order `groupby` visits them. */
  function NeighKeys(base: seq<BaseRow>): (keys: seq<string>)
    ensures SortedStrings(keys)
    ensures forall i :: 0 <= i < |base| ==> NeighKey(base[i]) in Elems(keys)
    ensures keys == [] <==> base == []
  {
    var names := seq(|base|, i requires 0 <= i < |base| => NeighKey(base[i]));
    var keys := SortStrings(names);
    forall i | 0 <= i < |base| ensures NeighKey(base[i]) in Elems(keys) {
      assert names[i] == NeighKey(base[i]) && names[i] in Elems(names);
    }
    keys
  }

  /** The rows `sel` keeps that have a month. */
  function DatedAnd(sel: BaseRow -> bool): BaseRow -> bool
  {
    (b: BaseRow) => b.ds.Some? && sel(b)
  }

  /** The distinct months of the dated rows `sel` keeps, ascending: the keys
      of `groupby("ds")`, which drops a null ds. */
  function MonthsOf(base: seq<BaseRow>, sel: BaseRow -> bool): (ms: seq<int>)
    ensures Increasing(ms)
    ensures forall i :: 0 <= i < |base| && DatedAnd(sel)(base[i]) ==> base[i].ds.value in Elems(ms)
    ensures NonNegativeMonths(base) ==> forall k :: 0 <= k < |ms| ==> ms[k] >= 0
  {
    var g := Where(base, DatedAnd(sel));
    var d := DatedMonths(g);
    var ms := SortedDistinct(d);
    forall i | 0 <= i < |base| && DatedAnd(sel)(base[i]) ensures base[i].ds.value in Elems(ms) {
      var j :| 0 <= j < |g| && g[j] == base[i];
      assert d[j] in Elems(d);
    }
    assert NonNegativeMonths(base) ==> forall k :: 0 <= k < |ms| ==> ms[k] >= 0 by {
      if NonNegativeMonths(base) {
        forall k | 0 <= k < |ms| ensures ms[k] >= 0 {
          assert ms[k] in Elems(d);
          var j :| 0 <= j < |d| && d[j] == ms[k];
          assert g[j] in base;
        }
      }
    }
    ms
  }

  function DatedMonths(g: seq<BaseRow>): (d: seq<int>)
    ensures |d| == |g|
    ensures forall i :: 0 <= i < |g| ==> d[i] == MonthKey(g[i])
  {
    seq(|g|, i requires 0 <= i < |g| => MonthKey(g[i]))
  }

  /** Every listed month is the month of some dated row `sel` keeps. */
  lemma MonthWitness(base: seq<BaseRow>, sel: BaseRow -> bool, k: int) returns (i: int)
    requires 0 <= k < |MonthsOf(base, sel)|
    ensures 0 <= i < |base| && DatedAnd(sel)(base[i]) && base[i].ds.value == MonthsOf(base, sel)[k]
  {
    var g := Where(base, DatedAnd(sel));
    var d := DatedMonths(g);
    var ms := MonthsOf(base, sel);
    assert ms[k] in Elems(ms);
    var j :| 0 <= j < |d| && d[j] == ms[k];
    i :| 0 <= i < |base| && base[i] == g[j];
  }

  function InGroup(n: string): BaseRow -> bool
  {
    (b: BaseRow) => NeighKey(b) == n
  }

  /** The months of a neighbourhood group that have rows, ascending. */
  function GroupMonths(base: seq<BaseRow>, n: string): seq<int>
  {
    MonthsOf(base, InGroup(n))
  }

  /** The (neighbourhood, month) keys of one group, in `groupby("ds")` order. */
  function GroupPairs(base: seq<BaseRow>, n: string): (ps: seq<(string, int)>)
    ensures |ps| == |GroupMonths(base, n)|
    ensures forall k :: 0 <= k < |ps| ==> ps[k] == (n, GroupMonths(base, n)[k])
  {
    var ms := GroupMonths(base, n);
    seq(|ms|, k requires 0 <= k < |ms| => (n, ms[k]))
  }

  /** The keys of the groups `keys`, group after group. */
  function PairsFor(base: seq<BaseRow>, keys: seq<string>): seq<(string, int)>
  {
    if keys == [] then [] else PairsFor(base, keys[..|keys| - 1]) + GroupPairs(base, keys[|keys| - 1])
  }

  /** The number of dated rows of a (neighbourhood, month) key. */
  function PairCount(base: seq<BaseRow>, p: (string, int)): int
  {
    WSum(base, PairOf, p, Dated)
  }

  function VolumeRows(base: seq<BaseRow>, pairs: seq<(string, int)>): (r: seq<VolumeRow>)
    requires forall k :: 0 <= k < |pairs| ==> pairs[k].1 >= 0
    ensures |r| == |pairs|
    ensures forall k :: 0 <= k < |pairs| ==>
              r[k] == VolumeRow(pairs[k].1, PairCount(base, pairs[k]), pairs[k].0, YearMonthStr(pairs[k].1))
  {
    seq(|pairs|, k requires 0 <= k < |pairs| =>
      VolumeRow(pairs[k].1, PairCount(base, pairs[k]), pairs[k].0, YearMonthStr(pairs[k].1)))
  }

  lemma GroupMonthsNonNegative(base: seq<BaseRow>, n: string)
    requires NonNegativeMonths(base)
    ensures forall k :: 0 <= k < |GroupPairs(base, n)| ==> GroupPairs(base, n)[k].1 >= 0
  {
  }

  lemma {:induction false} PairsNonNegative(base: seq<BaseRow>, keys: seq<string>)
    requires NonNegativeMonths(base)
    ensures forall k :: 0 <= k < |PairsFor(base, keys)| ==> PairsFor(base, keys)[k].1 >= 0
  {
    if keys != [] {
      PairsNonNegative(base, keys[..|keys| - 1]);
      GroupMonthsNonNegative(base, keys[|keys| - 1]);
    }
  }

  /** One group's counts: `group.groupby("ds").size()` labelled with the
      neighbourhood and the `%Y-%m` string. */
  function GroupCounts(base: seq<BaseRow>, n: string): seq<VolumeRow>
    requires NonNegativeMonths(base)
  {
    GroupMonthsNonNegative(base, n);
    VolumeRows(base, GroupPairs(base, n))
  }

  /** The counts of the groups `keys`, group after group. */
  function VolumeFor(base: seq<BaseRow>, keys: seq<string>): seq<VolumeRow>
    requires NonNegativeMonths(base)
  {
    PairsNonNegative(base, keys);
    VolumeRows(base, PairsFor(base, keys))
  }

  /** Every group's counts, concatenated in group order. */
  function VolumeFrame(base: seq<BaseRow>): seq<VolumeRow>
    requires NonNegativeMonths(base)
  {
    VolumeFor(base, NeighKeys(base))
  }

  /** monthly_volume_full: the concatenated counts; `pd.concat` of no
      groups, on an empty base, raises ValueError. */
  function MonthlyVolume(base: seq<BaseRow>): (r: Result<seq<VolumeRow>>)
    requires NonNegativeMonths(base)
    ensures r.Err? <==> base == []
    ensures r.Err? ==> r.error == NothingToConcat
    ensures r.Ok? ==> r.value == VolumeFrame(base)
  {
    if NeighKeys(base) == [] then Err(NothingToConcat) else Ok(VolumeFrame(base))
  }

  /** Appending a group appends its counts. */
  lemma VolumeForStep(base: seq<BaseRow>, keys: seq<string>, k: int)
    requires NonNegativeMonths(base) && 0 <= k < |keys|
    ensures VolumeFor(base, keys[..k + 1]) == VolumeFor(base, keys[..k]) + GroupCounts(base, keys[k])
  {
    assert keys[..k + 1][..k] == keys[..k];
    PairsNonNegative(base, keys[..k]);
    GroupMonthsNonNegative(base, keys[k]);
    VolumeRowsAppend(base, PairsFor(base, keys[..k]), GroupPairs(base, keys[k]));
  }

  lemma VolumeRowsAppend(base: seq<BaseRow>, a: seq<(string, int)>, b: seq<(string, int)>)
    requires forall k :: 0 <= k < |a| ==> a[k].1 >= 0
    requires forall k :: 0 <= k < |b| ==> b[k].1 >= 0
    ensures VolumeRows(base, a + b) == VolumeRows(base, a) + VolumeRows(base, b)
  {
    assert forall k :: 0 <= k < |a + b| ==> (a + b)[k] == if k < |a| then a[k] else b[k - |a|];
  }

  /** `compute_monthly_volume`: one pass over the neighbourhood groups,
      appending each group's monthly counts (precompute/forecast.py:17-34). */
  method ComputeMonthlyVolume(base: seq<BaseRow>) returns (r: Result<seq<VolumeRow>>)
    requires NonNegativeMonths(base)
    ensures r == MonthlyVolume(base)
  {
    var keys := NeighKeys(base);
    var rows := [];
    for k := 0 to |keys|
      invariant rows == VolumeFor(base, keys[..k])
    {
      var temp := GroupCounts(base, keys[k]);
      VolumeForStep(base, keys, k);
      rows := rows + temp;
    }
    assert keys[..|keys|] == keys;
    if keys == [] {
      return Err(NothingToConcat);
    }
    r := Ok(rows);
  }

  /** The summed Count of a frame. */
  function TotalCount(rows: seq<VolumeRow>): int
  {
    if rows == [] then 0 else TotalCount(rows[..|rows| - 1]) + rows[|rows| - 1].count
  }

  lemma {:induction false} TotalOfRows(base: seq<BaseRow>, pairs: seq<(string, int)>)
    requires forall k :: 0 <= k < |pairs| ==> pairs[k].1 >= 0
    ensures TotalCount(VolumeRows(base, pairs)) == WSumKeys(base, PairOf, pairs, Dated)
  {
    if pairs != [] {
      var init := pairs[..|pairs| - 1];
      TotalOfRows(base, init);
      assert VolumeRows(base, pairs)[..|pairs| - 1] == VolumeRows(base, init);
    }
  }

  /** The keys of different groups differ in their neighbourhood, and one
      group's months are distinct: no key repeats. */
  lemma {:induction false} PairsDistinct(base: seq<BaseRow>, keys: seq<string>)
    requires SortedStrings(keys)
    ensures Distinct(PairsFor(base, keys))
    ensures forall k :: 0 <= k < |PairsFor(base, keys)| ==> PairsFor(base, keys)[k].0 in Elems(keys)
  {
    if keys != [] {
      var init, n := keys[..|keys| - 1], keys[|keys| - 1];
      assert SortedStrings(init) by {
        forall i, j | 0 <= i < j < |init| ensures StrLess(init[i], init[j]) {
          assert init[i] == keys[i] && init[j] == keys[j];
        }
      }
      PairsDistinct(base, init);
      var a, g := PairsFor(base, init), GroupPairs(base, n);
      assert n !in Elems(init) by {
        forall i | 0 <= i < |init| ensures init[i] != n {
          assert StrLess(keys[i], keys[|keys| - 1]);
          if init[i] == n {
            StrLessIrreflexive(n);
          }
        }
      }
      assert PairsFor(base, keys) == a + g;
      GroupPairsDistinct(base, n);
      AppendPairs(a, g, keys, n);
    }
  }

  /** One group's keys are distinct and all carry its neighbourhood. */
  lemma GroupPairsDistinct(base: seq<BaseRow>, n: string)
    ensures Distinct(GroupPairs(base, n))
    ensures forall k :: 0 <= k < |GroupPairs(base, n)| ==> GroupPairs(base, n)[k].0 == n
  {
    var g, ms := GroupPairs(base, n), GroupMonths(base, n);
    forall i, j | 0 <= i < j < |g| ensures g[i] != g[j] {
      assert g[i].1 == ms[i] && g[j].1 == ms[j];
    }
  }

  lemma AppendPairs(a: seq<(string, int)>, g: seq<(string, int)>, keys: seq<string>, n: string)
    requires |keys| > 0 && n == keys[|keys| - 1] && n !in Elems(keys[..|keys| - 1])
    requires Distinct(a) && forall k :: 0 <= k < |a| ==> a[k].0 in Elems(keys[..|keys| - 1])
    requires Distinct(g) && forall k :: 0 <= k < |g| ==> g[k].0 == n
    ensures Distinct(a + g)
    ensures forall k :: 0 <= k < |a + g| ==> (a + g)[k].0 in Elems(keys)
  {
    forall i, j | 0 <= i < j < |a + g| ensures (a + g)[i] != (a + g)[j] {
      if j < |a| {
        assert (a + g)[i] == a[i] && (a + g)[j] == a[j];
      } else if i < |a| {
        assert (a + g)[i] == a[i] && (a + g)[j] == g[j - |a|];
      } else {
        assert (a + g)[i] == g[i - |a|] && (a + g)[j] == g[j - |a|];
      }
    }
    forall k | 0 <= k < |a + g| ensures (a + g)[k].0 in Elems(keys) {
      if k < |a| {
        assert (a + g)[k] == a[k];
        var x := a[k].0;
        var i :| 0 <= i < |keys| - 1 && keys[..|keys| - 1][i] == x;
        assert keys[i] == x;
      } else {
        assert (a + g)[k] == g[k - |a|];
        assert keys[|keys| - 1] == n;
      }
    }
  }

  /** A dated row of a listed group has its key among the group keys. */
  lemma {:induction false} PairsCover(base: seq<BaseRow>, keys: seq<string>, i: int)
    requires 0 <= i < |base| && base[i].ds.Some? && NeighKey(base[i]) in Elems(keys)
    ensures PairOf(base[i]) in Elems(PairsFor(base, keys))
  {
    var init, n := keys[..|keys| - 1], keys[|keys| - 1];
    assert keys == init + [n];
    var a, g := PairsFor(base, init), GroupPairs(base, n);
    assert Elems(a + g) == Elems(a) + Elems(g);
    if NeighKey(base[i]) == n {
      GroupPairsCover(base, n, i);
    } else {
      PairsCover(base, init, i);
    }
  }

  lemma GroupPairsCover(base: seq<BaseRow>, n: string, i: int)
    requires 0 <= i < |base| && base[i].ds.Some? && NeighKey(base[i]) == n
    ensures PairOf(base[i]) in Elems(GroupPairs(base, n))
  {
    var ms := GroupMonths(base, n);
    assert DatedAnd(InGroup(n))(base[i]);
    var k :| 0 <= k < |ms| && ms[k] == base[i].ds.value;
    assert GroupPairs(base, n)[k] == PairOf(base[i]);
  }

  /** Every monthly count is positive and is the number of rows of its
      neighbourhood and month; no (neighbourhood, month) pair repeats; a row
      without a neighbourhood is counted under "CITYWIDE". */
  lemma MonthlyVolumeRows(base: seq<BaseRow>)
    requires NonNegativeMonths(base)
    ensures var out := VolumeFrame(base);
            (forall k :: 0 <= k < |out| ==> out[k].count == PairCount(base, (out[k].neighborhood, out[k].ds)) >= 1)
            && (forall k, l :: 0 <= k < l < |out| ==> (out[k].neighborhood, out[k].ds) != (out[l].neighborhood, out[l].ds))
            && (forall i :: 0 <= i < |base| && base[i].ds.Some? ==>
                  exists k :: 0 <= k < |out| && out[k].neighborhood == NeighKey(base[i]) && out[k].ds == base[i].ds.value)
  {
    MonthlyVolumeCounts(base);
    MonthlyVolumeDistinct(base);
    MonthlyVolumeCovers(base);
  }

  lemma MonthlyVolumeCounts(base: seq<BaseRow>)
    requires NonNegativeMonths(base)
    ensures var out := VolumeFrame(base);
            forall k :: 0 <= k < |out| ==> out[k].count == PairCount(base, (out[k].neighborhood, out[k].ds)) >= 1
  {
    var keys := NeighKeys(base);
    var pairs := PairsFor(base, keys);
    PairsNonNegative(base, keys);
    var out := VolumeRows(base, pairs);
    forall k | 0 <= k < |out| ensures out[k].count == PairCount(base, (out[k].neighborhood, out[k].ds)) >= 1 {
      PairPositive(base, keys, k);
      assert (out[k].neighborhood, out[k].ds) == pairs[k];
    }
  }

  lemma MonthlyVolumeDistinct(base: seq<BaseRow>)
    requires NonNegativeMonths(base)
    ensures var out := VolumeFrame(base);
            forall k, l :: 0 <= k < l < |out| ==> (out[k].neighborhood, out[k].ds) != (out[l].neighborhood, out[l].ds)
  {
    var keys := NeighKeys(base);
    var pairs := PairsFor(base, keys);
    PairsNonNegative(base, keys);
    PairsDistinct(base, keys);
    var out := VolumeRows(base, pairs);
    forall k, l | 0 <= k < l < |out| ensures (out[k].neighborhood, out[k].ds) != (out[l].neighborhood, out[l].ds) {
      assert (out[k].neighborhood, out[k].ds) == pairs[k] && (out[l].neighborhood, out[l].ds) == pairs[l];
    }
  }

  lemma MonthlyVolumeCovers(base: seq<BaseRow>)
    requires NonNegativeMonths(base)
    ensures var out := VolumeFrame(base);
            forall i :: 0 <= i < |base| && base[i].ds.Some? ==>
              exists k :: 0 <= k < |out| && out[k].neighborhood == NeighKey(base[i]) && out[k].ds == base[i].ds.value
  {
    forall i | 0 <= i < |base| && base[i].ds.Some?
      ensures exists k :: 0 <= k < |VolumeFrame(base)| && VolumeFrame(base)[k].neighborhood == NeighKey(base[i])
                          && VolumeFrame(base)[k].ds == base[i].ds.value
    {
      var k := CoverOne(base, i);
    }
  }

  /** The position of the count that covers dated row `i`. */
  lemma CoverOne(base: seq<BaseRow>, i: int) returns (k: nat)
    requires NonNegativeMonths(base) && 0 <= i < |base| && base[i].ds.Some?
    ensures k < |VolumeFrame(base)| && VolumeFrame(base)[k].neighborhood == NeighKey(base[i])
            && VolumeFrame(base)[k].ds == base[i].ds.value
  {
    var keys := NeighKeys(base);
    var pairs := PairsFor(base, keys);
    PairsNonNegative(base, keys);
    var out := VolumeRows(base, pairs);
    assert VolumeFrame(base) == out;
    PairsCover(base, keys, i);
    k :| 0 <= k < |pairs| && pairs[k] == PairOf(base[i]);
    assert out[k].neighborhood == pairs[k].0 && out[k].ds == pairs[k].1;
  }

  /** Every listed key has a dated row, so its count is positive. */
  lemma {:induction false} PairPositive(base: seq<BaseRow>, keys: seq<string>, k: int)
    requires 0 <= k < |PairsFor(base, keys)|
    ensures PairCount(base, PairsFor(base, keys)[k]) >= 1
  {
    var init, n := keys[..|keys| - 1], keys[|keys| - 1];
    var a, g := PairsFor(base, init), GroupPairs(base, n);
    if k < |a| {
      assert (a + g)[k] == a[k];
      PairPositive(base, init, k);
    } else {
      var ms := GroupMonths(base, n);
      assert (a + g)[k] == g[k - |a|] == (n, ms[k - |a|]);
      var i := MonthWitness(base, InGroup(n), k - |a|);
      WSumPositive(base, PairOf, (n, ms[k - |a|]), Dated, i);
    }
  }

  /** The counts add up to the number of rows that have a month: grouping
      neither loses nor invents cases. */
  lemma MonthlyVolumeConserves(base: seq<BaseRow>)
    requires NonNegativeMonths(base)
    ensures TotalCount(VolumeFrame(base)) == WTotal(base, Dated)
  {
    var keys := NeighKeys(base);
    var pairs := PairsFor(base, keys);
    PairsNonNegative(base, keys);
    PairsDistinct(base, keys);
    TotalOfRows(base, pairs);
    PartitionByKeys(base, PairOf, pairs, Dated);
    forall i | 0 <= i < |base| ensures PairOf(base[i]) in Elems(pairs) || Dated(base[i]) == 0 {
      if base[i].ds.Some? {
        PairsCover(base, keys, i);
      }
    }
    WSumInAll(base, PairOf, Elems(pairs), Dated);
  }

  // ------------------------------------------------ valid citywide months

  /** One row of valid_citywide_months. */
  datatype CitywideRow = CitywideRow(ds: int, count: int, yearMonth: string)

  const AnyRow: BaseRow -> bool := (b: BaseRow) => true

  /** The rows of the listed months, each with its number of dated rows. */
  function CitywideRows(base: seq<BaseRow>, ms: seq<int>): (r: seq<CitywideRow>)
    requires forall k :: 0 <= k < |ms| ==> ms[k] >= 0
    ensures |r| == |ms|
    ensures forall k :: 0 <= k < |r| ==> r[k] == CitywideRow(ms[k], WSum(base, MonthKey, ms[k], Dated), YearMonthStr(ms[k]))
  {
    seq(|ms|, k requires 0 <= k < |ms| => CitywideRow(ms[k], WSum(base, MonthKey, ms[k], Dated), YearMonthStr(ms[k])))
  }

  /** `compute_valid_citywide`: the number of rows of every month that has
      rows, in ascending month order. */
  function ValidCitywide(base: seq<BaseRow>): seq<CitywideRow>
    requires NonNegativeMonths(base)
  {
    CitywideRows(base, MonthsOf(base, AnyRow))
  }

  function CitywideTotal(rows: seq<CitywideRow>): int
  {
    if rows == [] then 0 else CitywideTotal(rows[..|rows| - 1]) + rows[|rows| - 1].count
  }

  lemma {:induction false} CitywideTotalKeys(base: seq<BaseRow>, ms: seq<int>)
    requires forall k :: 0 <= k < |ms| ==> ms[k] >= 0
    ensures CitywideTotal(CitywideRows(base, ms)) == WSumKeys(base, MonthKey, ms, Dated)
  {
    if ms != [] {
      var init := ms[..|ms| - 1];
      CitywideTotalKeys(base, init);
      assert CitywideRows(base, ms)[..|ms| - 1] == CitywideRows(base, init);
    }
  }

  /** The months ascend strictly, every month of a dated row is listed, and
      every count is positive. */
  lemma ValidCitywideRows(base: seq<BaseRow>)
    requires NonNegativeMonths(base)
    ensures var r := ValidCitywide(base);
            (forall k, l :: 0 <= k < l < |r| ==> r[k].ds < r[l].ds)
            && (forall k :: 0 <= k < |r| ==> r[k].count >= 1)
            && (forall i :: 0 <= i < |base| && base[i].ds.Some? ==> exists k :: 0 <= k < |r| && r[k].ds == base[i].ds.value)
  {
    var ms := MonthsOf(base, AnyRow);
    var r := ValidCitywide(base);
    forall k | 0 <= k < |r| ensures r[k].count >= 1 {
      var i := MonthWitness(base, AnyRow, k);
      WSumPositive(base, MonthKey, ms[k], Dated, i);
    }
    forall i | 0 <= i < |base| && base[i].ds.Some? ensures exists k :: 0 <= k < |r| && r[k].ds == base[i].ds.value {
      assert DatedAnd(AnyRow)(base[i]);
      assert base[i].ds.value in Elems(ms);
    }
  }

  /** The counts add up to the number of dated rows. */
  lemma ValidCitywideConserves(base: seq<BaseRow>)
    requires NonNegativeMonths(base)
    ensures CitywideTotal(ValidCitywide(base)) == WTotal(base, Dated)
  {
    var ms := MonthsOf(base, AnyRow);
    CitywideTotalKeys(base, ms);
    PartitionByKeys(base, MonthKey, ms, Dated);
    forall i | 0 <= i < |base| ensures MonthKey(base[i]) in Elems(ms) || Dated(base[i]) == 0 {
      if base[i].ds.Some? {
        assert DatedAnd(AnyRow)(base[i]);
      }
    }
    WSumInAll(base, MonthKey, Elems(ms), Dated);
  }

  // ------------------------------------------------------------ severity

  /** A bucketed case with its working RESOLUTION value. */
  datatype SevRow = SevRow(b: BaseRow, res: Option<real>)

  /** `clip(upper=cap)`: a missing value stays missing. */
  function Clip(v: Option<real>, cap: real): (r: Option<real>)
    ensures r.None? <==> v.None?
    ensures r.Some? ==> r.value <= cap
    ensures r.Some? ==> (v.value <= cap <==> r.value == v.value)
    ensures r.Some? && v.value > cap ==> r.value == cap
  {
    match v
    case None => None
    case Some(x) => if x > cap then Some(cap) else Some(x)
  }

  /** Every present RESOLUTION is at most `cap`. */
  predicate AtMost(rows: seq<SevRow>, cap: real)
  {
    forall i :: 0 <= i < |rows| && rows[i].res.Some? ==> rows[i].res.value <= cap
  }

  function Capped(base: seq<BaseRow>, cap: real): (rows: seq<SevRow>)
    ensures |rows| == |base|
    ensures forall i :: 0 <= i < |base| ==> rows[i] == SevRow(base[i], Clip(base[i].c.resolutionDays, cap))
  {
    seq(|base|, i requires 0 <= i < |base| => SevRow(base[i], Clip(base[i].c.resolutionDays, cap)))
  }

  /** Step 1 (precompute/forecast.py:64-65): RESOLUTION is assigned row by
      row as the capped RESOLUTION_TIME_DAYS; the quantile itself is `cap`. */
  method CapResolution(base: seq<BaseRow>, cap: real) returns (rows: seq<SevRow>)
    ensures rows == Capped(base, cap)
    ensures AtMost(rows, cap)
  {
    rows := [];
    for i := 0 to |base|
      invariant rows == Capped(base[..i], cap)
    {
      assert base[..i + 1][..i] == base[..i];
      rows := rows + [SevRow(base[i], Clip(base[i].c.resolutionDays, cap))];
    }
    assert base[..|base|] == base;
  }

  /** The latest month of any row; None when no row has a month. */
  function Latest(rows: seq<SevRow>): (l: Option<int>)
    ensures l.None? <==> forall i :: 0 <= i < |rows| ==> rows[i].b.ds.None?
    ensures l.Some? ==> forall i :: 0 <= i < |rows| && rows[i].b.ds.Some? ==> rows[i].b.ds.value <= l.value
    ensures l.Some? ==> exists i :: 0 <= i < |rows| && rows[i].b.ds == l
  {
    if rows == [] then None
    else
      var l, d := Latest(rows[..|rows| - 1]), rows[|rows| - 1].b.ds;
      assert forall i :: 0 <= i < |rows| - 1 ==> rows[..|rows| - 1][i] == rows[i];
      if d.None? then l
      else if l.None? || l.value < d.value then d
      else l
  }

  function Before(cutoff: int): SevRow -> bool
  {
    (r: SevRow) => r.b.ds.Some? && r.b.ds.value < cutoff
  }

  /** Step 2 (precompute/forecast.py:68-70): keep the rows strictly before the
      month preceding the latest; a null ds never compares below the cutoff. */
  function Trim(rows: seq<SevRow>): seq<SevRow>
  {
    match Latest(rows)
    case None => []
    case Some(l) => Where(rows, Before(l - 1))
  }

  /** The trim keeps exactly the rows of months before the two latest ones. */
  lemma TrimDropsLatestTwo(rows: seq<SevRow>)
    ensures forall i :: 0 <= i < |Trim(rows)| ==>
              Trim(rows)[i] in rows && Trim(rows)[i].b.ds.Some? && Trim(rows)[i].b.ds.value < Latest(rows).value - 1
    ensures forall i :: 0 <= i < |rows| && rows[i].b.ds.Some? && rows[i].b.ds.value < Latest(rows).value - 1 ==> rows[i] in Trim(rows)
    ensures forall i :: 0 <= i < |Trim(rows)| ==> Trim(rows)[i].b.ds != Latest(rows) && Trim(rows)[i].b.ds != Some(Latest(rows).value - 1)
  {
  }

  /** The RESOLUTION values present in `rows`, in row order. */
  function Values(rows: seq<SevRow>): (v: seq<real>)
    ensures |v| <= |rows|
  {
    if rows == [] then []
    else Values(rows[..|rows| - 1]) + (if rows[|rows| - 1].res.Some? then [rows[|rows| - 1].res.value] else [])
  }

  lemma {:induction false} ValuesAtMost(rows: seq<SevRow>, cap: real)
    requires AtMost(rows, cap)
    ensures forall k :: 0 <= k < |Values(rows)| ==> Values(rows)[k] <= cap
  {
    if rows != [] {
      var init := rows[..|rows| - 1];
      assert forall i :: 0 <= i < |init| ==> init[i] == rows[i];
      ValuesAtMost(init, cap);
    }
  }

  lemma {:induction false} ValuesNonEmpty(rows: seq<SevRow>, i: int)
    requires 0 <= i < |rows| && rows[i].res.Some?
    ensures |Values(rows)| > 0
  {
    if i < |rows| - 1 {
      ValuesNonEmpty(rows[..|rows| - 1], i);
    }
  }

  /** The medians are taken as given: a median lies between the least and
      the greatest of its values. */
  ghost predicate MedianWithin(median: seq<real> -> real)
  {
    forall xs: seq<real> :: |xs| > 0 ==>
      (exists i :: 0 <= i < |xs| && xs[i] <= median(xs)) && (exists j :: 0 <= j < |xs| && median(xs) <= xs[j])
  }

  function CaseType(r: SevRow): Option<string>
  {
    CaseAttr(r.b.c, "CASE TYPE")
  }

  function OfType(t: string): SevRow -> bool
  {
    (r: SevRow) => CaseType(r) == Some(t)
  }

  /** `groupby("CASE TYPE")["RESOLUTION"].median().get(type)`: None for a null
      type or a type with no values. */
  function MedianOf(rows: seq<SevRow>, t: Option<string>, median: seq<real> -> real): Option<real>
  {
    if t.None? then None
    else
      var v := Values(Where(rows, OfType(t.value)));
      if |v| == 0 then None else Some(median(v))
  }

  /** A median of values at most `cap` is at most `cap`. */
  lemma MedianAtMost(rows: seq<SevRow>, t: Option<string>, median: seq<real> -> real, cap: real)
    requires MedianWithin(median) && AtMost(rows, cap)
    ensures MedianOf(rows, t, median).Some? ==> MedianOf(rows, t, median).value <= cap
  {
    if t.Some? {
      var g := Where(rows, OfType(t.value));
      var v := Values(g);
      if |v| > 0 {
        assert AtMost(g, cap) by {
          forall i | 0 <= i < |g| && g[i].res.Some? ensures g[i].res.value <= cap {
            assert g[i] in rows;
          }
        }
        ValuesAtMost(g, cap);
        var j :| 0 <= j < |v| && median(v) <= v[j];
      }
    }
  }

  function FilledRow(rows: seq<SevRow>, i: int, median: seq<real> -> real): (r: SevRow)
    requires 0 <= i < |rows|
    ensures r.b == rows[i].b
    ensures rows[i].res.Some? ==> r == rows[i]
    ensures rows[i].res.None? ==> r.res == MedianOf(rows, CaseType(rows[i]), median)
  {
    if rows[i].res.Some? then rows[i] else SevRow(rows[i].b, MedianOf(rows, CaseType(rows[i]), median))
  }

  /** Step 3 (precompute/forecast.py:73-78): a missing RESOLUTION takes the
      median of its CASE TYPE, where the medians are those of `rows`. */
  function Impute(rows: seq<SevRow>, median: seq<real> -> real): (r: seq<SevRow>)
    ensures |r| == |rows|
    ensures forall i :: 0 <= i < |rows| ==> r[i] == FilledRow(rows, i, median)
  {
    seq(|rows|, i requires 0 <= i < |rows| => FilledRow(rows, i, median))
  }

  /** The medians of the trimmed frame are computed first, then RESOLUTION
      is overwritten row by row. */
  method ImputeResolution(rows: seq<SevRow>, median: seq<real> -> real) returns (filled: seq<SevRow>)
    ensures filled == Impute(rows, median)
  {
    filled := rows;
    for i := 0 to |rows|
      invariant |filled| == |rows|
      invariant forall k :: 0 <= k < i ==> filled[k] == FilledRow(rows, k, median)
      invariant forall k :: i <= k < |rows| ==> filled[k] == rows[k]
    {
      if rows[i].res.None? {
        filled := filled[i := SevRow(rows[i].b, MedianOf(rows, CaseType(rows[i]), median))];
      }
    }
  }

  /** Imputation keeps every value within the cap. */
  lemma ImputeAtMost(rows: seq<SevRow>, median: seq<real> -> real, cap: real)
    requires MedianWithin(median) && AtMost(rows, cap)
    ensures AtMost(Impute(rows, median), cap)
  {
    var r := Impute(rows, median);
    forall i | 0 <= i < |r| && r[i].res.Some? ensures r[i].res.value <= cap {
      MedianAtMost(rows, CaseType(rows[i]), median, cap);
    }
  }

  const HasRes: SevRow -> bool := (r: SevRow) => r.res.Some?

  /** Step 4 (precompute/forecast.py:81): drop the rows still missing. */
  function DropMissing(rows: seq<SevRow>): (r: seq<SevRow>)
    ensures forall i :: 0 <= i < |r| ==> r[i].res.Some? && r[i] in rows
    ensures forall i :: 0 <= i < |rows| && rows[i].res.Some? ==> rows[i] in r
  {
    Where(rows, HasRes)
  }

  /** The rows whose working RESOLUTION survives steps 1-4. */
  function Cleaned(base: seq<BaseRow>, cap: real, median: seq<real> -> real): seq<SevRow>
  {
    DropMissing(Impute(Trim(Capped(base, cap)), median))
  }

  /** After steps 1-4 every row has a month before the two latest ones and a
      RESOLUTION at most `cap`. */
  lemma CleanedRows(base: seq<BaseRow>, cap: real, median: seq<real> -> real)
    requires MedianWithin(median)
    ensures var rows := Cleaned(base, cap, median);
            AtMost(rows, cap)
            && forall i :: 0 <= i < |rows| ==>
                 rows[i].res.Some? && rows[i].b.ds.Some? && rows[i].b.ds.value < Latest(Capped(base, cap)).value - 1
  {
    var c := Capped(base, cap);
    var t := Trim(c);
    TrimDropsLatestTwo(c);
    assert AtMost(t, cap) by {
      forall i | 0 <= i < |t| && t[i].res.Some? ensures t[i].res.value <= cap {
        assert t[i] in c;
      }
    }
    ImputeAtMost(t, median, cap);
    var f := Impute(t, median);
    if Latest(c).None? {
      assert t == [] && f == [];
    } else {
      forall j | 0 <= j < |f| ensures f[j].b == t[j].b {
      }
      DropMissingKeeps(t, f, cap, Latest(c).value - 1);
    }
  }

  /** Dropping the rows without a value keeps the cap and the month bound of
      the rows the values were filled into. */
  lemma DropMissingKeeps(t: seq<SevRow>, f: seq<SevRow>, cap: real, bound: int)
    requires |f| == |t| && forall j :: 0 <= j < |f| ==> f[j].b == t[j].b
    requires AtMost(f, cap)
    requires forall j :: 0 <= j < |t| ==> t[j].b.ds.Some? && t[j].b.ds.value < bound
    ensures var rows := DropMissing(f);
            AtMost(rows, cap)
            && forall i :: 0 <= i < |rows| ==> rows[i].res.Some? && rows[i].b.ds.Some? && rows[i].b.ds.value < bound
  {
    var rows := DropMissing(f);
    forall i | 0 <= i < |rows|
      ensures rows[i].res.Some? && rows[i].res.value <= cap
      ensures rows[i].b.ds.Some? && rows[i].b.ds.value < bound
    {
      var j :| 0 <= j < |f| && f[j] == rows[i];
    }
  }

  // --------------------------------------------------------- aggregation

  function InMonth(m: int): SevRow -> bool
  {
    (r: SevRow) => r.b.ds == Some(m)
  }

  function InCell(m: int, col: string, v: string): SevRow -> bool
  {
    (r: SevRow) => r.b.ds == Some(m) && CaseAttr(r.b.c, col) == Some(v)
  }

  /** A group has a row with a value, so its mean is defined. */
  lemma {:induction false} GroupNonEmpty(rows: seq<SevRow>, p: SevRow -> bool)
    requires exists i :: 0 <= i < |rows| && p(rows[i]) && rows[i].res.Some?
    ensures |Values(Where(rows, p))| > 0
  {
    var i :| 0 <= i < |rows| && p(rows[i]) && rows[i].res.Some?;
    var g := Where(rows, p);
    var j :| 0 <= j < |g| && g[j] == rows[i];
    ValuesNonEmpty(g, j);
  }

  /** `groupby(...)["RESOLUTION"].mean()` of the group of rows `p` keeps. */
  function GroupMean(rows: seq<SevRow>, p: SevRow -> bool): real
    requires exists i :: 0 <= i < |rows| && p(rows[i]) && rows[i].res.Some?
  {
    GroupNonEmpty(rows, p);
    Mean(Values(Where(rows, p)))
  }

  /** The mean of values at most `cap` is at most `cap`. */
  lemma GroupMeanAtMost(rows: seq<SevRow>, p: SevRow -> bool, cap: real)
    requires exists i :: 0 <= i < |rows| && p(rows[i]) && rows[i].res.Some?
    requires AtMost(rows, cap)
    ensures GroupMean(rows, p) <= cap
  {
    var g := Where(rows, p);
    assert AtMost(g, cap) by {
      forall i | 0 <= i < |g| && g[i].res.Some? ensures g[i].res.value <= cap {
        assert g[i] in rows;
      }
    }
    ValuesAtMost(g, cap);
    GroupNonEmpty(rows, p);
    MeanAtMost(Values(g), cap);
  }

  /** Every value present in `rows` lies in [lo, hi]. */
  predicate Within(rows: seq<SevRow>, lo: real, hi: real)
  {
    forall i :: 0 <= i < |rows| && rows[i].res.Some? ==> lo <= rows[i].res.value <= hi
  }

  lemma {:induction false} ValuesWithin(rows: seq<SevRow>, lo: real, hi: real)
    requires Within(rows, lo, hi)
    ensures forall k :: 0 <= k < |Values(rows)| ==> lo <= Values(rows)[k] <= hi
  {
    if rows != [] {
      var init := rows[..|rows| - 1];
      assert forall i :: 0 <= i < |init| ==> init[i] == rows[i];
      ValuesWithin(init, lo, hi);
    }
  }

  /** A group's mean lies between any lower and any upper bound of the
      group's values, and so between its least and its greatest value; a
      group whose values are all `v` has mean `v`. */
  lemma GroupMeanWithin(rows: seq<SevRow>, p: SevRow -> bool, lo: real, hi: real)
    requires exists i :: 0 <= i < |rows| && p(rows[i]) && rows[i].res.Some?
    requires forall i :: 0 <= i < |rows| && p(rows[i]) && rows[i].res.Some? ==> lo <= rows[i].res.value <= hi
    ensures lo <= GroupMean(rows, p) <= hi
  {
    var g := Where(rows, p);
    assert Within(g, lo, hi) by {
      forall i | 0 <= i < |g| && g[i].res.Some? ensures lo <= g[i].res.value <= hi {
        assert g[i] in rows;
      }
    }
    ValuesWithin(g, lo, hi);
    GroupNonEmpty(rows, p);
    MeanAtMost(Values(g), hi);
    MeanAtLeast(Values(g), lo);
  }

  const Valued: SevRow -> bool := (r: SevRow) => r.b.ds.Some? && r.res.Some?

  /** The months that have a valued row, ascending. */
  function SevMonths(rows: seq<SevRow>): (ms: seq<int>)
    ensures Increasing(ms)
  {
    var g := Where(rows, Valued);
    SortedDistinct(seq(|g|, i requires 0 <= i < |g| => g[i].b.ds.value))
  }

  lemma SevMonthWitness(rows: seq<SevRow>, k: int) returns (i: int)
    requires 0 <= k < |SevMonths(rows)|
    ensures 0 <= i < |rows| && InMonth(SevMonths(rows)[k])(rows[i]) && rows[i].res.Some?
  {
    var g := Where(rows, Valued);
    var d := seq(|g|, i requires 0 <= i < |g| => g[i].b.ds.value);
    var ms := SevMonths(rows);
    assert ms[k] in Elems(ms);
    var j :| 0 <= j < |d| && d[j] == ms[k];
    i :| 0 <= i < |rows| && rows[i] == g[j];
  }

  lemma SevMonthHas(rows: seq<SevRow>, k: int)
    requires 0 <= k < |SevMonths(rows)|
    ensures exists i :: 0 <= i < |rows| && InMonth(SevMonths(rows)[k])(rows[i]) && rows[i].res.Some?
  {
    var i := SevMonthWitness(rows, k);
  }

  lemma SevMonthCover(rows: seq<SevRow>, i: int)
    requires 0 <= i < |rows| && Valued(rows[i])
    ensures rows[i].b.ds.value in Elems(SevMonths(rows))
  {
    var g := Where(rows, Valued);
    var d := seq(|g|, i requires 0 <= i < |g| => g[i].b.ds.value);
    var j :| 0 <= j < |g| && g[j] == rows[i];
    assert d[j] in Elems(d);
  }

  /** The citywide severity table: the mean RESOLUTION of every month. */
  function SeverityCity(rows: seq<SevRow>): (r: seq<Rec<real>>)
    ensures |r| == |SevMonths(rows)|
    ensures forall k :: 0 <= k < |r| ==> r[k].ds == SevMonths(rows)[k] && r[k].attrs == map[]
  {
    var ms := SevMonths(rows);
    seq(|ms|, k requires 0 <= k < |ms| =>
      SevMonthHas(rows, k);
      Rec(ms[k], GroupMean(rows, InMonth(ms[k])), map[]))
  }

  /** A month's citywide severity is the mean of that month's values: it
      lies between any bounds of them, so between its least and greatest. */
  lemma SeverityCityWithin(rows: seq<SevRow>, k: int, lo: real, hi: real)
    requires 0 <= k < |SevMonths(rows)|
    requires forall i :: 0 <= i < |rows| && rows[i].b.ds == Some(SevMonths(rows)[k]) && rows[i].res.Some? ==>
               lo <= rows[i].res.value <= hi
    ensures lo <= SeverityCity(rows)[k].value <= hi
  {
    SevMonthHas(rows, k);
    GroupMeanWithin(rows, InMonth(SevMonths(rows)[k]), lo, hi);
  }

  function LabelledIn(m: int, col: string): SevRow -> bool
  {
    (r: SevRow) => r.b.ds == Some(m) && r.res.Some? && CaseAttr(r.b.c, col).Some?
  }

  /** The non-null labels of column `col` among month `m`'s valued rows,
      sorted: the second key of `groupby(["ds", col])`. */
  function CellLabels(rows: seq<SevRow>, m: int, col: string): (ls: seq<string>)
    ensures SortedStrings(ls)
  {
    var g := Where(rows, LabelledIn(m, col));
    SortStrings(seq(|g|, i requires 0 <= i < |g| => CaseAttr(g[i].b.c, col).value))
  }

  lemma CellWitness(rows: seq<SevRow>, m: int, col: string, k: int) returns (i: int)
    requires 0 <= k < |CellLabels(rows, m, col)|
    ensures 0 <= i < |rows| && InCell(m, col, CellLabels(rows, m, col)[k])(rows[i]) && rows[i].res.Some?
  {
    var g := Where(rows, LabelledIn(m, col));
    var d := seq(|g|, i requires 0 <= i < |g| => CaseAttr(g[i].b.c, col).value);
    var ls := CellLabels(rows, m, col);
    assert ls[k] in Elems(ls);
    var j :| 0 <= j < |d| && d[j] == ls[k];
    i :| 0 <= i < |rows| && rows[i] == g[j];
  }

  lemma CellHas(rows: seq<SevRow>, m: int, col: string, k: int)
    requires 0 <= k < |CellLabels(rows, m, col)|
    ensures exists i :: 0 <= i < |rows| && InCell(m, col, CellLabels(rows, m, col)[k])(rows[i]) && rows[i].res.Some?
  {
    var i := CellWitness(rows, m, col, k);
  }

  /** One month's rows of a labelled severity table, in label order. */
  function MonthCells(rows: seq<SevRow>, m: int, col: string): (r: seq<Rec<real>>)
    ensures |r| == |CellLabels(rows, m, col)|
    ensures forall k :: 0 <= k < |r| ==> r[k].ds == m && r[k].attrs == map[col := CellLabels(rows, m, col)[k]]
    ensures forall k :: 0 <= k < |r| ==> Label(r[k], col) == CellLabels(rows, m, col)[k]
  {
    var ls := CellLabels(rows, m, col);
    seq(|ls|, k requires 0 <= k < |ls| =>
      CellHas(rows, m, col, k);
      Rec(m, GroupMean(rows, InCell(m, col, ls[k])), map[col := ls[k]]))
  }

  /** A cell's severity is the mean of the cell's values: it lies between
      any bounds of them, so between its least and greatest. */
  lemma MonthCellsWithin(rows: seq<SevRow>, m: int, col: string, k: int, lo: real, hi: real)
    requires 0 <= k < |CellLabels(rows, m, col)|
    requires forall i :: 0 <= i < |rows| && InCell(m, col, CellLabels(rows, m, col)[k])(rows[i]) && rows[i].res.Some? ==>
               lo <= rows[i].res.value <= hi
    ensures lo <= MonthCells(rows, m, col)[k].value <= hi
  {
    CellHas(rows, m, col, k);
    GroupMeanWithin(rows, InCell(m, col, CellLabels(rows, m, col)[k]), lo, hi);
  }

  /** The months `ms`, each with its cells, month after month. */
  function CellRows(rows: seq<SevRow>, col: string, ms: seq<int>): seq<Rec<real>>
  {
    if ms == [] then []
    else CellRows(rows, col, ms[..|ms| - 1]) + MonthCells(rows, ms[|ms| - 1], col)
  }

  /** The label a row of a labelled table carries. */
  function Label(r: Rec<real>, col: string): string
  {
    if col in r.attrs then r.attrs[col] else ""
  }

  /** Rows ascend by month and, within a month, strictly by label. */
  predicate CellsOrdered(r: seq<Rec<real>>, col: string)
  {
    forall p, q :: 0 <= p < q < |r| ==>
      r[p].ds < r[q].ds || (r[p].ds == r[q].ds && StrLess(Label(r[p], col), Label(r[q], col)))
  }

  lemma MonthCellsOrdered(rows: seq<SevRow>, m: int, col: string)
    ensures CellsOrdered(MonthCells(rows, m, col), col)
  {
  }

  lemma AppendCells(a: seq<Rec<real>>, b: seq<Rec<real>>, m: int, col: string)
    requires CellsOrdered(a, col) && CellsOrdered(b, col)
    requires forall k :: 0 <= k < |a| ==> a[k].ds < m
    requires forall k :: 0 <= k < |b| ==> b[k].ds == m
    ensures CellsOrdered(a + b, col)
    ensures forall k :: 0 <= k < |a + b| ==> (a + b)[k].ds <= m
  {
    assert forall k :: 0 <= k < |a| ==> (a + b)[k] == a[k];
    assert forall k :: |a| <= k < |a + b| ==> (a + b)[k] == b[k - |a|];
    forall p, q | 0 <= p < q < |a + b|
      ensures (a + b)[p].ds < (a + b)[q].ds
              || ((a + b)[p].ds == (a + b)[q].ds && StrLess(Label((a + b)[p], col), Label((a + b)[q], col)))
    {
      if q < |a| {
        assert (a + b)[p] == a[p] && (a + b)[q] == a[q];
      } else if p < |a| {
        assert (a + b)[p] == a[p] && (a + b)[q] == b[q - |a|];
      } else {
        assert (a + b)[p] == b[p - |a|] && (a + b)[q] == b[q - |a|];
      }
    }
  }

  /** No row's month is past the last of `ms`, and the rows are ordered by
      month and label. */
  lemma {:induction false} CellRowsOrdered(rows: seq<SevRow>, col: string, ms: seq<int>)
    requires Increasing(ms)
    ensures forall k :: 0 <= k < |CellRows(rows, col, ms)| ==> |ms| > 0 && CellRows(rows, col, ms)[k].ds <= ms[|ms| - 1]
    ensures CellsOrdered(CellRows(rows, col, ms), col)
  {
    if ms != [] {
      var init, m := ms[..|ms| - 1], ms[|ms| - 1];
      assert Increasing(init) by {
        forall i, j | 0 <= i < j < |init| ensures init[i] < init[j] {
          assert init[i] == ms[i] && init[j] == ms[j];
        }
      }
      CellRowsOrdered(rows, col, init);
      var a, b := CellRows(rows, col, init), MonthCells(rows, m, col);
      assert CellRows(rows, col, ms) == a + b;
      if |init| > 0 {
        assert init[|init| - 1] == ms[|ms| - 2] < m;
      }
      assert forall k :: 0 <= k < |a| ==> a[k].ds < m;
      assert forall k :: 0 <= k < |b| ==> b[k].ds == m;
      MonthCellsOrdered(rows, m, col);
      AppendCells(a, b, m, col);
      assert forall k :: 0 <= k < |a + b| ==> (a + b)[k].ds <= ms[|ms| - 1];
    } else {
      assert CellRows(rows, col, ms) == [];
    }
  }

  /** A labelled severity table: the mean RESOLUTION of every (month, label)
      pair, ordered by month and then by label. */
  function SeverityBy(rows: seq<SevRow>, col: string): seq<Rec<real>>
  {
    CellRows(rows, col, SevMonths(rows))
  }

  /** `groupby` sorts its keys: the citywide table ascends strictly by
      month, a labelled table by month and then strictly by label. */
  lemma SeverityOrdered(rows: seq<SevRow>, col: string)
    ensures forall p, q :: 0 <= p < q < |SeverityCity(rows)| ==> SeverityCity(rows)[p].ds < SeverityCity(rows)[q].ds
    ensures CellsOrdered(SeverityBy(rows, col), col)
  {
    CellRowsOrdered(rows, col, SevMonths(rows));
  }

  /** The five tables of `compute_severity`. */
  datatype SeverityTables = SeverityTables(
    citywide: seq<Rec<real>>,
    neighborhood: seq<Rec<real>>,
    department: seq<Rec<real>>,
    division: seq<Rec<real>>,
    category: seq<Rec<real>>)

  function SeverityOf(rows: seq<SevRow>): SeverityTables
  {
    SeverityTables(SeverityCity(rows), SeverityBy(rows, "NEIGHBORHOOD"), SeverityBy(rows, "DEPARTMENT"),
                   SeverityBy(rows, "DIVISION"), SeverityBy(rows, "CATEGORY"))
  }

  /** `compute_severity` (precompute/forecast.py:55-123): cap, trim, impute,
      drop, then aggregate. `cap` is the 95% quantile of RESOLUTION_TIME_DAYS
      and `median` the median, both taken as given. */
  method ComputeSeverity(base: seq<BaseRow>, cap: real, median: seq<real> -> real) returns (t: SeverityTables)
    ensures t == SeverityOf(Cleaned(base, cap, median))
  {
    var df2 := CapResolution(base, cap);
    df2 := Trim(df2);
    df2 := ImputeResolution(df2, median);
    df2 := DropMissing(df2);
    t := SeverityOf(df2);
  }

  /** Every mean of the citywide table is at most the cap. */
  lemma SeverityCityAtMost(rows: seq<SevRow>, cap: real)
    requires AtMost(rows, cap)
    ensures forall k :: 0 <= k < |SeverityCity(rows)| ==> SeverityCity(rows)[k].value <= cap
  {
    var r := SeverityCity(rows);
    forall k | 0 <= k < |r| ensures r[k].value <= cap {
      var i := SevMonthWitness(rows, k);
      GroupMeanAtMost(rows, InMonth(SevMonths(rows)[k]), cap);
    }
  }

  lemma MonthCellsAtMost(rows: seq<SevRow>, m: int, col: string, cap: real)
    requires AtMost(rows, cap)
    ensures forall k :: 0 <= k < |MonthCells(rows, m, col)| ==> MonthCells(rows, m, col)[k].value <= cap
  {
    var r := MonthCells(rows, m, col);
    forall k | 0 <= k < |r| ensures r[k].value <= cap {
      var i := CellWitness(rows, m, col, k);
      GroupMeanAtMost(rows, InCell(m, col, CellLabels(rows, m, col)[k]), cap);
    }
  }

  lemma {:induction false} CellRowsAtMost(rows: seq<SevRow>, col: string, ms: seq<int>, cap: real)
    requires AtMost(rows, cap)
    ensures forall k :: 0 <= k < |CellRows(rows, col, ms)| ==> CellRows(rows, col, ms)[k].value <= cap
  {
    if ms != [] {
      CellRowsAtMost(rows, col, ms[..|ms| - 1], cap);
      MonthCellsAtMost(rows, ms[|ms| - 1], col, cap);
    }
  }

  /** Every Severity of every table is a mean of capped values, so it is at
      most the cap. */
  lemma SeverityAtMostCap(base: seq<BaseRow>, cap: real, median: seq<real> -> real)
    requires MedianWithin(median)
    ensures var t := SeverityOf(Cleaned(base, cap, median));
            (forall k :: 0 <= k < |t.citywide| ==> t.citywide[k].value <= cap)
            && (forall k :: 0 <= k < |t.neighborhood| ==> t.neighborhood[k].value <= cap)
            && (forall k :: 0 <= k < |t.department| ==> t.department[k].value <= cap)
            && (forall k :: 0 <= k < |t.division| ==> t.division[k].value <= cap)
            && (forall k :: 0 <= k < |t.category| ==> t.category[k].value <= cap)
  {
    var rows := Cleaned(base, cap, median);
    CleanedRows(base, cap, median);
    SeverityCityAtMost(rows, cap);
    var ms := SevMonths(rows);
    CellRowsAtMost(rows, "NEIGHBORHOOD", ms, cap);
    CellRowsAtMost(rows, "DEPARTMENT", ms, cap);
    CellRowsAtMost(rows, "DIVISION", ms, cap);
    CellRowsAtMost(rows, "CATEGORY", ms, cap);
  }
}
