/** Shared vocabulary of the forecasting model: optional values, the
    exceptions the modelled code can raise, sums and means over reals,
    keyed totals (the arithmetic behind every pandas groupby in the core),
    and sorted sets of month indices. */
module Common {

  datatype Option<+T> = None | Some(value: T)

  /** Exceptions that propagate out of the modelled functions. */
  datatype Error =
    | MissingColumn(name: string)   // KeyError raised by a column lookup
    | FitFailed                     // the statistical model raised while fitting
    | DuplicateMonths               // reindex over a month axis with repeated labels
    | NotDatetime                   // AttributeError of `.dt` on a column that holds no datetimes
    | NothingToConcat               // ValueError of `pd.concat` on an empty list of frames

  datatype Result<+T> = Ok(value: T) | Err(error: Error)

  // ---------------------------------------------------------------- sums

  function Sum(s: seq<real>): real
  {
    if s == [] then 0.0 else Sum(s[..|s| - 1]) + s[|s| - 1]
  }

  function Mean(s: seq<real>): real
    requires |s| > 0
  {
    Sum(s) / (|s| as real)
  }

  lemma {:induction false} SumAppend(a: seq<real>, b: seq<real>)
    ensures Sum(a + b) == Sum(a) + Sum(b)
  {
    if b == [] {
      assert a + b == a;
    } else {
      assert (a + b)[..|a + b| - 1] == a + b[..|b| - 1];
      SumAppend(a, b[..|b| - 1]);
    }
  }

  lemma {:induction false} SumAtMost(s: seq<real>, c: real)
    requires forall i :: 0 <= i < |s| ==> s[i] <= c
    ensures Sum(s) <= (|s| as real) * c
  {
    if s != [] {
      SumAtMost(s[..|s| - 1], c);
    }
  }

  lemma {:induction false} SumAtLeast(s: seq<real>, c: real)
    requires forall i :: 0 <= i < |s| ==> c <= s[i]
    ensures (|s| as real) * c <= Sum(s)
  {
    if s != [] {
      SumAtLeast(s[..|s| - 1], c);
    }
  }

  /** A mean lies below every upper bound of its elements. */
  lemma MeanAtMost(s: seq<real>, c: real)
    requires |s| > 0
    requires forall i :: 0 <= i < |s| ==> s[i] <= c
    ensures Mean(s) <= c
  {
    SumAtMost(s, c);
    var n := |s| as real;
    assert Mean(s) * n == Sum(s);
  }

  /** A mean lies above every lower bound of its elements. */
  lemma MeanAtLeast(s: seq<real>, c: real)
    requires |s| > 0
    requires forall i :: 0 <= i < |s| ==> c <= s[i]
    ensures c <= Mean(s)
  {
    SumAtLeast(s, c);
    var n := |s| as real;
    assert Mean(s) * n == Sum(s);
  }

  // ------------------------------------------------------- keyed totals

  /** Total weight of the elements of `xs` whose key is `k`. */
  function WSum<T, K(==)>(xs: seq<T>, key: T -> K, k: K, w: T -> int): int
  {
    if xs == [] then 0
    else WSum(xs[..|xs| - 1], key, k, w) + (if key(xs[|xs| - 1]) == k then w(xs[|xs| - 1]) else 0)
  }

  /** Total weight of the elements of `xs` whose key lies in `ks`. */
  function WSumIn<T, K(==)>(xs: seq<T>, key: T -> K, ks: set<K>, w: T -> int): int
  {
    if xs == [] then 0
    else WSumIn(xs[..|xs| - 1], key, ks, w) + (if key(xs[|xs| - 1]) in ks then w(xs[|xs| - 1]) else 0)
  }

  /** Total weight of all elements of `xs`. */
  function WTotal<T>(xs: seq<T>, w: T -> int): int
  {
    if xs == [] then 0 else WTotal(xs[..|xs| - 1], w) + w(xs[|xs| - 1])
  }

  /** The sum, over a list of keys, of each key's total weight. */
  function WSumKeys<T, K(==)>(xs: seq<T>, key: T -> K, keys: seq<K>, w: T -> int): int
  {
    if keys == [] then 0
    else WSumKeys(xs, key, keys[..|keys| - 1], w) + WSum(xs, key, keys[|keys| - 1], w)
  }

  /** The elements of a sequence, as a set. */
  function Elems<K>(s: seq<K>): set<K>
  {
    set x | x in s
  }

  predicate Distinct<K(==)>(s: seq<K>)
  {
    forall i, j :: 0 <= i < j < |s| ==> s[i] != s[j]
  }

  lemma {:induction false} WSumInEmpty<T, K>(xs: seq<T>, key: T -> K, w: T -> int)
    ensures WSumIn(xs, key, {}, w) == 0
  {
    if xs != [] {
      WSumInEmpty(xs[..|xs| - 1], key, w);
    }
  }

  lemma {:induction false} WSumInAdd<T, K>(xs: seq<T>, key: T -> K, ks: set<K>, k: K, w: T -> int)
    requires k !in ks
    ensures WSumIn(xs, key, ks + {k}, w) == WSumIn(xs, key, ks, w) + WSum(xs, key, k, w)
  {
    if xs != [] {
      WSumInAdd(xs[..|xs| - 1], key, ks, k, w);
    }
  }

  /** Summing per key over distinct keys counts every element whose key is
      listed exactly once. */
  lemma {:induction false} PartitionByKeys<T, K>(xs: seq<T>, key: T -> K, keys: seq<K>, w: T -> int)
    requires Distinct(keys)
    ensures WSumKeys(xs, key, keys, w) == WSumIn(xs, key, Elems(keys), w)
  {
    if keys == [] {
      assert Elems(keys) == {};
      WSumInEmpty(xs, key, w);
    } else {
      var ks := keys[..|keys| - 1];
      var last := keys[|keys| - 1];
      PartitionByKeys(xs, key, ks, w);
      assert Elems(keys) == Elems(ks) + {last};
      assert last !in Elems(ks) by {
        forall i | 0 <= i < |ks| ensures ks[i] != last {
          assert keys[i] == ks[i] && keys[|keys| - 1] == last;
        }
      }
      WSumInAdd(xs, key, Elems(ks), last, w);
    }
  }

  /** When every weighted element has its key in `ks`, the keyed total is the whole total. */
  lemma {:induction false} WSumInAll<T, K>(xs: seq<T>, key: T -> K, ks: set<K>, w: T -> int)
    requires forall i :: 0 <= i < |xs| ==> key(xs[i]) in ks || w(xs[i]) == 0
    ensures WSumIn(xs, key, ks, w) == WTotal(xs, w)
  {
    if xs != [] {
      WSumInAll(xs[..|xs| - 1], key, ks, w);
    }
  }

  /** Some element with key `k` and positive weight, all weights non-negative:
      the key's total is positive. */
  lemma {:induction false} WSumPositive<T, K>(xs: seq<T>, key: T -> K, k: K, w: T -> int, j: int)
    requires 0 <= j < |xs| && key(xs[j]) == k && w(xs[j]) >= 1
    requires forall i :: 0 <= i < |xs| ==> w(xs[i]) >= 0
    ensures WSum(xs, key, k, w) >= 1
  {
    WSumNonNegative(xs[..|xs| - 1], key, k, w);
    if j < |xs| - 1 {
      WSumPositive(xs[..|xs| - 1], key, k, w, j);
    }
  }

  lemma {:induction false} WSumNonNegative<T, K>(xs: seq<T>, key: T -> K, k: K, w: T -> int)
    requires forall i :: 0 <= i < |xs| ==> w(xs[i]) >= 0
    ensures WSum(xs, key, k, w) >= 0
  {
    if xs != [] {
      WSumNonNegative(xs[..|xs| - 1], key, k, w);
    }
  }

  /** No element carries key `k`: its total is zero. */
  lemma {:induction false} WSumAbsent<T, K>(xs: seq<T>, key: T -> K, k: K, w: T -> int)
    requires forall i :: 0 <= i < |xs| ==> key(xs[i]) != k
    ensures WSum(xs, key, k, w) == 0
  {
    if xs != [] {
      WSumAbsent(xs[..|xs| - 1], key, k, w);
    }
  }

  function Max(xs: seq<int>): (m: int)
    requires |xs| > 0
    ensures forall i :: 0 <= i < |xs| ==> xs[i] <= m
    ensures exists i :: 0 <= i < |xs| && xs[i] == m
  {
    if |xs| == 1 then xs[0]
    else
      var m := Max(xs[..|xs| - 1]);
      assert forall i :: 0 <= i < |xs| - 1 ==> xs[..|xs| - 1][i] == xs[i];
      if xs[|xs| - 1] > m then xs[|xs| - 1] else m
  }

  function Min(xs: seq<int>): (m: int)
    requires |xs| > 0
    ensures forall i :: 0 <= i < |xs| ==> m <= xs[i]
    ensures exists i :: 0 <= i < |xs| && xs[i] == m
  {
    if |xs| == 1 then xs[0]
    else
      var m := Min(xs[..|xs| - 1]);
      assert forall i :: 0 <= i < |xs| - 1 ==> xs[..|xs| - 1][i] == xs[i];
      if xs[|xs| - 1] < m then xs[|xs| - 1] else m
  }

  // ------------------------------------------- sorted sets of integers

  predicate Increasing(s: seq<int>)
  {
    forall i, j :: 0 <= i < j < |s| ==> s[i] < s[j]
  }

  function InsertSorted(x: int, s: seq<int>): (r: seq<int>)
    requires Increasing(s)
    ensures Increasing(r) && Elems(r) == Elems(s) + {x}
  {
    if s == [] then [x]
    else if x < s[0] then [x] + s
    else if x == s[0] then s
    else
      var t := InsertSorted(x, s[1..]);
      InsertSortedStep(x, s, t);
      [s[0]] + t
  }

  /** Putting the head of `s` back in front of the insertion into its tail. */
  lemma InsertSortedStep(x: int, s: seq<int>, t: seq<int>)
    requires Increasing(s) && |s| > 0 && s[0] < x
    requires Increasing(t) && Elems(t) == Elems(s[1..]) + {x}
    ensures Increasing([s[0]] + t) && Elems([s[0]] + t) == Elems(s) + {x}
  {
    assert s == [s[0]] + s[1..];
    forall j | 0 <= j < |t| ensures s[0] < t[j] {
      assert t[j] in Elems(t);
      if t[j] != x {
        var k :| 0 <= k < |s[1..]| && s[1..][k] == t[j];
        assert s[k + 1] == t[j];
      }
    }
    ConsIncreasing(s[0], t);
    ElemsCons(s[0], s[1..]);
    ElemsCons(s[0], t);
  }

  lemma ElemsCons<K>(h: K, t: seq<K>)
    ensures Elems([h] + t) == {h} + Elems(t)
  {
    assert forall y :: y in [h] + t <==> y == h || y in t;
  }

  lemma ConsIncreasing(h: int, t: seq<int>)
    requires Increasing(t) && forall j :: 0 <= j < |t| ==> h < t[j]
    ensures Increasing([h] + t)
  {
    var r := [h] + t;
    forall i, j | 0 <= i < j < |r| ensures r[i] < r[j] {
      assert r[j] == t[j - 1];
      if i > 0 { assert r[i] == t[i - 1]; }
    }
  }

  /** The distinct values of `xs`, ascending (what a groupby yields as its keys). */
  function SortedDistinct(xs: seq<int>): (r: seq<int>)
    ensures Increasing(r) && Elems(r) == Elems(xs)
  {
    if xs == [] then []
    else
      assert Elems(xs) == Elems(xs[..|xs| - 1]) + {xs[|xs| - 1]};
      InsertSorted(xs[|xs| - 1], SortedDistinct(xs[..|xs| - 1]))
  }

  /** Cutting a sequence in two and joining the halves gives it back. */
  lemma SplitJoin<T>(s: seq<T>, k: nat)
    requires k <= |s|
    ensures s[..k] + s[k..] == s
  {
  }

  /** A fraction of a positive whole lies in [0, 1]. */
  lemma RatioInUnit(a: int, b: int)
    requires 0 <= a <= b && b > 0
    ensures 0.0 <= a as real / b as real <= 1.0
  {
  }

  /** The contiguous run of `n` integers starting at `lo`. */
  function Range(lo: int, n: nat): (r: seq<int>)
    ensures |r| == n && forall i :: 0 <= i < n ==> r[i] == lo + i
  {
    seq(n, i requires 0 <= i < n => lo + i)
  }
}
