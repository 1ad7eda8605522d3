/** Tables of the core: the monthly tables the engine preloads (a month `ds`,
    one numeric value, string label columns) and the raw case table. A label
    column missing from a row's `attrs` is a null. */
module Tables {
  import opened Common
  import opened Text
  import opened Calendar

  /** One row of a monthly table: month, value (Count or Severity), labels. */
  datatype Rec<V> = Rec(ds: int, value: V, attrs: map<string, string>)

  datatype Table<V> = Table(columns: set<string>, rows: seq<Rec<V>>)

  /** One service request of the raw case table. */
  datatype Case = Case(
    created: Option<Timestamp>,
    closed: Option<Timestamp>,
    resolutionDays: Option<real>,
    attrs: map<string, string>)

  datatype CaseTable = CaseTable(columns: set<string>, rows: seq<Case>)

  function Attr<V>(r: Rec<V>, col: string): Option<string>
  {
    if col in r.attrs then Some(r.attrs[col]) else None
  }

  /** The month of each row, in row order. */
  function RecMonths<V>(rows: seq<Rec<V>>): (d: seq<int>)
    ensures |d| == |rows| && forall i :: 0 <= i < |rows| ==> d[i] == rows[i].ds
  {
    seq(|rows|, i requires 0 <= i < |rows| => rows[i].ds)
  }

  function CaseAttr(c: Case, col: string): Option<string>
  {
    if col in c.attrs then Some(c.attrs[col]) else None
  }

  /** `.astype(str)` of a label: a null prints as "None". */
  function AsText(o: Option<string>): string
  {
    if o.Some? then o.value else "None"
  }

  /** The label columns that get a cleaned companion column. */
  const LabelColumns: seq<string> := ["NEIGHBORHOOD", "DEPARTMENT", "DIVISION", "CATEGORY"]

  /** The cleaned companion of each label column, position by position. */
  const CleanColumns: seq<string> := ["NEIGHBORHOOD_CLEAN", "DEPARTMENT_CLEAN", "DIVISION_CLEAN", "CATEGORY_CLEAN"]

  /** Each companion is named after its column with `_CLEAN` appended. */
  lemma CleanColumnNames()
    ensures |CleanColumns| == |LabelColumns|
    ensures forall k :: 0 <= k < |LabelColumns| ==> CleanColumns[k] == LabelColumns[k] + "_CLEAN"
  {
  }

  /** Rows of `s` that satisfy `p`, in their original order. */
  function Where<T>(s: seq<T>, p: T -> bool): (r: seq<T>)
    ensures |r| <= |s|
    ensures forall i :: 0 <= i < |r| ==> p(r[i]) && r[i] in s
    ensures forall i :: 0 <= i < |s| && p(s[i]) ==> s[i] in r
  {
    if s == [] then []
    else
      var rest := Where(s[..|s| - 1], p);
      assert s == s[..|s| - 1] + [s[|s| - 1]];
      rest + (if p(s[|s| - 1]) then [s[|s| - 1]] else [])
  }

  /** A row of the filtered sequence is a row of the original that passes. */
  lemma WhereFrom<T>(s: seq<T>, p: T -> bool, x: T)
    requires x in Where(s, p)
    ensures x in s && p(x)
  {
    var r := Where(s, p);
    var i :| 0 <= i < |r| && r[i] == x;
  }

  /** A row of the original that passes is kept. */
  lemma WhereKeeps<T>(s: seq<T>, p: T -> bool, x: T)
    requires x in s && p(x)
    ensures x in Where(s, p)
  {
    var i :| 0 <= i < |s| && s[i] == x;
  }

  /** A filter every row passes changes nothing. */
  lemma {:induction false} WhereAll<T>(s: seq<T>, p: T -> bool)
    requires forall i :: 0 <= i < |s| ==> p(s[i])
    ensures Where(s, p) == s
  {
    if s != [] {
      var init := s[..|s| - 1];
      assert forall i :: 0 <= i < |init| ==> p(init[i]) by {
        forall i | 0 <= i < |init| ensures p(init[i]) { assert init[i] == s[i]; }
      }
      WhereAll(init, p);
      WhereLast(s, p);
      assert s == init + [s[|s| - 1]];
    }
  }

  /** Filtering a non-empty sequence filters all but its last row, then
      keeps the last one if it passes. */
  lemma WhereLast<T>(s: seq<T>, p: T -> bool)
    requires s != []
    ensures Where(s, p) == Where(s[..|s| - 1], p) + (if p(s[|s| - 1]) then [s[|s| - 1]] else [])
  {
  }

  /** A filter no row passes leaves nothing. */
  lemma {:induction false} WhereNone<T>(s: seq<T>, p: T -> bool)
    requires forall i :: 0 <= i < |s| ==> !p(s[i])
    ensures Where(s, p) == []
  {
    if s != [] {
      WhereNone(s[..|s| - 1], p);
    }
  }

  /** When exactly the rows from position `k` on pass, the filter keeps the suffix `s[k..]`. */
  lemma {:induction false} WhereSuffixAt<T>(s: seq<T>, p: T -> bool, k: int)
    requires 0 <= k <= |s|
    requires forall i :: 0 <= i < |s| ==> (p(s[i]) <==> i >= k)
    ensures Where(s, p) == s[k..]
  {
    if k == |s| {
      WhereNone(s, p);
    } else {
      var init := s[..|s| - 1];
      WhereSuffixAt(init, p, k);
      assert s[k..] == init[k..] + [s[|s| - 1]];
    }
  }

  /** When exactly the rows before position `k` pass, the filter keeps the prefix `s[..k]`. */
  lemma {:induction false} WherePrefixAt<T>(s: seq<T>, p: T -> bool, k: int)
    requires 0 <= k <= |s|
    requires forall i :: 0 <= i < |s| ==> (p(s[i]) <==> i < k)
    ensures Where(s, p) == s[..k]
  {
    if k == |s| {
      WhereAll(s, p);
    } else {
      var init := s[..|s| - 1];
      WherePrefixAt(init, p, k);
    }
  }

  /** The table with label column `k` cleaned into its companion
      (`df[col + "_CLEAN"] = _norm_str(df[col]).str.title()`). */
  function WithClean<V(==)>(t: Table<V>, k: nat): (r: Table<V>)
    requires k < |LabelColumns|
    ensures r.columns == t.columns + {CleanColumns[k]} && |r.rows| == |t.rows|
    ensures forall i :: 0 <= i < |t.rows| ==> RowCleaned(r.rows[i], t.rows[i], k)
  {
    Table(t.columns + {CleanColumns[k]},
          seq(|t.rows|, i requires 0 <= i < |t.rows| =>
            var r := t.rows[i];
            Rec(r.ds, r.value, r.attrs[CleanColumns[k] := Clean(AsText(Attr(r, LabelColumns[k])))])))
  }

  /** `a` is `b` with the companion of label column `k` set. */
  predicate RowCleaned<V(==)>(a: Rec<V>, b: Rec<V>, k: nat)
    requires k < |LabelColumns|
  {
    a.ds == b.ds && a.value == b.value
    && a.attrs == b.attrs[CleanColumns[k] := Clean(AsText(Attr(b, LabelColumns[k])))]
  }

  /** The companions of the first `k` label columns present in `cols`. */
  function AddedColumns(cols: set<string>, k: nat): set<string>
    requires k <= |LabelColumns|
  {
    if k == 0 then {}
    else AddedColumns(cols, k - 1) + (if LabelColumns[k - 1] in cols then {CleanColumns[k - 1]} else {})
  }

  /** Row `a` carries, for each of the first `k` label columns present, the
      cleaned text of row `b`'s label, and agrees with `b` everywhere else,
      companions not yet written or of absent label columns included. */
  ghost predicate CleanedUpTo<V>(a: Rec<V>, b: Rec<V>, cols: set<string>, k: nat)
    requires k <= |LabelColumns|
  {
    a.ds == b.ds && a.value == b.value
    && (forall j :: 0 <= j < k && LabelColumns[j] in cols ==>
          Attr(a, CleanColumns[j]) == Some(Clean(AsText(Attr(b, LabelColumns[j])))))
    && (forall j :: 0 <= j < |CleanColumns| && (k <= j || LabelColumns[j] !in cols) ==>
          Attr(a, CleanColumns[j]) == Attr(b, CleanColumns[j]))
    && (forall c :: c !in CleanColumns ==> Attr(a, c) == Attr(b, c))
  }

  /** Label columns and companions are all different names. */
  lemma ColumnNamesDiffer()
    ensures forall j :: 0 <= j < |LabelColumns| ==> LabelColumns[j] !in CleanColumns
    ensures forall j, k :: 0 <= j < |CleanColumns| && 0 <= k < |CleanColumns| && j != k ==> CleanColumns[j] != CleanColumns[k]
  {
    forall j | 0 <= j < |LabelColumns| ensures LabelColumns[j] !in CleanColumns {
      assert |LabelColumns[j]| <= 12;
      forall k | 0 <= k < |CleanColumns| ensures CleanColumns[k] != LabelColumns[j] {
        assert |CleanColumns[k]| >= 14;
      }
    }
    forall j, k | 0 <= j < |CleanColumns| && 0 <= k < |CleanColumns| && j != k ensures CleanColumns[j] != CleanColumns[k] {
      if |CleanColumns[j]| == |CleanColumns[k]| {
        assert {j, k} == {2, 3};
        assert CleanColumns[j][0] != CleanColumns[k][0];
      }
    }
  }

  lemma CleanStep<V>(a: Rec<V>, a2: Rec<V>, b: Rec<V>, cols: set<string>, k: nat)
    requires k < |LabelColumns| && LabelColumns[k] in cols
    requires CleanedUpTo(a, b, cols, k) && RowCleaned(a2, a, k)
    ensures CleanedUpTo(a2, b, cols, k + 1)
  {
    ColumnNamesDiffer();
    assert Attr(a, LabelColumns[k]) == Attr(b, LabelColumns[k]);
    forall c | c !in CleanColumns ensures Attr(a2, c) == Attr(b, c) {
      assert c != CleanColumns[k];
    }
    forall j | 0 <= j < |CleanColumns| && j != k
      ensures Attr(a2, CleanColumns[j]) == Attr(a, CleanColumns[j])
    {
      assert CleanColumns[j] != CleanColumns[k];
    }
  }

  /** `_add_clean_cols` and the loop that adds the `_CLEAN` columns to the
      volume table (app/utils/forecast_engine.py:43-45, 78-83): every label
      column present gets its cleaned companion; rows, months, values and all
      other columns stay as they were. */
  method AddCleanColumns<V(==)>(t: Table<V>) returns (r: Table<V>)
    ensures r.columns == t.columns + AddedColumns(t.columns, |LabelColumns|)
    ensures |r.rows| == |t.rows|
    ensures forall i :: 0 <= i < |t.rows| ==> CleanedUpTo(r.rows[i], t.rows[i], t.columns, |LabelColumns|)
  {
    r := t;
    for k := 0 to |LabelColumns|
      invariant r.columns == t.columns + AddedColumns(t.columns, k)
      invariant |r.rows| == |t.rows|
      invariant forall i :: 0 <= i < |t.rows| ==> CleanedUpTo(r.rows[i], t.rows[i], t.columns, k)
    {
      CleanColumnStep(r, t, k);
      if LabelColumns[k] in r.columns {
        r := WithClean(r, k);
      }
    }
  }

  /** One pass of the loop keeps its invariant: the companion of column `k`
      is added exactly when the column is present. */
  lemma CleanColumnStep<V>(r: Table<V>, t: Table<V>, k: nat)
    requires k < |LabelColumns|
    requires r.columns == t.columns + AddedColumns(t.columns, k) && |r.rows| == |t.rows|
    requires forall i :: 0 <= i < |t.rows| ==> CleanedUpTo(r.rows[i], t.rows[i], t.columns, k)
    ensures var r2 := if LabelColumns[k] in r.columns then WithClean(r, k) else r;
            r2.columns == t.columns + AddedColumns(t.columns, k + 1) && |r2.rows| == |t.rows|
            && forall i :: 0 <= i < |t.rows| ==> CleanedUpTo(r2.rows[i], t.rows[i], t.columns, k + 1)
  {
    var col := LabelColumns[k];
    assert col !in AddedColumns(t.columns, k) by {
      AddedColumnsAreClean(t.columns, k);
      ColumnNamesDiffer();
    }
    if col in r.columns {
      var r2 := WithClean(r, k);
      forall i | 0 <= i < |t.rows|
        ensures CleanedUpTo(r2.rows[i], t.rows[i], t.columns, k + 1)
      {
        CleanStep(r.rows[i], r2.rows[i], t.rows[i], t.columns, k);
      }
    } else {
      forall i | 0 <= i < |t.rows|
        ensures CleanedUpTo(r.rows[i], t.rows[i], t.columns, k + 1)
      {
        CleanSkip(r.rows[i], t.rows[i], t.columns, k);
      }
    }
  }

  lemma CleanSkip<V>(a: Rec<V>, b: Rec<V>, cols: set<string>, k: nat)
    requires k < |LabelColumns| && LabelColumns[k] !in cols
    requires CleanedUpTo(a, b, cols, k)
    ensures CleanedUpTo(a, b, cols, k + 1)
  {
  }

  lemma {:induction false} AddedColumnsAreClean(cols: set<string>, k: nat)
    requires k <= |LabelColumns|
    ensures forall c :: c in AddedColumns(cols, k) ==> c in CleanColumns
  {
    if k > 0 {
      AddedColumnsAreClean(cols, k - 1);
    }
  }
}
