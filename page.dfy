/** The selection logic of the forecast page (app/pages/forecast.py): how a
    neighbourhood selection is normalised, which items the item dropdown
    offers, which forecast rows are drawn and in which line style, and which
    colour the reliability alert takes. Figures, tables and layout are left
    out; a panel records what one selection's traces would show. */
module ForecastPage {
  import opened Common
  import opened Text
  import opened Tables
  import opened Scoring
  import opened Forecasting
  import VolumeForecast
  import SeverityForecast

  const Citywide: string := "CITYWIDE"
  const AllItems: string := "ALL"

  // ------------------------------------------------------------ selection

  /** The value of the neighbourhood dropdown: nothing, a single string, or a
      list of strings. */
  datatype Selection = NoValue | Single(s: string) | Multi(xs: seq<string>)

  /** Falsy in Python: None, "" or []. */
  predicate Falsy(sel: Selection)
  {
    sel.NoValue? || sel == Single("") || sel == Multi([])
  }

  /** app/pages/forecast.py:141-144 and 168-171: an empty selection means
      citywide, a single string becomes a one-element list. */
  function Normalise(sel: Selection): (r: seq<string>)
    ensures |r| > 0
    ensures Falsy(sel) ==> r == [Citywide]
    ensures !Falsy(sel) && sel.Single? ==> r == [sel.s]
    ensures !Falsy(sel) && sel.Multi? ==> r == sel.xs
  {
    match sel
    case NoValue => [Citywide]
    case Single(s) => if s == "" then [Citywide] else [s]
    case Multi(xs) => if xs == [] then [Citywide] else xs
  }

  /** Normalising a normalised selection changes nothing. */
  lemma NormaliseIdempotent(sel: Selection)
    ensures Normalise(Multi(Normalise(sel))) == Normalise(sel)
  {
  }

  // -------------------------------------------------------- item dropdown

  /** `{"category": "CATEGORY", ...}.get(level.lower(), "CATEGORY")`. */
  function LevelColumn(level: string): (col: string)
    ensures col in {"CATEGORY", "DEPARTMENT", "DIVISION"}
    ensures col == "DEPARTMENT" <==> Lower(level) == "department"
    ensures col == "DIVISION" <==> Lower(level) == "division"
  {
    var l := Lower(level);
    if l == "department" then "DEPARTMENT"
    else if l == "division" then "DIVISION"
    else "CATEGORY"
  }

  /** The cases a neighbourhood of the selection covers: all of them for
      CITYWIDE, else those of that neighbourhood. */
  predicate InScope(c: Case, neigh: string)
  {
    neigh == Citywide || CaseAttr(c, "NEIGHBORHOOD") == Some(neigh)
  }

  function LabelledIn(neigh: string, col: string): Case -> bool
  {
    (c: Case) => InScope(c, neigh) && CaseAttr(c, col).Some?
  }

  /** Some case in the scope of `neigh` carries `x` in column `col`. */
  predicate Carries(cases: seq<Case>, neigh: string, col: string, x: string)
  {
    exists c :: c in cases && InScope(c, neigh) && CaseAttr(c, col) == Some(x)
  }

  /** `df_sub[level_col].dropna().unique()` for one neighbourhood. */
  function ItemsOf(cases: seq<Case>, neigh: string, col: string): (items: seq<string>)
    ensures forall x :: x in Elems(items) <==> Carries(cases, neigh, col, x)
  {
    var g := Where(cases, LabelledIn(neigh, col));
    var items := seq(|g|, i requires 0 <= i < |g| => CaseAttr(g[i], col).value);
    forall x ensures x in Elems(items) <==> Carries(cases, neigh, col, x) {
      if x in Elems(items) {
        var i :| 0 <= i < |items| && items[i] == x;
        assert g[i] in cases && LabelledIn(neigh, col)(g[i]);
      }
      if c :| c in cases && InScope(c, neigh) && CaseAttr(c, col) == Some(x) {
        var j :| 0 <= j < |cases| && cases[j] == c;
        assert LabelledIn(neigh, col)(cases[j]);
        var i :| 0 <= i < |g| && g[i] == c;
        assert items[i] == x;
      }
    }
    items
  }

  /** The items of the neighbourhoods `neighs`, neighbourhood after
      neighbourhood. */
  function ItemSeq(cases: seq<Case>, neighs: seq<string>, col: string): seq<string>
  {
    if neighs == [] then [] else ItemSeq(cases, neighs[..|neighs| - 1], col) + ItemsOf(cases, neighs[|neighs| - 1], col)
  }

  /** An item is offered exactly when some case of one of the selected
      neighbourhoods carries it. */
  lemma {:induction false} ItemSeqMembers(cases: seq<Case>, neighs: seq<string>, col: string, x: string)
    ensures x in Elems(ItemSeq(cases, neighs, col)) <==> exists n :: n in neighs && Carries(cases, n, col, x)
  {
    if neighs != [] {
      var init, n := neighs[..|neighs| - 1], neighs[|neighs| - 1];
      assert neighs == init + [n];
      ItemSeqMembers(cases, init, col, x);
      ItemSeqLast(cases, init, n, col, x);
      CarriedSplit(cases, init, n, col, x);
    }
  }

  lemma ItemSeqLast(cases: seq<Case>, init: seq<string>, n: string, col: string, x: string)
    ensures x in Elems(ItemSeq(cases, init + [n], col))
            <==> x in Elems(ItemSeq(cases, init, col)) || Carries(cases, n, col, x)
  {
    var neighs := init + [n];
    assert neighs[..|neighs| - 1] == init;
    var a, b := ItemSeq(cases, init, col), ItemsOf(cases, n, col);
    assert ItemSeq(cases, neighs, col) == a + b;
    assert x in a + b <==> x in a || x in b;
  }

  lemma CarriedSplit(cases: seq<Case>, init: seq<string>, n: string, col: string, x: string)
    ensures (exists m :: m in init + [n] && Carries(cases, m, col, x))
            <==> (exists m :: m in init && Carries(cases, m, col, x)) || Carries(cases, n, col, x)
  {
    if m :| m in init + [n] && Carries(cases, m, col, x) {
      if m != n {
        assert m in init;
      }
    }
    if m :| m in init && Carries(cases, m, col, x) {
      assert m in init + [n];
    }
    if Carries(cases, n, col, x) {
      assert n in init + [n];
    }
  }

  /** One entry of a dropdown. */
  datatype Choice = Choice(caption: string, value: string)

  const AllChoice: Choice := Choice("All Items", AllItems)

  function Choices(items: seq<string>): (r: seq<Choice>)
    ensures |r| == |items| && forall i :: 0 <= i < |items| ==> r[i] == Choice(items[i], items[i])
  {
    seq(|items|, i requires 0 <= i < |items| => Choice(items[i], items[i]))
  }

  /** `sorted(items)` of the accumulated set. */
  method SortedItems(items: set<string>) returns (r: seq<string>)
    ensures SortedStrings(r) && Elems(r) == items
  {
    r := [];
    var rest := items;
    while rest != {}
      invariant rest <= items
      invariant SortedStrings(r) && Elems(r) == items - rest
      decreases rest
    {
      var x :| x in rest;
      r := InsertString(x, r);
      rest := rest - {x};
    }
  }

  /** `update_items_dropdown` (app/pages/forecast.py:138-153): the set of
      items is grown neighbourhood by neighbourhood; the options are "All
      Items" and then each item once, in sorted order; the value is reset to
      "ALL". */
  method UpdateItemsDropdown(cases: seq<Case>, sel: Selection, level: string) returns (options: seq<Choice>, value: string)
    ensures |options| >= 1 && options[0] == AllChoice
    ensures SortedStrings(ValuesOf(options[1..]))
    ensures options[1..] == Choices(ValuesOf(options[1..]))
    ensures Elems(ValuesOf(options[1..])) == Elems(ItemSeq(cases, Normalise(sel), LevelColumn(level)))
    ensures value == AllItems
  {
    var col := LevelColumn(level);
    var neighs := Normalise(sel);
    var items: set<string> := {};
    for k := 0 to |neighs|
      invariant items == Elems(ItemSeq(cases, neighs[..k], col))
    {
      assert neighs[..k + 1][..k] == neighs[..k];
      items := items + Elems(ItemsOf(cases, neighs[k], col));
    }
    assert neighs[..|neighs|] == neighs;
    var sorted := SortedItems(items);
    options := [AllChoice] + Choices(sorted);
    assert options[1..] == Choices(sorted);
    assert ValuesOf(options[1..]) == sorted;
    value := AllItems;
  }

  function ValuesOf(cs: seq<Choice>): (r: seq<string>)
    ensures |r| == |cs| && forall i :: 0 <= i < |cs| ==> r[i] == cs[i].value
  {
    seq(|cs|, i requires 0 <= i < |cs| => cs[i].value)
  }

  // ------------------------------------------------------- drawn window

  const FallbackRows: nat := 12

  /** The last `n` rows, all of them when there are fewer (`tail(n)`). */
  function Tail(rows: seq<Row>, n: nat): (r: seq<Row>)
    ensures |r| == if |rows| < n then |rows| else n
    ensures r == rows[|rows| - |r|..]
  {
    if |rows| < n then rows else rows[|rows| - n..]
  }

  /** The latest month of the history; None for an empty history, whose
      `max()` is NaT and compares false with everything. */
  function LastActual(hist: seq<Row>): (m: Option<int>)
    ensures m.None? <==> hist == []
    ensures m.Some? ==> (forall i :: 0 <= i < |hist| ==> hist[i].ds <= m.value) && exists i :: 0 <= i < |hist| && hist[i].ds == m.value
  {
    if hist == [] then None
    else
      var d := seq(|hist|, i requires 0 <= i < |hist| => hist[i].ds);
      assert forall i :: 0 <= i < |hist| ==> d[i] == hist[i].ds;
      Some(Max(d))
  }

  /** The forecast rows past the last actual month. */
  function PastHistory(hist: seq<Row>, fc: seq<Row>): (r: seq<Row>)
    ensures LastActual(hist).None? ==> r == []
    ensures forall i :: 0 <= i < |r| ==> r[i] in fc && r[i].ds > LastActual(hist).value
    ensures LastActual(hist).Some? ==> forall i :: 0 <= i < |fc| && fc[i].ds > LastActual(hist).value ==> fc[i] in r
  {
    match LastActual(hist)
    case None => []
    case Some(m) => Where(fc, After(m))
  }

  /** app/pages/forecast.py:198-201: the rows past the last actual month,
      or the last twelve forecast rows when there are none. */
  function DrawnWindow(hist: seq<Row>, fc: seq<Row>): (w: seq<Row>)
    ensures PastHistory(hist, fc) != [] ==> w == PastHistory(hist, fc)
    ensures PastHistory(hist, fc) == [] ==> w == Tail(fc, FallbackRows)
  {
    var future := PastHistory(hist, fc);
    if future == [] then Tail(fc, FallbackRows) else future
  }

  /** When every forecast row lies past the history, as the engine's split
      makes them, the whole forecast is drawn. */
  lemma DrawnWindowWhole(hist: seq<Row>, fc: seq<Row>)
    requires hist != [] && fc != []
    requires forall i, j :: 0 <= i < |hist| && 0 <= j < |fc| ==> hist[i].ds < fc[j].ds
    ensures DrawnWindow(hist, fc) == fc
  {
    var m := LastActual(hist).value;
    var k :| 0 <= k < |hist| && hist[k].ds == m;
    assert forall j :: 0 <= j < |fc| ==> After(m)(fc[j]);
    WhereAll(fc, After(m));
  }

  /** The window is never longer than the forecast, and it is empty only for
      an empty forecast. */
  lemma DrawnWindowBounds(hist: seq<Row>, fc: seq<Row>)
    ensures |DrawnWindow(hist, fc)| <= |fc|
    ensures DrawnWindow(hist, fc) == [] <==> fc == []
  {
    var future := PastHistory(hist, fc);
    if future != [] {
      assert future[0] in fc;
    }
  }

  // ---------------------------------------------------------- line style

  datatype Dash = Solid | Dashed | Dotted

  datatype LineStyle = LineStyle(width: int, dash: Dash, colour: Option<string>)

  /** app/pages/forecast.py:203-208, keyed by the label text; an unknown
      label is drawn solid. */
  function StyleFor(name: string): (st: LineStyle)
    ensures st.width == 3
    ensures st.dash == Dashed <==> name == "Possibly Unreliable"
    ensures st.dash == Dotted <==> name == "Unreliable"
    ensures st.colour.Some? <==> name == "Unreliable"
  {
    if name == "Reliable" then LineStyle(3, Solid, None)
    else if name == "Possibly Unreliable" then LineStyle(3, Dashed, None)
    else if name == "Unreliable" then LineStyle(3, Dotted, Some("lightgray"))
    else LineStyle(3, Solid, None)
  }

  /** The three labels are drawn in three different styles. */
  lemma StylesDistinct(a: Label, b: Label)
    requires a != b
    ensures StyleFor(LabelText(a)) != StyleFor(LabelText(b))
  {
  }

  // ---------------------------------------------------------- alert colour

  datatype Colour = Danger | Warning | Info

  /** app/pages/forecast.py:315-320 on the labels of the forecasts shown:
      danger if any is unreliable, else warning if any is possibly
      unreliable, else info. */
  function AlertColour(labels: seq<Label>): (c: Colour)
    ensures c == Danger <==> Unreliable in labels
    ensures c == Warning <==> Unreliable !in labels && PossiblyUnreliable in labels
    ensures c == Info <==> forall i :: 0 <= i < |labels| ==> labels[i] == Reliable
  {
    assert forall i :: 0 <= i < |labels| ==> labels[i] in labels;
    if Unreliable in labels then Danger
    else if PossiblyUnreliable in labels then Warning
    else
      assert forall i :: 0 <= i < |labels| ==> labels[i].Reliable? by {
        forall i | 0 <= i < |labels| ensures labels[i].Reliable? {
          assert labels[i] in labels;
        }
      }
      Info
  }

  /** The colour is that of the worst label. */
  function Worst(labels: seq<Label>): (w: int)
    ensures labels == [] ==> w == 0
    ensures forall i :: 0 <= i < |labels| ==> Rank(labels[i]) <= w
    ensures labels != [] ==> exists i :: 0 <= i < |labels| && Rank(labels[i]) == w
  {
    if labels == [] then 0
    else
      var w := Worst(labels[..|labels| - 1]);
      assert forall i :: 0 <= i < |labels| - 1 ==> labels[..|labels| - 1][i] == labels[i];
      if Rank(labels[|labels| - 1]) > w then Rank(labels[|labels| - 1]) else w
  }

  lemma AlertColourIsWorst(labels: seq<Label>)
    ensures AlertColour(labels) == [Info, Warning, Danger][Worst(labels)]
  {
    var w := Worst(labels);
    if labels != [] {
      var i :| 0 <= i < |labels| && Rank(labels[i]) == w;
    }
    if Unreliable in labels {
      var i :| 0 <= i < |labels| && labels[i] == Unreliable;
    } else if PossiblyUnreliable in labels {
      var i :| 0 <= i < |labels| && labels[i] == PossiblyUnreliable;
    }
  }

  // -------------------------------------------------------------- messages

  /** `f"{x:.2f}"`: the sign, the whole part, and two decimals of the
      magnitude rounded half to even. */
  function FormatFixed2(x: real): string
  {
    var m := if x < 0.0 then -x else x;
    var n := RoundHalfEven(m * 100.0);
    var cents := n % 100;
    (if x < 0.0 then "-" else "") + NatToString(n / 100) + "." + [DigitChar(cents / 10), DigitChar(cents % 10)]
  }

  /** app/pages/forecast.py:191-194. */
  function MapeText(mape: Option<real>): string
  {
    if mape.None? then "MAPE: N/A" else "MAPE: " + FormatFixed2(mape.value) + "%"
  }

  /** The reliability message of one selection (app/pages/forecast.py:196). */
  function Message(neigh: string, item: string, f: Forecast): string
  {
    neigh + "/" + item + ": " + LabelText(f.reliability) + " (" + MapeText(f.mape) + ")"
  }

  /** The message of a selection the engine gave nothing for (line 187). */
  function NotEnoughMessage(neigh: string, item: string): string
  {
    neigh + "/" + item + ": Not enough data to generate forecast"
  }

  /** `"\n".join(msgs)`. */
  function JoinLines(msgs: seq<string>): string
  {
    if msgs == [] then "" else if |msgs| == 1 then msgs[0] else msgs[0] + "\n" + JoinLines(msgs[1..])
  }

  lemma JoinLinesNonEmpty(msgs: seq<string>)
    requires msgs != [] && msgs[0] != ""
    ensures JoinLines(msgs) != ""
  {
    assert JoinLines(msgs)[..|msgs[0]|] == msgs[0];
  }

  // ---------------------------------------------- selections and results

  /** What an engine function does for one (neighbourhood, item) selection:
      it returns frames, it returns None frames (the `ts is None or forecast
      is None` branch of line 185), or it raises. */
  datatype Answer = Frames(f: Forecast) | NoFrames | Raised(error: Error)

  type Engine = (string, string) -> Answer

  /** The answer of an engine function modelled with a `Result`. */
  function AnswerOf(r: Result<Forecast>): (a: Answer)
    ensures a.Frames? <==> r.Ok?
    ensures r.Ok? ==> a.f == r.value
    ensures r.Err? ==> a == Raised(r.error)
  {
    if r.Ok? then Frames(r.value) else Raised(r.error)
  }

  /** `get_forecast(neigh, item, forecast_level, config)` with the volume
      configuration on the volume table (lines 178-183). */
  function VolumeEngine(t: Table<int>, level: string, fit: Fitter): Engine
  {
    (n: string, i: string) => AnswerOf(VolumeForecast.GetForecast(t, n, i, level, VolumeConfig, None, fit))
  }

  /** `get_severity_forecast(neigh, item, forecast_level, config)` with the
      severity configuration, the severity tables, the case table and the
      current month (lines 178-183). */
  function SeverityEngine(tables: map<string, Table<real>>, cases: CaseTable, level: string, today: int, fit: Fitter): Engine
    requires "citywide" in tables
  {
    (n: string, i: string) => AnswerOf(SeverityForecast.SeverityForecast(tables, cases, n, i, level, SeverityConfig, None, today, fit))
  }

  /** A selection makes the callback raise: the engine raised, or its frames'
      `ds` column holds no datetimes, so `.dt.strftime` at line 241 raises
      AttributeError. */
  predicate Raises(a: Answer)
  {
    a.Raised? || (a.Frames? && !a.f.dated)
  }

  function RaisedError(a: Answer): Error
    requires Raises(a)
  {
    if a.Raised? then a.error else NotDatetime
  }

  /** No selection of `ps` raises. */
  predicate NoRaise(engine: Engine, ps: seq<(string, string)>)
  {
    forall k :: 0 <= k < |ps| ==> !Raises(engine(ps[k].0, ps[k].1))
  }

  /** app/pages/forecast.py:173: the expression gives `[selected_item]` for
      every value, "ALL" included. */
  function SelectedItems(item: string): (items: seq<string>)
    ensures items == [item]
  {
    if item != AllItems then [item] else [AllItems]
  }

  function RowPairs(neigh: string, items: seq<string>): (ps: seq<(string, string)>)
    ensures |ps| == |items| && forall j :: 0 <= j < |items| ==> ps[j] == (neigh, items[j])
  {
    seq(|items|, j requires 0 <= j < |items| => (neigh, items[j]))
  }

  /** The selections in the order of the nested loops: neighbourhood-major. */
  function Pairs(neighs: seq<string>, items: seq<string>): seq<(string, string)>
  {
    if neighs == [] then [] else Pairs(neighs[..|neighs| - 1], items) + RowPairs(neighs[|neighs| - 1], items)
  }

  /** Every neighbourhood is paired with every item, and with nothing else. */
  lemma {:induction false} PairsMembers(neighs: seq<string>, items: seq<string>)
    ensures |Pairs(neighs, items)| == |neighs| * |items|
    ensures forall p: (string, string) :: p in Pairs(neighs, items) <==> p.0 in neighs && p.1 in items
  {
    if neighs != [] {
      var init, n := neighs[..|neighs| - 1], neighs[|neighs| - 1];
      PairsMembers(init, items);
      assert neighs == init + [n];
      var a, b := Pairs(init, items), RowPairs(n, items);
      forall p: (string, string) ensures p in a + b <==> p.0 in neighs && p.1 in items {
        if p in b {
          var j :| 0 <= j < |b| && b[j] == p;
        }
        if p.0 == n && p.1 in items {
          var j :| 0 <= j < |items| && items[j] == p.1;
          assert b[j] == p;
        }
      }
    }
  }

  /** With one item, the selections are the neighbourhoods in order. */
  lemma {:induction false} PairsOneItem(neighs: seq<string>, item: string)
    ensures |Pairs(neighs, [item])| == |neighs|
    ensures forall k :: 0 <= k < |neighs| ==> Pairs(neighs, [item])[k] == (neighs[k], item)
  {
    if neighs != [] {
      PairsOneItem(neighs[..|neighs| - 1], item);
    }
  }

  /** Some selection of `ps` returns no frames. */
  predicate Missing(engine: Engine, ps: seq<(string, string)>)
  {
    exists k :: 0 <= k < |ps| && engine(ps[k].0, ps[k].1).NoFrames?
  }

  /** Every selection of `ps` returns frames whose `ds` holds datetimes. */
  predicate Answered(engine: Engine, ps: seq<(string, string)>)
  {
    forall k :: 0 <= k < |ps| ==> engine(ps[k].0, ps[k].1).Frames? && engine(ps[k].0, ps[k].1).f.dated
  }

  /** The forecasts of the selections, when the engine answered all of them. */
  function Results(engine: Engine, ps: seq<(string, string)>): (fs: seq<Forecast>)
    requires Answered(engine, ps)
    ensures |fs| == |ps| && forall k :: 0 <= k < |ps| ==> engine(ps[k].0, ps[k].1) == Frames(fs[k])
  {
    seq(|ps|, k requires 0 <= k < |ps| => engine(ps[k].0, ps[k].1).f)
  }

  function Messages(ps: seq<(string, string)>, fs: seq<Forecast>): (msgs: seq<string>)
    requires |ps| == |fs|
    ensures |msgs| == |ps| && forall k :: 0 <= k < |ps| ==> msgs[k] == Message(ps[k].0, ps[k].1, fs[k])
  {
    seq(|ps|, k requires 0 <= k < |ps| => Message(ps[k].0, ps[k].1, fs[k]))
  }

  function Labels(fs: seq<Forecast>): (ls: seq<Label>)
    ensures |ls| == |fs| && forall k :: 0 <= k < |fs| ==> ls[k] == fs[k].reliability
  {
    seq(|fs|, k requires 0 <= k < |fs| => fs[k].reliability)
  }

  /** What the traces of one selection show: the observed history, the
      drawn forecast window, and its line style. */
  datatype Panel = Panel(neigh: string, item: string, observed: seq<Row>, window: seq<Row>, style: LineStyle)

  function PanelOf(neigh: string, item: string, f: Forecast): Panel
  {
    Panel(neigh, item, f.hist, DrawnWindow(f.hist, f.future), StyleFor(LabelText(f.reliability)))
  }

  function Panels(ps: seq<(string, string)>, fs: seq<Forecast>): (r: seq<Panel>)
    requires |ps| == |fs|
    ensures |r| == |ps| && forall k :: 0 <= k < |ps| ==> r[k] == PanelOf(ps[k].0, ps[k].1, fs[k])
  {
    seq(|ps|, k requires 0 <= k < |ps| => PanelOf(ps[k].0, ps[k].1, fs[k]))
  }

  // ------------------------------------------------- selections reached

  /** How many items of one neighbourhood the inner loop calls the engine
      for: all of them, or those up to and including the first that returns
      no frames, at which the loop breaks (line 188). */
  function RowStop(engine: Engine, neigh: string, items: seq<string>): (j: nat)
    ensures j <= |items| && (items != [] ==> j > 0)
  {
    if items == [] then 0
    else if engine(neigh, items[0]).NoFrames? then 1
    else 1 + RowStop(engine, neigh, items[1..])
  }

  /** Before the first item without frames, the loop goes on. */
  lemma {:induction false} RowStopFrom(engine: Engine, neigh: string, items: seq<string>, j: nat)
    requires j <= |items| && forall k :: 0 <= k < j ==> !engine(neigh, items[k]).NoFrames?
    ensures RowStop(engine, neigh, items) == j + RowStop(engine, neigh, items[j..])
  {
    if j > 0 {
      assert items[1..][j - 1..] == items[j..];
      RowStopFrom(engine, neigh, items[1..], j - 1);
    }
  }

  /** The selections of one neighbourhood the inner loop reaches. */
  function RowReached(engine: Engine, neigh: string, items: seq<string>): seq<(string, string)>
  {
    RowPairs(neigh, items[..RowStop(engine, neigh, items)])
  }

  /** The selections the nested loops reach, in order. */
  function Reached(engine: Engine, neighs: seq<string>, items: seq<string>): seq<(string, string)>
  {
    if neighs == [] then [] else Reached(engine, neighs[..|neighs| - 1], items) + RowReached(engine, neighs[|neighs| - 1], items)
  }

  /** The error of the first selection of `ps` that raises, if one does. */
  function FirstRaise(engine: Engine, ps: seq<(string, string)>): (e: Option<Error>)
    ensures e.None? <==> NoRaise(engine, ps)
    ensures e.Some? ==> exists k :: 0 <= k < |ps| && Raises(engine(ps[k].0, ps[k].1))
                                    && e.value == RaisedError(engine(ps[k].0, ps[k].1))
                                    && forall j :: 0 <= j < k ==> !Raises(engine(ps[j].0, ps[j].1))
  {
    if ps == [] then None
    else if Raises(engine(ps[0].0, ps[0].1)) then Some(RaisedError(engine(ps[0].0, ps[0].1)))
    else
      var e := FirstRaise(engine, ps[1..]);
      assert forall k :: 1 <= k < |ps| ==> ps[1..][k - 1] == ps[k];
      if e.Some? then
        var k :| 0 <= k < |ps| - 1 && Raises(engine(ps[1..][k].0, ps[1..][k].1))
                 && e.value == RaisedError(engine(ps[1..][k].0, ps[1..][k].1))
                 && forall j :: 0 <= j < k ==> !Raises(engine(ps[1..][j].0, ps[1..][j].1));
        assert forall j :: 0 <= j < k + 1 ==> !Raises(engine(ps[j].0, ps[j].1));
        e
      else e
  }

  /** The first raise of a concatenation is that of its first part, if it
      has one. */
  lemma {:induction false} FirstRaiseAppend(engine: Engine, a: seq<(string, string)>, b: seq<(string, string)>)
    ensures FirstRaise(engine, a + b) == if FirstRaise(engine, a).Some? then FirstRaise(engine, a) else FirstRaise(engine, b)
  {
    if a == [] {
      assert a + b == b;
    } else {
      assert (a + b)[0] == a[0];
      assert (a + b)[1..] == a[1..] + b;
      FirstRaiseAppend(engine, a[1..], b);
    }
  }

  /** Appending a selection that does not raise keeps the first raise. */
  lemma SnocNoRaise(engine: Engine, a: seq<(string, string)>, p: (string, string))
    requires NoRaise(engine, a) && !Raises(engine(p.0, p.1))
    ensures NoRaise(engine, a + [p])
  {
    var q := a + [p];
    forall k | 0 <= k < |q| ensures !Raises(engine(q[k].0, q[k].1)) {
      if k < |a| {
        assert q[k] == a[k];
      }
    }
  }

  /** A row with no item returning no frames is reached whole. */
  lemma RowReachedAll(engine: Engine, neigh: string, items: seq<string>)
    requires forall k :: 0 <= k < |items| ==> !engine(neigh, items[k]).NoFrames?
    ensures RowReached(engine, neigh, items) == RowPairs(neigh, items)
  {
    RowStopFrom(engine, neigh, items, |items|);
    assert items[..|items|] == items;
  }

  /** A row of one item is reached whole. */
  lemma RowReachedOne(engine: Engine, neigh: string, item: string)
    ensures RowReached(engine, neigh, [item]) == RowPairs(neigh, [item])
  {
    assert [item][..1] == [item];
  }

  /** When no selection returns no frames, the loops reach every selection. */
  lemma {:induction false} ReachedAll(engine: Engine, neighs: seq<string>, items: seq<string>)
    requires !Missing(engine, Pairs(neighs, items))
    ensures Reached(engine, neighs, items) == Pairs(neighs, items)
  {
    if neighs != [] {
      var init, n := neighs[..|neighs| - 1], neighs[|neighs| - 1];
      var a, b := Pairs(init, items), RowPairs(n, items);
      forall k | 0 <= k < |a| ensures !engine(a[k].0, a[k].1).NoFrames? {
        assert (a + b)[k] == a[k];
      }
      forall k | 0 <= k < |items| ensures !engine(n, items[k]).NoFrames? {
        assert (a + b)[|a| + k] == (n, items[k]);
      }
      ReachedAll(engine, init, items);
      RowReachedAll(engine, n, items);
    }
  }

  /** With one item, the loops reach every selection. */
  lemma {:induction false} ReachedOneItem(engine: Engine, neighs: seq<string>, item: string)
    ensures Reached(engine, neighs, [item]) == Pairs(neighs, [item])
  {
    if neighs != [] {
      ReachedOneItem(engine, neighs[..|neighs| - 1], item);
      RowReachedOne(engine, neighs[|neighs| - 1], item);
    }
  }

  /** The selections reached in the first `i` neighbourhoods come first. */
  lemma {:induction false} ReachedPrefix(engine: Engine, neighs: seq<string>, items: seq<string>, i: nat)
    returns (rest: seq<(string, string)>)
    requires i <= |neighs|
    ensures Reached(engine, neighs, items) == Reached(engine, neighs[..i], items) + rest
  {
    if i == |neighs| {
      assert neighs[..i] == neighs;
      rest := [];
    } else {
      var init := neighs[..|neighs| - 1];
      var r0 := ReachedPrefix(engine, init, items, i);
      assert init[..i] == neighs[..i];
      rest := r0 + RowReached(engine, neighs[|neighs| - 1], items);
    }
  }

  /** Without a raise among the reached selections, a view without missing
      frames has every selection answered. */
  lemma AllAnswered(engine: Engine, neighs: seq<string>, items: seq<string>)
    requires NoRaise(engine, Reached(engine, neighs, items))
    requires !Missing(engine, Pairs(neighs, items))
    ensures Answered(engine, Pairs(neighs, items))
  {
    ReachedAll(engine, neighs, items);
  }

  // ------------------------------------------------------------------ view

  /** The panels drawn (None: no figure and no table), the alert text,
      whether the alert is open, and its colour. */
  datatype View = View(panels: Option<seq<Panel>>, alertText: string, alertOpen: bool, colour: Colour)

  /** app/pages/forecast.py:261-267. */
  const NotEnoughView: View := View(None, "Not enough data to generate forecast.", true, Danger)

  /** The outcome of `update_forecasts` for the selections `neighs` × `items`:
      the exception of the first reached selection that raises; otherwise the
      not-enough-data view as soon as one selection returns no frames, else
      one panel and one message per selection and the colour of their labels. */
  function ForecastView(engine: Engine, neighs: seq<string>, items: seq<string>): Result<View>
  {
    var ps := Pairs(neighs, items);
    var failure := FirstRaise(engine, Reached(engine, neighs, items));
    if failure.Some? then Err(failure.value)
    else if Missing(engine, ps) then Ok(NotEnoughView)
    else
      AllAnswered(engine, neighs, items);
      var fs := Results(engine, ps);
      var text := JoinLines(Messages(ps, fs));
      Ok(View(Some(Panels(ps, fs)), text, text != "", AlertColour(Labels(fs))))
  }

  lemma MissingExtends(engine: Engine, a: seq<(string, string)>, b: seq<(string, string)>)
    requires Missing(engine, a)
    ensures Missing(engine, a + b)
  {
    var k :| 0 <= k < |a| && engine(a[k].0, a[k].1).NoFrames?;
    assert (a + b)[k] == a[k];
  }

  /** Appending an answered selection appends its result, message and panel. */
  lemma Extend(engine: Engine, ps: seq<(string, string)>, p: (string, string), f: Forecast)
    requires Answered(engine, ps) && engine(p.0, p.1) == Frames(f) && f.dated
    ensures Answered(engine, ps + [p]) && !Missing(engine, ps + [p])
    ensures Results(engine, ps + [p]) == Results(engine, ps) + [f]
    ensures Messages(ps + [p], Results(engine, ps) + [f]) == Messages(ps, Results(engine, ps)) + [Message(p.0, p.1, f)]
    ensures Panels(ps + [p], Results(engine, ps) + [f]) == Panels(ps, Results(engine, ps)) + [PanelOf(p.0, p.1, f)]
  {
    var q := ps + [p];
    forall k | 0 <= k < |q| ensures engine(q[k].0, q[k].1).Frames? && engine(q[k].0, q[k].1).f.dated {
      if k < |ps| {
        assert q[k] == ps[k];
      }
    }
  }

  lemma RowPrefix(neigh: string, items: seq<string>, j: int)
    requires 0 <= j < |items|
    ensures RowPairs(neigh, items[..j + 1]) == RowPairs(neigh, items[..j]) + [(neigh, items[j])]
  {
  }

  /** The loop state of `update_forecasts` after the selections `ps`, of
      which `reached` were handed to the engine: none of those raised, the
      flag is set exactly when one of `ps` returned no frames, and until then
      every selection was reached and the results, messages and panels are
      those of `ps`, in order. */
  predicate Tracks(engine: Engine, ps: seq<(string, string)>, reached: seq<(string, string)>,
                   panels: seq<Panel>, msgs: seq<string>, fetched: seq<Forecast>, notEnough: bool)
  {
    NoRaise(engine, reached)
    && (notEnough <==> Missing(engine, ps))
    && (!notEnough ==> reached == ps && Answered(engine, ps) && fetched == Results(engine, ps)
                       && msgs == Messages(ps, fetched) && panels == Panels(ps, fetched))
  }

  lemma AnsweredStep(engine: Engine, done: seq<(string, string)>, doneReached: seq<(string, string)>,
                     neigh: string, items: seq<string>, j: int, f: Forecast,
                     panels: seq<Panel>, msgs: seq<string>, fetched: seq<Forecast>, notEnough: bool)
    requires 0 <= j < |items| && engine(neigh, items[j]) == Frames(f) && f.dated
    requires Tracks(engine, done + RowPairs(neigh, items[..j]), doneReached + RowPairs(neigh, items[..j]),
                    panels, msgs, fetched, notEnough)
    ensures Tracks(engine, done + RowPairs(neigh, items[..j + 1]), doneReached + RowPairs(neigh, items[..j + 1]),
                   panels + [PanelOf(neigh, items[j], f)], msgs + [Message(neigh, items[j], f)], fetched + [f], notEnough)
  {
    var p := (neigh, items[j]);
    var q := done + RowPairs(neigh, items[..j]);
    var r := doneReached + RowPairs(neigh, items[..j]);
    RowPrefix(neigh, items, j);
    assert done + RowPairs(neigh, items[..j + 1]) == q + [p];
    assert doneReached + RowPairs(neigh, items[..j + 1]) == r + [p];
    SnocNoRaise(engine, r, p);
    if notEnough {
      MissingExtends(engine, q, [p]);
    } else {
      Extend(engine, q, p, f);
    }
  }

  /** At an item without frames the row is left: the whole row counts as
      visited, and the items reached end with this one. */
  lemma NoFramesStep(engine: Engine, done: seq<(string, string)>, doneReached: seq<(string, string)>,
                     neigh: string, items: seq<string>, j: int,
                     panels: seq<Panel>, msgs: seq<string>, fetched: seq<Forecast>, notEnough: bool)
    requires 0 <= j < |items| && engine(neigh, items[j]).NoFrames?
    requires forall k :: 0 <= k < j ==> !engine(neigh, items[k]).NoFrames?
    requires Tracks(engine, done + RowPairs(neigh, items[..j]), doneReached + RowPairs(neigh, items[..j]),
                    panels, msgs, fetched, notEnough)
    ensures Tracks(engine, done + RowPairs(neigh, items), doneReached + RowReached(engine, neigh, items),
                   panels, msgs + [NotEnoughMessage(neigh, items[j])], fetched, true)
  {
    var p := (neigh, items[j]);
    var r := doneReached + RowPairs(neigh, items[..j]);
    RowEndsAt(engine, neigh, items, j);
    RowPrefix(neigh, items, j);
    assert doneReached + RowReached(engine, neigh, items) == r + [p];
    SnocNoRaise(engine, r, p);
    MissingAt(engine, done, neigh, items, j);
  }

  /** The items reached in a row end with its first item without frames. */
  lemma RowEndsAt(engine: Engine, neigh: string, items: seq<string>, j: int)
    requires 0 <= j < |items| && engine(neigh, items[j]).NoFrames?
    requires forall k :: 0 <= k < j ==> !engine(neigh, items[k]).NoFrames?
    ensures RowReached(engine, neigh, items) == RowPairs(neigh, items[..j + 1])
  {
    RowStopFrom(engine, neigh, items, j);
    assert items[j..][0] == items[j];
  }

  lemma MissingAt(engine: Engine, done: seq<(string, string)>, neigh: string, items: seq<string>, j: int)
    requires 0 <= j < |items| && engine(neigh, items[j]).NoFrames?
    ensures Missing(engine, done + RowPairs(neigh, items))
  {
    assert (done + RowPairs(neigh, items))[|done| + j] == (neigh, items[j]);
  }

  /** At an item that raises, the callback fails with its error. */
  lemma RaisedAt(engine: Engine, doneReached: seq<(string, string)>, neigh: string, items: seq<string>, j: int)
    requires 0 <= j < |items| && Raises(engine(neigh, items[j]))
    requires forall k :: 0 <= k < j ==> !engine(neigh, items[k]).NoFrames?
    requires NoRaise(engine, doneReached + RowPairs(neigh, items[..j]))
    ensures FirstRaise(engine, doneReached + RowReached(engine, neigh, items)) == Some(RaisedError(engine(neigh, items[j])))
  {
    RowStopFrom(engine, neigh, items, j);
    var s := RowStop(engine, neigh, items);
    RowPairsSplit(neigh, items, j, s);
    var a := doneReached + RowPairs(neigh, items[..j]);
    var b := RowPairs(neigh, items[j..s]);
    assert RowReached(engine, neigh, items) == RowPairs(neigh, items[..j]) + b;
    AppendAssoc(doneReached, RowPairs(neigh, items[..j]), b);
    RaiseFirst(engine, b, (neigh, items[j]));
    FirstRaiseAppend(engine, a, b);
  }

  lemma AppendAssoc<T>(x: seq<T>, y: seq<T>, z: seq<T>)
    ensures x + (y + z) == (x + y) + z
  {
  }

  lemma RowPairsSplit(neigh: string, items: seq<string>, j: nat, s: nat)
    requires j <= s <= |items|
    ensures RowPairs(neigh, items[..s]) == RowPairs(neigh, items[..j]) + RowPairs(neigh, items[j..s])
  {
  }

  /** A sequence that starts with a raise raises that error first. */
  lemma RaiseFirst(engine: Engine, b: seq<(string, string)>, p: (string, string))
    requires b != [] && b[0] == p && Raises(engine(p.0, p.1))
    ensures FirstRaise(engine, b) == Some(RaisedError(engine(p.0, p.1)))
  {
  }

  /** What one pass of the inner loop does next. */
  datatype Step = Next | Leave | Fail(error: Error)

  /** One pass of the inner loop of app/pages/forecast.py:182-259: the
      callback fails at an item that raises (in the engine or at line 241),
      the row is left at an item without frames, and otherwise the item's
      message, panel and forecast are appended. */
  method Visit(engine: Engine, done: seq<(string, string)>, doneReached: seq<(string, string)>,
               neigh: string, items: seq<string>, j: nat,
               panels0: seq<Panel>, msgs0: seq<string>, fetched0: seq<Forecast>, notEnough0: bool)
    returns (step: Step, panels: seq<Panel>, msgs: seq<string>, fetched: seq<Forecast>, notEnough: bool)
    requires j < |items| && forall k :: 0 <= k < j ==> !engine(neigh, items[k]).NoFrames?
    requires Tracks(engine, done + RowPairs(neigh, items[..j]), doneReached + RowPairs(neigh, items[..j]),
                    panels0, msgs0, fetched0, notEnough0)
    ensures step.Fail? ==> FirstRaise(engine, doneReached + RowReached(engine, neigh, items)) == Some(step.error)
    ensures step.Leave? ==> Tracks(engine, done + RowPairs(neigh, items), doneReached + RowReached(engine, neigh, items),
                                   panels, msgs, fetched, notEnough)
    ensures step.Next? ==> !engine(neigh, items[j]).NoFrames?
                           && Tracks(engine, done + RowPairs(neigh, items[..j + 1]), doneReached + RowPairs(neigh, items[..j + 1]),
                                     panels, msgs, fetched, notEnough)
  {
    panels, msgs, fetched, notEnough := panels0, msgs0, fetched0, notEnough0;
    var a := engine(neigh, items[j]);
    if Raises(a) {
      RaisedAt(engine, doneReached, neigh, items, j);
      step := Fail(RaisedError(a));
    } else if a.NoFrames? {
      NoFramesStep(engine, done, doneReached, neigh, items, j, panels, msgs, fetched, notEnough);
      step := Leave;
      notEnough := true;
      msgs := msgs + [NotEnoughMessage(neigh, items[j])];
    } else {
      var f := a.f;
      AnsweredStep(engine, done, doneReached, neigh, items, j, f, panels, msgs, fetched, notEnough);
      step := Next;
      msgs := msgs + [Message(neigh, items[j], f)];
      panels := panels + [PanelOf(neigh, items[j], f)];
      fetched := fetched + [f];
    }
  }

  /** The inner loop of app/pages/forecast.py:182-259 for one neighbourhood:
      it leaves the row at the first item without frames, and the callback
      fails at the first item that raises. */
  method FetchRow(engine: Engine, done: seq<(string, string)>, doneReached: seq<(string, string)>,
                  neigh: string, items: seq<string>,
                  panels0: seq<Panel>, msgs0: seq<string>, fetched0: seq<Forecast>, notEnough0: bool)
    returns (failure: Option<Error>, panels: seq<Panel>, msgs: seq<string>, fetched: seq<Forecast>, notEnough: bool)
    requires Tracks(engine, done, doneReached, panels0, msgs0, fetched0, notEnough0)
    ensures failure.Some? ==> FirstRaise(engine, doneReached + RowReached(engine, neigh, items)) == failure
    ensures failure.None? ==> Tracks(engine, done + RowPairs(neigh, items), doneReached + RowReached(engine, neigh, items),
                                     panels, msgs, fetched, notEnough)
  {
    failure := None;
    panels, msgs, fetched, notEnough := panels0, msgs0, fetched0, notEnough0;
    assert items[..0] == [];
    assert done + RowPairs(neigh, items[..0]) == done;
    assert doneReached + RowPairs(neigh, items[..0]) == doneReached;
    var j := 0;
    while j < |items|
      invariant 0 <= j <= |items|
      invariant forall k :: 0 <= k < j ==> !engine(neigh, items[k]).NoFrames?
      invariant Tracks(engine, done + RowPairs(neigh, items[..j]), doneReached + RowPairs(neigh, items[..j]),
                       panels, msgs, fetched, notEnough)
    {
      var step;
      step, panels, msgs, fetched, notEnough := Visit(engine, done, doneReached, neigh, items, j, panels, msgs, fetched, notEnough);
      if step.Fail? {
        failure := Some(step.error);
        return;
      } else if step.Leave? {
        return;
      }
      j := j + 1;
    }
    assert items[..j] == items;
    RowReachedAll(engine, neigh, items);
  }

  /** A raise in the first `i + 1` neighbourhoods is the callback's error. */
  lemma FailureStops(engine: Engine, neighs: seq<string>, items: seq<string>, i: nat, e: Error)
    requires i < |neighs|
    requires FirstRaise(engine, Reached(engine, neighs[..i], items) + RowReached(engine, neighs[i], items)) == Some(e)
    ensures ForecastView(engine, neighs, items) == Err(e)
  {
    var rest := ReachedPrefix(engine, neighs, items, i + 1);
    assert neighs[..i + 1][..i] == neighs[..i];
    assert Reached(engine, neighs[..i + 1], items) == Reached(engine, neighs[..i], items) + RowReached(engine, neighs[i], items);
    FirstRaiseAppend(engine, Reached(engine, neighs[..i + 1], items), rest);
  }

  /** The next neighbourhood adds its row to the selections and to those reached. */
  lemma NextRow(engine: Engine, neighs: seq<string>, items: seq<string>, i: nat)
    requires i < |neighs|
    ensures Pairs(neighs[..i + 1], items) == Pairs(neighs[..i], items) + RowPairs(neighs[i], items)
    ensures Reached(engine, neighs[..i + 1], items) == Reached(engine, neighs[..i], items) + RowReached(engine, neighs[i], items)
  {
    assert neighs[..i + 1][..i] == neighs[..i];
  }

  /** The loop state after every neighbourhood determines the view. */
  lemma ViewOfState(engine: Engine, neighs: seq<string>, items: seq<string>,
                    panels: seq<Panel>, msgs: seq<string>, fetched: seq<Forecast>, notEnough: bool)
    requires Tracks(engine, Pairs(neighs, items), Reached(engine, neighs, items), panels, msgs, fetched, notEnough)
    ensures notEnough ==> ForecastView(engine, neighs, items) == Ok(NotEnoughView)
    ensures !notEnough ==> ForecastView(engine, neighs, items)
                           == Ok(View(Some(panels), JoinLines(msgs), JoinLines(msgs) != "", AlertColour(Labels(fetched))))
  {
  }

  /** `update_forecasts` (app/pages/forecast.py:167-320): the nested loops
      over neighbourhoods and items append a message and a panel per
      answered selection, on a selection without frames set the flag and
      leave the inner loop, and stop at an exception. The alert colour is
      taken from the labels of the answered selections (see
      AlertColourAsWritten for the rule as the page writes it). */
  method UpdateForecasts(sel: Selection, selectedItem: string, engine: Engine) returns (v: Result<View>)
    ensures v == ForecastView(engine, Normalise(sel), SelectedItems(selectedItem))
  {
    var neighs := Normalise(sel);
    var items := SelectedItems(selectedItem);
    var panels: seq<Panel> := [];
    var msgs: seq<string> := [];
    var fetched: seq<Forecast> := [];
    var notEnough := false;
    for i := 0 to |neighs|
      invariant Tracks(engine, Pairs(neighs[..i], items), Reached(engine, neighs[..i], items), panels, msgs, fetched, notEnough)
    {
      NextRow(engine, neighs, items, i);
      var failure;
      failure, panels, msgs, fetched, notEnough :=
        FetchRow(engine, Pairs(neighs[..i], items), Reached(engine, neighs[..i], items), neighs[i], items, panels, msgs, fetched, notEnough);
      if failure.Some? {
        FailureStops(engine, neighs, items, i, failure.value);
        return Err(failure.value);
      }
    }
    assert neighs[..|neighs|] == neighs;
    ViewOfState(engine, neighs, items, panels, msgs, fetched, notEnough);
    if notEnough {
      v := Ok(NotEnoughView);
    } else {
      var text := JoinLines(msgs);
      v := Ok(View(Some(panels), text, text != "", AlertColour(Labels(fetched))));
    }
  }

  // ------------------------------------------- view properties

  /** The callback fails exactly when a selection the loops reach raises;
      when no selection returns no frames, every selection is reached. */
  lemma ViewFails(engine: Engine, neighs: seq<string>, items: seq<string>)
    ensures ForecastView(engine, neighs, items).Err?
        <==> exists k :: 0 <= k < |Reached(engine, neighs, items)|
                         && Raises(engine(Reached(engine, neighs, items)[k].0, Reached(engine, neighs, items)[k].1))
    ensures (forall n, i :: n in neighs && i in items ==> !engine(n, i).NoFrames?) ==>
              (ForecastView(engine, neighs, items).Err? <==> exists n, i :: n in neighs && i in items && Raises(engine(n, i)))
  {
    if forall n, i :: n in neighs && i in items ==> !engine(n, i).NoFrames? {
      NoneMissing(engine, neighs, items);
      ReachedAll(engine, neighs, items);
      PairsRaise(engine, neighs, items);
    }
  }

  /** When no neighbourhood and item lack frames, no selection does. */
  lemma NoneMissing(engine: Engine, neighs: seq<string>, items: seq<string>)
    requires forall n, i :: n in neighs && i in items ==> !engine(n, i).NoFrames?
    ensures !Missing(engine, Pairs(neighs, items))
  {
    var ps := Pairs(neighs, items);
    PairsMembers(neighs, items);
    forall k | 0 <= k < |ps| ensures !engine(ps[k].0, ps[k].1).NoFrames? {
      assert ps[k] in ps;
    }
  }

  /** Some selection raises exactly when some neighbourhood and item raise. */
  lemma PairsRaise(engine: Engine, neighs: seq<string>, items: seq<string>)
    ensures (exists k :: 0 <= k < |Pairs(neighs, items)| && Raises(engine(Pairs(neighs, items)[k].0, Pairs(neighs, items)[k].1)))
        <==> exists n, i :: n in neighs && i in items && Raises(engine(n, i))
  {
    var ps := Pairs(neighs, items);
    PairsMembers(neighs, items);
    if exists n, i :: n in neighs && i in items && Raises(engine(n, i)) {
      var n, i :| n in neighs && i in items && Raises(engine(n, i));
      assert (n, i) in ps;
      var k :| 0 <= k < |ps| && ps[k] == (n, i);
    }
    if exists k :: 0 <= k < |ps| && Raises(engine(ps[k].0, ps[k].1)) {
      var k :| 0 <= k < |ps| && Raises(engine(ps[k].0, ps[k].1));
      assert ps[k] in ps;
    }
  }

  /** On the page, with its one item, the callback fails exactly when some
      selected neighbourhood raises, and the error is that of the first. */
  lemma ViewFailsOneItem(engine: Engine, neighs: seq<string>, item: string)
    ensures ForecastView(engine, neighs, [item]).Err? <==> exists k :: 0 <= k < |neighs| && Raises(engine(neighs[k], item))
    ensures ForecastView(engine, neighs, [item]).Err? ==>
              exists k :: 0 <= k < |neighs| && Raises(engine(neighs[k], item))
                          && ForecastView(engine, neighs, [item]).error == RaisedError(engine(neighs[k], item))
                          && forall j :: 0 <= j < k ==> !Raises(engine(neighs[j], item))
  {
    ReachedOneItem(engine, neighs, item);
    PairsOneItem(neighs, item);
  }

  /** Without a raise, the figure and table are dropped exactly when some
      neighbourhood and item of the selection return no frames. */
  lemma ViewNotEnough(engine: Engine, neighs: seq<string>, items: seq<string>)
    ensures ForecastView(engine, neighs, items).Ok? ==>
              (ForecastView(engine, neighs, items).value.panels.None?
               <==> exists n, i :: n in neighs && i in items && engine(n, i).NoFrames?)
    ensures ForecastView(engine, neighs, items).Ok? && ForecastView(engine, neighs, items).value.panels.None? ==>
              ForecastView(engine, neighs, items).value == NotEnoughView
  {
    var ps := Pairs(neighs, items);
    PairsMembers(neighs, items);
    if Missing(engine, ps) {
      var k :| 0 <= k < |ps| && engine(ps[k].0, ps[k].1).NoFrames?;
      assert ps[k] in ps;
    }
    if exists n, i :: n in neighs && i in items && engine(n, i).NoFrames? {
      var n, i :| n in neighs && i in items && engine(n, i).NoFrames?;
      assert (n, i) in ps;
      var k :| 0 <= k < |ps| && ps[k] == (n, i);
    }
  }

  /** When every selection returns frames with datetimes, one panel is drawn
      per neighbourhood and item, in neighbourhood-major order, with that
      selection's history, window and style, and the colour is that of the
      answered labels. */
  lemma ViewShown(engine: Engine, neighs: seq<string>, items: seq<string>)
    requires forall n, i :: n in neighs && i in items ==> engine(n, i).Frames? && engine(n, i).f.dated
    ensures var v := ForecastView(engine, neighs, items);
            var ps := Pairs(neighs, items);
            v.Ok? && Answered(engine, ps) && v.value.panels.Some? && |v.value.panels.value| == |neighs| * |items|
            && (forall k :: 0 <= k < |ps| ==> v.value.panels.value[k] == PanelOf(ps[k].0, ps[k].1, engine(ps[k].0, ps[k].1).f))
            && v.value.colour == AlertColour(Labels(Results(engine, ps)))
            && v.value.alertText == JoinLines(Messages(ps, Results(engine, ps)))
  {
    PairsAnswered(engine, neighs, items);
    ReachedAll(engine, neighs, items);
  }

  /** When every neighbourhood and item get frames with datetimes, so does
      every selection. */
  lemma PairsAnswered(engine: Engine, neighs: seq<string>, items: seq<string>)
    requires forall n, i :: n in neighs && i in items ==> engine(n, i).Frames? && engine(n, i).f.dated
    ensures Answered(engine, Pairs(neighs, items)) && !Missing(engine, Pairs(neighs, items))
    ensures |Pairs(neighs, items)| == |neighs| * |items|
  {
    var ps := Pairs(neighs, items);
    PairsMembers(neighs, items);
    forall k | 0 <= k < |ps| ensures engine(ps[k].0, ps[k].1).Frames? && engine(ps[k].0, ps[k].1).f.dated {
      assert ps[k] in ps;
    }
  }

  lemma PairsNonEmpty(neighs: seq<string>, items: seq<string>)
    requires neighs != [] && items != []
    ensures Pairs(neighs, items) != []
  {
    assert |RowPairs(neighs[|neighs| - 1], items)| > 0;
  }

  /** The alert is open whenever the selection is not empty and the callback
      does not fail: every message is non-empty. */
  lemma ViewOpen(engine: Engine, neighs: seq<string>, items: seq<string>)
    requires neighs != [] && items != []
    ensures ForecastView(engine, neighs, items).Ok? ==> ForecastView(engine, neighs, items).value.alertOpen
  {
    var ps := Pairs(neighs, items);
    PairsNonEmpty(neighs, items);
    if ForecastView(engine, neighs, items).Ok? && !Missing(engine, ps) {
      AllAnswered(engine, neighs, items);
      var msgs := Messages(ps, Results(engine, ps));
      assert msgs[0] != "";
      JoinLinesNonEmpty(msgs);
    }
  }

  /** The page always opens its alert when the callback returns, since its
      selection of neighbourhoods and of items is never empty. */
  lemma AlertAlwaysOpen(engine: Engine, sel: Selection, item: string)
    ensures ForecastView(engine, Normalise(sel), SelectedItems(item)).Ok? ==>
              ForecastView(engine, Normalise(sel), SelectedItems(item)).value.alertOpen
  {
    ViewOpen(engine, Normalise(sel), SelectedItems(item));
  }

  /** Neither engine function ever returns None frames, so the
      not-enough-data view is never shown. */
  lemma EnginesNeverNotEnough(t: Table<int>, tables: map<string, Table<real>>, cases: CaseTable, level: string,
                              today: int, fit: Fitter, neighs: seq<string>, items: seq<string>)
    requires "citywide" in tables
    ensures ForecastView(VolumeEngine(t, level, fit), neighs, items).Ok? ==>
              ForecastView(VolumeEngine(t, level, fit), neighs, items).value.panels.Some?
    ensures ForecastView(SeverityEngine(tables, cases, level, today, fit), neighs, items).Ok? ==>
              ForecastView(SeverityEngine(tables, cases, level, today, fit), neighs, items).value.panels.Some?
  {
    ViewNotEnough(VolumeEngine(t, level, fit), neighs, items);
    ViewNotEnough(SeverityEngine(tables, cases, level, today, fit), neighs, items);
  }

  /** An empty slice does not lead to the not-enough-data view: the engine
      returns two frames with untyped columns, and line 241 raises on them.
      On the page, with its one item, such a neighbourhood makes the
      callback fail. */
  lemma EmptySliceFails(engine: Engine, neighs: seq<string>, item: string)
    requires exists k :: 0 <= k < |neighs| && engine(neighs[k], item) == Frames(Empty)
    ensures ForecastView(engine, neighs, [item]).Err?
  {
    ViewFailsOneItem(engine, neighs, item);
  }

  /** A neighbourhood whose volume slice is empty makes the volume page
      fail: with its untyped frames, or earlier, at the debug read of a
      DEPARTMENT column the table lacks. */
  lemma VolumeEmptySliceFails(t: Table<int>, level: string, fit: Fitter, neighs: seq<string>, item: string)
    requires exists k :: 0 <= k < |neighs| && VolumeForecast.Slice(t, neighs[k], item, level) == Ok([])
    ensures ForecastView(VolumeEngine(t, level, fit), neighs, [item]).Err?
  {
    var k :| 0 <= k < |neighs| && VolumeForecast.Slice(t, neighs[k], item, level) == Ok([]);
    var engine := VolumeEngine(t, level, fit);
    ConfigsValid();
    assert Raises(engine(neighs[k], item));
    ViewFailsOneItem(engine, neighs, item);
  }

  /** A neighbourhood whose severity table is missing or whose severity rows
      are empty makes the severity page fail. */
  lemma SeverityEmptySliceFails(tables: map<string, Table<real>>, cases: CaseTable, level: string,
                                today: int, fit: Fitter, neighs: seq<string>, item: string)
    requires "citywide" in tables
    requires exists k :: 0 <= k < |neighs| && (SeverityForecast.SeveritySlice(tables, neighs[k], item, level).None?
                                               || SeverityForecast.SeveritySlice(tables, neighs[k], item, level) == Some([]))
    ensures ForecastView(SeverityEngine(tables, cases, level, today, fit), neighs, [item]).Err?
  {
    var k :| 0 <= k < |neighs| && (SeverityForecast.SeveritySlice(tables, neighs[k], item, level).None?
                                   || SeverityForecast.SeveritySlice(tables, neighs[k], item, level) == Some([]));
    var engine := SeverityEngine(tables, cases, level, today, fit);
    ConfigsValid();
    assert Raises(engine(neighs[k], item));
    ViewFailsOneItem(engine, neighs, item);
  }

  /** On a volume table without a `LEVEL` column, such as the one the batch
      precompute writes, every call of `get_forecast` raises KeyError, so the
      volume page always fails with that error. */
  lemma VolumeWithoutLevelFails(t: Table<int>, level: string, fit: Fitter, sel: Selection, item: string)
    requires "LEVEL" !in t.columns
    ensures ForecastView(VolumeEngine(t, level, fit), Normalise(sel), SelectedItems(item)) == Err(MissingColumn("LEVEL"))
  {
    var engine := VolumeEngine(t, level, fit);
    var neighs := Normalise(sel);
    ViewFailsOneItem(engine, neighs, item);
    assert Raises(engine(neighs[0], item));
  }

  /** The message of an unreliable forecast without a MAPE. */
  lemma UnscoredMessage(neigh: string, item: string, f: Forecast)
    requires f.reliability == Unreliable && f.mape.None?
    ensures Message(neigh, item, f) == neigh + "/" + item + ": Unreliable (MAPE: N/A)"
  {
    var head := neigh + "/" + item;
    var tail := ": " + "Unreliable" + " (" + "MAPE: N/A" + ")";
    assert tail == ": Unreliable (MAPE: N/A)";
    assert Message(neigh, item, f) == head + tail by {
      assert MapeText(None) == "MAPE: N/A";
    }
  }

  // ------------------------------------- the colour rule as the page writes it

  /** The index of the first ':' of `s`, or |s| when there is none. */
  function ColonAt(s: string): (k: nat)
    ensures k <= |s| && (k < |s| ==> s[k] == ':')
    ensures forall j :: 0 <= j < k ==> s[j] != ':'
  {
    if s == [] || s[0] == ':' then 0 else 1 + ColonAt(s[1..])
  }

  /** The first ':' is the one before which no ':' occurs. */
  lemma ColonAtIs(s: string, k: nat)
    requires k <= |s| && (k < |s| ==> s[k] == ':')
    requires forall j :: 0 <= j < k ==> s[j] != ':'
    ensures ColonAt(s) == k
  {
  }

  /** `s.split(":")[1]`: the text between the first and the second ':' (or
      the end); the source raises IndexError for a string without ':'. */
  function SecondField(s: string): (f: string)
    requires ':' in s
    ensures ':' !in f
  {
    var rest := s[ColonAt(s) + 1..];
    rest[..ColonAt(rest)]
  }

  /** One message, as app/pages/forecast.py:315-318 reads it. */
  predicate ReadsAs(msg: string, prefix: string)
    requires ':' in msg
  {
    StartsWith(Strip(SecondField(msg)), prefix)
  }

  /** app/pages/forecast.py:315-320 as written: the label is taken as the
      stripped second ':'-separated field of each message. */
  function AlertColourAsWritten(msgs: seq<string>): (c: Colour)
    requires forall k :: 0 <= k < |msgs| ==> ':' in msgs[k]
    ensures c == Danger <==> exists k :: 0 <= k < |msgs| && ReadsAs(msgs[k], "Unreliable")
    ensures c == Warning <==> (forall k :: 0 <= k < |msgs| ==> !ReadsAs(msgs[k], "Unreliable"))
                              && exists k :: 0 <= k < |msgs| && ReadsAs(msgs[k], "Possibly Unreliable")
  {
    if exists k :: 0 <= k < |msgs| && ReadsAs(msgs[k], "Unreliable") then Danger
    else if exists k :: 0 <= k < |msgs| && ReadsAs(msgs[k], "Possibly Unreliable") then Warning
    else Info
  }

  /** The field the page reads from `head: lab (MAPE...` when neither the
      head nor the label holds ':'. */
  lemma FieldAfterHead(head: string, lab: string, mape: string)
    requires ':' !in head && ':' !in lab && StartsWith(mape, "MAPE:")
    ensures ':' in head + ": " + lab + " (" + mape + ")"
    ensures SecondField(head + ": " + lab + " (" + mape + ")") == " " + lab + " (MAPE"
  {
    var msg := head + ": " + lab + " (" + mape + ")";
    var field := " " + lab + " (MAPE";
    var tail := mape[4..] + ")";
    assert mape == "MAPE" + mape[4..];
    assert msg == head + ":" + (field + tail);
    assert msg[|head|] == ':';
    ColonAtIs(msg, |head|);
    assert msg[|head| + 1..] == field + tail;
    assert (field + tail)[|field|] == ':';
    ColonAtIs(field + tail, |field|);
    assert (field + tail)[..|field|] == field;
  }

  /** Stripping " lab (MAPE" drops the one leading space. */
  lemma StripField(lab: string)
    requires lab != [] && !IsSpace(lab[0])
    ensures Strip(" " + lab + " (MAPE") == lab + " (MAPE"
  {
    var x := lab + " (MAPE";
    assert " " + lab + " (MAPE" == " " + x;
    assert (" " + x)[1..] == x;
    assert DropSpaces(" " + x) == DropSpaces(x) == x;
    assert x[|x| - 1] == 'E';
    assert DropSpacesEnd(x) == x;
  }

  lemma LabelTextShape(l: Label)
    ensures ':' !in LabelText(l) && LabelText(l) != [] && !IsSpace(LabelText(l)[0])
  {
  }

  lemma MapeTextShape(mape: Option<real>)
    ensures StartsWith(MapeText(mape), "MAPE:")
  {
  }

  /** For names without ':', the field the page reads is the label followed
      by " (MAPE", whatever the MAPE. */
  lemma MessageField(neigh: string, item: string, f: Forecast)
    requires ':' !in neigh && ':' !in item
    ensures ':' in Message(neigh, item, f)
    ensures Strip(SecondField(Message(neigh, item, f))) == LabelText(f.reliability) + " (MAPE"
  {
    var lab := LabelText(f.reliability);
    var head := neigh + "/" + item;
    assert ':' !in head;
    LabelTextShape(f.reliability);
    MapeTextShape(f.mape);
    FieldAfterHead(head, lab, MapeText(f.mape));
    StripField(lab);
  }

  /** A label's text followed by " (MAPE" starts with "Unreliable" only for
      the unreliable label, and with "Possibly Unreliable" only for the
      possibly unreliable one. */
  lemma LabelPrefix(l: Label)
    ensures StartsWith(LabelText(l) + " (MAPE", "Unreliable") <==> l == Unreliable
    ensures StartsWith(LabelText(l) + " (MAPE", "Possibly Unreliable") <==> l == PossiblyUnreliable
  {
    var s := LabelText(l) + " (MAPE";
    if l == Reliable {
      assert s[0] == 'R';
    } else if l == PossiblyUnreliable {
      assert s[0] == 'P';
    } else {
      assert s[..10] == "Unreliable";
    }
  }

  /** Where no neighbourhood or item name holds ':', the rule as written
      agrees with the colour of the labels. */
  lemma AlertColourAsWrittenAgrees(ps: seq<(string, string)>, fs: seq<Forecast>)
    requires |ps| == |fs|
    requires forall k :: 0 <= k < |ps| ==> ':' !in ps[k].0 && ':' !in ps[k].1
    ensures forall k :: 0 <= k < |ps| ==> ':' in Messages(ps, fs)[k]
    ensures AlertColourAsWritten(Messages(ps, fs)) == AlertColour(Labels(fs))
  {
    var msgs := Messages(ps, fs);
    var ls := Labels(fs);
    forall k | 0 <= k < |ps|
      ensures ':' in msgs[k]
      ensures ReadsAs(msgs[k], "Unreliable") <==> ls[k] == Unreliable
      ensures ReadsAs(msgs[k], "Possibly Unreliable") <==> ls[k] == PossiblyUnreliable
    {
      MessageField(ps[k].0, ps[k].1, fs[k]);
      LabelPrefix(fs[k].reliability);
    }
    assert Unreliable in ls <==> exists k :: 0 <= k < |ls| && ls[k] == Unreliable;
    assert PossiblyUnreliable in ls <==> exists k :: 0 <= k < |ls| && ls[k] == PossiblyUnreliable;
  }

  /** The second field of `a:b...` when `b` is followed by ':'. */
  lemma FieldBetween(a: string, b: string, rest: string)
    requires ':' !in a && ':' !in b && rest != [] && rest[0] == ':'
    ensures ':' in a + ":" + b + rest
    ensures SecondField(a + ":" + b + rest) == b
  {
    var msg := a + ":" + b + rest;
    assert msg[|a|] == ':';
    ColonAtIs(msg, |a|);
    assert msg[|a| + 1..] == b + rest;
    assert (b + rest)[|b|] == ':';
    ColonAtIs(b + rest, |b|);
    assert (b + rest)[..|b|] == b;
  }

  /** The message of an unscored unreliable forecast for neighbourhood "A:B"
      and item "X" has "B/X" as its second field. */
  lemma MisreadField(f: Forecast)
    requires f.reliability == Unreliable && f.mape.None?
    ensures ':' in Message("A:B", "X", f)
    ensures SecondField(Message("A:B", "X", f)) == "B/X"
  {
    var tail := ": Unreliable (MAPE: N/A)";
    UnscoredMessage("A:B", "X", f);
    assert Message("A:B", "X", f) == "A" + ":" + "B/X" + tail;
    FieldBetween("A", "B/X", tail);
  }

  /** A ':' in a neighbourhood name shifts the field the page reads: when
      the engine answers neighbourhood "A:B" with an unreliable forecast
      without a MAPE, the page as written shows an info alert, where the
      label calls for the danger colour of the view. */
  lemma ColourMisreadsColon(engine: Engine, f: Forecast)
    requires engine("A:B", "X") == Frames(f) && f.dated
    requires f.reliability == Unreliable && f.mape.None?
    ensures ForecastView(engine, ["A:B"], ["X"]).Ok?
    ensures ForecastView(engine, ["A:B"], ["X"]).value.colour == Danger
    ensures ':' in Message("A:B", "X", f)
    ensures AlertColourAsWritten([Message("A:B", "X", f)]) == Info
  {
    OneSelectionColour(engine, "A:B", "X", f);
    MisreadField(f);
    var msg := Message("A:B", "X", f);
    assert |Strip(SecondField(msg))| <= 3;
    assert !ReadsAs(msg, "Unreliable");
    assert !ReadsAs(msg, "Possibly Unreliable");
  }

  /** A single selection answered with frames with datetimes is shown with
      the colour of its label. */
  lemma OneSelectionColour(engine: Engine, neigh: string, item: string, f: Forecast)
    requires engine(neigh, item) == Frames(f) && f.dated
    ensures ForecastView(engine, [neigh], [item]).Ok?
    ensures ForecastView(engine, [neigh], [item]).value.colour == AlertColour([f.reliability])
  {
    ViewShown(engine, [neigh], [item]);
    PairsOneItem([neigh], item);
    var ps := Pairs([neigh], [item]);
    assert Labels(Results(engine, ps)) == [f.reliability];
  }

  /** The misread is reachable on the volume page: a slice of fewer than
      twelve months is answered with an unscored unreliable forecast. */
  lemma ShortSliceUnscored(t: Table<int>, level: string, fit: Fitter, neigh: string, item: string)
    requires VolumeForecast.Slice(t, neigh, item, level).Ok?
    requires VolumeForecast.Slice(t, neigh, item, level).value != []
    requires |VolumeForecast.VolumeSeries(VolumeForecast.Slice(t, neigh, item, level).value)| < 12
    ensures VolumeEngine(t, level, fit)(neigh, item).Frames?
    ensures var f := VolumeEngine(t, level, fit)(neigh, item).f;
            f.dated && f.reliability == Unreliable && f.mape.None?
  {
    var rows := VolumeForecast.Slice(t, neigh, item, level).value;
    ConfigsValid();
    VolumeForecast.ForecastOfSlice(t, neigh, item, level, VolumeConfig, None, fit);
    ShortCircuit(VolumeForecast.VolumeSeries(rows), VolumeConfig, None, fit, fit);
  }
}