/** Text handling used by the forecasting core: the `_norm_str` cleaning of
    labels (app/utils/forecast_engine.py:30-36) and the `.str.title()` that
    follows it, ASCII case mapping, code-point ordering of strings (Python's
    `sorted` on str), and the number formatting of the homepage summaries. */
module Text {
  import opened Common

  // ------------------------------------------------------------ whitespace

  const NBSP: char := '\U{00A0}'

  /** The characters Python's `str.strip` and the regular expression `\s`
      treat as whitespace. */
  predicate IsSpace(c: char)
  {
    c == ' ' || ('\t' <= c <= '\r') || ('\U{001C}' <= c <= '\U{001F}') || c == '\U{0085}'
    || c == NBSP || c == '\U{1680}' || ('\U{2000}' <= c <= '\U{200A}') || c == '\U{2028}'
    || c == '\U{2029}' || c == '\U{202F}' || c == '\U{205F}' || c == '\U{3000}'
  }

  /** The characters of `s` that are not whitespace, in order. */
  function NonSpace(s: string): string
  {
    if s == [] then [] else (if IsSpace(s[0]) then [] else [s[0]]) + NonSpace(s[1..])
  }

  lemma {:induction false} NonSpaceAppend(a: string, b: string)
    ensures NonSpace(a + b) == NonSpace(a) + NonSpace(b)
  {
    if a == [] {
      assert a + b == b;
    } else {
      assert (a + b)[1..] == a[1..] + b;
      NonSpaceAppend(a[1..], b);
    }
  }

  /** Every whitespace character is a plain space. */
  predicate PlainSpaces(s: string)
  {
    forall i :: 0 <= i < |s| && IsSpace(s[i]) ==> s[i] == ' '
  }

  /** No two neighbouring characters are both whitespace. */
  predicate NoDoubleSpace(s: string)
  {
    forall i, j {:trigger s[i], s[j]} :: 0 <= i < |s| && j == i + 1 < |s| ==> !IsSpace(s[i]) || !IsSpace(s[j])
  }

  /** Whitespace only as single plain spaces, and none at the end. */
  predicate SingleSpaced(s: string)
  {
    PlainSpaces(s) && NoDoubleSpace(s) && (s == [] || !IsSpace(s[|s| - 1]))
  }

  /** The shape `_norm_str` produces: single plain spaces between words,
      nothing to strip at either end. */
  predicate Normal(s: string)
  {
    SingleSpaced(s) && (s == [] || !IsSpace(s[0]))
  }

  /** `.str.replace(" ", " ")`: non-breaking spaces become plain spaces. */
  function ReplaceNbsp(s: string): string
  {
    if s == [] then [] else [if s[0] == NBSP then ' ' else s[0]] + ReplaceNbsp(s[1..])
  }

  lemma {:induction false} ReplaceNbspFacts(s: string)
    ensures |ReplaceNbsp(s)| == |s|
    ensures forall i :: 0 <= i < |s| ==> ReplaceNbsp(s)[i] != NBSP && (IsSpace(ReplaceNbsp(s)[i]) <==> IsSpace(s[i]))
    ensures forall i :: 0 <= i < |s| && !IsSpace(s[i]) ==> ReplaceNbsp(s)[i] == s[i]
    ensures NonSpace(ReplaceNbsp(s)) == NonSpace(s)
  {
    if s != [] {
      var r, rest := ReplaceNbsp(s), ReplaceNbsp(s[1..]);
      ReplaceNbspFacts(s[1..]);
      assert r[1..] == rest;
      assert forall i :: 1 <= i < |s| ==> r[i] == rest[i - 1] && s[i] == s[1..][i - 1];
    }
  }

  /** Leading whitespace removed. */
  function DropSpaces(s: string): (r: string)
    ensures |r| <= |s|
  {
    if s != [] && IsSpace(s[0]) then DropSpaces(s[1..]) else s
  }

  lemma {:induction false} DropSpacesFacts(s: string)
    ensures DropSpaces(s) == s[|s| - |DropSpaces(s)|..]
    ensures DropSpaces(s) == [] || !IsSpace(DropSpaces(s)[0])
    ensures NonSpace(DropSpaces(s)) == NonSpace(s)
  {
    if s != [] && IsSpace(s[0]) {
      var d := DropSpaces(s[1..]);
      DropSpacesFacts(s[1..]);
      assert DropSpaces(s) == d;
      assert s[1..][|s| - 1 - |d|..] == s[|s| - |d|..];
      assert NonSpace(s) == NonSpace(s[1..]);
    } else {
      assert DropSpaces(s) == s;
    }
  }

  /** Trailing whitespace removed. */
  function DropSpacesEnd(s: string): (r: string)
    ensures |r| <= |s|
  {
    if s != [] && IsSpace(s[|s| - 1]) then DropSpacesEnd(s[..|s| - 1]) else s
  }

  lemma {:induction false} DropSpacesEndFacts(s: string)
    ensures DropSpacesEnd(s) == s[..|DropSpacesEnd(s)|]
    ensures DropSpacesEnd(s) == [] || !IsSpace(DropSpacesEnd(s)[|DropSpacesEnd(s)| - 1])
    ensures NonSpace(DropSpacesEnd(s)) == NonSpace(s)
  {
    if s != [] && IsSpace(s[|s| - 1]) {
      DropSpacesEndFacts(s[..|s| - 1]);
      assert s == s[..|s| - 1] + [s[|s| - 1]];
      NonSpaceAppend(s[..|s| - 1], [s[|s| - 1]]);
      assert NonSpace([s[|s| - 1]]) == [];
    }
  }

  /** `.str.replace(r"\s+", " ", regex=True)`: every run of whitespace becomes
      one space (emitted at the last character of the run). */
  function Collapse(s: string): string
  {
    if s == [] then []
    else if IsSpace(s[0]) && |s| > 1 && IsSpace(s[1]) then Collapse(s[1..])
    else [if IsSpace(s[0]) then ' ' else s[0]] + Collapse(s[1..])
  }

  lemma {:induction false} CollapseFacts(s: string)
    ensures (s == []) == (Collapse(s) == [])
    ensures s != [] ==> (IsSpace(s[0]) <==> IsSpace(Collapse(s)[0]))
    ensures PlainSpaces(Collapse(s)) && NoDoubleSpace(Collapse(s))
    ensures NonSpace(Collapse(s)) == NonSpace(s)
  {
    if s != [] {
      var c := Collapse(s[1..]);
      CollapseFacts(s[1..]);
      if IsSpace(s[0]) && |s| > 1 && IsSpace(s[1]) {
        assert NonSpace(s) == NonSpace(s[1..]);
      } else {
        var r := [if IsSpace(s[0]) then ' ' else s[0]] + c;
        assert r == Collapse(s);
        assert r[1..] == c;
        assert PlainSpaces(r) by {
          forall i | 0 <= i < |r| && IsSpace(r[i]) ensures r[i] == ' ' {
            if i > 0 { assert r[i] == c[i - 1]; }
          }
        }
        assert NoDoubleSpace(r) by {
          forall i, j | 0 <= i < |r| && j == i + 1 < |r| ensures !IsSpace(r[i]) || !IsSpace(r[j]) {
            if i > 0 {
              assert r[i] == c[i - 1] && r[j] == c[j - 1];
            } else {
              assert r[j] == c[0] && s[1..][0] == s[1];
            }
          }
        }
      }
    }
  }

  /** `.str.strip()`. */
  function Strip(s: string): string
  {
    DropSpacesEnd(DropSpaces(s))
  }

  /** `_norm_str` (app/utils/forecast_engine.py:30-36): non-breaking spaces to
      spaces, whitespace runs to one space, both ends stripped. The words are
      kept, in order, and the result is in normal form. */
  function NormStr(s: string): (r: string)
    ensures Normal(r)
    ensures NonSpace(r) == NonSpace(s)
  {
    var b := ReplaceNbsp(s);
    var c := Collapse(b);
    ReplaceNbspFacts(s);
    CollapseFacts(b);
    StripNormal(c);
    Strip(c)
  }

  /** Stripping a string without doubled or unusual whitespace leaves it in
      normal form, with the same words. */
  lemma StripNormal(c: string)
    requires PlainSpaces(c) && NoDoubleSpace(c)
    ensures Normal(Strip(c)) && NonSpace(Strip(c)) == NonSpace(c)
  {
    var d := DropSpaces(c);
    var e := DropSpacesEnd(d);
    DropSpacesFacts(c);
    DropSpacesEndFacts(d);
    assert e == c[|c| - |d|..|c| - |d| + |e|];
    SliceSpacing(c, |c| - |d|, |e|);
    if e != [] {
      assert e[0] == d[0];
    }
  }

  /** A slice of a string keeps its plain, non-doubled spaces. */
  lemma SliceSpacing(c: string, k: nat, n: nat)
    requires PlainSpaces(c) && NoDoubleSpace(c) && k + n <= |c|
    ensures PlainSpaces(c[k..k + n]) && NoDoubleSpace(c[k..k + n])
  {
    var e := c[k..k + n];
    forall i | 0 <= i < |e| && IsSpace(e[i]) ensures e[i] == ' ' {
      assert e[i] == c[k + i];
    }
    forall i, j | 0 <= i < |e| && j == i + 1 < |e| ensures !IsSpace(e[i]) || !IsSpace(e[j]) {
      assert e[i] == c[k + i] && e[j] == c[k + j];
    }
  }

  lemma {:induction false} ReplaceNbspNormal(s: string)
    requires forall i :: 0 <= i < |s| ==> s[i] != NBSP
    ensures ReplaceNbsp(s) == s
  {
    if s != [] {
      ReplaceNbspNormal(s[1..]);
    }
  }

  lemma {:induction false} CollapseSingleSpaced(s: string)
    requires SingleSpaced(s)
    ensures Collapse(s) == s
    decreases |s|
  {
    if s != [] {
      var t := s[1..];
      assert SingleSpaced(t) by {
        forall i | 0 <= i < |t| && IsSpace(t[i]) ensures t[i] == ' ' {
          assert t[i] == s[i + 1];
        }
        forall i, j | 0 <= i < |t| && j == i + 1 < |t| ensures !IsSpace(t[i]) || !IsSpace(t[j]) {
          assert t[i] == s[i + 1] && t[j] == s[j + 1];
        }
      }
      CollapseSingleSpaced(t);
      if IsSpace(s[0]) {
        assert |s| > 1 && !IsSpace(s[1]) by {
          if |s| > 1 { assert s[0] == s[0] && s[1] == s[1]; }
        }
      }
    }
  }

  /** A string already in normal form is left alone, so `_norm_str` is idempotent. */
  lemma NormStrFixesNormal(s: string)
    requires Normal(s)
    ensures NormStr(s) == s
  {
    ReplaceNbspNormal(s);
    CollapseSingleSpaced(s);
    assert DropSpaces(s) == s;
    assert DropSpacesEnd(s) == s;
  }

  lemma NormStrIdempotent(s: string)
    ensures NormStr(NormStr(s)) == NormStr(s)
  {
    NormStrFixesNormal(NormStr(s));
  }

  // ------------------------------------------------------ ASCII case maps

  predicate IsLetter(c: char)
  {
    ('a' <= c <= 'z') || ('A' <= c <= 'Z')
  }

  function UpperChar(c: char): char
  {
    if 'a' <= c <= 'z' then (c as int - 32) as char else c
  }

  function LowerChar(c: char): char
  {
    if 'A' <= c <= 'Z' then (c as int + 32) as char else c
  }

  /** Lower-casing forgets an earlier change of case. */
  lemma LowerAfterCase(c: char)
    ensures LowerChar(UpperChar(c)) == LowerChar(c) && LowerChar(LowerChar(c)) == LowerChar(c)
  {
  }

  /** `str.lower` on ASCII letters. */
  function Lower(s: string): (r: string)
    ensures |r| == |s|
  {
    seq(|s|, i requires 0 <= i < |s| => LowerChar(s[i]))
  }

  /** `str.upper` on ASCII letters. */
  function Upper(s: string): (r: string)
    ensures |r| == |s|
  {
    seq(|s|, i requires 0 <= i < |s| => UpperChar(s[i]))
  }

  /** `str.title` from a position whose predecessor is (`prevCased`) or is not a letter. */
  function TitleFrom(s: string, prevCased: bool): string
  {
    if s == [] then []
    else
      var c := s[0];
      [if !IsLetter(c) then c else if prevCased then LowerChar(c) else UpperChar(c)]
      + TitleFrom(s[1..], IsLetter(c))
  }

  /** Title-casing keeps the length, keeps every non-letter, and maps letters to letters. */
  lemma {:induction false} TitleFromFacts(s: string, p: bool)
    ensures |TitleFrom(s, p)| == |s|
    ensures forall i :: 0 <= i < |s| ==> (IsLetter(TitleFrom(s, p)[i]) <==> IsLetter(s[i]))
    ensures forall i :: 0 <= i < |s| && !IsLetter(s[i]) ==> TitleFrom(s, p)[i] == s[i]
  {
    if s != [] {
      var r, rest := TitleFrom(s, p), TitleFrom(s[1..], IsLetter(s[0]));
      TitleFromFacts(s[1..], IsLetter(s[0]));
      assert forall i :: 1 <= i < |s| ==> r[i] == rest[i - 1] && s[i] == s[1..][i - 1];
    }
  }

  /** Each letter that starts a run of letters is upper-case, each letter
      after a letter is lower-case. */
  predicate TitleCased(r: string)
  {
    forall i :: 0 <= i < |r| && IsLetter(r[i]) ==>
      if i > 0 && IsLetter(r[i - 1]) then 'a' <= r[i] <= 'z' else 'A' <= r[i] <= 'Z'
  }

  /** Each letter is upper-cased when it starts a run of letters and
      lower-cased otherwise. */
  lemma {:induction false} TitleFromLetters(s: string, p: bool)
    ensures |TitleFrom(s, p)| == |s|
    ensures forall i :: 0 <= i < |s| && IsLetter(s[i]) ==>
              TitleFrom(s, p)[i] == if (i == 0 && p) || (i > 0 && IsLetter(s[i - 1])) then LowerChar(s[i]) else UpperChar(s[i])
  {
    TitleFromFacts(s, p);
    if s != [] {
      var r, rest := TitleFrom(s, p), TitleFrom(s[1..], IsLetter(s[0]));
      TitleFromLetters(s[1..], IsLetter(s[0]));
      assert forall i :: 1 <= i < |s| ==> r[i] == rest[i - 1] && s[i] == s[1..][i - 1];
      assert forall i :: 1 <= i < |s| - 1 ==> s[1..][i] == s[i + 1];
    }
  }

  /** The title form of a string that starts a word is title-cased and
      differs from it only in the case of its letters. */
  lemma TitleCasedForm(s: string)
    ensures TitleCased(Title(s))
    ensures Lower(Title(s)) == Lower(s)
  {
    var t := TitleFrom(s, false);
    TitleFromFacts(s, false);
    TitleFromLetters(s, false);
    forall i | 0 <= i < |t| && IsLetter(t[i])
      ensures if i > 0 && IsLetter(t[i - 1]) then 'a' <= t[i] <= 'z' else 'A' <= t[i] <= 'Z'
    {
      assert IsLetter(s[i]);
      if i > 0 {
        assert IsLetter(t[i - 1]) == IsLetter(s[i - 1]);
      }
    }
    forall i | 0 <= i < |s| ensures LowerChar(t[i]) == LowerChar(s[i]) {
      if !IsLetter(s[i]) {
        assert t[i] == s[i];
      } else {
        assert t[i] == if (i == 0 && false) || (i > 0 && IsLetter(s[i - 1])) then LowerChar(s[i]) else UpperChar(s[i]);
        LowerAfterCase(s[i]);
      }
    }
  }

  /** `str.title`: the first letter of every word upper-case, the other letters lower-case. */
  function Title(s: string): string
  {
    TitleFrom(s, false)
  }

  lemma {:induction false} TitleFromIdempotent(s: string, p: bool)
    ensures TitleFrom(TitleFrom(s, p), p) == TitleFrom(s, p)
  {
    if s != [] {
      var t := TitleFrom(s, p);
      assert t[1..] == TitleFrom(s[1..], IsLetter(s[0]));
      TitleFromIdempotent(s[1..], IsLetter(s[0]));
    }
  }

  lemma TitleKeepsNormal(s: string)
    requires Normal(s)
    ensures Normal(Title(s))
  {
    var t := Title(s);
    TitleFromFacts(s, false);
    // a character of the title form is whitespace exactly when the original one is
    assert forall i :: 0 <= i < |t| ==> (IsSpace(t[i]) <==> IsSpace(s[i])) && (IsSpace(t[i]) ==> t[i] == s[i]) by {
      forall i | 0 <= i < |t| ensures (IsSpace(t[i]) <==> IsSpace(s[i])) && (IsSpace(t[i]) ==> t[i] == s[i]) {
        if !IsLetter(s[i]) { assert t[i] == s[i]; }
      }
    }
    assert NoDoubleSpace(t) by {
      forall i, j | 0 <= i < |t| && j == i + 1 < |t| ensures !IsSpace(t[i]) || !IsSpace(t[j]) {
        assert IsSpace(t[i]) == IsSpace(s[i]) && IsSpace(t[j]) == IsSpace(s[j]);
      }
    }
  }

  /** The `_CLEAN` form of a label: `_norm_str(...).str.title()`, as used in
      app/utils/forecast_engine.py:45, 82, 260, 264, 348-349, 400, 404. */
  function Clean(s: string): (r: string)
    ensures Normal(r)
    ensures |NonSpace(r)| == |NonSpace(s)|
    ensures TitleCased(r) && Lower(r) == Lower(NormStr(s))
  {
    var n := NormStr(s);
    TitleKeepsNormal(n);
    TitleCasedForm(n);
    TitleFromNonSpace(n, false);
    Title(n)
  }

  lemma {:induction false} TitleFromNonSpace(s: string, p: bool)
    ensures |NonSpace(TitleFrom(s, p))| == |NonSpace(s)|
  {
    if s != [] {
      var t := TitleFrom(s, p);
      TitleFromFacts(s, p);
      assert t[1..] == TitleFrom(s[1..], IsLetter(s[0]));
      assert IsSpace(t[0]) <==> IsSpace(s[0]) by {
        if !IsLetter(s[0]) { assert t[0] == s[0]; }
      }
      TitleFromNonSpace(s[1..], IsLetter(s[0]));
    }
  }

  /** Cleaning a cleaned label changes nothing, so comparing `_CLEAN` columns
      with a cleaned selection is a stable equivalence. */
  lemma CleanIdempotent(s: string)
    ensures Clean(Clean(s)) == Clean(s)
  {
    var c := Clean(s);
    NormStrFixesNormal(c);
    TitleFromIdempotent(NormStr(s), false);
  }

  // --------------------------------------------- ordering of strings

  /** Python's `<` on str: lexicographic by code point. */
  predicate StrLess(a: string, b: string)
  {
    if a == [] then b != []
    else if b == [] then false
    else if a[0] != b[0] then a[0] < b[0]
    else StrLess(a[1..], b[1..])
  }

  lemma {:induction false} StrLessTotal(a: string, b: string)
    requires a != b
    ensures StrLess(a, b) || StrLess(b, a)
  {
    if a != [] && b != [] && a[0] == b[0] {
      assert a == [a[0]] + a[1..] && b == [b[0]] + b[1..];
      StrLessTotal(a[1..], b[1..]);
    }
  }

  lemma {:induction false} StrLessIrreflexive(a: string)
    ensures !StrLess(a, a)
  {
    if a != [] {
      StrLessIrreflexive(a[1..]);
    }
  }

  lemma {:induction false} StrLessTrans(a: string, b: string, c: string)
    requires StrLess(a, b) && StrLess(b, c)
    ensures StrLess(a, c)
  {
    if a != [] && b != [] && c != [] && a[0] == b[0] && b[0] == c[0] {
      StrLessTrans(a[1..], b[1..], c[1..]);
    }
  }

  predicate SortedStrings(s: seq<string>)
  {
    forall i, j :: 0 <= i < j < |s| ==> StrLess(s[i], s[j])
  }

  function InsertString(x: string, s: seq<string>): (r: seq<string>)
    requires SortedStrings(s)
    ensures SortedStrings(r) && Elems(r) == Elems(s) + {x}
  {
    if s == [] then [x]
    else if x == s[0] then s
    else if StrLess(x, s[0]) then
      forall j | 0 <= j < |s| ensures StrLess(x, s[j]) {
        if j > 0 { StrLessTrans(x, s[0], s[j]); }
      }
      ConsSortedStrings(x, s);
      ElemsCons(x, s);
      [x] + s
    else
      StrLessTotal(x, s[0]);
      var t := InsertString(x, s[1..]);
      InsertStringStep(x, s, t);
      [s[0]] + t
  }

  /** Putting the head of `s` back in front of the insertion into its tail. */
  lemma InsertStringStep(x: string, s: seq<string>, t: seq<string>)
    requires SortedStrings(s) && |s| > 0 && StrLess(s[0], x)
    requires SortedStrings(t) && Elems(t) == Elems(s[1..]) + {x}
    ensures SortedStrings([s[0]] + t) && Elems([s[0]] + t) == Elems(s) + {x}
  {
    assert s == [s[0]] + s[1..];
    forall j | 0 <= j < |t| ensures StrLess(s[0], t[j]) {
      assert t[j] in Elems(t);
      if t[j] != x {
        var k :| 0 <= k < |s[1..]| && s[1..][k] == t[j];
        assert s[k + 1] == t[j];
      }
    }
    ConsSortedStrings(s[0], t);
    ElemsCons(s[0], s[1..]);
    ElemsCons(s[0], t);
  }

  lemma ConsSortedStrings(h: string, t: seq<string>)
    requires SortedStrings(t) && forall j :: 0 <= j < |t| ==> StrLess(h, t[j])
    ensures SortedStrings([h] + t)
  {
    var r := [h] + t;
    forall i, j | 0 <= i < j < |r| ensures StrLess(r[i], r[j]) {
      assert r[j] == t[j - 1];
      if i > 0 { assert r[i] == t[i - 1]; }
    }
  }

  /** `sorted(...)` of a collection of strings, without repeats. */
  function SortStrings(xs: seq<string>): (r: seq<string>)
    ensures SortedStrings(r) && Elems(r) == Elems(xs)
  {
    if xs == [] then []
    else
      assert Elems(xs) == Elems(xs[..|xs| - 1]) + {xs[|xs| - 1]};
      InsertString(xs[|xs| - 1], SortStrings(xs[..|xs| - 1]))
  }

  predicate StartsWith(s: string, prefix: string)
  {
    |prefix| <= |s| && s[..|prefix|] == prefix
  }

  // ----------------------------------------------------- number formatting

  function DigitChar(d: int): char
    requires 0 <= d < 10
  {
    ('0' as int + d) as char
  }

  predicate IsDigit(c: char)
  {
    '0' <= c <= '9'
  }

  /** `str(n)` for a natural number. */
  function NatToString(n: nat): (r: string)
    ensures |r| >= 1 && forall i :: 0 <= i < |r| ==> IsDigit(r[i])
    ensures r[0] == '0' ==> n == 0
    decreases n
  {
    if n < 10 then [DigitChar(n)] else NatToString(n / 10) + [DigitChar(n % 10)]
  }

  /** `str(n)` for an integer. */
  function IntToString(n: int): string
  {
    if n < 0 then "-" + NatToString(-n) else NatToString(n)
  }

  /** The value of a string of decimal digits. */
  function ParseDigits(s: string): nat
    requires forall i :: 0 <= i < |s| ==> IsDigit(s[i])
  {
    if s == [] then 0
    else
      assert IsDigit(s[|s| - 1]);
      ParseDigits(s[..|s| - 1]) * 10 + (s[|s| - 1] as int - '0' as int)
  }

  /** Reading back `str(n)` gives `n`. */
  lemma {:induction false} NatToStringRoundTrip(n: nat)
    ensures ParseDigits(NatToString(n)) == n
    decreases n
  {
    if n >= 10 {
      var r := NatToString(n);
      assert r[..|r| - 1] == NatToString(n / 10);
      NatToStringRoundTrip(n / 10);
    }
  }

  /** Round to the nearest integer, ties to even (Python's float formatting). */
  function RoundHalfEven(x: real): (r: int)
    ensures -0.5 <= x - (r as real) <= 0.5
    ensures (x - (r as real) == 0.5 || x - (r as real) == -0.5) ==> r % 2 == 0
    ensures x >= 0.0 ==> r >= 0
  {
    var f := x.Floor;
    var frac := x - (f as real);
    if frac < 0.5 then f
    else if frac > 0.5 then f + 1
    else if f % 2 == 0 then f else f + 1
  }

  /** `f"{x:.0f}"`: the sign, then the digits of the magnitude rounded half to even
      (so -0.4 prints as "-0", as Python does). */
  function FormatFixed0(x: real): string
  {
    var m := if x < 0.0 then -x else x;
    (if x < 0.0 then "-" else "") + NatToString(RoundHalfEven(m))
  }

  /** Digits grouped in threes from the right with commas. */
  function GroupThousands(d: string): (r: string)
    decreases |d|
  {
    if |d| <= 3 then d else GroupThousands(d[..|d| - 3]) + "," + d[|d| - 3..]
  }

  function WithoutCommas(s: string): string
  {
    if s == [] then [] else WithoutCommas(s[..|s| - 1]) + (if s[|s| - 1] == ',' then [] else [s[|s| - 1]])
  }

  lemma {:induction false} WithoutCommasAppend(a: string, b: string)
    ensures WithoutCommas(a + b) == WithoutCommas(a) + WithoutCommas(b)
    decreases |b|
  {
    if b == [] {
      assert a + b == a;
    } else {
      assert (a + b)[..|a + b| - 1] == a + b[..|b| - 1];
      WithoutCommasAppend(a, b[..|b| - 1]);
    }
  }

  lemma {:induction false} WithoutCommasNone(s: string)
    requires forall i :: 0 <= i < |s| ==> s[i] != ','
    ensures WithoutCommas(s) == s
  {
    if s != [] {
      WithoutCommasNone(s[..|s| - 1]);
    }
  }

  /** Grouping only inserts separators: removing the commas gives the digits back. */
  lemma {:induction false} GroupThousandsDigits(d: string)
    requires forall i :: 0 <= i < |d| ==> d[i] != ','
    ensures WithoutCommas(GroupThousands(d)) == d
    decreases |d|
  {
    if |d| <= 3 {
      WithoutCommasNone(d);
    } else {
      var hi, lo := d[..|d| - 3], d[|d| - 3..];
      assert forall i :: 0 <= i < |hi| ==> hi[i] == d[i];
      assert forall i :: 0 <= i < |lo| ==> lo[i] == d[|d| - 3 + i];
      var g := GroupThousands(hi);
      assert GroupThousands(d) == (g + ",") + lo;
      GroupThousandsDigits(hi);
      WithoutCommasNone(lo);
      DropSeparator(g, hi, lo);
      assert hi + lo == d;
    }
  }

  lemma DropSeparator(g: string, hi: string, lo: string)
    requires WithoutCommas(g) == hi && WithoutCommas(lo) == lo
    ensures WithoutCommas((g + ",") + lo) == hi + lo
  {
    WithoutCommasAppend(g + ",", lo);
    WithoutCommasAppend(g, ",");
    assert WithoutCommas(",") == [] by {
      assert ","[..0] == [];
    }
  }

  /** `f"{x:,.0f}"`: as FormatFixed0 with the digits grouped in threes. */
  function FormatGrouped(x: real): string
  {
    var m := if x < 0.0 then -x else x;
    (if x < 0.0 then "-" else "") + GroupThousands(NatToString(RoundHalfEven(m)))
  }

  /** `strftime("%B")`: the English name of month 1..12. */
  function MonthName(month: int): string
    requires 1 <= month <= 12
  {
    ["January", "February", "March", "April", "May", "June", "July",
     "August", "September", "October", "November", "December"][month - 1]
  }
}
