/** Calendar arithmetic. Every `ds` of the core is a month-end timestamp, so a
    month is represented by its index `12 * year + (month - 1)`; raw case
    timestamps (CREATED DATE, CLOSED DATE) keep day and second because the
    closure-rate window compares them against midnight of a month's last day. */
module Calendar {
  import opened Common
  import opened Text

  predicate IsLeap(year: int)
  {
    (year % 4 == 0 && year % 100 != 0) || year % 400 == 0
  }

  function DaysIn(year: int, month: int): (d: int)
    requires 1 <= month <= 12
    ensures 28 <= d <= 31
  {
    if month == 2 then (if IsLeap(year) then 29 else 28)
    else if month == 4 || month == 6 || month == 9 || month == 11 then 30
    else 31
  }

  /** A timestamp to the second. */
  datatype Timestamp = Timestamp(year: int, month: int, day: int, second: int)

  predicate ValidStamp(t: Timestamp)
  {
    1 <= t.month <= 12 && 1 <= t.day <= DaysIn(t.year, t.month) && 0 <= t.second < 86400
  }

  function MonthIndex(year: int, month: int): int
  {
    12 * year + (month - 1)
  }

  /** The month a timestamp falls in (`.dt.to_period("M")`). */
  function MonthOf(t: Timestamp): int
  {
    MonthIndex(t.year, t.month)
  }

  function YearOf(m: int): int
  {
    m / 12
  }

  function MonthNumberOf(m: int): (k: int)
    ensures 1 <= k <= 12
    ensures MonthIndex(YearOf(m), k) == m
  {
    m % 12 + 1
  }

  /** Midnight on the first day of month `m` (`month_end.replace(day=1)`). */
  function MonthStart(m: int): (t: Timestamp)
    ensures ValidStamp(t) && MonthOf(t) == m && t.day == 1 && t.second == 0
  {
    Timestamp(YearOf(m), MonthNumberOf(m), 1, 0)
  }

  /** Midnight on the last day of month `m`: the month-end label `ds` of month `m`. */
  function MonthEnd(m: int): (t: Timestamp)
    ensures ValidStamp(t) && MonthOf(t) == m && t.second == 0
    ensures t.day == DaysIn(t.year, t.month)
  {
    var y, k := YearOf(m), MonthNumberOf(m);
    Timestamp(y, k, DaysIn(y, k), 0)
  }

  /** A number that orders valid timestamps chronologically. */
  function Key(t: Timestamp): int
  {
    (MonthOf(t) * 32 + t.day) * 86400 + t.second
  }

  predicate AtOrBefore(a: Timestamp, b: Timestamp)
  {
    Key(a) <= Key(b)
  }

  lemma EarlierMonthEarlierKey(a: Timestamp, b: Timestamp)
    requires ValidStamp(a) && ValidStamp(b) && MonthOf(a) < MonthOf(b)
    ensures Key(a) < Key(b)
  {
    assert Key(a) <= (MonthOf(a) * 32 + 31) * 86400 + 86399;
    assert (MonthOf(a) * 32 + 32) * 86400 <= (MonthOf(b) * 32 + 1) * 86400;
  }

  /** A valid timestamp lies in month `m` exactly when it is at or after the
      first midnight of `m` and before the first midnight of `m + 1`. */
  lemma MonthOfWindow(t: Timestamp, m: int)
    requires ValidStamp(t)
    ensures MonthOf(t) == m <==> (AtOrBefore(MonthStart(m), t) && !AtOrBefore(MonthStart(m + 1), t))
  {
    if MonthOf(t) < m {
      EarlierMonthEarlierKey(t, MonthStart(m));
    } else if MonthOf(t) > m {
      EarlierMonthEarlierKey(MonthStart(m), t);
      if MonthOf(t) > m + 1 {
        EarlierMonthEarlierKey(MonthStart(m + 1), t);
      }
    }
  }

  /** Two-digit month number, as `%m` prints it. */
  function TwoDigits(k: int): (r: string)
    requires 1 <= k <= 12
    ensures |r| == 2 && IsDigit(r[0]) && IsDigit(r[1])
  {
    [DigitChar(k / 10), DigitChar(k % 10)]
  }

  /** `ds.strftime("%Y-%m")` for a month of a year from 0 on. */
  function YearMonthStr(m: int): (r: string)
    requires m >= 0
  {
    NatToString(YearOf(m)) + "-" + TwoDigits(MonthNumberOf(m))
  }

  /** Reads a `%Y-%m` label back into a month index. */
  function ParseYearMonth(s: string): Option<int>
  {
    if |s| < 4 || s[|s| - 3] != '-' || !IsDigit(s[|s| - 2]) || !IsDigit(s[|s| - 1]) then None
    else if exists i :: 0 <= i < |s| - 3 && !IsDigit(s[i]) then None
    else
      var k := (s[|s| - 2] as int - '0' as int) * 10 + (s[|s| - 1] as int - '0' as int);
      Some(MonthIndex(ParseDigits(s[..|s| - 3]), k))
  }

  /** The `YearMonthStr` label of a month determines the month, so labels of
      different months differ. */
  lemma YearMonthStrRoundTrip(m: int)
    requires m >= 0
    ensures ParseYearMonth(YearMonthStr(m)) == Some(m)
  {
    var y := NatToString(YearOf(m));
    var s := YearMonthStr(m);
    assert s[..|s| - 3] == y;
    assert forall i :: 0 <= i < |s| - 3 ==> s[i] == y[i];
    NatToStringRoundTrip(YearOf(m));
  }
}
