/**
 * Calendar dates and the `Month` key that cleaning derives from them with
 * `strftime('%Y-%m')`.
 */
module Dates {

  import opened Wrappers
  import opened Text

  /** A date as written in the `Date` column; it may name a day that does not exist. */
  datatype Date = Date(year: int, month: int, day: int)

  predicate IsLeapYear(y: int)
  {
    y % 4 == 0 && (y % 100 != 0 || y % 400 == 0)
  }

  function DaysInMonth(y: int, m: int): (n: nat)
    requires 1 <= m <= 12
    ensures 28 <= n <= 31
  {
    if m == 2 then (if IsLeapYear(y) then 29 else 28)
    else if m == 4 || m == 6 || m == 9 || m == 11 then 30
    else 31
  }

  /** A proleptic Gregorian date whose year has exactly four digits. */
  predicate ValidDate(d: Date)
  {
    1000 <= d.year <= 9999 && 1 <= d.month <= 12 && 1 <= d.day <= DaysInMonth(d.year, d.month)
  }

  /** `Month`: the four-digit year, a dash and the two-digit month. */
  function MonthKey(d: Date): (key: string)
    requires ValidDate(d)
    ensures |key| == 7 && key[4] == '-'
  {
    Padded(d.year, 4) + ['-'] + Padded(d.month, 2)
  }

  /** Reads a `YYYY-MM` key back into its year and month. */
  function ParseMonthKey(key: string): (r: Option<(int, int)>)
    ensures r.Some? ==> |key| == 7
  {
    if |key| == 7 && key[4] == '-' && AllDigits(key[..4]) && AllDigits(key[5..]) then
      Some((ParseDigits(key[..4]) as int, ParseDigits(key[5..]) as int))
    else
      None
  }

  /** The key keeps exactly the year and the month of the date. */
  lemma MonthKeyRoundTrip(d: Date)
    requires ValidDate(d)
    ensures ParseMonthKey(MonthKey(d)) == Some((d.year, d.month))
  {
    var key := MonthKey(d);
    assert key[..4] == Padded(d.year, 4);
    assert key[5..] == Padded(d.month, 2);
  }

  /** Two valid dates get the same key exactly when they fall in the same
    * month of the same year; so grouping by `Month` groups by calendar month. */
  lemma MonthKeyInjective(d1: Date, d2: Date)
    requires ValidDate(d1) && ValidDate(d2)
    ensures MonthKey(d1) == MonthKey(d2) <==> d1.year == d2.year && d1.month == d2.month
  {
    MonthKeyRoundTrip(d1);
    MonthKeyRoundTrip(d2);
  }

  lemma MonthKeyExample(day: int)
    requires 1 <= day <= 31
    ensures MonthKey(Date(2024, 1, day)) == "2024-01"
  {
    YearExample();
    assert Padded(0, 1) == "0";
    assert Padded(1, 2) == "01";
  }

  lemma YearExample()
    ensures Padded(2024, 4) == "2024"
  {
    assert Padded(2, 1) == "2";
    assert Padded(20, 2) == "20";
    assert Padded(202, 3) == "202";
  }
}
