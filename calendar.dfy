/**
 The calendar the whole pipeline is keyed on: months as (year, month) pairs,
 days as (year, month, day) triples in the proleptic Gregorian calendar, and the
 month-start frequency that pandas' `date_range(..., freq='MS')` steps through.
 */
module Calendar {

  datatype YearMonth = YearMonth(year: int, month: int)

  /** A calendar month; month 1 is January. */
  type Month = ym: YearMonth | 1 <= ym.month <= 12 witness YearMonth(2023, 1)

  datatype CalendarDate = CalendarDate(year: int, month: int, day: int)

  predicate IsLeapYear(y: int) {
    (y % 4 == 0 && y % 100 != 0) || y % 400 == 0
  }

  function DaysInMonth(y: int, m: int): int {
    if m == 2 then (if IsLeapYear(y) then 29 else 28)
    else if m == 4 || m == 6 || m == 9 || m == 11 then 30
    else 31
  }

  /** A valid day of the calendar (what a pandas Timestamp carries, without the time of day). */
  type Date = d: CalendarDate | 1 <= d.month <= 12 && 1 <= d.day <= DaysInMonth(d.year, d.month)
    witness CalendarDate(2023, 1, 1)

  /** Months counted from January of year 0: consecutive months have consecutive ordinals. */
  function Ordinal(m: Month): int {
    m.year * 12 + (m.month - 1)
  }

  lemma OrdinalInjective(a: Month, b: Month)
    requires Ordinal(a) == Ordinal(b)
    ensures a == b
  {
  }

  /** The month after `m`: December rolls over into January of the next year. */
  function Next(m: Month): (r: Month)
    ensures Ordinal(r) == Ordinal(m) + 1
  {
    if m.month == 12 then YearMonth(m.year + 1, 1) else YearMonth(m.year, m.month + 1)
  }

  /**
   Every month from `lo` to `hi` inclusive, ascending, one step of `Next` apart;
   empty when `hi` comes before `lo`.
   */
  function MonthRange(lo: Month, hi: Month): (r: seq<Month>)
    ensures |r| == if Ordinal(lo) <= Ordinal(hi) then Ordinal(hi) - Ordinal(lo) + 1 else 0
    ensures forall i :: 0 <= i < |r| ==> Ordinal(r[i]) == Ordinal(lo) + i
    decreases Ordinal(hi) - Ordinal(lo)
  {
    if Ordinal(hi) < Ordinal(lo) then [] else [lo] + MonthRange(Next(lo), hi)
  }

  /** The range holds exactly the months between its bounds, in ascending order with no gaps. */
  lemma MonthRangeExact(lo: Month, hi: Month)
    ensures forall m: Month :: m in MonthRange(lo, hi) <==> Ordinal(lo) <= Ordinal(m) <= Ordinal(hi)
    ensures forall i :: 0 <= i < |MonthRange(lo, hi)| - 1 ==>
      MonthRange(lo, hi)[i + 1] == Next(MonthRange(lo, hi)[i])
    ensures forall i, j :: 0 <= i < j < |MonthRange(lo, hi)| ==>
      Ordinal(MonthRange(lo, hi)[i]) < Ordinal(MonthRange(lo, hi)[j])
  {
    var r := MonthRange(lo, hi);
    forall m: Month | Ordinal(lo) <= Ordinal(m) <= Ordinal(hi)
      ensures m in r
    {
      var i := Ordinal(m) - Ordinal(lo);
      OrdinalInjective(r[i], m);
    }
    forall i | 0 <= i < |r| - 1
      ensures r[i + 1] == Next(r[i])
    {
      OrdinalInjective(r[i + 1], Next(r[i]));
    }
  }

  function MonthOf(d: Date): (m: Month)
    ensures m.year == d.year && m.month == d.month
  {
    YearMonth(d.year, d.month)
  }

  /** The first day of a month (pandas' month-start timestamp). */
  function FirstOfMonth(m: Month): (d: Date)
    ensures MonthOf(d) == m && d.day == 1
  {
    CalendarDate(m.year, m.month, 1)
  }

  /** The last day of a month (the label pandas' `resample('M')` gives a month's bin). */
  function MonthEnd(m: Month): (d: Date)
    ensures MonthOf(d) == m && d.day == DaysInMonth(m.year, m.month)
    ensures d.day >= 28
  {
    CalendarDate(m.year, m.month, DaysInMonth(m.year, m.month))
  }

  /**
   A date moved to the first of its month: `.dt.to_period('M').dt.to_timestamp()`,
   and likewise `Timestamp.replace(day=1)`.
   */
  function Truncate(d: Date): (r: Date)
    ensures MonthOf(r) == MonthOf(d) && r.day == 1
    ensures d.day == 1 ==> r == d
  {
    FirstOfMonth(MonthOf(d))
  }

  /** Two dates fall in the same month exactly when they truncate to the same day. */
  lemma TruncateSameMonth(a: Date, b: Date)
    ensures Truncate(a) == Truncate(b) <==> MonthOf(a) == MonthOf(b)
  {
  }

  /** The earliest month of a non-empty list (`Series.min()` on month-start dates). */
  function EarliestMonth(ms: seq<Month>): (m: Month)
    requires |ms| > 0
    ensures m in ms
    ensures forall x :: x in ms ==> Ordinal(m) <= Ordinal(x)
  {
    if |ms| == 1 then ms[0]
    else
      var rest := EarliestMonth(ms[1..]);
      if Ordinal(ms[0]) <= Ordinal(rest) then ms[0] else rest
  }

  /** The latest month of a non-empty list (`Series.max()` on month-start dates). */
  function LatestMonth(ms: seq<Month>): (m: Month)
    requires |ms| > 0
    ensures m in ms
    ensures forall x :: x in ms ==> Ordinal(x) <= Ordinal(m)
  {
    if |ms| == 1 then ms[0]
    else
      var rest := LatestMonth(ms[1..]);
      if Ordinal(ms[0]) >= Ordinal(rest) then ms[0] else rest
  }
}
