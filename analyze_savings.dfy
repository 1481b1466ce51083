/**
 The savings calculator (scripts/analyze_savings.py): for every calendar month
 present in both 2023 and 2024 of the efficiency table, the raw saving of 2024
 over 2023, the saving normalised by degree days, and the running total of the
 raw savings.
 */
module AnalyzeSavings {
  import opened Calendar
  import opened Frames
  import opened CalculateEfficiency

  /** The year savings are measured against, and the year they are measured in. */
  const BaseYear: int := 2023
  const CompareYear: int := 2024

  /** One row of the savings table; `month` is the calendar month, 1 to 12. */
  datatype SavingsRow = SavingsRow(
    month: int, monthlySavings: real, normalizedSavings: real, runningTotal: real,
    degreeDays2023: Option<real>, degreeDays2024: Option<real>)

  /** The rows dated in year `y`, in table order (`df[df['date'].dt.year == y]`). */
  function InYear(df: seq<EfficiencyRow>, y: int): seq<EfficiencyRow> {
    if df == [] then []
    else (if df[0].date.year == y then [df[0]] else []) + InYear(df[1..], y)
  }

  /** The year's rows are exactly the table's rows dated in that year. */
  lemma {:induction false} InYearMembers(df: seq<EfficiencyRow>, y: int)
    ensures forall x :: x in InYear(df, y) <==> x in df && x.date.year == y
  {
    if df != [] {
      InYearMembers(df[1..], y);
    }
  }

  function RowMonth(r: EfficiencyRow): int {
    r.date.month
  }

  /** The calendar months a table has rows in (`set(rows['date'].dt.month)`). */
  function MonthSet(rows: seq<EfficiencyRow>): set<int> {
    if rows == [] then {} else {RowMonth(rows[0])} + MonthSet(rows[1..])
  }

  /** A month is in the set exactly when some row is dated in it. */
  lemma {:induction false} MonthSetMembers(rows: seq<EfficiencyRow>, m: int)
    ensures m in MonthSet(rows) <==> exists i :: 0 <= i < |rows| && RowMonth(rows[i]) == m
  {
    if rows != [] {
      MonthSetMembers(rows[1..], m);
      if m in MonthSet(rows[1..]) {
        var i :| 0 <= i < |rows[1..]| && RowMonth(rows[1..][i]) == m;
        assert RowMonth(rows[i + 1]) == m;
      }
      if exists i :: 0 <= i < |rows| && RowMonth(rows[i]) == m {
        var i :| 0 <= i < |rows| && RowMonth(rows[i]) == m;
        if i > 0 {
          assert rows[1..][i - 1] == rows[i];
        }
      }
    }
  }

  /** The members of `s` from `from` to 12, ascending (`sorted` on calendar months). */
  function AscendingFrom(s: set<int>, from: int): (ms: seq<int>)
    requires 1 <= from <= 13
    ensures forall m :: m in ms <==> m in s && from <= m <= 12
    ensures forall i, j :: 0 <= i < j < |ms| ==> ms[i] < ms[j]
    decreases 13 - from
  {
    if from == 13 then []
    else
      var rest := AscendingFrom(s, from + 1);
      forall i | 0 <= i < |rest|
        ensures from < rest[i]
      {
        assert rest[i] in rest;
      }
      (if from in s then [from] else []) + rest
  }

  /** `sorted(set(months of 2023) & set(months of 2024))`. */
  function CommonMonths(df: seq<EfficiencyRow>): (ms: seq<int>)
    ensures forall i :: 0 <= i < |ms| ==>
      ms[i] in MonthSet(InYear(df, BaseYear)) && ms[i] in MonthSet(InYear(df, CompareYear))
  {
    var a, b := MonthSet(InYear(df, BaseYear)), MonthSet(InYear(df, CompareYear));
    var ms := AscendingFrom(a * b, 1);
    assert forall i :: 0 <= i < |ms| ==> ms[i] in ms;
    ms
  }

  /**
   The months compared are exactly the calendar months with a row in 2023 and a
   row in 2024, in strictly ascending order; a month of only one year is left out.
   */
  lemma CommonMonthsExact(df: seq<EfficiencyRow>)
    ensures forall m :: m in CommonMonths(df) <==>
      (exists x :: x in df && x.date.year == BaseYear && x.date.month == m) &&
      (exists x :: x in df && x.date.year == CompareYear && x.date.month == m)
    ensures forall i, j :: 0 <= i < j < |CommonMonths(df)| ==> CommonMonths(df)[i] < CommonMonths(df)[j]
  {
    forall y, m
      ensures m in MonthSet(InYear(df, y)) <==> exists x :: x in df && x.date.year == y && x.date.month == m
    {
      MonthSetOfYear(df, y, m);
    }
  }

  lemma MonthSetOfYear(df: seq<EfficiencyRow>, y: int, m: int)
    ensures m in MonthSet(InYear(df, y)) <==> exists x :: x in df && x.date.year == y && x.date.month == m
  {
    var a := InYear(df, y);
    InYearMembers(df, y);
    if exists x :: x in df && x.date.year == y && x.date.month == m {
      var x :| x in df && x.date.year == y && x.date.month == m;
      var i :| 0 <= i < |a| && a[i] == x;
      assert RowMonth(a[i]) == m;
    }
    MonthSetMembers(a, m);
    if m in MonthSet(a) {
      var i :| 0 <= i < |a| && RowMonth(a[i]) == m;
      assert a[i] in a;
    }
  }

  /** The row a year contributes for month `m`: its first row of that month (`.iloc[0]`). */
  function FirstRowOfMonth(rows: seq<EfficiencyRow>, m: int): (r: EfficiencyRow)
    requires m in MonthSet(rows)
    ensures r in rows && RowMonth(r) == m
  {
    MonthSetMembers(rows, m);
    LookupFindsFirst(rows, RowMonth, m);
    Lookup(rows, RowMonth, m).value
  }

  /** When a year has several rows for a month, the one used is the earliest in the table. */
  lemma FirstRowIsEarliest(rows: seq<EfficiencyRow>, m: int)
    requires m in MonthSet(rows)
    ensures exists i :: (0 <= i < |rows| && rows[i] == FirstRowOfMonth(rows, m) &&
                         forall j :: 0 <= j < i ==> RowMonth(rows[j]) != m)
  {
    MonthSetMembers(rows, m);
    LookupFindsFirst(rows, RowMonth, m);
  }

  function TotalCost(r: EfficiencyRow): real {
    r.electricityCost + r.oilCost
  }

  /** A row's degree days, `HDD + CDD`: missing when either is missing. */
  function DegreeDays(r: EfficiencyRow): (dd: Option<real>)
    ensures dd.Some? <==> r.hdd.Some? && r.cdd.Some?
    ensures dd.Some? ==> dd.value - r.cdd.value == r.hdd.value
  {
    AddPresent(r.hdd, r.cdd)
  }

  /**
   The saving adjusted to the weather: when both years have positive degree days,
   the 2023 cost per degree day minus the 2024 one, scaled by the 2024 degree days;
   otherwise the raw saving.
   */
  function NormalizedSavings(cost2023: real, cost2024: real, dd2023: Option<real>, dd2024: Option<real>): (n: real)
    ensures !(Exceeds(dd2023, 0.0) && Exceeds(dd2024, 0.0)) ==> n == cost2023 - cost2024
  {
    if Exceeds(dd2023, 0.0) && Exceeds(dd2024, 0.0) then
      (cost2023 / dd2023.value - cost2024 / dd2024.value) * dd2024.value
    else cost2023 - cost2024
  }

  /**
   With positive degree days in both years, the normalised saving is the 2023
   cost scaled to the 2024 weather, minus the 2024 cost.
   */
  lemma NormalizedSavingsScalesBaseYear(cost2023: real, cost2024: real, dd2023: real, dd2024: real)
    requires dd2023 > 0.0 && dd2024 > 0.0
    ensures NormalizedSavings(cost2023, cost2024, Some(dd2023), Some(dd2024)) * dd2023
         == cost2023 * dd2024 - cost2024 * dd2023
  {
    ScaledDifference(cost2023, cost2024, dd2023, dd2024);
  }

  lemma ScaledDifference(c1: real, c2: real, d1: real, d2: real)
    requires d1 > 0.0 && d2 > 0.0
    ensures (c1 / d1 - c2 / d2) * d2 * d1 == c1 * d2 - c2 * d1
  {
    calc {
      (c1 / d1 - c2 / d2) * d2 * d1;
      (c1 / d1) * d1 * d2 - (c2 / d2) * d2 * d1;
      c1 * d2 - c2 * d1;
    }
  }

  /** Equal positive degree days in both years leave nothing to adjust: the normalised saving is the raw one. */
  lemma SameWeatherNoAdjustment(cost2023: real, cost2024: real, dd: real)
    requires dd > 0.0
    ensures NormalizedSavings(cost2023, cost2024, Some(dd), Some(dd)) == cost2023 - cost2024
  {
    var n := NormalizedSavings(cost2023, cost2024, Some(dd), Some(dd));
    NormalizedSavingsScalesBaseYear(cost2023, cost2024, dd, dd);
    assert n * dd == (cost2023 - cost2024) * dd;
    CancelPositive(n, cost2023 - cost2024, dd);
  }

  lemma CancelPositive(a: real, b: real, d: real)
    requires d > 0.0 && a * d == b * d
    ensures a == b
  {
    assert (a - b) * d == 0.0;
  }

  /** Every month of `months` has a row in both years. */
  predicate Comparable(rows2023: seq<EfficiencyRow>, rows2024: seq<EfficiencyRow>, months: seq<int>) {
    forall i :: 0 <= i < |months| ==> months[i] in MonthSet(rows2023) && months[i] in MonthSet(rows2024)
  }

  /** The raw saving of month `m`: the 2023 cost minus the 2024 cost, electricity and oil together. */
  function RawSavings(rows2023: seq<EfficiencyRow>, rows2024: seq<EfficiencyRow>, m: int): real
    requires m in MonthSet(rows2023) && m in MonthSet(rows2024)
  {
    TotalCost(FirstRowOfMonth(rows2023, m)) - TotalCost(FirstRowOfMonth(rows2024, m))
  }

  /** The raw savings of the first `n` months of `months`, added up. */
  function RawSavingsUpTo(rows2023: seq<EfficiencyRow>, rows2024: seq<EfficiencyRow>, months: seq<int>, n: int): real
    requires Comparable(rows2023, rows2024, months) && 0 <= n <= |months|
  {
    if n == 0 then 0.0
    else RawSavingsUpTo(rows2023, rows2024, months, n - 1) + RawSavings(rows2023, rows2024, months[n - 1])
  }

  /** The savings row of month `m`, given the running total it carries. */
  function SavingsRowOf(rows2023: seq<EfficiencyRow>, rows2024: seq<EfficiencyRow>, m: int, runningTotal: real): (r: SavingsRow)
    requires m in MonthSet(rows2023) && m in MonthSet(rows2024)
    ensures r.month == m && r.runningTotal == runningTotal
    ensures r.monthlySavings == RawSavings(rows2023, rows2024, m)
    ensures var a, b := FirstRowOfMonth(rows2023, m), FirstRowOfMonth(rows2024, m);
      && r.degreeDays2023 == DegreeDays(a) && r.degreeDays2024 == DegreeDays(b)
      && r.normalizedSavings == NormalizedSavings(TotalCost(a), TotalCost(b), DegreeDays(a), DegreeDays(b))
  {
    var data2023, data2024 := FirstRowOfMonth(rows2023, m), FirstRowOfMonth(rows2024, m);
    var cost2023, cost2024 := TotalCost(data2023), TotalCost(data2024);
    SavingsRow(m, cost2023 - cost2024,
      NormalizedSavings(cost2023, cost2024, DegreeDays(data2023), DegreeDays(data2024)),
      runningTotal, DegreeDays(data2023), DegreeDays(data2024))
  }

  /** The savings rows of the first `n` months of `months`. */
  function SavingsUpTo(rows2023: seq<EfficiencyRow>, rows2024: seq<EfficiencyRow>, months: seq<int>, n: int): (t: seq<SavingsRow>)
    requires Comparable(rows2023, rows2024, months) && 0 <= n <= |months|
    ensures |t| == n
  {
    if n == 0 then []
    else
      SavingsUpTo(rows2023, rows2024, months, n - 1) +
      [SavingsRowOf(rows2023, rows2024, months[n - 1], RawSavingsUpTo(rows2023, rows2024, months, n))]
  }

  /** The common months are comparable: each has a row in both years. */
  lemma CommonMonthsComparable(df: seq<EfficiencyRow>)
    ensures Comparable(InYear(df, BaseYear), InYear(df, CompareYear), CommonMonths(df))
  {
  }

  /** The savings table of `df`: one row per common month, in ascending month order. */
  function SavingsTable(df: seq<EfficiencyRow>): (t: seq<SavingsRow>)
    ensures |t| == |CommonMonths(df)|
  {
    CommonMonthsComparable(df);
    var months := CommonMonths(df);
    SavingsUpTo(InYear(df, BaseYear), InYear(df, CompareYear), months, |months|)
  }

  /**
   `calculate_monthly_savings`: one row per compared month, in ascending month
   order, carrying the running total of the raw savings so far.
   */
  method CalculateMonthlySavings(df: seq<EfficiencyRow>) returns (savings: seq<SavingsRow>)
    ensures savings == SavingsTable(df)
  {
    var rows2023 := InYear(df, BaseYear);
    var rows2024 := InYear(df, CompareYear);
    var months := AscendingFrom(MonthSet(rows2023) * MonthSet(rows2024), 1);
    CommonMonthsComparable(df);
    savings := AccumulateSavings(rows2023, rows2024, months);
  }

  /**
   One month of `calculate_monthly_savings`: the raw saving of the 2024 row over
   the 2023 row, their degree days, and the saving normalised by degree days.
   */
  method MonthSavings(data2023: EfficiencyRow, data2024: EfficiencyRow)
    returns (monthlySavings: real, normalizedSavings: real, dd2023: Option<real>, dd2024: Option<real>)
    ensures monthlySavings == TotalCost(data2023) - TotalCost(data2024)
    ensures dd2023 == DegreeDays(data2023) && dd2024 == DegreeDays(data2024)
    ensures normalizedSavings == NormalizedSavings(TotalCost(data2023), TotalCost(data2024), dd2023, dd2024)
  {
    var cost2023 := TotalCost(data2023);
    var cost2024 := TotalCost(data2024);
    monthlySavings := cost2023 - cost2024;
    dd2023 := AddPresent(data2023.hdd, data2023.cdd);
    dd2024 := AddPresent(data2024.hdd, data2024.cdd);
    if Exceeds(dd2023, 0.0) && Exceeds(dd2024, 0.0) {
      normalizedSavings := (cost2023 / dd2023.value - cost2024 / dd2024.value) * dd2024.value;
    } else {
      normalizedSavings := monthlySavings;
    }
  }

  /**
   The loop of `calculate_monthly_savings` over the compared months: each month's
   first 2023 and 2024 rows give its raw and normalised savings, and the raw
   savings are added to the running total.
   */
  method AccumulateSavings(rows2023: seq<EfficiencyRow>, rows2024: seq<EfficiencyRow>, months: seq<int>)
    returns (savings: seq<SavingsRow>)
    requires Comparable(rows2023, rows2024, months)
    ensures savings == SavingsUpTo(rows2023, rows2024, months, |months|)
  {
    savings := [];
    var runningTotal := 0.0;
    for k := 0 to |months|
      invariant savings == SavingsUpTo(rows2023, rows2024, months, k)
      invariant runningTotal == RawSavingsUpTo(rows2023, rows2024, months, k)
    {
      var month := months[k];
      var data2023 := FirstRowOfMonth(rows2023, month);
      var data2024 := FirstRowOfMonth(rows2024, month);
      var monthlySavings, normalizedSavings, dd2023, dd2024 := MonthSavings(data2023, data2024);
      runningTotal := runningTotal + monthlySavings;
      savings := savings + [SavingsRow(month, monthlySavings, normalizedSavings, runningTotal, dd2023, dd2024)];
    }
  }

  // ---------------------------------------------------------------- properties

  /** The raw savings column of a savings table, added up. */
  function TotalMonthlySavings(rows: seq<SavingsRow>): real {
    if rows == [] then 0.0 else TotalMonthlySavings(rows[..|rows| - 1]) + rows[|rows| - 1].monthlySavings
  }

  /** Row `k` of a partial table is the row of its month, carrying the first `k + 1` raw savings. */
  lemma {:induction false} SavingsUpToRows(rows2023: seq<EfficiencyRow>, rows2024: seq<EfficiencyRow>, months: seq<int>, n: int)
    requires Comparable(rows2023, rows2024, months) && 0 <= n <= |months|
    ensures forall k :: 0 <= k < n ==>
      SavingsUpTo(rows2023, rows2024, months, n)[k]
      == SavingsRowOf(rows2023, rows2024, months[k], RawSavingsUpTo(rows2023, rows2024, months, k + 1))
  {
    if n > 0 {
      SavingsUpToRows(rows2023, rows2024, months, n - 1);
    }
  }

  /** The raw savings of a partial table, added up, are the running total it ends on. */
  lemma {:induction false} SavingsUpToTotal(rows2023: seq<EfficiencyRow>, rows2024: seq<EfficiencyRow>, months: seq<int>, n: int)
    requires Comparable(rows2023, rows2024, months) && 0 <= n <= |months|
    ensures TotalMonthlySavings(SavingsUpTo(rows2023, rows2024, months, n)) == RawSavingsUpTo(rows2023, rows2024, months, n)
  {
    if n > 0 {
      SavingsUpToTotal(rows2023, rows2024, months, n - 1);
      var t := SavingsUpTo(rows2023, rows2024, months, n);
      assert t[..n - 1] == SavingsUpTo(rows2023, rows2024, months, n - 1);
    }
  }

  /** A partial table is a prefix of a longer one. */
  lemma {:induction false} SavingsUpToPrefix(rows2023: seq<EfficiencyRow>, rows2024: seq<EfficiencyRow>, months: seq<int>, k: int, n: int)
    requires Comparable(rows2023, rows2024, months) && 0 <= k <= n <= |months|
    ensures SavingsUpTo(rows2023, rows2024, months, n)[..k] == SavingsUpTo(rows2023, rows2024, months, k)
    decreases n
  {
    if k < n {
      SavingsUpToPrefix(rows2023, rows2024, months, k, n - 1);
      var t := SavingsUpTo(rows2023, rows2024, months, n);
      assert t[..k] == t[..n - 1][..k];
    }
  }

  /**
   Each row's running total is the sum of the raw savings (never the normalised
   ones) of that row and every row before it; the last one is the whole column's sum.
   */
  lemma RunningTotalIsPrefixSum(rows2023: seq<EfficiencyRow>, rows2024: seq<EfficiencyRow>, months: seq<int>)
    requires Comparable(rows2023, rows2024, months)
    ensures var t := SavingsUpTo(rows2023, rows2024, months, |months|);
      forall k :: 0 <= k < |t| ==> t[k].runningTotal == TotalMonthlySavings(t[..k + 1])
    ensures var t := SavingsUpTo(rows2023, rows2024, months, |months|);
      |t| > 0 ==> t[|t| - 1].runningTotal == TotalMonthlySavings(t)
  {
    var t := SavingsUpTo(rows2023, rows2024, months, |months|);
    forall k | 0 <= k < |t|
      ensures t[k].runningTotal == TotalMonthlySavings(t[..k + 1])
    {
      SavingsUpToPrefix(rows2023, rows2024, months, k + 1, |months|);
      SavingsUpToTotal(rows2023, rows2024, months, k + 1);
      assert t[k] == t[..k + 1][k];
    }
    if |t| > 0 {
      assert t[..|t|] == t;
    }
  }

  /** The savings table's running totals are the prefix sums of its raw savings. */
  lemma SavingsTableRunningTotal(df: seq<EfficiencyRow>)
    ensures var t := SavingsTable(df);
      forall k :: 0 <= k < |t| ==> t[k].runningTotal == TotalMonthlySavings(t[..k + 1])
  {
    CommonMonthsComparable(df);
    RunningTotalIsPrefixSum(InYear(df, BaseYear), InYear(df, CompareYear), CommonMonths(df));
  }

  /**
   Each row compares the first 2023 and the first 2024 row of its month (the
   earliest of that month in each year's rows): its raw saving is their cost
   difference, its normalised saving is computed from their costs and degree
   days, its degree days are theirs, and its month is strictly after the
   previous row's.
   */
  lemma SavingsRowsCompareTheirMonth(df: seq<EfficiencyRow>, k: int)
    requires 0 <= k < |SavingsTable(df)|
    ensures var r := SavingsTable(df)[k];
      && r.month in MonthSet(InYear(df, BaseYear)) && r.month in MonthSet(InYear(df, CompareYear))
      && var a, b := FirstRowOfMonth(InYear(df, BaseYear), r.month), FirstRowOfMonth(InYear(df, CompareYear), r.month);
        && a in df && a.date.year == BaseYear && a.date.month == r.month
        && b in df && b.date.year == CompareYear && b.date.month == r.month
        && r.monthlySavings == (a.electricityCost + a.oilCost) - (b.electricityCost + b.oilCost)
        && r.normalizedSavings == NormalizedSavings(TotalCost(a), TotalCost(b), DegreeDays(a), DegreeDays(b))
        && r.degreeDays2023 == DegreeDays(a) && r.degreeDays2024 == DegreeDays(b)
    ensures k > 0 ==> SavingsTable(df)[k - 1].month < SavingsTable(df)[k].month
  {
    CommonMonthsComparable(df);
    var rows2023, rows2024, months := InYear(df, BaseYear), InYear(df, CompareYear), CommonMonths(df);
    SavingsUpToRows(rows2023, rows2024, months, |months|);
    var a, b := FirstRowOfMonth(rows2023, months[k]), FirstRowOfMonth(rows2024, months[k]);
    InYearMembers(df, BaseYear);
    InYearMembers(df, CompareYear);
    assert a in df && b in df;
    CommonMonthsExact(df);
  }

  /**
   Without positive degree days in both years (missing weather included) the
   normalised saving of a row is its raw one.
   */
  lemma NoWeatherNoAdjustment(rows2023: seq<EfficiencyRow>, rows2024: seq<EfficiencyRow>, m: int, runningTotal: real)
    requires m in MonthSet(rows2023) && m in MonthSet(rows2024)
    requires var r := SavingsRowOf(rows2023, rows2024, m, runningTotal);
      !Exceeds(r.degreeDays2023, 0.0) || !Exceeds(r.degreeDays2024, 0.0)
    ensures var r := SavingsRowOf(rows2023, rows2024, m, runningTotal);
      r.normalizedSavings == r.monthlySavings
  {
  }
}
