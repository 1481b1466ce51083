/**
 The efficiency calculator (scripts/calculate_efficiency.py): monthly utility
 costs left-joined with monthly weather on the first day of the month, and the
 cost per heating, cooling and total degree day, each computed only when its
 degree days exceed 5 and 0 otherwise.
 */
module CalculateEfficiency {
  import opened Calendar
  import opened Frames
  import opened FetchWeather

  /** One row of the utility cost table. */
  datatype UtilityRow = UtilityRow(date: Date, electricityCost: real, oilCost: real)

  /**
   One row of the efficiency table: the utility columns, the weather columns
   (missing when no weather row matched), then the derived columns in the order
   they are added.
   */
  datatype EfficiencyRow = EfficiencyRow(
    date: Date, electricityCost: real, oilCost: real,
    tavg: Option<real>, tmin: Option<real>, tmax: Option<real>, prcp: Option<real>, snow: Option<real>,
    hdd: Option<real>, cdd: Option<real>,
    heatingDays: bool, costPerHdd: real, coolingDays: bool, costPerCdd: real,
    totalDd: Option<real>, costPerDd: real)

  /** Degree days at or below this are too few for a meaningful cost ratio. */
  const MinDegreeDays: real := 5.0

  /** A cost per heating degree day above this is reported as suspicious. */
  const SuspiciousCostPerHdd: real := 10.0

  /** `x > bound` on a column that may hold NaN: false for a missing value. */
  predicate Exceeds(x: Option<real>, bound: real) {
    x.Some? && x.value > bound
  }

  /**
   A cost ratio after `fillna(0)`: the cost over the degree days when they exceed
   5, and 0 when they do not or are missing.
   */
  function GuardedRatio(cost: real, degreeDays: Option<real>): (r: real)
    ensures Exceeds(degreeDays, MinDegreeDays) ==> r * degreeDays.value == cost
    ensures !Exceeds(degreeDays, MinDegreeDays) ==> r == 0.0
  {
    if Exceeds(degreeDays, MinDegreeDays) then cost / degreeDays.value else 0.0
  }

  /** The sum of two columns: missing when either value is missing. */
  function AddPresent(a: Option<real>, b: Option<real>): (r: Option<real>)
    ensures r.Some? <==> a.Some? && b.Some?
    ensures r.Some? ==> r.value - b.value == a.value
  {
    if a.Some? && b.Some? then Some(a.value + b.value) else None
  }

  /** A weather cell after the left join: the matched row's value, or missing. */
  function Joined(w: Option<MonthlyWeather>, col: MonthlyWeather -> real): (r: Option<real>)
    ensures r.Some? <==> w.Some?
    ensures r.Some? ==> r.value == col(w.value)
  {
    if w.Some? then Some(col(w.value)) else None
  }

  function WeatherHdd(w: MonthlyWeather): real {
    w.hdd
  }

  function WeatherCdd(w: MonthlyWeather): real {
    w.cdd
  }

  function WeatherPrcp(w: MonthlyWeather): real {
    w.prcp
  }

  function WeatherSnow(w: MonthlyWeather): real {
    w.snow
  }

  /**
   The derived columns of one joined row: the heating and cooling flags, the total
   degree days, and the three guarded ratios; cooling cost counts electricity only.
   */
  function EfficiencyRowOf(u: UtilityRow, w: Option<MonthlyWeather>): (r: EfficiencyRow)
    ensures r.date == u.date && r.electricityCost == u.electricityCost && r.oilCost == u.oilCost
    ensures w.None? ==> r.tavg.None? && r.tmin.None? && r.tmax.None?
    ensures w.Some? ==> r.tavg == w.value.tavg && r.tmin == w.value.tmin && r.tmax == w.value.tmax
    ensures r.prcp == Joined(w, WeatherPrcp) && r.snow == Joined(w, WeatherSnow)
    ensures r.hdd == Joined(w, WeatherHdd) && r.cdd == Joined(w, WeatherCdd)
    ensures r.heatingDays <==> Exceeds(r.hdd, 0.0)
    ensures r.coolingDays <==> Exceeds(r.cdd, 0.0)
    ensures r.totalDd == AddPresent(r.hdd, r.cdd)
    ensures r.costPerHdd == GuardedRatio(u.electricityCost + u.oilCost, r.hdd)
    ensures r.costPerCdd == GuardedRatio(u.electricityCost, r.cdd)
    ensures r.costPerDd == GuardedRatio(u.electricityCost + u.oilCost, r.totalDd)
  {
    var hdd := Joined(w, WeatherHdd);
    var cdd := Joined(w, WeatherCdd);
    var total := AddPresent(hdd, cdd);
    var cost := u.electricityCost + u.oilCost;
    EfficiencyRow(
      u.date, u.electricityCost, u.oilCost,
      if w.Some? then w.value.tavg else None,
      if w.Some? then w.value.tmin else None,
      if w.Some? then w.value.tmax else None,
      Joined(w, WeatherPrcp), Joined(w, WeatherSnow),
      hdd, cdd,
      Exceeds(hdd, 0.0), GuardedRatio(cost, hdd),
      Exceeds(cdd, 0.0), GuardedRatio(u.electricityCost, cdd),
      total, GuardedRatio(cost, total))
  }

  function UtilityDate(u: UtilityRow): Date {
    u.date
  }

  function WeatherDate(w: MonthlyWeather): Date {
    w.time
  }

  /** The utility rows with their dates moved to the first of the month. */
  function TruncateUtility(rows: seq<UtilityRow>): (r: seq<UtilityRow>)
    ensures |r| == |rows|
    ensures forall i :: 0 <= i < |rows| ==> r[i] == rows[i].(date := Truncate(rows[i].date))
  {
    seq(|rows|, i requires 0 <= i < |rows| => rows[i].(date := Truncate(rows[i].date)))
  }

  /** The weather rows with their `time` label (renamed `date`) moved to the first of the month. */
  function TruncateWeather(rows: seq<MonthlyWeather>): (r: seq<MonthlyWeather>)
    ensures |r| == |rows|
    ensures forall i :: 0 <= i < |rows| ==> r[i] == rows[i].(time := Truncate(rows[i].time))
  {
    seq(|rows|, i requires 0 <= i < |rows| => rows[i].(time := Truncate(rows[i].time)))
  }

  /**
   The table `calculate_efficiency_metrics` returns: both tables' dates truncated
   to the month, the utility table left-joined with the weather on the date, and
   the derived columns added to each joined row.
   */
  function EfficiencyTable(utility: seq<UtilityRow>, weather: seq<MonthlyWeather>): (df: seq<EfficiencyRow>)
    ensures |df| >= |utility|
    ensures forall i :: 0 <= i < |df| ==> exists k :: 0 <= k < |utility| && FromUtilityRow(df[i], utility[k])
    ensures forall i :: 0 <= i < |df| ==> WeatherOfItsMonth(df[i], weather)
    ensures forall i :: 0 <= i < |df| ==> DerivedColumns(df[i])
  {
    var joined := LeftJoin(TruncateUtility(utility), UtilityDate, TruncateWeather(weather), WeatherDate);
    RowsFromUtility(utility, weather, joined);
    RowsWithWeatherOfTheirMonth(utility, weather, joined);
    RowsHaveDerivedColumns(joined);
    EfficiencyRows(joined)
  }

  lemma RowsHaveDerivedColumns(joined: seq<(UtilityRow, Option<MonthlyWeather>)>)
    ensures var rows := EfficiencyRows(joined);
      forall i :: 0 <= i < |rows| ==> DerivedColumns(rows[i])
  {
    var rows := EfficiencyRows(joined);
    forall i | 0 <= i < |rows|
      ensures DerivedColumns(rows[i])
    {
      assert rows[i] == EfficiencyRowOf(joined[i].0, joined[i].1);
    }
  }

  lemma RowsFromUtility(utility: seq<UtilityRow>, weather: seq<MonthlyWeather>, joined: seq<(UtilityRow, Option<MonthlyWeather>)>)
    requires joined == LeftJoin(TruncateUtility(utility), UtilityDate, TruncateWeather(weather), WeatherDate)
    ensures var rows := EfficiencyRows(joined);
      forall i :: 0 <= i < |rows| ==> exists k :: 0 <= k < |utility| && FromUtilityRow(rows[i], utility[k])
  {
    var left := TruncateUtility(utility);
    var rows := EfficiencyRows(joined);
    LeftJoinRows(left, UtilityDate, TruncateWeather(weather), WeatherDate);
    forall i | 0 <= i < |rows|
      ensures exists k :: 0 <= k < |utility| && FromUtilityRow(rows[i], utility[k])
    {
      var k :| 0 <= k < |left| && left[k] == joined[i].0;
      assert FromUtilityRow(rows[i], utility[k]);
    }
  }

  lemma RowsWithWeatherOfTheirMonth(utility: seq<UtilityRow>, weather: seq<MonthlyWeather>, joined: seq<(UtilityRow, Option<MonthlyWeather>)>)
    requires joined == LeftJoin(TruncateUtility(utility), UtilityDate, TruncateWeather(weather), WeatherDate)
    ensures var rows := EfficiencyRows(joined);
      forall i :: 0 <= i < |rows| ==> WeatherOfItsMonth(rows[i], weather)
  {
    var right := TruncateWeather(weather);
    var rows := EfficiencyRows(joined);
    LeftJoinRows(TruncateUtility(utility), UtilityDate, right, WeatherDate);
    forall i | 0 <= i < |rows|
      ensures WeatherOfItsMonth(rows[i], weather)
    {
      var w := joined[i].1;
      if w.Some? {
        var j :| 0 <= j < |right| && right[j] == w.value;
        TruncateSameMonth(weather[j].time, rows[i].date);
        assert CarriesWeather(rows[i], weather[j]);
        assert weather[j] in weather && MonthOf(weather[j].time) == MonthOf(rows[i].date);
      } else {
        forall x | x in weather
          ensures MonthOf(x.time) != MonthOf(rows[i].date)
        {
          var j :| 0 <= j < |weather| && weather[j] == x;
          assert WeatherDate(right[j]) != rows[i].date;
          TruncateSameMonth(x.time, rows[i].date);
        }
      }
    }
  }

  /** The derived columns added to every joined row. */
  function EfficiencyRows(joined: seq<(UtilityRow, Option<MonthlyWeather>)>): (r: seq<EfficiencyRow>)
    ensures |r| == |joined|
    ensures forall i :: 0 <= i < |joined| ==> r[i] == EfficiencyRowOf(joined[i].0, joined[i].1)
  {
    seq(|joined|, i requires 0 <= i < |joined| => EfficiencyRowOf(joined[i].0, joined[i].1))
  }

  /** An efficiency row carries utility row `u`'s costs, dated the first of `u`'s month. */
  predicate FromUtilityRow(r: EfficiencyRow, u: UtilityRow) {
    r.date == Truncate(u.date) && r.electricityCost == u.electricityCost && r.oilCost == u.oilCost
  }

  /** An efficiency row carries every weather column of monthly weather row `w`. */
  predicate CarriesWeather(r: EfficiencyRow, w: MonthlyWeather) {
    && r.tavg == w.tavg && r.tmin == w.tmin && r.tmax == w.tmax
    && r.prcp == Some(w.prcp) && r.snow == Some(w.snow)
    && r.hdd == Some(w.hdd) && r.cdd == Some(w.cdd)
  }

  /** An efficiency row whose weather columns are all missing. */
  predicate WithoutWeather(r: EfficiencyRow) {
    r.tavg.None? && r.tmin.None? && r.tmax.None? && r.prcp.None? && r.snow.None? && r.hdd.None? && r.cdd.None?
  }

  /**
   An efficiency row's weather columns are those of a weather row of its month,
   or all missing, and then the weather has no row of its month.
   */
  predicate WeatherOfItsMonth(r: EfficiencyRow, weather: seq<MonthlyWeather>) {
    && (r.hdd.Some? ==> exists w :: w in weather && MonthOf(w.time) == MonthOf(r.date) && CarriesWeather(r, w))
    && (r.hdd.None? ==> WithoutWeather(r) && forall w :: w in weather ==> MonthOf(w.time) != MonthOf(r.date))
  }

  /**
   The columns derived from a row's own values: the heating and cooling flags,
   the total degree days, and the three cost ratios, cooling on electricity only.
   */
  predicate DerivedColumns(r: EfficiencyRow) {
    && (r.heatingDays <==> Exceeds(r.hdd, 0.0))
    && (r.coolingDays <==> Exceeds(r.cdd, 0.0))
    && r.totalDd == AddPresent(r.hdd, r.cdd)
    && r.costPerHdd == GuardedRatio(r.electricityCost + r.oilCost, r.hdd)
    && r.costPerCdd == GuardedRatio(r.electricityCost, r.cdd)
    && r.costPerDd == GuardedRatio(r.electricityCost + r.oilCost, r.totalDd)
  }

  /** The rows logged as suspicious, in table order: those whose cost per HDD exceeds 10. */
  function Suspicious(df: seq<EfficiencyRow>): (r: seq<EfficiencyRow>)
    ensures forall x :: x in r <==> x in df && x.costPerHdd > SuspiciousCostPerHdd
    ensures |r| <= |df|
  {
    if df == [] then []
    else (if df[0].costPerHdd > SuspiciousCostPerHdd then [df[0]] else []) + Suspicious(df[1..])
  }

  /**
   A row repeated in the table (a utility month joined with duplicate weather
   months) is logged as often as it occurs when suspicious, and never otherwise.
   */
  lemma {:induction false} SuspiciousCounts(df: seq<EfficiencyRow>)
    ensures forall x :: multiset(Suspicious(df))[x] == (if x.costPerHdd > SuspiciousCostPerHdd then multiset(df)[x] else 0)
  {
    if df != [] {
      SuspiciousCounts(df[1..]);
      assert df == [df[0]] + df[1..];
    }
  }

  /** The caller's utility cost table, whose `date` column the calculator overwrites. */
  class UtilityFrame {
    var date: seq<Date>
    var electricityCost: seq<real>
    var oilCost: seq<real>

    constructor (rows: seq<UtilityRow>)
      ensures Valid() && Rows() == rows
    {
      date := seq(|rows|, i requires 0 <= i < |rows| => rows[i].date);
      electricityCost := seq(|rows|, i requires 0 <= i < |rows| => rows[i].electricityCost);
      oilCost := seq(|rows|, i requires 0 <= i < |rows| => rows[i].oilCost);
    }

    /** Every column has one value per row. */
    predicate Valid()
      reads this
    {
      |electricityCost| == |date| && |oilCost| == |date|
    }

    function Rows(): (r: seq<UtilityRow>)
      reads this
      requires Valid()
      ensures |r| == |date|
      ensures forall i :: 0 <= i < |r| ==> r[i] == UtilityRow(date[i], electricityCost[i], oilCost[i])
    {
      var ds, es, os := date, electricityCost, oilCost;
      seq(|ds|, i requires 0 <= i < |ds| => UtilityRow(ds[i], es[i], os[i]))
    }
  }

  /**
   `calculate_efficiency_metrics`: truncates the caller's `date` column to the
   first of each month in place, leaves its cost columns as they are, returns the
   efficiency table of the original rows, and reports (without removing or
   changing them) the rows whose cost per HDD exceeds 10.
   */
  method CalculateEfficiencyMetrics(utility: UtilityFrame, weather: seq<MonthlyWeather>)
    returns (df: seq<EfficiencyRow>, suspicious: seq<EfficiencyRow>)
    requires utility.Valid()
    modifies utility
    ensures utility.Valid()
    ensures |utility.date| == |old(utility.date)|
    ensures forall i :: 0 <= i < |utility.date| ==> utility.date[i] == Truncate(old(utility.date)[i])
    ensures utility.electricityCost == old(utility.electricityCost) && utility.oilCost == old(utility.oilCost)
    ensures df == EfficiencyTable(old(utility.Rows()), weather)
    ensures suspicious == Suspicious(df)
  {
    ghost var original := utility.Rows();
    var ds := utility.date;
    utility.date := seq(|ds|, i requires 0 <= i < |ds| => Truncate(ds[i]));
    var rows := utility.Rows();
    assert TruncateUtility(rows) == TruncateUtility(original);
    df := EfficiencyTable(rows, weather);
    suspicious := Suspicious(df);
  }

  // ---------------------------------------------------------------- properties

  /**
   A ratio is non-zero only when it was computed, from degree days above 5; a
   missing weather row or at most 5 degree days gives 0 whatever the cost.
   */
  lemma RatiosNeedEnoughDegreeDays(u: UtilityRow, w: Option<MonthlyWeather>)
    ensures var r := EfficiencyRowOf(u, w);
      && (r.costPerHdd != 0.0 ==> r.hdd.Some? && r.hdd.value > MinDegreeDays)
      && (r.costPerCdd != 0.0 ==> r.cdd.Some? && r.cdd.value > MinDegreeDays)
      && (r.costPerDd != 0.0 ==> r.totalDd.Some? && r.totalDd.value > MinDegreeDays)
  {
  }

  /** A month without weather has no degree days, neither flag, and all three ratios 0. */
  lemma NoWeatherNoRatios(u: UtilityRow)
    ensures var r := EfficiencyRowOf(u, None);
      && r.hdd.None? && r.cdd.None? && r.totalDd.None?
      && !r.heatingDays && !r.coolingDays
      && r.costPerHdd == 0.0 && r.costPerCdd == 0.0 && r.costPerDd == 0.0
  {
  }

  /**
   With non-negative degree days totalling at most 5, no ratio is computed: all
   three are 0 whatever the costs.
   */
  lemma FewDegreeDaysNoRatios(u: UtilityRow, w: MonthlyWeather)
    requires w.hdd >= 0.0 && w.cdd >= 0.0 && w.hdd + w.cdd <= MinDegreeDays
    ensures var r := EfficiencyRowOf(u, Some(w));
      r.costPerHdd == 0.0 && r.costPerCdd == 0.0 && r.costPerDd == 0.0
  {
  }

  /**
   The cooling ratio ignores oil: two rows that differ only in their oil cost have
   the same cost per CDD.
   */
  lemma CoolingRatioIgnoresOil(u: UtilityRow, oil: real, w: Option<MonthlyWeather>)
    ensures EfficiencyRowOf(u.(oilCost := oil), w).costPerCdd == EfficiencyRowOf(u, w).costPerCdd
  {
  }

  /**
   When the weather table has at most one row per month, the join keeps the
   utility table's shape: row i is utility row i dated the first of its month,
   with the degree days of the weather row of that month, or none when there is
   no such row.
   */
  lemma LeftJoinKeepsUtilityRows(utility: seq<UtilityRow>, weather: seq<MonthlyWeather>)
    requires UniqueKeys(TruncateWeather(weather), WeatherDate)
    ensures var df := EfficiencyTable(utility, weather);
      && |df| == |utility|
      && forall i :: 0 <= i < |df| ==>
        && df[i] == EfficiencyRowOf(TruncateUtility(utility)[i],
                                    Lookup(TruncateWeather(weather), WeatherDate, Truncate(utility[i].date)))
        && df[i].date == Truncate(utility[i].date)
        && df[i].electricityCost == utility[i].electricityCost
        && df[i].oilCost == utility[i].oilCost
        && (df[i].hdd.Some? <==> exists w :: w in weather && MonthOf(w.time) == MonthOf(utility[i].date))
        && (forall w :: w in weather && MonthOf(w.time) == MonthOf(utility[i].date) ==>
              df[i].hdd == Some(w.hdd) && df[i].cdd == Some(w.cdd))
  {
    var left := TruncateUtility(utility);
    var right := TruncateWeather(weather);
    LeftJoinUnique(left, UtilityDate, right, WeatherDate);
    var df := EfficiencyTable(utility, weather);
    forall i | 0 <= i < |df|
      ensures df[i] == EfficiencyRowOf(left[i], Lookup(right, WeatherDate, left[i].date))
    {
    }
    forall i | 0 <= i < |df|
      ensures (df[i].hdd.Some? <==> exists w :: w in weather && MonthOf(w.time) == MonthOf(utility[i].date))
      ensures forall w :: w in weather && MonthOf(w.time) == MonthOf(utility[i].date) ==>
        df[i].hdd == Some(w.hdd) && df[i].cdd == Some(w.cdd)
    {
      UtilityMonthJoined(utility[i].date, weather);
    }
  }

  /**
   With one weather row per month, the weather row the join finds for a utility
   date is the weather row of its month, and there is one exactly when the month
   has weather.
   */
  lemma UtilityMonthJoined(date: Date, weather: seq<MonthlyWeather>)
    requires UniqueKeys(TruncateWeather(weather), WeatherDate)
    ensures var found := Lookup(TruncateWeather(weather), WeatherDate, Truncate(date));
      && (found.Some? <==> exists w :: w in weather && MonthOf(w.time) == MonthOf(date))
      && forall w :: w in weather && MonthOf(w.time) == MonthOf(date) ==>
           found.Some? && found.value.hdd == w.hdd && found.value.cdd == w.cdd
  {
    var right := TruncateWeather(weather);
    var key := Truncate(date);
    var found := Lookup(right, WeatherDate, key);
    forall w | w in weather && MonthOf(w.time) == MonthOf(date)
      ensures found.Some? && found.value.hdd == w.hdd && found.value.cdd == w.cdd
    {
      var j :| 0 <= j < |weather| && weather[j] == w;
      TruncateSameMonth(w.time, date);
      assert WeatherDate(right[j]) == key;
      var k :| 0 <= k < |right| && right[k] == found.value;
      assert WeatherDate(right[k]) == WeatherDate(right[j]);
    }
    if found.Some? {
      var k :| 0 <= k < |right| && right[k] == found.value;
      TruncateSameMonth(weather[k].time, date);
      assert weather[k] in weather;
    }
  }

  /** Weather binned by `process_monthly` has one row per month, so the join keeps every utility row once. */
  lemma MonthlyWeatherJoinsOnce(days: seq<WeatherDay>)
    ensures UniqueKeys(TruncateWeather(ProcessMonthly(days)), WeatherDate)
  {
    var weather := ProcessMonthly(days);
    var right := TruncateWeather(weather);
    MonthlyTableShape(days);
    MonthlyBinsExact(days);
    forall i, j | 0 <= i < j < |right|
      ensures WeatherDate(right[i]) != WeatherDate(right[j])
    {
      TruncateSameMonth(weather[i].time, weather[j].time);
      assert MonthOf(weather[i].time) == MonthlyBins(days)[i];
      assert MonthOf(weather[j].time) == MonthlyBins(days)[j];
    }
  }
}
