/**
 Degree-day derivation (scripts/fetch_weather.py): a fetcher configured once with
 a location and a base temperature, which adds daily heating and cooling
 degree-day columns to a frame of daily observations in place, and the monthly
 aggregation of that frame (pandas' `resample('M')`, each bin labelled with the
 last day of its month).
 */
module FetchWeather {
  import opened Calendar
  import opened Frames
  import opened Aggregates

  /** One row of the daily weather table: the day and its readings, each possibly missing. */
  datatype DailyObservation = DailyObservation(
    time: Date, tavg: Option<real>, tmin: Option<real>, tmax: Option<real>,
    prcp: Option<real>, snow: Option<real>)

  /** A daily row once its `HDD` and `CDD` columns exist. */
  datatype WeatherDay = WeatherDay(obs: DailyObservation, hdd: real, cdd: real)

  /** One row of the monthly table, labelled with the last day of its month. */
  datatype MonthlyWeather = MonthlyWeather(
    time: Date, tavg: Option<real>, tmin: Option<real>, tmax: Option<real>,
    prcp: real, snow: real, hdd: real, cdd: real)

  /** The base temperature (degrees Celsius) when the caller gives none. */
  const DefaultBaseTemp: real := 18.0

  /**
   A day's heating degrees: how far the mean temperature falls below the base,
   and 0 when it does not, or when the mean is missing (the `x > 0` test fails on NaN).
   */
  function HeatingDegrees(base: real, tavg: Option<real>): (h: real)
    ensures h >= 0.0
    ensures tavg.None? ==> h == 0.0
    ensures tavg.Some? ==> h >= base - tavg.value && (h == 0.0 || h == base - tavg.value)
  {
    if tavg.Some? && base - tavg.value > 0.0 then base - tavg.value else 0.0
  }

  /**
   A day's cooling degrees: how far the mean temperature rises above the base,
   and 0 when it does not, or when the mean is missing.
   */
  function CoolingDegrees(base: real, tavg: Option<real>): (c: real)
    ensures c >= 0.0
    ensures tavg.None? ==> c == 0.0
    ensures tavg.Some? ==> c >= tavg.value - base && (c == 0.0 || c == tavg.value - base)
  {
    if tavg.Some? && tavg.value - base > 0.0 then tavg.value - base else 0.0
  }

  /**
   On a day with a mean temperature, heating minus cooling degrees is the base
   minus the mean, and the two are never both positive.
   */
  lemma DegreeDaysSplit(base: real, tavg: Option<real>)
    ensures !(HeatingDegrees(base, tavg) > 0.0 && CoolingDegrees(base, tavg) > 0.0)
    ensures tavg.Some? ==> HeatingDegrees(base, tavg) - CoolingDegrees(base, tavg) == base - tavg.value
  {
  }

  /** Every row carries the degree days the base temperature gives its mean temperature. */
  predicate DegreeDaysOf(base: real, days: seq<WeatherDay>) {
    forall i :: 0 <= i < |days| ==>
      days[i].hdd == HeatingDegrees(base, days[i].obs.tavg)
      && days[i].cdd == CoolingDegrees(base, days[i].obs.tavg)
  }

  /** A daily weather table whose `HDD`/`CDD` columns are added in place. */
  class DailyFrame {
    var days: seq<DailyObservation>
    var hdd: seq<real>
    var cdd: seq<real>

    /** A frame as the weather service returns it, without degree-day columns. */
    constructor (days: seq<DailyObservation>)
      ensures this.days == days && hdd == [] && cdd == []
    {
      this.days := days;
      hdd := [];
      cdd := [];
    }

    /** The `HDD` and `CDD` columns are present, one value per day. */
    predicate HasDegreeDays()
      reads this
    {
      |hdd| == |days| && |cdd| == |days|
    }

    /** The rows of the frame with their degree-day columns. */
    function Rows(): (r: seq<WeatherDay>)
      reads this
      requires HasDegreeDays()
      ensures |r| == |days|
      ensures forall i :: 0 <= i < |r| ==> r[i] == WeatherDay(days[i], hdd[i], cdd[i])
    {
      var ds, hs, cs := days, hdd, cdd;
      seq(|ds|, i requires 0 <= i < |ds| => WeatherDay(ds[i], hs[i], cs[i]))
    }
  }

  /** The fetcher of one location; its base temperature is fixed when it is built. */
  class WeatherDataFetcher {
    const latitude: real
    const longitude: real
    const baseTemp: real

    constructor (latitude: real, longitude: real, baseTemp: real)
      ensures this.latitude == latitude && this.longitude == longitude && this.baseTemp == baseTemp
    {
      this.latitude := latitude;
      this.longitude := longitude;
      this.baseTemp := baseTemp;
    }

    /** A fetcher built without a base temperature uses 18 degrees Celsius. */
    constructor WithDefaultBase(latitude: real, longitude: real)
      ensures this.latitude == latitude && this.longitude == longitude
      ensures baseTemp == DefaultBaseTemp
    {
      this.latitude := latitude;
      this.longitude := longitude;
      baseTemp := DefaultBaseTemp;
    }

    /**
     `calculate_degree_days`: writes the `HDD` and `CDD` columns into the caller's
     frame, one value per day from that day's mean temperature, leaves the daily
     readings as they are, and hands back the same frame.
     */
    method CalculateDegreeDays(df: DailyFrame) returns (out: DailyFrame)
      modifies df
      ensures out == df
      ensures df.days == old(df.days)
      ensures df.HasDegreeDays()
      ensures DegreeDaysOf(baseTemp, df.Rows())
    {
      var ds := df.days;
      df.hdd := seq(|ds|, i requires 0 <= i < |ds| => HeatingDegrees(baseTemp, ds[i].tavg));
      df.cdd := seq(|ds|, i requires 0 <= i < |ds| => CoolingDegrees(baseTemp, ds[i].tavg));
      out := df;
    }
  }

  // ---------------------------------------------------------------- monthly aggregation

  function DayMonth(d: WeatherDay): Month {
    MonthOf(d.obs.time)
  }

  function DayHdd(d: WeatherDay): real {
    d.hdd
  }

  function DayCdd(d: WeatherDay): real {
    d.cdd
  }

  function Tavg(d: WeatherDay): Option<real> {
    d.obs.tavg
  }

  function Tmin(d: WeatherDay): Option<real> {
    d.obs.tmin
  }

  function Tmax(d: WeatherDay): Option<real> {
    d.obs.tmax
  }

  /** A day's precipitation as `sum` counts it: a missing reading adds nothing. */
  function DayPrcp(d: WeatherDay): real {
    d.obs.prcp.GetOr(0.0)
  }

  /** A day's snowfall as `sum` counts it: a missing reading adds nothing. */
  function DaySnow(d: WeatherDay): real {
    d.obs.snow.GetOr(0.0)
  }

  /** The days that fall in month `m`, in table order. */
  function InMonth(days: seq<WeatherDay>, m: Month): (r: seq<WeatherDay>)
    ensures forall d :: d in r <==> d in days && DayMonth(d) == m
  {
    if days == [] then []
    else (if DayMonth(days[0]) == m then [days[0]] else []) + InMonth(days[1..], m)
  }

  /** A month's days keep their multiplicity: each day of the month is kept as often as it occurs, and no other. */
  lemma {:induction false} InMonthCounts(days: seq<WeatherDay>, m: Month)
    ensures forall d :: multiset(InMonth(days, m))[d] == if DayMonth(d) == m then multiset(days)[d] else 0
  {
    if days != [] {
      InMonthCounts(days[1..], m);
      assert days == [days[0]] + days[1..];
    }
  }

  /** One column of a list of days. */
  function Column(days: seq<WeatherDay>, col: WeatherDay -> Option<real>): (xs: seq<Option<real>>)
    ensures |xs| == |days|
    ensures forall i :: 0 <= i < |days| ==> xs[i] == col(days[i])
  {
    seq(|days|, i requires 0 <= i < |days| => col(days[i]))
  }

  /** The days of month `m` that have a reading in column `col`. */
  predicate HasReading(days: seq<WeatherDay>, m: Month, col: WeatherDay -> Option<real>) {
    exists d :: d in days && DayMonth(d) == m && col(d).Some?
  }

  /**
   The bin of month `m`: labelled with the month's last day; mean `tavg`, lowest
   `tmin`, highest `tmax` (missing when the month has no such reading), and summed
   `prcp`, `snow`, `HDD` and `CDD` (a missing reading adds nothing).
   */
  function MonthlyRow(days: seq<WeatherDay>, m: Month): (r: MonthlyWeather)
    ensures r.time == MonthEnd(m)
    ensures r.tavg == MeanPresent(Column(InMonth(days, m), Tavg))
    ensures r.tavg.None? <==> !HasReading(days, m, Tavg)
    ensures r.tmin.None? <==> !HasReading(days, m, Tmin)
    ensures r.tmax.None? <==> !HasReading(days, m, Tmax)
    ensures r.tmin.Some? ==> exists d :: d in days && DayMonth(d) == m && Tmin(d) == r.tmin
    ensures r.tmax.Some? ==> exists d :: d in days && DayMonth(d) == m && Tmax(d) == r.tmax
    ensures forall d :: d in days && DayMonth(d) == m && Tmin(d).Some? ==> r.tmin.value <= Tmin(d).value
    ensures forall d :: d in days && DayMonth(d) == m && Tmax(d).Some? ==> Tmax(d).value <= r.tmax.value
    ensures r.prcp == MonthTotal(days, DayMonth, DayPrcp, m) && r.snow == MonthTotal(days, DayMonth, DaySnow, m)
    ensures r.hdd == MonthTotal(days, DayMonth, DayHdd, m) && r.cdd == MonthTotal(days, DayMonth, DayCdd, m)
  {
    var ds := InMonth(days, m);
    var avgs, mins, maxs := Column(ds, Tavg), Column(ds, Tmin), Column(ds, Tmax);
    ColumnHasReading(days, m, Tavg);
    ColumnHasReading(days, m, Tmin);
    ColumnHasReading(days, m, Tmax);
    LowestIsAReading(days, m, Tmin);
    NoneBelowLowest(days, m, Tmin);
    HighestIsAReading(days, m, Tmax);
    NoneAboveHighest(days, m, Tmax);
    MonthlyWeather(
      MonthEnd(m), MeanPresent(avgs), MinPresent(mins), MaxPresent(maxs),
      MonthTotal(days, DayMonth, DayPrcp, m), MonthTotal(days, DayMonth, DaySnow, m),
      MonthTotal(days, DayMonth, DayHdd, m), MonthTotal(days, DayMonth, DayCdd, m))
  }

  /** A month's column has a present value exactly when one of the month's days has a reading. */
  lemma ColumnHasReading(days: seq<WeatherDay>, m: Month, col: WeatherDay -> Option<real>)
    ensures var xs := Column(InMonth(days, m), col);
      (exists i :: 0 <= i < |xs| && xs[i].Some?) <==> HasReading(days, m, col)
  {
    var ds := InMonth(days, m);
    var xs := Column(ds, col);
    if HasReading(days, m, col) {
      var d :| d in days && DayMonth(d) == m && col(d).Some?;
      var i :| 0 <= i < |ds| && ds[i] == d;
      assert xs[i].Some?;
    } else {
      forall i | 0 <= i < |xs|
        ensures xs[i].None?
      {
        assert ds[i] in ds && xs[i] == col(ds[i]);
        assert ds[i] in days && DayMonth(ds[i]) == m;
      }
    }
  }

  /** A month's lowest reading is the reading of one of its days. */
  lemma LowestIsAReading(days: seq<WeatherDay>, m: Month, col: WeatherDay -> Option<real>)
    ensures var lo := MinPresent(Column(InMonth(days, m), col));
      lo.Some? ==> exists d :: d in days && DayMonth(d) == m && col(d) == lo
  {
    var ds := InMonth(days, m);
    var xs := Column(ds, col);
    if MinPresent(xs).Some? {
      var i :| 0 <= i < |xs| && xs[i] == MinPresent(xs);
      assert ds[i] in ds;
    }
  }

  /** No day of the month has a reading below the month's lowest. */
  lemma NoneBelowLowest(days: seq<WeatherDay>, m: Month, col: WeatherDay -> Option<real>)
    ensures var lo := MinPresent(Column(InMonth(days, m), col));
      forall d :: d in days && DayMonth(d) == m && col(d).Some? ==> lo.Some? && lo.value <= col(d).value
  {
    var ds := InMonth(days, m);
    var xs := Column(ds, col);
    forall d | d in days && DayMonth(d) == m && col(d).Some?
      ensures MinPresent(xs).Some? && MinPresent(xs).value <= col(d).value
    {
      var i :| 0 <= i < |ds| && ds[i] == d;
      assert xs[i] == col(d);
    }
  }

  /** A month's highest reading is the reading of one of its days. */
  lemma HighestIsAReading(days: seq<WeatherDay>, m: Month, col: WeatherDay -> Option<real>)
    ensures var hi := MaxPresent(Column(InMonth(days, m), col));
      hi.Some? ==> exists d :: d in days && DayMonth(d) == m && col(d) == hi
  {
    var ds := InMonth(days, m);
    var xs := Column(ds, col);
    if MaxPresent(xs).Some? {
      var i :| 0 <= i < |xs| && xs[i] == MaxPresent(xs);
      assert ds[i] in ds;
    }
  }

  /** No day of the month has a reading above the month's highest. */
  lemma NoneAboveHighest(days: seq<WeatherDay>, m: Month, col: WeatherDay -> Option<real>)
    ensures var hi := MaxPresent(Column(InMonth(days, m), col));
      forall d :: d in days && DayMonth(d) == m && col(d).Some? ==> hi.Some? && col(d).value <= hi.value
  {
    var ds := InMonth(days, m);
    var xs := Column(ds, col);
    forall d | d in days && DayMonth(d) == m && col(d).Some?
      ensures MaxPresent(xs).Some? && col(d).value <= MaxPresent(xs).value
    {
      var i :| 0 <= i < |ds| && ds[i] == d;
      assert xs[i] == col(d);
    }
  }

  function DayMonths(days: seq<WeatherDay>): (ms: seq<Month>)
    ensures |ms| == |days|
    ensures forall i :: 0 <= i < |days| ==> ms[i] == DayMonth(days[i])
  {
    seq(|days|, i requires 0 <= i < |days| => DayMonth(days[i]))
  }

  /** The bins of `resample('M')`: every month from the first to the last day's month. */
  function MonthlyBins(days: seq<WeatherDay>): (bins: seq<Month>)
    ensures bins == [] <==> days == []
    ensures bins != [] ==> bins[0] == EarliestMonth(DayMonths(days)) && bins[|bins| - 1] == LatestMonth(DayMonths(days))
  {
    if days == [] then []
    else
      var lo, hi := EarliestMonth(DayMonths(days)), LatestMonth(DayMonths(days));
      var r := MonthRange(lo, hi);
      assert Ordinal(lo) <= Ordinal(hi);
      OrdinalInjective(r[0], lo);
      OrdinalInjective(r[|r| - 1], hi);
      r
  }

  /** `process_monthly`: one aggregated row per bin, in month order. */
  function ProcessMonthly(days: seq<WeatherDay>): (r: seq<MonthlyWeather>)
    ensures |r| == |MonthlyBins(days)|
    ensures forall i :: 0 <= i < |r| ==> r[i] == MonthlyRow(days, MonthlyBins(days)[i])
  {
    var ms := MonthlyBins(days);
    seq(|ms|, i requires 0 <= i < |ms| => MonthlyRow(days, ms[i]))
  }

  /** The bins are consecutive months without repetition. */
  lemma MonthlyBinsExact(days: seq<WeatherDay>)
    ensures forall i :: 0 <= i < |MonthlyBins(days)| - 1 ==>
      MonthlyBins(days)[i + 1] == Next(MonthlyBins(days)[i])
    ensures forall i, j :: 0 <= i < j < |MonthlyBins(days)| ==> MonthlyBins(days)[i] != MonthlyBins(days)[j]
  {
    if days != [] {
      var ms := DayMonths(days);
      MonthRangeExact(EarliestMonth(ms), LatestMonth(ms));
    }
  }

  /** Every day falls in one of the bins. */
  lemma EveryDayBinned(days: seq<WeatherDay>)
    ensures forall d :: d in days ==> DayMonth(d) in MonthlyBins(days)
  {
    if days != [] {
      var ms := DayMonths(days);
      var lo, hi := EarliestMonth(ms), LatestMonth(ms);
      MonthRangeExact(lo, hi);
      forall d | d in days
        ensures DayMonth(d) in MonthRange(lo, hi)
      {
        var i :| 0 <= i < |days| && days[i] == d;
        assert ms[i] == DayMonth(d);
      }
    }
  }

  /**
   The monthly table is labelled with month ends, one bin per month in order with
   no gap, and no two rows share a label.
   */
  lemma MonthlyTableShape(days: seq<WeatherDay>)
    ensures var r := ProcessMonthly(days);
      && (forall i :: 0 <= i < |r| ==> r[i].time == MonthEnd(MonthlyBins(days)[i]))
      && (forall i :: 0 <= i < |r| - 1 ==> MonthOf(r[i + 1].time) == Next(MonthOf(r[i].time)))
      && (forall i, j :: 0 <= i < j < |r| ==> r[i].time != r[j].time)
  {
    var r := ProcessMonthly(days);
    var ms := MonthlyBins(days);
    MonthlyBinsExact(days);
    forall i, j | 0 <= i < j < |r|
      ensures r[i].time != r[j].time
    {
      assert MonthOf(r[i].time) == ms[i] && MonthOf(r[j].time) == ms[j];
    }
  }

  /** Binning loses no degree days: the monthly `HDD` and `CDD` sums add up to the daily columns' sums. */
  lemma DegreeDayTotalsConserved(days: seq<WeatherDay>)
    ensures Total(ProcessMonthly(days), MonthlyHdd) == Total(days, DayHdd)
    ensures Total(ProcessMonthly(days), MonthlyCdd) == Total(days, DayCdd)
  {
    ColumnTotalConserved(days, MonthlyHdd, DayHdd);
    ColumnTotalConserved(days, MonthlyCdd, DayCdd);
  }

  /**
   Binning loses no precipitation: the monthly `prcp` and `snow` sums add up to
   the daily columns' sums, a missing reading counting as nothing in both.
   */
  lemma PrecipitationTotalsConserved(days: seq<WeatherDay>)
    ensures Total(ProcessMonthly(days), MonthlyPrcp) == Total(days, DayPrcp)
    ensures Total(ProcessMonthly(days), MonthlySnow) == Total(days, DaySnow)
  {
    ColumnTotalConserved(days, MonthlyPrcp, DayPrcp);
    ColumnTotalConserved(days, MonthlySnow, DaySnow);
  }

  /** A monthly column that is the per-month sum of a daily column adds up to the daily column's sum. */
  lemma ColumnTotalConserved(days: seq<WeatherDay>, monthly: MonthlyWeather -> real, daily: WeatherDay -> real)
    requires forall m :: monthly(MonthlyRow(days, m)) == MonthTotal(days, DayMonth, daily, m)
    ensures Total(ProcessMonthly(days), monthly) == Total(days, daily)
  {
    var ms := MonthlyBins(days);
    MonthlyBinsExact(days);
    EveryDayBinned(days);
    GroupTotalsConserved(ms, days, DayMonth, daily);
    ColumnTotalIsMonthTotals(ms, days, ProcessMonthly(days), monthly, daily);
  }

  function MonthlyHdd(r: MonthlyWeather): real {
    r.hdd
  }

  function MonthlyCdd(r: MonthlyWeather): real {
    r.cdd
  }

  function MonthlyPrcp(r: MonthlyWeather): real {
    r.prcp
  }

  function MonthlySnow(r: MonthlyWeather): real {
    r.snow
  }

  lemma {:induction false} ColumnTotalIsMonthTotals(
    ms: seq<Month>, days: seq<WeatherDay>, rows: seq<MonthlyWeather>,
    monthly: MonthlyWeather -> real, daily: WeatherDay -> real)
    requires |rows| == |ms|
    requires forall i :: 0 <= i < |ms| ==> monthly(rows[i]) == MonthTotal(days, DayMonth, daily, ms[i])
    ensures Total(rows, monthly) == TotalOverMonths(ms, days, DayMonth, daily)
  {
    if ms != [] {
      ColumnTotalIsMonthTotals(ms[1..], days, rows[1..], monthly, daily);
    }
  }

  lemma {:induction false} MonthTotalNonNegative(days: seq<WeatherDay>, val: WeatherDay -> real, m: Month)
    requires forall i :: 0 <= i < |days| ==> val(days[i]) >= 0.0
    ensures MonthTotal(days, DayMonth, val, m) >= 0.0
  {
    if days != [] {
      assert forall i :: 0 <= i < |days[1..]| ==> days[1..][i] == days[i + 1];
      MonthTotalNonNegative(days[1..], val, m);
    }
  }

  /** Degree days computed from a base temperature never sum to a negative month. */
  lemma MonthlyDegreeDaysNonNegative(base: real, days: seq<WeatherDay>)
    requires DegreeDaysOf(base, days)
    ensures forall r :: r in ProcessMonthly(days) ==> r.hdd >= 0.0 && r.cdd >= 0.0
  {
    forall m: Month
      ensures MonthTotal(days, DayMonth, DayHdd, m) >= 0.0
      ensures MonthTotal(days, DayMonth, DayCdd, m) >= 0.0
    {
      MonthTotalNonNegative(days, DayHdd, m);
      MonthTotalNonNegative(days, DayCdd, m);
    }
  }

  /**
   When every reading day of a month has `tmin <= tavg <= tmax`, the month's
   lowest `tmin` is at most its mean `tavg`, which is at most its highest `tmax`.
   */
  lemma MonthlyTemperaturesOrdered(days: seq<WeatherDay>, m: Month)
    requires forall d :: d in days && DayMonth(d) == m && d.obs.tavg.Some? ==>
      d.obs.tmin.Some? && d.obs.tmax.Some? && d.obs.tmin.value <= d.obs.tavg.value <= d.obs.tmax.value
    requires MonthlyRow(days, m).tavg.Some?
    ensures MonthlyRow(days, m).tmin.Some? && MonthlyRow(days, m).tmax.Some?
    ensures MonthlyRow(days, m).tmin.value <= MonthlyRow(days, m).tavg.value <= MonthlyRow(days, m).tmax.value
  {
    var ds := InMonth(days, m);
    var avgs, mins, maxs := Column(ds, Tavg), Column(ds, Tmin), Column(ds, Tmax);
    var k :| 0 <= k < |avgs| && avgs[k].Some?;
    assert ds[k] in ds;
    assert mins[k].Some? && maxs[k].Some?;
    var lo, hi := MinPresent(mins).value, MaxPresent(maxs).value;
    forall i | 0 <= i < |avgs| && avgs[i].Some?
      ensures lo <= avgs[i].value <= hi
    {
      assert ds[i] in ds;
    }
    CountZeroIffAllMissing(avgs);
    MeanAtLeast(avgs, lo);
    MeanAtMost(avgs, hi);
  }
}
