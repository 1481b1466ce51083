/**
 Bill ingestion and the cost combiner (utility_analysis/process_raw_data.py):
 per-unit rates, electric bills keyed by a `YYYY-MM` month string, oil deliveries
 summed per month, and the combined electricity/oil cost table that covers every
 month from the earliest to the latest bill.
 */
module ProcessRawData {
  import opened Calendar
  import opened Frames
  import opened Aggregates

  // ---------------------------------------------------------------- rates

  /** Cost per unit ($/kWh or $/gallon); none when the usage is missing or zero. */
  function CalculateRate(amount: real, usage: Option<real>): (rate: Option<real>)
    ensures rate.None? <==> usage.None? || usage.value == 0.0
    ensures rate.Some? ==> rate.value * usage.value == amount
  {
    if usage.None? || usage.value == 0.0 then None else Some(amount / usage.value)
  }

  // ---------------------------------------------------------------- electric bills

  predicate IsDigit(c: char) {
    '0' <= c <= '9'
  }

  function DigitValue(c: char): (n: int)
    requires IsDigit(c)
    ensures 0 <= n <= 9
  {
    c as int - '0' as int
  }

  function DigitChar(n: int): (c: char)
    requires 0 <= n <= 9
    ensures IsDigit(c) && DigitValue(c) == n
  {
    ('0' as int + n) as char
  }

  /** The text `YYYY-MM`: four year digits, a dash and two month digits. */
  predicate IsYearMonthText(s: string) {
    |s| == 7 && IsDigit(s[0]) && IsDigit(s[1]) && IsDigit(s[2]) && IsDigit(s[3])
    && s[4] == '-' && IsDigit(s[5]) && IsDigit(s[6])
  }

  /**
   The date of an electric bill: `pd.to_datetime(s + '-01')`, the first day of the
   month `s` names, or none when `s` does not name a month.
   */
  function ParseBillMonth(s: string): (d: Option<Date>)
    ensures d.Some? ==> IsYearMonthText(s) && d.value.day == 1
  {
    if !IsYearMonthText(s) then None
    else
      var year := DigitValue(s[0]) * 1000 + DigitValue(s[1]) * 100 + DigitValue(s[2]) * 10 + DigitValue(s[3]);
      var month := DigitValue(s[5]) * 10 + DigitValue(s[6]);
      if 1 <= month <= 12 then Some(FirstOfMonth(YearMonth(year, month))) else None
  }

  /** The `YYYY-MM` text of a month of years 0 to 9999. */
  function FormatBillMonth(m: Month): (s: string)
    requires 0 <= m.year <= 9999
    ensures IsYearMonthText(s)
  {
    var y := m.year;
    [DigitChar(y / 10 / 10 / 10), DigitChar(y / 10 / 10 % 10), DigitChar(y / 10 % 10), DigitChar(y % 10),
     '-', DigitChar(m.month / 10), DigitChar(m.month % 10)]
  }

  /** Writing `q` followed by the digit `r` gives `10 * q + r`, and only that. */
  lemma LastDigit(n: int, q: int, r: int)
    requires 0 <= r <= 9 && n == 10 * q + r
    ensures n / 10 == q && n % 10 == r
  {
  }

  lemma FourDigits(y: int)
    requires 0 <= y <= 9999
    ensures 0 <= y / 10 / 10 / 10 <= 9
    ensures y == 1000 * (y / 10 / 10 / 10) + 100 * (y / 10 / 10 % 10) + 10 * (y / 10 % 10) + y % 10
  {
    var a := y / 10;
    var b := a / 10;
    assert y == 10 * a + y % 10;
    assert a == 10 * b + a % 10;
    assert b == 10 * (b / 10) + b % 10;
  }

  /** Every month written as `YYYY-MM` is read back as the first day of that month. */
  lemma FormatThenParse(m: Month)
    requires 0 <= m.year <= 9999
    ensures ParseBillMonth(FormatBillMonth(m)) == Some(FirstOfMonth(m))
  {
    var s := FormatBillMonth(m);
    FourDigits(m.year);
    assert DigitValue(s[0]) * 1000 + DigitValue(s[1]) * 100 + DigitValue(s[2]) * 10 + DigitValue(s[3]) == m.year;
    assert DigitValue(s[5]) * 10 + DigitValue(s[6]) == m.month;
  }

  /** Every text that is read as a month is exactly that month written as `YYYY-MM`. */
  lemma ParseThenFormat(s: string)
    requires ParseBillMonth(s).Some?
    ensures 0 <= ParseBillMonth(s).value.year <= 9999
    ensures FormatBillMonth(MonthOf(ParseBillMonth(s).value)) == s
  {
    var d0, d1, d2, d3 := DigitValue(s[0]), DigitValue(s[1]), DigitValue(s[2]), DigitValue(s[3]);
    var y := d0 * 1000 + d1 * 100 + d2 * 10 + d3;
    LastDigit(y, d0 * 100 + d1 * 10 + d2, d3);
    LastDigit(y / 10, d0 * 10 + d1, d2);
    LastDigit(y / 10 / 10, d0, d1);
    LastDigit(y / 10 / 10 / 10, 0, d0);
    var mo := DigitValue(s[5]) * 10 + DigitValue(s[6]);
    LastDigit(mo, DigitValue(s[5]), DigitValue(s[6]));
    var t := FormatBillMonth(MonthOf(ParseBillMonth(s).value));
    assert forall k :: 0 <= k < 7 ==> t[k] == s[k];
  }

  /** A row of the electric bills file: month text, amount billed, kWh used (possibly missing). */
  datatype ElectricBill = ElectricBill(date: string, amount: real, kwhUsed: Option<real>)

  /** A row of a monthly cost table. */
  datatype CostRow = CostRow(date: Date, amount: real)

  datatype ElectricRate = ElectricRate(date: Date, rate: Option<real>, kwhUsed: Option<real>)

  /**
   `process_electric_data` after the file is read: one cost row and one rate row
   per bill, in bill order, each dated the first of the bill's month; none (pandas
   raises) when some bill's month text cannot be read.
   */
  function ProcessElectricData(bills: seq<ElectricBill>): (r: Option<(seq<CostRow>, seq<ElectricRate>)>)
    ensures r.None? <==> exists i :: 0 <= i < |bills| && ParseBillMonth(bills[i].date).None?
    ensures r.Some? ==> |r.value.0| == |bills| && |r.value.1| == |bills|
    ensures r.Some? ==> forall i :: 0 <= i < |bills| ==>
      && r.value.0[i] == CostRow(ParseBillMonth(bills[i].date).value, bills[i].amount)
      && r.value.1[i] == ElectricRate(r.value.0[i].date, CalculateRate(bills[i].amount, bills[i].kwhUsed), bills[i].kwhUsed)
  {
    if bills == [] then Some(([], []))
    else
      match ParseBillMonth(bills[0].date)
      case None => None
      case Some(d) =>
        match ProcessElectricData(bills[1..])
        case None => None
        case Some(rest) =>
          Some(([CostRow(d, bills[0].amount)] + rest.0,
                [ElectricRate(d, CalculateRate(bills[0].amount, bills[0].kwhUsed), bills[0].kwhUsed)] + rest.1))
  }

  /** Each electric cost row is dated the first day of exactly the month its bill names. */
  lemma ElectricDatesAreBillMonths(bills: seq<ElectricBill>)
    requires ProcessElectricData(bills).Some?
    ensures forall i :: 0 <= i < |bills| ==>
      && ProcessElectricData(bills).value.0[i].date.day == 1
      && FormatBillMonth(MonthOf(ProcessElectricData(bills).value.0[i].date)) == bills[i].date
  {
    forall i | 0 <= i < |bills| {
      ParseThenFormat(bills[i].date);
    }
  }

  // ---------------------------------------------------------------- oil deliveries

  /** A row of the oil deliveries file: delivery date, amount paid, gallons (possibly missing). */
  datatype OilDelivery = OilDelivery(date: Date, amount: real, gallons: Option<real>)

  datatype OilRate = OilRate(date: Date, rate: Option<real>, gallons: real)

  function DeliveryMonth(d: OilDelivery): Month {
    MonthOf(d.date)
  }

  function DeliveryAmount(d: OilDelivery): real {
    d.amount
  }

  /** Gallons as a `sum` counts them: a missing value adds nothing. */
  function DeliveryGallons(d: OilDelivery): real {
    d.gallons.GetOr(0.0)
  }

  predicate HasDelivery(ds: seq<OilDelivery>, m: Month) {
    exists i :: 0 <= i < |ds| && DeliveryMonth(ds[i]) == m
  }

  predicate StrictlyAscending(ms: seq<Month>) {
    forall i, j :: 0 <= i < j < |ms| ==> Ordinal(ms[i]) < Ordinal(ms[j])
  }

  /** The months of `ms` in which some delivery was made, in the order of `ms`. */
  function KeepDeliveryMonths(ms: seq<Month>, ds: seq<OilDelivery>): (r: seq<Month>)
    ensures forall m :: m in r <==> m in ms && HasDelivery(ds, m)
    ensures StrictlyAscending(ms) ==> StrictlyAscending(r)
  {
    if ms == [] then []
    else
      var rest := KeepDeliveryMonths(ms[1..], ds);
      assert StrictlyAscending(ms) ==> forall m :: m in rest ==> Ordinal(ms[0]) < Ordinal(m);
      if HasDelivery(ds, ms[0]) then [ms[0]] + rest else rest
  }

  function DeliveryMonths(ds: seq<OilDelivery>): (ms: seq<Month>)
    ensures |ms| == |ds|
  {
    seq(|ds|, i requires 0 <= i < |ds| => DeliveryMonth(ds[i]))
  }

  /** The groups of `groupby(date.to_period('M'))`: the months with a delivery, ascending. */
  function OilMonths(ds: seq<OilDelivery>): (r: seq<Month>)
    ensures StrictlyAscending(r)
    ensures forall m :: m in r <==> HasDelivery(ds, m)
  {
    if ds == [] then []
    else
      var ms := DeliveryMonths(ds);
      var lo, hi := EarliestMonth(ms), LatestMonth(ms);
      var range := MonthRange(lo, hi);
      MonthRangeExact(lo, hi);
      assert StrictlyAscending(range);
      forall m | HasDelivery(ds, m)
        ensures m in range
      {
        var i :| 0 <= i < |ds| && DeliveryMonth(ds[i]) == m;
        assert ms[i] == m && m in ms;
      }
      KeepDeliveryMonths(range, ds)
  }

  /** The oil cost row of month `m`: the amounts of that month's deliveries, summed. */
  function OilCostRow(ds: seq<OilDelivery>, m: Month): (r: CostRow)
    ensures r.date == FirstOfMonth(m)
  {
    CostRow(FirstOfMonth(m), MonthTotal(ds, DeliveryMonth, DeliveryAmount, m))
  }

  /** The oil rate row of month `m`: summed amount over summed gallons, none when no gallons. */
  function OilRateRow(ds: seq<OilDelivery>, m: Month): (r: OilRate)
    ensures r.date == FirstOfMonth(m)
    ensures r.gallons == MonthTotal(ds, DeliveryMonth, DeliveryGallons, m)
    ensures r.rate.None? <==> r.gallons == 0.0
    ensures r.rate.Some? ==> r.rate.value * r.gallons == OilCostRow(ds, m).amount
  {
    var gallons := MonthTotal(ds, DeliveryMonth, DeliveryGallons, m);
    OilRate(FirstOfMonth(m), CalculateRate(OilCostRow(ds, m).amount, Some(gallons)), gallons)
  }

  /**
   `process_oil_data` after the file is read: per month with a delivery, ascending,
   the summed amount, and the rate of the summed amount over the summed gallons.
   */
  function ProcessOilData(ds: seq<OilDelivery>): (r: (seq<CostRow>, seq<OilRate>))
    ensures |r.0| == |OilMonths(ds)| && |r.1| == |OilMonths(ds)|
    ensures forall i :: 0 <= i < |r.0| ==> r.0[i] == OilCostRow(ds, OilMonths(ds)[i])
    ensures forall i :: 0 <= i < |r.1| ==> r.1[i] == OilRateRow(ds, OilMonths(ds)[i])
  {
    (OilCosts(ds), OilRates(ds))
  }

  function OilCosts(ds: seq<OilDelivery>): (r: seq<CostRow>)
    ensures |r| == |OilMonths(ds)|
    ensures forall i :: 0 <= i < |r| ==> r[i] == OilCostRow(ds, OilMonths(ds)[i])
  {
    var ms := OilMonths(ds);
    seq(|ms|, i requires 0 <= i < |ms| => OilCostRow(ds, ms[i]))
  }

  function OilRates(ds: seq<OilDelivery>): (r: seq<OilRate>)
    ensures |r| == |OilMonths(ds)|
    ensures forall i :: 0 <= i < |r| ==> r[i] == OilRateRow(ds, OilMonths(ds)[i])
  {
    var ms := OilMonths(ds);
    seq(|ms|, i requires 0 <= i < |ms| => OilRateRow(ds, ms[i]))
  }

  /** Grouping loses no money: the monthly oil costs add up to the total of all deliveries. */
  lemma OilCostsConserved(ds: seq<OilDelivery>)
    ensures Total(ProcessOilData(ds).0, CostAmount) == Total(ds, DeliveryAmount)
  {
    var ms := OilMonths(ds);
    assert forall i, j :: 0 <= i < j < |ms| ==> ms[i] != ms[j];
    forall d | d in ds
      ensures DeliveryMonth(d) in ms
    {
      var i :| 0 <= i < |ds| && ds[i] == d;
      assert HasDelivery(ds, DeliveryMonth(d));
    }
    GroupTotalsConserved(ms, ds, DeliveryMonth, DeliveryAmount);
    CostTotalIsMonthTotals(ms, ds, ProcessOilData(ds).0);
  }

  function CostAmount(r: CostRow): real {
    r.amount
  }

  lemma {:induction false} CostTotalIsMonthTotals(ms: seq<Month>, ds: seq<OilDelivery>, costs: seq<CostRow>)
    requires |costs| == |ms|
    requires forall i :: 0 <= i < |ms| ==> costs[i] == OilCostRow(ds, ms[i])
    ensures Total(costs, CostAmount) == TotalOverMonths(ms, ds, DeliveryMonth, DeliveryAmount)
  {
    if ms != [] {
      CostTotalIsMonthTotals(ms[1..], ds, costs[1..]);
    }
  }

  /** No two rows of the oil cost table share a date, and every date is the first of its month. */
  lemma OilDatesUnique(ds: seq<OilDelivery>)
    ensures UniqueKeys(ProcessOilData(ds).0, CostDate)
    ensures forall r :: r in ProcessOilData(ds).0 ==> r.date.day == 1
  {
    var ms := OilMonths(ds);
    var costs := ProcessOilData(ds).0;
    forall i, j | 0 <= i < j < |costs|
      ensures CostDate(costs[i]) != CostDate(costs[j])
    {
      assert MonthOf(costs[i].date) == ms[i] && MonthOf(costs[j].date) == ms[j];
    }
  }

  // ---------------------------------------------------------------- combiner

  /** A row of the combined cost table: columns date, electricity_cost, oil_cost, in that order. */
  datatype CombinedRow = CombinedRow(date: Date, electricityCost: real, oilCost: real)

  function CostDate(r: CostRow): Date {
    r.date
  }

  function DateKey(d: Date): Date {
    d
  }

  function JoinedDate(p: (Date, Option<CostRow>)): Date {
    p.0
  }

  /** A joined cost after `fillna(0)`: the amount when a row matched, else 0. */
  function AmountOrZero(r: Option<CostRow>): real {
    if r.Some? then r.value.amount else 0.0
  }

  function CostMonths(rows: seq<CostRow>): (ms: seq<Month>)
    ensures |ms| == |rows|
    ensures forall i :: 0 <= i < |rows| ==> ms[i] == MonthOf(rows[i].date)
  {
    seq(|rows|, i requires 0 <= i < |rows| => MonthOf(rows[i].date))
  }

  /** The months of `pd.date_range(min.replace(day=1), max.replace(day=1), freq='MS')`. */
  function CoveringMonths(electric: seq<CostRow>, oil: seq<CostRow>): (r: seq<Month>)
    requires electric != [] || oil != []
    ensures r != []
    ensures r[0] == EarliestMonth(CostMonths(electric + oil)) && r[|r| - 1] == LatestMonth(CostMonths(electric + oil))
    ensures r[0] in CostMonths(electric + oil) && r[|r| - 1] in CostMonths(electric + oil)
    ensures forall i :: 0 <= i < |r| - 1 ==> r[i + 1] == Next(r[i])
  {
    var ms := CostMonths(electric + oil);
    var lo, hi := EarliestMonth(ms), LatestMonth(ms);
    var range := MonthRange(lo, hi);
    MonthRangeExact(lo, hi);
    OrdinalInjective(range[0], lo);
    OrdinalInjective(range[|range| - 1], hi);
    range
  }

  function FirstDays(ms: seq<Month>): (ds: seq<Date>)
    ensures |ds| == |ms|
    ensures forall i :: 0 <= i < |ms| ==> ds[i] == FirstOfMonth(ms[i])
  {
    seq(|ms|, i requires 0 <= i < |ms| => FirstOfMonth(ms[i]))
  }

  /**
   `combine_utility_data`: the month-start dates from the earliest to the latest
   bill, left-joined with the electric and then the oil costs on the date, missing
   costs filled with 0. With no bill at all pandas cannot build the date range and
   raises: none.
   */
  function CombineUtilityData(electric: seq<CostRow>, oil: seq<CostRow>): (r: Option<seq<CombinedRow>>)
    ensures r.None? <==> electric == [] && oil == []
  {
    if electric == [] && oil == [] then None
    else
      var range := FirstDays(CoveringMonths(electric, oil));
      var withElectric := LeftJoin(range, DateKey, electric, CostDate);
      var withOil := LeftJoin(withElectric, JoinedDate, oil, CostDate);
      Some(FilledRows(withOil))
  }

  /** The rows of the twice-joined table, each missing cost filled with 0. */
  function FilledRows(joined: seq<((Date, Option<CostRow>), Option<CostRow>)>): (r: seq<CombinedRow>)
    ensures |r| == |joined|
    ensures forall i :: 0 <= i < |joined| ==>
      r[i] == CombinedRow(joined[i].0.0, AmountOrZero(joined[i].0.1), AmountOrZero(joined[i].1))
  {
    seq(|joined|, i requires 0 <= i < |joined| =>
      CombinedRow(joined[i].0.0, AmountOrZero(joined[i].0.1), AmountOrZero(joined[i].1)))
  }

  /** The amount a table with unique dates holds for `date`, or 0 when it holds none. */
  predicate CostFor(rows: seq<CostRow>, date: Date, cost: real) {
    && (forall r :: r in rows && r.date == date ==> cost == r.amount)
    && ((forall r :: r in rows ==> r.date != date) ==> cost == 0.0)
  }

  /**
   With at most one row per date in each source, the combined table has exactly one
   row per month from the earliest to the latest bill, ascending with no gap, each
   dated the first of its month; its costs are the sources' amounts for that date,
   and 0 where a source has no row.
   */
  lemma CombinedTableShape(electric: seq<CostRow>, oil: seq<CostRow>)
    requires electric != [] || oil != []
    requires UniqueKeys(electric, CostDate) && UniqueKeys(oil, CostDate)
    ensures var rows := CombineUtilityData(electric, oil).value;
      var ms := CoveringMonths(electric, oil);
      && |rows| == |ms|
      && (forall i :: 0 <= i < |rows| ==> rows[i].date == FirstOfMonth(ms[i]))
      && (forall i :: 0 <= i < |rows| - 1 ==> MonthOf(rows[i + 1].date) == Next(MonthOf(rows[i].date)))
      && (forall i :: 0 <= i < |rows| ==> CostFor(electric, rows[i].date, rows[i].electricityCost))
      && (forall i :: 0 <= i < |rows| ==> CostFor(oil, rows[i].date, rows[i].oilCost))
  {
    var ms := CoveringMonths(electric, oil);
    var rows := CombineUtilityData(electric, oil).value;
    CombinedRows(electric, oil);
    MonthRangeExact(EarliestMonth(CostMonths(electric + oil)), LatestMonth(CostMonths(electric + oil)));
    forall i | 0 <= i < |rows|
      ensures CostFor(electric, rows[i].date, rows[i].electricityCost)
      ensures CostFor(oil, rows[i].date, rows[i].oilCost)
    {
      LookupFindsTheRow(electric, rows[i].date);
      LookupFindsTheRow(oil, rows[i].date);
    }
  }

  /** Row i of the combined table: the first day of month i of the range and the amounts looked up for it. */
  lemma CombinedRows(electric: seq<CostRow>, oil: seq<CostRow>)
    requires electric != [] || oil != []
    requires UniqueKeys(electric, CostDate) && UniqueKeys(oil, CostDate)
    ensures var rows := CombineUtilityData(electric, oil).value;
      var ms := CoveringMonths(electric, oil);
      && |rows| == |ms|
      && forall i :: 0 <= i < |rows| ==> rows[i] == CombinedRow(FirstOfMonth(ms[i]),
           AmountOrZero(Lookup(electric, CostDate, FirstOfMonth(ms[i]))),
           AmountOrZero(Lookup(oil, CostDate, FirstOfMonth(ms[i]))))
  {
    var ms := CoveringMonths(electric, oil);
    var range := FirstDays(ms);
    var withElectric := LeftJoin(range, DateKey, electric, CostDate);
    var withOil := LeftJoin(withElectric, JoinedDate, oil, CostDate);
    LeftJoinUnique(range, DateKey, electric, CostDate);
    LeftJoinUnique(withElectric, JoinedDate, oil, CostDate);
    var rows := CombineUtilityData(electric, oil).value;
    forall i | 0 <= i < |rows|
      ensures rows[i] == CombinedRow(range[i],
        AmountOrZero(Lookup(electric, CostDate, range[i])), AmountOrZero(Lookup(oil, CostDate, range[i])))
    {
      assert withOil[i] == (withElectric[i], Lookup(oil, CostDate, withElectric[i].0));
      assert withElectric[i] == (range[i], Lookup(electric, CostDate, range[i]));
    }
  }

  lemma LookupFindsTheRow(rows: seq<CostRow>, date: Date)
    requires UniqueKeys(rows, CostDate)
    ensures CostFor(rows, date, AmountOrZero(Lookup(rows, CostDate, date)))
  {
    var found := Lookup(rows, CostDate, date);
    forall r | r in rows && r.date == date
      ensures AmountOrZero(found) == r.amount
    {
      var i :| 0 <= i < |rows| && rows[i] == r;
      var j :| 0 <= j < |rows| && rows[j] == found.value;
      assert CostDate(rows[i]) == CostDate(rows[j]);
    }
  }

  /** The covered range reaches every bill's month. */
  lemma CoveringMonthsReachEveryBill(electric: seq<CostRow>, oil: seq<CostRow>, c: CostRow)
    requires c in electric || c in oil
    ensures MonthOf(c.date) in CoveringMonths(electric, oil)
  {
    var both := electric + oil;
    var all := CostMonths(both);
    assert c in both;
    var k :| 0 <= k < |both| && both[k] == c;
    assert all[k] == MonthOf(c.date);
    MonthRangeExact(EarliestMonth(all), LatestMonth(all));
  }

  /** A bill dated the first of its month has the row of its month in the combined table. */
  lemma BillHasARow(electric: seq<CostRow>, oil: seq<CostRow>, c: CostRow)
    requires c in electric || c in oil
    requires c.date.day == 1
    requires UniqueKeys(electric, CostDate) && UniqueKeys(oil, CostDate)
    ensures var rows := CombineUtilityData(electric, oil).value;
      exists i :: 0 <= i < |rows| && rows[i].date == c.date
  {
    var ms := CoveringMonths(electric, oil);
    var rows := CombineUtilityData(electric, oil).value;
    CombinedTableShape(electric, oil);
    CoveringMonthsReachEveryBill(electric, oil, c);
    var i :| 0 <= i < |ms| && ms[i] == MonthOf(c.date);
    assert rows[i].date == c.date;
  }

  /**
   No bill is lost: every bill dated the first of its month shows up in the
   combined table with its amount.
   */
  lemma EveryBillIsCovered(electric: seq<CostRow>, oil: seq<CostRow>)
    requires electric != [] || oil != []
    requires UniqueKeys(electric, CostDate) && UniqueKeys(oil, CostDate)
    ensures var rows := CombineUtilityData(electric, oil).value;
      && (forall e :: e in electric && e.date.day == 1 ==>
            exists i :: 0 <= i < |rows| && rows[i].date == e.date && rows[i].electricityCost == e.amount)
      && (forall o :: o in oil && o.date.day == 1 ==>
            exists i :: 0 <= i < |rows| && rows[i].date == o.date && rows[i].oilCost == o.amount)
  {
    var rows := CombineUtilityData(electric, oil).value;
    CombinedTableShape(electric, oil);
    forall e | e in electric && e.date.day == 1
      ensures exists i :: 0 <= i < |rows| && rows[i].date == e.date && rows[i].electricityCost == e.amount
    {
      BillHasARow(electric, oil, e);
      var i :| 0 <= i < |rows| && rows[i].date == e.date;
      assert CostFor(electric, rows[i].date, rows[i].electricityCost);
    }
    forall o | o in oil && o.date.day == 1
      ensures exists i :: 0 <= i < |rows| && rows[i].date == o.date && rows[i].oilCost == o.amount
    {
      BillHasARow(electric, oil, o);
      var i :| 0 <= i < |rows| && rows[i].date == o.date;
      assert CostFor(oil, rows[i].date, rows[i].oilCost);
    }
  }
}
