/**
 The pandas reductions the pipeline applies to a column: `sum`, `min`, `max` and
 `mean`, each skipping missing values (a `sum` over nothing is 0, the others are
 missing), and the per-month totals a `groupby`/`resample` by month produces.
 */
module Aggregates {
  import opened Calendar
  import opened Frames

  /** The sum of the present values: a missing value adds nothing, and a column with none sums to 0. */
  function SumPresent(xs: seq<Option<real>>): (s: real)
  {
    if xs == [] then 0.0 else xs[0].GetOr(0.0) + SumPresent(xs[1..])
  }

  /** The number of present values, as a real so that the mean needs no conversion. */
  function CountPresent(xs: seq<Option<real>>): (n: real)
    ensures n >= 0.0
  {
    if xs == [] then 0.0 else (if xs[0].Some? then 1.0 else 0.0) + CountPresent(xs[1..])
  }

  lemma {:induction false} CountZeroIffAllMissing(xs: seq<Option<real>>)
    ensures CountPresent(xs) == 0.0 <==> forall i :: 0 <= i < |xs| ==> xs[i].None?
  {
    if xs != [] {
      CountZeroIffAllMissing(xs[1..]);
      assert forall i :: 0 <= i < |xs[1..]| ==> xs[1..][i] == xs[i + 1];
    }
  }

  /** The smallest present value; missing when no value is present. */
  function MinPresent(xs: seq<Option<real>>): (r: Option<real>)
    ensures r.None? <==> forall i :: 0 <= i < |xs| ==> xs[i].None?
    ensures r.Some? ==> Some(r.value) in xs
    ensures r.Some? ==> forall i :: 0 <= i < |xs| && xs[i].Some? ==> r.value <= xs[i].value
  {
    if xs == [] then None
    else
      var rest := MinPresent(xs[1..]);
      if xs[0].None? then rest
      else if rest.None? || xs[0].value <= rest.value then xs[0]
      else rest
  }

  /** The largest present value; missing when no value is present. */
  function MaxPresent(xs: seq<Option<real>>): (r: Option<real>)
    ensures r.None? <==> forall i :: 0 <= i < |xs| ==> xs[i].None?
    ensures r.Some? ==> Some(r.value) in xs
    ensures r.Some? ==> forall i :: 0 <= i < |xs| && xs[i].Some? ==> xs[i].value <= r.value
  {
    if xs == [] then None
    else
      var rest := MaxPresent(xs[1..]);
      if xs[0].None? then rest
      else if rest.None? || xs[0].value >= rest.value then xs[0]
      else rest
  }

  /** The mean of the present values; missing when no value is present. */
  function MeanPresent(xs: seq<Option<real>>): (r: Option<real>)
    ensures r.None? <==> forall i :: 0 <= i < |xs| ==> xs[i].None?
    ensures r.Some? ==> CountPresent(xs) > 0.0 && r.value * CountPresent(xs) == SumPresent(xs)
  {
    CountZeroIffAllMissing(xs);
    var n := CountPresent(xs);
    if n == 0.0 then None else Some(SumPresent(xs) / n)
  }

  lemma {:induction false} SumAtLeast(xs: seq<Option<real>>, lo: real)
    requires forall i :: 0 <= i < |xs| && xs[i].Some? ==> lo <= xs[i].value
    ensures SumPresent(xs) >= CountPresent(xs) * lo
  {
    if xs != [] {
      assert forall i :: 0 <= i < |xs[1..]| ==> xs[1..][i] == xs[i + 1];
      SumAtLeast(xs[1..], lo);
    }
  }

  lemma {:induction false} SumAtMost(xs: seq<Option<real>>, hi: real)
    requires forall i :: 0 <= i < |xs| && xs[i].Some? ==> xs[i].value <= hi
    ensures SumPresent(xs) <= CountPresent(xs) * hi
  {
    if xs != [] {
      assert forall i :: 0 <= i < |xs[1..]| ==> xs[1..][i] == xs[i + 1];
      SumAtMost(xs[1..], hi);
    }
  }

  lemma QuotientAtLeast(s: real, n: real, lo: real)
    requires n > 0.0 && s >= n * lo
    ensures s / n >= lo
  {
    assert s / n - lo == (s - n * lo) / n;
  }

  lemma QuotientAtMost(s: real, n: real, hi: real)
    requires n > 0.0 && s <= n * hi
    ensures s / n <= hi
  {
    assert hi - s / n == (n * hi - s) / n;
  }

  /** A mean is no smaller than a lower bound of the values it averages. */
  lemma MeanAtLeast(xs: seq<Option<real>>, lo: real)
    requires forall i :: 0 <= i < |xs| && xs[i].Some? ==> lo <= xs[i].value
    requires CountPresent(xs) > 0.0
    ensures lo <= SumPresent(xs) / CountPresent(xs)
  {
    SumAtLeast(xs, lo);
    QuotientAtLeast(SumPresent(xs), CountPresent(xs), lo);
  }

  /** A mean is no larger than an upper bound of the values it averages. */
  lemma MeanAtMost(xs: seq<Option<real>>, hi: real)
    requires forall i :: 0 <= i < |xs| && xs[i].Some? ==> xs[i].value <= hi
    requires CountPresent(xs) > 0.0
    ensures SumPresent(xs) / CountPresent(xs) <= hi
  {
    SumAtMost(xs, hi);
    QuotientAtMost(SumPresent(xs), CountPresent(xs), hi);
  }

  /** A month's mean temperature lies between the smallest and the largest reading it averages. */
  lemma MeanBetweenMinAndMax(xs: seq<Option<real>>)
    requires MeanPresent(xs).Some?
    ensures MinPresent(xs).value <= MeanPresent(xs).value <= MaxPresent(xs).value
  {
    MeanAtLeast(xs, MinPresent(xs).value);
    MeanAtMost(xs, MaxPresent(xs).value);
  }

  /** Real values summed over a table. */
  function Total<T>(xs: seq<T>, val: T -> real): real {
    if xs == [] then 0.0 else val(xs[0]) + Total(xs[1..], val)
  }

  /** The values of the rows that fall in month `m`, summed (one cell of a per-month `sum`). */
  function MonthTotal<T>(xs: seq<T>, key: T -> Month, val: T -> real, m: Month): real {
    if xs == [] then 0.0
    else (if key(xs[0]) == m then val(xs[0]) else 0.0) + MonthTotal(xs[1..], key, val, m)
  }

  /** A month-total column summed over a list of months. */
  function TotalOverMonths<T>(ms: seq<Month>, xs: seq<T>, key: T -> Month, val: T -> real): real {
    if ms == [] then 0.0 else MonthTotal(xs, key, val, ms[0]) + TotalOverMonths(ms[1..], xs, key, val)
  }

  /** The months of a single row contribute its value once, if its month is listed exactly once. */
  lemma {:induction false} SingleRowOverMonths<T>(ms: seq<Month>, x: T, key: T -> Month, val: T -> real)
    requires forall i, j :: 0 <= i < j < |ms| ==> ms[i] != ms[j]
    ensures TotalOverMonths(ms, [x], key, val) == if key(x) in ms then val(x) else 0.0
  {
    if ms != [] {
      assert [x][1..] == [];
      assert MonthTotal([x], key, val, ms[0]) == if key(x) == ms[0] then val(x) else 0.0;
      assert key(x) in ms <==> key(x) == ms[0] || key(x) in ms[1..];
      SingleRowOverMonths(ms[1..], x, key, val);
      if ms[0] == key(x) {
        assert key(x) !in ms[1..] by {
          forall k | 0 <= k < |ms[1..]|
            ensures ms[1..][k] != key(x)
          {
            assert ms[1..][k] == ms[k + 1];
          }
        }
      }
    }
  }

  /** Splitting off the first row splits every month's total. */
  lemma {:induction false} OverMonthsSplit<T>(ms: seq<Month>, xs: seq<T>, key: T -> Month, val: T -> real)
    requires xs != []
    ensures TotalOverMonths(ms, xs, key, val)
         == TotalOverMonths(ms, [xs[0]], key, val) + TotalOverMonths(ms, xs[1..], key, val)
  {
    if ms != [] {
      assert [xs[0]][1..] == [];
      assert MonthTotal([xs[0]], key, val, ms[0]) == if key(xs[0]) == ms[0] then val(xs[0]) else 0.0;
      OverMonthsSplit(ms[1..], xs, key, val);
    }
  }

  /**
   Grouping by month loses and duplicates nothing: when every row's month is
   listed exactly once, the month totals add up to the total of all rows.
   */
  lemma {:induction false} GroupTotalsConserved<T>(ms: seq<Month>, xs: seq<T>, key: T -> Month, val: T -> real)
    requires forall i, j :: 0 <= i < j < |ms| ==> ms[i] != ms[j]
    requires forall x :: x in xs ==> key(x) in ms
    ensures TotalOverMonths(ms, xs, key, val) == Total(xs, val)
    decreases |xs|
  {
    if xs == [] {
      EmptyOverMonths(ms, key, val);
    } else {
      OverMonthsSplit(ms, xs, key, val);
      SingleRowOverMonths(ms, xs[0], key, val);
      GroupTotalsConserved(ms, xs[1..], key, val);
    }
  }

  lemma {:induction false} EmptyOverMonths<T>(ms: seq<Month>, key: T -> Month, val: T -> real)
    ensures TotalOverMonths(ms, [], key, val) == 0.0
  {
    if ms != [] {
      EmptyOverMonths(ms[1..], key, val);
    }
  }
}
