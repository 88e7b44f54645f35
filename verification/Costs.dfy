/** Pro-rating of expenses over report periods: _in_period, _prorated_amount,
    resolve_period and their sums in app/expenses/cost_dashboard.py.
    Dates are day numbers, money is in cents. */
module Costs {
  import opened Options
  import opened Rounding
  import opened Sequences

  datatype Expense = Expense(amount: int, date: int, coverageStart: Option<int>, coverageEnd: Option<int>,
                             perFlight: bool, fixedCost: bool)
  {
    predicate Covered() {
      coverageStart.Some? && coverageEnd.Some?
    }

    /** The form gives both ends of a coverage span or neither, in order. */
    ghost predicate WellFormed() {
      Covered() ==> coverageStart.value <= coverageEnd.value
    }

    function CoverageDays(): int
      requires Covered()
    {
      coverageEnd.value - coverageStart.value + 1
    }
  }

  /** Both ends included; no start means all time. */
  datatype Period = Period(start: Option<int>, end: int)

  function Min(a: int, b: int): int {
    if a < b then a else b
  }

  function Max(a: int, b: int): int {
    if a > b then a else b
  }

  predicate InPeriod(e: Expense, p: Period) {
    if e.Covered() then
      e.coverageStart.value <= p.end && !(p.start.Some? && e.coverageEnd.value < p.start.value)
    else
      e.date <= p.end && !(p.start.Some? && e.date < p.start.value)
  }

  function OverlapDays(e: Expense, p: Period): int
    requires e.Covered()
  {
    var start := if p.start.None? then e.coverageStart.value else Max(e.coverageStart.value, p.start.value);
    Min(e.coverageEnd.value, p.end) - start + 1
  }

  /** Amount attributable to the period, in whole cents. */
  function ProratedAmount(e: Expense, p: Period): int {
    if !e.Covered() || e.CoverageDays() <= 0 then e.amount
    else if OverlapDays(e, p) <= 0 then 0
    else RoundHalfEven(e.amount * OverlapDays(e, p), e.CoverageDays())
  }

  /** The same share before rounding, as a numerator over the coverage days. */
  function ShareTimesDays(e: Expense, p: Period): int
    requires e.Covered()
  {
    e.amount * Max(OverlapDays(e, p), 0)
  }

  /** What the dashboard counts of an expense. */
  function Attributed(e: Expense, p: Period): int {
    if InPeriod(e, p) then ProratedAmount(e, p) else 0
  }

  /** An expense is in a period exactly if at least one covered day is. */
  lemma InPeriodIffOverlap(e: Expense, p: Period)
    requires e.Covered() && e.WellFormed() && (p.start.Some? ==> p.start.value <= p.end)
    ensures InPeriod(e, p) <==> OverlapDays(e, p) >= 1
  {
  }

  /** One below is at least d below, d times over. */
  lemma TimesBelow(x: int, y: int, d: int)
    requires x < y && d > 0
    ensures x * d <= y * d - d
  {
    assert (y - 1 - x) * d >= 0;
    assert (y - 1 - x) * d == y * d - d - x * d;
  }

  /** Bounds survive dividing by a positive d. */
  lemma DivideBounds(lo: int, x: int, hi: int, d: int)
    requires d > 0 && lo * d - d < x * d < hi * d + d
    ensures lo <= x <= hi
  {
    if x < lo {
      TimesBelow(x, lo, d);
    } else if x > hi {
      TimesBelow(hi, x, d);
    }
  }

  lemma RoundedWithin(a: int, o: int, d: int)
    requires a >= 0 && 0 < o <= d
    ensures 0 <= RoundHalfEven(a * o, d) <= a
  {
    var r := RoundHalfEven(a * o, d);
    assert 0 <= a * o;
    assert a * (d - o) >= 0;
    assert a * d == a * o + a * (d - o);
    DivideBounds(0, r, a, d);
  }

  /** A share is never negative nor more than the whole. */
  lemma ShareWithinAmount(e: Expense, p: Period)
    requires e.amount >= 0
    ensures 0 <= Attributed(e, p) <= e.amount
  {
    if e.Covered() && e.CoverageDays() > 0 && OverlapDays(e, p) > 0 {
      RoundedWithin(e.amount, OverlapDays(e, p), e.CoverageDays());
    }
  }

  // ---------------------------------------------------------------- Consecutive periods

  /** Successive report periods: the k-th runs from bounds[k] to the day before bounds[k + 1]. */
  function PeriodAt(bounds: seq<int>, k: nat): Period
    requires k + 1 < |bounds|
  {
    Period(Some(bounds[k]), bounds[k + 1] - 1)
  }

  function SumAttributed(e: Expense, bounds: seq<int>, n: nat): int
    requires n < |bounds|
  {
    if n == 0 then 0 else SumAttributed(e, bounds, n - 1) + Attributed(e, PeriodAt(bounds, n - 1))
  }

  function SumShares(e: Expense, bounds: seq<int>, n: nat): int
    requires n < |bounds| && e.Covered()
  {
    if n == 0 then 0 else SumShares(e, bounds, n - 1) + ShareTimesDays(e, PeriodAt(bounds, n - 1))
  }

  /** The first n periods together hold the shares of the span they form. */
  lemma {:induction false} SharesOfPrefix(e: Expense, bounds: seq<int>, n: nat)
    requires e.Covered() && e.WellFormed() && Increasing(bounds) && n < |bounds| && bounds[0] <= e.coverageStart.value
    ensures SumShares(e, bounds, n)
            == e.amount * Max(0, Min(e.coverageEnd.value, bounds[n] - 1) - e.coverageStart.value + 1)
  {
    if n > 0 {
      SharesOfPrefix(e, bounds, n - 1);
      var s, t := e.coverageStart.value, e.coverageEnd.value;
      var before := Max(0, Min(t, bounds[n - 1] - 1) - s + 1);
      var here := Max(OverlapDays(e, PeriodAt(bounds, n - 1)), 0);
      assert bounds[n - 1] < bounds[n];
      assert e.amount * before + e.amount * here == e.amount * (before + here);
    }
  }

  /** Over periods that hold the whole coverage span, the unrounded shares add up
      to the amount. */
  lemma SharesConserve(e: Expense, bounds: seq<int>)
    requires e.Covered() && e.WellFormed() && Increasing(bounds) && |bounds| > 0
    requires bounds[0] <= e.coverageStart.value && e.coverageEnd.value < bounds[|bounds| - 1]
    ensures SumShares(e, bounds, |bounds| - 1) == e.amount * e.CoverageDays()
  {
    SharesOfPrefix(e, bounds, |bounds| - 1);
  }

  /** Rounding one share costs half a cent at most. */
  lemma RoundingError(e: Expense, p: Period)
    requires e.Covered() && e.WellFormed() && p.start.Some? && p.start.value <= p.end
    ensures var d := e.CoverageDays(); -d <= 2 * (Attributed(e, p) * d - ShareTimesDays(e, p)) <= d
  {
  }

  lemma AddErrors(n: int, d: int, sum: int, one: int, shares: int, share: int)
    requires -(n * d) <= 2 * (sum * d - shares) <= n * d
    requires -d <= 2 * (one * d - share) <= d
    ensures -((n + 1) * d) <= 2 * ((sum + one) * d - (shares + share)) <= (n + 1) * d
  {
  }

  lemma {:induction false} RoundingErrors(e: Expense, bounds: seq<int>, n: nat)
    requires e.Covered() && e.WellFormed() && Increasing(bounds) && n < |bounds|
    ensures var d := e.CoverageDays();
            -(n * d) <= 2 * (SumAttributed(e, bounds, n) * d - SumShares(e, bounds, n)) <= n * d
  {
    if n > 0 {
      RoundingErrors(e, bounds, n - 1);
      var p := PeriodAt(bounds, n - 1);
      RoundingError(e, p);
      AddErrors(n - 1, e.CoverageDays(), SumAttributed(e, bounds, n - 1), Attributed(e, p),
                SumShares(e, bounds, n - 1), ShareTimesDays(e, p));
    }
  }

  /** Over n periods the amounts reported differ from the amount spent by at most
      half a cent per period. */
  lemma MoneyConserved(e: Expense, bounds: seq<int>)
    requires e.Covered() && e.WellFormed() && Increasing(bounds) && |bounds| > 0
    requires bounds[0] <= e.coverageStart.value && e.coverageEnd.value < bounds[|bounds| - 1]
    ensures var n := |bounds| - 1; -n <= 2 * (SumAttributed(e, bounds, n) - e.amount) <= n
  {
    var n, d := |bounds| - 1, e.CoverageDays();
    SharesConserve(e, bounds);
    RoundingErrors(e, bounds, n);
    DivideError(n, d, SumAttributed(e, bounds, n), e.amount);
  }

  lemma DivideError(n: int, d: int, sum: int, amount: int)
    requires d > 0 && -(n * d) <= 2 * (sum * d - amount * d) <= n * d
    ensures -n <= 2 * (sum - amount) <= n
  {
  }

  /** The period a day falls in. */
  lemma PeriodOf(bounds: seq<int>, day: int, n: nat) returns (k: nat)
    requires Increasing(bounds) && n < |bounds| && bounds[0] <= day < bounds[n]
    ensures k < n && bounds[k] <= day < bounds[k + 1]
    decreases n
  {
    if bounds[n - 1] <= day {
      k := n - 1;
    } else {
      k := PeriodOf(bounds, day, n - 1);
    }
  }

  /** Counted in full in period k and nowhere else. */
  lemma {:induction false} CountedOnce(e: Expense, bounds: seq<int>, n: nat, k: nat)
    requires k + 1 < |bounds| && n < |bounds|
    requires forall m :: 0 <= m < |bounds| - 1 ==> Attributed(e, PeriodAt(bounds, m)) == if m == k then e.amount else 0
    ensures SumAttributed(e, bounds, n) == if k < n then e.amount else 0
  {
    if n > 0 {
      CountedOnce(e, bounds, n - 1, k);
    }
  }

  /** An expense without a coverage span is counted exactly once, to the cent. */
  lemma UncoveredCountedOnce(e: Expense, bounds: seq<int>)
    requires !e.Covered() && Increasing(bounds) && |bounds| > 0 && bounds[0] <= e.date < bounds[|bounds| - 1]
    ensures SumAttributed(e, bounds, |bounds| - 1) == e.amount
  {
    var k := PeriodOf(bounds, e.date, |bounds| - 1);
    forall m | 0 <= m < |bounds| - 1
      ensures Attributed(e, PeriodAt(bounds, m)) == if m == k then e.amount else 0
    {
      if m < k { assert bounds[m + 1] <= bounds[k]; }
      if m > k { assert bounds[k + 1] <= bounds[m]; }
    }
    CountedOnce(e, bounds, |bounds| - 1, k);
  }

  /** A span stored the wrong way round is counted in full if one period holds both
      its ends, and otherwise not at all: the money is missing from every report. */
  lemma ReversedSpanCounted(e: Expense, bounds: seq<int>)
    requires e.Covered() && !e.WellFormed() && Increasing(bounds) && |bounds| > 0
    ensures SumAttributed(e, bounds, |bounds| - 1)
            == if exists k :: 0 <= k < |bounds| - 1
                             && bounds[k] <= e.coverageEnd.value && e.coverageStart.value < bounds[k + 1]
               then e.amount else 0
  {
    if k :| 0 <= k < |bounds| - 1 && bounds[k] <= e.coverageEnd.value && e.coverageStart.value < bounds[k + 1] {
      forall m | 0 <= m < |bounds| - 1
        ensures Attributed(e, PeriodAt(bounds, m)) == if m == k then e.amount else 0
      {
        if m < k { assert bounds[m + 1] <= bounds[k]; }
        if m > k { assert bounds[k + 1] <= bounds[m]; }
      }
      CountedOnce(e, bounds, |bounds| - 1, k);
    } else {
      NeverCounted(e, bounds, |bounds| - 1);
    }
  }

  lemma {:induction false} NeverCounted(e: Expense, bounds: seq<int>, n: nat)
    requires n < |bounds| && forall m :: 0 <= m < |bounds| - 1 ==> !InPeriod(e, PeriodAt(bounds, m))
    ensures SumAttributed(e, bounds, n) == 0
  {
    if n > 0 {
      NeverCounted(e, bounds, n - 1);
    }
  }

  // ---------------------------------------------------------------- The dashboard

  /** round(period_months * 365 / 12) days back from today; all time for 0 or less. */
  function ResolvePeriod(months: int, today: int): Period {
    if months <= 0 then Period(None, today)
    else Period(Some(today - RoundHalfEven(months * 365, 12)), today)
  }

  /** The dates from a to b, both included. */
  function Dates(a: int, b: int): (dates: set<int>)
    requires a <= b + 1
    ensures |dates| == b - a + 1
    ensures forall d :: d in dates <==> a <= d <= b
    decreases b - a + 1
  {
    if a > b then {} else Dates(a, b - 1) + {b}
  }

  /** The days a period of so many months is documented to have. */
  function WindowDays(months: int): (days: int)
    requires months > 0
    ensures days > 0
  {
    RoundHalfEven(months * 365, 12)
  }

  /** Every period in months counts the expenses of one date more than documented:
      both its ends are included. */
  lemma WindowOneDateTooLong(e: Expense, months: int, today: int)
    requires months > 0 && !e.Covered()
    ensures InPeriod(e, ResolvePeriod(months, today)) <==> e.date in Dates(today - WindowDays(months), today)
    ensures |Dates(today - WindowDays(months), today)| == WindowDays(months) + 1
  {
  }

  /** The twelve-month option, documented as a rolling 365-day window, has 366 dates. */
  lemma TwelveMonthsCount366Dates(e: Expense, today: int)
    requires !e.Covered()
    ensures InPeriod(e, ResolvePeriod(12, today)) <==> e.date in Dates(today - 365, today)
    ensures |Dates(today - 365, today)| == 366
  {
    WindowOneDateTooLong(e, 12, today);
  }

  function Total(es: seq<Expense>, p: Period, counts: Expense -> bool): int {
    if es == [] then 0
    else
      var e := es[|es| - 1];
      Total(es[..|es| - 1], p, counts) + if InPeriod(e, p) && counts(e) then ProratedAmount(e, p) else 0
  }

  function FixedTotal(es: seq<Expense>, p: Period): int {
    Total(es, p, (e: Expense) => !e.perFlight && e.fixedCost)
  }

  function OperatingTotal(es: seq<Expense>, p: Period): int {
    Total(es, p, (e: Expense) => !e.perFlight && !e.fixedCost)
  }

  // ---------------------------------------------------------------- Successive dashboards

  /** What n successive dashboards report, of the fixed expenses and of the others. */
  function FixedReported(es: seq<Expense>, bounds: seq<int>, n: nat): int
    requires n < |bounds|
  {
    if n == 0 then 0 else FixedReported(es, bounds, n - 1) + FixedTotal(es, PeriodAt(bounds, n - 1))
  }

  function OperatingReported(es: seq<Expense>, bounds: seq<int>, n: nat): int
    requires n < |bounds|
  {
    if n == 0 then 0 else OperatingReported(es, bounds, n - 1) + OperatingTotal(es, PeriodAt(bounds, n - 1))
  }

  /** Money spent on some of the expenses, and how many they are. */
  function Spent(es: seq<Expense>, counts: Expense -> bool): int {
    if es == [] then 0 else Spent(es[..|es| - 1], counts) + if counts(es[|es| - 1]) then es[|es| - 1].amount else 0
  }

  function HowMany(es: seq<Expense>, counts: Expense -> bool): nat {
    if es == [] then 0 else HowMany(es[..|es| - 1], counts) + if counts(es[|es| - 1]) then 1 else 0
  }

  function TotalOver(es: seq<Expense>, bounds: seq<int>, n: nat, counts: Expense -> bool): int
    requires n < |bounds|
  {
    if n == 0 then 0 else TotalOver(es, bounds, n - 1, counts) + Total(es, PeriodAt(bounds, n - 1), counts)
  }

  lemma {:induction false} TotalOverOneMore(es: seq<Expense>, e: Expense, bounds: seq<int>, n: nat,
                                            counts: Expense -> bool)
    requires n < |bounds|
    ensures TotalOver(es + [e], bounds, n, counts)
            == TotalOver(es, bounds, n, counts) + if counts(e) then SumAttributed(e, bounds, n) else 0
  {
    if n > 0 {
      TotalOverOneMore(es, e, bounds, n - 1, counts);
      TotalOneMore(es, e, PeriodAt(bounds, n - 1), counts);
    }
  }

  lemma TotalOneMore(es: seq<Expense>, e: Expense, p: Period, counts: Expense -> bool)
    ensures Total(es + [e], p, counts) == Total(es, p, counts) + if counts(e) then Attributed(e, p) else 0
  {
  }

  lemma {:induction false} NothingReported(bounds: seq<int>, n: nat, counts: Expense -> bool)
    requires n < |bounds|
    ensures TotalOver([], bounds, n, counts) == 0
  {
    if n > 0 {
      NothingReported(bounds, n - 1, counts);
    }
  }

  /** The periods hold all of the expenses. */
  ghost predicate Within(es: seq<Expense>, bounds: seq<int>) {
    && Increasing(bounds) && |bounds| > 0
    && (forall e :: e in es ==> e.WellFormed())
    && (forall e :: e in es && e.Covered() ==>
          bounds[0] <= e.coverageStart.value && e.coverageEnd.value < bounds[|bounds| - 1])
    && (forall e :: e in es && !e.Covered() ==> bounds[0] <= e.date < bounds[|bounds| - 1])
  }

  /** Successive dashboards report any selection of expenses to within half a cent for
      each of them and each period. */
  lemma {:induction false} SelectionConserved(es: seq<Expense>, bounds: seq<int>, counts: Expense -> bool)
    requires Within(es, bounds)
    ensures var n, m := |bounds| - 1, HowMany(es, counts);
            -(n * m) <= 2 * (TotalOver(es, bounds, n, counts) - Spent(es, counts)) <= n * m
  {
    var n := |bounds| - 1;
    if es == [] {
      NothingReported(bounds, n, counts);
    } else {
      hide TotalOver, SumAttributed, Increasing;
      var init, e := es[..|es| - 1], es[|es| - 1];
      assert es == init + [e] && e in es;
      SelectionConserved(init, bounds, counts);
      TotalOverOneMore(init, e, bounds, n, counts);
      if e.Covered() { MoneyConserved(e, bounds); } else { UncoveredCountedOnce(e, bounds); }
      OneMore(n, HowMany(init, counts));
    }
  }

  lemma OneMore(n: int, m: int)
    ensures n * (m + 1) == n * m + n
  {
  }

  lemma {:induction false} ReportsAreSelections(es: seq<Expense>, bounds: seq<int>, n: nat,
                                                fixed: Expense -> bool, operating: Expense -> bool)
    requires n < |bounds|
    requires forall e :: fixed(e) <==> e.fixedCost && !e.perFlight
    requires forall e :: operating(e) <==> !e.fixedCost && !e.perFlight
    ensures FixedReported(es, bounds, n) == TotalOver(es, bounds, n, fixed)
    ensures OperatingReported(es, bounds, n) == TotalOver(es, bounds, n, operating)
  {
    if n > 0 {
      ReportsAreSelections(es, bounds, n - 1, fixed, operating);
      SameSelection(es, PeriodAt(bounds, n - 1), fixed, (e: Expense) => !e.perFlight && e.fixedCost);
      SameSelection(es, PeriodAt(bounds, n - 1), operating, (e: Expense) => !e.perFlight && !e.fixedCost);
    }
  }

  lemma {:induction false} SameSelection(es: seq<Expense>, p: Period, a: Expense -> bool, b: Expense -> bool)
    requires forall e :: a(e) == b(e)
    ensures Total(es, p, a) == Total(es, p, b)
  {
    if es != [] {
      SameSelection(es[..|es| - 1], p, a, b);
    }
  }

  /** Successive dashboards report under fixed costs the fixed expenses that are not tied
      to a flight, under operating costs the others not tied to one, each to within half
      a cent for each such expense and period. */
  lemma DashboardsConserve(es: seq<Expense>, bounds: seq<int>, fixed: Expense -> bool, operating: Expense -> bool)
    requires Within(es, bounds)
    requires forall e :: fixed(e) <==> e.fixedCost && !e.perFlight
    requires forall e :: operating(e) <==> !e.fixedCost && !e.perFlight
    ensures var n, m := |bounds| - 1, HowMany(es, fixed);
            -(n * m) <= 2 * (FixedReported(es, bounds, n) - Spent(es, fixed)) <= n * m
    ensures var n, m := |bounds| - 1, HowMany(es, operating);
            -(n * m) <= 2 * (OperatingReported(es, bounds, n) - Spent(es, operating)) <= n * m
  {
    ReportsAreSelections(es, bounds, |bounds| - 1, fixed, operating);
    SelectionConserved(es, bounds, fixed);
    SelectionConserved(es, bounds, operating);
  }

  lemma SpentOnOne(e: Expense, counts: Expense -> bool)
    ensures Spent([e], counts) == if counts(e) then e.amount else 0
    ensures HowMany([e], counts) == if counts(e) then 1 else 0
  {
    assert [e][..0] == [];
  }

  /** A single expense, on one dashboard: each category reports it only if it is in it. */
  lemma CategoryOfOne(e: Expense, p: Period)
    ensures FixedTotal([e], p) == if e.fixedCost && !e.perFlight then Attributed(e, p) else 0
    ensures OperatingTotal([e], p) == if !e.fixedCost && !e.perFlight then Attributed(e, p) else 0
  {
    assert [] + [e] == [e];
    TotalOneMore([], e, p, (x: Expense) => !x.perFlight && x.fixedCost);
    TotalOneMore([], e, p, (x: Expense) => !x.perFlight && !x.fixedCost);
  }

  // ---------------------------------------------------------------- Days

  /** Without a start the period reaches back before everything: an expense counts as in
      any period with the same end that begins early enough. */
  lemma AllTime(e: Expense, months: int, today: int, start: int)
    requires months <= 0 && e.WellFormed()
    requires e.Covered() ==> start <= e.coverageStart.value
    requires !e.Covered() ==> start <= e.date
    ensures ResolvePeriod(months, today) == Period(None, today)
    ensures Attributed(e, ResolvePeriod(months, today)) == Attributed(e, Period(Some(start), today))
    ensures !e.Covered() ==> Attributed(e, ResolvePeriod(months, today)) == if e.date <= today then e.amount else 0
  {
  }

  /** The overlap is the number of days that are both covered and in the period. */
  lemma OverlapCountsDays(e: Expense, p: Period, days: set<int>)
    requires e.Covered() && e.WellFormed()
    requires forall d :: d in days <==> e.coverageStart.value <= d <= e.coverageEnd.value
                                        && (p.start.Some? ==> p.start.value <= d) && d <= p.end
    ensures |days| == Max(OverlapDays(e, p), 0)
  {
    var first := if p.start.None? then e.coverageStart.value else Max(e.coverageStart.value, p.start.value);
    var last := Min(e.coverageEnd.value, p.end);
    if first <= last {
      assert days == Dates(first, last);
    } else {
      SomeMember(days);
    }
  }
}
