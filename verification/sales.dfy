/** The sales history of app/sales/page.tsx: the search by invoice id, the time-range
    filter, the all-time total, the average sale and the "this month" card. */
module Sales {
  import opened Basics
  import opened Calendar
  import opened Types
  import opened Seqs
  import opened Text

  /** The range selector. Any other value it might carry behaves like "all". */
  datatype TimeRange = AllTime | Today | Week | Month | Year | Unrecognised(name: string)

  /** The earliest instant a range keeps, counted from midnight of `now`; none for "all"
      and for unrecognised ranges. */
  function RangeStart(range: TimeRange, now: DateTime): (r: Option<int>)
    ensures r.None? <==> range.AllTime? || range.Unrecognised?
    ensures range == Today ==> r == Some(Instant(now.(msOfDay := 0)))
    ensures range == Week ==> r == Some(Instant(now.(msOfDay := 0)) - Weekday(now) * DayMs)
    ensures range == Month ==> r == Some(Instant(DateTime(now.year, now.month, 1, 0)))
    ensures range == Year ==> r == Some(Instant(DateTime(now.year, 0, 1, 0)))
  {
    match range
    case Today => Some(StartOfDay(now))
    case Week => Some(StartOfWeek(now))
    case Month => Some(StartOfMonth(now))
    case Year => Some(StartOfYear(now))
    case _ => None
  }

  /** The search: a case-insensitive match on the invoice id. */
  predicate SearchMatches(s: Sale, search: string) {
    Contains(Lower(s.invoiceId), Lower(search))
  }

  /** The predicate of `filteredSales`. */
  predicate SaleMatches(s: Sale, search: string, range: TimeRange, now: DateTime) {
    SearchMatches(s, search) && (RangeStart(range, now).None? || Instant(s.date) >= RangeStart(range, now).value)
  }

  /** `filteredSales`. */
  function FilterSales(sales: seq<Sale>, search: string, range: TimeRange, now: DateTime): (r: seq<Sale>)
    ensures forall s :: s in r <==> s in sales && SaleMatches(s, search, range, now)
    ensures IsSubsequence(r, sales)
    ensures forall s :: multiset(r)[s] == if SaleMatches(s, search, range, now) then multiset(sales)[s] else 0
  {
    FilterMultiplicity(sales, (s: Sale) => SaleMatches(s, search, range, now));
    Filter(sales, (s: Sale) => SaleMatches(s, search, range, now))
  }

  /** "All", and any unrecognised range, keep every sale the search matches. */
  lemma UnboundedRangesKeepSearchMatches(sales: seq<Sale>, search: string, range: TimeRange, now: DateTime)
    requires range.AllTime? || range.Unrecognised?
    ensures FilterSales(sales, search, range, now) == Filter(sales, (s: Sale) => SearchMatches(s, search))
  {
    FilterExt(sales, (s: Sale) => SaleMatches(s, search, range, now), (s: Sale) => SearchMatches(s, search));
  }

  /** A range that starts no later than another keeps at least its sales. */
  lemma WiderRangeKeepsMore(sales: seq<Sale>, search: string, narrow: TimeRange, wide: TimeRange, now: DateTime)
    requires RangeStart(narrow, now).Some? && RangeStart(wide, now).Some?
    requires RangeStart(wide, now).value <= RangeStart(narrow, now).value
    ensures IsSubsequence(FilterSales(sales, search, narrow, now), FilterSales(sales, search, wide, now))
  {
    FilterMonotone(sales, (s: Sale) => SaleMatches(s, search, narrow, now),
                          (s: Sale) => SaleMatches(s, search, wide, now));
  }

  /** For a valid `now`: today's sales are among the week's and the month's, and the
      month's among the year's. */
  lemma RangesNest(sales: seq<Sale>, search: string, now: DateTime)
    requires Valid(now)
    ensures IsSubsequence(FilterSales(sales, search, Today, now), FilterSales(sales, search, Week, now))
    ensures IsSubsequence(FilterSales(sales, search, Today, now), FilterSales(sales, search, Month, now))
    ensures IsSubsequence(FilterSales(sales, search, Month, now), FilterSales(sales, search, Year, now))
  {
    BoundariesOrdered(now);
    WiderRangeKeepsMore(sales, search, Today, Week, now);
    WiderRangeKeepsMore(sales, search, Today, Month, now);
    WiderRangeKeepsMore(sales, search, Month, Year, now);
  }

  /** `totalSales`: the amounts of all sales, whatever the filter shows, accumulated from
      the first sale to the last. */
  function TotalSales(sales: seq<Sale>): (r: real)
    ensures |sales| == 0 ==> r == 0.0
    ensures |sales| > 0 ==> r == SumBy(sales[..|sales| - 1], (s: Sale) => s.amount) + sales[|sales| - 1].amount
  {
    if |sales| > 0 then
      var init := sales[..|sales| - 1];
      assert sales == init + [sales[|sales| - 1]];
      SumByAppend(init, [sales[|sales| - 1]], (s: Sale) => s.amount);
      SumBy(sales, (s: Sale) => s.amount)
    else
      SumBy(sales, (s: Sale) => s.amount)
  }

  /** Totals of two runs of sales add up. */
  lemma TotalSalesAppend(a: seq<Sale>, b: seq<Sale>)
    ensures TotalSales(a + b) == TotalSales(a) + TotalSales(b)
  {
    SumByAppend(a, b, (s: Sale) => s.amount);
  }

  /** The average sale: the total over the count, 0 without sales. */
  function Average(sales: seq<Sale>): (r: real)
    ensures |sales| == 0 ==> r == 0.0
    ensures |sales| > 0 ==> r * |sales| as real == TotalSales(sales)
  {
    if |sales| > 0 then TotalSales(sales) / |sales| as real else 0.0
  }

  /** The "this month" card as written: it shows the all-time total. */
  function MonthCardAsWritten(sales: seq<Sale>, now: DateTime): real {
    TotalSales(sales)
  }

  /** A sale from before this month is counted on the "this month" card. */
  lemma MonthCardCountsEarlierSales(s: Sale, now: DateTime)
    requires Instant(s.date) < StartOfMonth(now) && s.amount > 0.0
    ensures MonthCardAsWritten([s], now) == s.amount
    ensures MonthCard([s], now) == 0.0
  {
    assert [s][1..] == [];
    assert TotalSales([s]) == s.amount + TotalSales([]);
    assert FilterSales([s], "", Month, now) == [];
  }

  /** The "this month" card as its label promises: the total of the sales the page's own
      "month" range keeps. */
  function MonthCard(sales: seq<Sale>, now: DateTime): (r: real) {
    TotalSales(FilterSales(sales, "", Month, now))
  }

  /** The corrected card counts exactly the sales dated from the start of the month, and
      with non-negative amounts it never exceeds the all-time total. */
  lemma MonthCardIsThisMonth(sales: seq<Sale>, now: DateTime)
    ensures MonthCard(sales, now) == SumBy(Filter(sales, (s: Sale) => Instant(s.date) >= StartOfMonth(now)), (s: Sale) => s.amount)
    ensures (forall s :: s in sales ==> s.amount >= 0.0) ==> MonthCard(sales, now) <= TotalSales(sales)
  {
    forall s | s in sales
      ensures SaleMatches(s, "", Month, now) == (Instant(s.date) >= StartOfMonth(now))
    {
      ContainsEmpty(Lower(s.invoiceId));
    }
    FilterExt(sales, (s: Sale) => SaleMatches(s, "", Month, now), (s: Sale) => Instant(s.date) >= StartOfMonth(now));
    if forall s :: s in sales ==> s.amount >= 0.0 {
      SumByFilterAtMost(sales, (s: Sale) => SaleMatches(s, "", Month, now), (s: Sale) => s.amount);
    }
  }
}
