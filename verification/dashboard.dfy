/** The dashboard of app/page.tsx: the month's sales and expenses, the net figure, the
    low-stock list and its alert count, and the latest pending invoices. Each store
    query becomes a selection over the collection it reads. */
module Dashboard {
  import opened Calendar
  import opened Types
  import opened Seqs
  import opened Inventory

  /** The store queries' `date >= startOfMonth(now) && date <= endOfMonth(now)`. */
  predicate InMonthOf(d: DateTime, now: DateTime) {
    0 <= now.month < 12 && StartOfMonth(now) <= Instant(d) <= EndOfMonth(now)
  }

  /** The sales of the month of `now`. */
  function MonthSales(sales: seq<Sale>, now: DateTime): (r: seq<Sale>)
    ensures forall s :: s in r <==> s in sales && InMonthOf(s.date, now)
    ensures IsSubsequence(r, sales)
    ensures forall s :: multiset(r)[s] == if InMonthOf(s.date, now) then multiset(sales)[s] else 0
  {
    FilterMultiplicity(sales, (s: Sale) => InMonthOf(s.date, now));
    Filter(sales, (s: Sale) => InMonthOf(s.date, now))
  }

  /** The expenses of the month of `now`. */
  function MonthExpenses(es: seq<Expense>, now: DateTime): (r: seq<Expense>)
    ensures forall e :: e in r <==> e in es && InMonthOf(e.date, now)
    ensures IsSubsequence(r, es)
    ensures forall e :: multiset(r)[e] == if InMonthOf(e.date, now) then multiset(es)[e] else 0
  {
    FilterMultiplicity(es, (e: Expense) => InMonthOf(e.date, now));
    Filter(es, (e: Expense) => InMonthOf(e.date, now))
  }

  /** `lowStockItems`: the products at or below their minimum, in order. */
  function LowStockItems(ps: seq<Product>): (r: seq<Product>)
    ensures forall p :: p in r <==> p in ps && IsLowStock(p)
    ensures IsSubsequence(r, ps)
    ensures forall p :: multiset(r)[p] == if IsLowStock(p) then multiset(ps)[p] else 0
  {
    FilterMultiplicity(ps, (p: Product) => IsLowStock(p));
    Filter(ps, (p: Product) => IsLowStock(p))
  }

  /** `recentInvoices`: the first five pending invoices the query returns. */
  function RecentInvoices(invs: seq<Invoice>): (r: seq<Invoice>)
    ensures var pending := Filter(invs, (inv: Invoice) => inv.status == Pending);
      |r| == if |pending| < 5 then |pending| else 5
    ensures forall inv :: inv in r ==> inv in invs && inv.status == Pending
    ensures r <= Filter(invs, (inv: Invoice) => inv.status == Pending)
  {
    Take(Filter(invs, (inv: Invoice) => inv.status == Pending), 5)
  }

  /** The four cards. */
  datatype Stats = Stats(monthlySales: real, monthlyExpenses: real, net: real, stockAlerts: nat,
                         lowStockItems: seq<Product>, recentInvoices: seq<Invoice>)

  /** The dashboard computed from the collections and the current time. */
  function ComputeStats(sales: seq<Sale>, es: seq<Expense>, ps: seq<Product>, invs: seq<Invoice>, now: DateTime)
    : (st: Stats)
    ensures st.monthlySales == SumBy(MonthSales(sales, now), (s: Sale) => s.amount)
    ensures st.monthlyExpenses == SumBy(MonthExpenses(es, now), (e: Expense) => e.amount)
    ensures st.net + st.monthlyExpenses == st.monthlySales
    ensures st.lowStockItems == LowStockItems(ps) && st.stockAlerts == |st.lowStockItems|
    ensures st.recentInvoices == RecentInvoices(invs)
  {
    var income := SumBy(MonthSales(sales, now), (s: Sale) => s.amount);
    var spent := SumBy(MonthExpenses(es, now), (e: Expense) => e.amount);
    var low := LowStockItems(ps);
    Stats(income, spent, income - spent, |low|, low, RecentInvoices(invs))
  }

  /** For valid dates the month window is the calendar month: the month's sales are the
      sales dated in the year and month of `now`. */
  lemma MonthSalesAreCalendarMonth(sales: seq<Sale>, now: DateTime)
    requires Valid(now) && forall s :: s in sales ==> Valid(s.date)
    ensures MonthSales(sales, now)
      == Filter(sales, (s: Sale) => s.date.year == now.year && s.date.month == now.month)
  {
    forall s | s in sales
      ensures InMonthOf(s.date, now) == (s.date.year == now.year && s.date.month == now.month)
    {
      InMonthIff(s.date, now);
    }
    FilterExt(sales, (s: Sale) => InMonthOf(s.date, now),
              (s: Sale) => s.date.year == now.year && s.date.month == now.month);
  }

  /** The same for expenses. */
  lemma MonthExpensesAreCalendarMonth(es: seq<Expense>, now: DateTime)
    requires Valid(now) && forall e :: e in es ==> Valid(e.date)
    ensures MonthExpenses(es, now)
      == Filter(es, (e: Expense) => e.date.year == now.year && e.date.month == now.month)
  {
    forall e | e in es
      ensures InMonthOf(e.date, now) == (e.date.year == now.year && e.date.month == now.month)
    {
      InMonthIff(e.date, now);
    }
    FilterExt(es, (e: Expense) => InMonthOf(e.date, now),
              (e: Expense) => e.date.year == now.year && e.date.month == now.month);
  }

  /** The month's figure never exceeds the all-time sum of non-negative amounts. */
  lemma MonthlySalesAtMostAllTime(sales: seq<Sale>, now: DateTime)
    requires forall s :: s in sales ==> s.amount >= 0.0
    ensures 0.0 <= SumBy(MonthSales(sales, now), (s: Sale) => s.amount) <= SumBy(sales, (s: Sale) => s.amount)
  {
    SumByFilterAtMost(sales, (s: Sale) => InMonthOf(s.date, now), (s: Sale) => s.amount);
    SumByNonNegative(MonthSales(sales, now), (s: Sale) => s.amount);
  }

  /** The number of low-stock products, counted directly. */
  function CountLow(ps: seq<Product>): nat
    decreases |ps|
  {
    if |ps| == 0 then 0 else (if IsLowStock(ps[0]) then 1 else 0) + CountLow(ps[1..])
  }

  /** The alert count is the number of products at or below their minimum. */
  lemma {:induction false} StockAlertsCountLowProducts(ps: seq<Product>)
    ensures |LowStockItems(ps)| == CountLow(ps)
    decreases |ps|
  {
    if |ps| > 0 {
      StockAlertsCountLowProducts(ps[1..]);
    }
  }

  /** With fewer than six pending invoices the list shows all of them. */
  lemma RecentInvoicesShowsAllWhenFew(invs: seq<Invoice>)
    requires |Filter(invs, (inv: Invoice) => inv.status == Pending)| <= 5
    ensures RecentInvoices(invs) == Filter(invs, (inv: Invoice) => inv.status == Pending)
    ensures forall inv :: inv in invs && inv.status == Pending ==> inv in RecentInvoices(invs)
  {
  }
}
