/** The invoice list of app/invoices/page.tsx: the pending -> paid -> delivered state
    machine of `handleStatusChange` and the customer search. The document store becomes
    a `Store` value; every store call the handler makes is numbered in order, and a
    caller-chosen `fault` names the call that fails, so the partial effects left behind
    by a failure are part of the model. */
module Lifecycle {
  import opened Basics
  import opened Calendar
  import opened Types
  import opened Conversion
  import opened InvoiceBuilder
  import opened Seqs
  import opened Text

  /** The collections the handler reads and writes. */
  datatype Store = Store(
    products: map<ProductId, Product>,
    invoices: map<InvoiceId, Invoice>,
    sales: seq<Sale>)

  /** What a status change leaves behind: the store after every call that succeeded,
      and the error that stopped it, if any. */
  datatype Outcome = Outcome(store: Store, error: Option<Error>)

  /** The transitions the list offers a button for: pending to paid, paid to delivered. */
  predicate Offered(from: InvoiceStatus, to: InvoiceStatus) {
    (from == Pending && to == Paid) || (from == Paid && to == Delivered)
  }

  /** The sale registered when an invoice is paid. */
  function SaleFor(id: InvoiceId, inv: Invoice, now: DateTime): (s: Sale)
    ensures s.invoiceId == id && s.amount == inv.total && s.items == inv.items && s.date == now
    ensures inv.customerName != "" ==> s.customerName == inv.customerName
    ensures inv.customerName == "" ==> s.customerName == "Cliente General"
  {
    Sale(id, if inv.customerName == "" then "Cliente General" else inv.customerName, inv.total, now, inv.items)
  }

  /** The factor the delivery multiplies by: an absent factor, and a zero one, count as 1. */
  function EffectiveFactor(cf: Option<int>): (r: int)
    ensures cf.None? ==> r == 1
    ensures cf.Some? && cf.value != 0 ==> r == cf.value
    ensures cf == Some(0) ==> r == 1
    ensures r != 0
  {
    if cf.None? || cf.value == 0 then 1 else cf.value
  }

  /** The base units one line takes out of stock: its quantity times its stored factor,
      or its bare quantity when the factor is absent or zero. */
  function Deduction(item: InvoiceItem): (r: int)
    ensures item.conversionFactor.Some? && item.conversionFactor.value != 0 ==>
      r == item.quantity * item.conversionFactor.value
    ensures item.conversionFactor.None? || item.conversionFactor == Some(0) ==> r == item.quantity
  {
    item.quantity * EffectiveFactor(item.conversionFactor)
  }

  /** A line whose stored factor is the reference factor, and non-zero, takes its quantity
      of that many base units: stock leaves in the multiplier the line was priced with. */
  lemma DeductionMatchesFactor(item: InvoiceItem, p: Product, u: UnitType)
    requires item.conversionFactor == Some(Factor(p.packaging, u)) && Factor(p.packaging, u) != 0
    ensures Deduction(item) == item.quantity * Factor(p.packaging, u)
    ensures Deduction(NewLine(item.productId, p, u)) == Factor(p.packaging, u)
  {
  }

  /** A product whose packaging is {0, 0, 0}, which an unchanged edit gives a product that
      had none, prices a bag, box or pallet at 0 yet each one delivered takes a base unit
      out of stock: the line is charged for fewer units than it removes. */
  lemma ZeroFactorLineChargedLessThanDeducted(pid: ProductId, p: Product, u: UnitType)
    requires p.packaging == Some(PackagingConfig(0, 0, 0)) && p.price > 0.0
    requires u == Bag || u == Box || u == Pallet
    ensures var item := NewLine(pid, p, u);
      && item.price == 0.0 && item.conversionFactor == Some(0)
      && Deduction(item) == 1
      && item.total < Deduction(item) as real * p.price
  {
  }

  /** The deduction with an absent factor, and only an absent one, read as 1: the line
      takes exactly the base units it stores. */
  function StoredDeduction(item: InvoiceItem): (r: int)
    ensures item.conversionFactor.None? ==> r == item.quantity
    ensures item.conversionFactor.Some? ==> r == item.quantity * item.conversionFactor.value
  {
    item.quantity * item.conversionFactor.GetOr(1)
  }

  /** With the stored factor taken as it is, a new line is charged for exactly the base
      units its delivery removes, for every packaging, {0, 0, 0} included. */
  lemma StoredDeductionMatchesCharge(pid: ProductId, p: Product, u: UnitType)
    ensures var item := NewLine(pid, p, u);
      && StoredDeduction(item) == Factor(p.packaging, u)
      && item.total == StoredDeduction(item) as real * p.price
  {
  }

  /** One iteration of the delivery loop: a product that exists loses the line's base
      units, with no floor at zero; a missing product is skipped. */
  function DeductOne(ps: map<ProductId, Product>, item: InvoiceItem): (r: map<ProductId, Product>)
    ensures r.Keys == ps.Keys
    ensures item.productId in ps ==>
      r[item.productId] == ps[item.productId].(stock := ps[item.productId].stock - Deduction(item))
    ensures forall pid :: pid in ps && pid != item.productId ==> r[pid] == ps[pid]
  {
    if item.productId in ps then
      var p := ps[item.productId];
      ps[item.productId := p.(stock := p.stock - Deduction(item))]
    else ps
  }

  /** The delivery loop over all lines, in order. */
  function DeductAll(ps: map<ProductId, Product>, items: seq<InvoiceItem>): (r: map<ProductId, Product>)
    ensures r.Keys == ps.Keys
    decreases |items|
  {
    if |items| == 0 then ps else DeductAll(DeductOne(ps, items[0]), items[1..])
  }

  /** The base units the lines take from product `pid`: the sum of quantity times factor
      over the lines that name it. */
  function Deducted(items: seq<InvoiceItem>, pid: ProductId): int
    decreases |items|
  {
    if |items| == 0 then 0
    else (if items[0].productId == pid then Deduction(items[0]) else 0) + Deducted(items[1..], pid)
  }

  /** Deductions accumulate: after the loop a product's stock is its initial stock less
      the total of the lines naming it, whatever it falls to, and nothing else about it
      changes. */
  lemma {:induction false} DeductAllStock(ps: map<ProductId, Product>, items: seq<InvoiceItem>, pid: ProductId)
    requires pid in ps
    ensures DeductAll(ps, items)[pid] == ps[pid].(stock := ps[pid].stock - Deducted(items, pid))
    decreases |items|
  {
    if |items| > 0 {
      var ps1 := DeductOne(ps, items[0]);
      DeductAllStock(ps1, items[1..], pid);
    }
  }

  /** A product no line names keeps its record. */
  lemma {:induction false} DeductedUnreferenced(items: seq<InvoiceItem>, pid: ProductId)
    requires forall i :: 0 <= i < |items| ==> items[i].productId != pid
    ensures Deducted(items, pid) == 0
    decreases |items|
  {
    if |items| > 0 {
      DeductedUnreferenced(items[1..], pid);
    }
  }

  /** There is no floor at zero: delivering more than is in stock leaves a negative stock. */
  lemma DeliveryCanDriveStockNegative(p: Product, pid: ProductId, q: int)
    requires 1 <= p.stock < q
    ensures DeductAll(map[pid := p], [InvoiceItem(pid, p.name, q, 1.0, q as real, Some(Unit), None)])[pid].stock < 0
  {
    var items := [InvoiceItem(pid, p.name, q, 1.0, q as real, Some(Unit), None)];
    DeductAllStock(map[pid := p], items, pid);
    assert Deducted(items[1..], pid) == 0;
  }

  /** The number of store calls a transition makes: the sale and the status write for
      paid; one per line and the status write for delivered. */
  function StoreCalls(inv: Invoice, next: InvoiceStatus): nat {
    if next == Paid then 2 else |inv.items| + 1
  }

  /** `handleStatusChange(invoice, next)`. An unknown invoice or a transition the list does
      not offer changes nothing. Paying registers the sale and then writes the status;
      delivering deducts stock line by line and then writes the status. When store call
      number `fault` fails, the calls before it stay done and the status is not written. */
  function ChangeStatus(s: Store, id: InvoiceId, next: InvoiceStatus, now: DateTime, fault: Option<nat>): (r: Outcome)
    ensures id !in s.invoices ==> r == Outcome(s, Some(NotFound))
    ensures id in s.invoices && !Offered(s.invoices[id].status, next) ==> r == Outcome(s, Some(InvalidTransition))
    ensures r.error.None? <==>
      id in s.invoices && Offered(s.invoices[id].status, next)
      && (fault.None? || fault.value >= StoreCalls(s.invoices[id], next))
    ensures r.error.Some? ==> r.store.invoices == s.invoices
  {
    if id !in s.invoices then Outcome(s, Some(NotFound))
    else
      var inv := s.invoices[id];
      if !Offered(inv.status, next) then Outcome(s, Some(InvalidTransition))
      else if next == Paid then
        if fault == Some(0) then Outcome(s, Some(StorageError))
        else
          var s1 := s.(sales := s.sales + [SaleFor(id, inv, now)]);
          if fault == Some(1) then Outcome(s1, Some(StorageError))
          else Outcome(s1.(invoices := s.invoices[id := inv.(status := Paid, paidAt := Some(now))]), None)
      else
        var n := |inv.items|;
        if fault.Some? && fault.value < n then
          Outcome(s.(products := DeductAll(s.products, inv.items[..fault.value])), Some(StorageError))
        else
          var s1 := s.(products := DeductAll(s.products, inv.items));
          if fault == Some(n) then Outcome(s1, Some(StorageError))
          else Outcome(s1.(invoices := s.invoices[id := inv.(status := Delivered, deliveredAt := Some(now))]), None)
  }

  /** Paying touches only the sales and the invoice: one sale for the invoice is appended
      unless the first call fails, no product changes, and on success the invoice is paid
      at `now` with everything else about it kept. */
  lemma PayEffects(s: Store, id: InvoiceId, now: DateTime, fault: Option<nat>)
    requires id in s.invoices && s.invoices[id].status == Pending
    ensures var r := ChangeStatus(s, id, Paid, now, fault);
      && r.store.products == s.products
      && r.store.sales == (if fault == Some(0) then s.sales else s.sales + [SaleFor(id, s.invoices[id], now)])
      && (r.error.None? ==>
            r.store.invoices == s.invoices[id := s.invoices[id].(status := Paid, paidAt := Some(now))])
  {
  }

  /** Delivering touches only stock and the invoice: the sales are kept, every product
      loses what the lines processed before the failing call name, and on success the
      invoice is delivered at `now`. */
  lemma DeliverEffects(s: Store, id: InvoiceId, now: DateTime, fault: Option<nat>, pid: ProductId)
    requires id in s.invoices && s.invoices[id].status == Paid && pid in s.products
    ensures var r := ChangeStatus(s, id, Delivered, now, fault);
      var items := s.invoices[id].items;
      var done := if fault.Some? && fault.value < |items| then fault.value else |items|;
      && r.store.sales == s.sales
      && r.store.products.Keys == s.products.Keys
      && r.store.products[pid] == s.products[pid].(stock := s.products[pid].stock - Deducted(items[..done], pid))
      && (r.error.None? ==>
            r.store.invoices == s.invoices[id := s.invoices[id].(status := Delivered, deliveredAt := Some(now))])
  {
    var items := s.invoices[id].items;
    var done := if fault.Some? && fault.value < |items| then fault.value else |items|;
    assert items[..|items|] == items;
    DeductAllStock(s.products, items[..done], pid);
  }

  /** A successful delivery leaves every product that no line names as it was. */
  lemma DeliverKeepsUnreferenced(s: Store, id: InvoiceId, now: DateTime, pid: ProductId)
    requires id in s.invoices && s.invoices[id].status == Paid && pid in s.products
    requires forall i :: 0 <= i < |s.invoices[id].items| ==> s.invoices[id].items[i].productId != pid
    ensures ChangeStatus(s, id, Delivered, now, None).store.products[pid] == s.products[pid]
  {
    DeductAllStock(s.products, s.invoices[id].items, pid);
    DeductedUnreferenced(s.invoices[id].items, pid);
  }

  /** No transition moves an invoice backwards, and none removes one. */
  lemma StatusNeverRegresses(s: Store, id: InvoiceId, next: InvoiceStatus, now: DateTime, fault: Option<nat>, other: InvoiceId)
    requires other in s.invoices
    ensures var r := ChangeStatus(s, id, next, now, fault);
      other in r.store.invoices
      && StatusRank(r.store.invoices[other].status) >= StatusRank(s.invoices[other].status)
  {
  }

  /** The number of sales registered for invoice `id`. */
  function SalesOf(sales: seq<Sale>, id: InvoiceId): nat
    decreases |sales|
  {
    if |sales| == 0 then 0
    else (if sales[0].invoiceId == id then 1 else 0) + SalesOf(sales[1..], id)
  }

  /** Counting over an appended run of sales. */
  lemma {:induction false} SalesOfAppend(a: seq<Sale>, b: seq<Sale>, id: InvoiceId)
    ensures SalesOf(a + b, id) == SalesOf(a, id) + SalesOf(b, id)
    decreases |a|
  {
    if |a| > 0 {
      assert (a + b)[1..] == a[1..] + b;
      SalesOfAppend(a[1..], b, id);
    } else {
      assert a + b == b;
    }
  }

  /** The bookkeeping the lifecycle is meant to keep: a pending invoice has no sale, a
      paid or delivered one exactly one. */
  predicate Consistent(s: Store) {
    forall id :: id in s.invoices ==>
      SalesOf(s.sales, id) == if s.invoices[id].status == Pending then 0 else 1
  }

  /** Every transition keeps the bookkeeping, except a payment whose status write fails
      after its sale was registered. */
  lemma ChangeStatusKeepsConsistent(s: Store, id: InvoiceId, next: InvoiceStatus, now: DateTime, fault: Option<nat>)
    requires Consistent(s)
    requires next == Paid ==> fault != Some(1)
    ensures Consistent(ChangeStatus(s, id, next, now, fault).store)
  {
    var r := ChangeStatus(s, id, next, now, fault);
    if id in s.invoices && Offered(s.invoices[id].status, next) && next == Paid && fault != Some(0) {
      var sale := SaleFor(id, s.invoices[id], now);
      forall other | other in r.store.invoices
        ensures SalesOf(r.store.sales, other) == if r.store.invoices[other].status == Pending then 0 else 1
      {
        SalesOfAppend(s.sales, [sale], other);
        assert SalesOf([sale], other) == if other == id then 1 else 0;
      }
    }
  }

  /** A payment whose status write fails leaves its sale behind with the invoice still
      pending, so paying again registers a second sale for the same invoice. */
  lemma FailedPaymentRetryDuplicatesSale(s: Store, id: InvoiceId, now: DateTime, later: DateTime)
    requires Consistent(s) && id in s.invoices && s.invoices[id].status == Pending
    ensures var r1 := ChangeStatus(s, id, Paid, now, Some(1));
      var r2 := ChangeStatus(r1.store, id, Paid, later, None);
      && r1.error.Some? && r2.error.None?
      && SalesOf(r2.store.sales, id) == 2 && !Consistent(r1.store)
  {
    var inv := s.invoices[id];
    var r1 := ChangeStatus(s, id, Paid, now, Some(1));
    var r2 := ChangeStatus(r1.store, id, Paid, later, None);
    SalesOfAppend(s.sales, [SaleFor(id, inv, now)], id);
    SalesOfAppend(r1.store.sales, [SaleFor(id, inv, later)], id);
  }

  /** The payment made atomic: when either of its two store calls fails, nothing it did
      stays behind. Every other transition is `ChangeStatus` itself. */
  function ChangeStatusAtomicPayment(s: Store, id: InvoiceId, next: InvoiceStatus, now: DateTime, fault: Option<nat>)
    : (r: Outcome)
    ensures next != Paid ==> r == ChangeStatus(s, id, next, now, fault)
    ensures next == Paid && r.error.Some? ==> r.store == s
    ensures r.error.None? <==> ChangeStatus(s, id, next, now, fault).error.None?
  {
    var r := ChangeStatus(s, id, next, now, fault);
    if next == Paid && r.error.Some? then Outcome(s, r.error) else r
  }

  /** With an atomic payment every transition keeps the bookkeeping, whichever call fails. */
  lemma AtomicPaymentKeepsConsistent(s: Store, id: InvoiceId, next: InvoiceStatus, now: DateTime, fault: Option<nat>)
    requires Consistent(s)
    ensures Consistent(ChangeStatusAtomicPayment(s, id, next, now, fault).store)
  {
    if !(next == Paid && fault == Some(1)) {
      ChangeStatusKeepsConsistent(s, id, next, now, fault);
    }
  }

  /** `filteredInvoices`: a case-insensitive match on the customer name. */
  function FilterInvoices(invs: seq<Invoice>, query: string): (r: seq<Invoice>)
    ensures forall inv :: inv in r <==> inv in invs && Contains(Lower(inv.customerName), Lower(query))
    ensures IsSubsequence(r, invs)
    ensures forall inv :: multiset(r)[inv] == if Contains(Lower(inv.customerName), Lower(query)) then multiset(invs)[inv] else 0
  {
    FilterMultiplicity(invs, (inv: Invoice) => Contains(Lower(inv.customerName), Lower(query)));
    Filter(invs, (inv: Invoice) => Contains(Lower(inv.customerName), Lower(query)))
  }
}
