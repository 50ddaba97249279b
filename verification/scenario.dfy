/** Whole-flow scenarios tying the builder, the lifecycle and the catalog together on
    concrete values. */
module Scenario {
  import opened Basics
  import opened Calendar
  import opened Types
  import opened Conversion
  import opened InvoiceBuilder
  import opened Lifecycle

  /** A product sold at 2.00 per unit, 25 units to a bag, 20 bags to a box, 30 boxes to a
      pallet, with 1000 units in stock. */
  const Tamal: Product := Product("Tamal", 2.0, 1000, 5, None, Some(PackagingConfig(25, 20, 30)))

  /** One box priced, saved, paid and delivered: the line and the invoice come to 1000.00,
      the sale carries 1000.00, paying again is refused, and delivery leaves 500 units. */
  lemma OneBoxFromDraftToDelivery(now: DateTime, client: Client)
    requires client.name != ""
    ensures var d := AddItem([], "P", Tamal, Box);
      && |d| == 1 && d[0].price == 1000.0 && d[0].total == 1000.0 && d[0].conversionFactor == Some(500)
      && Save(Some(client), d, now).Ok?
      && var inv := Save(Some(client), d, now).value;
      && inv.total == 1000.0 && inv.status == Pending
      && var s0 := Store(map["P" := Tamal], map["F" := inv], []);
      && var r1 := ChangeStatus(s0, "F", Paid, now, None);
      && r1.error.None? && r1.store.sales == [Sale("F", client.name, 1000.0, now, d)]
      && ChangeStatus(r1.store, "F", Paid, now, None) == Outcome(r1.store, Some(InvalidTransition))
      && var r2 := ChangeStatus(r1.store, "F", Delivered, now, None);
      && r2.error.None? && r2.store.products["P"].stock == 500
      && r2.store.invoices["F"].status == Delivered
  {
    var d := AddItem([], "P", Tamal, Box);
    assert d == [NewLine("P", Tamal, Box)];
    assert DraftTotal(d) == 1000.0;
    var inv := Save(Some(client), d, now).value;
    var s0 := Store(map["P" := Tamal], map["F" := inv], []);
    var r1 := ChangeStatus(s0, "F", Paid, now, None);
    DeductAllStock(r1.store.products, inv.items, "P");
    assert inv.items[1..] == [];
  }

  /** Three bags of a product with 25 units to a bag: one line of quantity 3 whose factor
      is 25 and whose total is 3 x 25 x the unit price. */
  lemma ThreeBags(p: Product)
    requires p.packaging.Some? && p.packaging.value.unitsPerBag == 25
    ensures var d := AddItem(AddItem(AddItem([], "P", p, Bag), "P", p, Bag), "P", p, Bag);
      && |d| == 1 && d[0].quantity == 3 && d[0].conversionFactor == Some(25)
      && d[0].total == 3.0 * (p.price * 25.0)
  {
    var d1 := AddItem([], "P", p, Bag);
    var d2 := AddItem(d1, "P", p, Bag);
    assert FindLine(d1, "P", Bag) == 0;
    assert FindLine(d2, "P", Bag) == 0;
  }
}
