/** The add-product modal of app/invoices/new/page.tsx: the quantity and packaging level
    picked for a product, the estimate the modal shows, and what confirming adds to the
    draft, once as written and once with the picked quantity honoured. */
module QuantityModal {
  import opened Basics
  import opened Types
  import opened Conversion
  import opened InvoiceBuilder

  /** The modal's "Total Estimado": the price of `addQty` of the chosen unit type. */
  function EstimatedTotal(p: Product, u: UnitType, addQty: int): (r: real)
    ensures addQty == 1 ==> r == CalculatePrice(p, u)
  {
    CalculatePrice(p, u) * addQty as real
  }

  /** `confirmAddItem` as written: `addItem(activeProduct, addUnitType)`, which adds exactly
      one of the unit type whatever quantity the modal shows. */
  function ConfirmAddItem(d: Draft, active: Option<(ProductId, Product)>, addQty: int, u: UnitType): (r: Draft)
    ensures active.None? ==> r == d
    ensures active.Some? ==> r == AddItem(d, active.value.0, active.value.1, u)
  {
    if active.None? then d else AddItem(d, active.value.0, active.value.1, u)
  }

  /** The quantity picked in the modal is lost: for a product not yet in the draft, the
      draft grows by a line of one, so the total rises by one unit price, less than the
      estimate the modal showed for `addQty`. */
  lemma ConfirmAddItemMissesEstimate(d: Draft, pid: ProductId, p: Product, u: UnitType, addQty: int)
    requires WellFormed(d) && FindLine(d, pid, u) == -1 && addQty >= 2 && CalculatePrice(p, u) > 0.0
    ensures var r := ConfirmAddItem(d, Some((pid, p)), addQty, u);
      && r[|d|].quantity == 1
      && DraftTotal(r) - DraftTotal(d) == CalculatePrice(p, u) < EstimatedTotal(p, u, addQty)
  {
    AddItemRaisesTotal(d, pid, p, u);
    EstimateExceedsUnitPrice(p, u, addQty);
  }

  /** For a positive unit price, the estimate for two or more exceeds one unit price. */
  lemma EstimateExceedsUnitPrice(p: Product, u: UnitType, n: int)
    requires CalculatePrice(p, u) > 0.0 && n >= 2
    ensures CalculatePrice(p, u) < EstimatedTotal(p, u, n)
  {
    Distribute(1.0, (n - 1) as real, CalculatePrice(p, u));
  }

  /** `addItem` extended to the modal's quantity: `qty` more of an existing line, or a
      new line of `qty`. */
  function AddItemQuantity(d: Draft, pid: ProductId, p: Product, u: UnitType, qty: int): (r: Draft)
    requires qty >= 1
    ensures FindLine(d, pid, u) >= 0 ==>
      var k := FindLine(d, pid, u);
      r == GrowLine(d, k, qty)
    ensures FindLine(d, pid, u) == -1 ==>
      && |r| == |d| + 1 && r[..|d|] == d
      && r[|d|].quantity == qty && r[|d|].price == CalculatePrice(p, u)
      && r[|d|].total == qty as real * r[|d|].price
      && r[|d|].conversionFactor == Some(Factor(p.packaging, u)) && SameLine(r[|d|], pid, u)
      && r[|d|].name == p.name
  {
    var k := FindLine(d, pid, u);
    if k >= 0 then
      GrowLine(d, k, qty)
    else
      d + [QuantityLine(pid, p, u, qty)]
  }

  /** The line the modal appends for `qty` of a product not yet in the draft. */
  function QuantityLine(pid: ProductId, p: Product, u: UnitType, qty: int): (item: InvoiceItem)
    requires qty >= 1
    ensures LineConsistent(item) && item.quantity == qty && item.price == CalculatePrice(p, u)
    ensures item.conversionFactor == Some(Factor(p.packaging, u)) && SameLine(item, pid, u)
    ensures item.name == p.name
  {
    var price := CalculatePrice(p, u);
    InvoiceItem(pid, p.name, qty, price, qty as real * price, Some(u), Some(GetConversionFactor(p, u)))
  }

  /** Adding `qty` keeps the draft invariants. */
  lemma AddItemQuantityKeepsWellFormed(d: Draft, pid: ProductId, p: Product, u: UnitType, qty: int)
    requires WellFormed(d) && qty >= 1
    ensures WellFormed(AddItemQuantity(d, pid, p, u, qty))
  {
    var k := FindLine(d, pid, u);
    if k >= 0 {
      ReplaceKeepsWellFormed(d, k, WithQuantity(d[k], d[k].quantity + qty));
      assert GrowLine(d, k, qty) == d[k := WithQuantity(d[k], d[k].quantity + qty)];
    } else {
      AppendKeepsWellFormed(d, AddItemQuantity(d, pid, p, u, qty));
    }
  }

  /** `confirmAddItem` as the modal presents it: the quantity chosen is added. */
  function ConfirmAddItemWithQuantity(d: Draft, active: Option<(ProductId, Product)>, addQty: int, u: UnitType): (r: Draft)
    requires addQty >= 1
    ensures active.None? ==> r == d
    ensures active.Some? ==> r == AddItemQuantity(d, active.value.0, active.value.1, u, addQty)
  {
    if active.None? then d else AddItemQuantity(d, active.value.0, active.value.1, u, addQty)
  }

  /** With the quantity honoured, a new line adds exactly the estimate the modal showed;
      an existing line grows by `addQty` and the draft total by that line's growth. */
  lemma ConfirmAddItemWithQuantityMatchesEstimate(d: Draft, pid: ProductId, p: Product, u: UnitType, addQty: int)
    requires addQty >= 1
    ensures var r := ConfirmAddItemWithQuantity(d, Some((pid, p)), addQty, u);
      var k := FindLine(d, pid, u);
      && (k >= 0 ==> r == GrowLine(d, k, addQty) && DraftTotal(r) == DraftTotal(d) + (r[k].total - d[k].total))
      && (k == -1 ==> DraftTotal(r) == DraftTotal(d) + EstimatedTotal(p, u, addQty))
  {
    var k := FindLine(d, pid, u);
    if k >= 0 {
      DraftTotalPointwise(d, AddItemQuantity(d, pid, p, u, addQty), k);
    } else {
      NewLineAddsEstimate(d, pid, p, u, addQty);
    }
  }

  /** The new-line case: the appended line's total is the estimate. */
  lemma NewLineAddsEstimate(d: Draft, pid: ProductId, p: Product, u: UnitType, addQty: int)
    requires FindLine(d, pid, u) == -1 && addQty >= 1
    ensures DraftTotal(AddItemQuantity(d, pid, p, u, addQty)) == DraftTotal(d) + EstimatedTotal(p, u, addQty)
  {
    var r := AddItemQuantity(d, pid, p, u, addQty);
    DraftTotalExtend(d, r);
  }
}
