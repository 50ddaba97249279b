/** The product catalog of app/inventory/page.tsx: the product form and its stock
    conversion, saving a new or edited product, loading a product into the form,
    deleting, the low-stock flag and the name search. The catalog is the `products`
    collection as a map from document id to record. */
module Inventory {
  import opened Basics
  import opened Types
  import opened Conversion
  import opened Seqs
  import opened Text

  /** The modal's form state; `stock` is counted in `stockUnitType`. */
  datatype ProductForm = ProductForm(
    name: string,
    price: real,
    stock: int,
    minStock: int,
    unitsPerBag: int,
    bagsPerBox: int,
    boxesPerPallet: int,
    stockUnitType: UnitType)

  /** `resetForm`: the blank form a new product starts from. */
  const BlankForm: ProductForm := ProductForm("", 0.0, 0, 5, 25, 20, 30, Unit)

  /** The packaging triple the form holds. */
  function FormPackaging(f: ProductForm): PackagingConfig {
    PackagingConfig(f.unitsPerBag, f.bagsPerBox, f.boxesPerPallet)
  }

  /** `calculateTotalUnits(qty, type)`: `qty` of `type` in base units, with the form's
      multipliers; any type other than bag, box or pallet counts as units. The form
      converts with the same factor the invoice builder prices and the delivery deducts with. */
  function CalculateTotalUnits(f: ProductForm, qty: int, t: UnitType): (r: int)
    ensures r == qty * Factor(Some(FormPackaging(f)), t)
    ensures t == Unit || t.Other? ==> r == qty
  {
    if t == Bag then qty * f.unitsPerBag
    else if t == Box then
      assert qty * f.unitsPerBag * f.bagsPerBox == qty * (f.unitsPerBag * f.bagsPerBox);
      qty * f.unitsPerBag * f.bagsPerBox
    else if t == Pallet then
      assert qty * f.unitsPerBag * f.bagsPerBox * f.boxesPerPallet
          == qty * (f.unitsPerBag * f.bagsPerBox * f.boxesPerPallet);
      qty * f.unitsPerBag * f.bagsPerBox * f.boxesPerPallet
    else qty
  }

  /** `productData`: the record `handleSubmit` writes. The stock is converted to base units
      and a packaging triple is always present; `category` is whatever the stored record
      already had, since the form never writes it. */
  function ProductData(f: ProductForm, category: Option<string>): (p: Product)
    ensures p.name == f.name && p.price == f.price && p.minStock == f.minStock
    ensures p.stock == f.stock * Factor(Some(FormPackaging(f)), f.stockUnitType)
    ensures p.packaging == Some(FormPackaging(f)) && p.category == category
  {
    Product(f.name, f.price, CalculateTotalUnits(f, f.stock, f.stockUnitType), f.minStock, category,
            Some(FormPackaging(f)))
  }

  /** `handleSubmit`. Editing overwrites name, price, stock, minimum and packaging of the
      product being edited and keeps its category; editing a product that is gone fails.
      Creating stores the record under the identifier the store assigns. */
  function HandleSubmit(ps: map<ProductId, Product>, editing: Option<ProductId>, f: ProductForm, newId: ProductId)
    : (r: Result<map<ProductId, Product>>)
    requires editing.None? ==> newId !in ps
    ensures editing.Some? && editing.value !in ps ==> r == Err(NotFound)
    ensures editing.Some? && editing.value in ps ==>
      r == Ok(ps[editing.value := ProductData(f, ps[editing.value].category)])
    ensures editing.None? ==>
      && r.Ok? && r.value.Keys == ps.Keys + {newId}
      && r.value[newId] == ProductData(f, None)
      && forall pid :: pid in ps ==> r.value[pid] == ps[pid]
  {
    match editing
    case Some(id) =>
      if id in ps then Ok(ps[id := ProductData(f, ps[id].category)]) else Err(NotFound)
    case None =>
      Ok(ps[newId := ProductData(f, None)])
  }

  /** `startEdit`: the form loaded with a product. The stock is shown in units, and a
      product without packaging shows multipliers of 0. */
  function StartEdit(p: Product): (f: ProductForm)
    ensures f.stockUnitType == Unit && f.stock == p.stock
    ensures p.packaging.Some? ==> FormPackaging(f) == p.packaging.value
    ensures p.packaging.None? ==> FormPackaging(f) == PackagingConfig(0, 0, 0)
  {
    var pk := p.packaging.GetOr(PackagingConfig(0, 0, 0));
    ProductForm(p.name, p.price, p.stock, p.minStock, pk.unitsPerBag, pk.bagsPerBox, pk.boxesPerPallet, Unit)
  }

  /** Opening a product and saving it unchanged keeps its record, except that a product
      without packaging is given packaging {0, 0, 0}. */
  lemma EditRoundTrip(ps: map<ProductId, Product>, id: ProductId, newId: ProductId)
    requires id in ps
    ensures var p := ps[id];
      var r := HandleSubmit(ps, Some(id), StartEdit(p), newId);
      && r.Ok? && r.value.Keys == ps.Keys
      && r.value[id] == p.(packaging := Some(p.packaging.GetOr(PackagingConfig(0, 0, 0))))
  {
  }

  /** The {0, 0, 0} packaging a product without packaging receives on an unchanged edit
      prices every bag, box and pallet of it at 0. */
  lemma EditedUnpackagedProductHasZeroFactors(ps: map<ProductId, Product>, id: ProductId, newId: ProductId, u: UnitType)
    requires id in ps && ps[id].packaging.None? && (u == Bag || u == Box || u == Pallet)
    ensures var r := HandleSubmit(ps, Some(id), StartEdit(ps[id]), newId);
      r.Ok? && Factor(r.value[id].packaging, u) == 0 && Factor(ps[id].packaging, u) == 1
  {
    EditRoundTrip(ps, id, newId);
  }

  /** `handleDelete`: once confirmed, the product is removed; nothing else changes. */
  function DeleteProduct(ps: map<ProductId, Product>, id: ProductId, confirmed: bool): (r: map<ProductId, Product>)
    ensures confirmed ==> r.Keys == ps.Keys - {id}
    ensures !confirmed ==> r == ps
    ensures forall pid :: pid in r ==> pid in ps && r[pid] == ps[pid]
  {
    if confirmed then ps - {id} else ps
  }

  /** The low-stock flag: at or below the minimum; the boundary itself counts as low. */
  predicate IsLowStock(p: Product) {
    p.stock <= p.minStock
  }

  /** Stock equal to the minimum is low; one more is not. */
  lemma LowStockBoundary(p: Product)
    ensures p.stock == p.minStock ==> IsLowStock(p)
    ensures p.stock == p.minStock + 1 ==> !IsLowStock(p)
  {
  }

  /** The name search of the product table and of the invoice builder's product picker. */
  predicate NameMatches(p: Product, term: string) {
    Contains(Lower(p.name), Lower(term))
  }

  /** The products whose lower-cased name contains the lower-cased term, in order. */
  function SearchProducts(ps: seq<Product>, term: string): (r: seq<Product>)
    ensures forall p :: p in r <==> p in ps && NameMatches(p, term)
    ensures IsSubsequence(r, ps)
    ensures forall p :: multiset(r)[p] == if NameMatches(p, term) then multiset(ps)[p] else 0
  {
    FilterMultiplicity(ps, (p: Product) => NameMatches(p, term));
    Filter(ps, (p: Product) => NameMatches(p, term))
  }

  /** An empty search term shows every product. */
  lemma EmptySearchShowsAll(ps: seq<Product>)
    ensures SearchProducts(ps, "") == ps
  {
    forall p | p in ps
      ensures NameMatches(p, "")
    {
      ContainsEmpty(Lower(p.name));
    }
    FilterKeepsAll(ps, (p: Product) => NameMatches(p, ""));
  }
}
