/** The draft-invoice editor of app/invoices/new/page.tsx: pricing a product in a
    packaging level, editing the list of draft lines, creating and searching clients,
    and turning a draft into a pending invoice. The page's React state becomes a
    `Builder` value and every handler a function from one value to the next. */
module InvoiceBuilder {
  import opened Basics
  import opened Calendar
  import opened Types
  import opened Conversion
  import opened Seqs
  import opened Text

  /** `calculatePrice`: the price of one `t` of product `p`. */
  function CalculatePrice(p: Product, t: UnitType): (r: real)
    ensures r == p.price * Factor(p.packaging, t) as real
  {
    var factor :=
      if p.packaging.None? then 1
      else
        var pk := p.packaging.value;
        if t == Bag then pk.unitsPerBag
        else if t == Box then pk.unitsPerBag * pk.bagsPerBox
        else if t == Pallet then pk.unitsPerBag * pk.bagsPerBox * pk.boxesPerPallet
        else 1;
    p.price * factor as real
  }

  /** `getConversionFactor`: the base units in one `t` of product `p`. */
  function GetConversionFactor(p: Product, t: UnitType): (r: int)
    ensures r == Factor(p.packaging, t)
  {
    if p.packaging.None? then 1
    else if t == Bag then p.packaging.value.unitsPerBag
    else if t == Box then p.packaging.value.unitsPerBag * p.packaging.value.bagsPerBox
    else if t == Pallet then
      p.packaging.value.unitsPerBag * p.packaging.value.bagsPerBox * p.packaging.value.boxesPerPallet
    else 1
  }

  /** The unit price is the per-unit price times the conversion factor of the same
      unit type, so pricing and stock deduction use one multiplier. */
  lemma PriceIsFactorTimesUnitPrice(p: Product, t: UnitType)
    ensures CalculatePrice(p, t) == p.price * GetConversionFactor(p, t) as real
    ensures t == Unit || p.packaging.None? ==> CalculatePrice(p, t) == p.price
  {
  }

  /** The lines of an invoice being built. */
  type Draft = seq<InvoiceItem>

  /** A line belongs to (`pid`, `u`) when both its product and its unit type match. */
  predicate SameLine(item: InvoiceItem, pid: ProductId, u: UnitType) {
    item.productId == pid && item.unitType == Some(u)
  }

  /** The position of the first line for (`pid`, `u`), or -1 when there is none. */
  function FindLine(d: Draft, pid: ProductId, u: UnitType): (i: int)
    ensures -1 <= i < |d|
    ensures i >= 0 ==> SameLine(d[i], pid, u) && forall j :: 0 <= j < i ==> !SameLine(d[j], pid, u)
    ensures i == -1 <==> forall j :: 0 <= j < |d| ==> !SameLine(d[j], pid, u)
    decreases |d|
  {
    if |d| == 0 then -1
    else if SameLine(d[0], pid, u) then 0
    else
      var k := FindLine(d[1..], pid, u);
      if k == -1 then -1 else k + 1
  }

  /** A draft line is consistent when its quantity is at least 1 and its total is
      quantity times price. */
  predicate LineConsistent(item: InvoiceItem) {
    item.quantity >= 1 && item.total == item.quantity as real * item.price
  }

  /** The invariants the editor keeps: every line consistent, and no two lines for
      the same (product, unit type) pair. */
  predicate WellFormed(d: Draft) {
    && (forall i :: 0 <= i < |d| ==> LineConsistent(d[i]))
    && (forall i, j :: 0 <= i < j < |d| ==>
          d[i].productId != d[j].productId || d[i].unitType != d[j].unitType)
  }

  /** The line `addItem` appends for a product not yet in the draft. */
  function NewLine(pid: ProductId, p: Product, u: UnitType): (item: InvoiceItem)
    ensures LineConsistent(item) && item.quantity == 1
    ensures item.price == item.total == p.price * Factor(p.packaging, u) as real
    ensures item.conversionFactor == Some(Factor(p.packaging, u)) && SameLine(item, pid, u)
  {
    var price := CalculatePrice(p, u);
    InvoiceItem(pid, p.name, 1, price, price, Some(u), Some(GetConversionFactor(p, u)))
  }

  /** Appending a consistent line for a new (product, unit type) pair keeps the invariants. */
  lemma AppendKeepsWellFormed(d: Draft, r: Draft)
    requires WellFormed(d) && |r| == |d| + 1 && r[..|d|] == d && LineConsistent(r[|d|])
    requires forall j :: 0 <= j < |d| ==> d[j].productId != r[|d|].productId || d[j].unitType != r[|d|].unitType
    ensures WellFormed(r)
  {
    assert forall j :: 0 <= j < |d| ==> r[j] == d[j];
  }

  /** Replacing line `k` by a consistent one for the same pair keeps the invariants. */
  lemma ReplaceKeepsWellFormed(d: Draft, k: int, x: InvoiceItem)
    requires WellFormed(d) && 0 <= k < |d| && LineConsistent(x)
    requires x.productId == d[k].productId && x.unitType == d[k].unitType
    ensures WellFormed(d[k := x])
  {
  }

  /** A line with its quantity set to `q` and its total recomputed from its own price. */
  function WithQuantity(item: InvoiceItem, q: int): (r: InvoiceItem)
    ensures r.quantity == q && r.total == q as real * item.price
    ensures r.productId == item.productId && r.unitType == item.unitType && r.price == item.price
    ensures r.name == item.name && r.conversionFactor == item.conversionFactor
  {
    item.(quantity := q, total := q as real * item.price)
  }

  /** The draft with `n` more of line `k`, its total recomputed. */
  function GrowLine(d: Draft, k: int, n: int): (r: Draft)
    requires 0 <= k < |d|
  {
    d[k := WithQuantity(d[k], d[k].quantity + n)]
  }

  /** `addItem`: one more of an existing (product, unit type) line, or a new line of one. */
  function AddItem(d: Draft, pid: ProductId, p: Product, u: UnitType): (r: Draft)
    ensures FindLine(d, pid, u) >= 0 ==>
      var k := FindLine(d, pid, u);
      r == GrowLine(d, k, 1)
    ensures FindLine(d, pid, u) == -1 ==>
      && |r| == |d| + 1 && r[..|d|] == d
      && r[|d|].quantity == 1 && r[|d|].total == r[|d|].price == CalculatePrice(p, u)
      && r[|d|].conversionFactor == Some(Factor(p.packaging, u)) && SameLine(r[|d|], pid, u)
      && r[|d|].name == p.name
  {
    var k := FindLine(d, pid, u);
    if k >= 0 then
      GrowLine(d, k, 1)
    else
      d + [NewLine(pid, p, u)]
  }

  /** `addItem` keeps the draft invariants. */
  lemma AddItemKeepsWellFormed(d: Draft, pid: ProductId, p: Product, u: UnitType)
    requires WellFormed(d)
    ensures WellFormed(AddItem(d, pid, p, u))
  {
    var k := FindLine(d, pid, u);
    if k >= 0 {
      ReplaceKeepsWellFormed(d, k, WithQuantity(d[k], d[k].quantity + 1));
      assert GrowLine(d, k, 1) == d[k := WithQuantity(d[k], d[k].quantity + 1)];
    } else {
      AppendKeepsWellFormed(d, AddItem(d, pid, p, u));
    }
  }

  /** `removeItem`: every line except the one at `index`, in order. */
  function RemoveItem(d: Draft, index: int): (r: Draft)
    ensures 0 <= index < |d| ==> r == d[..index] + d[index + 1..]
    ensures !(0 <= index < |d|) ==> r == d
    decreases |d|
  {
    if |d| == 0 then []
    else (if index == 0 then [] else [d[0]]) + RemoveItem(d[1..], index - 1)
  }

  /** Removing a line keeps the draft invariants. */
  lemma RemovePreservesWellFormed(d: Draft, index: int)
    requires WellFormed(d)
    ensures WellFormed(RemoveItem(d, index))
  {
    if 0 <= index < |d| {
      DropKeepsWellFormed(d, index);
    }
  }

  /** Dropping line `index` keeps the draft invariants: the remaining lines keep their
      relative order. */
  lemma DropKeepsWellFormed(d: Draft, index: int)
    requires WellFormed(d) && 0 <= index < |d|
    ensures WellFormed(d[..index] + d[index + 1..])
  {
    var r := d[..index] + d[index + 1..];
    forall i | 0 <= i < |r|
      ensures r[i] == d[if i < index then i else i + 1]
    {
    }
    forall i, j | 0 <= i < j < |r|
      ensures r[i].productId != r[j].productId || r[i].unitType != r[j].unitType
    {
      assert r[i] == d[if i < index then i else i + 1];
      assert r[j] == d[if j < index then j else j + 1];
    }
  }

  /** `updateQuantity`: a quantity of zero or less removes the line; otherwise only
      that line's quantity and total change. */
  function UpdateQuantity(d: Draft, index: int, qty: int): (r: Draft)
    requires qty <= 0 || 0 <= index < |d|
    ensures qty <= 0 ==> r == RemoveItem(d, index)
    ensures qty > 0 ==>
      r == d[index := WithQuantity(d[index], qty)]
  {
    if qty <= 0 then RemoveItem(d, index)
    else
      d[index := WithQuantity(d[index], qty)]
  }

  /** `updateQuantity` keeps the draft invariants. */
  lemma UpdateQuantityKeepsWellFormed(d: Draft, index: int, qty: int)
    requires WellFormed(d) && (qty <= 0 || 0 <= index < |d|)
    ensures WellFormed(UpdateQuantity(d, index, qty))
  {
    if qty <= 0 {
      RemovePreservesWellFormed(d, index);
    } else {
      ReplaceKeepsWellFormed(d, index, WithQuantity(d[index], qty));
    }
  }

  /** The draft total the page shows and saves: the line totals accumulated from the
      first line to the last, as `reduce` does. */
  function DraftTotal(d: Draft): (r: real)
    ensures |d| == 0 ==> r == 0.0
    ensures |d| > 0 ==> r == SumBy(d[..|d| - 1], (item: InvoiceItem) => item.total) + d[|d| - 1].total
  {
    if |d| > 0 then
      var init := d[..|d| - 1];
      assert d == init + [d[|d| - 1]];
      SumByAppend(init, [d[|d| - 1]], (item: InvoiceItem) => item.total);
      SumBy(d, (item: InvoiceItem) => item.total)
    else
      SumBy(d, (item: InvoiceItem) => item.total)
  }

  /** Appending a line adds its total. */
  lemma {:induction false} DraftTotalAppend(d: Draft, x: InvoiceItem)
    ensures DraftTotal(d + [x]) == DraftTotal(d) + x.total
    decreases |d|
  {
    if |d| > 0 {
      assert (d + [x])[1..] == d[1..] + [x];
      DraftTotalAppend(d[1..], x);
    }
  }

  /** A draft that is `d` with one more line at the end totals `d`'s total plus that line's. */
  lemma DraftTotalExtend(d: Draft, r: Draft)
    requires |r| == |d| + 1 && r[..|d|] == d
    ensures DraftTotal(r) == DraftTotal(d) + r[|d|].total
  {
    assert r == d + [r[|d|]];
    DraftTotalAppend(d, r[|d|]);
  }

  /** Two drafts that differ only at line `k` differ in total by the two totals there. */
  lemma {:induction false} DraftTotalPointwise(d: Draft, r: Draft, k: int)
    requires 0 <= k < |d| == |r|
    requires forall j :: 0 <= j < |d| && j != k ==> r[j] == d[j]
    ensures DraftTotal(r) == DraftTotal(d) - d[k].total + r[k].total
    decreases |d|
  {
    if k > 0 {
      DraftTotalPointwise(d[1..], r[1..], k - 1);
    } else {
      assert r[1..] == d[1..];
    }
  }

  /** Removing a line subtracts its total; an out-of-range index changes nothing. */
  lemma {:induction false} DraftTotalRemove(d: Draft, index: int)
    ensures 0 <= index < |d| ==> DraftTotal(RemoveItem(d, index)) == DraftTotal(d) - d[index].total
    ensures !(0 <= index < |d|) ==> DraftTotal(RemoveItem(d, index)) == DraftTotal(d)
    decreases |d|
  {
    if |d| > 0 {
      DraftTotalRemove(d[1..], index - 1);
      if index == 0 {
        assert RemoveItem(d, index) == RemoveItem(d[1..], -1);
      } else {
        assert RemoveItem(d, index) == [d[0]] + RemoveItem(d[1..], index - 1);
        assert ([d[0]] + RemoveItem(d[1..], index - 1))[1..] == RemoveItem(d[1..], index - 1);
      }
    }
  }

  /** Adding one of a product raises the draft total by exactly one unit price: the
      stored price of the existing line, or the current price of a new line. */
  lemma AddItemRaisesTotal(d: Draft, pid: ProductId, p: Product, u: UnitType)
    requires WellFormed(d)
    ensures var k := FindLine(d, pid, u);
      DraftTotal(AddItem(d, pid, p, u)) ==
        DraftTotal(d) + if k >= 0 then d[k].price else CalculatePrice(p, u)
  {
    if FindLine(d, pid, u) >= 0 {
      AddItemExistingTotal(d, pid, p, u);
    } else {
      DraftTotalAppend(d, NewLine(pid, p, u));
    }
  }

  /** The existing-line case of `AddItemRaisesTotal`. */
  lemma AddItemExistingTotal(d: Draft, pid: ProductId, p: Product, u: UnitType)
    requires WellFormed(d) && FindLine(d, pid, u) >= 0
    ensures DraftTotal(AddItem(d, pid, p, u)) == DraftTotal(d) + d[FindLine(d, pid, u)].price
  {
    GrowExistingLine(d, FindLine(d, pid, u), 1);
  }

  /** Raising the quantity of a consistent line `k` by `n`, and nothing else, raises the
      draft total by `n` of that line's price. */
  lemma GrowExistingLine(d: Draft, k: int, n: int)
    requires 0 <= k < |d| && LineConsistent(d[k])
    ensures DraftTotal(GrowLine(d, k, n)) == DraftTotal(d) + n as real * d[k].price
  {
    DraftTotalPointwise(d, GrowLine(d, k, n), k);
    GrowLineTotal(d[k].quantity, n, d[k].price);
  }

  /** Multiplication distributes over addition. */
  lemma Distribute(a: real, b: real, p: real)
    ensures (a + b) * p == a * p + b * p
  {
  }

  /** Raising a line's quantity from `q` to `q + n` raises its total by `n` prices. */
  lemma GrowLineTotal(q: int, n: int, price: real)
    ensures (q + n) as real * price - q as real * price == n as real * price
  {
    Distribute(q as real, n as real, price);
  }

  /** A customer as typed into the new-client form. */
  datatype ClientForm = ClientForm(name: string, phone: string, address: string, email: string)

  /** `handleCreateClient` validation and record: name, phone and address are required;
      the new client carries the store-assigned `id` and the current time. */
  function CreateClient(f: ClientForm, id: ClientId, now: DateTime): (r: Result<Client>)
    ensures r.Ok? <==> f.name != "" && f.phone != "" && f.address != ""
    ensures r.Err? ==> r.error == ValidationError
    ensures r.Ok? ==>
      && r.value.id == id && r.value.name == f.name && r.value.phone == f.phone
      && r.value.address == f.address && r.value.email == Some(f.email) && r.value.createdAt == now
  {
    if f.name == "" || f.phone == "" || f.address == "" then Err(ValidationError)
    else Ok(Client(id, f.name, Some(f.email), f.phone, f.address, now))
  }

  /** The page state that the handlers below update. */
  datatype Builder = Builder(
    clients: seq<Client>,
    selected: Option<Client>,
    clientSearch: string,
    items: Draft)

  /** `handleCreateClient` on the page state: a valid client is appended to the list,
      selected, and the search box cleared; the draft lines are untouched. */
  function HandleCreateClient(b: Builder, f: ClientForm, id: ClientId, now: DateTime): (r: Result<Builder>)
    ensures r.Ok? <==> CreateClient(f, id, now).Ok?
    ensures r.Ok? ==>
      && r.value.clients == b.clients + [CreateClient(f, id, now).value]
      && r.value.selected == Some(CreateClient(f, id, now).value)
      && r.value.clientSearch == "" && r.value.items == b.items
  {
    var c :- CreateClient(f, id, now);
    Ok(b.(clients := b.clients + [c], selected := Some(c), clientSearch := ""))
  }

  /** The client search: a case-insensitive match on the name or a plain match on the phone. */
  predicate ClientMatches(c: Client, query: string) {
    Contains(Lower(c.name), Lower(query)) || Contains(c.phone, query)
  }

  /** `filteredClients`. */
  function FilterClients(cs: seq<Client>, query: string): (r: seq<Client>)
    ensures forall c :: c in r <==> c in cs && ClientMatches(c, query)
    ensures IsSubsequence(r, cs)
    ensures forall c :: multiset(r)[c] == if ClientMatches(c, query) then multiset(cs)[c] else 0
  {
    FilterMultiplicity(cs, c => ClientMatches(c, query));
    Filter(cs, c => ClientMatches(c, query))
  }

  /** An empty search lists every client. */
  lemma EmptyClientSearchKeepsAll(cs: seq<Client>)
    ensures FilterClients(cs, "") == cs
  {
    forall c | c in cs
      ensures ClientMatches(c, "")
    {
      ContainsEmpty(Lower(c.name));
    }
    FilterKeepsAll(cs, c => ClientMatches(c, ""));
  }

  /** `handleSave`: refuses without a client or without lines; otherwise the new
      invoice copies the client's fields and the lines, totals the line totals and
      starts pending. */
  function Save(client: Option<Client>, d: Draft, now: DateTime): (r: Result<Invoice>)
    ensures r.Err? <==> client.None? || |d| == 0
    ensures r.Err? ==> r.error == ValidationError
    ensures r.Ok? ==>
      && r.value.items == d && r.value.total == DraftTotal(d) && r.value.status == Pending
      && r.value.customerId == Some(client.value.id) && r.value.customerName == client.value.name
      && r.value.customerPhone == Some(client.value.phone)
      && r.value.customerAddress == Some(client.value.address)
      && r.value.customerEmail.None? && r.value.subtotal.None? && r.value.tax.None?
      && r.value.createdAt == now && r.value.paidAt.None? && r.value.deliveredAt.None?
  {
    if client.None? || |d| == 0 then Err(ValidationError)
    else
      var c := client.value;
      Ok(Invoice(Some(c.id), c.name, None, Some(c.phone), Some(c.address), d,
                 None, None, DraftTotal(d), Pending, now, None, None))
  }

  /** The total of a saved well-formed draft is the sum of quantity times price. */
  lemma {:induction false} SavedTotalIsQuantityTimesPrice(d: Draft)
    requires WellFormed(d)
    ensures DraftTotal(d) == SumBy(d, (item: InvoiceItem) => item.quantity as real * item.price)
    decreases |d|
  {
    if |d| > 0 {
      assert LineConsistent(d[0]);
      assert WellFormed(d[1..]) by {
        assert forall i :: 0 <= i < |d[1..]| ==> d[1..][i] == d[i + 1];
      }
      SavedTotalIsQuantityTimesPrice(d[1..]);
    }
  }
}
