/** The records the panel keeps in its document store (types/index.ts). A document's
    identifier is the key it is stored under, so `Product` and `Invoice` carry no id field. */
module Types {
  import opened Basics
  import opened Calendar

  type ProductId = string
  type InvoiceId = string
  type ClientId = string

  /** The lifecycle of an invoice: pending, then paid, then delivered. */
  datatype InvoiceStatus = Pending | Paid | Delivered

  /** The packaging level a quantity is counted in. `Other` stands for any other string
      a caller may pass where the source takes a plain `string`. */
  datatype UnitType = Unit | Bag | Box | Pallet | Other(tag: string)

  /** Nested multipliers: a bag holds `unitsPerBag` units, a box `bagsPerBox` bags,
      a pallet `boxesPerPallet` boxes. */
  datatype PackagingConfig = PackagingConfig(unitsPerBag: int, bagsPerBox: int, boxesPerPallet: int)

  /** A catalog product: `price` is per base unit and `stock` is counted in base units. */
  datatype Product = Product(
    name: string,
    price: real,
    stock: int,
    minStock: int,
    category: Option<string>,
    packaging: Option<PackagingConfig>)

  /** A line of an invoice: `price` is the price of one `unitType` at the time the line
      was added, and `conversionFactor` the base units in one `unitType`. */
  datatype InvoiceItem = InvoiceItem(
    productId: ProductId,
    name: string,
    quantity: int,
    price: real,
    total: real,
    unitType: Option<UnitType>,
    conversionFactor: Option<int>)

  /** An invoice with the customer's fields copied in. `subtotal` and `tax` are declared
      by the record type but never written by the invoice builder. */
  datatype Invoice = Invoice(
    customerId: Option<ClientId>,
    customerName: string,
    customerEmail: Option<string>,
    customerPhone: Option<string>,
    customerAddress: Option<string>,
    items: seq<InvoiceItem>,
    subtotal: Option<real>,
    tax: Option<real>,
    total: real,
    status: InvoiceStatus,
    createdAt: DateTime,
    paidAt: Option<DateTime>,
    deliveredAt: Option<DateTime>)

  /** A customer. */
  datatype Client = Client(
    id: ClientId,
    name: string,
    email: Option<string>,
    phone: string,
    address: string,
    createdAt: DateTime)

  /** An expense with an optional uploaded receipt. */
  datatype Expense = Expense(
    date: DateTime,
    category: string,
    amount: real,
    description: string,
    receiptUrl: Option<string>,
    receiptName: Option<string>)

  /** A revenue record, written once when an invoice is paid. */
  datatype Sale = Sale(
    invoiceId: InvoiceId,
    customerName: string,
    amount: real,
    date: DateTime,
    items: seq<InvoiceItem>)

  /** The position of a status along the lifecycle. */
  function StatusRank(s: InvoiceStatus): (r: nat)
    ensures r <= 2
    ensures s == Pending <==> r == 0
    ensures s == Delivered <==> r == 2
  {
    match s
    case Pending => 0
    case Paid => 1
    case Delivered => 2
  }
}
