# Inventory and invoicing core of a small food-business admin panel

This project is a Dafny model of the business logic of a Next.js admin panel. The panel sells products by the unit, the bag, the box or the pallet. Its records live in a document store (products, clients, invoices, sales, expenses and expense categories). The model covers:

- **Packaging conversion** (`Conversion`). A product's packaging has three multipliers: units per bag, bags per box and boxes per pallet. One reference `Factor` gives the base units in one unit type. The invoice builder's price and conversion factor and the product form's stock conversion are proved to agree with it. The delivery's stock deduction agrees with it whenever the stored factor is non-zero; a zero factor is priced at 0 but deducted as 1 (see Findings).
- **The draft-invoice editor** (`InvoiceBuilder`, `QuantityModal`), from `app/invoices/new/page.tsx`:
  - adding a product in a unit type: one more of an existing line, or a new line;
  - removing a line and changing its quantity;
  - the running total;
  - creating and searching clients;
  - saving the draft as a pending invoice;
  - the add-product modal with its quantity and estimated total.
- **The invoice lifecycle** (`Lifecycle`), from `app/invoices/page.tsx`:
  - the pending → paid → delivered state machine;
  - registering a sale on payment;
  - deducting stock line by line on delivery, with no floor at zero;
  - the partial effects left behind when one of the store calls fails part-way;
  - the customer search.
- **The product catalog** (`Inventory`), from `app/inventory/page.tsx`:
  - the product form and its stock conversion to base units;
  - creating, editing and deleting a product;
  - the low-stock flag and the name search.
- **Expenses** (`Expenses`), from `app/expenses/page.tsx`:
  - the default and custom categories, merged, de-duplicated and sorted;
  - adding and deleting a category;
  - the expense form and its receipt fields;
  - the list filter by text, year, month and category.
- **The dashboard** (`Dashboard`, `app/page.tsx`): the month's sales and expenses, net profit, the stock alerts and the first five pending invoices the query returns.
- **The sales history** (`Sales`, `app/sales/page.tsx`): the search and time-range filter, the total, the average, and the "this month" card.

Supporting modules:

- `Basics`: `Option`, `Result` and the error kinds.
- `Seqs`: filter, sum, subsequence and de-duplication, with their lemmas.
- `Text`: lower-casing, substring search, trimming and the default string sort order.
- `Calendar`: civil dates, instants, and the start of a day, week, month and year.
- `Types`: the records of `types/index.ts`.
- `Scenario`: concrete whole-flow checks.

Modelling conventions:

- The document store is a map from document id to record, or a sequence where the page works on an ordered list.
- Every page handler is a pure function from one state to the next.
- The current time and the ids the store assigns are parameters.
- An uploaded receipt's URL and file name are a parameter.
- Whether and where a store call fails is a parameter: `fault` is the index of the failing call.
- Money amounts are Dafny `real`, which is exact.

## Model

| member | source | states |
|---|---|---|
| Conversion.Factor | app/invoices/new/page.tsx:61-77 | Without packaging, and for the unit or any unrecognised unit type, one counts as one base unit; a bag holds `unitsPerBag` |
| Conversion.FactorNests | app/invoices/new/page.tsx:64-67 | A box is `bagsPerBox` bags and a pallet is `boxesPerPallet` boxes |
| Conversion.FactorMonotone | app/invoices/new/page.tsx:61-77 | With multipliers of at least 1, unit ≤ bag ≤ box ≤ pallet in base units, and every factor is at least 1 |
| Types.StatusRank | types/index.ts:1 | The lifecycle order pending < paid < delivered, with pending first and delivered last |
| InvoiceBuilder.CalculatePrice | app/invoices/new/page.tsx:61-69 | The price of one unit type is the per-unit price times that unit type's base-unit factor |
| InvoiceBuilder.GetConversionFactor | app/invoices/new/page.tsx:71-77 | The stored conversion factor is exactly the reference factor |
| InvoiceBuilder.PriceIsFactorTimesUnitPrice | app/invoices/new/page.tsx:61-77 | Pricing and conversion use the same multiplier; a unit, or an unpackaged product, is priced at the per-unit price |
| InvoiceBuilder.FindLine | app/invoices/new/page.tsx:80-82 | The result is the first line for that product and unit type, or -1 exactly when no line matches |
| InvoiceBuilder.NewLine | app/invoices/new/page.tsx:92-101 | A new line has quantity 1, price and total equal to the unit-type price, the reference factor, and the product and unit type it was added for |
| InvoiceBuilder.WithQuantity | app/invoices/new/page.tsx:86-89 | Changing a line's quantity recomputes its total from its own price; identity, price, name and factor are kept |
| InvoiceBuilder.AddItem | app/invoices/new/page.tsx:79-103 | An existing (product, unit type) line grows by one and nothing else changes; otherwise a new line of one, priced and factored for that unit type, is appended after the unchanged lines |
| InvoiceBuilder.AppendKeepsWellFormed | app/invoices/new/page.tsx:92-101 | Appending a consistent line for a new (product, unit type) pair keeps every line consistent and the pairs distinct |
| InvoiceBuilder.ReplaceKeepsWellFormed | app/invoices/new/page.tsx:83-91 | Replacing a line with a consistent one for the same pair keeps the draft invariants |
| InvoiceBuilder.AddItemKeepsWellFormed | app/invoices/new/page.tsx:79-103 | Adding a product never creates a second line for the same product and unit type, and every total stays quantity × price |
| InvoiceBuilder.RemoveItem | app/invoices/new/page.tsx:105-107 | Removing index i leaves the lines before and after it, in order; an index outside the draft changes nothing |
| InvoiceBuilder.RemovePreservesWellFormed | app/invoices/new/page.tsx:105-107 | Removing a line keeps the draft invariants |
| InvoiceBuilder.DropKeepsWellFormed | app/invoices/new/page.tsx:105-107 | Dropping one line keeps the remaining lines consistent and pairwise distinct |
| InvoiceBuilder.UpdateQuantity | app/invoices/new/page.tsx:109-119 | A quantity of zero or less removes the line; a positive one sets that line's quantity, recomputes its total from its price, and leaves every other line alone |
| InvoiceBuilder.UpdateQuantityKeepsWellFormed | app/invoices/new/page.tsx:109-119 | Changing a quantity keeps the draft invariants |
| InvoiceBuilder.DraftTotal | app/invoices/new/page.tsx:161 | The running total accumulates the line totals from first to last: 0 for an empty draft, otherwise the total of all lines but the last plus the last line's total |
| InvoiceBuilder.DraftTotalExtend | app/invoices/new/page.tsx:161 | A draft that is another draft with one more line at the end totals the other's total plus that line's total |
| InvoiceBuilder.DraftTotalAppend | app/invoices/new/page.tsx:413-414 | Appending a line raises the running total by that line's total |
| InvoiceBuilder.DraftTotalPointwise | app/invoices/new/page.tsx:413-414 | Two drafts that differ at one line differ in total by the difference of that line's totals |
| InvoiceBuilder.DraftTotalRemove | app/invoices/new/page.tsx:105-107 | Removing a line lowers the total by that line's total; an out-of-range index leaves it unchanged |
| InvoiceBuilder.AddItemRaisesTotal | app/invoices/new/page.tsx:79-103 | Adding a product raises the total by exactly one unit price: the existing line's stored price, or the current price for a new line |
| InvoiceBuilder.AddItemExistingTotal | app/invoices/new/page.tsx:83-91 | Growing an existing line by one raises the total by that line's stored price |
| InvoiceBuilder.GrowExistingLine | app/invoices/new/page.tsx:83-91 | Raising a consistent line's quantity by n raises the draft total by n of its price |
| InvoiceBuilder.CreateClient | app/invoices/new/page.tsx:121-138 | A client is created exactly when name, phone and address are all non-empty; the record carries the typed fields, the assigned id and the creation time |
| InvoiceBuilder.HandleCreateClient | app/invoices/new/page.tsx:121-145 | A valid client is appended to the list and selected, the search is cleared, and the draft lines are untouched; an invalid form changes nothing |
| InvoiceBuilder.FilterClients | app/invoices/new/page.tsx:174-177 | Exactly the clients whose name contains the query ignoring case, or whose phone contains it, in their original order; a selected record appears as many times as in the input, and no other record appears |
| InvoiceBuilder.EmptyClientSearchKeepsAll | app/invoices/new/page.tsx:174-177 | An empty search lists every client |
| InvoiceBuilder.Save | app/invoices/new/page.tsx:147-172 | Saving is refused exactly when no client is selected or the draft is empty; otherwise a pending invoice carries the lines, the client's fields and the running total, with no email, subtotal, tax, payment or delivery time |
| InvoiceBuilder.SavedTotalIsQuantityTimesPrice | app/invoices/new/page.tsx:161 | The saved total of a well-formed draft equals the sum of quantity × price over its lines |
| QuantityModal.EstimatedTotal | app/invoices/new/page.tsx:602 | For a quantity of one, the modal's estimate is the unit-type price |
| QuantityModal.ConfirmAddItem | app/invoices/new/page.tsx:193-198 | Confirming without an active product changes nothing; with one it is a single add of the chosen unit type |
| QuantityModal.ConfirmAddItemMissesEstimate | app/invoices/new/page.tsx:193-198 | For a new product with quantity 2 or more, confirming adds a line of quantity 1, and the total rises by less than the estimate shown |
| QuantityModal.EstimateExceedsUnitPrice | app/invoices/new/page.tsx:602 | For a positive price, the estimate for two or more is above one unit price |
| QuantityModal.AddItemQuantity | app/invoices/new/page.tsx:79-103 | An existing line grows by the chosen quantity; otherwise a new line of that quantity, priced and factored for the unit type, is appended |
| QuantityModal.QuantityLine | app/invoices/new/page.tsx:92-101 | The new line for a quantity is consistent and carries that quantity, the unit-type price and the reference factor |
| QuantityModal.AddItemQuantityKeepsWellFormed | app/invoices/new/page.tsx:79-103 | Adding a chosen quantity keeps the draft invariants |
| QuantityModal.ConfirmAddItemWithQuantity | app/invoices/new/page.tsx:193-198 | Confirming with an active product adds the quantity the modal shows |
| QuantityModal.ConfirmAddItemWithQuantityMatchesEstimate | app/invoices/new/page.tsx:579-602 | A new line adds exactly the modal's estimate to the total; an existing line grows by the chosen quantity and the total by that line's growth |
| QuantityModal.NewLineAddsEstimate | app/invoices/new/page.tsx:602 | The appended line's total is the estimate the modal showed |
| Lifecycle.SaleFor | app/invoices/page.tsx:59-65 | The sale names the invoice and carries its total, its lines and the payment time; a blank customer name becomes "Cliente General" |
| Lifecycle.EffectiveFactor | app/invoices/page.tsx:76 | A missing conversion factor counts as 1, and so does a stored factor of 0; any other stored factor is used as is; the result is never 0 |
| Lifecycle.Deduction | app/invoices/page.tsx:76 | A line takes quantity × stored factor base units when that factor is present and non-zero, and its bare quantity otherwise |
| Lifecycle.DeductionMatchesFactor | app/invoices/page.tsx:76 | A line carrying a non-zero reference factor deducts quantity × that factor, and a new line of one deducts exactly the factor it was priced with |
| Lifecycle.ZeroFactorLineChargedLessThanDeducted | app/invoices/page.tsx:76 | With packaging {0, 0, 0} and a positive price, a new bag, box or pallet line is priced 0 with factor 0, yet its delivery takes one base unit: it is charged less than the stock it removes |
| Lifecycle.StoredDeduction | app/invoices/page.tsx:76 | The corrected deduction: an absent factor counts as 1 and a stored one, 0 included, is used as is |
| Lifecycle.StoredDeductionMatchesCharge | app/invoices/page.tsx:76 | With the corrected deduction, a new line removes exactly the base units of its reference factor and is charged their per-unit price, for every packaging |
| Lifecycle.DeductOne | app/invoices/page.tsx:71-80 | A line lowers the stock of an existing product by quantity × factor, with no floor, and leaves every other product alone; a missing product is skipped |
| Lifecycle.DeductAll | app/invoices/page.tsx:71-81 | The delivery loop keeps the set of products |
| Lifecycle.DeductAllStock | app/invoices/page.tsx:71-81 | After delivery a product's stock is its old stock less the sum of quantity × factor over the lines naming it; nothing else about it changes |
| Lifecycle.DeductedUnreferenced | app/invoices/page.tsx:71-81 | Lines that never name a product take nothing from it |
| Lifecycle.DeliveryCanDriveStockNegative | app/invoices/page.tsx:75-78 | Delivering more than is in stock leaves a negative stock |
| Lifecycle.ChangeStatus | app/invoices/page.tsx:52-90 | An unknown invoice or an unoffered transition changes nothing; the change succeeds exactly when the transition is offered and no store call fails; after a failure the invoice record is unchanged |
| Lifecycle.PayEffects | app/invoices/page.tsx:56-66 | Paying appends one sale for the invoice unless the first call fails, touches no product, and on success marks the invoice paid at that time with all else kept |
| Lifecycle.DeliverEffects | app/invoices/page.tsx:68-84 | Delivering keeps the sales, deducts the lines processed before any failure from stock, and on success marks the invoice delivered at that time |
| Lifecycle.DeliverKeepsUnreferenced | app/invoices/page.tsx:71-81 | A successful delivery leaves unchanged every product the invoice does not name |
| Lifecycle.StatusNeverRegresses | app/invoices/page.tsx:52-90 | No status change moves any invoice backwards or removes one |
| Lifecycle.SalesOfAppend | app/invoices/page.tsx:59-65 | Counting an invoice's sales over two runs adds up |
| Lifecycle.ChangeStatusKeepsConsistent | app/invoices/page.tsx:52-90 | If every pending invoice has no sale and every paid or delivered one exactly one, a status change keeps it so, except when a payment's status write fails |
| Lifecycle.FailedPaymentRetryDuplicatesSale | app/invoices/page.tsx:56-84 | When the status write after a payment fails, the invoice stays pending with its sale recorded, and paying again records a second sale |
| Lifecycle.ChangeStatusAtomicPayment | app/invoices/page.tsx:56-84 | The corrected handler: a failed payment leaves the store as it was, success is exactly the handler's success, and every other transition is the handler's |
| Lifecycle.AtomicPaymentKeepsConsistent | app/invoices/page.tsx:56-84 | With an atomic payment, no transition and no failing call breaks the rule that a pending invoice has no sale and a paid or delivered one exactly one |
| Lifecycle.FilterInvoices | app/invoices/page.tsx:92-94 | Exactly the invoices whose customer name contains the query ignoring case, in order; a selected record appears as many times as in the input, and no other record appears |
| Inventory.CalculateTotalUnits | app/inventory/page.tsx:51-56 | The form converts a stock quantity to base units with the reference factor of its multipliers; units and unrecognised types count one for one |
| Inventory.ProductData | app/inventory/page.tsx:70-80 | The saved product takes the form's name, price and minimum, stock converted to base units, the form's packaging, and the category it already had |
| Inventory.HandleSubmit | app/inventory/page.tsx:58-98 | Editing overwrites the edited product only, and fails if it is gone; creating adds the new product under a fresh id and keeps every other product |
| Inventory.StartEdit | app/inventory/page.tsx:113-126 | The edit form shows the stock in units and the product's packaging, or zeros without packaging |
| Inventory.EditRoundTrip | app/inventory/page.tsx:113-126 | Opening a product and saving it unchanged keeps its record, except that a product without packaging gains packaging {0, 0, 0} |
| Inventory.EditedUnpackagedProductHasZeroFactors | app/inventory/page.tsx:113-126 | After that round trip, bags, boxes and pallets of a formerly unpackaged product hold 0 base units instead of 1 |
| Inventory.DeleteProduct | app/inventory/page.tsx:128-133 | A confirmed delete removes exactly that product; otherwise nothing changes |
| Inventory.LowStockBoundary | app/inventory/page.tsx:202 | Stock equal to the minimum is flagged low; one more is not |
| Inventory.SearchProducts | app/inventory/page.tsx:190-197 | Exactly the products whose name contains the term ignoring case, in order; a selected record appears as many times as in the input, and no other record appears |
| Inventory.EmptySearchShowsAll | app/inventory/page.tsx:190-197 | An empty term shows every product |
| Expenses.Names | app/expenses/page.tsx:211-214 | One name per custom category, in fetch order |
| Expenses.AvailableCategories | app/expenses/page.tsx:211-214 | The category list is sorted with no repeats and holds exactly the default and the custom names |
| Expenses.AvailableCategoriesOrderFree | app/expenses/page.tsx:211-214 | The list depends only on which names exist, not their fetch order or repeats |
| Expenses.InitialCategory | app/expenses/page.tsx:216-220 | An empty category falls back to the first in the list; a chosen one is kept |
| Expenses.AddCategory | app/expenses/page.tsx:89-106 | A blank name is refused; otherwise the trimmed name is stored under the new id after the existing categories |
| Expenses.AddedCategoryIsAvailable | app/expenses/page.tsx:89-106 | An added category appears, trimmed and non-empty, in the category list |
| Expenses.DeleteCategory | app/expenses/page.tsx:108-117 | A confirmed delete drops exactly the documents with that id, keeping the rest in order |
| Expenses.DefaultsSurviveDelete | app/expenses/page.tsx:50-57 | No delete removes a default category from the list |
| Expenses.SubmitExpense | app/expenses/page.tsx:132-180 | An edit overwrites description, amount, category and day, and replaces the receipt only when an upload produced a URL; editing a missing expense fails; a new expense stores empty receipt fields without a file; other expenses are kept |
| Expenses.EditForm | app/expenses/page.tsx:388-396 | The edit form shows the expense's description, amount, category and day |
| Expenses.EditRoundTrip | app/expenses/page.tsx:132-156 | Opening an expense and saving it without a new file keeps the record and its receipt; only the time of day falls to midnight |
| Expenses.FilterExpenses | app/expenses/page.tsx:187-208 | Exactly the expenses matching the text, the year, the month unless "all", and the category unless "all", in order; a selected record appears as many times as in the input, and no other record appears |
| Expenses.WholeYear | app/expenses/page.tsx:187-208 | With no text, every month and every category, the list is the year's expenses in order |
| Expenses.MonthNarrows | app/expenses/page.tsx:200-203 | Choosing a month never adds an expense |
| Expenses.CategoryNarrows | app/expenses/page.tsx:205-208 | Choosing a category never adds an expense |
| Dashboard.MonthSales | app/page.tsx:35-44 | Exactly the sales dated inside the month window of now, in their original order; a selected record appears as many times as in the input, and no other record appears |
| Dashboard.MonthExpenses | app/page.tsx:47-56 | Exactly the expenses dated inside the month window of now, in their original order; a selected record appears as many times as in the input, and no other record appears |
| Dashboard.LowStockItems | app/page.tsx:59-65 | Exactly the products at or below their minimum, in order; a selected record appears as many times as in the input, and no other record appears |
| Dashboard.RecentInvoices | app/page.tsx:67-72 | Only pending invoices, the first ones the query returns in order, and exactly five of them unless fewer are pending, then all |
| Dashboard.ComputeStats | app/page.tsx:29-110 | The cards show the month's sales and expense sums, a net equal to their difference, and an alert count equal to the number of low-stock products; the low-stock list is the products at or below their minimum and the recent list is the first five pending invoices |
| Dashboard.MonthSalesAreCalendarMonth | app/page.tsx:31-44 | For valid dates, the month window holds exactly the sales of the same year and month |
| Dashboard.MonthExpensesAreCalendarMonth | app/page.tsx:31-56 | For valid dates, the month window holds exactly the expenses of the same year and month |
| Dashboard.MonthlySalesAtMostAllTime | app/page.tsx:40-41 | With non-negative amounts, the month's sales figure is between 0 and the all-time sum |
| Dashboard.StockAlertsCountLowProducts | app/page.tsx:110 | The alert count equals the number of products at or below their minimum, counted one by one |
| Dashboard.RecentInvoicesShowsAllWhenFew | app/page.tsx:67-72 | With five pending invoices or fewer, the list is exactly the pending invoices in order |
| Sales.RangeStart | app/sales/page.tsx:61-81 | "All" and unrecognised ranges have no lower bound; today starts at midnight of now, the week at that midnight less the weekday in days, the month at midnight of its 1st and the year at midnight of January 1 |
| Sales.FilterSales | app/sales/page.tsx:56-82 | Exactly the sales whose invoice id contains the search ignoring case and that fall on or after the range's start, in order; a selected record appears as many times as in the input, and no other record appears |
| Sales.UnboundedRangesKeepSearchMatches | app/sales/page.tsx:61-81 | "All" and unrecognised ranges keep every sale the search matches |
| Sales.WiderRangeKeepsMore | app/sales/page.tsx:67-80 | A range starting no later keeps at least the sales of the narrower one |
| Sales.RangesNest | app/sales/page.tsx:63-80 | Today's sales are among the week's and the month's, and the month's among the year's |
| Sales.TotalSales | app/sales/page.tsx:84 | The total is 0 for no sales, and otherwise the total of all but the last sale plus the last sale's amount |
| Sales.TotalSalesAppend | app/sales/page.tsx:84 | The all-time total is additive over runs of sales |
| Sales.Average | app/sales/page.tsx:119 | With no sales the average is 0; otherwise average × count equals the total |
| Sales.MonthCardCountsEarlierSales | app/sales/page.tsx:111-113 | A sale from before this month is counted on the card as written and not on the corrected card |
| Sales.MonthCardIsThisMonth | app/sales/page.tsx:111-113 | The corrected card sums exactly the sales dated from the start of this month, and never exceeds the all-time total when amounts are non-negative |
| Calendar.MonthLength | app/page.tsx:31-32 | A month has 28 to 31 days; February has 29 exactly in a leap year |
| Calendar.Weekday | app/sales/page.tsx:68-71 | The day of the week is between 0 (Sunday) and 6 |
| Calendar.WeekdayNextDay | app/sales/page.tsx:68-71 | From one day to the next the weekday moves on by one, Saturday wrapping to Sunday |
| Calendar.StartOfWeekIsSunday | app/sales/page.tsx:68-71 | The week starts at a midnight that falls on a Sunday, on the day of now or up to six days before it |
| Calendar.BoundariesOrdered | app/sales/page.tsx:63-80 | For a valid now: year start ≤ month start ≤ midnight ≤ now ≤ month end, and the week starts within seven days before midnight |
| Calendar.YearLength | app/sales/page.tsx:77-80 | A year has 366 days in a leap year and 365 otherwise, and its months add up to that |
| Calendar.NewYearFollowsNewYearsEve | app/sales/page.tsx:77-80 | January 1 is the day after the previous December 31 |
| Calendar.Epoch | app/sales/page.tsx:68-71 | 1970-01-01 is instant 0 and a Thursday |
| Calendar.EarlierMonthEndsBefore | app/page.tsx:31-32 | The last day of a month comes before the first day of any later month |
| Calendar.InMonthIff | app/page.tsx:31-38 | The window from the month's start to its end holds exactly the instants of that calendar month |
| Text.LowerChar | app/inventory/page.tsx:190 | Upper-case Basic Latin letters and the Latin-1 capitals other than × move to their lower-case letter; every other character is kept |
| Text.ContainsIffOccurs | app/inventory/page.tsx:190 | A string contains another exactly when it occurs at some position |
| Text.Trim | app/expenses/page.tsx:91 | The trimmed name is the part of the name between a blank prefix and a blank suffix, and neither starts nor ends with white space |
| Text.TrimEmptyIffBlank | app/expenses/page.tsx:91 | Trimming leaves nothing exactly when the name is blank |
| Text.StrictlySortedUnique | app/expenses/page.tsx:211-214 | Two strictly sorted lists with the same elements are equal |
| Scenario.OneBoxFromDraftToDelivery | app/invoices/page.tsx:52-90 | One box at 2.00 per unit with 500 units to a box comes to 1000.00; the sale carries 1000.00, paying again is refused, and delivery leaves 500 of 1000 units |
| Scenario.ThreeBags | app/invoices/new/page.tsx:79-103 | Adding a bag three times makes one line of quantity 3, factor 25, and total 3 × 25 × the unit price |

## Left out

- The document store's subscriptions, ordering clauses and network calls are not modelled. Each collection is a map or a sequence in the order the page receives it.
- Concurrency is not modelled: interleaved handlers, and the read-then-write race between two deliveries of the same product.
- Floating point, `parseFloat`/`parseInt` and `NaN` are not modelled. Amounts are exact reals; quantities and multipliers are integers.
- Time zones and daylight saving are not modelled. Every instant is local milliseconds since 1970. The expense form's `yyyy-mm-dd` date becomes midnight of that day, although JavaScript reads such a string as UTC.
- The two separate "now" readings of a payment, the sale date and `paidAt`, are one `now` parameter.
- The `|| 0` fallbacks for a stored stock or amount that is missing are not modelled, because every modelled record carries both fields.
- The `createdAt` time the store writes with a new category or a new expense is not modelled, because the expense record type does not declare it and no page reads it back.
- Lower-casing is modelled for Basic Latin and Latin-1 letters only.
- Strings are sequences of code points, not UTF-16 code units.
- The sort order is by code point, matching the default array sort for the names the panel uses.
- Currency formatting, PDF and spreadsheet export, authentication, routing, and the pages outside the inventory and invoicing core are not modelled.
- Lifecycle.ChangeStatus: the handler itself does not check the current status. The list only offers "paid" for a pending invoice and "delivered" for a paid one (app/invoices/page.tsx:167-184), and the model folds that gate into the transition.
- Lifecycle.ChangeStatus: each delivery line is one store call, so a failing read of a line is not distinguished from a failing write of it. The handler looks the invoice up by the id of the object it is given; the model looks it up in the store.
- The invoice builder's product picker filters with the same lower-cased name match as `Inventory.SearchProducts` (app/invoices/new/page.tsx:200-202). It is not modelled separately.
- QuantityModal.ConfirmAddItemWithQuantityMatchesEstimate states an existing line's growth as the change in that line's total; `InvoiceBuilder.GrowExistingLine` gives that change as the quantity added times the line's price.
- InvoiceBuilder.UpdateQuantity: a positive quantity at an index outside the draft, where the page would fail reading the missing line's price (app/invoices/new/page.tsx:111-116), is excluded by its precondition. Both call sites pass the index of a line they are rendering (app/invoices/new/page.tsx:328 and 333).
- Sales.MonthCard and Sales.MonthCardAsWritten have no contract of their own; their properties are stated by `Sales.MonthCardIsThisMonth` and `Sales.MonthCardCountsEarlierSales`.

## Findings

| source | as written | input that shows it | evidently intended | confidence | as-written member | corrected member |
|---|---|---|---|---|---|---|
| app/invoices/new/page.tsx:193-198 | Confirming the add-product modal adds one of the unit type and ignores the quantity the modal shows, while its estimate (line 602) is price × quantity | A product not yet in the draft, quantity 3, positive price: the draft gains a line of quantity 1 and the total rises by one price, a third of the estimate | The chosen quantity is added and the total rises by the estimate | not executed | QuantityModal.ConfirmAddItemMissesEstimate | QuantityModal.ConfirmAddItemWithQuantityMatchesEstimate |
| app/sales/page.tsx:111-113 | The "Ventas este Mes" card shows the total of all sales ever recorded | One sale with a positive amount dated before the first of the current month: the card shows its amount | The card sums the sales dated from the start of the current month | not executed | Sales.MonthCardCountsEarlierSales | Sales.MonthCardIsThisMonth |
| app/invoices/page.tsx:76 | The delivery multiplies by `conversionFactor || 1`, so a stored factor of 0 is read as 1 | A product saved unchanged from the edit form without packaging gets packaging {0, 0, 0} (app/inventory/page.tsx:113-126); a bag of it at a positive unit price is invoiced at 0 with factor 0, and delivering it takes 1 unit out of stock | Only an absent factor reads as 1, so a line removes exactly the base units it was priced for; a {0, 0, 0} bag is then priced 0 and removes 0 units. The other reading keeps `|| 1` and has the edit form keep a missing packaging missing instead of writing zeros (app/inventory/page.tsx:113-126) | not executed | Lifecycle.ZeroFactorLineChargedLessThanDeducted | Lifecycle.StoredDeductionMatchesCharge |
| app/invoices/page.tsx:56-84 | A payment writes the sale and then the invoice status as two separate calls, and a failing status write leaves the sale behind | A pending invoice whose status write fails after its sale is written: it stays pending, and paying it again records a second sale for the same invoice | A payment either writes both the sale and the status or neither, so each paid invoice has exactly one sale | not executed | Lifecycle.FailedPaymentRetryDuplicatesSale | Lifecycle.AtomicPaymentKeepsConsistent |
