/** The expenses page of app/expenses/page.tsx: the expense form and its receipt fields,
    the list filter, and the category list built from the default and the custom
    categories. */
module Expenses {
  import opened Basics
  import opened Calendar
  import opened Types
  import opened Seqs
  import opened Text

  type ExpenseId = string
  type CategoryId = string

  /** The categories every installation starts with. */
  const DefaultCategories: seq<string> := [
    "Cocina / Insumos",
    "Servicios (Luz, Agua, Gas)",
    "Local / Renta",
    "Marketing / Publicidad",
    "Transporte",
    "Otros"
  ]

  /** A document of the `expense_categories` collection. */
  datatype CategoryDoc = CategoryDoc(id: CategoryId, name: string)

  /** The names of the custom categories, in the order they were fetched. */
  function Names(cs: seq<CategoryDoc>): (r: seq<string>)
    ensures |r| == |cs| && forall i :: 0 <= i < |cs| ==> r[i] == cs[i].name
  {
    seq(|cs|, i requires 0 <= i < |cs| => cs[i].name)
  }

  /** `availableCategories`: defaults and custom names, each once, in sort order. */
  function AvailableCategories(custom: seq<CategoryDoc>): (r: seq<string>)
    ensures StrictlySorted(r) && NoDup(r)
    ensures forall c :: c in r <==> c in DefaultCategories || c in Names(custom)
  {
    var merged := DefaultCategories + Names(custom);
    var r := Sort(Dedupe(merged));
    assert forall c :: c in merged <==> c in DefaultCategories || c in Names(custom);
    r
  }

  /** The list depends only on which names exist, not on the order they were fetched in
      nor on how often a name repeats. */
  lemma AvailableCategoriesOrderFree(a: seq<CategoryDoc>, b: seq<CategoryDoc>)
    requires forall c :: c in Names(a) <==> c in Names(b)
    ensures AvailableCategories(a) == AvailableCategories(b)
  {
    StrictlySortedUnique(AvailableCategories(a), AvailableCategories(b));
  }

  /** The category the form falls back to when none is chosen: the first in the list. */
  function InitialCategory(current: string, available: seq<string>): (r: string)
    ensures current != "" ==> r == current
    ensures current == "" && |available| > 0 ==> r == available[0]
  {
    if |available| > 0 && current == "" then available[0] else current
  }

  /** `handleAddCategory`: a blank name is refused; otherwise the trimmed name is stored
      under the identifier the store assigns. */
  function AddCategory(cs: seq<CategoryDoc>, name: string, newId: CategoryId): (r: Result<seq<CategoryDoc>>)
    ensures r.Err? <==> IsBlank(name)
    ensures r.Err? ==> r.error == ValidationError
    ensures r.Ok? ==> r.value == cs + [CategoryDoc(newId, Trim(name))]
  {
    TrimEmptyIffBlank(name);
    if Trim(name) == "" then Err(ValidationError) else Ok(cs + [CategoryDoc(newId, Trim(name))])
  }

  /** A category that was added shows up, trimmed and non-empty, in the category list. */
  lemma AddedCategoryIsAvailable(cs: seq<CategoryDoc>, name: string, newId: CategoryId)
    requires !IsBlank(name)
    ensures var r := AddCategory(cs, name, newId);
      r.Ok? && Trim(name) != "" && Trim(name) in AvailableCategories(r.value)
  {
    TrimEmptyIffBlank(name);
    var r := AddCategory(cs, name, newId);
    assert Names(r.value)[|cs|] == Trim(name);
  }

  /** `handleDeleteCategory`: once confirmed, the documents with that identifier go. */
  function DeleteCategory(cs: seq<CategoryDoc>, id: CategoryId, confirmed: bool): (r: seq<CategoryDoc>)
    ensures !confirmed ==> r == cs
    ensures confirmed ==> forall c :: c in r <==> c in cs && c.id != id
    ensures IsSubsequence(r, cs)
  {
    if confirmed then Filter(cs, (c: CategoryDoc) => c.id != id) else SubsequenceRefl(cs); cs
  }

  /** The defaults cannot be removed: deleting a custom category keeps every default. */
  lemma DefaultsSurviveDelete(cs: seq<CategoryDoc>, id: CategoryId, confirmed: bool)
    ensures forall c :: c in DefaultCategories ==> c in AvailableCategories(DeleteCategory(cs, id, confirmed))
  {
  }

  /** The expense modal's form: the date is a calendar day (the `yyyy-mm-dd` input). */
  datatype ExpenseForm = ExpenseForm(description: string, amount: real, category: string, date: DateTime)

  /** A receipt uploaded with the form: its download address and its file name. */
  datatype Upload = Upload(url: string, name: string)

  /** The instant a `yyyy-mm-dd` input stands for: midnight of that day. */
  function Midnight(t: DateTime): DateTime {
    t.(msOfDay := 0)
  }

  /** `handleSubmit`. Editing overwrites description, amount, category and date, and
      replaces the receipt only when an upload produced an address; editing an expense
      that is gone fails. A new expense stores the receipt fields, empty without a file. */
  function SubmitExpense(es: map<ExpenseId, Expense>, editing: Option<ExpenseId>, f: ExpenseForm,
                         upload: Option<Upload>, newId: ExpenseId): (r: Result<map<ExpenseId, Expense>>)
    requires editing.None? ==> newId !in es
    ensures editing.Some? && editing.value !in es ==> r == Err(NotFound)
    ensures editing.Some? && editing.value in es ==>
      var prev := es[editing.value];
      var replaced := upload.Some? && upload.value.url != "";
      && r.Ok? && r.value.Keys == es.Keys
      && r.value[editing.value].description == f.description && r.value[editing.value].amount == f.amount
      && r.value[editing.value].category == f.category && r.value[editing.value].date == Midnight(f.date)
      && r.value[editing.value].receiptUrl == (if replaced then Some(upload.value.url) else prev.receiptUrl)
      && r.value[editing.value].receiptName == (if replaced then Some(upload.value.name) else prev.receiptName)
      && forall id :: id in es && id != editing.value ==> r.value[id] == es[id]
    ensures editing.None? ==>
      && r.Ok? && r.value.Keys == es.Keys + {newId}
      && r.value[newId] == Expense(Midnight(f.date), f.category, f.amount, f.description,
           Some(if upload.Some? then upload.value.url else ""),
           Some(if upload.Some? then upload.value.name else ""))
      && forall id :: id in es ==> r.value[id] == es[id]
  {
    var url := if upload.Some? then upload.value.url else "";
    var name := if upload.Some? then upload.value.name else "";
    match editing
    case Some(id) =>
      if id !in es then Err(NotFound)
      else
        var e := es[id];
        var e1 := e.(description := f.description, amount := f.amount, category := f.category, date := Midnight(f.date));
        Ok(es[id := if url != "" then e1.(receiptUrl := Some(url), receiptName := Some(name)) else e1])
    case None =>
      Ok(es[newId := Expense(Midnight(f.date), f.category, f.amount, f.description, Some(url), Some(name))])
  }

  /** The edit button's form: the expense's fields, its date as a calendar day. */
  function EditForm(e: Expense): (f: ExpenseForm)
    ensures f.description == e.description && f.amount == e.amount && f.category == e.category
    ensures Midnight(f.date) == Midnight(e.date)
  {
    ExpenseForm(e.description, e.amount, e.category, e.date)
  }

  /** Opening an expense and saving it without a new file keeps the record and its
      receipt, except that the time of day falls to midnight. */
  lemma EditRoundTrip(es: map<ExpenseId, Expense>, id: ExpenseId, newId: ExpenseId)
    requires id in es
    ensures var r := SubmitExpense(es, Some(id), EditForm(es[id]), None, newId);
      r.Ok? && r.value == es[id := es[id].(date := Midnight(es[id].date))]
  {
  }

  /** The month selector: every month, or one month counted from 0. */
  datatype MonthChoice = AllMonths | InMonth(month: int)

  /** The predicate of `filteredExpenses`: description search, year, month, and category
      unless the category choice is the literal "all". */
  predicate ExpenseMatches(e: Expense, search: string, year: int, month: MonthChoice, category: string) {
    && Contains(Lower(e.description), Lower(search))
    && e.date.year == year
    && (month.InMonth? ==> e.date.month == month.month)
    && (category != "all" ==> e.category == category)
  }

  /** `filteredExpenses`. */
  function FilterExpenses(es: seq<Expense>, search: string, year: int, month: MonthChoice, category: string)
    : (r: seq<Expense>)
    ensures forall e :: e in r <==> e in es && ExpenseMatches(e, search, year, month, category)
    ensures IsSubsequence(r, es)
    ensures forall e :: multiset(r)[e] == if ExpenseMatches(e, search, year, month, category) then multiset(es)[e] else 0
  {
    FilterMultiplicity(es, (e: Expense) => ExpenseMatches(e, search, year, month, category));
    Filter(es, (e: Expense) => ExpenseMatches(e, search, year, month, category))
  }

  /** With no search, every month and every category, the list is exactly the year's
      expenses in their original order. */
  lemma WholeYear(es: seq<Expense>, year: int)
    ensures FilterExpenses(es, "", year, AllMonths, "all") == Filter(es, (e: Expense) => e.date.year == year)
  {
    forall e | e in es
      ensures ExpenseMatches(e, "", year, AllMonths, "all") == (e.date.year == year)
    {
      ContainsEmpty(Lower(e.description));
    }
    FilterExt(es, (e: Expense) => ExpenseMatches(e, "", year, AllMonths, "all"), (e: Expense) => e.date.year == year);
  }

  /** Choosing a month never adds an expense to the list. */
  lemma MonthNarrows(es: seq<Expense>, search: string, year: int, m: int, category: string)
    ensures IsSubsequence(FilterExpenses(es, search, year, InMonth(m), category),
                          FilterExpenses(es, search, year, AllMonths, category))
  {
    FilterMonotone(es, (e: Expense) => ExpenseMatches(e, search, year, InMonth(m), category),
                       (e: Expense) => ExpenseMatches(e, search, year, AllMonths, category));
  }

  /** Choosing a category never adds an expense to the list. */
  lemma CategoryNarrows(es: seq<Expense>, search: string, year: int, month: MonthChoice, category: string)
    ensures IsSubsequence(FilterExpenses(es, search, year, month, category),
                          FilterExpenses(es, search, year, month, "all"))
  {
    FilterMonotone(es, (e: Expense) => ExpenseMatches(e, search, year, month, category),
                       (e: Expense) => ExpenseMatches(e, search, year, month, "all"));
  }
}
