/** Invoice creation and the overdue list (backend/src/routes/invoices.ts):
    the total accumulated over the request items, the tax rate chosen by the
    invoice type, the due-date default and the overdue filter. */
module Invoices {

  import opened Rows
  import opened Ledger
  import opened Text

  /** What one request item adds to the total. */
  function LineTotal(it: InvoiceItem): real {
    it.quantity as real * it.price
  }

  /** The invoice total: quantity times price, summed over the items. */
  function ItemsTotal(items: seq<InvoiceItem>): (total: real)
    ensures (forall it :: it in items ==> it.quantity >= 0 && it.price >= 0.0) ==> total >= 0.0
  {
    assert (forall it :: it in items ==> it.quantity >= 0 && it.price >= 0.0) ==> Sum(items, LineTotal) >= 0.0 by {
      if forall it :: it in items ==> it.quantity >= 0 && it.price >= 0.0 {
        forall it | it in items ensures LineTotal(it) >= 0.0 {
          assert it.quantity as real >= 0.0 && it.price >= 0.0;
        }
        SumNonNegative(items, LineTotal);
      }
    }
    Sum(items, LineTotal)
  }

  /** 10% for an 'NF-e' invoice, 5% for every other type. */
  function TaxRate(kind: string): (rate: real)
    ensures rate == 0.1 || rate == 0.05
    ensures rate == 0.1 <==> kind == "NF-e"
  {
    if kind == "NF-e" then 0.1 else 0.05
  }

  /** A missing or empty due date is stored as null; any other text is
      parsed into an instant by `parseDate` (JavaScript's `new Date(text)`). */
  function DueDate(dueDate: Option<string>, parseDate: string -> int): (r: Option<int>)
    ensures r.None? <==> dueDate == None || dueDate == Some("")
    ensures r.Some? ==> r.value == parseDate(dueDate.value)
  {
    match dueDate
    case None => None
    case Some(text) => if text == "" then None else Some(parseDate(text))
  }

  /** The invoice number `INV-<now>`. */
  function InvoiceNumber(now: int): (number: string)
    ensures |number| > 4 && number[..4] == "INV-"
    ensures ParseInt(number[4..]) == Some(now)
  {
    IntToStringRoundTrip(now);
    var number := "INV-" + IntToString(now);
    assert number[4..] == IntToString(now);
    number
  }

  /** Invoices created at different instants get different numbers. */
  lemma InvoiceNumberInjective(now1: int, now2: int)
    requires InvoiceNumber(now1) == InvoiceNumber(now2)
    ensures now1 == now2
  {
    assert InvoiceNumber(now1)[4..] == IntToString(now1);
    assert InvoiceNumber(now2)[4..] == IntToString(now2);
    IntToStringInjective(now1, now2);
  }

  /** The `items.map` pass: each request item is copied field by field into
      the created item list while `total` accumulates its line total. */
  method MapItems(items: seq<InvoiceItem>) returns (total: real, invoiceItems: seq<InvoiceItem>)
    ensures total == ItemsTotal(items)
    ensures |invoiceItems| == |items|
    ensures forall i :: 0 <= i < |items| ==>
              invoiceItems[i].productId == items[i].productId &&
              invoiceItems[i].quantity == items[i].quantity &&
              invoiceItems[i].price == items[i].price
  {
    total := 0.0;
    invoiceItems := [];
    var i := 0;
    while i < |items|
      invariant 0 <= i <= |items|
      invariant total == ItemsTotal(items[..i])
      invariant invoiceItems == items[..i]
    {
      var item := items[i];
      var itemTotal := item.quantity as real * item.price;
      total := total + itemTotal;
      invoiceItems := invoiceItems + [InvoiceItem(item.productId, item.quantity, item.price)];
      assert items[..i + 1][..i] == items[..i];
      i := i + 1;
    }
    assert items[..i] == items;
  }

  /** POST /invoices: the stored invoice. `id` is the identifier the store
      assigns, `now` the creation instant; a new invoice starts 'pending'. */
  method CreateInvoice(id: int, customerId: int, kind: string, items: seq<InvoiceItem>,
                       dueDate: Option<string>, now: int, parseDate: string -> int)
    returns (invoice: Invoice)
    ensures invoice.total == ItemsTotal(items)
    ensures invoice.tax == invoice.total * TaxRate(kind)
    ensures invoice.items == items
    ensures invoice.number == InvoiceNumber(now) && invoice.date == now
    ensures invoice.dueDate == DueDate(dueDate, parseDate)
    ensures invoice.id == id && invoice.customerId == customerId && invoice.kind == kind
    ensures invoice.status == "pending"
  {
    var total, invoiceItems := MapItems(items);
    var taxRate := if kind == "NF-e" then 0.1 else 0.05;
    var tax := total * taxRate;
    var due := if dueDate.Some? && dueDate.value != "" then Some(parseDate(dueDate.value)) else None;
    invoice := Invoice(id, "INV-" + IntToString(now), now, due, customerId, total, tax, kind, "pending", invoiceItems);
  }

  /** The total is additive over the item list. */
  lemma ItemsTotalAppend(a: seq<InvoiceItem>, b: seq<InvoiceItem>)
    ensures ItemsTotal(a + b) == ItemsTotal(a) + ItemsTotal(b)
  {
    SumAppend(a, b, LineTotal);
  }

  /** No items: total 0 and tax 0, whatever the type. */
  lemma EmptyInvoice(kind: string)
    ensures ItemsTotal([]) == 0.0
    ensures ItemsTotal([]) * TaxRate(kind) == 0.0
  {
  }

  /** The tax of an 'NF-e' invoice is twice the tax the same items carry on any other type. */
  lemma NfeTaxDouble(total: real, kind: string)
    requires kind != "NF-e"
    ensures total * TaxRate("NF-e") == 2.0 * (total * TaxRate(kind))
  {
  }

  // ---------------------------------------------------------------------------
  // GET /overdue-invoices
  // ---------------------------------------------------------------------------

  predicate IsOverdue(inv: Invoice, now: int) {
    inv.status == "pending" && inv.dueDate.Some? && inv.dueDate.value < now
  }

  /** The pending invoices whose due date is strictly before `now`, in storage order. */
  function Overdue(invoices: seq<Invoice>, now: int): (r: seq<Invoice>)
    ensures Subsequence(r, invoices)
    ensures forall inv :: inv in r <==>
              inv in invoices && inv.status == "pending" && inv.dueDate.Some? && inv.dueDate.value < now
    ensures forall inv :: multiset(r)[inv] ==
              if inv.status == "pending" && inv.dueDate.Some? && inv.dueDate.value < now
              then multiset(invoices)[inv] else 0
  {
    var overdue := (inv: Invoice) => IsOverdue(inv, now);
    WhereMultiset(invoices, overdue);
    Where(invoices, overdue)
  }

  /** Once overdue, an invoice stays overdue as time passes, until its status changes. */
  lemma OverdueGrows(invoices: seq<Invoice>, now1: int, now2: int)
    requires now1 <= now2
    ensures forall inv :: inv in Overdue(invoices, now1) ==> inv in Overdue(invoices, now2)
  {
  }

  /** An invoice with no due date, or one just created, is never overdue. */
  lemma NewInvoiceNotOverdue(invoice: Invoice, now: int)
    requires invoice.dueDate.None? || invoice.dueDate.value >= now
    ensures invoice !in Overdue([invoice], now)
  {
  }
}
