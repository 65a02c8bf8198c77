/** The stored entities the business rules read: transactions, invoices with
    their items, and accounts. Money is an exact `real`, instants are epoch
    milliseconds, and the string-valued columns (`type`, `status`) keep their
    string values because the rules compare them with literals. */
module Ledger {

  import opened Rows

  /** A ledger transaction. `kind` is the `type` column ('income', 'expense', ...). */
  datatype Transaction = Transaction(
    id: int,
    date: int,
    amount: real,
    description: string,
    kind: string,
    accountId: int,
    categoryId: Option<int>,
    status: string,
    isProjected: bool)

  /** A line of an invoice: `quantity` units of a product at unit `price`. */
  datatype InvoiceItem = InvoiceItem(productId: int, quantity: int, price: real)

  /** An invoice with its items. `kind` is the `type` column ('NF-e', 'NFS-e', ...). */
  datatype Invoice = Invoice(
    id: int,
    number: string,
    date: int,
    dueDate: Option<int>,
    customerId: int,
    total: real,
    tax: real,
    kind: string,
    status: string,
    items: seq<InvoiceItem>)

  datatype Account = Account(id: int, name: string, kind: string, balance: real)

  predicate IsIncome(t: Transaction) {
    t.kind == "income"
  }

  predicate IsExpense(t: Transaction) {
    t.kind == "expense"
  }

  /** `date: { gte: start, lte: end }`: both ends included. */
  predicate Within(date: int, start: int, end: int) {
    start <= date <= end
  }

  function Amount(t: Transaction): real {
    t.amount
  }

  function Total(inv: Invoice): real {
    inv.total
  }
}
