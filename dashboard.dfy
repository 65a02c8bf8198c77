/** The dashboard summary (backend/src/routes/dashboard.ts): five all-time
    figures over the whole store, with no date filter. */
module Dashboard {

  import opened Rows
  import opened Ledger

  datatype DashboardSummary = DashboardSummary(
    totalIncome: real, totalExpense: real, netProfit: real, totalBalance: real, totalSales: real)

  function AccountBalance(a: Account): real {
    a.balance
  }

  /** The summary; every absent `_sum` reads as 0, and the balance is the
      `reduce` over all accounts. */
  function Summary(txs: seq<Transaction>, accounts: seq<Account>, invoices: seq<Invoice>): (r: DashboardSummary)
    ensures r.totalIncome == Sum(Where(txs, IsIncome), Amount)
    ensures r.totalExpense == Sum(Where(txs, IsExpense), Amount)
    ensures r.netProfit == r.totalIncome - r.totalExpense
    ensures r.totalBalance == Sum(accounts, AccountBalance)
    ensures r.totalSales == Sum(invoices, Total)
  {
    var income := Aggregate(Where(txs, IsIncome), Amount);
    var expense := Aggregate(Where(txs, IsExpense), Amount);
    var totalBalance := Sum(accounts, AccountBalance);
    var totalSales := Aggregate(invoices, Total);
    DashboardSummary(income.GetOr(0.0), expense.GetOr(0.0), income.GetOr(0.0) - expense.GetOr(0.0),
                     totalBalance, totalSales.GetOr(0.0))
  }

  /** An empty store gives an all-zero summary. */
  lemma EmptySummary()
    ensures Summary([], [], []) == DashboardSummary(0.0, 0.0, 0.0, 0.0, 0.0)
  {
  }

  /** Recording one more transaction leaves the balance and the sales alone;
      an income raises the net profit by its amount, an expense lowers it,
      and any other type leaves it unchanged. */
  lemma {:induction false} AddTransaction(txs: seq<Transaction>, accounts: seq<Account>, invoices: seq<Invoice>, t: Transaction)
    ensures Summary(txs + [t], accounts, invoices).totalBalance == Summary(txs, accounts, invoices).totalBalance
    ensures Summary(txs + [t], accounts, invoices).totalSales == Summary(txs, accounts, invoices).totalSales
    ensures Summary(txs + [t], accounts, invoices).netProfit ==
            Summary(txs, accounts, invoices).netProfit +
            (if IsIncome(t) then t.amount else if IsExpense(t) then -t.amount else 0.0)
  {
    var all := txs + [t];
    assert all[..|all| - 1] == txs;
  }

  /** The balance depends only on the accounts: any two transaction lists give the same one. */
  lemma BalanceIgnoresTransactions(txs1: seq<Transaction>, txs2: seq<Transaction>, accounts: seq<Account>, invoices: seq<Invoice>)
    ensures Summary(txs1, accounts, invoices).totalBalance == Summary(txs2, accounts, invoices).totalBalance
  {
  }
}
