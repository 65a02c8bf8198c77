/** The financial report engine (backend/src/routes/reports.ts): the
    revenue/expense summary, the category-id list, the cash-flow running
    balance, the cash-flow projection, the expenses report and the sales
    report with its three groupings. Every report only reads rows. */
module Reports {

  import opened Rows
  import opened Ledger
  import opened Text
  import opened Calendar

  // ---------------------------------------------------------------------------
  // Row selections shared by the reports (dates inclusive at both ends)
  // ---------------------------------------------------------------------------

  function IncomeWithin(txs: seq<Transaction>, start: int, end: int): seq<Transaction>
  {
    Where(txs, (t: Transaction) => IsIncome(t) && Within(t.date, start, end))
  }

  function ExpensesWithin(txs: seq<Transaction>, start: int, end: int): seq<Transaction>
  {
    Where(txs, (t: Transaction) => IsExpense(t) && Within(t.date, start, end))
  }

  function InvoicesWithin(invoices: seq<Invoice>, start: int, end: int): seq<Invoice>
  {
    Where(invoices, (i: Invoice) => Within(i.date, start, end))
  }

  function CategoryOf(t: Transaction): Option<int> {
    t.categoryId
  }

  // ---------------------------------------------------------------------------
  // GET /reports/revenue-expense
  // ---------------------------------------------------------------------------

  datatype Summary = Summary(totalRevenue: real, totalExpenses: real, netProfit: real)

  datatype RevenueExpenseReport = RevenueExpenseReport(
    summary: Summary,
    revenueByCategory: seq<Group<Option<int>>>,
    expensesByCategory: seq<Group<Option<int>>>)

  /** The summary and the per-category groupings; an absent sum counts as 0. */
  function RevenueExpense(txs: seq<Transaction>, invoices: seq<Invoice>, start: int, end: int): (r: RevenueExpenseReport)
    ensures r.summary.totalRevenue == Sum(IncomeWithin(txs, start, end), Amount) + Sum(InvoicesWithin(invoices, start, end), Total)
    ensures r.summary.totalExpenses == Sum(ExpensesWithin(txs, start, end), Amount)
    ensures r.summary.netProfit == r.summary.totalRevenue - r.summary.totalExpenses
    ensures GroupTotal(r.revenueByCategory) == Sum(IncomeWithin(txs, start, end), Amount)
    ensures GroupTotal(r.expensesByCategory) == r.summary.totalExpenses
    ensures DistinctKeys(r.revenueByCategory) && DistinctKeys(r.expensesByCategory)
    ensures GroupKeys(r.revenueByCategory) == set t | t in IncomeWithin(txs, start, end) :: CategoryOf(t)
    ensures GroupKeys(r.expensesByCategory) == set t | t in ExpensesWithin(txs, start, end) :: CategoryOf(t)
    ensures forall g :: g in r.revenueByCategory ==> g.sum == KeySum(IncomeWithin(txs, start, end), CategoryOf, Amount, g.key)
    ensures forall g :: g in r.expensesByCategory ==> g.sum == KeySum(ExpensesWithin(txs, start, end), CategoryOf, Amount, g.key)
  {
    var income := IncomeWithin(txs, start, end);
    var expenses := ExpensesWithin(txs, start, end);
    var totalRevenue := Aggregate(income, Amount).GetOr(0.0) + Aggregate(InvoicesWithin(invoices, start, end), Total).GetOr(0.0);
    var totalExpenses := Aggregate(expenses, Amount).GetOr(0.0);
    GroupByCorrect(income, CategoryOf, Amount);
    GroupByCorrect(expenses, CategoryOf, Amount);
    RevenueExpenseReport(
      Summary(totalRevenue, totalExpenses, totalRevenue - totalExpenses),
      GroupBy(income, CategoryOf, Amount),
      GroupBy(expenses, CategoryOf, Amount))
  }

  /** A range with no rows gives a zero summary and empty groupings. */
  lemma RevenueExpenseEmpty(txs: seq<Transaction>, invoices: seq<Invoice>, start: int, end: int)
    requires forall t :: t in txs ==> !Within(t.date, start, end)
    requires forall i :: i in invoices ==> !Within(i.date, start, end)
    ensures RevenueExpense(txs, invoices, start, end) == RevenueExpenseReport(Summary(0.0, 0.0, 0.0), [], [])
  {
    WhereNone(txs, (t: Transaction) => IsIncome(t) && Within(t.date, start, end));
    WhereNone(txs, (t: Transaction) => IsExpense(t) && Within(t.date, start, end));
    WhereNone(invoices, (i: Invoice) => Within(i.date, start, end));
  }

  /** The non-null keys of a grouping, in order. */
  function PresentKeys(gs: seq<Group<Option<int>>>): (ids: seq<int>)
    ensures forall id :: id in ids <==> Some(id) in GroupKeys(gs)
  {
    if gs == [] then []
    else
      var init := PresentKeys(gs[..|gs| - 1]);
      assert forall g :: g in gs <==> g in gs[..|gs| - 1] || g == gs[|gs| - 1];
      match gs[|gs| - 1].key
      case Some(id) => init + [id]
      case None => init
  }

  /** `[...new Set([...revenue ids, ...expense ids].filter(id => id !== null))]`. */
  function CategoryIds(revenue: seq<Group<Option<int>>>, expenses: seq<Group<Option<int>>>): (ids: seq<int>)
    ensures forall i, j :: 0 <= i < j < |ids| ==> ids[i] != ids[j]
    ensures forall id :: id in ids <==> Some(id) in GroupKeys(revenue) || Some(id) in GroupKeys(expenses)
  {
    var ids := PresentKeys(revenue + expenses);
    assert GroupKeys(revenue + expenses) == GroupKeys(revenue) + GroupKeys(expenses);
    Dedupe(ids)
  }

  /** The category ids of the report are exactly the categories that some
      in-range income or expense transaction names. */
  lemma CategoryIdsOfReport(txs: seq<Transaction>, invoices: seq<Invoice>, start: int, end: int, id: int)
    ensures var r := RevenueExpense(txs, invoices, start, end);
            id in CategoryIds(r.revenueByCategory, r.expensesByCategory) <==>
            exists t :: t in txs && (IsIncome(t) || IsExpense(t)) && Within(t.date, start, end) && t.categoryId == Some(id)
  {
    var income, expenses := IncomeWithin(txs, start, end), ExpensesWithin(txs, start, end);
    GroupByShape(income, CategoryOf, Amount);
    GroupByShape(expenses, CategoryOf, Amount);
    assert Some(id) in (set t | t in income :: CategoryOf(t)) <==> exists t :: t in income && t.categoryId == Some(id);
  }

  // ---------------------------------------------------------------------------
  // GET /reports/cash-flow
  // ---------------------------------------------------------------------------

  /** An income adds its amount; every other type subtracts it. */
  function Signed(t: Transaction): real {
    if IsIncome(t) then t.amount else -t.amount
  }

  /** The running balance after the given rows, starting from 0. */
  function Balance(rows: seq<Transaction>): real {
    Sum(rows, Signed)
  }

  datatype CashFlowEntry = CashFlowEntry(
    date: int, description: string, amount: real, kind: string, balance: real, account: string)

  /** `findMany({ where: { date in [start, end] }, orderBy: { date: 'asc' } })`. */
  function CashFlowRows(txs: seq<Transaction>, start: int, end: int): (rows: seq<Transaction>)
    ensures SortedBy(rows, (t: Transaction) => t.date)
    ensures multiset(rows) == multiset(Where(txs, (t: Transaction) => Within(t.date, start, end)))
  {
    SortBy(Where(txs, (t: Transaction) => Within(t.date, start, end)), (t: Transaction) => t.date)
  }

  /** The cash-flow report over rows already selected and ordered:
      entry i carries row i and the balance after rows 0..i. `accountName`
      is the included account relation. */
  method CashFlow(rows: seq<Transaction>, accountName: int -> string) returns (cashFlow: seq<CashFlowEntry>)
    ensures |cashFlow| == |rows|
    ensures forall i :: 0 <= i < |rows| ==>
              cashFlow[i] == CashFlowEntry(rows[i].date, rows[i].description, rows[i].amount, rows[i].kind,
                                           Balance(rows[..i + 1]), accountName(rows[i].accountId))
  {
    var runningBalance := 0.0;
    cashFlow := [];
    var i := 0;
    while i < |rows|
      invariant 0 <= i <= |rows|
      invariant |cashFlow| == i
      invariant runningBalance == Balance(rows[..i])
      invariant forall j :: 0 <= j < i ==>
                  cashFlow[j] == CashFlowEntry(rows[j].date, rows[j].description, rows[j].amount, rows[j].kind,
                                               Balance(rows[..j + 1]), accountName(rows[j].accountId))
    {
      var t := rows[i];
      if t.kind == "income" {
        runningBalance := runningBalance + t.amount;
      } else {
        runningBalance := runningBalance - t.amount;
      }
      assert rows[..i + 1][..i] == rows[..i];
      cashFlow := cashFlow + [CashFlowEntry(t.date, t.description, t.amount, t.kind, runningBalance, accountName(t.accountId))];
      i := i + 1;
    }
  }

  /** Each balance is the previous one moved by the signed amount of its row. */
  lemma BalanceStep(rows: seq<Transaction>, i: nat)
    requires i < |rows|
    ensures Balance(rows[..i + 1]) == Balance(rows[..i]) + Signed(rows[i])
  {
    assert rows[..i + 1][..i] == rows[..i];
  }

  /** Every type other than 'income' lowers the balance. */
  predicate NotIncome(t: Transaction) {
    !IsIncome(t)
  }

  /** The balance after all rows is the income total minus the total of every other type. */
  lemma {:induction false} BalanceSplit(rows: seq<Transaction>)
    ensures Balance(rows) == Sum(Where(rows, IsIncome), Amount) - Sum(Where(rows, NotIncome), Amount)
  {
    if rows != [] {
      BalanceSplit(rows[..|rows| - 1]);
    }
  }

  lemma CashFlowExample(a: Transaction, b: Transaction, c: Transaction)
    requires a.kind == "income" && a.amount == 100.0
    requires b.kind == "expense" && b.amount == 30.0
    requires c.kind == "income" && c.amount == 10.0
    ensures Balance([a, b, c][..1]) == 100.0
    ensures Balance([a, b, c][..2]) == 70.0
    ensures Balance([a, b, c][..3]) == 80.0
  {
    var rows := [a, b, c];
    BalanceStep(rows, 0);
    BalanceStep(rows, 1);
    BalanceStep(rows, 2);
  }

  // ---------------------------------------------------------------------------
  // GET /reports/cash-flow-projection
  // ---------------------------------------------------------------------------

  /** `days` defaults to 30 when the query leaves it out. */
  function DaysAhead(days: Option<int>): (n: int)
    ensures days.None? ==> n == 30
    ensures days.Some? ==> n == days.value
  {
    days.GetOr(30)
  }

  /** Dated in [today, futureDate] and either projected or pending. */
  predicate Projectable(t: Transaction, today: int, futureDate: int) {
    Within(t.date, today, futureDate) && (t.isProjected || t.status == "pending")
  }

  /** `futureDate`: `days` days of milliseconds after today. */
  function Horizon(today: int, days: Option<int>): int {
    today + DaysAhead(days) * MsPerDay
  }

  /** The projection's `where` as a row test. */
  function ProjectableIn(today: int, futureDate: int): Transaction -> bool
  {
    (t: Transaction) => Projectable(t, today, futureDate)
  }

  function ProjectionRows(txs: seq<Transaction>, today: int, days: Option<int>): (rows: seq<Transaction>)
    ensures SortedBy(rows, (t: Transaction) => t.date)
    ensures forall t :: t in rows <==>
              t in txs && today <= t.date <= today + DaysAhead(days) * MsPerDay && (t.isProjected || t.status == "pending")
    ensures multiset(rows) == multiset(Where(txs, ProjectableIn(today, Horizon(today, days))))
  {
    var futureDate := Horizon(today, days);
    var selected := Where(txs, ProjectableIn(today, futureDate));
    var rows := SortBy(selected, (t: Transaction) => t.date);
    SameMembers(rows, selected);
    forall t ensures t in selected <==> t in txs && Projectable(t, today, futureDate) {
      assert ProjectableIn(today, futureDate)(t) == Projectable(t, today, futureDate);
    }
    rows
  }

  datatype ProjectionEntry = ProjectionEntry(
    date: int, description: string, amount: real, kind: string,
    projectedBalance: real, isProjected: bool, account: string)

  /** The projection over rows already selected and ordered: its own running
      balance from 0, and each row's `isProjected` flag copied through. */
  method Projection(rows: seq<Transaction>, accountName: int -> string) returns (projection: seq<ProjectionEntry>)
    ensures |projection| == |rows|
    ensures forall i :: 0 <= i < |rows| ==>
              projection[i] == ProjectionEntry(rows[i].date, rows[i].description, rows[i].amount, rows[i].kind,
                                               Balance(rows[..i + 1]), rows[i].isProjected, accountName(rows[i].accountId))
  {
    var projectedBalance := 0.0;
    projection := [];
    var i := 0;
    while i < |rows|
      invariant 0 <= i <= |rows|
      invariant |projection| == i
      invariant projectedBalance == Balance(rows[..i])
      invariant forall j :: 0 <= j < i ==>
                  projection[j] == ProjectionEntry(rows[j].date, rows[j].description, rows[j].amount, rows[j].kind,
                                                   Balance(rows[..j + 1]), rows[j].isProjected, accountName(rows[j].accountId))
    {
      var t := rows[i];
      if t.kind == "income" {
        projectedBalance := projectedBalance + t.amount;
      } else {
        projectedBalance := projectedBalance - t.amount;
      }
      assert rows[..i + 1][..i] == rows[..i];
      projection := projection + [ProjectionEntry(t.date, t.description, t.amount, t.kind, projectedBalance,
                                                  t.isProjected, accountName(t.accountId))];
      i := i + 1;
    }
  }

  // ---------------------------------------------------------------------------
  // GET /reports/expenses
  // ---------------------------------------------------------------------------

  datatype ExpensesReport = ExpensesReport(totalExpenses: real, expensesByCategory: seq<Group<Option<int>>>)

  /** Expenses grouped by category with sum and count, and the reduce over
      the groups' sums as the total. */
  function Expenses(txs: seq<Transaction>, start: int, end: int): (r: ExpensesReport)
    ensures r.totalExpenses == Sum(ExpensesWithin(txs, start, end), Amount)
    ensures forall g :: g in r.expensesByCategory ==>
              g.sum == KeySum(ExpensesWithin(txs, start, end), CategoryOf, Amount, g.key) &&
              g.count == KeyCount(ExpensesWithin(txs, start, end), CategoryOf, g.key) > 0
    ensures GroupKeys(r.expensesByCategory) == set t | t in ExpensesWithin(txs, start, end) :: t.categoryId
    ensures DistinctKeys(r.expensesByCategory) && GroupTotal(r.expensesByCategory) == r.totalExpenses
  {
    var rows := ExpensesWithin(txs, start, end);
    var groups := GroupBy(rows, CategoryOf, Amount);
    GroupByCorrect(rows, CategoryOf, Amount);
    ExpensesReport(GroupTotal(groups), groups)
  }

  // ---------------------------------------------------------------------------
  // GET /reports/sales
  // ---------------------------------------------------------------------------

  datatype ProductSales = ProductSales(productId: int, price: real, quantity: real)

  datatype SalesData =
    | ByCustomer(customers: seq<Group<int>>)
    | ByProduct(products: seq<ProductSales>)
    | ByMonth(months: seq<Group<string>>)

  function CustomerOf(i: Invoice): int { i.customerId }
  function ProductOf(it: InvoiceItem): int { it.productId }
  function UnitPrice(it: InvoiceItem): real { it.price }
  function Quantity(it: InvoiceItem): real { it.quantity as real }

  /** All items of the given invoices, invoice by invoice. */
  function ItemsOf(invoices: seq<Invoice>): seq<InvoiceItem>
  {
    if invoices == [] then [] else ItemsOf(invoices[..|invoices| - 1]) + invoices[|invoices| - 1].items
  }

  /** Invoices grouped by customer: the summed total and the invoice count. */
  function SalesByCustomer(invoices: seq<Invoice>): (r: seq<Group<int>>)
    ensures DistinctKeys(r)
    ensures GroupKeys(r) == set i | i in invoices :: i.customerId
    ensures forall g :: g in r ==>
              g.sum == KeySum(invoices, CustomerOf, Total, g.key) && g.count == KeyCount(invoices, CustomerOf, g.key) > 0
  {
    GroupByCorrect(invoices, CustomerOf, Total);
    GroupBy(invoices, CustomerOf, Total)
  }

  /** Each product group with the summed quantity of its items beside the summed price. */
  function WithQuantity(groups: seq<Group<int>>, items: seq<InvoiceItem>): (r: seq<ProductSales>)
    ensures |r| == |groups|
    ensures forall i :: 0 <= i < |r| ==>
              r[i] == ProductSales(groups[i].key, groups[i].sum, KeySum(items, ProductOf, Quantity, groups[i].key))
  {
    if groups == [] then []
    else [ProductSales(groups[0].key, groups[0].sum, KeySum(items, ProductOf, Quantity, groups[0].key))]
         + WithQuantity(groups[1..], items)
  }

  /** Items grouped by product, summing the raw unit `price` and the
      `quantity` column (not price times quantity). */
  function SalesByProduct(items: seq<InvoiceItem>): (r: seq<ProductSales>)
    ensures forall i, j :: 0 <= i < j < |r| ==> r[i].productId != r[j].productId
    ensures forall p :: p in r ==>
              p.price == KeySum(items, ProductOf, UnitPrice, p.productId) &&
              p.quantity == KeySum(items, ProductOf, Quantity, p.productId)
    ensures (set p | p in r :: p.productId) == set it | it in items :: it.productId
  {
    var groups := GroupBy(items, ProductOf, UnitPrice);
    GroupByCorrect(items, ProductOf, UnitPrice);
    var r := WithQuantity(groups, items);
    WithQuantityKeys(groups, items);
    forall p | p in r ensures p.price == KeySum(items, ProductOf, UnitPrice, p.productId) {
      var i :| 0 <= i < |r| && r[i] == p;
      assert groups[i] in groups;
    }
    assert (set it | it in items :: ProductOf(it)) == set it | it in items :: it.productId;
    r
  }

  /** The product ids of the rows are the group keys, each once. */
  lemma WithQuantityKeys(groups: seq<Group<int>>, items: seq<InvoiceItem>)
    requires DistinctKeys(groups)
    ensures var r := WithQuantity(groups, items);
            (forall i, j :: 0 <= i < j < |r| ==> r[i].productId != r[j].productId) &&
            (set p | p in r :: p.productId) == GroupKeys(groups)
  {
    var r := WithQuantity(groups, items);
    var ids := set p | p in r :: p.productId;
    forall k | k in ids ensures k in GroupKeys(groups) {
      var p :| p in r && p.productId == k;
      var i :| 0 <= i < |r| && r[i] == p;
      assert groups[i] in groups;
    }
    forall k | k in GroupKeys(groups) ensures k in ids {
      var g :| g in groups && g.key == k;
      var i :| 0 <= i < |groups| && groups[i] == g;
      assert r[i] in r;
    }
  }

  /** SQLite's `strftime('%Y-%m', date)` on the civil day of an instant. */
  function MonthKey(day: CivilDate): (key: string)
    ensures 1 <= day.month <= 12 ==>
              |key| >= 7 && key[|key| - 3] == '-' &&
              key[|key| - 2..] == [DigitChar(day.month / 10), DigitChar(day.month % 10)]
  {
    var year := PadStart(IntToString(day.year), 4, '0');
    var month := PadStart(IntToString(day.month), 2, '0');
    assert 1 <= day.month <= 12 ==> month == [DigitChar(day.month / 10), DigitChar(day.month % 10)] by {
      if 1 <= day.month <= 12 {
        TwoDigits(day.month);
      }
    }
    var key := year + "-" + month;
    assert 1 <= day.month <= 12 ==> key[|key| - 2..] == month;
    key
  }

  /** Two months of the same year get different keys, so the monthly
      grouping never merges them. */
  lemma MonthKeySeparatesMonths(a: CivilDate, b: CivilDate)
    requires 1 <= a.month <= 12 && 1 <= b.month <= 12 && a.month != b.month
    ensures MonthKey(a) != MonthKey(b)
  {
    var ka, kb := MonthKey(a), MonthKey(b);
    if ka == kb {
      assert ka[|ka| - 2..] == kb[|kb| - 2..];
      TwoDigitsInjective(a.month, b.month);
    }
  }

  /** For a year from 0 to 9999 the key is exactly seven characters: four
      that read back as the year, a hyphen, and two that read back as the
      month. */
  lemma MonthKeyReadsBack(day: CivilDate)
    requires 0 <= day.year <= 9999 && 1 <= day.month <= 12
    ensures var key := MonthKey(day);
            |key| == 7 && key[4] == '-' &&
            AllDigits(key[..4]) && ParseNat(key[..4]) == day.year &&
            AllDigits(key[5..]) && ParseNat(key[5..]) == day.month
  {
    var year := PadStart(IntToString(day.year), 4, '0');
    var month := PadStart(IntToString(day.month), 2, '0');
    AtMostFourDigits(day.year);
    TwoDigits(day.month);
    PaddedReadsBack(day.year, 4);
    PaddedReadsBack(day.month, 2);
    var key := MonthKey(day);
    assert key == year + "-" + month;
    assert key[..4] == year && key[5..] == month;
  }

  /** Within years 0 to 9999, two days have equal keys exactly when they
      fall in the same year and month: the monthly grouping merges exactly
      the sales of one calendar month. */
  lemma MonthKeyInjective(a: CivilDate, b: CivilDate)
    requires 0 <= a.year <= 9999 && 1 <= a.month <= 12
    requires 0 <= b.year <= 9999 && 1 <= b.month <= 12
    ensures MonthKey(a) == MonthKey(b) <==> a.year == b.year && a.month == b.month
  {
    MonthKeyReadsBack(a);
    MonthKeyReadsBack(b);
  }

  /** Strict code-unit lexicographic order, as SQL's `ORDER BY` on text. */
  predicate StrLess(a: string, b: string)
  {
    b != [] && (a == [] || a[0] < b[0] || (a[0] == b[0] && StrLess(a[1..], b[1..])))
  }

  lemma {:induction false} StrLessTransitive(a: string, b: string, c: string)
    requires StrLess(a, b) && StrLess(b, c)
    ensures StrLess(a, c)
  {
    if a != [] && a[0] == b[0] && b[0] == c[0] {
      StrLessTransitive(a[1..], b[1..], c[1..]);
    }
  }

  lemma {:induction false} StrLessTotal(a: string, b: string)
    ensures a == b || StrLess(a, b) || StrLess(b, a)
  {
    if a != [] && b != [] && a[0] == b[0] {
      StrLessTotal(a[1..], b[1..]);
      if a[1..] == b[1..] {
        assert a == [a[0]] + a[1..] && b == [b[0]] + b[1..];
      }
    }
  }

  lemma {:induction false} StrLessIrreflexive(a: string)
    ensures !StrLess(a, a)
  {
    if a != [] {
      StrLessIrreflexive(a[1..]);
    }
  }

  ghost predicate AscendingKeys(gs: seq<Group<string>>)
  {
    forall i, j :: 0 <= i < j < |gs| ==> StrLess(gs[i].key, gs[j].key)
  }

  /** Inserts a group in front of the first group with a larger key. */
  function InsertByKey(g: Group<string>, s: seq<Group<string>>): (r: seq<Group<string>>)
    requires AscendingKeys(s) && g.key !in GroupKeys(s)
    ensures AscendingKeys(r)
    ensures multiset(r) == multiset(s) + multiset{g}
  {
    if s == [] then [g]
    else if StrLess(g.key, s[0].key) then
      forall j | 0 <= j < |s| ensures StrLess(g.key, s[j].key) {
        if j > 0 {
          StrLessTransitive(g.key, s[0].key, s[j].key);
        }
      }
      [g] + s
    else
      StrLessTotal(g.key, s[0].key);
      assert s == [s[0]] + s[1..];
      var rest := InsertByKey(g, s[1..]);
      KeyHeadFirst(g, s, rest);
      [s[0]] + rest
  }

  /** Every group of a permutation of the tail plus `g` has a larger key
      than the head, when `g` has one too. */
  lemma KeyHeadFirst(g: Group<string>, s: seq<Group<string>>, rest: seq<Group<string>>)
    requires AscendingKeys(s) && s != [] && StrLess(s[0].key, g.key)
    requires multiset(rest) == multiset(s[1..]) + multiset{g}
    ensures forall j :: 0 <= j < |rest| ==> StrLess(s[0].key, rest[j].key)
  {
    forall j | 0 <= j < |rest| ensures StrLess(s[0].key, rest[j].key) {
      var y := rest[j];
      assert y in multiset(rest);
      if y != g {
        assert y in multiset(s[1..]);
        var k :| 0 <= k < |s[1..]| && s[1..][k] == y;
        assert s[k + 1] == y;
      }
    }
  }

  lemma {:induction false} InsertByKeyTotal(g: Group<string>, s: seq<Group<string>>)
    requires AscendingKeys(s) && g.key !in GroupKeys(s)
    ensures GroupTotal(InsertByKey(g, s)) == g.sum + GroupTotal(s)
  {
    if s == [] {
      GroupTotalCons(g, s);
    } else if StrLess(g.key, s[0].key) {
      GroupTotalCons(g, s);
    } else {
      assert s == [s[0]] + s[1..];
      InsertByKeyTotal(g, s[1..]);
      GroupTotalCons(s[0], InsertByKey(g, s[1..]));
      GroupTotalCons(s[0], s[1..]);
    }
  }

  /** Orders groups with distinct keys by ascending key. */
  function SortByKey(gs: seq<Group<string>>): (r: seq<Group<string>>)
    requires DistinctKeys(gs)
    ensures AscendingKeys(r)
    ensures multiset(r) == multiset(gs)
    ensures GroupTotal(r) == GroupTotal(gs)
  {
    if gs == [] then []
    else
      var init, g := gs[..|gs| - 1], gs[|gs| - 1];
      assert gs == init + [g];
      var sorted := SortByKey(init);
      forall h | h in sorted ensures h.key != g.key {
        assert h in multiset(init);
        var k :| 0 <= k < |init| && init[k] == h;
        assert gs[k] == h;
      }
      InsertByKeyTotal(g, sorted);
      InsertByKey(g, sorted)
  }

  /** The groups of a sorting are the groups it was given. */
  lemma SortByKeyMembers(gs: seq<Group<string>>)
    requires DistinctKeys(gs)
    ensures forall g :: g in SortByKey(gs) <==> g in gs
    ensures GroupKeys(SortByKey(gs)) == GroupKeys(gs)
  {
    var r := SortByKey(gs);
    assert forall g :: g in r <==> g in multiset(r);
    assert forall g :: g in gs <==> g in multiset(gs);
  }

  /** The month key of an invoice's date. */
  function InvoiceMonth(dayOf: int -> CivilDate): Invoice -> string
  {
    (i: Invoice) => MonthKey(dayOf(i.date))
  }

  /** The monthly sales: one group per distinct month key with the summed
      total and the invoice count, ordered by key. `dayOf` is the civil day
      the database reads from an instant. */
  function MonthlySales(invoices: seq<Invoice>, dayOf: int -> CivilDate): (r: seq<Group<string>>)
    ensures AscendingKeys(r)
    ensures GroupKeys(r) == set i | i in invoices :: InvoiceMonth(dayOf)(i)
    ensures forall g :: g in r ==>
              g.sum == KeySum(invoices, InvoiceMonth(dayOf), Total, g.key) &&
              g.count == KeyCount(invoices, InvoiceMonth(dayOf), g.key) > 0
    ensures GroupTotal(r) == Sum(invoices, Total)
  {
    var groups := GroupBy(invoices, InvoiceMonth(dayOf), Total);
    GroupByCorrect(invoices, InvoiceMonth(dayOf), Total);
    SortByKeyMembers(groups);
    SortByKey(groups)
  }

  /** The `groupBy` query parameter picks the grouping; anything other than
      'customer' or 'product', including no parameter, groups by month. */
  function Sales(groupBy: Option<string>, invoices: seq<Invoice>, start: int, end: int,
                 dayOf: int -> CivilDate): (r: SalesData)
    ensures groupBy == Some("customer") <==> r.ByCustomer?
    ensures groupBy == Some("product") <==> r.ByProduct?
    ensures r.ByCustomer? ==> r.customers == SalesByCustomer(InvoicesWithin(invoices, start, end))
    ensures r.ByProduct? ==> r.products == SalesByProduct(ItemsOf(InvoicesWithin(invoices, start, end)))
    ensures r.ByMonth? ==> r.months == MonthlySales(InvoicesWithin(invoices, start, end), dayOf)
  {
    var inRange := InvoicesWithin(invoices, start, end);
    if groupBy == Some("customer") then ByCustomer(SalesByCustomer(inRange))
    else if groupBy == Some("product") then ByProduct(SalesByProduct(ItemsOf(inRange)))
    else ByMonth(MonthlySales(inRange, dayOf))
  }

  /** Any day of January 2024 has the key "2024-01". */
  lemma MonthKeyJanuary2024(day: CivilDate)
    requires day.year == 2024 && day.month == 1
    ensures MonthKey(day) == "2024-01"
  {
    Decimal2024();
    assert PadStart("1", 2, '0') == "01";
  }

  /** Two rows with one key make one group. */
  lemma GroupByPair<T(!new), K(!new)>(x: T, y: T, key: T -> K, f: T -> real)
    requires key(x) == key(y)
    ensures GroupBy([x, y], key, f) == [Group(key(x), f(x) + f(y), 2)]
  {
    assert [x, y][..1] == [x];
    assert [x][..0] == [];
    assert GroupBy([x], key, f) == [Group(key(x), f(x), 1)];
    assert GroupBy([x, y], key, f) == AddToGroups([Group(key(x), f(x), 1)], key(y), f(y));
  }

  /** Two invoices of January 2024 (totals 100 and 50) make one month, "2024-01", with total 150. */
  lemma MonthlySalesExample(a: Invoice, b: Invoice, dayOf: int -> CivilDate)
    requires dayOf(a.date) == CivilDate(2024, 1, 15) && a.total == 100.0
    requires dayOf(b.date) == CivilDate(2024, 1, 20) && b.total == 50.0
    ensures MonthlySales([a, b], dayOf) == [Group("2024-01", 150.0, 2)]
  {
    MonthKeyJanuary2024(dayOf(a.date));
    MonthKeyJanuary2024(dayOf(b.date));
    GroupByPair(a, b, InvoiceMonth(dayOf), Total);
    var g := Group("2024-01", 150.0, 2);
    assert [g][..0] == [];
    assert SortByKey([g]) == InsertByKey(g, []);
  }
}
