# Contabilidade Fácil: business rules in Dafny

This project models the business rules of Contabilidade Fácil, a small
bookkeeping system for Brazilian micro and small businesses. The rules live
inside Express route handlers and two React components. The model covers:

- the Simples Nacional DAS and MEI tax calculators and the tax table they
  upsert into;
- the financial reports: revenue/expense summary, cash flow, cash-flow
  projection, expenses and sales;
- invoice creation arithmetic and the overdue list;
- the dashboard totals;
- JWT access control and the role ranking;
- registration, login and the role update over the user store;
- the FAQ filter of the help centre;
- the invoice form's item builder.

Every database query (`findMany`, `aggregate`, `groupBy`, `$queryRaw`) is a
pure function over a sequence of rows (module `Rows`). An absent `_sum` is
`None`, and it reads as 0. Money is an exact `real`. Instants are epoch
milliseconds. "Now" and "today" are parameters. So are the time-zone
conversion from a civil date to an instant, the day an instant falls on,
bcrypt, and JWT signing and verification.

State that the source changes in place is held in classes:

- `Taxes.TaxTable`: the tax records, with `Upsert`, `CalculateDas` and `CalculateMei`;
- `Auth.UserStore`: the users, with `Register` and `UpdateRole`;
- `InvoiceForm.InvoiceEditor`: the `form` and `itemForm` component state.

The running-balance loops of the cash-flow reports and the `total +=` loop of
invoice creation are methods with loop invariants, each proved against a
specification function.

Modules, one per file: `Rows`, `Text` (decimal formatting, `padStart`),
`Calendar` (JavaScript `new Date(y, m, d)` month overflow), `Ledger` (stored
entities), `Taxes`, `Reports`, `Invoices`, `Dashboard`, `Access`, `Auth`,
`Help`, `InvoiceForm`.

The model follows the code in these places:

- negative revenue is taxed at the lowest bracket, not rejected;
- an unknown sales grouping falls back to the monthly one, not rejected;
- every non-income transaction lowers the running balance, not only expenses;
- product sales sum the raw unit price, not the line totals.

## Model

| member | source | states |
|---|---|---|
| Rows.Aggregate | backend/src/routes/dashboard.ts:17-24 | an `aggregate` `_sum` is absent exactly when no row matches |
| Rows.AggregateOrZero | backend/src/routes/reports.ts:36 | an absent sum read as 0 equals the plain sum of the matching rows |
| Rows.Where | backend/src/routes/reports.ts:98-104 | a `where` keeps storage order (subsequence) and keeps a row iff it satisfies the condition |
| Rows.WhereMultiset | backend/src/routes/reports.ts:98-104 | a `where` keeps each matching row exactly as often as it occurs and drops every other row: the result's multiset is the input's restricted to the condition |
| Rows.SumAppend | backend/src/routes/dashboard.ts:26 | a `reduce` sum over two concatenated row lists is the sum of the two sums |
| Rows.WhereAppend | backend/src/routes/reports.ts:98-104 | filtering a concatenation is concatenating the filtered parts |
| Rows.Dedupe | backend/src/routes/reports.ts:70 | `[...new Set(xs)]`: the same elements, each once, in order of first appearance |
| Rows.GroupByCorrect | backend/src/routes/reports.ts:50-67 | `groupBy`: one group per distinct key of the rows; each group's sum and (non-zero) count are those of exactly the rows with its key; the group sums add up to the sum over all rows |
| Rows.SortBy | backend/src/routes/reports.ts:102 | `orderBy: { date: 'asc' }`: the result is sorted by date and is a permutation of the input |
| Rows.SortByStable | backend/src/routes/reports.ts:102 | rows with equal dates keep their storage order (the tie rule this model chooses) |
| Text.IntToStringRoundTrip | backend/src/routes/taxes.ts:103 | `year.toString()` parses back to the year |
| Text.IntToStringInjective | backend/src/routes/taxes.ts:103 | distinct years give distinct MEI period keys |
| Text.PadStart | backend/src/routes/taxes.ts:27 | `padStart(width, c)`: the string right-aligned in `width` characters, filled with `c` on the left |
| Calendar.FullYear | backend/src/routes/taxes.ts:30-31 | the year `new Date` uses is never in 0-99: a year argument from 0 to 99 becomes 1900-1999 with the same last two digits, and any other year is kept |
| Calendar.JsDate | backend/src/routes/taxes.ts:30-31 | `new Date(y, m, d)` lands in month `m mod 12` with the overflow carried into the year; years 0-99 mean 1900-1999 |
| Calendar.JsDateMonth | backend/src/routes/taxes.ts:90 | month index 12 is January of the next year, index -1 December of the previous one |
| Taxes.DasPeriod | backend/src/routes/taxes.ts:27 | for a month from 1 to 12 the DAS period is the year, a hyphen and the month in exactly two digits |
| Taxes.MeiPeriod | backend/src/routes/taxes.ts:103 | the MEI period is the year's decimal text, which reads back as the year |
| Taxes.DasPeriodMarch | backend/src/routes/taxes.ts:27 | month 3 of 2024 gives "2024-03": a one-digit month is padded with '0' |
| Taxes.DasPeriodDecember | backend/src/routes/taxes.ts:27 | month 12 of 2024 gives "2024-12": a two-digit month is kept as it is |
| Taxes.DasPeriodRoundTrip | backend/src/routes/taxes.ts:27 | the period key parses back to (year, month) |
| Taxes.DasPeriodInjective | backend/src/routes/taxes.ts:27 | distinct (year, month) give distinct keys, so the (type, period) key names one month |
| Taxes.DasWindow | backend/src/routes/taxes.ts:30-31 | the DAS window runs from day 1 of a month to day 1 of the next month |
| Taxes.DasWindowBounds | backend/src/routes/taxes.ts:30-31 | the window is [first day of the month, first day of the next month), December rolling into January |
| Taxes.MeiWindowBounds | backend/src/routes/taxes.ts:106-107 | the MEI window is [1 Jan of the year, 1 Jan of the next year) |
| Taxes.DasWindowsAdjoin | backend/src/routes/taxes.ts:36-39 | consecutive DAS windows meet, and the half-open bounds count no instant in two consecutive months |
| Taxes.WindowRevenue | backend/src/routes/taxes.ts:54 | revenue is the income-transaction sum plus the invoice-total sum in the window, each 0 when absent |
| Taxes.DasRate | backend/src/routes/taxes.ts:57-70 | the rate is one of the six bracket rates; it is 6% exactly up to 180000 and 33% exactly above 3600000 |
| Taxes.DasTax | backend/src/routes/taxes.ts:57-70 | for non-negative revenue the tax lies between 6% and 33% of it; up to 180000 it is exactly 6% |
| Taxes.DasRateBoundaries | backend/src/routes/taxes.ts:57-70 | each bracket's upper bound still takes that bracket's rate; a cent more takes the next one |
| Taxes.DasRateMonotone | backend/src/routes/taxes.ts:57-70 | the rate lies in [0.06, 0.33] and never falls as revenue grows |
| Taxes.DasTaxMonotone | backend/src/routes/taxes.ts:57-70 | for non-negative revenue, the tax (rate on the whole revenue) never falls as revenue grows |
| Taxes.MeiTax | backend/src/routes/taxes.ts:133 | the MEI tax is the smaller of 6% of revenue and 720 |
| Taxes.MeiTaxRegimes | backend/src/routes/taxes.ts:133 | up to 12000 of revenue the tax is 6%; from there on it is 720 |
| Taxes.DasDueDate | backend/src/routes/taxes.ts:90 | the DAS due date is day 20 of a valid month, counted as one month after the period's month |
| Taxes.MeiDueDate | backend/src/routes/taxes.ts:153 | the MEI due date is 30 June of the year after the period, as `new Date` reads that year |
| Taxes.DasDueDateNextMonth | backend/src/routes/taxes.ts:90 | the DAS is due on day 20 of the month after the period; December's is due in January of the next year |
| Taxes.MeiDueDateNextJune | backend/src/routes/taxes.ts:153 | the MEI is due on 30 June of the following year |
| Taxes.FindFirst | backend/src/routes/taxes.ts:73-75 | `findFirst` gives the first record with that type and period, or none when no record has them |
| Taxes.Upserted | backend/src/routes/taxes.ts:73-93 | an existing key keeps the table's length, a missing one appends one record after the unchanged table, and a find by the key afterwards gives the new revenue and tax |
| Taxes.UpsertUpdatesInPlace | backend/src/routes/taxes.ts:77-82 | with an existing record only its revenue and tax change; its id, type, period, status and due date and every other record stay as they were |
| Taxes.UpsertAppends | backend/src/routes/taxes.ts:84-93 | with no record, exactly one pending record is appended with the given values |
| Taxes.UpsertCount | backend/src/routes/taxes.ts:73-93 | after an upsert at least one record has the key, no more than before if there was one, and every other key's count is unchanged |
| Taxes.UpsertIdempotent | backend/src/routes/taxes.ts:136-156 | repeating an identical upsert changes nothing |
| Taxes.TaxTable.Upsert | backend/src/routes/taxes.ts:73-93 | the new table is the upserted one, and the record returned is the updated or created one and the only record with its id; ids stay distinct and below the next id |
| Taxes.TaxTable.CalculateDas | backend/src/routes/taxes.ts:24-98 | the returned DAS record is the one stored for the period, and no other stored record has its id; it carries the window revenue and its bracket tax; an existing record keeps its id, status and due date, and a newly created one takes the next id, is pending and is due on day 20 of the next month |
| Taxes.TaxTable.CalculateMei | backend/src/routes/taxes.ts:100-161 | the returned MEI record is the one stored for the year, and no other stored record has its id; it carries the year's revenue and the capped tax; an existing record keeps its id, status and due date, and a newly created one takes the next id, is pending and is due on 30 June of the next year |
| Taxes.TaxTable.Reminders | backend/src/routes/taxes.ts:165-176 | the reminders are the pending records due between today and seven days later, both included, in table order |
| Reports.RevenueExpense | backend/src/routes/reports.ts:14-89 | revenue is income plus invoice totals in the inclusive range; expenses are the expense sum; net profit is their difference; the per-category groups add up to those totals; each grouping has one group per category present among its in-range rows, holding that category's sum |
| Reports.RevenueExpenseEmpty | backend/src/routes/reports.ts:36-47 | a range without rows gives a zero summary and no groups |
| Reports.CategoryIds | backend/src/routes/reports.ts:70 | no null, no duplicates, and exactly the non-null category keys of the two groupings |
| Reports.CategoryIdsOfReport | backend/src/routes/reports.ts:50-70 | an id is listed iff some in-range income or expense transaction has that category |
| Reports.CashFlowRows | backend/src/routes/reports.ts:98-104 | the cash-flow rows are the in-range transactions sorted by date |
| Reports.CashFlow | backend/src/routes/reports.ts:107-122 | one entry per row, in order; entry i's balance is the signed sum of rows 0..i, starting from 0 |
| Reports.BalanceStep | backend/src/routes/reports.ts:109-113 | each balance is the previous one plus an income's amount, or minus any other type's amount |
| Reports.BalanceSplit | backend/src/routes/reports.ts:107-122 | the final balance is total income minus the total of all other types |
| Reports.CashFlowExample | backend/src/routes/reports.ts:107-122 | +100, -30, +10 give balances 100, 70, 80 |
| Reports.DaysAhead | backend/src/routes/reports.ts:217-218 | an absent `days` means 30 days; a given one is used as it is |
| Reports.ProjectionRows | backend/src/routes/reports.ts:217-233 | the selected rows are dated in [today, today + days·86400000] (days defaults to 30) and projected or pending, sorted by date, and a permutation of exactly the selected rows (no row repeated or dropped) |
| Reports.Projection | backend/src/routes/reports.ts:236-252 | its own balance from 0, as in the cash flow, and each row's `isProjected` copied through |
| Reports.Expenses | backend/src/routes/reports.ts:192-202 | the `reduce` over the category sums equals the sum of all in-range expenses; the categories are distinct and there is one per category with expenses; each group holds its category's sum and count |
| Reports.SalesByCustomer | backend/src/routes/reports.ts:141-150 | one group per customer with invoices, holding the summed totals and the invoice count |
| Reports.SalesByProduct | backend/src/routes/reports.ts:151-160 | one row per product, summing the raw unit price and the quantity of its items |
| Reports.MonthKey | backend/src/routes/reports.ts:165-170 | for a month from 1 to 12 the `strftime('%Y-%m')` key is at least seven characters and ends in a hyphen and the month's two digits |
| Reports.MonthKeySeparatesMonths | backend/src/routes/reports.ts:165-170 | two different months of a year get different keys, so the monthly grouping never merges them |
| Reports.MonthKeyReadsBack | backend/src/routes/reports.ts:165-170 | for a year from 0 to 9999 the key is seven characters: four that read back as the year, a hyphen, two that read back as the month |
| Reports.MonthKeyInjective | backend/src/routes/reports.ts:165-170 | within years 0 to 9999 two days have equal keys iff they fall in the same year and month, so a monthly group holds exactly one calendar month |
| Reports.MonthKeyJanuary2024 | backend/src/routes/reports.ts:165 | any day of January 2024 has the key "2024-01" |
| Reports.GroupByPair | backend/src/routes/reports.ts:170 | two rows with one key make one group with the summed total and count 2 |
| Reports.SortByKey | backend/src/routes/reports.ts:171 | `ORDER BY period`: strictly ascending keys, a permutation of the groups, the same total |
| Reports.StrLessTransitive | backend/src/routes/reports.ts:171 | the text order used by `ORDER BY` is transitive |
| Reports.StrLessTotal | backend/src/routes/reports.ts:171 | any two distinct texts are ordered one way or the other |
| Reports.MonthlySales | backend/src/routes/reports.ts:163-172 | one row per distinct "YYYY-MM" key in ascending order, each with its month's total and count; the row totals add up to the total of all in-range invoices |
| Reports.Sales | backend/src/routes/reports.ts:141-174 | 'customer' and 'product' select their groupings; any other value, or none, gives the monthly one |
| Reports.MonthlySalesExample | backend/src/routes/reports.ts:163-172 | two January 2024 invoices of 100 and 50 make the single row ("2024-01", 150, 2) |
| Invoices.MapItems | backend/src/routes/invoices.ts:30-39 | the total is the sum of quantity × price, and the item list keeps length, order and every field |
| Invoices.CreateInvoice | backend/src/routes/invoices.ts:29-56 | the created invoice holds that total, tax at the type's rate, the items, the number, the creation time and the due date |
| Invoices.TaxRate | backend/src/routes/invoices.ts:40 | 10% exactly for 'NF-e', 5% for every other type |
| Invoices.NfeTaxDouble | backend/src/routes/invoices.ts:40-41 | an 'NF-e' invoice carries twice the tax of any other type on the same total |
| Invoices.EmptyInvoice | backend/src/routes/invoices.ts:30-41 | no items give total 0 and tax 0 |
| Invoices.ItemsTotal | backend/src/routes/invoices.ts:30-34 | items with non-negative quantities and prices give a non-negative total |
| Invoices.InvoiceNumber | backend/src/routes/invoices.ts:44 | the number is `INV-` followed by text that reads back as the creation instant |
| Invoices.ItemsTotalAppend | backend/src/routes/invoices.ts:30-34 | the total is additive over the item list |
| Invoices.DueDate | backend/src/routes/invoices.ts:46 | an absent or empty due date is null; otherwise it is the parsed date |
| Invoices.InvoiceNumberInjective | backend/src/routes/invoices.ts:44 | invoices created at different instants get different numbers |
| Invoices.Overdue | backend/src/routes/invoices.ts:66-72 | the overdue list is exactly the pending invoices with a due date strictly before now, in storage order, each as often as it occurs in the table |
| Invoices.OverdueGrows | backend/src/routes/invoices.ts:66-72 | an invoice overdue now is overdue at every later instant |
| Invoices.NewInvoiceNotOverdue | backend/src/routes/invoices.ts:69-71 | an invoice without a due date, or due now or later, is not overdue |
| Dashboard.Summary | backend/src/routes/dashboard.ts:15-36 | all-time income and expense sums, their difference, the sum of account balances and the all-time invoice total, each 0 when absent |
| Dashboard.EmptySummary | backend/src/routes/dashboard.ts:25-35 | an empty store gives zeros everywhere, including the balance |
| Dashboard.AddTransaction | backend/src/routes/dashboard.ts:26-33 | a new transaction leaves balance and sales unchanged; an income raises net profit by its amount, an expense lowers it, any other type leaves it |
| Dashboard.BalanceIgnoresTransactions | backend/src/routes/dashboard.ts:25-26 | the balance does not depend on the transactions |
| Access.Split | backend/src/middleware/authenticateToken.ts:9 | `split(' ')` gives at least one piece and no piece holds a space |
| Access.JoinSplit | backend/src/middleware/authenticateToken.ts:9 | joining the pieces with spaces gives back the header |
| Access.SplitJoin | backend/src/middleware/authenticateToken.ts:9 | splitting joined space-free pieces gives back the pieces |
| Access.ExtractToken | backend/src/middleware/authenticateToken.ts:8-9 | a token, when there is one, is the non-empty second piece of the header |
| Access.ExtractTokenShape | backend/src/middleware/authenticateToken.ts:8-13 | for any header `scheme SP token rest` the token is the text between the first two spaces, and an empty one counts as missing; the scheme is not looked at |
| Access.NoSpaceNoToken | backend/src/middleware/authenticateToken.ts:9-13 | a header without a space carries no token |
| Access.EmptySecondPiece | backend/src/middleware/authenticateToken.ts:11-13 | "Bearer " and a double space carry no token |
| Access.BearerToken | backend/src/middleware/authenticateToken.ts:8-9 | the `Bearer` form of section 2.1 of RFC 6750 yields its token |
| Access.AuthenticateToken | backend/src/middleware/authenticateToken.ts:7-22 | no token gives 401, a token that fails verification gives 403, otherwise the decoded user is passed on exactly once |
| Access.BearerAuthenticates | backend/src/middleware/authenticateToken.ts:15-21 | a Bearer header with a token that verifies reaches the handler with its payload |
| Access.Rank | backend/src/middleware/authenticateToken.ts:28 | user 1, manager 2, admin 3, and no rank for anything else |
| Access.CheckPermission | backend/src/middleware/authenticateToken.ts:25-35 | the check denies, with 'Insufficient permissions', exactly when both roles are ranked and the user's rank is lower |
| Access.CheckPermissionRanks | backend/src/middleware/authenticateToken.ts:30-34 | for known roles the check denies exactly when the user's rank is lower than the required one |
| Access.RoleOrder | backend/src/middleware/authenticateToken.ts:28-33 | user < manager < admin, and an equal role passes |
| Access.CheckPermissionMonotone | backend/src/middleware/authenticateToken.ts:30 | passing for a role means passing for every known role of lower or equal rank |
| Access.UnknownRolePasses | backend/src/middleware/authenticateToken.ts:30 | a role missing from the table is never denied |
| Auth.AdminGuard | backend/src/routes/auth.ts:64-92 | the repeated middleware on the /users routes lets a request through iff its token verifies and its role is 'admin' or has no rank |
| Auth.DefaultRole | backend/src/routes/auth.ts:23 | an absent or empty role becomes 'user'; any other role is kept |
| Auth.UserStore.Register | backend/src/routes/auth.ts:14-30 | a new email appends one user with the next id and the defaulted role and answers without the password; a taken email fails and changes nothing |
| Auth.FindByEmail | backend/src/routes/auth.ts:35-37 | the lookup finds a stored user with that email, and finds none exactly when no user has it |
| Auth.Login | backend/src/routes/auth.ts:32-61 | login succeeds iff the email exists and the password matches its hash; the token signs exactly userId and role; the answer has no password |
| Auth.LoginFailuresAlike | backend/src/routes/auth.ts:39-46 | an unknown email and a wrong password give the same 'Invalid credentials' answer |
| Auth.RegisterThenLogin | backend/src/routes/auth.ts:14-61 | registering and then logging in with the same password succeeds with the new id and the defaulted role |
| Auth.FindByEmailUnique | backend/src/routes/auth.ts:35-37 | with unique emails, the lookup finds the one user with that email |
| Auth.ListUsers | backend/src/routes/auth.ts:96-105 | the listing has every user, in order, with id, name, email, role and creation time and no password |
| Auth.UserStore.UpdateRole | backend/src/routes/auth.ts:107-120 | only the role of the user with that id changes (not at all when the role is absent); a missing id fails and changes nothing |
| Auth.LoginAfterRoleUpdate | backend/src/routes/auth.ts:107-120 | after a role update, login signs the new role for that user, and every other user's login is as it was |
| Help.Includes | src/components/Help.tsx:51-52 | `includes` holds iff the search text occurs at some position |
| Help.FilterFaqs | src/components/Help.tsx:50-55 | the shown FAQs keep their order and are exactly those whose question or answer contains the search text, ignoring case, in the selected category or 'all', each as often as it occurs in the list |
| Help.ShowAll | src/components/Help.tsx:50-55 | no search text with 'all' selected shows every FAQ |
| Help.SearchIgnoresCase | src/components/Help.tsx:51-52 | typing the search text in upper or lower case shows the same FAQs |
| Help.Lower | src/components/Help.tsx:51-52 | `toLowerCase` keeps the length and lower-cases each character on its own |
| Help.LowerIgnoresCase | src/components/Help.tsx:51-52 | lower-casing ignores the case a text was written in |
| Help.CategoryNarrows | src/components/Help.tsx:53 | a category shows a subset of what 'all' shows |
| Help.Categories | src/components/Help.tsx:57 | 'all' first, then every FAQ category once, in order of first appearance |
| Help.CategoryAllTwice | src/components/Help.tsx:57 | 'all' is prepended without de-duplication |
| InvoiceForm.FindProduct | src/components/Invoices.tsx:67 | the first product with the id, or none when no product has it |
| InvoiceForm.AddedItem | src/components/Invoices.tsx:66-75 | with a matching product one item at its price is appended, the other fields are kept and the picker is reset to (0, 1); without one nothing changes |
| InvoiceForm.AddedItemKeepsItems | src/components/Invoices.tsx:69-72 | adding never touches the items already there and adds at most one |
| InvoiceForm.AddTwo | src/components/Invoices.tsx:66-75 | two adds append two items, in order, each at its product's price |
| InvoiceForm.InvoiceEditor.constructor | src/components/Invoices.tsx:37-43 | the form starts with customer 0, type 'NF-e', no due date and no items; the picker starts at (0, 1) |
| InvoiceForm.InvoiceEditor.AddItem | src/components/Invoices.tsx:66-75 | the state after `addItem` is the added-item state |
| InvoiceForm.InvoiceEditor.Submit | src/components/Invoices.tsx:77-87 | the form is posted as it stands; an accepted post resets it to its initial value, a rejected one leaves it as typed |

## Left out

- Express routing, CORS and JSON handling, status-code plumbing, the 500 paths for store failures, and route mounting.
- The database engine. Queries are functions over row sequences. `groupBy` is modelled to return groups in order of first appearance; the store itself promises no order. `orderBy` ties are broken by storage order (a stable sort); the store itself promises no tie order.
- Reports.RevenueExpense: the two per-category groupings also carry a row count, which the route does not select.
- Time zones and daylight saving: the instant of a civil date and the civil day of an instant are parameters.
- Calendar.JsDate: day overflow and underflow (31 February, day 0) are not modelled and the requires admits only days 1 to 30, because the routes only use days 1, 20 and 30, and 30 only in June.
- Non-numeric request values: `parseInt` of a non-number (NaN days or ids), string years, and dates that do not parse.
- IEEE-754 rounding of money and rates. Money is an exact real.
- bcrypt hashing and comparison, and JWT signing, verification and expiry. These are parameters.
- The read-then-write race between `findFirst` and `create` in the tax upsert. Calls are sequential.
- The unused `categoryMap` and the category-name query in the revenue/expense report.
- `Date.now()` and `new Date()`: the creation instant is a parameter. Ids and `createdAt` are assigned by the store and passed in.
- Help.Lower: only ASCII letters change case. `toLowerCase` also folds other Unicode letters.
- Reports.MonthKey: years outside 0 to 9999, which SQLite's `strftime` does not support, are formatted by padding their decimal text; `MonthKeyReadsBack` and `MonthKeyInjective` cover years 0 to 9999 only.
- The pass-through CRUD routes (accounts, customers, suppliers, products, categories, transactions), rendering-only components and the onboarding progress bar.
- The Prisma schema is not part of this model. Two things are assumed from it: a new tax record and a new invoice start with status 'pending', and user emails are unique.
