# Expense tracker: budget consistency and aggregation, in Dafny

This project models the core of an Express/Mongo expense tracker. That core is
the logic that keeps every category's spending within its budget, plus the
read-only aggregations built on the two collections. The model has three parts:

- **The expense ledger** (`ExpenseService`):
  - creating an expense under the per-category ceiling;
  - updating it with the ceiling re-checked, the expense's own old amount left out;
  - deleting it, scoped to its owner;
  - the category total, the newest-first listing, the lookup by id and the CSV report rows.
- **The category ledger** (`CategoryController`): creating a category, listing a user's
  categories, changing a budget, and deleting a category that no expense uses.
- **The budget aggregator** (`BudgetService`):
  - a user's summary (total budget, total spent, remaining);
  - the per-category breakdown;
  - spending per year or per month, newest first;
  - trend groups per (year, month, category), each with an overspending or within-budget suggestion.

The Mongo collections become a class `Store.Db` with two sequence fields, `categories` and
`expenses`, and a counter `nextId` that stands in for generated ObjectIds. Each handler that
writes is a method with `modifies db`. It runs its guards in the source's order and then
makes one write. Its `ensures` say, as "exactly when" conditions, when each error is
returned and when the write succeeds. They also give the whole new state and the store
invariant `Ledger.Consistent`. That invariant says ids are fresh and unique,
(owner, name) pairs are unique, budgets and amounts are non-negative, and above all
`WithinBudget`: for every category, the sum of its owner's expenses in it is at most its budget.

Each kind of write has a lemma in `Ledger` showing that it preserves that invariant. Every
handler also preserves `Referenced` (every expense's category exists for its owner). The
aggregations are pure functions, and each one is checked against an independent reference
definition:

- the `$group` stage is a fold (`Grouping.GroupSum`), proved against the sum `SumWhere`;
- `$sort` is a descending insertion sort (`Sorting.SortDesc`), proved sorted and a permutation;
- the summary lemmas then give totals, sort order, completeness, one entry per period,
  and non-negative remainders where the store is consistent.

Files: `records.dfy` (documents, errors), `ledger.dfy` (filters, lookups, spend, invariant),
`grouping.dfy` (`$group`, `find`), `sorting.dfy` (`$sort`), `store.dfy` (the store),
`expense_service.dfy`, `category_controller.dfy`, `budget_service.dfy`.

Where the code and the written design disagree, the model follows the code:
- `createCategory` refuses a negative budget before it looks for a duplicate name.
- `updateCategoryBudget` refuses a negative budget before it looks the category up.
- `updateExpense` re-checks the budget only when `data.amount` is truthy, so an amount of 0
  skips the check. This is harmless: the spend can only fall.
- In `getSpendingTrends`, a category that cannot be resolved is reported as "Unknown", but
  its suggestion text names `undefined`. It is flagged as overspending only when its total
  is above 0, not always.
- `updateCategoryBudget` as written does not see the current spend (see Findings). The
  handler in the model is the corrected one.

## Model

| member | source | states |
|---|---|---|
| `Ledger.Matching` | app/expense/expense.service.ts:117 | the `{ userId, categoryId }` filter keeps exactly the expenses with both ids, and no more of them than there are expenses |
| `Ledger.OwnedBy` | app/expense/expense.service.ts:104 | the `{ userId }` filter keeps exactly the user's expenses |
| `Ledger.CategoriesOf` | app/budget/budget.service.ts:19 | the `{ userId }` filter keeps exactly the user's categories |
| `Ledger.CategoryIndex` | app/expense/expense.service.ts:81 | `findOne({ _id, userId })` finds the first category with that id and owner, and finds none exactly when no category has both |
| `Ledger.CategoryById` | app/expense/expense.service.ts:146 | `findById` finds a category with that id, whoever owns it, and finds none exactly when no category has the id |
| `Ledger.ExpenseIndex` | app/expense/expense.service.ts:142 | `findOne({ _id, userId })` finds the first expense with that id and owner, and finds none exactly when no expense has both |
| `Ledger.HasCategoryNamed` | app/category/category.controller.ts:23 | the duplicate lookup is true exactly when the user already has a category with that name |
| `Ledger.ExpenseAddedKeepsConsistent` | app/expense/expense.service.ts:87-92 | appending an expense that passed the budget guard keeps every category within budget, with all ids unique |
| `Ledger.ExpensePatchedKeepsConsistent` | app/expense/expense.service.ts:145-155 | a patch that passed the update guard, or whose amount is 0 or absent, keeps every category within budget |
| `Ledger.ExpenseRemovedKeepsConsistent` | app/expense/expense.service.ts:165 | removing any expense keeps the store consistent |
| `Ledger.CategoryAddedKeepsConsistent` | app/category/category.controller.ts:21-26 | adding a category with a fresh id, a non-negative budget and an unused name keeps (owner, name) pairs unique and the store consistent |
| `Ledger.BudgetChangedKeepsConsistent` | app/category/category.controller.ts:80-86 | a new budget that is non-negative and no lower than the spend keeps the store consistent |
| `Ledger.CategoryRemovedKeepsConsistent` | app/category/category.controller.ts:114-119 | removing a category that none of its owner's expenses use keeps the store consistent and leaves the owner no category with that id |
| `Grouping.GroupSumSpec` | app/budget/budget.service.ts:48-50 | `$group` with `$sum` gives one group per distinct key; a key has a group exactly when some expense has it; its total is the sum of those expenses; the totals add up to all the amounts |
| `Grouping.GroupSumWhole` | app/budget/budget.service.ts:23-26 | with `_id: null` there is no group for no expenses, and otherwise a single group holding the whole sum |
| `Grouping.WholeTotal` | app/budget/budget.service.ts:28 | the first group's total, or 0, after an `_id: null` group is the sum of all the amounts, 0 for none |
| `Grouping.Lookup` | app/budget/budget.service.ts:53 | `find` on the groups finds nothing exactly when no group has the key |
| `Grouping.SumTotalsPermutation` | app/budget/budget.service.ts:81 | reordering the groups does not change the sum of their totals |
| `Grouping.DistinctKeysPermutation` | app/budget/budget.service.ts:81 | reordering the groups keeps their keys distinct |
| `Sorting.SortDesc` | app/expense/expense.service.ts:106 | the descending sort is sorted on (major, minor) descending and is a permutation of its input |
| `ExpenseService.TotalExpensesByCategory` | app/expense/expense.service.ts:115-122 | the category total is the user's spend in the category, and 0 when no expense matches |
| `ExpenseService.Populate` | app/expense/expense.service.ts:105 | populating keeps the expense and resolves its category by id (id, name, budget), or gives null exactly when no category has that id |
| `ExpenseService.GetAllExpenses` | app/expense/expense.service.ts:103-107 | the listing is ordered by date, newest first, and is a permutation of the user's populated expenses |
| `ExpenseService.GetAllExpensesMembers` | app/expense/expense.service.ts:103-107 | an expense is listed exactly when it belongs to the user, and each entry carries its own category |
| `ExpenseService.GetExpenseById` | app/expense/expense.service.ts:130-132 | the lookup gives null exactly when the user has no expense with that id, and otherwise that expense, populated |
| `ExpenseService.CreatedIsRetrievable` | app/expense/expense.service.ts:92 | an expense appended with a fresh id is what the lookup by that id and owner returns |
| `ExpenseService.PatchedIsRetrievable` | app/expense/expense.service.ts:155 | after a patch, the lookup by the expense's id and owner returns the patched expense |
| `ExpenseService.CsvRows` | app/expense/expense.service.ts:21-26 | one row per expense, in order, with the category's name and budget and the expense's amount and date; the mapping fails exactly when some category is null |
| `ExpenseService.ExpenseReportCsv` | app/expense/expense.service.ts:17-27 | the CSV report has one row per expense of the user and fails exactly when one of them has lost its category |
| `ExpenseService.ReportSucceedsWhenReferenced` | app/expense/expense.service.ts:17-27 | when every expense's category is in place, the CSV report does not fail |
| `ExpenseService.CreateExpense` | app/expense/expense.service.ts:70-97 | fails with "Invalid category" exactly when the user has no such category; fails with "exceeds budget" exactly when spend + amount > budget; succeeds exactly when the category is the user's and spend + amount <= budget (reaching the budget is allowed); on success appends exactly that one expense, which the lookup by its id returns, and changes nothing else; keeps every category within budget |
| `ExpenseService.UpdateExpense` | app/expense/expense.service.ts:141-156 | "Expense not found" exactly when the user has no such expense; with a truthy amount, "Invalid category" exactly when the category is gone, and "exceeds budget" exactly when spend - old + new > budget; succeeds exactly when the expense exists and the check passes or is skipped; on success patches that expense in place and nothing else; keeps every category within budget |
| `ExpenseService.DeleteExpense` | app/expense/expense.service.ts:164-166 | removes and returns the user's expense with that id, or returns null and changes nothing; afterwards the lookup by that id finds nothing; nothing else changes |
| `CategoryController.CreateCategory` | app/category/category.controller.ts:16-31 | refuses a negative budget first, then a name the user already has; otherwise adds exactly one category; the store stays consistent |
| `CategoryController.GetUserCategories` | app/category/category.controller.ts:43-50 | returns exactly the caller's categories |
| `CategoryController.UpdateCategoryBudget` | app/category/category.controller.ts:64-92 | refuses a negative budget, then a missing category, then a budget below the current spend, each exactly in its case; succeeds exactly when the budget is non-negative, the category is the user's and its spend is at most the budget (equal is accepted); on success changes only that category's budget; every category stays within budget |
| `CategoryController.DeleteCategory` | app/category/category.controller.ts:105-125 | "Category not found" exactly when the user has no such category; "in use" exactly when any of the user's expenses reference it; succeeds exactly when the category is the user's and none of the user's expenses reference it, and then removes exactly that category |
| `CategoryController.CastMatchIsSpend` | app/category/category.controller.ts:75-80 | with the ids cast to ObjectId, the aggregate reads the category's real spend |
| `CategoryController.UncastMatchIsZero` | app/category/category.controller.ts:75-80 | with the ids left as strings, the aggregate matches nothing and reads 0 |
| `CategoryController.UpdateCategoryBudgetAsWritten` | app/category/category.controller.ts:69-86 | as written, the update is accepted exactly when the budget is non-negative and the category exists: the spend guard never fires |
| `CategoryController.AsWrittenBudgetUpdateBreaksCeiling` | app/category/category.controller.ts:75-86 | a consistent store in which the update as written leaves a category over its budget |
| `BudgetService.ReduceBudgetsIsSum` | app/budget/budget.service.ts:20 | the left-fold `reduce` over budgets equals their sum |
| `BudgetService.GetBudgetSummary` | app/budget/budget.service.ts:18-36 | the total budget is the sum of the user's budgets; the total spent is the sum of all the user's expenses, whatever their category; remaining is the difference |
| `BudgetService.RemainingNonNegative` | app/budget/budget.service.ts:30-34 | in a consistent store where every expense's category is in place, a user's remaining budget is not negative |
| `BudgetService.OwnedSpendSplits` | app/budget/budget.service.ts:19-28 | when each of the user's expenses has its category among the user's categories, the user's total spent is the sum of the per-category spends |
| `BudgetService.GetCategoryWiseSummary` | app/budget/budget.service.ts:43-62 | one entry per category, in store order, with its id, name and budget; the total is the sum of every expense under that category id (0 for none); remaining is the budget less that total |
| `BudgetService.CategoryRemainingNonNegative` | app/budget/budget.service.ts:52-61 | in a consistent store where every expense's category is in place, no category's remainder is negative |
| `BudgetService.GetSpendingSummary` | app/budget/budget.service.ts:70-89 | one entry per group; the month is present exactly for a monthly summary |
| `BudgetService.SpendingSummarySorted` | app/budget/budget.service.ts:81-88 | entries are ordered by year descending, then month descending |
| `BudgetService.SpendingSummaryEntries` | app/budget/budget.service.ts:71-79 | each entry's total is what was spent in its year (and month), and some expense falls in that period |
| `BudgetService.SpendingSummaryComplete` | app/budget/budget.service.ts:74-80 | every expense's year (and month) has an entry |
| `BudgetService.SpendingSummaryDistinct` | app/budget/budget.service.ts:74-80 | no two entries share a year (and month) |
| `BudgetService.SpendingSummaryTotal` | app/budget/budget.service.ts:74-80 | the entries' totals add up to the sum of all the amounts |
| `BudgetService.Suggestion` | app/budget/budget.service.ts:116-118 | the suggestion is the overspending text exactly when the total exceeds the budget (0 for a missing category), and the within-budget text exactly otherwise |
| `BudgetService.TrendEntryOf` | app/budget/budget.service.ts:110-118 | a group whose category is not found is named "Unknown" and is flagged as overspending exactly when its total is above 0 |
| `BudgetService.GetSpendingTrends` | app/budget/budget.service.ts:96-121 | one entry per (year, month, category) group, ordered by year descending, then month descending |
| `BudgetService.SpendingTrendsEntries` | app/budget/budget.service.ts:97-119 | each trend entry equals the reference line `TrendEntryFor` of some stored expense: the year and month of that expense, the sum of the amounts spent on its category in that month, the category's name (or "Unknown"), and the suggestion comparing that sum with the budget |
| `BudgetService.SpendingTrendsComplete` | app/budget/budget.service.ts:97-119 | every expense's (year, month, category id) has an entry: at some position the group is the one with that expense's key, and the entry there is the expense's reference line `TrendEntryFor` |
| `BudgetService.SpendingTrendsDistinct` | app/budget/budget.service.ts:97-105 | no two trend entries come from the same (year, month, category id) group |
| `BudgetService.SpendingTrendsTotal` | app/budget/budget.service.ts:97-105 | the trend totals add up to the sum of all the amounts |

## Left out

- PDF generation and the file system work of `generateExpenseReport`
  (app/expense/expense.service.ts:30-59): this is I/O through foreign libraries.
- CSV text encoding: `CsvRows` gives the rows `json2csv` would encode, and the encoder itself
  is not modelled. The date column keeps the `Date` value; `toISOString` is not modelled.
- The socket.io `expenseUpdated` broadcasts: these are fire-and-forget network I/O.
- Concurrency: the read-then-write race between the budget check and the write is not
  modelled. Each handler runs as one atomic step on the store.
- Authentication, users, routing and HTTP status codes:
  - the caller's user id is a parameter;
  - each early return is an `Error` value;
  - the generic 500 paths for storage failures and thrown exceptions are not modelled.
- ObjectId casting: ids are natural numbers, except in the finding's as-written members.
  Malformed ids, which make the cast throw, are not modelled.
- Date handling: a `Date` carries its timestamp together with the year and month that Mongo
  extracts from it. The extraction, including time zones, is not modelled.
- Floating-point amounts: amounts and budgets are integers, for example cents.
- The unused `BudgetModel` (app/budget/budget.schema.ts).
- Amount validation: the validation schema accepts only positive amounts. `CreateExpense` and
  `UpdateExpense` require non-negative ones, which is all the store invariant needs. A
  negative expense, once deleted, would raise its category's spend.
- `ExpenseService.UpdateExpense`: the patch carries only an amount, a description and a date
  (the handler's declared parameter type). The source passes the whole request body to
  `findOneAndUpdate`. A body that also carried `categoryId` or `userId` would be written
  without any budget check, and the model does not cover that case.
- `ExpenseService.GetAllExpenses`: Mongo promises no order among expenses with the same date.
  The contract states only the date order and that the listing is a permutation of the
  user's expenses, and the sort in the model picks one of the allowed orders. The
  same applies to groups that tie in the summary and trend sorts.
- `Referenced` (every expense's category exists for its owner) is not part of the store
  invariant. Every handler preserves it, and the lemmas that need it ask for it.

## Findings

| source | as written | input that shows it | evidently intended | confidence | as-written member | corrected member |
|---|---|---|---|---|---|---|
| app/category/category.controller.ts:75-80 | the spend aggregate matches `{ userId, categoryId }` with the token's user id and the request body's category id as plain strings; aggregation pipelines are not cast to the schema, so no stored ObjectId matches and the current spend reads 0 | a category with budget 100 holding one expense of 80; a new budget of 50 is accepted, leaving spend 80 over budget 50 | cast both ids to ObjectId, as `getTotalExpensesByCategory` does, so that the guard compares the real spend | high; not executed | `CategoryController.UpdateCategoryBudgetAsWritten`, `CategoryController.AsWrittenBudgetUpdateBreaksCeiling` | `CategoryController.UpdateCategoryBudget` |
