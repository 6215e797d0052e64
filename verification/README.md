# econova-tracker ledger, modelled in Dafny

This project models the logic of the econova-tracker personal-finance dashboard. It covers four parts:

- the finance provider's ledger: expenses, category budgets and savings goals, and the six operations that change them;
- the arithmetic helpers of `financeUtils`;
- the bundled seed data;
- the rules by which the budget, category chart, goals and expense-history cards derive what they show.

Every provider operation is a pure transition `State -> Outcome`. An `Outcome` is the next state together with the toasts the operation raises, in order. The ids the source draws from `Date.now()` are parameters. Amounts are unbounded integers: the seed amounts are whole UZS. `Math.round(100·a/b)` is modelled exactly, as the integer `r` with `r - 1/2 <= 100·a/b < r + 1/2`.

Modules, one file each:

| module | file | what it holds |
|---|---|---|
| `Types` | types.dfy | `Expense`, `Budget`, `Goal`, `Category`, `Option`, `Distinct` |
| `FinanceUtils` | finance_utils.dfy | sums, per-category totals, percentages, exceeded test, remaining budget, colour class, date filter |
| `JsArray` | js_array.dfy | `[...xs].sort(cmp)` as a stable insertion sort, and `xs.slice(0, k)` |
| `SeedData` | seed_data.dfy | the seed categories, expenses, budgets, goals and chart breakdown, with facts about them |
| `FinanceContext` | finance_context.dfy | the ledger state and the six operations |
| `BudgetDrift` | budget_drift.dfy | what the incremental `spent` bookkeeping keeps and where it breaks |
| `BudgetOverview` | budget_overview.dfy | budget sort, top five, badges, bar colour, edit/save dialog |
| `CategoryBreakdown` | category_breakdown.dfy | per-category chart slices, shares, palette, top four |
| `FinancialGoals` | financial_goals.dfy | goal sort, compact mode, "Completed", contribution dialog |
| `ExpenseHistory` | expense_history.dfy | newest-first list, limit, category colour, details dialog, delete |

## Behaviour worth knowing

Each point below is what the code does, with the member that states it.

- `updateBudget` never inserts: it maps over the existing budgets, so an unknown category changes nothing (`FinanceContext.UpdateBudgetNeverInserts`).
- "Goal Achieved!" is raised on every contribution that leaves `current + amount >= target`, including one to a goal that is already full (`FinanceContext.GoalAchievedRefires`).
- `deleteExpense` removes every expense with the id but lowers the budget once, by the first match's amount (`BudgetDrift.SharedIdMovesDrift`).
- A budget's `spent` is kept incrementally, not recomputed from the expenses. The seed data starts Housing at 1500000 against 150000 of expenses (`BudgetDrift.SeedDrift`). Adding an expense keeps each category's difference; deleting keeps it only under conditions (`BudgetDrift.AddExpensePreservesDrift`, `BudgetDrift.DeleteExpensePreservesDrift`).
- `updateGoal` accepts any amount, zero and negative included; only the goals card's guard `contributionAmount > 0` holds non-positive contributions back (`FinancialGoals.HandleContribute`).
- The provider starts from the seed data and keeps everything in memory.

## Model

| member | source | states |
|---|---|---|
| FinanceUtils.TotalExpenses | src/utils/financeUtils.ts:12-14 | 0 for no expenses, the amount for one, never negative when no amount is; with `TotalExpensesAppend` this fixes the sum |
| FinanceUtils.TotalBudget | src/utils/financeUtils.ts:37-39 | 0 for no budgets, the limit for one, never negative when no limit is; with `TotalBudgetAppend` this fixes the sum |
| FinanceUtils.TotalSpent | src/utils/financeUtils.ts:42-44 | 0 for no budgets, the spent for one, never negative when no spent is; with `TotalSpentAppend` this fixes the sum |
| FinanceUtils.TotalExpensesAppend | src/utils/financeUtils.ts:12-14 | the expense total of a concatenation is the sum of the two totals |
| FinanceUtils.TotalBudgetAppend | src/utils/financeUtils.ts:37-39 | the total budget limit is additive over concatenation |
| FinanceUtils.TotalSpentAppend | src/utils/financeUtils.ts:42-44 | the total spent is additive over concatenation |
| FinanceUtils.CategoryTotalAppend | src/components/CategoryBreakdown.tsx:50-51 | a category's total (filter by category, then sum) is additive over concatenation |
| FinanceUtils.ByCategoryFrom | src/utils/financeUtils.ts:18-22 | the reduce ends with a key for every starting key and every category that occurs, and no other; each holds its starting value (0 for a new key) plus that category's total |
| FinanceUtils.ExpensesByCategory | src/utils/financeUtils.ts:17-23 | a key exists exactly for the categories some expense has, and maps to the total of that category's expenses |
| FinanceUtils.ExpensesByCategorySumsToTotal | src/utils/financeUtils.ts:12-23 | the values of the per-category map add up to the total of all expenses |
| FinanceUtils.RoundedPercent | src/utils/financeUtils.ts:28 | `Math.round((part / whole) * 100)`: the integer within one half of 100·part/whole, with halves rounded up |
| FinanceUtils.BudgetPercentage | src/utils/financeUtils.ts:26-29 | 0 for a zero limit; never above 100; exactly 100 once spent reaches a positive limit; below 100 it is the rounded percentage; 100 means at least 99.5% spent |
| FinanceUtils.BudgetPercentageMonotone | src/utils/financeUtils.ts:28 | for a fixed positive limit, more spending never gives a smaller percentage |
| FinanceUtils.IsBudgetExceeded | src/utils/financeUtils.ts:32-34 | not exceeded exactly when the remaining budget is the plain difference limit − spent; an exceeded budget has nothing remaining and, with a positive limit, reads 100% |
| FinanceUtils.GoalProgress | src/utils/financeUtils.ts:47-50 | 0 for a zero target; never above 100; with a positive target, 100 exactly when at least 99.5% of it is saved, and below 100 it is `Math.round(100·current/target)` |
| FinanceUtils.RemainingBudget | src/utils/financeUtils.ts:135-137 | never negative; equals limit − spent exactly when spent <= limit; 0 once spent reaches the limit |
| FinanceUtils.BudgetColorClass | src/utils/financeUtils.ts:140-144 | success exactly below 70, warning exactly from 70 to below 90, alert exactly from 90; so each percentage has one band |
| FinanceUtils.FilterByDateRange | src/utils/financeUtils.ts:63-72 | keeps exactly the expenses dated within the range, both ends included; a list wholly within the range comes back unchanged |
| FinanceUtils.FilterByDateRangeOne | src/utils/financeUtils.ts:68-71 | one expense is kept exactly when its date lies within the range |
| FinanceUtils.FilterByDateRangeAppend | src/utils/financeUtils.ts:68-71 | the filter works piecewise on a concatenation, so the kept expenses keep their order and multiplicity |
| JsArray.Sort | src/components/BudgetOverview.tsx:63 | the sort of a copy is a permutation of the input, ordered whenever the comparator is a total preorder |
| JsArray.Take | src/components/BudgetOverview.tsx:79 | `slice(0, k)` is a prefix: min(k, n) elements for k >= 0, and for negative k all but the last −k |
| SeedData.SeedCategoryNamesListed | src/data/mockData.ts:31-42 | the seed categories are the ten listed names, in order |
| SeedData.SeedCategoryNamesDistinct | src/data/mockData.ts:31-42 | there are exactly ten category names and no two are equal |
| SeedData.SeedBudgetsFollowCategories | src/data/mockData.ts:59-70 | one budget per seed category, in category order |
| SeedData.SeedIdsDistinct | src/data/mockData.ts:45-95 | seed expense ids are pairwise distinct, and so are seed goal ids |
| SeedData.SeedExpenseCategoriesKnown | src/data/mockData.ts:45-56 | every seed expense is filed under one of the seed categories |
| SeedData.SeedGoalsWithinTarget | src/data/mockData.ts:73-95 | every seed goal has 0 <= current <= target |
| SeedData.SeedSpentMatchesExpensesExceptHousing | src/data/mockData.ts:59-70 | each seed budget's spent is its category's expense total, except Housing: 1500000 against 150000 |
| SeedData.SeedBreakdownValues | src/data/mockData.ts:114-122 | each of the ten bundled chart entries has its category's name and colour token and the total of that category's seed expenses |
| FinanceContext.BudgetIndex | src/context/FinanceContext.tsx:35 | `budgets.find` by category: the position of the first match, or the length when none matches |
| FinanceContext.ExpenseIndex | src/context/FinanceContext.tsx:109 | `expenses.find` by id: the position of the first match, or the length when none matches |
| FinanceContext.GoalIndex | src/context/FinanceContext.tsx:129 | `goals.find` by id: the position of the first match, or the length when none matches |
| FinanceContext.SetBudgets | src/context/FinanceContext.tsx:59-65 | every budget of the category gets the new limit, and the new spent only when one is given; the others are untouched; length and order are kept |
| FinanceContext.UpdateBudget | src/context/FinanceContext.tsx:58-66 | as `SetBudgets`, with expenses and goals unchanged and no toast |
| FinanceContext.UpdateBudgetIdempotent | src/context/FinanceContext.tsx:58-66 | applying the same update twice equals applying it once |
| FinanceContext.UpdateBudgetNeverInserts | src/context/FinanceContext.tsx:59-65 | an update for a category without a budget changes nothing |
| FinanceContext.AddExpense | src/context/FinanceContext.tsx:26-55 | the new expense goes in front and the rest keep their order; the first budget of its category has spent raised by the amount with the limit kept, and every budget of that category gets this value; other budgets are untouched; "Budget Alert" iff the new spent exceeds the limit, "Budget Warning" iff not that and 10·spent > 9·limit, no toast otherwise or when no budget matches |
| FinanceContext.RemoveExpenses | src/context/FinanceContext.tsx:111 | exactly the expenses without the id remain; an absent id leaves the list as it is |
| FinanceContext.RemoveExpensesAppend | src/context/FinanceContext.tsx:111 | the filter keeps the survivors in their original order |
| FinanceContext.DeleteExpense | src/context/FinanceContext.tsx:108-125 | an unknown id changes nothing and raises nothing; otherwise every expense with the id is removed, each budget of the first match's category gets max(0, spent − amount) from the first such budget, other budgets and goals are kept, and "Expense Deleted" is raised |
| FinanceContext.AddThenDeleteExpense | src/context/FinanceContext.tsx:108-118 | deleting an expense just added under a fresh id restores the state exactly, when budgets are one per category and spent is non-negative |
| FinanceContext.AddGoal | src/context/FinanceContext.tsx:69-80 | the new goal is appended at the end with "Goal Added"; expenses and budgets are unchanged |
| FinanceContext.ContributeGoals | src/context/FinanceContext.tsx:84-103 | each goal with the id gets min(current + amount, target) with its other fields kept; other goals are untouched |
| FinanceContext.AchievedNotices | src/context/FinanceContext.tsx:86-95 | only "Goal Achieved!" toasts, at most one per goal; none exactly when no matching goal reaches its target |
| FinanceContext.AchievedNoticesOne | src/context/FinanceContext.tsx:86-95 | one goal raises "Goal Achieved!" with its name exactly when it has the id and current + amount reaches its target |
| FinanceContext.AchievedNoticesAppend | src/context/FinanceContext.tsx:85-101 | the toasts follow the goals piecewise, so there is one per such goal, in list order |
| FinanceContext.UpdateGoal | src/context/FinanceContext.tsx:83-105 | the matching goals are clamped at their target with their other fields kept, the others kept; the toasts are those of `AchievedNotices`; an unknown id changes nothing and raises nothing |
| FinanceContext.UpdateGoalNoticeUniqueId | src/context/FinanceContext.tsx:87-95 | with a unique id, exactly one "Goal Achieved!" when current + amount reaches the target, none otherwise |
| FinanceContext.GoalAchievedRefires | src/context/FinanceContext.tsx:87-100 | contributing to a goal already at its target raises "Goal Achieved!" again and leaves the state unchanged |
| FinanceContext.UpdateGoalKeepsWithinTarget | src/context/FinanceContext.tsx:97-100 | goals within their targets stay within them after any contribution |
| FinanceContext.RemoveGoals | src/context/FinanceContext.tsx:131 | exactly the goals without the id remain; an absent id leaves the list as it is |
| FinanceContext.RemoveGoalsAppend | src/context/FinanceContext.tsx:131 | the filter keeps the surviving goals in their order |
| FinanceContext.DeleteGoal | src/context/FinanceContext.tsx:128-137 | an unknown id changes nothing; otherwise all goals with the id go, the list gets shorter, and "Goal Deleted" names the first match |
| FinanceContext.AddThenDeleteGoal | src/context/FinanceContext.tsx:128-137 | deleting a goal just added under a fresh id restores the state and names the added goal |
| BudgetDrift.AddExpensePreservesDrift | src/context/FinanceContext.tsx:32-38 | adding an expense leaves every category's drift (budget spent − expense total) unchanged |
| BudgetDrift.CategoryTotalRemoveOne | src/context/FinanceContext.tsx:111 | removing the single expense with an id lowers its category's total by exactly its amount and no other total |
| BudgetDrift.DeleteExpensePreservesDrift | src/context/FinanceContext.tsx:108-118 | deleting an expense leaves every drift unchanged when its id is unique and its budget's spent covers the amount |
| BudgetDrift.FloorMovesDrift | src/context/FinanceContext.tsx:116 | when the floor at 0 bites, deleting moves the drift (−10 becomes 0) |
| BudgetDrift.SharedIdMovesDrift | src/context/FinanceContext.tsx:109-117 | with two expenses sharing an id, both go but only one amount comes off, so the drift moves from 0 to 10 |
| BudgetDrift.SeedBudgetsUnique | src/data/mockData.ts:59-70 | the seed budgets have one budget per category |
| BudgetDrift.SeedDrift | src/data/mockData.ts:59-70 | the initial state has drift 1350000 in Housing and 0 in every other seed category |
| BudgetOverview.ShowsBeforeConsistent | src/components/BudgetOverview.tsx:63-76 | the card's comparator (exceeded first, then larger percentage) is a total preorder |
| BudgetOverview.SortedBudgets | src/components/BudgetOverview.tsx:63-76 | a permutation of the budgets; every exceeded budget before every other; within the same status, percentages non-increasing |
| BudgetOverview.DisplayBudgets | src/components/BudgetOverview.tsx:79 | detailed shows all sorted budgets, otherwise the first min(5, n) |
| BudgetOverview.ViewAllBudgetsIffHidden | src/components/BudgetOverview.tsx:188 | "View All Budgets" shows exactly when some budget is left off the card |
| BudgetOverview.IsWarning | src/components/BudgetOverview.tsx:97-99 | "Almost exceeded" with a positive limit iff spending is from 89.5% of the limit up to the limit itself; never with a zero limit |
| BudgetOverview.AtLimitIsAlmostExceeded | src/components/BudgetOverview.tsx:97-99 | spending exactly the limit shows "Almost exceeded" and not "Exceeded" |
| BudgetOverview.WarningToastShowsBadge | src/context/FinanceContext.tsx:47-53 | after a "Budget Warning" toast the budget has a positive limit and shows "Almost exceeded" |
| BudgetOverview.BadgeWithoutWarningToast | src/components/BudgetOverview.tsx:99 | the converse fails: 895 of 1000 shows the badge but would not pass the toast's 90% test |
| BudgetOverview.BadgedBudgetsUseAlertColor | src/components/BudgetOverview.tsx:97-100 | with a positive limit, both badges come with the alert bar colour |
| BudgetOverview.ZeroLimitExceededLooksHealthy | src/components/BudgetOverview.tsx:97-100 | every budget with a zero limit and some spending is "Exceeded" yet reads 0% in the success colour |
| BudgetOverview.HandleEditBudget | src/components/BudgetOverview.tsx:46-49 | opening the editor selects the category and pre-fills its current limit; `EditThenSaveKeepsState` shows that saving it untouched gives the state back, under the conditions stated there |
| BudgetOverview.HandleSaveBudget | src/components/BudgetOverview.tsx:51-60 | with a non-empty category being edited and a limit >= 0: that category's limit changes, no spent and no other budget changes, "Budget Updated" is raised and the editor closes, keeping the typed limit; otherwise nothing happens |
| BudgetOverview.EditThenSaveKeepsState | src/components/BudgetOverview.tsx:46-60 | opening the editor from a budget's pencil (line 132) and saving at once leaves the state as it was, with only "Budget Updated", when that budget has a category, a limit >= 0 and no other budget shares its category |
| CategoryBreakdown.ChartColor | src/components/CategoryBreakdown.tsx:58 | `#607D8B` for a name the palette lacks; for a name it has, the colour of its first entry, or `#607D8B` when that colour is empty; never empty |
| CategoryBreakdown.ShareOf | src/components/CategoryBreakdown.tsx:52 | 0 when the total is not positive, otherwise `Math.round(100·value/total)`; between 0 and 100 when 0 <= value <= total |
| CategoryBreakdown.AllSlices | src/components/CategoryBreakdown.tsx:49-59 | one slice per listed category, in list order, with that category's total, share and colour |
| CategoryBreakdown.KeepSpent | src/components/CategoryBreakdown.tsx:60 | keeps exactly the slices with a positive value; a list without repeats gives one without repeats |
| CategoryBreakdown.KeepSpentOne | src/components/CategoryBreakdown.tsx:60 | one slice is kept exactly when its value is positive |
| CategoryBreakdown.KeepSpentAppend | src/components/CategoryBreakdown.tsx:60 | the filter works piecewise on a concatenation, so the kept slices keep their order, which decides how the stable sort orders ties |
| CategoryBreakdown.LargerFirstConsistent | src/components/CategoryBreakdown.tsx:61 | the comparator `b.value - a.value` is a total preorder |
| CategoryBreakdown.ChartOf | src/components/CategoryBreakdown.tsx:47-61 | for distinct names: at most one slice per name; a slice for exactly the names whose total is positive; each slice is that category's own; values non-increasing; names distinct |
| CategoryBreakdown.SpendingByCategory | src/components/CategoryBreakdown.tsx:49-61 | the dashboard chart over the ten seed categories: at most 10 slices, with the properties of `ChartOf` |
| CategoryBreakdown.TopCategories | src/components/CategoryBreakdown.tsx:105 | the first min(4, n) slices of the chart, each at least as large as every slice left out |
| CategoryBreakdown.SlicesAndUnlistedMakeTotal | src/components/CategoryBreakdown.tsx:47-51 | the slices' values plus the expenses under unlisted categories make the whole total, so unlisted expenses widen every share's denominator without a slice of their own |
| CategoryBreakdown.PaletteFollowsSeedCategories | src/components/CategoryBreakdown.tsx:15-26 | the palette lists the ten seed categories in order |
| CategoryBreakdown.SeedChartColors | src/components/CategoryBreakdown.tsx:58 | each seed category is drawn in its own palette colour |
| CategoryBreakdown.UnlistedChartColor | src/components/CategoryBreakdown.tsx:58 | every name that is not a seed category is drawn in `#607D8B` |
| FinancialGoals.LessProgressFirstConsistent | src/components/FinancialGoals.tsx:56-60 | the comparator `aProgress - bProgress` is a total preorder |
| FinancialGoals.SortedGoals | src/components/FinancialGoals.tsx:56-60 | a permutation of the goals in ascending order of progress |
| FinancialGoals.DisplayGoals | src/components/FinancialGoals.tsx:63 | compact mode shows the first min(3, n) sorted goals, otherwise all |
| FinancialGoals.ViewAllGoalsIffHidden | src/components/FinancialGoals.tsx:171 | "View All Goals" shows exactly when a goal is left off, and no goal left off has less progress than one shown |
| FinancialGoals.IsCompleted | src/components/FinancialGoals.tsx:99-101 | "Completed" with a positive target iff at least 99.5% of it is saved; never with a zero target |
| FinancialGoals.ContributionReachingTargetCompletes | src/context/FinanceContext.tsx:87-100 | a contribution reaching a positive target leaves the goal at its target, marked "Completed", with a toast raised |
| FinancialGoals.HandleContribute | src/components/FinancialGoals.tsx:65-76 | with a selected goal and a positive amount: the outcome is the provider's `updateGoal` with "Contribution Added" after its toasts, so the goal gets min(current + amount, target), other goals, expenses and budgets are kept, and the dialog resets; otherwise nothing happens |
| FinancialGoals.ContributeNeverLowers | src/components/FinancialGoals.tsx:65-70 | for goals within their targets, a contribution through the dialog never lowers an amount nor lifts it past the target |
| FinancialGoals.DeletedGoalLeavesCard | src/components/FinancialGoals.tsx:78-80 | after a delete no goal has the id and every other goal remains |
| ExpenseHistory.NewerFirstConsistent | src/components/ExpenseHistory.tsx:50-52 | the comparator by descending timestamp is a total preorder |
| ExpenseHistory.SortedExpenses | src/components/ExpenseHistory.tsx:50-52 | a permutation of the expenses, newest first |
| ExpenseHistory.DisplayExpenses | src/components/ExpenseHistory.tsx:55 | a prefix of the sorted list: all of it without a truthy limit, min(limit, n) for a positive limit, and all but the last −limit for a negative one |
| ExpenseHistory.ViewAllExpensesIffHidden | src/components/ExpenseHistory.tsx:196 | for no limit or a non-negative one, "View All Expenses" shows exactly when an expense is left out, and none left out is newer than one shown |
| ExpenseHistory.NegativeLimitShowsViewAll | src/components/ExpenseHistory.tsx:196 | with any negative limit the button shows for every list, even an empty one, where nothing is listed |
| ExpenseHistory.FindCategory | src/components/ExpenseHistory.tsx:93 | `categories.find` by name: the first category with the name, or none |
| ExpenseHistory.CategoryColor | src/components/ExpenseHistory.tsx:92-95 | the first matching category's token, or "other" when none matches or its token is empty; never empty |
| ExpenseHistory.CategoryIndexOfListed | src/components/ExpenseHistory.tsx:93 | with no name repeated, looking up a listed category finds that very category |
| ExpenseHistory.ListedCategoryColor | src/components/ExpenseHistory.tsx:92-95 | a category with a token, not preceded by one of the same name, shows its own token |
| ExpenseHistory.SeedCategoryColors | src/components/ExpenseHistory.tsx:92-95 | every seed category shows its own token |
| ExpenseHistory.UnlistedCategoryColor | src/components/ExpenseHistory.tsx:92-95 | an expense filed under any name outside the seed list shows "other" |
| ExpenseHistory.GetExpenseDetails | src/components/ExpenseHistory.tsx:68-70 | none exactly when no expense has the id; otherwise the first expense with it |
| ExpenseHistory.HandleViewDetails | src/components/ExpenseHistory.tsx:62-65 | selecting an id always selects it and opens the dialog; the "Expense Details" frame shows for any non-empty id, while the details body renders exactly when the id names an expense, and then shows the first expense with that id |
| ExpenseHistory.HandleDelete | src/components/ExpenseHistory.tsx:57-60 | the outcome is the provider's `deleteExpense`, so no expense has the id afterwards and every other expense remains; the selection is cleared, so neither the dialog frame nor the details body renders |

## Left out

- React rendering, hooks and toast delivery. Toasts are returned as `Notice` values in the order they would be raised. A sequence is used rather than an optional value because `updateGoal` raises one toast per matching goal.
- React batching and stale closures. `addExpense`, `deleteExpense` and `deleteGoal` read a render-time snapshot but write through functional updates. Each operation is modelled as one atomic transition on the current state.
- `Date.now()` ids. They are parameters. Uniqueness is a precondition only where a lemma needs it; the duplicate-id behaviour of `deleteExpense` is modelled.
- Floating point. Amounts are integers and `Math.round` is exact over rationals. Double-precision errors next to a .5 boundary are not modelled.
- Date strings. Each `date` is an integer timestamp. The seed dates are written as YYYYMMDDhhmm, which orders the same as the instants. Invalid dates (NaN) are not modelled.
- Clock and locale code. This covers `formatCurrency`, `formatDate`, `formatTime`, `calculateDaysRemaining`, `getDailyExpensesForLastNDays` and `getMonthlyExpensesForCurrentYear`.
- Display formatting with no logic: `formatPercentage` only appends a percent sign to the number.
- The static chart constants `monthlySpending` and `dailySpending`. No modelled operation reads them.
- JavaScript object-key lookups. `acc[category]` and `COLORS[name]` are modelled as a map and a list, so names that hit `Object.prototype` members, such as "constructor", are not modelled.
- JsArray.Sort: stability is not stated as a property. The ordering and the permutation are proved, but the order among ties is not.
- The expense form's validation, which lives in a library not shown here. `AddExpense` accepts any draft.
- FinanceContext.AddGoal: no component calls it. The "Create Goal" button has no handler, so it is modelled as a provider operation only.
- The budget-list warning "New limit is less than current spending". It is pure display.
- Routing, authentication, the backend stubs, page layout and the chart rendering. The dashboard also reads `loading` and `refreshData`, which the provider does not supply.
