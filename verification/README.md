# Nova personal-finance engine, in Dafny

This project models the financial logic of the Nova single-page finance
dashboard. That logic lives in `src/main.js`, mixed in with the UI code. The
whole application keeps one state record: accounts, transactions,
subscriptions, goals, tagging rules and the assistant's chat history. The
model treats every handler that reads or changes that record as a pure
function over immutable Dafny datatypes. It covers:

- the debt payoff calculator (`renderDebt`) and its twelve-month chart (`initDebtChart`);
- the dashboard cards, spend by category and the six-month income/expense trend;
- smart tagging of a transaction to a goal or a debt;
- global search;
- the assistant's keyword intent matcher (`generateAIResponse`) and chat submission;
- the smaller handlers: `getSmartIcon`, `setSort`, the transaction filter,
  `confirmAddGoal`, `confirmAddDebt`, `confirmDelete`, `deleteTransaction`
  and the `loadState` migration;
- the fixed seed accounts of `src/data.js`, used as worked examples.

Number representations:

- Money is in integer cents.
- An APR is in hundredths of a percent (24.99% is `2499`). A missing APR is `None`.
- The debt calculator's minimum payment is 2% of the total, which is not a
  whole number of cents, so the payments, months and "interest" are `real`.
- The extra payment is a `nat`. Its only source is a slider running from 0 to 2000 dollars.
- A calendar month is the 0-based `MonthIndex` that `Date.getMonth()` returns.

The browser's date parser is not modelled. Each operation that needs a
transaction's month takes the caller's resolution as a function parameter:
`resolve` for the trend's `parseDate`, and `rawMonth` for
`new Date(t.date).getMonth()`, where `None` stands for the `NaN` of an
unparseable string. The current month is a parameter too.

Modules, one file each:

| module | file | what it holds |
|---|---|---|
| `Wrappers` | wrappers.dfy | `Option` and `Result` |
| `Entities` | entities.dfy | the state record and its entities |
| `Seqs` | seqs.dfy | `filter`, `findIndex` and `reduce` as sequence functions |
| `Text` | text.dfy | ASCII `toLowerCase`, `trim` and `includes` |
| `Debt` | debt.dfy | payoff calculator, priority order, chart |
| `Analytics` | analytics.dfy | dashboard cards, categories, trend |
| `Tagging` | tagging.dfy | `confirmTagGoal` and `confirmTagDebt` |
| `Search` | search.dfy | `renderSearchResults` |
| `Chat` | chat.dfy | `generateAIResponse` and the chat handlers |
| `Icons` | icons.dfy | `getSmartIcon` |
| `Views` | views.dfy | sort toggle and transaction filter |
| `Store` | store.dfy | load/save, add forms, deletion |
| `Fixtures` | fixtures.dfy | the seed accounts as examples |

Three behaviours of the code are easy to miss, and the model keeps them:

- `renderDebt` takes the total debt as the absolute value of the summed
  credit and loan balances (src/main.js:406), not as a sum of absolute
  values. `Debt.TotalDebt` states that the two agree while every debt
  balance is non-positive.
- The "interest" the calculator reports is the overshoot of the last
  payment, months × monthly − debt (src/main.js:420-421). For a $17,000
  debt at $590 a month it is 29 × 590 − 17000 = $110; that is
  `Fixtures.ProjectExample`.
- `confirmTagGoal` and `confirmTagDebt` accept a transaction of either sign
  and move its absolute amount (src/main.js:2034, src/main.js:2073). Only
  the transactions table hides the tag buttons on income rows
  (src/main.js:341).

## Model

| member | source | states |
|---|---|---|
| `Debt.DebtAccounts` | src/main.js:405 | the debts are exactly the credit and loan accounts |
| `Debt.SortBy` | src/main.js:411-417 | a stable ascending sort: sorted, a permutation of the input, and the same order within every group of equal keys |
| `Debt.Insert` | src/main.js:411-417 | one insertion step keeps the list sorted, adds exactly the element, and puts it before equal keys |
| `Debt.PriorityOrder` | src/main.js:405-417 | the debt list is a permutation of the credit and loan accounts; avalanche has non-increasing APR (missing = 0), snowball non-decreasing absolute balance; ties keep their original order |
| `Debt.WithKeyInOrder` | src/main.js:411-417 | two elements with equal keys appear in their original relative order in the tie group |
| `Debt.Ceil` | src/main.js:420 | `Math.ceil`: the least integer not below its argument |
| `Debt.TotalDebtIsSumOwed` | src/main.js:406 | when every debt balance is non-positive, the absolute value of the sum equals the sum of the amounts owed |
| `Debt.MinPayment` | src/main.js:407 | the minimum payment is non-negative, and zero exactly when there is no debt |
| `Debt.CeilCovers` | src/main.js:420-421 | `⌈d/m⌉` payments of `m` cover `d`, with less than one payment to spare |
| `Debt.Project` | src/main.js:420-421 | months × monthly covers the debt, one month fewer would not, and the interest lies in [0, monthly) |
| `Debt.MorePaymentFewerMonths` | src/main.js:420-424 | a larger monthly payment never takes more months |
| `Debt.TotalDebt` | src/main.js:405-406 | no debts give a total of 0; when every debt balance is non-positive, the total is the sum of the amounts owed |
| `Debt.Plan` | src/main.js:404-427 | total, minimum and monthly payment as the panel computes them; the plan is the projection at the monthly payment and the baseline the projection at the minimum; the plan's interest lies in [0, monthly); the plan never takes longer than paying the minimum; interest saved is the interest difference floored at 0; with no extra payment, nothing is saved |
| `Debt.ProjectAsWritten` | src/main.js:420-421 | the division is undefined (`NaN`) exactly when the monthly payment is zero |
| `Debt.InterestSavedAsWritten` | src/main.js:423-426 | the figure, when it exists, is non-negative |
| `Debt.NoDebtSavedIsNaN` | src/main.js:423-426 | with no debts, the written interest-saved figure is `NaN` whatever the extra payment |
| `Debt.AsWrittenAgreesWithPlan` | src/main.js:420-426 | with positive debt, the written arithmetic and `Debt.Plan` give the same interest saved |
| `Debt.Countdown` | src/main.js:1618-1626 | the chart sequence has the requested length, starts at the debt, each entry is the previous less the payment floored at 0, and it is non-negative and non-increasing |
| `Debt.CountdownClosedForm` | src/main.js:1618-1626 | entry `i` is `max(0, debt − i × monthly)` |
| `Debt.Trajectory` | src/main.js:1612-1626 | exactly 12 entries, the first the total debt, each next `max(0, previous − monthly)` with the plan's monthly payment, never negative, non-increasing |
| `Analytics.FilterAccounts` | src/main.js:96-98 | the account switcher keeps every account, or exactly the accounts with the chosen id |
| `Analytics.FilterTransactions` | src/main.js:100-102 | the switcher keeps every transaction, or exactly those on the chosen account |
| `Analytics.MonthlySpend` | src/main.js:108-111 | monthly spend is the sum of the magnitudes of the negative amounts dated in the month |
| `Analytics.SpendSum` | src/main.js:109-111 | the summed negative amounts are non-positive, and their absolute value is the sum of the expenses |
| `Analytics.SafeToSpend` | src/main.js:113-116 | 'N/A' exactly when there is no checking account; otherwise the checking balances divided by 30 |
| `Analytics.DailySafe` | src/main.js:576-577 | undefined exactly when there is no checking account; otherwise the first checking balance less all subscription amounts, divided by 30 |
| `Analytics.NetWorthIsAssetsLessDebt` | src/main.js:105 | with debts stored as non-positive balances, net worth is the non-debt balances less the debt planner's total |
| `Analytics.CheckingTotal` | src/main.js:113-115 | the checking balances of the selected accounts sum to the balances of the accounts that are both checking and selected |
| `Analytics.Dashboard` | src/main.js:94-116 | net worth sums the balances of the selected accounts; monthly spend covers the selected transactions; safe-to-spend is 'N/A' exactly when no selected account is a checking account, and otherwise 30 times it is the selected checking balances |
| `Analytics.AddTo` | src/main.js:1178-1180 | adding to a category keeps keys unique, adds the key, and raises that key's total and the grand total by the amount |
| `Analytics.CategoryTotals` | src/main.js:1176-1181 | the keys are exactly the categories of some expense (an empty category as 'Uncategorized'); each total is that category's expense magnitudes; the grand total is the sum of all expense magnitudes |
| `Analytics.CategoryTotalsPositive` | src/main.js:1176-1181 | every category total is strictly positive |
| `Analytics.MonthsBackBucket` | src/main.js:1247 | the month `k` months back, for `k` in 0..5, lands in bucket `5 − k` |
| `Analytics.InWindowIff` | src/main.js:1247-1249 | a month is counted exactly when it is at most five months back |
| `Analytics.AddToBucketsEffect` | src/main.js:1245-1256 | one transaction adds a positive amount to its bucket's income and anything else's magnitude to its expense, and only inside the window |
| `Analytics.Trend` | src/main.js:1231-1256 | six buckets; each bucket's income and expense are the sums of the in-window contributions; total income is the sum of the positive amounts in the window, and likewise total expense |
| `Tagging.AppendRule` | src/main.js:2042-2050 | the rule list afterwards always exists, is one longer, keeps every earlier rule in place, and ends with the new rule |
| `Tagging.TagGoal` | src/main.js:2027-2057 | if the transaction or goal is not found, nothing changes; otherwise only the goal gains the absolute amount, only the transaction becomes "Goal: name" with the Target icon, one goal rule for the transaction's name is appended, and every other field is unchanged |
| `Tagging.TagDebt` | src/main.js:2059-2096 | if the transaction or account is not found, nothing changes; otherwise only that account's balance rises by the absolute amount, only the transaction becomes "Debt Payment" with the CreditCard icon, one debt rule is appended, and every other field is unchanged |
| `Tagging.TagGoalChangesIffResolved` | src/main.js:2032 | goal tagging changes the state exactly when both ids resolve, and then adds one rule |
| `Tagging.TagGoalMovesAmount` | src/main.js:2034-2035 | the goals' total savings rise by exactly the absolute amount; account balances are untouched |
| `Tagging.TagDebtMovesAmount` | src/main.js:2073-2074 | the account balances rise by exactly the absolute amount; goal savings are untouched |
| `Tagging.TagGoalTwice` | src/main.js:2027-2057 | tagging twice adds the amount twice and records two rules |
| `Tagging.TagDebtTwice` | src/main.js:2059-2096 | tagging twice pays the amount twice and records two rules |
| `Search.Scan` | src/main.js:1838-1852 | one collection's pass reports exactly the matching indices, in increasing order |
| `Search.Search` | src/main.js:1819-1885 | a blank query finds nothing; every hit matches the lower-cased query; every matching transaction (name or category), subscription (name) and goal (name) is found; transactions come before subscriptions before goals, each in source order |
| `Search.Concat3Ordered` | src/main.js:1837-1885 | concatenating the three passes gives the fixed group order |
| `Search.NoDuplicateHits` | src/main.js:1837-1885 | no item is listed twice |
| `Search.GoalNameFound` | src/main.js:1871-1872 | a goal whose lower-cased name contains the lower-cased query is found |
| `Search.GoalNameFoundExactly` | src/main.js:1871-1872 | a goal whose name contains the query with the same letter case is found |
| `Search.Present` | src/main.js:1840-1883 | each result's title is the item's name, and a click goes to all transactions, the planning view or the goals tab according to its kind |
| `Search.Results` | src/main.js:1835-1885 | one presented result per hit, in hit order, each the presentation of its hit, and none for a blank query |
| `Text.Trim` | src/main.js:710-712 | the trimmed text is empty exactly when the input is blank, starts and ends with a non-space, and is the input with a blank prefix and a blank suffix removed |
| `Text.LowerIdempotent` | src/main.js:749 | lower-casing twice is lower-casing once |
| `Chat.Classify` | src/main.js:756-777 | the first matching branch wins: spend/spent with uber, spend/spent, net worth, afford/vacation, subscription/bill, else help |
| `Chat.Reply` | src/main.js:748-778 | the reply's topic is the classification of the lower-cased text; uber spend is the absolute sum of amounts on names containing "uber"; monthly spend and net worth are the dashboard's; savings are the first investment balance or 0; bills report the subscription count and total |
| `Chat.ReplyIgnoresCase` | src/main.js:749 | the reply does not depend on letter case |
| `Chat.ReplyReadsFinances` | src/main.js:748-778 | the reply depends only on accounts, transactions and subscriptions |
| `Chat.Submit` | src/main.js:707-716 | a blank input is ignored; otherwise exactly one user message holding the trimmed text is appended, and nothing else changes |
| `Chat.Deliver` | src/main.js:735-739 | exactly one assistant message is appended, holding the reply to the user's text, and nothing else changes |
| `Chat.ExchangeAppendsPair` | src/main.js:707-746 | a non-blank exchange appends the user message and then the reply computed on the state before the exchange |
| `Icons.FirstIcon` | src/main.js:1346-1356 | the icon of the first rule with a keyword in the name, or 'Target' when none fires |
| `Icons.SmartIcon` | src/main.js:1345-1357 | the first firing rule decides the icon, and 'Target' comes out exactly when no keyword occurs |
| `Icons.SmartIconIgnoresCase` | src/main.js:1346 | the icon does not depend on letter case |
| `Icons.TravelGetsPlane` | src/main.js:1347 | a name containing any travel keyword gets 'Plane' |
| `Views.SetSort` | src/main.js:1097-1105 | the same field flips the direction; a new field sorts ascending |
| `Views.SetSortTwice` | src/main.js:1098-1099 | clicking the same column twice restores the sort |
| `Views.NewFieldTwice` | src/main.js:1097-1103 | clicking a new column twice sorts it descending |
| `Views.Visible` | src/main.js:256-262 | a transaction is shown exactly when the filter admits it; Income shows only positive amounts, Expenses only negative ones |
| `Views.UnknownFilterShowsAll` | src/main.js:256-262 | 'All' and any unknown filter show every transaction, in order |
| `Views.IncomeAndExpensesPartition` | src/main.js:258-259 | income, expenses and zero amounts together account for every transaction |
| `Store.Save` | src/main.js:27-29 | the snapshot records the chat history |
| `Store.Load` | src/main.js:8-23 | a saved state is restored field by field, with a missing chat history backfilled as empty; with nothing saved, the seed data plus the greeting |
| `Store.LoadSave` | src/main.js:8-29 | loading what was saved gives back the same state |
| `Store.MigrationBackfills` | src/main.js:13 | an old snapshot without chat history loads with an empty one, and saves back with it |
| `Store.AddGoal` | src/main.js:1454-1475 | refused exactly when the name is empty or the target is not a number; otherwise the existing goals stay in place and one goal is appended with the given id, name and target, nothing saved yet and the smart icon of its name; nothing else changes |
| `Store.AddGoalKeepsSavings` | src/main.js:1463-1469 | a new goal leaves the total saved across goals unchanged |
| `Store.AddGoalThenDelete` | src/main.js:1454-1475 | deleting a goal just added under a fresh id restores the state before |
| `Store.AddDebtThenDelete` | src/main.js:1522-1550 | deleting a debt just added under a fresh account id restores the state before |
| `Store.AddDebt` | src/main.js:1522-1550 | refused exactly when a field is missing; otherwise one account is appended with the given name, type and APR, 'Manual Entry', 'XXXX', and the balance's magnitude stored as non-positive |
| `Store.AddDebtRaisesTotal` | src/main.js:1533-1544 | when existing debts are non-positive, a new debt raises the total debt by its balance's magnitude |
| `Store.TotalDebtAppend` | src/main.js:406 | appending a non-positive debt raises the total debt by its magnitude |
| `Store.ConfirmDelete` | src/main.js:1401-1420 | goal, debt or transaction deletion removes exactly the items with that id from that collection and changes nothing else; no pending item or an unknown type changes nothing |
| `Store.DeleteTransaction` | src/main.js:1107-1114 | unconfirmed, nothing changes; confirmed, exactly the transactions whose rendered id is the clicked id go |
| `Store.DeleteTransactionAsWritten` | src/main.js:1107-1114 | with the strict comparison, only transactions whose stored id is that very string go |
| `Store.NumericIdSurvivesDelete` | src/main.js:1107-1114 | a transaction with a numeric id survives the deletion its own button asks for, which `Store.DeleteTransaction` carries out |
| `Store.TextIdsDeleteAlike` | src/main.js:1107-1114 | on string ids the strict comparison and `Store.DeleteTransaction` keep the same transactions |
| `Store.DeleteIdempotent` | src/main.js:1401-1420 | deleting the same item twice is deleting it once |
| `Store.AccountNameOf` | src/main.js:328 | the first account with the id gives the name; no such account, or an empty name, gives 'Unknown' |
| `Store.DeletedAccountShowsUnknown` | src/main.js:1409-1410 | after its account is deleted, a transaction still exists and shows 'Unknown' |
| `Fixtures.SeedDebts` | src/data.js:15-20 | the seed's debts are Amex, the car loan, the student loan and Visa, in that order |
| `Fixtures.SeedTotalDebt` | src/data.js:15-20 | the seed debts total $20,850 |
| `Fixtures.SeedMinPayment` | src/data.js:15-20 | the seed's minimum payment is $417 |
| `Fixtures.SeedAvalancheOrder` | src/data.js:15-20 | avalanche orders the seed debts Amex, Visa, car loan, student loan |
| `Fixtures.SeedSnowballOrder` | src/data.js:15-20 | snowball orders the seed debts Amex, student loan, Visa, car loan |
| `Fixtures.ProjectExample` | src/main.js:420-421 | $17,000 at $590 a month takes 29 months, with $110 of "interest" |
| `Fixtures.TagGoalExample` | src/main.js:2034-2050 | tagging the $145.50 grocery expense to the seed Japan Trip goal, holding $1,200, gives $1,345.50 and one rule and leaves the Emergency Fund alone; tagging it again gives $1,491 |
| `Fixtures.SeedDeleteKeepsNumbered` | src/main.js:1107-1114 | the seed transaction numbered 1 survives its confirmed deletion as written, and `Store.DeleteTransaction` removes it |

## Left out

- Rendering is not modelled: HTML templates, lucide icons, Chart.js
  configuration, modals, toasts, the DOM, scrolling and the delete-dialog
  markup. These are presentation only.
- `localStorage` and the service worker are not modelled. They are browser
  I/O; `Store.Save` and `Store.Load` treat the stored record as a value.
- The `setTimeout` delays are not modelled. `Chat.Submit` and
  `Chat.Deliver` are the two state changes the chat makes, in order; the
  typing indicator and the typewriter are timing only.
- The `Math.random` insight generator and its 5% failure are randomness.
  So is `generateData`'s random transaction history. Only the fixed seed
  accounts are used.
- Browser `Date` parsing is not modelled, and neither are the month labels
  or the calendar grid. Months are inputs, as described above.
- The transaction view's sort comparator is not modelled, because it sorts
  by parsed dates. Only its sort-state toggle is.
- Number formatting (`toFixed`, `toLocaleString`) and floating-point
  rounding are not modelled. Money is exact cents and the calculator is
  exact reals.
- `parseFloat` and `parseInt` of form input are not modelled. A form field
  arrives as `Option<int>`, with `None` for `NaN`.
- The `prompt`, `confirm` and `FileReader` handlers (`addBill`, avatar
  upload, logout, `deleteAccount`, `resetData`, the profile and security
  toggles) are not modelled; they are dialog-driven I/O. `confirm` becomes
  the boolean `confirmed` of `Store.DeleteTransaction`.
- Ids from `Date.now()` (goals, debts, rules) are parameters.
- Lower-casing and trimming are ASCII only. JavaScript's full Unicode case
  mapping and whitespace set are not modelled.
- Transaction ids are strings in the model. Tagging compares them loosely
  (`t.id == tId`), so a seed's numeric id 1 matches the string "1" from the
  click handler and the string model is exact there. Deletion compares
  strictly; `Store.RawId` keeps the number-or-string distinction for it (see
  Findings).
- Store.DeleteTransaction: models the evidently intended comparison of the
  rendered id. The strict comparison the code makes, which never removes a
  transaction with a numeric id, is `Store.DeleteTransactionAsWritten`.
- Store.AddDebt: its `requires kind == Credit || kind == Loan` reflects the
  form's select, which offers only those two types.
- Store.AddGoal: the target is kept as an integer number of cents, not
  the float `parseFloat` returns.

## Findings

| source | as written | input that shows it | evidently intended | confidence | as-written member | corrected member |
|---|---|---|---|---|---|---|
| src/main.js:1107-1114 | `t.id !== id` compares the stored id with the string the delete button passes (src/main.js:349); the six hand-written seed transactions have numeric ids (src/data.js:23-28), so `1 !== "1"` keeps them | confirming deletion of the seed "Whole Foods Market" transaction, id 1 | every transaction whose id renders as the clicked id is removed | not executed | `Store.DeleteTransactionAsWritten` | `Store.DeleteTransaction` |
| src/main.js:420-426 | with no credit or loan balance, `totalDebt` and `minPayment` are 0, so `Math.ceil(0 / 0)` is `NaN` and `interestSaved` is `Math.max(0, NaN)`, which is `NaN` | accounts holding only checking and investment accounts, any extra payment | no debt means 0 months, 0 interest and 0 saved | not executed | `Debt.InterestSavedAsWritten` | `Debt.Plan` |

`Debt.NoDebtSavedIsNaN` proves that the as-written figure is undefined for
every input with no debts. `Debt.AsWrittenAgreesWithPlan` proves that the two
definitions agree whenever there is debt. `Debt.Project` gives the corrected
projection: zero months and zero interest for zero debt. `Debt.Plan` and
`Debt.Trajectory` use it.

`Store.NumericIdSurvivesDelete` proves that every transaction with a numeric
id survives the deletion its own button asks for, and
`Fixtures.SeedDeleteKeepsNumbered` shows it for the first seed transaction.
`Store.TextIdsDeleteAlike` proves that the two definitions agree on string
ids, such as the generated history's 'h0' to 'h49'.
