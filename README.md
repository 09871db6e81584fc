# FinanceManager — a verified model of its handlers

FinanceManager is a personal finance web application. A signed-in user
records income and expense entries. The dashboard shows a monthly summary:
totals, and spending grouped by category and subcategory. Users are
provisioned through an identity provider's webhook, and the interface has
a three-way colour theme.

This Dafny project models the logic of that application:

- the monthly summary route: month/year validation, the half-open month
  window, the owner and date filter, the totals, and the grouping loop that
  fills two dictionaries in place (`DashboardInfo`);
- the income listing route: the inclusive month range ending at 23:59:59 of
  the month's last day, newest first (`IncomeRoute`);
- the expense listing route: all of the caller's expenses, oldest first
  (`ExpensesRoute`);
- the two create actions: authentication, field checks, one appended row
  (`ExpenseActions`, `IncomeActions`);
- the user-provisioning webhook: a delete or an upsert keyed by external
  id (`ClerkWebhook`);
- the dashboard's category taxonomy, its two chart projections, its
  "Total Expenses" figure and its summary request (`Dashboard`);
- the theme toggle, the initial theme and the effect on the class list and
  storage (`ThemeContext`).

Shared modules:

- `Common`: optional values, results and JSON responses.
- `Calendar`: the `Date` constructor's arithmetic on (year, month, day)
  triples and times of day, and the order on instants.
- `Store`: the two record tables, `findMany` as a filter followed by an
  optional sort by date, and the `reduce` totals.
- `Dict`: a JavaScript object used as a dictionary, modelled as its entries
  in insertion order.

The handlers' collaborators are modelled as parameters:

- The session is `Option<string>`; `None` or `""` means signed out.
- Parsed query parameters are integers; an absent, empty or non-numeric
  parameter (`Number(..)` falsy) is 0.
- Amounts are integers.
- Whether a store call throws is a boolean. For the webhook it is the
  thrown message.

State that the source updates in place is modelled as a class whose
methods change fields:

- the expense table and the income table;
- the user table;
- the theme provider's theme, class list and storage.

Each such method is proved equal to a pure function of the old state, and
the properties are proved about those functions.

Three facts about the two month-filtered routes shape the model:

- Both the summary route and the income route demand month and year, and
  answer 400 without them (app/api/dashboardinfo/route.ts:84-89,
  app/api/income/route.ts:19-24).
- The income route's range is inclusive and ends at 23:59:59 on the last
  day of the month (app/api/income/route.ts:28,36); the summary route's
  window is half-open and ends at midnight on the 1st of the next month.
- The income route does not check that the month lies in 1..12
  (app/api/income/route.ts:19), so month 13 of 2024 is January 2025 there.

The expenses query orders by date ascending even though its comment says
"Latest expenses first". The model follows the query.

## Model

| member | source | states |
|---|---|---|
| DashboardInfo.WindowBounds | app/api/dashboardinfo/route.ts:92-93 | for a valid month the window starts at midnight on the 1st of that month and ends at midnight on the 1st of the next; December rolls over to 1 January of year + 1; years 0..99 mean 1900..1999 |
| DashboardInfo.InWindowIffSameMonth | app/api/dashboardinfo/route.ts:96-115 | a valid instant passes `gte start, lt end` exactly when it falls in the requested month; the window's start is in it, the 1st of the next month is not |
| DashboardInfo.GroupedKeys | app/api/dashboardinfo/route.ts:121-128 | the keys of a grouped dictionary are exactly the distinct category (or subcategory) strings present among the rows: no zero entries, no normalisation |
| DashboardInfo.GroupedValue | app/api/dashboardinfo/route.ts:124-128 | each present key maps to the sum of the amounts of the rows carrying it; any other key is absent |
| DashboardInfo.GroupedKeysGrowAtTheEnd | app/api/dashboardinfo/route.ts:124-128 | visiting a row keeps the existing keys in order and appends the row's key only when it is new |
| DashboardInfo.GroupedWellformed | app/api/dashboardinfo/route.ts:121-128 | no key occurs twice in a grouped dictionary |
| DashboardInfo.GroupedTotal | app/api/dashboardinfo/route.ts:117-128 | the values of either grouped dictionary add up to the total of all the rows |
| DashboardInfo.GroupExpenses | app/api/dashboardinfo/route.ts:121-128 | the `forEach` loop leaves both dictionaries well-formed, keyed exactly by the present keys, each with its total, and summing to the expense total |
| DashboardInfo.GetMonthlySummary | app/api/dashboardinfo/route.ts:68-148 | the handler, statement by statement, answers what `SummaryResponse` describes |
| DashboardInfo.SummaryRefusals | app/api/dashboardinfo/route.ts:70-89 | no user id gives 401 "Unauthorized" whatever the request and the store; a month that is 0, below 1 or above 12, or a year that is 0, gives 400 "Invalid month or year parameter"; a failing query gives 500 "Failed to fetch monthly data" (lines 142-148); status 200 exactly when none of these holds |
| DashboardInfo.SummaryContents | app/api/dashboardinfo/route.ts:96-141 | a success echoes month and year; each row of either table that is the caller's and inside the window is kept as many times as the table holds it, and no other row is kept; `totalIncome` and `totalExpenses` are the sums of the kept rows, `totalRemaining` their difference; both groupings have exactly the present keys, each with its total, and values summing to `totalExpenses` |
| DashboardInfo.JanuarySummary | app/api/dashboardinfo/route.ts:117-141 | a worked month: January 2024 keeps the two January expenses and the January income, giving 1000, 50, 950, `{Food: 50}` and `{Groceries: 30, Restaurants: 20}` |
| Store.SumOfPermutation | app/api/dashboardinfo/route.ts:117-118 | the `reduce` totals do not depend on the order in which the unordered queries return rows |
| Calendar.DayZeroIsLastDayOfPreviousMonth | app/api/income/route.ts:28 | `new Date(y, m, 0)` is the last day of month index `m - 1`, for any month index, overflow included |
| IncomeRoute.InRangeIffInMonth | app/api/income/route.ts:27-37 | a valid instant is in `gte start, lte end` exactly when it falls in the month of `new Date(year, month - 1, 1)` and is not after 23:59:59.000 of that month's last day, whatever the month's length |
| IncomeRoute.LeapDayExample | app/api/income/route.ts:27-28 | 29 February 2024 at 23:59:59 is in the range of February 2024 and one millisecond later is not |
| IncomeRoute.MonthOverflowExample | app/api/income/route.ts:27-28 | month 13 of 2024 is January 2025: 31 January 2025 is in its range, 31 December 2024 is not |
| IncomeRoute.TwoDigitYearExample | app/api/income/route.ts:27-28 | year 24 is 1924: March 1924 is in the range of month 3 of year 24, March 2024 is not |
| IncomeRoute.ListIncome | app/api/income/route.ts:10-48 | no user id gives 401 `{error: "Unauthorized"}`; a month or year that is 0 gives 400 "Month and year are required" (no range check on the month); a thrown error gives 500 "Internal Server Error"; otherwise the bare array holds exactly the caller's rows in the range, each as often as stored, in non-increasing date order |
| IncomeRoute.ListedIncomeIsOwnedAndNewestFirst | app/api/income/route.ts:31-40 | every listed row is the caller's and in range, and no row is dated after the one before it |
| Store.WhereCounts | app/api/income/route.ts:31-38 | a `where` filter keeps each matching row as often as the table holds it and no other row |
| Store.SortByDate | app/api/income/route.ts:39 | `orderBy: { date }` returns the same rows, each as often, sorted by date in the requested direction |
| Store.Where | app/api/income/route.ts:31-38 | the `findMany` `where` filter keeps no more rows than the table holds (what it keeps is stated by `Store.WhereCounts`); the summary route's queries at app/api/dashboardinfo/route.ts:96-115 are the same filter |
| Store.SumOf | app/api/dashboardinfo/route.ts:117-118 | the `reduce` total starting from 0; a total of amounts none of which is negative is not negative |
| Store.StoredDate | app/dashboard/expenses/server.ts:28 | `new Date(date)` as the store sees it: a missing field (`null`) is the epoch, 1 January 1970 at midnight; an empty or unparsable string is an Invalid Date that the store refuses; parsed text is that instant. The same call is at app/dashboard/income/server.ts:25 |
| Dict.PutGet | app/api/dashboardinfo/route.ts:125-127 | after `obj[k] = v`, `obj[k]` reads `v` and every other key reads as before |
| Dict.PutKeys | app/api/dashboardinfo/route.ts:125-127 | `obj[k] = v` keeps an existing key in its place and adds a new key at the end |
| Dashboard.FetchedData | app/dashboard/dashboard.tsx:82-97 | `fetchFinanceData` sets `data` exactly when the route answers 200, that is when signed in with a valid month and year and a working store, and the data it sets is for the requested month and year; otherwise `!res.ok` throws and no data is set |
| Dashboard.DisplayedTotal | app/dashboard/dashboard.tsx:233 | the "Total Expenses" card shows `totalIncome - totalRemaining`, which is `totalExpenses` whenever the remainder is income minus expenses, as every summary the route sends is (`DashboardInfo.SummaryContents`) |
| ExpensesRoute.ListExpenses | app/api/expenses/route.ts:5-28 | no user id gives 401 with `success: false` and "User not authenticated."; a thrown error gives 500 with `success: false` and "Failed to fetch expenses."; otherwise `{success: true, data}` with exactly the caller's rows, no date filter, in non-decreasing date order |
| ExpensesRoute.ListedExpensesAreOwnAndOldestFirst | app/api/expenses/route.ts:16-19 | a row is listed iff it is in the table and the caller's, as many rows as the caller owns, and no row is dated before the one before it |
| ExpenseActions.AddExpenseResult | app/dashboard/expenses/server.ts:6-36 | success exactly when signed in, category and subcategory non-empty, the amount a number, the date storable and the store working; each refusal carries its message ("User not authenticated.", "Invalid input data.", "Database error."); success says "Expense added successfully!" |
| ExpenseActions.ExpenseTable.AddExpense | app/dashboard/expenses/server.ts:5-37 | the action returns `AddExpenseResult` and leaves the table as `ExpensesAfter` describes: one row appended on success, unchanged otherwise |
| ExpenseActions.AddExpenseAppendsOneRow | app/dashboard/expenses/server.ts:21-32 | existing rows are never changed; a refused call adds nothing; a successful one adds exactly one row, owned by the caller, with the submitted category, subcategory, amount and date |
| ExpenseActions.IdenticalSubmissionsAddTwoRows | app/dashboard/expenses/server.ts:22-30 | no deduplication: two identical successful submissions add the same row twice |
| ExpenseActions.AnyAmountIsStored | app/dashboard/expenses/server.ts:14-19 | the sign of the amount is not checked: zero and negative amounts are stored as submitted |
| IncomeActions.AddIncomeResult | app/dashboard/income/server.ts:6-33 | success exactly when signed in, source and date present, the amount a number, the date storable and the store working; each refusal carries its message; success says "Income added successfully!" |
| IncomeActions.IncomeTable.AddIncome | app/dashboard/income/server.ts:5-34 | the action returns `AddIncomeResult` and leaves the table as `IncomeAfter` describes |
| IncomeActions.AddIncomeAppendsOneRow | app/dashboard/income/server.ts:20-29 | existing rows are never changed; a successful call adds exactly one row, owned by the caller, with the submitted source, amount and date |
| IncomeActions.IdenticalSubmissionsAddTwoRows | app/dashboard/income/server.ts:21-28 | no deduplication: repeating an identical submission adds the row again |
| IncomeActions.AnyAmountIsStored | app/dashboard/income/server.ts:14-16 | only NaN is refused: zero and negative amounts are stored |
| IncomeActions.DateChecks | app/dashboard/income/server.ts:13-25 | a missing or empty date is "Invalid input data."; date text that does not parse passes the check and fails at the write with "Database error." |
| ClerkWebhook.Decide | app/api/clerk-web-hook/route.ts:11-37 | missing `type` or `data` is "Invalid webhook payload structure"; `user.deleted` without an id is "Missing user ID for deletion event", with one it deletes; any other type without an id or an address is "Missing required user data"; every other non-empty type with an id and a non-empty address list upserts that id with name `first last` and the first address |
| ClerkWebhook.WebhookResponse | app/api/clerk-web-hook/route.ts:29-61 | `{success: true}` exactly when the checks pass and the store does not fail; every error is status 500 with `success: false` and the thrown message |
| ClerkWebhook.UserTable.HandleWebhook | app/api/clerk-web-hook/route.ts:6-61 | the handler returns `WebhookResponse` and leaves the table as `UsersAfter` describes |
| ClerkWebhook.ErrorsChangeNothing | app/api/clerk-web-hook/route.ts:55-61 | a failed call, whatever its cause, leaves the user table unchanged |
| ClerkWebhook.DeletionRemovesOnlyThatUser | app/api/clerk-web-hook/route.ts:17-30 | deletion removes the row with that id and no other; repeating it changes nothing more and still succeeds |
| ClerkWebhook.UpsertSetsOnlyThatUser | app/api/clerk-web-hook/route.ts:39-50 | after an upsert the id has exactly one row, holding the full name and the first address; other rows are unchanged; replaying the event changes nothing more |
| ClerkWebhook.UnknownTypesUpsert | app/api/clerk-web-hook/route.ts:32-50 | for example, an event of type "session.created" upserts exactly as `user.created` does, and a missing first name prints as "undefined"; that every other non-empty type upserts is stated by `ClerkWebhook.Decide` |
| Dashboard.TaxonomyShape | app/dashboard/dashboard.tsx:51-71 | the taxonomy is Food, Transport, Utilities, in that order, each named after its key with three distinct subcategories; the lookup finds exactly these keys |
| Dashboard.DropdownOffersOnlyKeys | app/dashboard/dashboard.tsx:318-321 | every dropdown entry is a taxonomy key, so the selection is always one |
| Dashboard.PrepareCategoryData | app/dashboard/dashboard.tsx:100-108 | no data gives no rows; otherwise one row per key in key order, with the key's value and the taxonomy colour, or "#8884d8" for an unknown key |
| Dashboard.PrepareSubcategoryData | app/dashboard/dashboard.tsx:111-118 | no selection or no data gives no rows; otherwise one row per subcategory of the selected category in taxonomy order, valued as in the summary or 0 when absent |
| Dashboard.CategoryChartOfDict | app/dashboard/dashboard.tsx:103-107 | the category chart names each key of a well-formed dictionary once, in order, with its value, and its values add up to the dictionary's |
| Dashboard.CategoryChartOfExpenses | app/dashboard/dashboard.tsx:103-107 | for grouped expenses the chart has one row per category spent on, each with that category's total, adding up to the expense total |
| Dashboard.PageShowsTheMonth | app/dashboard/dashboard.tsx:84-88 | when the request carries a valid month and year, the page receives that month's summary; "Total Expenses" (`totalIncome - totalRemaining`, line 233) equals the month's spending, and the category chart matches it row by row |
| Dashboard.SubcategoryChartShowsTheMonth | app/dashboard/dashboard.tsx:114-117 | with a category selected, each of its subcategories shows the month's spending under that exact name, 0 when none |
| Dashboard.PageNeverReceivesSummary | app/dashboard/dashboard.tsx:84-85 | the request as written carries no month or year, so the route answers 400 for every user and table, and both charts stay empty |
| ThemeContext.Toggle | context/themeContext.tsx:40-44 | light becomes dark, dark becomes grey, anything else, an unchecked stored string included, becomes light; the result is always one of the three |
| ThemeContext.ToggleCycle | context/themeContext.tsx:41-43 | three toggles bring each of the three themes back, and a toggle always changes the theme |
| ThemeContext.InitialTheme | context/themeContext.tsx:25-30 | the stored value when there is a window and something non-empty is stored, "light" otherwise |
| ThemeContext.WithoutThemesKeepsOthers | context/themeContext.tsx:34 | removing the three theme names keeps every other class name and keeps names distinct |
| ThemeContext.ClassesAfterEffect | context/themeContext.tsx:34-35 | after the effect the current theme is on the class list and is the only one of the three theme names there; every other name is present exactly when it was before; no duplicates |
| ThemeContext.ClassesAfterIdempotent | context/themeContext.tsx:33-37 | running the effect twice for the same theme leaves the same class list |
| ThemeContext.ThemeProvider.ApplyTheme | context/themeContext.tsx:33-37 | the effect leaves the class list as `ClassesAfter` describes and stores the theme; on a name `classList.add` rejects, only the removal has happened and storage is unchanged |
| ThemeContext.ThemeProvider.ToggleTheme | context/themeContext.tsx:40-44 | the theme becomes `Toggle` of the old one; class list and storage are untouched until the effect runs |
| ThemeContext.ToggledThemesApply | context/themeContext.tsx:25-44 | every theme the toggle yields is a valid class name, so the effect completes, and the stored theme is the one a reload starts from |

## Findings

| source | as written | input that shows it | evidently intended | confidence | as-written member | corrected member |
|---|---|---|---|---|---|---|
| app/dashboard/dashboard.tsx:84 | `fetch("/api/dashboardinfo")` with no query string, while the route demands month and year (app/api/dashboardinfo/route.ts:84-89) | any signed-in user on any tables: month and year read as 0, the route answers 400, `fetchFinanceData` throws "Failed to fetch financial data", and no chart ever shows data | one of two fixes: the request carries a month and year, which the page would have to keep as state since it holds none (dashboard.tsx:75-78), and the page shows that month's summary; or the route answers a request without them with all-time totals, as the handler commented out at app/api/dashboardinfo/route.ts:5-59 did. The corrected member models the first | high; not executed | Dashboard.PageNeverReceivesSummary | Dashboard.PageShowsTheMonth |

## Left out

- Time zones: dates are calendar triples with a time of day. Conversions between local time and UTC are not modelled.
- Floating-point amounts: amounts are exact integers, so rounding drift in sums is not modelled.
- Parsing is not modelled:
  - query strings, form data and JSON bodies are taken as already parsed;
  - `parseFloat` reads a numeric prefix, which is not modelled: an amount is a number or NaN (`None`);
  - fractional query parameters (month 1.5) are not modelled;
  - a failing `req.json()` in the webhook is not modelled.
- Dates outside the calendar or the `Date` range are not modelled. Stored rows and parsed dates are assumed valid instants.
- The identity provider, the ORM and the HTTP layer are out. They are replaced by the session parameter, sequences and maps for the tables, and failure parameters for the store.
- Surrogate row ids are not modelled.
- Tie order is not modelled:
  - for rows with equal dates, the store promises no order;
  - the contracts state only the permutation and the date order, although the model's sort is stable.
- The order in which the unordered summary queries return rows is taken to be table order. It fixes only the key order of the grouped dictionaries; the totals do not depend on it (`Store.SumOfPermutation`).
- JavaScript objects differ from the model's insertion-ordered dictionary in three ways, none modelled:
  - they list integer-like keys ("2024") first;
  - a key named like an `Object.prototype` member ("constructor") reads an inherited value;
  - a category or subcategory named "__proto__" never becomes a key: reading it gives `Object.prototype`, and assigning the resulting string to it is ignored. With such a row the grouped values no longer add up to `totalExpenses`, so `DashboardInfo.GroupedTotal` does not hold of the source for it.
- The webhook's `email_addresses` entries are taken to carry an address. An entry without `email_address` would store `undefined`, which is not modelled.
- The webhook's "Database error." fallback is for thrown values that are not `Error`s. It is not modelled; store failures carry their message.
- `deleteMany` can remove several rows with one id, which the model does not represent. The user table is keyed by the unique external id, so a deletion removes at most one row.
- The webhook handler's source ends without the closing brace of `POST`. The model follows the evident intent.
- Deleting a user does not touch that user's income or expense rows. The model's user table is separate from the record tables, so it says nothing about orphaned records.
- Dashboard rendering, animation, loading and error display, number formatting (`toLocaleString`) and the chart components are not modelled. Only the data helpers and the request are.
- The React machinery is not modelled: the `useTheme` hook, the context object and the scheduling of effects. Toggling and applying the effect are separate method calls.
- ThemeContext.ThemeProvider.ApplyTheme: the DOM token rules are reduced to "not empty and without ASCII whitespace".
