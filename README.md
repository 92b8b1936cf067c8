# Finance app business rules in Dafny

This project models the core of a Django personal-finance application. Users own accounts in
currencies, and they record income, expense and transfer transactions against those accounts.
Categories and tags classify the transactions. Budgets have a start date and an optional end
date. A crypto widget ranks exchange tickers by volume.

The model restates the application's rules as pure functions over tables (`seq` of records):

- the field enumerations and defaults;
- the serializers' validators;
- the admin's computed columns;
- the REST viewsets' per-user scoping and their `total_balance`, `statistics`, `recent`,
  `duplicate` and `active` actions;
- the home, analytics, investments and search queries of the HTML views;
- the spreadsheet export filters and cell formats;
- the ticker selection and formatting tiers of the crypto service;
- the template tags and filters.

The source builds state step by step in three places, and those are methods with loop
invariants proved against the specification functions:

- the per-currency dictionaries of `total_balance` in the admin and in the API;
- the result list of `get_top_cryptos`.

`duplicate` adds a row to the transactions table. It is a method of a `TransactionTable`
class whose `rows` field it extends.

The project has these modules:

- `Wrappers` holds Option and Result.
- `Strings` holds Python's `str` operations, the decimal rendering of amounts and ASCII
  case folding.
- `Seqs` holds filter, count, sum, stable descending sort and top-N slices over sequences.
- `Calendar` holds Python's `date`/`datetime`: comparison, day ordinals, trailing windows
  and `strftime`.
- `Models` holds the records, choices, owner tests and the active-budget rule.
- `Balances` holds the per-currency grouping.
- `Admin`, `Serializers`, `Api`, `Views`, `Resources`, `Services` and `FinanceTags` follow the
  application's files one to one.
- `Agreement` holds lemmas relating rules that several files write independently.

Conventions:

- Money is an `int` number of cents, because every amount is a `DecimalField` with 2
  decimal places.
- The clock is a parameter: `now` is a `DateTime` and `today` is a `Date`.
- A database query becomes a `Filter` over the table with a named predicate, so that every
  query using the same condition uses the same term.
- Ordering by a column is a stable descending sort on a numeric key.
- A table is a sequence of rows in the order of its model's `Meta.ordering`, and a filter keeps
  that order. These members rely on it:
  - Admin.TagsList lists a transaction's tags by name, as Tag's `['tag_name']` does
    (finance/models.py:213).
  - Balances.CurrencyCodes, Admin.TotalBalanceText and Admin.TotalBalance list currencies in
    order of first appearance in the account table, which is in Account's `['-created_date']`
    order (finance/models.py:185).
  - Views.HomeActiveBudgets and FinanceTags.ShowActiveBudgets keep the first active budgets in
    table order. Budget's order is `['-start_date']` (finance/models.py:332), so under the
    hypothesis `Models.InBudgetOrder` both are proved to keep the latest-started budgets.
- A slice `[:n]` is a `Take`, so "at most n, the largest first" is the predicate
  `Seqs.IsTopN`.

## Model

| member | source | states |
|---|---|---|
| Models.ParseTransactionType | finance/models.py:241-249 | a stored type code names at most one of income, expense or transfer, and each kind's own code names that kind |
| Models.AccountTypeLabel | finance/models.py:150-160 | the display label of an account type never contains `]`, so the exported "[label] name" can be split |
| Models.PeriodTypeLabel | finance/models.py:302-311 | the display label of a period type never contains `(`, so the exported "name (label)" can be split |
| Models.MoneyFieldDigits | finance/models.py:167-172 | a cent amount fits `DecimalField(max_digits=15, decimal_places=2)` exactly when its whole part has at most 13 digits |
| Models.NewUser | finance/models.py:28-37 | a newly saved user has the free subscription (code "free") and is active |
| Models.CategoryLabel | finance/models.py:131-135 | `str(category)` is "Parent → Name" under a parent and the bare name otherwise; it always ends with the name |
| Models.NewAccount | finance/models.py:167-172 | a newly saved account has balance 0, which fits the money field |
| Models.InsertTag | finance/models.py:214 | saving a tag is refused exactly when the user already has a tag of that name; otherwise the tag is appended and (user, name) stays unique |
| Models.ActiveWindowIsActiveOn | finance/api.py:215-218 | the queryset condition (no end or end ≥ today, and start ≤ today) selects exactly the budgets the active rule accepts |
| Models.AccountsOf | finance/api.py:88-90 | a user's accounts are exactly the rows with that owner, drawn from the table |
| Models.TransactionsOf | finance/api.py:130-136 | a user's transactions are exactly the rows whose account that user owns |
| Models.TagsOf | finance/api.py:67-69 | a user's tags are exactly the rows with that owner |
| Models.BudgetsOf | finance/api.py:201-203 | a user's budgets are exactly the rows with that owner |
| Models.StocksOf | finance/api.py:236-238 | a user's stocks are exactly the rows with that owner |
| Models.CurrencyMark | finance/resources.py:41 | the mark after an amount is the currency symbol, or the code when the symbol is empty |
| Serializers.ValidateAmount | finance/serializers.py:71-75 | an amount is accepted iff it is > 0 and is returned unchanged; otherwise the error is on `amount` |
| Serializers.ValidateTransaction | finance/serializers.py:77-93 | the data is rejected iff both category and type are given and the type is income or expense with a category of the other kind; the error is keyed on `category` with the income or expense message; accepted data is returned unchanged |
| Serializers.AcceptedTransactionIsConsistent | finance/serializers.py:83-91 | accepted income data with a category has an income category, and accepted expense data has an expense category |
| Serializers.UncheckedPayloadsPass | finance/serializers.py:79-93 | transfers and data without a category or a type pass unchanged |
| Serializers.ValidateBudget | finance/serializers.py:108-118 | a budget is rejected on `end_date` iff both dates are given and the end precedes the start; equal or missing dates pass |
| Serializers.AcceptedBudgetActiveOnStart | finance/serializers.py:108-118 | an accepted budget with a start date is active on its start date |
| Serializers.ValidateQuantity | finance/serializers.py:137-141 | a stock quantity is accepted iff > 0, and is returned unchanged |
| Serializers.ValidatePurchasePrice | finance/serializers.py:143-147 | a purchase price is accepted iff > 0, and is returned unchanged |
| Serializers.ParentCategoryName | finance/serializers.py:23-26 | the parent's name, and None exactly when there is no parent |
| Serializers.ParentNameInLabel | finance/serializers.py:23-26 | the parent name the API returns is the prefix of the category's display string |
| Balances.CurrencyCodes | finance/admin.py:51-56 | exactly the currency codes some account is held in, each once, in order of first appearance: a code listed before another first occurs at an earlier account |
| Balances.ByCurrencyTotals | finance/api.py:104-109 | the dictionary has a key for exactly the currency codes some account is held in, and each key holds the sum of that currency's balances |
| Balances.CurrencyTotalsAddUp | finance/api.py:101-109 | the per-currency totals add up to the sum of all balances |
| Balances.GroupByCurrency | finance/api.py:104-109 | the loop builds exactly the first-appearance code list and the dictionary of the account-by-account crediting; with Balances.ByCurrencyTotals, the per-currency totals |
| Admin.FullName | finance/admin.py:33-36 | "—" when both names are empty; otherwise "first last" with surrounding white space stripped |
| Admin.FullNameOfCleanNames | finance/admin.py:33-36 | with two names that have no surrounding white space, the full name is "first last" |
| Admin.FullNameOfOneName | finance/admin.py:33-36 | a single name shows as itself, with no stray space |
| Strings.StripSlice | finance/admin.py:35 | `strip()` leaves a middle slice of the text, starting where the leading white space ends |
| Strings.StripRemovesSpace | finance/admin.py:35 | `strip()` removes only white space, at both ends |
| Strings.StripEnds | finance/admin.py:35 | the stripped text neither starts nor ends with white space |
| Admin.TransactionsCount | finance/admin.py:43-44 | the per-account counts summed over the user's accounts; 0 without accounts or without transactions |
| Admin.TransactionsCountIsUserCount | finance/admin.py:43-44 | the sum of the per-account transaction counts over a user's accounts is the number of that user's transactions |
| Admin.TotalBalanceText | finance/admin.py:47-57 | "—" without accounts; otherwise one "amount code" entry per distinct currency code, in first-appearance order, joined by ", ", where each amount is the sum of the balances held in that currency |
| Admin.TotalBalanceTextShape | finance/admin.py:47-57 | the text is "—" iff the user has no accounts; otherwise it opens with the entry of the first account's currency |
| Admin.FirstCodeFirst | finance/admin.py:51-57 | the first entry is the currency of the first account |
| Admin.TotalBalance | finance/admin.py:47-57 | the loop over the accounts produces "—" without accounts, and otherwise the entries "sum code", one per currency in first-appearance order, joined by ", " |
| Admin.TransactionLabel | finance/admin.py:241-242 | the id column is "#" followed by the decimal digits of the id (after a "-" for a negative id) |
| Admin.TransactionLabelInjective | finance/admin.py:241-242 | different ids give different labels |
| Admin.AmountColour | finance/admin.py:250 | green exactly for income, red exactly for expense, blue exactly for transfer |
| Admin.AmountDisplay | finance/admin.py:249-256 | the amount cell has the kind's colour and reads exactly "amount mark": the amount, one space, and the account currency's mark |
| Admin.TagsList | finance/admin.py:259-266 | "—" without tags; otherwise the first three names joined by ", ", and " (+k)" appended iff there are more than three |
| Admin.TagsListSuffix | finance/admin.py:264-265 | with more than three tags the text ends with " (+k)" where k is the count minus 3 |
| Admin.TagsListShown | finance/admin.py:260-263 | the names shown are the first three tags in tag-name order |
| Admin.IsActive | finance/admin.py:334-342 | None iff there is no start date; otherwise true iff start ≤ today and (no end or today ≤ end) |
| Admin.DaysLeft | finance/admin.py:345-356 | "—" without a start, "Бессрочный" without an end, "Завершен" when the end is past, and otherwise "n дн." with n = end − today ≥ 0 |
| Admin.DaysLeftAgreesWithIsActive | finance/admin.py:334-356 | "Завершен" means not active; an open-ended budget is active iff it has started; with days left it is active iff it has started; the last day shows "0 дн." |
| Admin.BudgetReadonlyFields | finance/admin.py:287-291 | nothing is read-only on create; `is_active` and `days_left` are read-only when editing |
| Admin.BudgetFieldsets | finance/admin.py:293-316 | three sections when editing and two on create |
| Admin.BudgetStatusOnlyWhenEditing | finance/admin.py:287-316 | the status fields appear iff editing, every read-only field is shown, and the create form is the edit form without its status section |
| Api.IncomeCategories | finance/api.py:42-46 | exactly the categories of kind income |
| Api.ExpenseCategories | finance/api.py:48-53 | exactly the categories of kind expense |
| Api.CategoryListsPartition | finance/api.py:42-53 | the income and expense lists together are the whole category table, with nothing twice |
| Api.CreateAccount | finance/api.py:92-94 | the new account is bound to the requesting user and heads that user's list, as the newest under Account's `-created_date` order; other users' lists are unchanged |
| Api.CreateBudget | finance/api.py:205-207 | the new budget is bound to the requesting user and joins the table once; a table in Budget's `-start_date` order stays in it, and the user's list is the old list with the budget inserted by start date; other users' lists are unchanged |
| Api.CreateStock | finance/api.py:240-242 | the new stock is bound to the requesting user and appears at the end of that user's list; other users' lists are unchanged |
| Api.CreateTag | finance/api.py:71-73 | a new tag is refused iff the user already has that name; otherwise it is bound to the user and only that user's list grows |
| Api.TotalBalance | finance/api.py:97-115 | the total is the sum of the user's balances (0 without accounts), the count is the number of the user's accounts, and the map has one key per currency the user holds, each the sum of that currency's balances; the map's totals add up to the total |
| Api.Recent | finance/api.py:139-143 | at most 10 of the user's transactions, newest first, and none left out that is newer than one shown |
| Api.Window | finance/api.py:149-151 | exactly the user's transactions dated at or after now − days |
| Api.Statistics | finance/api.py:146-167 | days defaults to 30; income and expense are the sums over the window of the income and expense amounts (0 when there are none); net = income − expense, which is the signed sum; the count is the window's size |
| Api.StatisticsCountGrows | finance/api.py:148-151 | a longer period never counts fewer transactions |
| Api.DuplicateOf | finance/api.py:174-183 | the copy keeps account, category, amount, type, recurring flag and tags, is dated now, and its description is "[Копия] " + the original |
| Api.Lookup | finance/api.py:172 | `get_object` finds a transaction with that id among the user's own, or there is none |
| Api.WindowGainsNewRow | finance/api.py:149-151 | a row of the user dated now enters every non-negative window, at its end |
| Api.StatisticsAfterDuplicate | finance/api.py:170-186 | after a duplication the statistics count one more transaction, and the copied amount is added to the total of its type |
| Api.TransactionTable.Duplicate | finance/api.py:170-186 | "Not found." and no change when the user has no such transaction; otherwise the copy is appended under a fresh id and returned, and only that user's view gains the row |
| Api.ActiveBudgets | finance/api.py:210-221 | exactly the user's budgets that are active today |
| Views.OverallBalance | finance/views.py:22-24 | 0 without accounts; the sum of all balances, which is what the per-currency totals add up to |
| Views.TopExpenseCategories | finance/views.py:39-43 | at most 5 expense categories, by transaction count descending, none left out with a higher count |
| Views.RecentTransactions | finance/views.py:50-52 | at most 10 transactions, newest first, none newer left out |
| Views.PopularAccounts | finance/views.py:58-60 | at most 5 accounts, largest balance first, none richer left out |
| Views.HomeActiveBudgets | finance/views.py:65-69 | the first min(5, n) of the n budgets active today, in table order; all of them when n ≤ 5; in Budget's `-start_date` order, the 5 latest-started active budgets |
| Views.InvestmentAccounts | finance/views.py:135-137 | the investment accounts, each as often as in the table, largest balance first |
| Views.MonthlyIncome | finance/views.py:72-80 | the sum over all transactions of the amount of each income dated in the last 30 days, anything else counting 0; 0 without transactions; positive when amounts are positive and one qualifies |
| Views.MonthlyExpense | finance/views.py:72-91 | the sum of expense amounts in the last 30 days, without the uncategorised ones: adding those back gives all the month's expense |
| Views.SortedThenNulls | finance/views.py:154 | totals in descending order followed by categories without a total are in the order `-total_amount` gives |
| Views.Annotate | finance/views.py:150-153 | a category's row carries its number of transactions and the sum of their amounts over the table, the sum NULL exactly when there are none |
| Views.StatsAnnotated | finance/views.py:149-161 | each annotated row is a category of the requested kind with its transaction count and amount sum |
| Views.OrderByTotal | finance/views.py:154 | reorders the rows (a permutation) so that totals descend and missing totals come last |
| Views.CategoryTotals | finance/views.py:149-161 | one row per category of the kind, with the count and sum of its transactions (no sum when none), ordered by total descending with missing totals last |
| Views.Search | finance/views.py:176-189 | no results for an empty query; otherwise at most 20 matching transactions (description, category name or account name contains the query ignoring case), newest first, none newer left out, without repeats |
| Resources.AccountExport | finance/resources.py:27 | exactly the accounts with balance > 0 |
| Resources.ExportAccountName | finance/resources.py:34 | "[type label] name" |
| Resources.ExportAccountNameInjective | finance/resources.py:34 | the cell determines the account type and the name |
| Resources.LabelEndsAtBracket | finance/resources.py:34 | the first `]` of the cell closes the type label |
| Resources.ExportBalance | finance/resources.py:41 | exactly "amount mark": the amount, one space and the mark, the mark being the symbol or else the code; it starts with "-" iff the balance is negative |
| Resources.ExportBalanceInjective | finance/resources.py:41 | the cell determines the balance and the currency mark |
| Resources.AmountEndsAtSpace | finance/resources.py:41 | the first space of the cell ends the amount |
| Resources.ExportedBalancesUnsigned | finance/resources.py:27-41 | no exported balance cell starts with "-" |
| Resources.TransactionExport | finance/resources.py:68-71 | exactly the transactions dated at or after now − 90 days |
| Resources.ExportCoversShorterWindows | finance/resources.py:68-71 | every transaction in a window of at most 90 days is exported |
| Resources.ExportTransactionDate | finance/resources.py:77 | "DD.MM.YYYY HH:MM": two-digit day, ".", two-digit month, ".", the year, a space, two-digit hour, ":" and two-digit minute |
| Resources.ExportTransactionDateInjective | finance/resources.py:77 | the cell determines the date, hour and minute |
| Resources.ExportAmount | finance/resources.py:83-87 | "+amount" for income, "-amount" for expense, the plain amount for transfers; it starts with "+" iff income |
| Resources.ExportAmountInjective | finance/resources.py:83-87 | for positive amounts the cell determines the type and the amount |
| Resources.BudgetExport | finance/resources.py:112-115 | exactly the budgets active today |
| Resources.ExportBudgetName | finance/resources.py:121 | "name (period label)" |
| Resources.LabelStartsAtParenthesis | finance/resources.py:121 | the last `(` of the cell opens the period label |
| Resources.ExportBudgetNameInjective | finance/resources.py:121 | the cell determines the name and the period |
| Resources.ExportStartDate | finance/resources.py:127 | "DD.MM.YYYY" of the start date: two-digit day, ".", two-digit month, ".", the year; nothing when there is no start date |
| Resources.ExportStartDateInjective | finance/resources.py:127 | the cell determines the start date |
| Services.UsdtPairs | finance/services.py:44-48 | a ticker without a symbol aborts the run; otherwise exactly the tickers ending in "USDT" that contain none of DOWN, UP, BEAR, BULL |
| Services.RankPairs | finance/services.py:51-55 | an unreadable volume aborts the run; otherwise volume descending, and for a limit ≥ 0 at most `limit` with none of higher volume left out; a negative limit drops that many from the end, keeping the top |pairs| + limit by volume |
| Services.PriceFormatFor | finance/services.py:128-135 | grouping iff price ≥ 1000; 2 decimals iff ≥ 1, 4 iff in [0.01, 1), 8 iff below 0.01 |
| Services.PriceDecimalsShrink | finance/services.py:128-135 | a higher price never gets more decimals |
| Services.VolumeFormatFor | finance/services.py:148-153 | B with volume/1e9 from 1e9, M with volume/1e6 from 1e6, otherwise K with volume/1e3 |
| Services.VolumeScaledRange | finance/services.py:148-153 | the M and B figures are at least 1, the K and M figures are below 1000, and the figure is non-negative for a non-negative volume |
| Services.CryptoName | finance/services.py:98-115 | the table entry for a listed symbol and the symbol itself otherwise |
| Services.CryptoNameTable | finance/services.py:98-115 | the 15 listed names, and an unlisted symbol maps to itself |
| Services.BuildRow | finance/services.py:59-73 | a record exists iff price, change and volume are all numbers; it carries the stripped symbol, its name, the three numbers and their format tiers |
| Services.BuildRecords | finance/services.py:58-73 | the loop yields one record per ranked ticker, in order, and None as soon as any ticker has an unreadable field |
| Services.RecordsFollowPairs | finance/services.py:58-73 | record i carries ticker i's volume and its symbol with "USDT" removed |
| Services.RowsPresent | finance/services.py:58-73 | tickers whose fields are all readable each give a record |
| Services.Ranked | finance/services.py:44-55 | the ranked tickers are kept tickers from the data |
| Services.TopCryptosOrdered | finance/services.py:51-73 | the records come in descending volume order, at most `limit` of them |
| Services.TopCryptosFromData | finance/services.py:44-73 | record i is made from ranked ticker i, a kept ticker of the data, and shows its symbol with "USDT" removed |
| Services.WellFormedDataFillsLimit | finance/services.py:44-73 | with well-formed data there are min(limit, number of kept tickers) records |
| Services.TopCryptos | finance/services.py:33-85 | the loop appending records yields the specified list, and [] when the data is unusable |
| Services.StripQuoteOfPair | finance/services.py:60 | removing "USDT" from base + "USDT" gives the base back when the base has no "USDT" in it |
| Services.CacheKey | finance/services.py:26 | the key is "binance_top_cryptos_" followed by the decimal digits of the limit (after a "-" for a negative limit) |
| Services.CacheKeyInjective | finance/services.py:26 | different limits have different cache keys |
| FinanceTags.UserBalance | finance/templatetags/finance_tags.py:35-41 | "0.00" for an anonymous viewer or one without accounts; otherwise the sum of the viewer's balances to 2 decimals |
| FinanceTags.UserBalanceDeterminesTotal | finance/templatetags/finance_tags.py:35-41 | equal texts mean equal totals |
| FinanceTags.UserTransactionsCount | finance/templatetags/finance_tags.py:50-56 | 0 for an anonymous viewer; with a type, the viewer's transactions of that type; without one, all of the viewer's transactions |
| FinanceTags.TypedCountsAddUp | finance/templatetags/finance_tags.py:50-56 | the income, expense and transfer counts add up to the untyped count |
| FinanceTags.ThreeTypesSplit | finance/models.py:241-249 | every transaction has exactly one of the three types |
| FinanceTags.UnknownTypeCountsNothing | finance/templatetags/finance_tags.py:53-55 | a type that is not a choice counts nothing |
| FinanceTags.ShowRecentTransactions | finance/templatetags/finance_tags.py:66-79 | empty for an anonymous viewer; otherwise at most `limit` of the viewer's own, newest first, none newer left out; a negative limit is refused |
| FinanceTags.ShowActiveBudgets | finance/templatetags/finance_tags.py:88-104 | empty for an anonymous viewer; otherwise the first min(limit, n) of the viewer's n budgets active today, in table order, all of them when they fit, and in Budget's `-start_date` order the latest-started; a negative limit is refused |
| FinanceTags.DefaultLimitLists | finance/templatetags/finance_tags.py:61-83 | with the default limit of 5 a signed-in viewer gets both lists: min(5, n) of their n transactions, and at most 5 budgets |
| FinanceTags.CurrencySymbol | finance/templatetags/finance_tags.py:114 | the value followed by " ₽" |
| FinanceTags.CurrencySymbolInjective | finance/templatetags/finance_tags.py:114 | different values give different texts |
| FinanceTags.TransactionIcon | finance/templatetags/finance_tags.py:123-128 | 📈 for income, 📉 for expense, 🔄 for transfer, 💰 for anything else |
| FinanceTags.TransactionIconDistinguishesTypes | finance/templatetags/finance_tags.py:123-128 | the three types have three different icons, none of them the default |
| Agreement.ActiveBudgetRulesAgree | finance/admin.py:337-342 | the API's `active`, the budget export, the home page list and the template tag keep only budgets the admin's `is_active` calls active; the API and the export keep all of them, and so do the two capped lists when the budgets fit |
| Agreement.MonthlyIncomeIsDefaultStatistics | finance/views.py:72-80 | the home page's monthly income, computed over a user's transactions, is that user's `total_income` for the 30-day default statistics |
| Agreement.AdminCountIsTagCount | finance/admin.py:43-44 | the admin's per-account transaction count agrees with the untyped `user_transactions_count` tag |
| Calendar.FormatDate | finance/resources.py:127 | two-digit day, ".", two-digit month, ".", then the year |
| Calendar.FormatDateTime | finance/resources.py:77 | the date text, a space, two-digit hour, ":" and two-digit minute |
| Calendar.FormatDateInjective | finance/resources.py:127 | different dates are written differently |
| Calendar.WindowWidens | finance/resources.py:68-71 | a transaction inside an n-day window is inside every longer one |

## Left out

- Models.InsertTag, Api.CreateTag, Api.CreateStock and Api.TransactionTable.Duplicate append the new row at the end of its table. The database lists tags by `tag_name` and transactions by `-transaction_date`, so a table these members produce need not be in `Meta.ordering` order. No member reads the order of the tag, stock or transaction tables, so no other contract depends on it.
- The balance-history and category-comparison aggregator, routed at finance/urls.py:43, is not part of this model. Its view is not defined in finance/views.py.
- `StockViewSet.portfolio_summary` and `StockSerializer.get_total_investment` are not modelled. They use `Stock.total_investment`, and finance/models.py does not define `Stock`. A `Stock` here has only an owner, a ticker, a quantity and a price.
- The network request, the cache read and write, the `print` calls and the exception text in `BinanceService.get_top_cryptos` are not modelled. Tickers are a parameter. Any failure the code catches yields `[]`.
- The JSON response wrapping of `get_crypto_data` (finance/views.py:199-219) and its `int()` parsing of `limit` are left out. The limit is an integer parameter of `Services.TopCryptos`.
- Float values are not modelled: `float()` conversions in responses, the rendering of floats, and `multiply`. Amounts are exact cents; ticker figures are reals.
- Services.PriceFormatFor: models only the tier (decimals and grouping), not the rendered `f"{price:,.2f}"` text.
- Services.VolumeFormatFor: models only the tier (suffix and scaled value), not the rendered text.
- `current_time` reads the clock and renders an arbitrary format. It is left out.
- HTML output is left out: `format_html`, `color_preview`, `receipt_preview` and template rendering. Admin.AmountDisplay states the colour and the text, not the markup.
- ORM mechanics (`select_related`, `prefetch_related`, query counts) change no result and are left out. `count()` is a sequence length.
- Timezones are left out. Dates and datetimes are naive; `now` and `today` are parameters.
- Api.Statistics: the `days` query parameter arrives as an integer. The failure of `int()` on text and the overflow of `timedelta` for huge values are not modelled.
- Ties under `order_by` take the table order, because the sort is stable; the database leaves tie order unspecified.
- Views.Search: case-insensitive matching folds ASCII letters only, as SQLite's LIKE does. Other databases fold more letters.
- Calendar.DateTime: a date-time stops at whole seconds, while `transaction_date` and `timezone.now()` carry microseconds. The window tests of Api.Window, Api.Statistics, Views.MonthlyIncome, Views.MonthlyExpense and Resources.TransactionExport are therefore exact to the second only: a transaction in the same second as now − days, but earlier within that second, counts in the model and not in the source.
- Admin.TagsList: tag names are ordered by code point, as SQLite's default BINARY collation orders `tag_name`. A database with a locale collation (PostgreSQL's default) can order them differently and so show a different first three.
- Views.CategoryTotals: categories without transactions sort last, as SQLite and MySQL put NULL last under a descending order. PostgreSQL puts NULL first under a descending order, so there these categories come first.
- The `accounts_count` and `transactions_count` figures on the home page are table sizes and are not modelled separately.
- Only `Category.__str__` is modelled among the `__str__` methods.
- `finance/forms.py`, the URL configuration and `populate_test_data` are not part of this model.
- Resources.ExportStartDate: returns nothing for a budget without a start date. The source would raise there, but the field is required in the database.
- Calendar.FormatDate: the year is written unpadded, as the C library of Linux writes `%Y`; platforms that pad years below 1000 to four digits are not modelled.
- Models.Budget: the start date is optional because the admin's `is_active` and `days_left` handle an unsaved budget without one. Saved budgets always have one.
- Api.TransactionTable.Duplicate: the new id is the table's next id counter, standing in for the database's auto-increment key.
