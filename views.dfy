/** The HTML views' queries over the whole database: the home page's
    overall balance, top expense categories, newest transactions, largest
    accounts, active budgets and the last 30 days' income and expense; the
    investment-account list; the per-category totals of the analytics page;
    and the transaction search. The clock is the parameter `now` (`today`
    being its date). */
module Views {
  import opened Wrappers
  import opened Strings
  import opened Calendar
  import opened Seqs
  import opened Models
  import opened Balances

  // ---- index: the overall balance

  /** `Account.objects.aggregate(Sum('balance'))['total'] or 0`: zero
      without accounts, and otherwise what the per-currency totals add up
      to: currencies are added together as plain numbers. */
  function OverallBalance(accounts: seq<Account>): (r: int)
    ensures accounts == [] ==> r == 0
    ensures r == SumTotals(CurrencyCodes(accounts), accounts)
  {
    CurrencyTotalsAddUp(accounts);
    BalanceSum(accounts)
  }

  // ---- index: the top-five lists

  /** `category=c`: the transactions filed under category `c`. */
  function InCategory(categoryId: int): Transaction -> bool
  {
    (t: Transaction) => t.category.Some? && t.category.value.id == categoryId
  }

  /** `Count('transactions')` as a ranking key. */
  function TransactionCountKey(txs: seq<Transaction>): Category -> real
  {
    (c: Category) => CountOf(txs, InCategory(c.id)) as real
  }

  /** `top_expense_categories`: at most five expense categories, those
      with the most transactions first. */
  function TopExpenseCategories(categories: seq<Category>, txs: seq<Transaction>): (r: seq<Category>)
    ensures IsTopN(r, Filter(categories, CategoryOfKind(ExpenseCategory)), TransactionCountKey(txs), 5)
    ensures forall c :: c in r ==> c in categories && c.kind == ExpenseCategory
  {
    var expense := Filter(categories, CategoryOfKind(ExpenseCategory));
    var r := TopN(expense, TransactionCountKey(txs), 5);
    KeptRowsFromSource(r, expense);
    r
  }

  /** `recent_transactions`: the ten newest transactions of all users. */
  function RecentTransactions(txs: seq<Transaction>): (r: seq<Transaction>)
    ensures IsTopN(r, txs, DateKey, 10)
  {
    TopN(txs, DateKey, 10)
  }

  function BalanceKey(a: Account): real
  {
    a.balance as real
  }

  /** `popular_accounts`: the five accounts with the largest balances. */
  function PopularAccounts(accounts: seq<Account>): (r: seq<Account>)
    ensures IsTopN(r, accounts, BalanceKey, 5)
  {
    TopN(accounts, BalanceKey, 5)
  }

  /** `active_budgets`: the first five budgets under way today, of any
      user, in table order; all of them when there are at most five. In the
      table's default order these are the five latest-started. */
  function HomeActiveBudgets(budgets: seq<Budget>, today: CivilDate): (r: seq<Budget>)
    ensures |r| <= 5
    ensures forall b :: b in r ==> b in budgets && ActiveOn(b, today)
    ensures CountOf(budgets, ActiveWindow(today)) <= 5 ==>
              forall b :: b in budgets && ActiveOn(b, today) ==> b in r
    ensures |r| == Min(5, CountOf(budgets, ActiveWindow(today)))
    ensures r == Filter(budgets, ActiveWindow(today))[..|r|]
    ensures InBudgetOrder(budgets) ==> IsTopN(r, Filter(budgets, ActiveWindow(today)), StartKey, 5)
  {
    ActiveWindowIsActiveOn(today);
    var active := Filter(budgets, ActiveWindow(today));
    if InBudgetOrder(budgets) then
      FilterSorted(budgets, ActiveWindow(today), StartKey);
      TakeOfSortedIsTop(active, StartKey, 5);
      Take(active, 5)
    else Take(active, 5)
  }

  /** `account_type='investment'`. */
  function IsInvestment(a: Account): bool
  {
    a.kind == Investment
  }

  /** `investments`: the investment accounts, largest balance first. */
  function InvestmentAccounts(accounts: seq<Account>): (r: seq<Account>)
    ensures forall a :: a in r <==> a in accounts && a.kind == Investment
    ensures multiset(r) == multiset(Filter(accounts, IsInvestment))
    ensures SortedDesc(r, BalanceKey)
  {
    var investment := Filter(accounts, IsInvestment);
    var r := SortDesc(investment, BalanceKey);
    assert forall a :: a in r <==> a in multiset(r);
    assert forall a :: a in investment <==> a in multiset(investment);
    r
  }

  // ---- index: the last 30 days

  const MonthDays: int := 30

  function IncomeSince(now: CivilDateTime): Transaction -> bool
  {
    (t: Transaction) => t.kind == Income && WithinLastDays(t.date, now, MonthDays)
  }

  function ExpenseSince(now: CivilDateTime): Transaction -> bool
  {
    (t: Transaction) => t.kind == Expense && WithinLastDays(t.date, now, MonthDays)
  }

  function CategorisedExpenseSince(now: CivilDateTime): Transaction -> bool
  {
    (t: Transaction) => t.kind == Expense && WithinLastDays(t.date, now, MonthDays) && t.category.Some?
  }

  function UncategorisedExpenseSince(now: CivilDateTime): Transaction -> bool
  {
    (t: Transaction) => t.kind == Expense && WithinLastDays(t.date, now, MonthDays) && t.category.None?
  }

  /** The income part of the last 30 days: an income dated in the window
      counts its amount, anything else zero. */
  function MonthIncomePart(now: CivilDateTime): Transaction -> int
  {
    (t: Transaction) => if t.kind == Income && WithinLastDays(t.date, now, MonthDays) then t.amount else 0
  }

  /** `monthly_income`: the income of the last 30 days, all users: every
      transaction of the table counted by its income part. */
  function MonthlyIncome(txs: seq<Transaction>, now: CivilDateTime): (r: int)
    ensures r == SumOf(txs, MonthIncomePart(now))
    ensures txs == [] ==> r == 0
    ensures (forall t :: t in txs ==> t.amount > 0) && (exists t :: t in txs && IncomeSince(now)(t)) ==> r > 0
  {
    SumOfFilter(txs, IncomeSince(now), Amount, MonthIncomePart(now));
    var income := Filter(txs, IncomeSince(now));
    assert (forall t :: t in txs ==> t.amount > 0) ==> income == [] || SumOf(income, Amount) > 0 by {
      if forall t :: t in txs ==> t.amount > 0 {
        PositiveSum(income, Amount);
      }
    }
    SumOf(income, Amount)
  }

  /** `monthly_expense`: the expense of the last 30 days, all users,
      leaving out expenses without a category. */
  function MonthlyExpense(txs: seq<Transaction>, now: CivilDateTime): (r: int)
    ensures txs == [] ==> r == 0
    ensures r + SumOf(Filter(txs, UncategorisedExpenseSince(now)), Amount) == SumOf(Filter(txs, ExpenseSince(now)), Amount)
  {
    SumOfFilterSplit(txs, ExpenseSince(now), CategorisedExpenseSince(now), UncategorisedExpenseSince(now), Amount);
    SumOf(Filter(txs, CategorisedExpenseSince(now)), Amount)
  }

  // ---- analytics: per-category totals

  /** A category annotated with `Sum('transactions__amount')`, which is
      NULL (None) for a category without transactions, and with
      `Count('transactions')`. */
  datatype CategoryStat = CategoryStat(category: Category, total: Option<int>, count: nat)

  /** A transaction's amount when it is filed under category `c`, and zero
      otherwise. */
  function AmountIn(categoryId: int): Transaction -> int
  {
    (t: Transaction) => if t.category.Some? && t.category.value.id == categoryId then t.amount else 0
  }

  /** The annotation of category `c`: the number of its transactions, and
      the sum of their amounts, NULL exactly when there are none. */
  function Annotate(txs: seq<Transaction>, c: Category): (r: CategoryStat)
    ensures r.category == c
    ensures r.count == CountOf(txs, InCategory(c.id))
    ensures r.total.None? <==> r.count == 0
    ensures r.total.Some? ==> r.total.value == SumOf(txs, AmountIn(c.id))
  {
    SumOfFilter(txs, InCategory(c.id), Amount, AmountIn(c.id));
    var rows := Filter(txs, InCategory(c.id));
    CategoryStat(c, if rows == [] then None else Some(SumOf(rows, Amount)), |rows|)
  }

  function StatOf(txs: seq<Transaction>): Category -> CategoryStat
  {
    (c: Category) => Annotate(txs, c)
  }

  /** What an annotated row says about its category: how many transactions
      it has, and their total, NULL exactly when there are none. */
  predicate Annotated(s: CategoryStat, txs: seq<Transaction>)
  {
    && s.count == CountOf(txs, InCategory(s.category.id))
    && (s.total.None? <==> s.count == 0)
    && (s.total.Some? ==> s.total.value == SumOf(Filter(txs, InCategory(s.category.id)), Amount))
  }

  function HasTotal(s: CategoryStat): bool
  {
    s.total.Some?
  }

  function NoTotal(s: CategoryStat): bool
  {
    s.total.None?
  }

  function TotalKey(s: CategoryStat): real
  {
    if s.total.Some? then s.total.value as real else 0.0
  }

  /** `order_by('-total_amount')` on the database: totals largest first,
      NULL totals after all of them. */
  predicate NullsLastDesc(r: seq<CategoryStat>)
  {
    forall i, j :: 0 <= i < j < |r| && r[j].total.Some? ==> r[i].total.Some? && r[i].total.value >= r[j].total.value
  }

  lemma SortedThenNulls(withTotal: seq<CategoryStat>, withoutTotal: seq<CategoryStat>)
    requires SortedDesc(withTotal, TotalKey)
    requires forall s :: s in withTotal ==> s.total.Some?
    requires forall s :: s in withoutTotal ==> s.total.None?
    ensures NullsLastDesc(withTotal + withoutTotal)
  {
    var r := withTotal + withoutTotal;
    forall i, j | 0 <= i < j < |r| && r[j].total.Some?
      ensures r[i].total.Some? && r[i].total.value >= r[j].total.value
    {
      assert r[i] == withTotal[i] && r[j] == withTotal[j];
      assert r[i] in withTotal && r[j] in withTotal;
    }
  }

  /** The annotated rows of the categories of a kind. */
  lemma StatsAnnotated(categories: seq<Category>, txs: seq<Transaction>, kind: CategoryType)
    ensures forall s :: s in Map(Filter(categories, CategoryOfKind(kind)), StatOf(txs)) ==>
              s.category in categories && s.category.kind == kind && Annotated(s, txs)
  {
    var cats := Filter(categories, CategoryOfKind(kind));
    var stats := Map(cats, StatOf(txs));
    forall s | s in stats
      ensures s.category in categories && s.category.kind == kind && Annotated(s, txs)
    {
      var i :| 0 <= i < |stats| && stats[i] == s;
      assert s == Annotate(txs, cats[i]);
      assert cats[i] in cats;
    }
  }

  /** `order_by('-total_amount')` applied to annotated rows. */
  function OrderByTotal(stats: seq<CategoryStat>): (r: seq<CategoryStat>)
    ensures multiset(r) == multiset(stats)
    ensures forall s :: s in r ==> s in stats
    ensures NullsLastDesc(r)
  {
    TotalsThenNulls(stats);
    SortDesc(Filter(stats, HasTotal), TotalKey) + Filter(stats, NoTotal)
  }

  /** The rows with a total, sorted, followed by the rows without one, are
      the rows reordered with NULL totals last. */
  lemma TotalsThenNulls(stats: seq<CategoryStat>)
    ensures var r := SortDesc(Filter(stats, HasTotal), TotalKey) + Filter(stats, NoTotal);
            && multiset(r) == multiset(stats)
            && (forall s :: s in r ==> s in stats)
            && NullsLastDesc(r)
  {
    var withTotal := SortDesc(Filter(stats, HasTotal), TotalKey);
    var withoutTotal := Filter(stats, NoTotal);
    var r := withTotal + withoutTotal;
    FilterComplement(stats, HasTotal, NoTotal);
    assert multiset(r) == multiset(withTotal) + multiset(withoutTotal);
    KeptRowsFromSource(r, stats);
    forall s | s in withTotal
      ensures s.total.Some?
    {
      assert s in multiset(Filter(stats, HasTotal));
      assert HasTotal(s);
    }
    forall s | s in withoutTotal
      ensures s.total.None?
    {
      assert NoTotal(s);
    }
    SortedThenNulls(withTotal, withoutTotal);
  }

  /** `expense_by_category` / `income_by_category`: every category of the
      kind once, annotated, the ones with transactions first by total
      amount largest first, then those without (the database puts NULL
      last in a descending order). */
  function CategoryTotals(categories: seq<Category>, txs: seq<Transaction>, kind: CategoryType): (r: seq<CategoryStat>)
    ensures multiset(r) == multiset(Map(Filter(categories, CategoryOfKind(kind)), StatOf(txs)))
    ensures forall s :: s in r ==> s.category in categories && s.category.kind == kind && Annotated(s, txs)
    ensures NullsLastDesc(r)
  {
    StatsAnnotated(categories, txs, kind);
    OrderByTotal(Map(Filter(categories, CategoryOfKind(kind)), StatOf(txs)))
  }

  // ---- search

  /** The search condition: the query occurs, ignoring ASCII case, in the
      description, the category's name or the account's name. */
  function Matches(query: string): Transaction -> bool
  {
    (t: Transaction) =>
      || IContains(t.description, query)
      || (t.category.Some? && IContains(t.category.value.name, query))
      || IContains(t.account.name, query)
  }

  const SearchLimit: nat := 20

  /** `search`: nothing for an empty query; otherwise at most twenty
      matching transactions, newest first, none twice. */
  function Search(txs: seq<Transaction>, query: string): (r: seq<Transaction>)
    ensures query == "" ==> r == []
    ensures query != "" ==> IsTopN(r, Filter(txs, Matches(query)), DateKey, SearchLimit)
    ensures forall t :: t in r ==> t in txs && Matches(query)(t)
    ensures NoDuplicates(txs) ==> NoDuplicates(r)
  {
    if query == "" then []
    else
      var found := Filter(txs, Matches(query));
      var r := TopN(found, DateKey, SearchLimit);
      assert forall t :: t in r ==> t in multiset(r);
      assert NoDuplicates(txs) ==> NoDuplicates(r) by {
        if NoDuplicates(txs) {
          SubMultisetNoDuplicates(txs, found);
          SubMultisetNoDuplicates(found, r);
        }
      }
      r
  }
}
