/** The REST API's view sets: the income and expense category lists, rows
    scoped to and created for the requesting user, the user's total balance
    with its per-currency breakdown, the ten newest transactions, the
    trailing-window statistics, duplicating a transaction, and the budgets
    active today. The requesting user is the parameter `userId`; the clock
    is the parameter `now` or `today`. */
module Api {
  import opened Wrappers
  import opened Strings
  import opened Calendar
  import opened Seqs
  import opened Models
  import opened Balances

  // ---- CategoryViewSet.income / .expense

  /** `income`: the categories of type income, in table order. */
  function IncomeCategories(categories: seq<Category>): (r: seq<Category>)
    ensures forall c :: c in r <==> c in categories && c.kind == IncomeCategory
  {
    Filter(categories, CategoryOfKind(IncomeCategory))
  }

  /** `expense`: the categories of type expense, in table order. */
  function ExpenseCategories(categories: seq<Category>): (r: seq<Category>)
    ensures forall c :: c in r <==> c in categories && c.kind == ExpenseCategory
  {
    Filter(categories, CategoryOfKind(ExpenseCategory))
  }

  /** Every category is listed by exactly one of the two actions: together
      they are the whole table, each row once. */
  lemma CategoryListsPartition(categories: seq<Category>)
    ensures multiset(IncomeCategories(categories)) + multiset(ExpenseCategories(categories)) == multiset(categories)
    ensures |IncomeCategories(categories)| + |ExpenseCategories(categories)| == |categories|
  {
    FilterComplement(categories, CategoryOfKind(IncomeCategory), CategoryOfKind(ExpenseCategory));
  }

  // ---- perform_create: the saved row belongs to the requesting user

  /** `AccountViewSet.perform_create`: the account is saved for the
      requesting user whatever owner the payload named, and in no other
      user's list. Accounts are listed newest first (`-created_date`), and
      the new row's `created_date` is the current time, so it heads the
      table and its owner's list. */
  function CreateAccount(accounts: seq<Account>, a: Account, userId: int): (r: seq<Account>)
    ensures AccountsOf(r, userId) == [a.(userId := userId)] + AccountsOf(accounts, userId)
    ensures forall v :: v != userId ==> AccountsOf(r, v) == AccountsOf(accounts, v)
  {
    var row := a.(userId := userId);
    var r := [row] + accounts;
    assert r[1..] == accounts;
    r
  }

  /** `BudgetViewSet.perform_create`: the budget is saved for the requesting
      user. Budgets are listed by `-start_date`, so the new row takes its
      place by start date, ahead of the rows that start no later; a table in
      that order stays in it. */
  function CreateBudget(budgets: seq<Budget>, b: Budget, userId: int): (r: seq<Budget>)
    ensures multiset(r) == multiset(budgets) + multiset{b.(userId := userId)}
    ensures InBudgetOrder(budgets) ==> InBudgetOrder(r)
    ensures InBudgetOrder(budgets) ==>
              BudgetsOf(r, userId) == InsertDesc(b.(userId := userId), BudgetsOf(budgets, userId), StartKey)
    ensures forall v :: v != userId ==> BudgetsOf(r, v) == BudgetsOf(budgets, v)
  {
    var row := b.(userId := userId);
    var r := InsertDesc(row, budgets, StartKey);
    InsertedRowScoped(budgets, row, StartKey, BudgetOwnedBy, userId);
    r
  }

  /** `StockViewSet.perform_create`. */
  function CreateStock(stocks: seq<Stock>, s: Stock, userId: int): (r: seq<Stock>)
    ensures StocksOf(r, userId) == StocksOf(stocks, userId) + [s.(userId := userId)]
    ensures forall v :: v != userId ==> StocksOf(r, v) == StocksOf(stocks, v)
  {
    var row := s.(userId := userId);
    AddedRowScoped(stocks, row, StockOwnedBy, userId);
    stocks + [row]
  }

  /** `TagViewSet.perform_create`: as for accounts, except that the
      (user, name) uniqueness constraint refuses a second tag of the same
      name for the same user (None). */
  function CreateTag(tags: seq<Tag>, t: Tag, userId: int): (r: Option<seq<Tag>>)
    ensures r.Some? <==> forall u :: u in TagsOf(tags, userId) ==> u.name != t.name
    ensures r.Some? ==> TagsOf(r.value, userId) == TagsOf(tags, userId) + [t.(userId := userId)]
    ensures r.Some? ==> forall v :: v != userId ==> TagsOf(r.value, v) == TagsOf(tags, v)
    ensures TagNamesUnique(tags) && r.Some? ==> TagNamesUnique(r.value)
  {
    var row := t.(userId := userId);
    var r := InsertTag(tags, row);
    if r.Some? then
      AddedRowScoped(tags, row, TagOwnedBy, userId);
      r
    else r
  }

  // ---- AccountViewSet.total_balance

  /** `total_balance`: the sum of the user's balances (zero without
      accounts), the number of accounts, and the per-currency dictionary
      built by the loop. The dictionary's totals add up to the overall
      total. Amounts are exact cents here; the source converts them to
      floating point for the response. */
  method TotalBalance(accounts: seq<Account>, userId: int) returns (total: int, count: nat, byCurrency: map<string, int>)
    ensures total == BalanceSum(AccountsOf(accounts, userId))
    ensures count == |AccountsOf(accounts, userId)|
    ensures byCurrency == ByCurrency(AccountsOf(accounts, userId))
    ensures forall c :: c in byCurrency <==> exists a :: a in accounts && a.userId == userId && a.currency.code == c
    ensures forall c :: c in byCurrency ==> byCurrency[c] == CurrencyTotal(AccountsOf(accounts, userId), c)
    ensures SumTotals(CurrencyCodes(AccountsOf(accounts, userId)), AccountsOf(accounts, userId)) == total
  {
    var userAccounts := AccountsOf(accounts, userId);
    total := BalanceSum(userAccounts);
    var codes;
    codes, byCurrency := GroupByCurrency(userAccounts);
    count := |userAccounts|;
    ByCurrencyTotals(userAccounts);
    CurrencyTotalsAddUp(userAccounts);
  }

  // ---- TransactionViewSet.recent

  /** `recent`: the user's ten newest transactions, newest first. */
  function Recent(txs: seq<Transaction>, userId: int): (r: seq<Transaction>)
    ensures IsTopN(r, TransactionsOf(txs, userId), DateKey, 10)
    ensures forall t :: t in r ==> t in txs && t.account.userId == userId
  {
    var own := TransactionsOf(txs, userId);
    var r := TopN(own, DateKey, 10);
    assert forall t :: t in r ==> t in multiset(r);
    r
  }

  // ---- TransactionViewSet.statistics

  datatype Stats = Stats(periodDays: int, income: int, expense: int, net: int, count: nat)

  const DefaultPeriodDays: int := 30

  /** The user's transactions dated no earlier than `days` days before
      `now`. */
  function Window(txs: seq<Transaction>, userId: int, now: CivilDateTime, days: int): (r: seq<Transaction>)
    ensures forall t :: t in r <==> t in txs && t.account.userId == userId && WithinLastDays(t.date, now, days)
  {
    Filter(TransactionsOf(txs, userId), SinceDays(now, days))
  }

  /** A transaction's contribution to the income total, to the expense
      total, and to their difference. */
  function IncomePart(t: Transaction): int
  {
    if t.kind == Income then t.amount else 0
  }

  function ExpensePart(t: Transaction): int
  {
    if t.kind == Expense then t.amount else 0
  }

  function SignedAmount(t: Transaction): int
  {
    match t.kind
    case Income => t.amount
    case Expense => -t.amount
    case Transfer => 0
  }

  /** `statistics`: over the window (30 days unless the `days` parameter
      says otherwise) the income total, the expense total, their difference
      and the number of transactions of any type. Each total is the window's
      amounts of that type with every other row counting zero, and the net
      is the window's signed sum, transfers counting zero. */
  function Statistics(txs: seq<Transaction>, userId: int, days: Option<int>, now: CivilDateTime): (s: Stats)
    ensures s.periodDays == if days.Some? then days.value else DefaultPeriodDays
    ensures s.income == SumOf(Window(txs, userId, now, s.periodDays), IncomePart)
    ensures s.expense == SumOf(Window(txs, userId, now, s.periodDays), ExpensePart)
    ensures s.net == s.income - s.expense
    ensures s.net == SumOf(Window(txs, userId, now, s.periodDays), SignedAmount)
    ensures s.count == |Window(txs, userId, now, s.periodDays)|
  {
    var n := if days.Some? then days.value else DefaultPeriodDays;
    var window := Window(txs, userId, now, n);
    var income := SumOf(Filter(window, OfKind(Income)), Amount);
    var expense := SumOf(Filter(window, OfKind(Expense)), Amount);
    SumOfFilter(window, OfKind(Income), Amount, IncomePart);
    SumOfFilter(window, OfKind(Expense), Amount, ExpensePart);
    SumOfDifference(window, IncomePart, ExpensePart, SignedAmount);
    Stats(n, income, expense, income - expense, |window|)
  }

  /** A longer period counts at least as many transactions. */
  lemma StatisticsCountGrows(txs: seq<Transaction>, userId: int, now: CivilDateTime, d1: int, d2: int)
    requires d1 <= d2
    ensures Statistics(txs, userId, Some(d1), now).count <= Statistics(txs, userId, Some(d2), now).count
  {
    var own := TransactionsOf(txs, userId);
    forall t | t in own && SinceDays(now, d1)(t)
      ensures SinceDays(now, d2)(t)
    {
      WindowWidens(t.date, now, d1, d2);
    }
    FilterWeaker(own, SinceDays(now, d1), SinceDays(now, d2));
  }

  // ---- TransactionViewSet.duplicate

  /** The row `duplicate` creates from `t`: same account, category, amount,
      type, recurrence flag and tags, the description marked as a copy, a
      new id, and the creation time as its date. */
  function DuplicateOf(t: Transaction, newId: int, now: CivilDateTime): (c: Transaction)
    ensures c.id == newId && c.date == now
    ensures c.account == t.account && c.category == t.category && c.amount == t.amount
    ensures c.kind == t.kind && c.isRecurring == t.isRecurring && c.tags == t.tags
    ensures StartsWith(c.description, CopyMark) && EndsWith(c.description, t.description)
    ensures |c.description| == |CopyMark| + |t.description|
  {
    t.(id := newId, date := now, description := CopyMark + t.description)
  }

  const CopyMark: string := "[Копия] "

  /** `get_object()` through the user's queryset: the user's transaction
      with that id, if there is one. */
  function Lookup(txs: seq<Transaction>, userId: int, id: int): (r: Option<Transaction>)
    ensures r.Some? ==> r.value in txs && r.value.id == id && r.value.account.userId == userId
    ensures r.None? ==> forall t :: t in txs && t.account.userId == userId ==> t.id != id
    decreases |txs|
  {
    if txs == [] then None
    else if txs[0].id == id && txs[0].account.userId == userId then Some(txs[0])
    else
      var r := Lookup(txs[1..], userId, id);
      assert forall t :: t in txs && t != txs[0] ==> t in txs[1..];
      r
  }

  /** A row of the user's dated `now` joins the end of every window of a
      non-negative length ending at `now`. */
  lemma WindowGainsNewRow(txs: seq<Transaction>, userId: int, c: Transaction, now: CivilDateTime, days: int)
    requires c.account.userId == userId && c.date == now && days >= 0
    ensures Window(txs + [c], userId, now, days) == Window(txs, userId, now, days) + [c]
  {
    var own := TransactionsOf(txs, userId);
    FilterSnoc(txs, c, TransactionOwnedBy(userId));
    assert TransactionsOf(txs + [c], userId) == own + [c];
    assert SinceDays(now, days)(c);
    FilterSnoc(own, c, SinceDays(now, days));
  }

  /** A copy made now counts in the user's statistics for any period: one
      more transaction, and its amount added to the total of its type. */
  lemma StatisticsAfterDuplicate(txs: seq<Transaction>, userId: int, t: Transaction, newId: int,
                                 now: CivilDateTime, days: int)
    requires t.account.userId == userId && days >= 0
    ensures var before := Statistics(txs, userId, Some(days), now);
            var after := Statistics(txs + [DuplicateOf(t, newId, now)], userId, Some(days), now);
            && after.count == before.count + 1
            && after.income == before.income + IncomePart(t)
            && after.expense == before.expense + ExpensePart(t)
  {
    var c := DuplicateOf(t, newId, now);
    var w := Window(txs, userId, now, days);
    WindowGainsNewRow(txs, userId, c, now, days);
    SumConcat(w, [c], IncomePart);
    SumConcat(w, [c], ExpensePart);
    assert IncomePart(c) == IncomePart(t) && ExpensePart(c) == ExpensePart(t);
  }

  /** The transactions table `duplicate` adds to. Ids below `nextId` are
      taken, so the next row gets a fresh one. */
  class TransactionTable {
    var rows: seq<Transaction>
    var nextId: int

    predicate Valid()
      reads this
    {
      forall t :: t in rows ==> t.id < nextId
    }

    constructor (rows: seq<Transaction>, nextId: int)
      requires forall t :: t in rows ==> t.id < nextId
      ensures this.rows == rows && this.nextId == nextId && Valid()
    {
      this.rows := rows;
      this.nextId := nextId;
    }

    /** `duplicate`: a transaction the user cannot see is not found, and
        nothing changes; otherwise its copy is appended under a fresh id
        and returned. Only the user's own view gains a row. */
    method Duplicate(userId: int, id: int, now: CivilDateTime) returns (r: Result<Transaction, string>)
      requires Valid()
      modifies this
      ensures Valid()
      ensures Lookup(old(rows), userId, id).None? ==>
                r == Err(NotFound) && rows == old(rows) && nextId == old(nextId)
      ensures Lookup(old(rows), userId, id).Some? ==>
                && r == Ok(DuplicateOf(Lookup(old(rows), userId, id).value, old(nextId), now))
                && rows == old(rows) + [r.value]
                && nextId == old(nextId) + 1
      ensures r.Ok? ==> forall t :: t in old(rows) ==> t.id != r.value.id
      ensures r.Ok? ==> TransactionsOf(rows, userId) == TransactionsOf(old(rows), userId) + [r.value]
      ensures forall v :: v != userId ==> TransactionsOf(rows, v) == TransactionsOf(old(rows), v)
    {
      var found := Lookup(rows, userId, id);
      if found.None? {
        return Err(NotFound);
      }
      var copy := DuplicateOf(found.value, nextId, now);
      AddedRowScoped(rows, copy, TransactionOwnedBy, userId);
      rows := rows + [copy];
      nextId := nextId + 1;
      r := Ok(copy);
    }
  }

  /** The 404 of `get_object()`. */
  const NotFound: string := "Not found."

  // ---- BudgetViewSet.active

  /** `active`: the user's budgets under way today. */
  function ActiveBudgets(budgets: seq<Budget>, userId: int, today: CivilDate): (r: seq<Budget>)
    ensures forall b :: b in r <==> b in budgets && b.userId == userId && ActiveOn(b, today)
    ensures multiset(r) <= multiset(budgets)
  {
    ActiveWindowIsActiveOn(today);
    Filter(BudgetsOf(budgets, userId), ActiveWindow(today))
  }
}
