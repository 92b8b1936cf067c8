/** The finance app's records: users, currencies, categories, accounts,
    tags, transactions, budgets and stocks, with their choice fields, their
    defaults, the bounds of their decimal fields and the related-object
    lookups (`user.accounts`, `account__user`) the other modules filter by.
    A table is a sequence of rows in the order its default `ordering` gives. */
module Models {
  import opened Wrappers
  import opened Strings
  import opened Calendar
  import opened Seqs

  // ---- choice fields: the stored code and the display label of each choice

  datatype Subscription = Free | Premium | Business

  function SubscriptionCode(s: Subscription): string
  {
    match s
    case Free => "free"
    case Premium => "premium"
    case Business => "business"
  }

  function SubscriptionLabel(s: Subscription): string
  {
    match s
    case Free => "Бесплатная"
    case Premium => "Премиум"
    case Business => "Бизнес"
  }

  datatype CategoryType = IncomeCategory | ExpenseCategory

  function CategoryTypeCode(k: CategoryType): string
  {
    match k
    case IncomeCategory => "income"
    case ExpenseCategory => "expense"
  }

  datatype TransactionType = Income | Expense | Transfer

  function TransactionTypeCode(k: TransactionType): string
  {
    match k
    case Income => "income"
    case Expense => "expense"
    case Transfer => "transfer"
  }

  function TransactionTypeLabel(k: TransactionType): string
  {
    match k
    case Income => "Доход"
    case Expense => "Расход"
    case Transfer => "Перевод"
  }

  /** The choice a stored `transaction_type` string names, if any: every
      string names at most one kind, and each kind's own code names it. */
  function ParseTransactionType(code: string): (r: Option<TransactionType>)
    ensures r.Some? ==> TransactionTypeCode(r.value) == code
    ensures forall k :: TransactionTypeCode(k) == code ==> r == Some(k)
  {
    if code == "income" then Some(Income)
    else if code == "expense" then Some(Expense)
    else if code == "transfer" then Some(Transfer)
    else None
  }

  datatype AccountType = Cash | Card | Bank | Savings | Investment

  function AccountTypeCode(k: AccountType): string
  {
    match k
    case Cash => "cash"
    case Card => "card"
    case Bank => "bank"
    case Savings => "savings"
    case Investment => "investment"
  }

  function AccountTypeLabel(k: AccountType): (r: string)
    ensures ']' !in r
  {
    match k
    case Cash => "Наличные"
    case Card => "Карта"
    case Bank => "Банковский счет"
    case Savings => "Сберегательный счет"
    case Investment => "Инвестиционный счет"
  }

  datatype PeriodType = Daily | Weekly | Monthly | Yearly

  function PeriodTypeCode(k: PeriodType): string
  {
    match k
    case Daily => "daily"
    case Weekly => "weekly"
    case Monthly => "monthly"
    case Yearly => "yearly"
  }

  function PeriodTypeLabel(k: PeriodType): (r: string)
    ensures '(' !in r
  {
    match k
    case Daily => "Ежедневный"
    case Weekly => "Еженедельный"
    case Monthly => "Ежемесячный"
    case Yearly => "Ежегодный"
  }

  // ---- fixed-point amounts

  /** A `DecimalField(max_digits=15, decimal_places=2)` holds a whole number
      of cents whose magnitude is below 10^15. */
  const MoneyLimit: int := 1_000_000_000_000_000

  predicate FitsMoneyField(cents: int)
  {
    -MoneyLimit < cents < MoneyLimit
  }

  /** The bound is the field's digit budget: a value fits exactly when its
      whole part takes at most 13 digits, which with the 2 fractional digits
      makes 15. */
  lemma MoneyFieldDigits(cents: int)
    ensures FitsMoneyField(cents) <==> |NatToString(if cents < 0 then -cents / 100 else cents / 100)| <= 13
  {
    var m := if cents < 0 then -cents else cents;
    NatToStringLength(m / 100, 13);
    assert Pow10(13) == 10_000_000_000_000;
  }

  // ---- records

  datatype User = User(id: int, email: string, firstName: string, lastName: string,
                       subscription: Subscription, isActive: bool)

  /** A user as first saved: every field the form leaves out takes its
      default, a free subscription and an active account. */
  function NewUser(id: int, email: string, firstName: string, lastName: string): (u: User)
    ensures u.subscription == Free && SubscriptionCode(u.subscription) == "free"
    ensures u.isActive
    ensures u.id == id && u.email == email && u.firstName == firstName && u.lastName == lastName
  {
    User(id, email, firstName, lastName, Free, true)
  }

  datatype Currency = Currency(code: string, name: string, symbol: string)

  datatype Category = Category(id: int, name: string, kind: CategoryType, parent: Option<Category>)

  /** `str(category)`: "Parent → Name" under a parent, the bare name
      otherwise. */
  function CategoryLabel(c: Category): (r: string)
    ensures EndsWith(r, c.name)
    ensures c.parent.None? ==> r == c.name
    ensures c.parent.Some? ==>
              StartsWith(r, c.parent.value.name + " \U{2192} ") && |r| == |c.parent.value.name| + 3 + |c.name|
  {
    match c.parent
    case None => c.name
    case Some(p) => p.name + " \U{2192} " + c.name
  }

  datatype Account = Account(id: int, userId: int, name: string, kind: AccountType,
                             currency: Currency, balance: int)

  /** An account as first saved: its balance defaults to zero. */
  function NewAccount(id: int, userId: int, name: string, kind: AccountType, currency: Currency): (a: Account)
    ensures a.balance == 0 && FitsMoneyField(a.balance)
    ensures a.id == id && a.userId == userId && a.name == name && a.kind == kind && a.currency == currency
  {
    Account(id, userId, name, kind, currency, 0)
  }

  datatype Tag = Tag(id: int, userId: int, name: string)

  datatype Transaction = Transaction(id: int, account: Account, category: Option<Category>,
                                     amount: int, kind: TransactionType, date: CivilDateTime,
                                     description: string, isRecurring: bool, tags: seq<Tag>)

  datatype Budget = Budget(id: int, userId: int, name: string, amount: int, period: PeriodType,
                           start: Option<CivilDate>, end: Option<CivilDate>, category: Option<Category>)

  datatype Stock = Stock(id: int, userId: int, ticker: string, quantity: real, purchasePrice: real)

  // ---- the (user, tag name) uniqueness constraint

  predicate TagNamesUnique(tags: seq<Tag>)
  {
    forall i, j :: 0 <= i < j < |tags| ==> tags[i].userId != tags[j].userId || tags[i].name != tags[j].name
  }

  /** Saving a new tag: refused (None) exactly when the user already has a
      tag of that name; otherwise the row is added and the table keeps the
      constraint. */
  function InsertTag(tags: seq<Tag>, t: Tag): (r: Option<seq<Tag>>)
    ensures r.Some? <==> forall u :: u in tags ==> u.userId != t.userId || u.name != t.name
    ensures r.Some? ==> r.value == tags + [t]
    ensures TagNamesUnique(tags) && r.Some? ==> TagNamesUnique(r.value)
  {
    if exists u :: u in tags && u.userId == t.userId && u.name == t.name then None
    else
      assert forall i :: 0 <= i < |tags| ==> tags[i] in tags;
      Some(tags + [t])
  }

  /** `category_type=kind`. */
  function CategoryOfKind(kind: CategoryType): Category -> bool
  {
    (c: Category) => c.kind == kind
  }

  // ---- transaction fields used as sort keys, sums and filters

  /** `transaction_date` as the numeric key of `order_by('-transaction_date')`. */
  function DateKey(t: Transaction): real
  {
    Timestamp(t.date) as real
  }

  function Amount(t: Transaction): int
  {
    t.amount
  }

  /** `transaction_type=kind`. */
  function OfKind(kind: TransactionType): Transaction -> bool
  {
    (t: Transaction) => t.kind == kind
  }

  /** `transaction_date__gte=now - timedelta(days=n)`. */
  function SinceDays(now: CivilDateTime, n: int): Transaction -> bool
  {
    (t: Transaction) => WithinLastDays(t.date, now, n)
  }

  /** Budget's default ordering `-start_date` as a ranking key: the later
      the start, the higher the key. The table does not admit a budget
      without a start date; such a row ranks lowest. */
  function StartKey(b: Budget): real
  {
    if b.start.Some? then Ordinal(b.start.value) as real else 0.0
  }

  /** The budget table in its default order: latest start first. */
  predicate InBudgetOrder(budgets: seq<Budget>)
  {
    SortedDesc(budgets, StartKey)
  }

  // ---- the active-budget rule

  /** The reference rule for a budget being active on `today`: it has a
      start date no later than today, and either no end date or an end date
      no earlier than today. */
  predicate ActiveOn(b: Budget, today: Date)
  {
    b.start.Some? && DateLeq(b.start.value, today) && (b.end.None? || DateLeq(today, b.end.value))
  }

  /** The queryset form of the rule, written the same way in the API, the
      home page, the budget export and the budget widget:
      `Q(end_date__isnull=True) | Q(end_date__gte=today), start_date__lte=today`.
      A missing start date fails `start_date__lte` (SQL comparison with
      NULL is not true). */
  function ActiveWindow(today: Date): Budget -> bool
  {
    (b: Budget) => (b.end.None? || DateLeq(today, b.end.value)) && b.start.Some? && DateLeq(b.start.value, today)
  }

  /** The queryset form selects exactly the budgets the rule calls active. */
  lemma ActiveWindowIsActiveOn(today: Date)
    ensures forall b :: ActiveWindow(today)(b) <==> ActiveOn(b, today)
  {
  }

  // ---- related-object lookups

  /** The owner tests of the per-user lookups, as values so that every
      query that scopes by user uses the same one. */
  function AccountOwnedBy(userId: int): Account -> bool
  {
    (a: Account) => a.userId == userId
  }

  function TransactionOwnedBy(userId: int): Transaction -> bool
  {
    (t: Transaction) => t.account.userId == userId
  }

  function TagOwnedBy(userId: int): Tag -> bool
  {
    (t: Tag) => t.userId == userId
  }

  function BudgetOwnedBy(userId: int): Budget -> bool
  {
    (b: Budget) => b.userId == userId
  }

  function StockOwnedBy(userId: int): Stock -> bool
  {
    (s: Stock) => s.userId == userId
  }

  /** `user.accounts` / `Account.objects.filter(user=user)`. */
  function AccountsOf(accounts: seq<Account>, userId: int): (r: seq<Account>)
    ensures forall a :: a in r <==> a in accounts && a.userId == userId
    ensures multiset(r) <= multiset(accounts)
  {
    Filter(accounts, AccountOwnedBy(userId))
  }

  /** `Transaction.objects.filter(account__user=user)`. */
  function TransactionsOf(txs: seq<Transaction>, userId: int): (r: seq<Transaction>)
    ensures forall t :: t in r <==> t in txs && t.account.userId == userId
    ensures multiset(r) <= multiset(txs)
  {
    Filter(txs, TransactionOwnedBy(userId))
  }

  /** `Tag.objects.filter(user=user)`. */
  function TagsOf(tags: seq<Tag>, userId: int): (r: seq<Tag>)
    ensures forall t :: t in r <==> t in tags && t.userId == userId
    ensures multiset(r) <= multiset(tags)
  {
    Filter(tags, TagOwnedBy(userId))
  }

  /** `Budget.objects.filter(user=user)`. */
  function BudgetsOf(budgets: seq<Budget>, userId: int): (r: seq<Budget>)
    ensures forall b :: b in r <==> b in budgets && b.userId == userId
    ensures multiset(r) <= multiset(budgets)
  {
    Filter(budgets, BudgetOwnedBy(userId))
  }

  /** `Stock.objects.filter(user=user)`. */
  function StocksOf(stocks: seq<Stock>, userId: int): (r: seq<Stock>)
    ensures forall s :: s in r <==> s in stocks && s.userId == userId
    ensures multiset(r) <= multiset(stocks)
  {
    Filter(stocks, StockOwnedBy(userId))
  }

  /** `currency.symbol or currency.currency_code`: the mark shown after an
      amount, the code standing in for an empty symbol. */
  function CurrencyMark(c: Currency): (r: string)
    ensures c.symbol != "" ==> r == c.symbol
    ensures c.symbol == "" ==> r == c.code
  {
    if c.symbol != "" then c.symbol else c.code
  }

  /** `aggregate(Sum('balance'))['total'] or 0`. */
  function BalanceSum(accounts: seq<Account>): int
    decreases |accounts|
  {
    if accounts == [] then 0 else BalanceSum(accounts[..|accounts| - 1]) + accounts[|accounts| - 1].balance
  }
}
