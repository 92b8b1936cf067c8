/** The template tags and filters: the signed-in user's balance and
    transaction count, the recent-transactions and active-budgets widgets,
    the rouble suffix and the transaction-type icon. The template context's
    user is `viewer`: the id of an authenticated user, or None for an
    anonymous visitor or a missing user. */
module FinanceTags {
  import opened Wrappers
  import opened Strings
  import opened Calendar
  import opened Seqs
  import opened Models

  // ---- user_balance

  const ZeroBalance: string := "0.00"

  /** `user_balance`: the user's total balance with two decimals;
      "0.00" for an anonymous visitor, as for a user without accounts. */
  function UserBalance(viewer: Option<int>, accounts: seq<Account>): (r: string)
    ensures viewer.None? ==> r == ZeroBalance
    ensures viewer.Some? ==> r == FormatCents(BalanceSum(AccountsOf(accounts, viewer.value)))
    ensures viewer.Some? && AccountsOf(accounts, viewer.value) == [] ==> r == ZeroBalance
  {
    if viewer.None? then ZeroBalance
    else FormatCents(BalanceSum(AccountsOf(accounts, viewer.value)))
  }

  /** For a signed-in user the text gives back the total exactly; a total
      of zero reads like the anonymous "0.00". */
  lemma UserBalanceDeterminesTotal(u: int, v: int, accounts: seq<Account>, others: seq<Account>)
    requires UserBalance(Some(u), accounts) == UserBalance(Some(v), others)
    ensures BalanceSum(AccountsOf(accounts, u)) == BalanceSum(AccountsOf(others, v))
  {
    FormatCentsInjective(BalanceSum(AccountsOf(accounts, u)), BalanceSum(AccountsOf(others, v)));
  }

  // ---- user_transactions_count

  /** `transaction_type=code`, compared as stored text. */
  function TypeIs(code: string): Transaction -> bool
  {
    (t: Transaction) => TransactionTypeCode(t.kind) == code
  }

  /** `user_transactions_count`: 0 for an anonymous visitor; otherwise the
      number of the user's transactions, only those of the given type when
      a non-empty type is given. */
  function UserTransactionsCount(viewer: Option<int>, txs: seq<Transaction>, kind: Option<string>): (r: nat)
    ensures viewer.None? ==> r == 0
    ensures viewer.Some? && (kind.None? || kind.value == "") ==> r == |TransactionsOf(txs, viewer.value)|
    ensures viewer.Some? && kind.Some? && kind.value != "" ==> r == CountOf(TransactionsOf(txs, viewer.value), TypeIs(kind.value))
    ensures r <= |txs|
  {
    if viewer.None? then 0
    else
      var own := TransactionsOf(txs, viewer.value);
      if kind.None? || kind.value == "" then |own| else CountOf(own, TypeIs(kind.value))
  }

  /** The counts per type add up to the untyped count. */
  lemma {:induction false} TypedCountsAddUp(txs: seq<Transaction>, u: int)
    ensures UserTransactionsCount(Some(u), txs, Some("income"))
          + UserTransactionsCount(Some(u), txs, Some("expense"))
          + UserTransactionsCount(Some(u), txs, Some("transfer"))
         == UserTransactionsCount(Some(u), txs, None)
  {
    ThreeTypesSplit(TransactionsOf(txs, u));
  }

  lemma {:induction false} ThreeTypesSplit(s: seq<Transaction>)
    ensures CountOf(s, TypeIs("income")) + CountOf(s, TypeIs("expense")) + CountOf(s, TypeIs("transfer")) == |s|
    decreases |s|
  {
    if s != [] {
      ThreeTypesSplit(s[1..]);
      CountOfCons(s, TypeIs("income"));
      CountOfCons(s, TypeIs("expense"));
      CountOfCons(s, TypeIs("transfer"));
      ExactlyOneType(s[0]);
    }
  }

  /** Each transaction has exactly one of the three stored type codes. */
  lemma ExactlyOneType(t: Transaction)
    ensures (if TypeIs("income")(t) then 1 else 0) + (if TypeIs("expense")(t) then 1 else 0)
              + (if TypeIs("transfer")(t) then 1 else 0) == 1
  {
    assert "income" != "expense" && "income" != "transfer" && "expense" != "transfer";
  }

  /** A type that is not one of the three stored codes counts nothing. */
  lemma UnknownTypeCountsNothing(txs: seq<Transaction>, u: int, code: string)
    requires code != "" && ParseTransactionType(code).None?
    ensures UserTransactionsCount(Some(u), txs, Some(code)) == 0
  {
    assert forall t :: !TypeIs(code)(t);
    FilterNone(TransactionsOf(txs, u), TypeIs(code));
  }

  // ---- the inclusion tags

  const DefaultLimit: int := 5

  /** `show_recent_transactions`: nothing for an anonymous visitor;
      otherwise the user's `limit` newest transactions, newest first. A
      negative `limit` is refused by the queryset slice (None). */
  function ShowRecentTransactions(viewer: Option<int>, txs: seq<Transaction>, limit: int): (r: Option<seq<Transaction>>)
    ensures viewer.None? ==> r == Some([])
    ensures viewer.Some? ==> (r.None? <==> limit < 0)
    ensures viewer.Some? && r.Some? ==> IsTopN(r.value, TransactionsOf(txs, viewer.value), DateKey, limit)
    ensures r.Some? ==> forall t :: t in r.value ==> t in txs && viewer.Some? && t.account.userId == viewer.value
  {
    if viewer.None? then Some([])
    else if limit < 0 then None
    else
      var own := TransactionsOf(txs, viewer.value);
      var r := TopN(own, DateKey, limit);
      KeptRowsFromSource(r, own);
      Some(r)
  }

  /** `show_active_budgets`: nothing for an anonymous visitor; otherwise
      the first `limit` of the user's budgets under way today, in table
      order (in the table's default order, the latest-started), all of them
      when there are no more than `limit`. A negative `limit` is refused by
      the queryset slice (None). */
  function ShowActiveBudgets(viewer: Option<int>, budgets: seq<Budget>, today: CivilDate, limit: int): (r: Option<seq<Budget>>)
    ensures viewer.None? ==> r == Some([])
    ensures viewer.Some? ==> (r.None? <==> limit < 0)
    ensures r.Some? ==> |r.value| <= limit || r.value == []
    ensures r.Some? ==> forall b :: b in r.value ==> b in budgets && viewer.Some? && b.userId == viewer.value && ActiveOn(b, today)
    ensures viewer.Some? && r.Some? && CountOf(BudgetsOf(budgets, viewer.value), ActiveWindow(today)) <= limit ==>
              forall b :: b in budgets && b.userId == viewer.value && ActiveOn(b, today) ==> b in r.value
    ensures viewer.Some? && limit >= 0 ==>
              var active := Filter(BudgetsOf(budgets, viewer.value), ActiveWindow(today));
              r.Some? && |r.value| == Min(limit, |active|) && r.value == active[..|r.value|]
    ensures viewer.Some? && limit >= 0 && InBudgetOrder(budgets) ==>
              r.Some? && IsTopN(r.value, Filter(BudgetsOf(budgets, viewer.value), ActiveWindow(today)), StartKey, limit)
  {
    if viewer.None? then Some([])
    else if limit < 0 then None
    else
      ActiveWindowIsActiveOn(today);
      var own := BudgetsOf(budgets, viewer.value);
      var active := Filter(own, ActiveWindow(today));
      if InBudgetOrder(budgets) then
        FilterSorted(budgets, BudgetOwnedBy(viewer.value), StartKey);
        FilterSorted(own, ActiveWindow(today), StartKey);
        TakeOfSortedIsTop(active, StartKey, limit);
        Some(Take(active, limit))
      else Some(Take(active, limit))
  }

  /** With the default `limit=5` a signed-in viewer gets both lists, each
      at most five rows long, and the five newest (or all) transactions. */
  lemma DefaultLimitLists(viewer: Option<int>, txs: seq<Transaction>, budgets: seq<Budget>, today: CivilDate)
    requires viewer.Some?
    ensures ShowRecentTransactions(viewer, txs, DefaultLimit).Some?
    ensures |ShowRecentTransactions(viewer, txs, DefaultLimit).value| == Min(5, |TransactionsOf(txs, viewer.value)|)
    ensures ShowActiveBudgets(viewer, budgets, today, DefaultLimit).Some?
    ensures |ShowActiveBudgets(viewer, budgets, today, DefaultLimit).value| <= 5
  {
  }

  // ---- filters

  /** `currency_symbol`: the value's text followed by " ₽". */
  function CurrencySymbol(value: string): (r: string)
    ensures StartsWith(r, value) && EndsWith(r, " ₽") && |r| == |value| + 2
  {
    value + " ₽"
  }

  /** Different values keep different texts. */
  lemma CurrencySymbolInjective(a: string, b: string)
    requires CurrencySymbol(a) == CurrencySymbol(b)
    ensures a == b
  {
    assert a == CurrencySymbol(a)[..|a|];
  }

  const DefaultIcon: string := "\U{1F4B0}"

  /** `transaction_icon`: chart up for income, chart down for expense,
      arrows for transfer, a money bag for anything else. */
  function TransactionIcon(code: string): (r: string)
    ensures code == "income" ==> r == "\U{1F4C8}"
    ensures code == "expense" ==> r == "\U{1F4C9}"
    ensures code == "transfer" ==> r == "\U{1F504}"
    ensures ParseTransactionType(code).None? ==> r == DefaultIcon
  {
    if code == "income" then "\U{1F4C8}"
    else if code == "expense" then "\U{1F4C9}"
    else if code == "transfer" then "\U{1F504}"
    else DefaultIcon
  }

  /** The icon tells the three stored types apart, and none of them gets
      the fallback. */
  lemma TransactionIconDistinguishesTypes(j: TransactionType, k: TransactionType)
    ensures TransactionIcon(TransactionTypeCode(j)) == TransactionIcon(TransactionTypeCode(k)) ==> j == k
    ensures TransactionIcon(TransactionTypeCode(k)) != DefaultIcon
  {
  }
}
