/** The spreadsheet exports: which accounts, transactions and budgets are
    exported, and how the account name, balance, transaction date, amount,
    budget name and start date are written. The clock is the parameter
    `now` (`today` being its date). */
module Resources {
  import opened Wrappers
  import opened Strings
  import opened Calendar
  import opened Seqs
  import opened Models

  // ---- AccountResource

  function PositiveBalance(a: Account): bool
  {
    a.balance > 0
  }

  /** `get_export_queryset`: only accounts with a balance above zero. */
  function AccountExport(accounts: seq<Account>): (r: seq<Account>)
    ensures forall a :: a in r <==> a in accounts && a.balance > 0
    ensures multiset(r) <= multiset(accounts)
  {
    Filter(accounts, PositiveBalance)
  }

  /** `dehydrate_account_name`: "[type display] name". */
  function ExportAccountName(a: Account): (r: string)
    ensures StartsWith(r, "[" + AccountTypeLabel(a.kind) + "] ") && EndsWith(r, a.name)
    ensures |r| == |AccountTypeLabel(a.kind)| + 3 + |a.name|
  {
    "[" + AccountTypeLabel(a.kind) + "] " + a.name
  }

  /** The bracketed prefix can be read back: the first ']' closes the
      label, so the exported name gives back the account type and the
      account's own name. */
  lemma ExportAccountNameInjective(a: Account, b: Account)
    requires ExportAccountName(a) == ExportAccountName(b)
    ensures a.kind == b.kind && a.name == b.name
  {
    var s := ExportAccountName(a);
    LabelEndsAtBracket(AccountTypeLabel(a.kind), a.name);
    LabelEndsAtBracket(AccountTypeLabel(b.kind), b.name);
    var la, lb := AccountTypeLabel(a.kind), AccountTypeLabel(b.kind);
    assert la == s[1..1 + |la|] == lb;
    assert a.name == s[|la| + 3..] == b.name;
  }

  lemma LabelEndsAtBracket(caption: string, name: string)
    requires ']' !in caption
    ensures IndexOf("[" + caption + "] " + name, ']') == 1 + |caption|
  {
    var s := "[" + caption + "] " + name;
    forall j | 0 <= j < 1 + |caption|
      ensures s[j] != ']'
    {
      if j > 0 {
        assert s[j] == caption[j - 1];
      }
    }
    FirstOccurrence(s, ']', 1 + |caption|);
  }

  /** `dehydrate_balance`: "balance mark", the mark being the currency's
      symbol or, when that is empty, its code. */
  function ExportBalance(a: Account): (r: string)
    ensures StartsWith(r, FormatCents(a.balance) + " ") && EndsWith(r, CurrencyMark(a.currency))
    ensures |r| == |FormatCents(a.balance)| + 1 + |CurrencyMark(a.currency)|
    ensures r[0] == '-' <==> a.balance < 0
  {
    FormatCents(a.balance) + " " + CurrencyMark(a.currency)
  }

  /** The balance text gives back the balance and the currency mark: the
      amount holds no space, so the first space ends it. */
  lemma ExportBalanceInjective(a: Account, b: Account)
    requires ExportBalance(a) == ExportBalance(b)
    ensures a.balance == b.balance && CurrencyMark(a.currency) == CurrencyMark(b.currency)
  {
    var fa, fb := FormatCents(a.balance), FormatCents(b.balance);
    var s := ExportBalance(a);
    AmountEndsAtSpace(a.balance, CurrencyMark(a.currency));
    AmountEndsAtSpace(b.balance, CurrencyMark(b.currency));
    assert fa == s[..|fa|] == fb;
    FormatCentsInjective(a.balance, b.balance);
    assert CurrencyMark(a.currency) == s[|fa| + 1..] == CurrencyMark(b.currency);
  }

  lemma AmountEndsAtSpace(cents: int, mark: string)
    ensures IndexOf(FormatCents(cents) + " " + mark, ' ') == |FormatCents(cents)|
  {
    var f := FormatCents(cents);
    var s := f + " " + mark;
    FormatCentsNoSpace(cents);
    forall j | 0 <= j < |f|
      ensures s[j] != ' '
    {
      assert s[j] == f[j];
    }
    FirstOccurrence(s, ' ', |f|);
  }

  /** No exported balance is negative. */
  lemma ExportedBalancesUnsigned(accounts: seq<Account>)
    ensures forall a :: a in AccountExport(accounts) ==> ExportBalance(a)[0] != '-'
  {
  }

  // ---- TransactionResource

  const ExportDays: int := 90

  /** `get_export_queryset`: the transactions of the last 90 days. */
  function TransactionExport(txs: seq<Transaction>, now: CivilDateTime): (r: seq<Transaction>)
    ensures forall t :: t in r <==> t in txs && WithinLastDays(t.date, now, ExportDays)
    ensures multiset(r) <= multiset(txs)
  {
    Filter(txs, SinceDays(now, ExportDays))
  }

  /** Everything of the last `days` days, for any period up to 90 days
      (the home page's 30 days, the default statistics period), is
      exported. */
  lemma ExportCoversShorterWindows(txs: seq<Transaction>, now: CivilDateTime, days: int)
    requires days <= ExportDays
    ensures forall t :: t in txs && WithinLastDays(t.date, now, days) ==> t in TransactionExport(txs, now)
  {
    forall t | t in txs && WithinLastDays(t.date, now, days)
      ensures WithinLastDays(t.date, now, ExportDays)
    {
      WindowWidens(t.date, now, days, ExportDays);
    }
  }

  /** `dehydrate_transaction_date`: `strftime('%d.%m.%Y %H:%M')`. */
  function ExportTransactionDate(t: Transaction): (r: string)
    ensures |r| >= 13 && r[..|r| - 6] == FormatDate(t.date.date)
    ensures r[..2] == Pad2(t.date.date.day) && r[2] == '.' && r[3..5] == Pad2(t.date.date.month) && r[5] == '.'
    ensures r[|r| - 6] == ' ' && r[|r| - 3] == ':'
    ensures r[|r| - 5..|r| - 3] == Pad2(t.date.hour) && r[|r| - 2..] == Pad2(t.date.minute)
  {
    FormatDateTime(t.date)
  }

  /** The exported date gives back the day and the time to the minute. */
  lemma ExportTransactionDateInjective(a: Transaction, b: Transaction)
    requires ExportTransactionDate(a) == ExportTransactionDate(b)
    ensures a.date.date == b.date.date && a.date.hour == b.date.hour && a.date.minute == b.date.minute
  {
    FormatDateTimeInjective(a.date, b.date);
  }

  /** `dehydrate_amount`: income with a plus sign, expense with a minus
      sign, anything else as the plain amount. */
  function ExportAmount(t: Transaction): (r: string)
    ensures t.kind == Income ==> r == "+" + FormatCents(t.amount)
    ensures t.kind == Expense ==> r == "-" + FormatCents(t.amount)
    ensures t.kind == Transfer ==> r == FormatCents(t.amount)
    ensures r[0] == '+' <==> t.kind == Income
  {
    match t.kind
    case Income => "+" + FormatCents(t.amount)
    case Expense => "-" + FormatCents(t.amount)
    case Transfer => FormatCents(t.amount)
  }

  /** For the positive amounts the serializer admits, the exported text
      gives back both the type and the amount. */
  lemma ExportAmountInjective(a: Transaction, b: Transaction)
    requires a.amount > 0 && b.amount > 0
    requires ExportAmount(a) == ExportAmount(b)
    ensures a.kind == b.kind && a.amount == b.amount
  {
    var s := ExportAmount(a);
    assert (s[0] == '-') <==> a.kind == Expense;
    assert (s[0] == '-') <==> b.kind == Expense;
    if a.kind == Transfer {
      FormatCentsInjective(a.amount, b.amount);
    } else {
      assert FormatCents(a.amount) == s[1..] == FormatCents(b.amount);
      FormatCentsInjective(a.amount, b.amount);
    }
  }

  // ---- BudgetResource

  /** `get_export_queryset`: the budgets under way today, of any user. */
  function BudgetExport(budgets: seq<Budget>, today: CivilDate): (r: seq<Budget>)
    ensures forall b :: b in r <==> b in budgets && ActiveOn(b, today)
    ensures multiset(r) <= multiset(budgets)
  {
    ActiveWindowIsActiveOn(today);
    Filter(budgets, ActiveWindow(today))
  }

  /** `dehydrate_budget_name`: "name (period display)". */
  function ExportBudgetName(b: Budget): (r: string)
    ensures StartsWith(r, b.name + " (") && EndsWith(r, "(" + PeriodTypeLabel(b.period) + ")")
    ensures |r| == |b.name| + 3 + |PeriodTypeLabel(b.period)|
  {
    b.name + " (" + PeriodTypeLabel(b.period) + ")"
  }

  lemma LabelStartsAtParenthesis(name: string, caption: string)
    requires '(' !in caption
    ensures LastIndexOf(name + " (" + caption + ")", '(') == |name| + 1
  {
    var head := name + " (";
    var s := head + caption + ")";
    assert s[|name| + 1] == '(';
    forall j | |name| + 1 < j < |s|
      ensures s[j] != '('
    {
      if j < |s| - 1 {
        assert s[j] == (head + caption)[j];
        assert (head + caption)[j] == caption[j - |head|];
      }
    }
    LastOccurrence(s, '(', |name| + 1);
  }

  /** The exported budget name gives back the budget's name and period,
      even when the name itself holds parentheses. */
  lemma ExportBudgetNameInjective(a: Budget, b: Budget)
    requires ExportBudgetName(a) == ExportBudgetName(b)
    ensures a.name == b.name && a.period == b.period
  {
    var la, lb := PeriodTypeLabel(a.period), PeriodTypeLabel(b.period);
    var s := ExportBudgetName(a);
    LabelStartsAtParenthesis(a.name, la);
    LabelStartsAtParenthesis(b.name, lb);
    assert a.name == s[..|a.name|] == b.name;
    assert la == s[|a.name| + 2..|s| - 1] == lb;
  }

  /** `dehydrate_start_date`: `strftime('%d.%m.%Y')`; a budget without a
      start date (which the table does not admit) has nothing to format,
      and the export would fail (None). */
  function ExportStartDate(b: Budget): (r: Option<string>)
    ensures r.None? <==> b.start.None?
    ensures r.Some? ==> |r.value| >= 7 && r.value[2] == '.' && r.value[5] == '.' && r.value[6..] == NatToString(b.start.value.year)
    ensures r.Some? ==> r.value[..2] == Pad2(b.start.value.day) && r.value[3..5] == Pad2(b.start.value.month)
  {
    if b.start.None? then None else Some(FormatDate(b.start.value))
  }

  /** The exported start date gives back the date. */
  lemma ExportStartDateInjective(a: Budget, b: Budget)
    requires ExportStartDate(a).Some? && ExportStartDate(a) == ExportStartDate(b)
    ensures a.start == b.start
  {
    FormatDateInjective(a.start.value, b.start.value);
  }
}
