/** Where the same rule is written several times over, the copies agree:
    the active-budget test of the budget admin, the budget API, the home
    page, the budget export and the budget widget; the income totals of
    the home page and of the statistics endpoint; and the transaction
    counts of the user admin and of the count tag. */
module Agreement {
  import opened Wrappers
  import opened Calendar
  import opened Seqs
  import opened Models
  import Admin
  import Api
  import Views
  import Resources
  import FinanceTags

  /** The five active-budget rules pick the same budgets. The admin column
      is the reference; the home page and the widget cut the list short,
      so they agree in full whenever the active budgets fit in the cut. */
  lemma ActiveBudgetRulesAgree(budgets: seq<Budget>, today: CivilDate, b: Budget, limit: nat)
    requires b in budgets
    ensures b in Api.ActiveBudgets(budgets, b.userId, today) <==> Admin.IsActive(b, today) == Some(true)
    ensures b in Resources.BudgetExport(budgets, today) <==> Admin.IsActive(b, today) == Some(true)
    ensures b in Views.HomeActiveBudgets(budgets, today) ==> Admin.IsActive(b, today) == Some(true)
    ensures CountOf(budgets, ActiveWindow(today)) <= 5 ==>
              (b in Views.HomeActiveBudgets(budgets, today) <==> Admin.IsActive(b, today) == Some(true))
    ensures var shown := FinanceTags.ShowActiveBudgets(Some(b.userId), budgets, today, limit).value;
            && (b in shown ==> Admin.IsActive(b, today) == Some(true))
            && (CountOf(BudgetsOf(budgets, b.userId), ActiveWindow(today)) <= limit ==>
                  (b in shown <==> Admin.IsActive(b, today) == Some(true)))
  {
  }

  /** The home page's monthly income, applied to one user's transactions,
      is the statistics endpoint's income for its default period. */
  lemma MonthlyIncomeIsDefaultStatistics(txs: seq<Transaction>, u: int, now: CivilDateTime)
    ensures Views.MonthlyIncome(TransactionsOf(txs, u), now) == Api.Statistics(txs, u, None, now).income
  {
    var own := TransactionsOf(txs, u);
    SumOfFilter(own, SinceDays(now, Views.MonthDays), Api.IncomePart, Views.MonthIncomePart(now));
  }

  /** The user admin's per-account sum and the count tag without a type
      count the same transactions. */
  lemma AdminCountIsTagCount(accounts: seq<Account>, txs: seq<Transaction>, u: int)
    requires Admin.WellKeyed(accounts)
    requires forall t :: t in txs ==> t.account in accounts
    ensures Admin.TransactionsCount(AccountsOf(accounts, u), txs) == FinanceTags.UserTransactionsCount(Some(u), txs, None)
  {
    Admin.TransactionsCountIsUserCount(accounts, txs, u);
  }
}
