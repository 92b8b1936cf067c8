/** The REST serializers' validation rules: positive amounts, a category
    whose kind matches the transaction's, a budget that does not end before
    it starts, positive stock quantities and prices, and the parent-name
    field of a category. A rejected input becomes an `Err` naming the field
    the error is reported under and its message. */
module Serializers {
  import opened Wrappers
  import opened Strings
  import opened Calendar
  import opened Models

  /** A validation error as the API reports it: the field it is keyed on
      and its message. */
  datatype ValidationError = ValidationError(field: string, message: string)

  // ---- TransactionSerializer

  const AmountNotPositive: string := "Сумма транзакции должна быть больше нуля"

  /** `validate_amount`: an amount (in cents) passes unchanged when it is
      positive; zero and negative amounts are rejected on `amount`. */
  function ValidateAmount(cents: int): (r: Result<int, ValidationError>)
    ensures r.Ok? <==> cents > 0
    ensures r.Ok? ==> r.value == cents
    ensures r.Err? ==> r.error == ValidationError("amount", AmountNotPositive)
  {
    if cents <= 0 then Err(ValidationError("amount", AmountNotPositive)) else Ok(cents)
  }

  /** The fields of a transaction payload the cross-field check reads;
      either may be missing. */
  datatype TransactionInput = TransactionInput(category: Option<Category>, kind: Option<TransactionType>,
                                               amount: int, description: string)

  /** The category kind a transaction kind requires, if any: income needs an
      income category, expense an expense category, and a transfer may use
      any category. */
  function RequiredCategoryType(k: TransactionType): Option<CategoryType>
  {
    match k
    case Income => Some(IncomeCategory)
    case Expense => Some(ExpenseCategory)
    case Transfer => None
  }

  const IncomeNeedsIncomeCategory: string := "Для транзакции типа \"доход\" нужна категория типа \"доход\""
  const ExpenseNeedsExpenseCategory: string := "Для транзакции типа \"расход\" нужна категория типа \"расход\""

  /** `TransactionSerializer.validate`: a payload with both a category and a
      type is rejected on `category` exactly when the type requires a
      category kind the category does not have; everything else passes
      unchanged. */
  function ValidateTransaction(data: TransactionInput): (r: Result<TransactionInput, ValidationError>)
    ensures r.Err? <==> data.category.Some? && data.kind.Some?
                        && RequiredCategoryType(data.kind.value).Some?
                        && data.category.value.kind != RequiredCategoryType(data.kind.value).value
    ensures r.Ok? ==> r.value == data
    ensures r.Err? ==> r.error.field == "category"
    ensures r.Err? && data.kind == Some(Income) ==> r.error.message == IncomeNeedsIncomeCategory
    ensures r.Err? && data.kind == Some(Expense) ==> r.error.message == ExpenseNeedsExpenseCategory
  {
    if data.category.Some? && data.kind.Some? then
      var category := data.category.value;
      var kind := data.kind.value;
      if kind == Income && category.kind != IncomeCategory then
        Err(ValidationError("category", IncomeNeedsIncomeCategory))
      else if kind == Expense && category.kind != ExpenseCategory then
        Err(ValidationError("category", ExpenseNeedsExpenseCategory))
      else Ok(data)
    else Ok(data)
  }

  /** What the validation guarantees of an accepted payload: an income with a
      category has an income category, an expense with a category has an
      expense category. */
  lemma AcceptedTransactionIsConsistent(data: TransactionInput)
    requires ValidateTransaction(data).Ok?
    requires data.category.Some?
    ensures data.kind == Some(Income) ==> data.category.value.kind == IncomeCategory
    ensures data.kind == Some(Expense) ==> data.category.value.kind == ExpenseCategory
  {
  }

  /** Transfers, and payloads missing the category or the type, always pass. */
  lemma UncheckedPayloadsPass(data: TransactionInput)
    requires data.category.None? || data.kind.None? || data.kind == Some(Transfer)
    ensures ValidateTransaction(data) == Ok(data)
  {
  }

  // ---- BudgetSerializer

  datatype BudgetInput = BudgetInput(name: string, amount: int, start: Option<CivilDate>, end: Option<CivilDate>)

  const EndBeforeStart: string := "Дата окончания не может быть раньше даты начала"

  /** `BudgetSerializer.validate`: rejected on `end_date` exactly when both
      dates are given and the end comes before the start. */
  function ValidateBudget(data: BudgetInput): (r: Result<BudgetInput, ValidationError>)
    ensures r.Err? <==> data.start.Some? && data.end.Some? && !DateLeq(data.start.value, data.end.value)
    ensures r.Ok? ==> r.value == data
    ensures r.Err? ==> r.error == ValidationError("end_date", EndBeforeStart)
  {
    if data.start.Some? && data.end.Some? && DateLt(data.end.value, data.start.value) then
      Err(ValidationError("end_date", EndBeforeStart))
    else Ok(data)
  }

  /** An accepted budget with a start date is active on its start date: the
      window the active-budget rule tests is never empty. */
  lemma AcceptedBudgetActiveOnStart(data: BudgetInput, b: Budget)
    requires ValidateBudget(data).Ok?
    requires b.start == data.start && b.end == data.end && b.start.Some?
    ensures ActiveOn(b, b.start.value)
  {
  }

  // ---- StockSerializer

  const QuantityNotPositive: string := "Количество акций должно быть больше нуля"
  const PriceNotPositive: string := "Цена покупки должна быть больше нуля"

  /** `validate_quantity`: accepted, unchanged, exactly when positive. */
  function ValidateQuantity(value: real): (r: Result<real, ValidationError>)
    ensures r.Ok? <==> value > 0.0
    ensures r.Ok? ==> r.value == value
    ensures r.Err? ==> r.error == ValidationError("quantity", QuantityNotPositive)
  {
    if value <= 0.0 then Err(ValidationError("quantity", QuantityNotPositive)) else Ok(value)
  }

  /** `validate_purchase_price`: accepted, unchanged, exactly when positive. */
  function ValidatePurchasePrice(value: real): (r: Result<real, ValidationError>)
    ensures r.Ok? <==> value > 0.0
    ensures r.Ok? ==> r.value == value
    ensures r.Err? ==> r.error == ValidationError("purchase_price", PriceNotPositive)
  {
    if value <= 0.0 then Err(ValidationError("purchase_price", PriceNotPositive)) else Ok(value)
  }

  // ---- CategorySerializer

  /** `get_parent_category_name`: the parent's name, or None (JSON null)
      for a top-level category. */
  function ParentCategoryName(c: Category): (r: Option<string>)
    ensures r.None? <==> c.parent.None?
  {
    match c.parent
    case None => None
    case Some(p) => Some(p.name)
  }

  /** The serialized parent name is the part of the category's display
      string before the arrow. */
  lemma ParentNameInLabel(c: Category)
    ensures ParentCategoryName(c).Some? ==> CategoryLabel(c) == ParentCategoryName(c).value + " \U{2192} " + c.name
    ensures ParentCategoryName(c).None? ==> CategoryLabel(c) == c.name
  {
  }
}
