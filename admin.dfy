/** The computed columns of the admin site: a user's full name, transaction
    count and per-currency balance; a transaction's label, amount colour and
    tag list; a budget's status and days left, and which budget fields are
    shown and read-only when creating or editing. */
module Admin {
  import opened Wrappers
  import opened Strings
  import opened Calendar
  import opened Seqs
  import opened Models
  import opened Balances

  // ---- UserAdmin

  /** `full_name`: a dash when both names are empty; otherwise the two
      names joined by a space with surrounding white space stripped. */
  function FullName(first: string, last: string): (r: string)
    ensures first == "" && last == "" ==> r == "\U{2014}"
    ensures first != "" || last != "" ==>
              r == Strip(first + " " + last) && (r != "" ==> !IsSpace(r[0]) && !IsSpace(r[|r| - 1]))
  {
    if first != "" || last != "" then
      StripEnds(first + " " + last);
      Strip(first + " " + last)
    else "\U{2014}"
  }

  /** Two names without surrounding white space are shown as "first last". */
  lemma FullNameOfCleanNames(first: string, last: string)
    requires first != "" && !IsSpace(first[0]) && !IsSpace(first[|first| - 1])
    requires last != "" && !IsSpace(last[0]) && !IsSpace(last[|last| - 1])
    ensures FullName(first, last) == first + " " + last
  {
    var s := first + " " + last;
    assert s[0] == first[0] && s[|s| - 1] == last[|last| - 1];
    StripUnpadded(s);
  }

  /** A single name without surrounding white space is shown alone: the
      separating space is stripped off. */
  lemma FullNameOfOneName(name: string)
    requires name != "" && !IsSpace(name[0]) && !IsSpace(name[|name| - 1])
    ensures FullName(name, "") == name && FullName("", name) == name
  {
    var a, b := name + " " + "", "" + " " + name;
    assert TrimStart(a) == a;
    assert TrimEnd(a) == TrimEnd(a[..|a| - 1]);
    assert a[..|a| - 1] == name;
    StripUnpadded(name);
    assert TrimStart(b) == TrimStart(b[1..]);
    assert b[1..] == name;
  }

  /** The transactions on the account with id `accountId`
      (`account.transactions.count()`). */
  function OnAccount(accountId: int): Transaction -> bool
  {
    (t: Transaction) => t.account.id == accountId
  }

  /** `transactions_count`: the per-account counts summed over the user's
      accounts. */
  function TransactionsCount(userAccounts: seq<Account>, txs: seq<Transaction>): (r: nat)
    ensures userAccounts == [] || txs == [] ==> r == 0
    decreases |userAccounts|
  {
    if userAccounts == [] then 0
    else CountOf(txs, OnAccount(userAccounts[0].id)) + TransactionsCount(userAccounts[1..], txs)
  }

  /** The accounts with id `id`. */
  function HasId(id: int): Account -> bool
  {
    (a: Account) => a.id == id
  }

  /** A table of accounts with distinct rows, each identified by its id. */
  predicate WellKeyed(accounts: seq<Account>)
  {
    && NoDuplicates(accounts)
    && forall a, b :: a in accounts && b in accounts && a.id == b.id ==> a == b
  }

  lemma {:induction false} TransactionsCountSnoc(accs: seq<Account>, txs: seq<Transaction>, t: Transaction)
    ensures TransactionsCount(accs, txs + [t]) == TransactionsCount(accs, txs) + CountOf(accs, HasId(t.account.id))
    decreases |accs|
  {
    if accs != [] {
      CountOfSnoc(txs, t, OnAccount(accs[0].id));
      TransactionsCountSnoc(accs[1..], txs, t);
      assert accs == [accs[0]] + accs[1..];
    }
  }

  /** In a well-keyed table an id names at most one row. */
  lemma IdCount(accs: seq<Account>, id: int)
    requires WellKeyed(accs)
    ensures CountOf(accs, HasId(id)) == if exists a :: a in accs && a.id == id then 1 else 0
  {
    var r := Filter(accs, HasId(id));
    SubMultisetNoDuplicates(accs, r);
    if |r| > 0 {
      var e := r[0];
      assert e in r;
      forall x | x in r
        ensures x == e
      {
      }
      AtMostOne(r, e);
    }
    if exists a :: a in accs && a.id == id {
      var a :| a in accs && a.id == id;
      assert a in r;
    }
  }

  lemma WellKeyedFilter(accounts: seq<Account>, p: Account -> bool)
    requires WellKeyed(accounts)
    ensures WellKeyed(Filter(accounts, p))
  {
    SubMultisetNoDuplicates(accounts, Filter(accounts, p));
  }

  /** Summing the per-account counts over a user's accounts gives the number
      of transactions the user owns, provided accounts are identified by
      their ids and every transaction is on an account of the table. */
  lemma {:induction false} TransactionsCountIsUserCount(accounts: seq<Account>, txs: seq<Transaction>, userId: int)
    requires WellKeyed(accounts)
    requires forall t :: t in txs ==> t.account in accounts
    ensures TransactionsCount(AccountsOf(accounts, userId), txs) == |TransactionsOf(txs, userId)|
    decreases |txs|
  {
    var accs := AccountsOf(accounts, userId);
    if txs != [] {
      var init := txs[..|txs| - 1];
      var t := txs[|txs| - 1];
      assert txs == init + [t];
      TransactionsCountIsUserCount(accounts, init, userId);
      TransactionsCountSnoc(accs, init, t);
      WellKeyedFilter(accounts, AccountOwnedBy(userId));
      IdCount(accs, t.account.id);
      CountOfSnoc(init, t, TransactionOwnedBy(userId));
      assert (exists a :: a in accs && a.id == t.account.id) <==> t.account.userId == userId by {
        if t.account.userId == userId {
          assert t.account in accs;
        }
      }
    }
  }

  /** One "amount code" entry per currency code, from the grouped totals. */
  function BalanceEntries(codes: seq<string>, totals: map<string, int>): (r: seq<string>)
    requires forall c :: c in codes ==> c in totals
    ensures |r| == |codes|
    ensures forall i :: 0 <= i < |codes| ==> r[i] == FormatCents(totals[codes[i]]) + " " + codes[i]
  {
    seq(|codes|, i requires 0 <= i < |codes| => FormatCents(totals[codes[i]]) + " " + codes[i])
  }

  /** A currency's entry in the total-balance column: the sum of the
      balances held in it, a space and its code. */
  function CurrencyEntry(accounts: seq<Account>, code: string): string
  {
    FormatCents(CurrencyTotal(accounts, code)) + " " + code
  }

  function EntryOf(accounts: seq<Account>): string -> string
  {
    (code: string) => CurrencyEntry(accounts, code)
  }

  /** What `total_balance` shows for a user's accounts: a dash when there
      are none, otherwise each currency's total followed by its code, in the
      order the currencies first appear, separated by ", ". */
  function TotalBalanceText(accounts: seq<Account>): (r: string)
    ensures accounts == [] ==> r == "\U{2014}"
    ensures accounts != [] ==> r == Join(Map(CurrencyCodes(accounts), EntryOf(accounts)), ", ")
  {
    if accounts == [] then "\U{2014}"
    else
      ByCurrencyTotals(accounts);
      var codes := CurrencyCodes(accounts);
      var entries := BalanceEntries(codes, ByCurrency(accounts));
      assert entries == Map(codes, EntryOf(accounts));
      Join(entries, ", ")
  }

  /** The dash appears exactly for a user without accounts; otherwise the
      text opens with the first account's currency total. */
  lemma TotalBalanceTextShape(accounts: seq<Account>)
    ensures TotalBalanceText(accounts) == "\U{2014}" <==> accounts == []
    ensures accounts != [] ==>
              var c := CodeOf(accounts[0]);
              StartsWith(TotalBalanceText(accounts), FormatCents(CurrencyTotal(accounts, c)) + " " + c)
  {
    if accounts != [] {
      var codes := CurrencyCodes(accounts);
      FirstCodeFirst(accounts);
      ByCurrencyTotals(accounts);
      var entries := BalanceEntries(codes, ByCurrency(accounts));
      JoinStartsWith(entries, ", ");
      assert |entries[0]| >= 5;
    }
  }

  /** The first account's currency is the first code listed. */
  lemma {:induction false} FirstCodeFirst(accounts: seq<Account>)
    requires accounts != []
    ensures CurrencyCodes(accounts) != [] && CurrencyCodes(accounts)[0] == CodeOf(accounts[0])
    decreases |accounts|
  {
    if |accounts| > 1 {
      var init := accounts[..|accounts| - 1];
      assert accounts == init + [accounts[|accounts| - 1]];
      FirstCodeFirst(init);
      assert init[0] == accounts[0];
    }
  }

  /** `total_balance`: the accounts grouped by the source's loop, then
      each group written out and the entries joined. */
  method TotalBalance(accounts: seq<Account>) returns (r: string)
    ensures r == TotalBalanceText(accounts)
    ensures accounts == [] ==> r == "\U{2014}"
    ensures accounts != [] ==> r == Join(Map(CurrencyCodes(accounts), EntryOf(accounts)), ", ")
  {
    if accounts == [] {
      return "\U{2014}";
    }
    var codes, balances := GroupByCurrency(accounts);
    ByCurrencyTotals(accounts);
    r := Join(BalanceEntries(codes, balances), ", ");
  }

  // ---- TransactionAdmin

  /** `transaction_id`: "#" and the id. */
  function TransactionLabel(id: int): (r: string)
    ensures |r| >= 2 && r[0] == '#'
    ensures id >= 0 ==> AllDigits(r[1..]) && DigitsValue(r[1..]) == id
    ensures id < 0 ==> r[1] == '-' && AllDigits(r[2..]) && DigitsValue(r[2..]) == -id
  {
    var s := IntToString(id);
    assert ("#" + s)[2..] == s[1..];
    "#" + s
  }

  /** Different transactions get different labels. */
  lemma TransactionLabelInjective(a: int, b: int)
    requires TransactionLabel(a) == TransactionLabel(b)
    ensures a == b
  {
    assert TransactionLabel(a)[1..] == IntToString(a);
    IntToStringInjective(a, b);
  }

  /** The colour `amount_display` uses for a transaction kind. */
  function AmountColour(k: TransactionType): (r: string)
    ensures r == "green" <==> k == Income
    ensures r == "red" <==> k == Expense
    ensures r == "blue" <==> k == Transfer
  {
    match k
    case Income => "green"
    case Expense => "red"
    case Transfer => "blue"
  }

  /** `amount_display`: the colour and the text "amount mark" it shows. */
  datatype StyledAmount = StyledAmount(colour: string, text: string)

  function AmountDisplay(t: Transaction): (r: StyledAmount)
    ensures r.colour == AmountColour(t.kind)
    ensures StartsWith(r.text, FormatCents(t.amount) + " ") && EndsWith(r.text, CurrencyMark(t.account.currency))
    ensures |r.text| == |FormatCents(t.amount)| + 1 + |CurrencyMark(t.account.currency)|
  {
    var text := FormatCents(t.amount) + " " + CurrencyMark(t.account.currency);
    assert text[..|FormatCents(t.amount) + " "|] == FormatCents(t.amount) + " ";
    StyledAmount(AmountColour(t.kind), text)
  }

  function TagName(t: Tag): string
  {
    t.name
  }

  /** The count of hidden tags appended to a truncated list. */
  function HiddenSuffix(k: nat): string
  {
    " (+" + NatToString(k) + ")"
  }

  /** `tags_list`: a dash for an untagged transaction; otherwise the names
      of the first three tags in name order joined by ", ", followed by
      " (+k)" when k more tags are hidden. */
  function TagsList(tags: seq<Tag>): (r: string)
    ensures tags == [] ==> r == "\U{2014}"
    ensures tags != [] ==>
              var names := Join(Map(FirstNByText(tags, TagName, 3), TagName), ", ");
              r == if |tags| > 3 then names + HiddenSuffix(|tags| - 3) else names
  {
    var shown := FirstNByText(tags, TagName, 3);
    if shown == [] then "\U{2014}"
    else
      var result := Join(Map(shown, TagName), ", ");
      if |tags| > 3 then result + HiddenSuffix(|tags| - 3) else result
  }

  /** A list of more than three tags ends in " (+k)", and k gives back the
      number of tags not shown. */
  lemma TagsListSuffix(tags: seq<Tag>)
    requires |tags| > 3
    ensures var k := NatToString(|tags| - 3);
            EndsWith(TagsList(tags), HiddenSuffix(|tags| - 3)) && DigitsValue(k) + 3 == |tags|
  {
    NatToStringValue(|tags| - 3);
    var names := Join(Map(FirstNByText(tags, TagName, 3), TagName), ", ");
    EndsWithConcat(names, HiddenSuffix(|tags| - 3));
  }

  /** Up to three tags are all shown, in name order, with no suffix; above
      three, the three shown come first in name order among all the tags. */
  lemma TagsListShown(tags: seq<Tag>)
    ensures var shown := FirstNByText(tags, TagName, 3);
            && (|tags| <= 3 ==> multiset(shown) == multiset(tags))
            && (|tags| > 3 ==> |shown| == 3)
            && SortedByText(shown, TagName)
            && (forall x, y :: x in tags && x !in shown && y in shown ==> StrLeq(y.name, x.name))
  {
    var shown := FirstNByText(tags, TagName, 3);
    if |tags| <= 3 {
      SubMultisetOfSameSize(shown, tags);
    }
    forall x, y | x in tags && x !in shown && y in shown
      ensures StrLeq(y.name, x.name)
    {
      assert StrLeq(TagName(y), TagName(x));
    }
  }

  // ---- BudgetAdmin

  /** `is_active`: undetermined (None) for a budget without a start date;
      otherwise whether `today` falls in the budget's window. */
  function IsActive(b: Budget, today: Date): (r: Option<bool>)
    ensures r.None? <==> b.start.None?
    ensures r.Some? ==> (r.value <==> ActiveOn(b, today))
  {
    if b.start.None? then None
    else if b.end.Some? then Some(DateLeq(b.start.value, today) && DateLeq(today, b.end.value))
    else Some(DateLeq(b.start.value, today))
  }

  /** `days_left`: a dash without a start date, "Бессрочный" (open-ended)
      without an end date, "Завершен" (finished) once the end date has
      passed, and otherwise the number of days from today to the end date
      followed by " дн.". */
  function DaysLeft(b: Budget, today: CivilDate): (r: string)
    ensures b.start.None? ==> r == "\U{2014}"
    ensures b.start.Some? && b.end.None? ==> r == "Бессрочный"
    ensures b.start.Some? && b.end.Some? && DateLt(b.end.value, today) ==> r == "Завершен"
    ensures b.start.Some? && b.end.Some? && DateLeq(today, b.end.value) ==>
              DaysBetween(b.end.value, today) >= 0 && r == NatToString(DaysBetween(b.end.value, today)) + " дн."
  {
    if b.start.None? then "\U{2014}"
    else if b.end.None? then "Бессрочный"
    else if DateLt(b.end.value, today) then "Завершен"
    else
      OrdinalMonotone(today, b.end.value);
      NatToString(DaysBetween(b.end.value, today)) + " дн."
  }

  /** The two status columns agree: a finished budget is inactive, an
      open-ended one is active once started, and a budget with days left
      is active exactly when it has started; on its last day it shows
      "0 дн.". */
  lemma DaysLeftAgreesWithIsActive(b: Budget, today: CivilDate)
    requires b.start.Some?
    ensures DaysLeft(b, today) == "Завершен" ==> IsActive(b, today) == Some(false)
    ensures DaysLeft(b, today) == "Бессрочный" ==> IsActive(b, today) == Some(DateLeq(b.start.value, today))
    ensures b.end.Some? && DateLeq(today, b.end.value) ==>
              IsActive(b, today) == Some(DateLeq(b.start.value, today))
    ensures b.end == Some(today) ==> DaysLeft(b, today) == "0 дн."
  {
    if b.end.Some? && DateLeq(today, b.end.value) {
      var e := b.end.value;
      OrdinalMonotone(today, e);
      var s := DaysLeft(b, today);
      assert s == NatToString(DaysBetween(e, today)) + " дн.";
      assert s[|s| - 1] == '.';
      assert s != "Завершен" by {
        assert "Завершен"[|"Завершен"| - 1] != '.';
      }
    }
    if b.end == Some(today) {
      assert DaysBetween(today, today) == 0;
      assert NatToString(0) == "0";
    }
  }

  /** A fieldset: its title, its fields and whether it starts collapsed. */
  datatype Fieldset = Fieldset(title: string, fields: seq<string>, collapsed: bool)

  /** `get_readonly_fields`: the two status fields when editing an existing
      budget, nothing when creating one. */
  function BudgetReadonlyFields(editing: bool): (r: seq<string>)
    ensures !editing ==> r == []
    ensures editing ==> "is_active" in r && "days_left" in r
  {
    if editing then ["is_active", "days_left"] else []
  }

  /** `get_fieldsets`: the main and period sections, and when editing a
      collapsed status section with the two status fields. */
  function BudgetFieldsets(editing: bool): (r: seq<Fieldset>)
    ensures |r| == if editing then 3 else 2
  {
    var main := Fieldset("Основная информация", ["user", "budget_name", "amount", "category"], false);
    var period := Fieldset("Период", ["period_type", "start_date", "end_date"], false);
    if editing then [main, period, Fieldset("Статус", ["is_active", "days_left"], true)]
    else [main, period]
  }

  predicate ShowsField(sets: seq<Fieldset>, f: string)
  {
    exists i :: 0 <= i < |sets| && f in sets[i].fields
  }

  /** The status fields are shown, read-only, exactly when editing: every
      read-only field is in some fieldset, the create form shows neither
      status field, and the create form's sections are the first sections
      of the edit form. */
  lemma BudgetStatusOnlyWhenEditing(editing: bool)
    ensures forall f :: f in BudgetReadonlyFields(editing) ==> ShowsField(BudgetFieldsets(editing), f)
    ensures ShowsField(BudgetFieldsets(editing), "is_active") <==> editing
    ensures ShowsField(BudgetFieldsets(editing), "days_left") <==> editing
    ensures BudgetFieldsets(true)[..2] == BudgetFieldsets(false)
  {
    var sets := BudgetFieldsets(editing);
    if editing {
      assert "is_active" in sets[2].fields && "days_left" in sets[2].fields;
    } else {
      assert !ShowsField(sets, "is_active") by {
        forall i | 0 <= i < |sets| ensures "is_active" !in sets[i].fields {
        }
      }
      assert !ShowsField(sets, "days_left") by {
        forall i | 0 <= i < |sets| ensures "days_left" !in sets[i].fields {
        }
      }
    }
  }
}
