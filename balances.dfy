/** Grouping account balances by currency code: the dictionary that both
    the admin's "total balance" column and the API's `by_currency` build
    with a loop over a user's accounts. A Python dict keeps its keys in
    insertion order, so the grouping is a sequence of codes in order of
    first appearance together with a total per code. */
module Balances {
  import opened Seqs
  import opened Models

  function CodeOf(a: Account): string
  {
    a.currency.code
  }

  /** Some account of the table is held in currency `code`. */
  predicate HasCode(accounts: seq<Account>, code: string)
  {
    exists a :: a in accounts && CodeOf(a) == code
  }

  /** The position of the first account held in `code`, or the table's
      length when there is none. */
  function FirstIndex(accounts: seq<Account>, code: string): (k: nat)
    ensures k <= |accounts|
    ensures k < |accounts| <==> HasCode(accounts, code)
    ensures k < |accounts| ==> CodeOf(accounts[k]) == code
    ensures forall j :: 0 <= j < k ==> CodeOf(accounts[j]) != code
    decreases |accounts|
  {
    if accounts == [] then 0
    else if CodeOf(accounts[0]) == code then 0
    else
      var k := FirstIndex(accounts[1..], code);
      assert HasCode(accounts, code) ==> HasCode(accounts[1..], code) by {
        if HasCode(accounts, code) {
          var a :| a in accounts && CodeOf(a) == code;
          assert a != accounts[0];
          assert a in accounts[1..];
        }
      }
      assert forall j :: 0 < j <= k ==> accounts[j] == accounts[1..][j - 1];
      1 + k
  }

  /** Appending an account leaves the first position of a code already
      present, and puts a new code's first position at the end. */
  lemma FirstIndexSnoc(accounts: seq<Account>, a: Account, code: string)
    ensures HasCode(accounts, code) ==> FirstIndex(accounts + [a], code) == FirstIndex(accounts, code)
    ensures !HasCode(accounts, code) && CodeOf(a) == code ==> FirstIndex(accounts + [a], code) == |accounts|
  {
    var next := accounts + [a];
    var k, k' := FirstIndex(accounts, code), FirstIndex(next, code);
    if HasCode(accounts, code) {
      assert next[k] == accounts[k];
      assert k' < |next| && k' <= k;
      assert next[k'] == accounts[k'];
    } else if CodeOf(a) == code {
      assert next[|accounts|] == a;
      assert forall j :: 0 <= j < |accounts| ==> next[j] == accounts[j];
      assert forall j :: 0 <= j < |accounts| ==> CodeOf(next[j]) != code by {
        forall j | 0 <= j < |accounts|
          ensures CodeOf(next[j]) != code
        {
          assert accounts[j] in accounts;
        }
      }
    }
  }

  /** `r` lists each code of `accounts` once, in order of first
      appearance. */
  ghost predicate FirstAppearanceOrder(r: seq<string>, accounts: seq<Account>)
  {
    && NoDuplicates(r)
    && (forall c :: c in r <==> HasCode(accounts, c))
    && (forall i, j :: 0 <= i < j < |r| ==> FirstIndex(accounts, r[i]) < FirstIndex(accounts, r[j]))
  }

  /** One more account holds its own code and no other. */
  lemma HasCodeSnoc(init: seq<Account>, last: Account, c: string)
    ensures HasCode(init + [last], c) <==> HasCode(init, c) || c == CodeOf(last)
  {
    var accounts := init + [last];
    if HasCode(accounts, c) && c != CodeOf(last) {
      var a :| a in accounts && CodeOf(a) == c;
      assert a in init;
    }
    if HasCode(init, c) {
      var a :| a in init && CodeOf(a) == c;
      assert a in accounts;
    }
    assert last in accounts;
  }

  /** Listing the codes of one more account: a code not yet listed goes
      at the end, after every code that first appeared earlier. */
  lemma FirstAppearanceStep(init: seq<Account>, last: Account, p: seq<string>, r: seq<string>)
    requires FirstAppearanceOrder(p, init)
    requires r == if CodeOf(last) in p then p else p + [CodeOf(last)]
    ensures FirstAppearanceOrder(r, init + [last])
  {
    var accounts, x := init + [last], CodeOf(last);
    assert |r| <= |p| + 1 && forall i :: 0 <= i < |p| ==> r[i] == p[i];
    assert NoDuplicates(r) by {
      if x !in p {
        assert forall i :: 0 <= i < |p| ==> p[i] in p;
      }
    }
    assert forall c :: c in r <==> HasCode(accounts, c) by {
      forall c
        ensures c in r <==> HasCode(accounts, c)
      {
        HasCodeSnoc(init, last, c);
      }
    }
    forall i, j | 0 <= i < j < |r|
      ensures FirstIndex(accounts, r[i]) < FirstIndex(accounts, r[j])
    {
      assert p[i] in p;
      FirstIndexSnoc(init, last, p[i]);
      if j < |p| {
        assert p[j] in p;
        FirstIndexSnoc(init, last, p[j]);
      } else {
        assert r[j] == x && !HasCode(init, x);
        FirstIndexSnoc(init, last, x);
      }
    }
  }

  /** The distinct currency codes of `accounts`, in order of first
      appearance (the key order of a dictionary filled account by
      account). */
  function CurrencyCodes(accounts: seq<Account>): (r: seq<string>)
    ensures NoDuplicates(r)
    ensures forall c :: c in r <==> HasCode(accounts, c)
    ensures forall i, j :: 0 <= i < j < |r| ==> FirstIndex(accounts, r[i]) < FirstIndex(accounts, r[j])
    decreases |accounts|
  {
    if accounts == [] then []
    else
      var init := accounts[..|accounts| - 1];
      var last := accounts[|accounts| - 1];
      assert accounts == init + [last];
      var p := CurrencyCodes(init);
      var r := if CodeOf(last) in p then p else p + [CodeOf(last)];
      FirstAppearanceStep(init, last, p, r);
      r
  }

  /** The sum of the balances of the accounts held in currency `code`. */
  function CurrencyTotal(accounts: seq<Account>, code: string): int
    decreases |accounts|
  {
    if accounts == [] then 0
    else
      var last := accounts[|accounts| - 1];
      CurrencyTotal(accounts[..|accounts| - 1], code) + (if CodeOf(last) == code then last.balance else 0)
  }

  /** `d.setdefault(code, 0); d[code] += amount`: the dictionary with
      `amount` added under `code`, a missing code starting from zero. */
  function Credit(m: map<string, int>, code: string, amount: int): map<string, int>
  {
    m[code := (if code in m then m[code] else 0) + amount]
  }

  /** The dictionary the loop builds: each account's balance credited to
      its currency code, account after account. */
  function ByCurrency(accounts: seq<Account>): map<string, int>
    decreases |accounts|
  {
    if accounts == [] then map[]
    else
      var last := accounts[|accounts| - 1];
      Credit(ByCurrency(accounts[..|accounts| - 1]), CodeOf(last), last.balance)
  }

  /** The sum of the per-currency totals over a list of codes. */
  function SumTotals(codes: seq<string>, accounts: seq<Account>): int
    decreases |codes|
  {
    if codes == [] then 0
    else SumTotals(codes[..|codes| - 1], accounts) + CurrencyTotal(accounts, codes[|codes| - 1])
  }

  lemma CurrencyTotalStep(accounts: seq<Account>, a: Account, code: string)
    ensures CurrencyTotal(accounts + [a], code) == CurrencyTotal(accounts, code) + (if CodeOf(a) == code then a.balance else 0)
  {
    assert (accounts + [a])[..|accounts|] == accounts;
  }

  /** A currency none of the accounts uses totals zero. */
  lemma {:induction false} CurrencyTotalAbsent(accounts: seq<Account>, code: string)
    requires forall a :: a in accounts ==> CodeOf(a) != code
    ensures CurrencyTotal(accounts, code) == 0
    decreases |accounts|
  {
    if accounts != [] {
      var init := accounts[..|accounts| - 1];
      assert accounts == init + [accounts[|accounts| - 1]];
      CurrencyTotalAbsent(init, code);
    }
  }

  /** Adding one account to the table adds its balance to exactly one of a
      duplicate-free list of codes: its own, when listed. */
  lemma {:induction false} SumTotalsStep(codes: seq<string>, accounts: seq<Account>, a: Account)
    requires NoDuplicates(codes)
    ensures SumTotals(codes, accounts + [a]) == SumTotals(codes, accounts) + (if CodeOf(a) in codes then a.balance else 0)
    decreases |codes|
  {
    if codes != [] {
      var init := codes[..|codes| - 1];
      var x := codes[|codes| - 1];
      assert codes == init + [x];
      assert NoDuplicates(init);
      assert x !in init;
      SumTotalsStep(init, accounts, a);
      CurrencyTotalStep(accounts, a, x);
    }
  }

  lemma SumTotalsAppend(codes: seq<string>, c: string, accounts: seq<Account>)
    ensures SumTotals(codes + [c], accounts) == SumTotals(codes, accounts) + CurrencyTotal(accounts, c)
  {
    assert (codes + [c])[..|codes|] == codes;
  }

  /** One more account adds its balance to the sum of the per-currency
      totals, whether its code is new or already listed. */
  lemma AddUpStep(init: seq<Account>, last: Account, p: seq<string>, r: seq<string>)
    requires NoDuplicates(p) && forall c :: c in p <==> HasCode(init, c)
    requires r == if CodeOf(last) in p then p else p + [CodeOf(last)]
    requires SumTotals(p, init) == BalanceSum(init)
    ensures SumTotals(r, init + [last]) == BalanceSum(init + [last])
  {
    var accounts := init + [last];
    assert accounts[..|accounts| - 1] == init;
    SumTotalsStep(p, init, last);
    if CodeOf(last) !in p {
      SumTotalsAppend(p, CodeOf(last), accounts);
      CurrencyTotalStep(init, last, CodeOf(last));
      CurrencyTotalAbsent(init, CodeOf(last));
    }
  }

  /** The per-currency totals add up to the overall balance: grouping by
      currency neither loses nor double-counts an account. */
  lemma {:induction false} CurrencyTotalsAddUp(accounts: seq<Account>)
    ensures SumTotals(CurrencyCodes(accounts), accounts) == BalanceSum(accounts)
    decreases |accounts|
  {
    if accounts != [] {
      var init := accounts[..|accounts| - 1];
      var last := accounts[|accounts| - 1];
      assert accounts == init + [last];
      CurrencyTotalsAddUp(init);
      CurrencyCodesStep(init, last, accounts);
      AddUpStep(init, last, CurrencyCodes(init), CurrencyCodes(accounts));
    }
  }

  /** One turn of the loop on the code list: a code not seen before is
      appended. */
  lemma CurrencyCodesStep(accounts: seq<Account>, a: Account, next: seq<Account>)
    requires next == accounts + [a]
    ensures CurrencyCodes(next) ==
            if CodeOf(a) in CurrencyCodes(accounts) then CurrencyCodes(accounts) else CurrencyCodes(accounts) + [CodeOf(a)]
  {
    assert next[..|accounts|] == accounts;
  }

  /** One turn of the loop on the dictionary: the account's balance is
      credited to its code. */
  lemma ByCurrencyStep(accounts: seq<Account>, a: Account, next: seq<Account>)
    requires next == accounts + [a]
    ensures ByCurrency(next) == Credit(ByCurrency(accounts), CodeOf(a), a.balance)
  {
    assert next[..|accounts|] == accounts;
  }

  /** The dictionary is the per-currency grouping: its keys are exactly
      the codes some account is held in, and each holds the sum of the
      balances of that currency's accounts. */
  lemma {:induction false} ByCurrencyTotals(accounts: seq<Account>)
    ensures forall c :: c in ByCurrency(accounts) <==> HasCode(accounts, c)
    ensures forall c :: c in ByCurrency(accounts) ==> ByCurrency(accounts)[c] == CurrencyTotal(accounts, c)
    decreases |accounts|
  {
    if accounts != [] {
      var init := accounts[..|accounts| - 1];
      var last := accounts[|accounts| - 1];
      assert accounts == init + [last];
      ByCurrencyTotals(init);
      var m := ByCurrency(init);
      assert ByCurrency(accounts) == Credit(m, CodeOf(last), last.balance);
      forall c
        ensures c in ByCurrency(accounts) <==> HasCode(accounts, c)
      {
        if HasCode(accounts, c) && c != CodeOf(last) {
          var x :| x in accounts && CodeOf(x) == c;
          assert x in init;
        }
      }
      forall c | c in ByCurrency(accounts)
        ensures ByCurrency(accounts)[c] == CurrencyTotal(accounts, c)
      {
        CurrencyTotalStep(init, last, c);
        if c == CodeOf(last) && c !in m {
          CurrencyTotalAbsent(init, c);
        }
      }
    }
  }

  /** The loop's step: given the codes and the dictionary for the first
      `i` accounts, taking account `i` (a new code appended when the
      dictionary lacks it, then the missing code started from zero and the
      balance added) gives those of the first `i + 1` accounts. */
  lemma GroupingStep(accounts: seq<Account>, i: nat, codes: seq<string>, balances: map<string, int>,
                     codes': seq<string>, total: int, balances': map<string, int>)
    requires i < |accounts|
    requires codes == CurrencyCodes(accounts[..i]) && balances == ByCurrency(accounts[..i])
    requires codes' == if CodeOf(accounts[i]) !in balances then codes + [CodeOf(accounts[i])] else codes
    requires total == if CodeOf(accounts[i]) in balances then balances[CodeOf(accounts[i])] else 0
    requires balances' == balances[CodeOf(accounts[i]) := total + accounts[i].balance]
    ensures codes' == CurrencyCodes(accounts[..i + 1]) && balances' == ByCurrency(accounts[..i + 1])
  {
    var seen, a, next := accounts[..i], accounts[i], accounts[..i + 1];
    assert next == seen + [a];
    assert codes' == CurrencyCodes(next) by {
      assert CodeOf(a) in balances <==> CodeOf(a) in codes by {
        ByCurrencyTotals(seen);
      }
      CurrencyCodesStep(seen, a, next);
    }
    assert balances' == ByCurrency(next) by {
      assert balances' == Credit(balances, CodeOf(a), a.balance);
      ByCurrencyStep(seen, a, next);
    }
  }

  /** The loop both views share: for each account in turn, a code not yet
      seen is added with a zero total, then the account's balance is added
      to its code's total. */
  method GroupByCurrency(accounts: seq<Account>) returns (codes: seq<string>, balances: map<string, int>)
    ensures codes == CurrencyCodes(accounts)
    ensures balances == ByCurrency(accounts)
  {
    codes := [];
    balances := map[];
    var i := 0;
    assert accounts[..0] == [];
    assert ByCurrency([]) == map[];
    while i < |accounts|
      invariant 0 <= i <= |accounts|
      invariant codes == CurrencyCodes(accounts[..i])
      invariant balances == ByCurrency(accounts[..i])
    {
      var account := accounts[i];
      var currency := CodeOf(account);
      ghost var codes0, balances0 := codes, balances;
      if currency !in balances {
        codes := codes + [currency];
      }
      var total := if currency in balances then balances[currency] else 0;
      balances := balances[currency := total + account.balance];
      GroupingStep(accounts, i, codes0, balances0, codes, total, balances);
      i := i + 1;
    }
    assert accounts[..i] == accounts;
  }
}
