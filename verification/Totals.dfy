/** What a customer is shown as the total of each currency. */
module Totals {
  import opened Basics
  import opened Schema
  import opened Conservation

  /** The balances of the accounts of one currency that are in one of the two groups: closed or not. */
  function Total(accounts: seq<AccountRow>, c: Currency, closed: bool): int {
    if accounts == [] then 0
    else
      var last := accounts[|accounts| - 1];
      Total(accounts[..|accounts| - 1], c, closed) + if last.currency == c && (last.status == Closed) == closed then last.balance else 0
  }

  /** One account counts with its balance, in its own currency, with the closed ones exactly when it is CLOSED. */
  lemma TotalOfOne(a: AccountRow, c: Currency, closed: bool)
    ensures Total([a], c, closed) == if a.currency == c && (closed <==> a.status == Closed) then a.balance else 0
  {
    assert [a][..0] == [];
  }

  /** Totals add up over lists of accounts. */
  lemma {:induction false} TotalOfBoth(first: seq<AccountRow>, second: seq<AccountRow>, c: Currency, closed: bool)
    ensures Total(first + second, c, closed) == Total(first, c, closed) + Total(second, c, closed)
    decreases |second|
  {
    if second == [] {
      assert first + second == first;
    } else {
      var front := second[..|second| - 1];
      TotalOfBoth(first, front, c, closed);
      assert (first + second)[..|first + second| - 1] == first + front;
    }
  }

  predicate HasOpen(accounts: seq<AccountRow>, c: Currency) {
    exists a :: a in accounts && a.currency == c && a.status != Closed
  }

  /** total_balance_by_currency, over the accounts of a customer. */
  method TotalBalanceByCurrency(accounts: seq<AccountRow>) returns (totals: map<Currency, int>)
    ensures forall c :: c in totals <==> HasOpen(accounts, c)
    ensures forall c | c in totals :: totals[c] == Total(accounts, c, false)
  {
    totals := map[];
    for i := 0 to |accounts|
      invariant forall c :: c in totals <==> HasOpen(accounts[..i], c)
      invariant forall c :: Total(accounts[..i], c, false) == if c in totals then totals[c] else 0
    {
      var account := accounts[i];
      assert accounts[..i + 1] == accounts[..i] + [account];
      assert accounts[..i + 1][..i] == accounts[..i];
      if account.status == Closed {
        continue;
      }
      var before := if account.currency in totals then totals[account.currency] else 0;
      totals := totals[account.currency := before + account.balance];
    }
    assert accounts[..|accounts|] == accounts;
  }

  /** The rows of accounts, listed by id. */
  function RowsOf(b: Bank, ids: seq<AccountId>): seq<AccountRow>
    requires forall a | a in ids :: a in b.rows.accounts
  {
    if ids == [] then []
    else
      var last := ids[|ids| - 1];
      assert last in ids;
      RowsOf(b, ids[..|ids| - 1]) + [b.rows.accounts[last]]
  }

  predicate EachOnce(ids: seq<AccountId>) {
    forall j, k | 0 <= j < k < |ids| :: ids[j] != ids[k]
  }

  ghost function BalancesOf(b: Bank, ids: seq<AccountId>, c: Currency): map<int, int>
    requires forall a | a in ids :: a in b.rows.accounts
  {
    map a | a in ids :: if b.rows.accounts[a].currency == c then b.rows.accounts[a].balance else 0
  }

  lemma BalancesSnoc(b: Bank, front: seq<AccountId>, last: AccountId, c: Currency)
    requires EachOnce(front + [last]) && last in b.rows.accounts && forall a | a in front :: a in b.rows.accounts
    ensures last !in BalancesOf(b, front, c)
    ensures
      var row := b.rows.accounts[last];
      BalancesOf(b, front + [last], c) == BalancesOf(b, front, c)[last := if row.currency == c then row.balance else 0]
  {
    forall i | 0 <= i < |front| ensures front[i] != last {
      assert (front + [last])[i] == front[i] && (front + [last])[|front|] == last;
    }
  }

  lemma TotalSnoc(accounts: seq<AccountRow>, last: AccountRow, c: Currency)
    ensures Total(accounts + [last], c, false) + Total(accounts + [last], c, true)
         == Total(accounts, c, false) + Total(accounts, c, true) + if last.currency == c then last.balance else 0
  {
    assert (accounts + [last])[..|accounts|] == accounts;
  }

  lemma {:induction false} TotalsAdd(b: Bank, ids: seq<AccountId>, c: Currency)
    requires EachOnce(ids) && forall a | a in ids :: a in b.rows.accounts
    ensures Total(RowsOf(b, ids), c, false) + Total(RowsOf(b, ids), c, true) == Sum(BalancesOf(b, ids, c))
  {
    if ids == [] {
      assert BalancesOf(b, ids, c) == map[];
    } else {
      var front, last := ids[..|ids| - 1], ids[|ids| - 1];
      TotalsAdd(b, front, c);
      var row := b.rows.accounts[last];
      TotalSnoc(RowsOf(b, front), row, c);
      SumUpdate(BalancesOf(b, front, c), last, if row.currency == c then row.balance else 0);
      BalancesSnoc(b, front, last, c);
      assert ids == front + [last];
    }
  }

  /**
   Over a listing of every account of a bank whose totals are conserved, what is shown for a currency
   and what is left in closed accounts make up exactly what came in and did not leave.
   */
  lemma ShownIsConserved(b: Bank, ids: seq<AccountId>, c: Currency)
    requires Conserved(b) && EachOnce(ids)
    requires forall a :: a in ids <==> a in b.rows.accounts
    ensures Total(RowsOf(b, ids), c, false) + Total(RowsOf(b, ids), c, true) == Sum(Inflows(b, c))
  {
    TotalsAdd(b, ids, c);
    assert forall a | a in b.rows.accounts :: a in ids;
    assert BalancesOf(b, ids, c) == Balances(b, c);
  }
}
