/** Where the money in each currency comes from. */
module Conservation {
  import opened Basics
  import opened Schema
  import opened Operations
  import opened Laws
  import opened Invariants

  ghost function Balances(b: Bank, c: Currency): map<AccountId, int> {
    map a | a in b.rows.accounts :: if b.rows.accounts[a].currency == c then b.rows.accounts[a].balance else 0
  }

  /** What the transaction brings into the accounts held in c, less what it takes out of them. */
  function Inflow(rows: Tables, t: TxnRow, c: Currency): int {
    (if t.receiver.Some? && t.receiver.value in rows.accounts && rows.accounts[t.receiver.value].currency == c then Credited(t) else 0) -
    (if t.sender.Some? && t.sender.value in rows.accounts && rows.accounts[t.sender.value].currency == c then t.amount else 0)
  }

  /** The inflows of the transactions whose money has moved. */
  ghost function Inflows(b: Bank, c: Currency): map<TxnId, int> {
    map t | t in b.rows.txns :: if MovesOf(b.ledger, t) == [] then 0 else Inflow(b.rows, b.rows.txns[t], c)
  }

  /** The total of all balances in a currency is the total inflow of the executed transactions. */
  ghost predicate Conserved(b: Bank) {
    forall c :: Sum(Balances(b, c)) == Sum(Inflows(b, c))
  }

  /**
   By kind: deposits bring their amount in, withdrawals and card payments take it out, a transfer
   within a currency brings nothing, and a transfer between currencies takes the amount out of one
   total and brings the converted amount into the other.
   */
  lemma InflowByKind(rows: Tables, t: TxnRow, c: Currency)
    requires ShapeOk(rows, t) && t.reversalOf.None?
    ensures t.kind == Deposit ==> Inflow(rows, t, c) == if t.currency == c then t.amount else 0
    ensures t.kind in {Withdrawal, CardPayment} ==> Inflow(rows, t, c) == if t.currency == c then -t.amount else 0
    ensures t.kind == Transfer ==>
      var target := rows.accounts[t.receiver.value].currency;
      Inflow(rows, t, c) == if t.currency == target then 0
                            else if c == t.currency then -t.amount
                            else if c == target then t.converted.value
                            else 0
  {}

  /**
   A reversal takes back in every currency what its original brought in, exactly when the original was
   not converted.
   */
  lemma InflowOfReversal(rows: Tables, o: TxnId, t: TxnRow)
    requires ShapeOk(rows, t)
    ensures (forall c :: Inflow(rows, ReversalOf(o, t), c) == -Inflow(rows, t, c)) <==> Credited(t) == t.amount
  {
    if t.receiver.Some? {
      var c := rows.accounts[t.receiver.value].currency;
      assert Inflow(rows, ReversalOf(o, t), c) + Inflow(rows, t, c) == Credited(t) - t.amount;
    }
  }

  /** An amount, as far as it is on an account held in c. */
  function InCurrency(rows: Tables, a: AccountId, amount: int, c: Currency): int
    requires a in rows.accounts
  {
    if rows.accounts[a].currency == c then amount else 0
  }

  ghost function Debited(b: Bank, t: TxnRow, c: Currency): map<AccountId, int>
    requires t.sender.Some? ==> t.sender.value in b.rows.accounts
  {
    var m := Balances(b, c);
    if t.sender.None? then m
    else m[t.sender.value := m[t.sender.value] - InCurrency(b.rows, t.sender.value, t.amount, c)]
  }

  /** A posting debits one balance and then credits another. */
  lemma PostedBalances(b: Bank, p: TxnId, t: TxnRow, tag1: Currency, tag2: Currency, c: Currency)
    requires Postable(b, p, t)
    ensures
      var debited := Debited(b, t, c);
      Balances(Posting(b, p, t, tag1, tag2), c) ==
        if t.receiver.None? then debited
        else debited[t.receiver.value := debited[t.receiver.value] + InCurrency(b.rows, t.receiver.value, Credited(t), c)]
  {
    var b', debited := Posting(b, p, t, tag1, tag2), Debited(b, t, c);
    var credited := if t.receiver.None? then debited
                    else debited[t.receiver.value := debited[t.receiver.value] + InCurrency(b.rows, t.receiver.value, Credited(t), c)];
    PostingKeepsCurrencies(b, p, t, tag1, tag2);
    forall a ensures a in Balances(b', c) <==> a in credited
             ensures a in credited ==> Balances(b', c)[a] == credited[a]
    {
      PostedAccount(b, p, t, tag1, tag2, a);
      assert a in b.rows.accounts <==> a in b'.rows.accounts;
    }
  }

  lemma BalancesAfterPosting(b: Bank, p: TxnId, t: TxnRow, tag1: Currency, tag2: Currency, c: Currency)
    requires Postable(b, p, t)
    ensures Sum(Balances(Posting(b, p, t, tag1, tag2), c)) == Sum(Balances(b, c)) + Inflow(b.rows, t, c)
  {
    var m := Balances(b, c);
    var debited := Debited(b, t, c);
    PostedBalances(b, p, t, tag1, tag2, c);
    if t.sender.Some? {
      SumUpdate(m, t.sender.value, debited[t.sender.value]);
    }
    if t.receiver.Some? {
      SumUpdate(debited, t.receiver.value, debited[t.receiver.value] + InCurrency(b.rows, t.receiver.value, Credited(t), c));
    }
  }

  /** An inflow depends neither on the status nor on anything but the currencies of the accounts. */
  lemma InflowStable(rows: Tables, rows': Tables, t: TxnRow, status: TxnStatus, c: Currency)
    requires ShapeOk(rows, t) && SameCurrencies(rows, rows')
    ensures Inflow(rows', t.(status := status), c) == Inflow(rows, t, c)
  {
    if t.sender.Some? {
      var a := t.sender.value;
      assert a in rows.accounts;
      assert a in rows'.accounts;
    }
    if t.receiver.Some? {
      var a := t.receiver.value;
      assert a in rows.accounts;
      assert a in rows'.accounts;
    }
  }

  lemma InflowAfterPosting(b: Bank, p: TxnId, t: TxnRow, tag1: Currency, tag2: Currency, c: Currency, x: TxnId)
    requires BankInv(b) && Postable(b, p, t) && x in Posting(b, p, t, tag1, tag2).rows.txns
    ensures x == p || x in b.rows.txns
    ensures Inflows(Posting(b, p, t, tag1, tag2), c)[x] == if x == p then Inflow(b.rows, t, c) else Inflows(b, c)[x]
  {
    var b' := Posting(b, p, t, tag1, tag2);
    PostingKeepsCurrencies(b, p, t, tag1, tag2);
    PostingFolds(b, p, t, tag1, tag2, 0, x);
    if x == p {
      PostedShape(b, p, t);
      assert b'.rows.txns[p] == t.(status := Success);
      InflowStable(b.rows, b'.rows, t, Success, c);
    } else {
      assert b'.rows.txns[x] == b.rows.txns[x].(status := b'.rows.txns[x].status);
      InflowStable(b.rows, b'.rows, b.rows.txns[x], b'.rows.txns[x].status, c);
    }
  }

  lemma InflowsAfterPosting(b: Bank, p: TxnId, t: TxnRow, tag1: Currency, tag2: Currency, c: Currency)
    requires BankInv(b) && Postable(b, p, t)
    ensures Sum(Inflows(Posting(b, p, t, tag1, tag2), c)) == Sum(Inflows(b, c)) + Inflow(b.rows, t, c)
  {
    var before, after, added := Inflows(b, c), Inflows(Posting(b, p, t, tag1, tag2), c), Inflow(b.rows, t, c);
    forall x | x in after ensures x in before[p := added] && after[x] == before[p := added][x] {
      InflowAfterPosting(b, p, t, tag1, tag2, c, x);
    }
    assert before[p := added].Keys == after.Keys;
    assert after == before[p := added];
    assert StatusOk(b, p);
    SumUpdate(before, p, added);
  }

  /** Steps that change no balance, no ledger entry and no amount. */
  lemma QuietStepConserves(b: Bank, b': Bank, c: Currency)
    requires BankInv(b) && b'.ledger == b.ledger
    requires b'.rows.accounts.Keys == b.rows.accounts.Keys
    requires forall a | a in b.rows.accounts :: b'.rows.accounts[a] == b.rows.accounts[a].(status := b'.rows.accounts[a].status)
    requires b'.rows.txns.Keys == b.rows.txns.Keys
    requires forall t | t in b.rows.txns :: b'.rows.txns[t] == b.rows.txns[t].(status := b'.rows.txns[t].status)
    ensures Balances(b', c) == Balances(b, c)
    ensures Inflows(b', c) == Inflows(b, c)
  {
    forall a | a in b.rows.accounts ensures Balances(b', c)[a] == Balances(b, c)[a] {
      assert b'.rows.accounts[a] == b.rows.accounts[a].(status := b'.rows.accounts[a].status);
    }
    forall t | t in b.rows.txns ensures Inflow(b'.rows, b'.rows.txns[t], c) == Inflow(b.rows, b.rows.txns[t], c) {
      InflowStable(b.rows, b'.rows, b.rows.txns[t], b'.rows.txns[t].status, c);
    }
  }

  lemma OpeningConserves(b: Bank, a: AccountId, row: AccountRow, c: Currency)
    requires BankInv(b) && a !in b.rows.accounts && row.balance == 0
    ensures Sum(Balances(WithAccount(b, a, row), c)) == Sum(Balances(b, c))
    ensures Inflows(WithAccount(b, a, row), c) == Inflows(b, c)
  {
    var b' := WithAccount(b, a, row);
    assert Balances(b', c) == Balances(b, c)[a := 0];
    SumUpdate(Balances(b, c), a, 0);
    forall t | t in b.rows.txns ensures Inflow(b'.rows, b'.rows.txns[t], c) == Inflow(b.rows, b.rows.txns[t], c) {
      InflowStable(b.rows, b'.rows, b.rows.txns[t], b.rows.txns[t].status, c);
    }
  }

  lemma InitiatingConserves(b: Bank, t: TxnId, row: TxnRow, c: Currency)
    requires BankInv(b) && t !in b.rows.txns
    ensures Balances(WithTxn(b, t, row), c) == Balances(b, c)
    ensures Sum(Inflows(WithTxn(b, t, row), c)) == Sum(Inflows(b, c))
  {
    var before, after := Inflows(b, c), Inflows(WithTxn(b, t, row), c);
    assert StatusOk(b, t);
    assert after.Keys == before.Keys + {t};
    forall x | x in after ensures after[x] == before[t := 0][x] {
      if x != t {
        assert WithTxn(b, t, row).rows.txns[x] == b.rows.txns[x];
      }
    }
    assert after == before[t := 0];
    SumUpdate(before, t, 0);
  }

  lemma StepConserves(b: Bank, action: Action)
    requires BankInv(b) && Conserved(b) && Can(b, action)
    ensures Conserved(Do(b, action))
  {
    forall c ensures Sum(Balances(Do(b, action), c)) == Sum(Inflows(Do(b, action), c)) {
      assert Sum(Balances(b, c)) == Sum(Inflows(b, c));
      match action
      case Commit(call, id) =>
        CommitPosts(b, call, id);
        var p, t, tag1, tag2 := PostedId(call, id), PostedRow(call, b.rows), DebitTag(call, b.rows), CreditTag(call, b.rows);
        BalancesAfterPosting(b, p, t, tag1, tag2, c);
        InflowsAfterPosting(b, p, t, tag1, tag2, c);
      case OpenAccount(a, owner, currency) => OpeningConserves(b, a, AccountRow(owner, currency, 0, 0, Active), c);
      case Initiate(t, row) => InitiatingConserves(b, t, row, c);
      case SetAccountStatus(_, _) => QuietStepConserves(b, Do(b, action), c);
      case LateFail(_) => QuietStepConserves(b, Do(b, action), c);
      case IssueCard(_, _) => QuietStepConserves(b, Do(b, action), c);
      case BlockCard(_) => QuietStepConserves(b, Do(b, action), c);
      case DeleteCard(_) => QuietStepConserves(b, Do(b, action), c);
    }
  }
}
