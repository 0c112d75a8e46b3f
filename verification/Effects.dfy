/** What each money operation leaves behind when it goes ahead: every row it writes, column by column, and nothing else. */
module Effects {
  import opened Basics
  import opened Schema
  import opened Operations
  import opened Laws
  import opened Invariants
  import opened Guards
  import opened Runs

  /** An account after one change of its balance. */
  function Changed(a: AccountRow, balance: int): AccountRow {
    AccountRow(a.owner, a.currency, balance, a.version + 1, a.status)
  }

  lemma DepositDoes(b: Bank, a: AccountId, amount: int, currency: Currency, id: TxnId)
    requires BankInv(b) && Can(b, Commit(DepositTo(a, amount, currency), id))
    ensures a in b.rows.accounts
    ensures
      var b', account := Do(b, Commit(DepositTo(a, amount, currency), id)), b.rows.accounts[a];
      && b'.rows.accounts == b.rows.accounts[a := Changed(account, account.balance + amount)]
      && b'.rows.txns == b.rows.txns[id := TxnRow(Deposit, None, Some(a), amount, currency, None, Success, None, None)]
      && b'.rows.cards == b.rows.cards
      && b'.ledger == b.ledger + [Entry(id, a, Credit, amount, currency, account.balance, account.balance + amount)]
  {
    ProceedPosts(DepositTo(a, amount, currency), id, b.rows, false);
  }

  lemma WithdrawDoes(b: Bank, a: AccountId, amount: int, currency: Currency, id: TxnId)
    requires BankInv(b) && Can(b, Commit(WithdrawFrom(a, amount, currency), id))
    ensures a in b.rows.accounts
    ensures
      var b', account := Do(b, Commit(WithdrawFrom(a, amount, currency), id)), b.rows.accounts[a];
      && b'.rows.accounts == b.rows.accounts[a := Changed(account, account.balance - amount)]
      && b'.rows.txns == b.rows.txns[id := TxnRow(Withdrawal, Some(a), None, amount, currency, None, Success, None, None)]
      && b'.rows.cards == b.rows.cards
      && b'.ledger == b.ledger + [Entry(id, a, Debit, amount, currency, account.balance, account.balance - amount)]
  {
    ProceedPosts(WithdrawFrom(a, amount, currency), id, b.rows, false);
  }

  lemma PayByCardDoes(b: Bank, c: CardId, amount: int, currency: Currency, id: TxnId)
    requires BankInv(b) && Can(b, Commit(PayByCard(c, amount, currency), id))
    ensures c in b.rows.cards && b.rows.cards[c].account in b.rows.accounts
    ensures
      var b', a := Do(b, Commit(PayByCard(c, amount, currency), id)), b.rows.cards[c].account;
      var account := b.rows.accounts[a];
      && b'.rows.accounts == b.rows.accounts[a := Changed(account, account.balance - amount)]
      && b'.rows.txns == b.rows.txns[id := TxnRow(CardPayment, Some(a), None, amount, currency, None, Success, None, Some(c))]
      && b'.rows.cards == b.rows.cards
      && b'.ledger == b.ledger + [Entry(id, a, Debit, amount, currency, account.balance, account.balance - amount)]
  {
    ProceedPosts(PayByCard(c, amount, currency), id, b.rows, false);
  }

  lemma ConfirmDoes(b: Bank, t: TxnId, id: TxnId)
    requires BankInv(b) && Can(b, Commit(Confirm(t), id))
    ensures t in b.rows.txns
    ensures
      var row := b.rows.txns[t];
      && row.sender.Some? && row.sender.value in b.rows.accounts
      && row.receiver.Some? && row.receiver.value in b.rows.accounts && row.converted.Some?
    ensures
      var b', row := Do(b, Commit(Confirm(t), id)), b.rows.txns[t];
      var s, r := b.rows.accounts[row.sender.value], b.rows.accounts[row.receiver.value];
      && b'.rows.accounts == b.rows.accounts[row.sender.value := Changed(s, s.balance - row.amount)]
                                            [row.receiver.value := Changed(r, r.balance + row.converted.value)]
      && b'.rows.txns == b.rows.txns[t := row.(status := Success)]
      && b'.rows.cards == b.rows.cards
      && b'.ledger == b.ledger + [
           Entry(t, row.sender.value, Debit, row.amount, s.currency, s.balance, s.balance - row.amount),
           Entry(t, row.receiver.value, Credit, row.converted.value, r.currency, r.balance, r.balance + row.converted.value)]
  {
    assert StatusOk(b, t);
    if t in b.rows.txns {
      assert ShapeOk(b.rows, b.rows.txns[t]);
    }
    ProceedPosts(Confirm(t), id, b.rows, false);
  }

  // ---- Reversal --------------------------------------------------------------------------------

  /** A withdrawal takes back a deposit, a deposit a withdrawal, and a transfer a transfer. */
  predicate TakesBack(kind: TxnKind, original: TxnKind) {
    || (original == Transfer && kind == Transfer)
    || (original == Deposit && kind == Withdrawal)
    || (original == Withdrawal && kind == Deposit)
  }

  /** The rows of a reversal: one new row, of the opposite kind and direction, and the original as REVERSED. */
  lemma ReverseAdds(b: Bank, t: TxnId, id: TxnId)
    requires BankInv(b) && Can(b, Commit(Reverse(t), id))
    ensures t in b.rows.txns && id !in b.rows.txns
    ensures
      var b', o := Do(b, Commit(Reverse(t), id)), b.rows.txns[t];
      && id in b'.rows.txns
      && TakesBack(b'.rows.txns[id].kind, o.kind)
      && b'.rows.txns[id] == TxnRow(b'.rows.txns[id].kind, o.receiver, o.sender, o.amount, o.currency, None, Success, Some(t), None)
      && b'.rows.txns == b.rows.txns[id := b'.rows.txns[id]][t := o.(status := Reversed)]
      && b'.rows.cards == b.rows.cards
  {
    ProceedPosts(Reverse(t), id, b.rows, HasReversal(b.rows, t));
  }

  function AccountsReversed(b: Bank, o: TxnRow): map<AccountId, AccountRow>
    requires o.sender.Some? ==> o.sender.value in b.rows.accounts
    requires o.receiver.Some? ==> o.receiver.value in b.rows.accounts
  {
    var debited :=
      if o.receiver.None? then b.rows.accounts
      else
        var r := b.rows.accounts[o.receiver.value];
        b.rows.accounts[o.receiver.value := Changed(r, r.balance - o.amount)];
    if o.sender.None? then debited
    else
      var s := b.rows.accounts[o.sender.value];
      debited[o.sender.value := Changed(s, s.balance + o.amount)]
  }

  function EntriesReversed(b: Bank, id: TxnId, o: TxnRow): seq<Entry>
    requires o.sender.Some? ==> o.sender.value in b.rows.accounts
    requires o.receiver.Some? ==> o.receiver.value in b.rows.accounts
  {
    (if o.receiver.None? then []
     else
       var r := b.rows.accounts[o.receiver.value];
       [Entry(id, o.receiver.value, Debit, o.amount, o.currency, r.balance, r.balance - o.amount)]) +
    (if o.sender.None? then []
     else
       var s := b.rows.accounts[o.sender.value];
       [Entry(id, o.sender.value, Credit, o.amount, o.currency, s.balance, s.balance + o.amount)])
  }

  lemma ReversalMovement(b: Bank, id: TxnId, t: TxnId)
    requires t in b.rows.txns && ShapeOk(b.rows, b.rows.txns[t])
    ensures
      var o := b.rows.txns[t];
      var m := Movement(b.rows, id, ReversalOf(t, o), o.currency, o.currency);
      b.rows.accounts + m.accounts == AccountsReversed(b, o) && m.entries == EntriesReversed(b, id, o)
  {}

  /** Its movements: the receiver of the original pays the original amount, and the sender gets it. */
  lemma ReverseMoves(b: Bank, t: TxnId, id: TxnId)
    requires BankInv(b) && Can(b, Commit(Reverse(t), id))
    ensures t in b.rows.txns && ShapeOk(b.rows, b.rows.txns[t])
    ensures Do(b, Commit(Reverse(t), id)).rows.accounts == AccountsReversed(b, b.rows.txns[t])
    ensures Do(b, Commit(Reverse(t), id)).ledger == b.ledger + EntriesReversed(b, id, b.rows.txns[t])
  {
    assert ShapeOk(b.rows, b.rows.txns[t]);
    ProceedPosts(Reverse(t), id, b.rows, HasReversal(b.rows, t));
    ReversalMovement(b, id, t);
  }

  /** Nothing reverses a transaction that has just been added. */
  lemma NothingReverses(b: Bank, t: TxnId, id: TxnId)
    requires BankInv(b) && Can(b, Commit(Reverse(t), id))
    ensures !HasReversal(Do(b, Commit(Reverse(t), id)).rows, id)
  {
    ReverseAdds(b, t, id);
    var b' := Do(b, Commit(Reverse(t), id));
    forall x | x in b'.rows.txns ensures b'.rows.txns[x].reversalOf != Some(id) {
      if x in b.rows.txns {
        assert ReversalOk(b, x);
      }
    }
  }

  /**
   A reversal can itself be reversed, at once and under a new id, exactly when the accounts are active, the one that
   got the money back still covers it, and the other has room for it.
   */
  lemma ReversalIsReversible(b: Bank, t: TxnId, id: TxnId, id2: TxnId)
    requires BankInv(b) && Can(b, Commit(Reverse(t), id)) && id2 !in b.rows.txns && id2 != id
    ensures
      var b' := Do(b, Commit(Reverse(t), id));
      && id in b'.rows.txns
      && var r := b'.rows.txns[id];
      Can(b', Commit(Reverse(id), id2)) <==>
        && ActiveSide(b'.rows, r.sender) && ActiveSide(b'.rows, r.receiver)
        && (r.receiver.Some? ==> r.amount <= b'.rows.accounts[r.receiver.value].balance)
        && (r.sender.Some? ==> b'.rows.accounts[r.sender.value].balance + r.amount < CENTS_LIMIT)
  {
    var b' := Do(b, Commit(Reverse(t), id));
    StepKeepsInv(b, Commit(Reverse(t), id));
    ReverseAdds(b, t, id);
    NothingReverses(b, t, id);
    OutcomeExactly(b', Reverse(id), id2);
    var r := b'.rows.txns[id];
    assert ShapeOk(b'.rows, r);
    if r.sender.Some? {
      assert AccountOk(b', r.sender.value);
    }
  }

  // ---- Administrators --------------------------------------------------------------------------

  /** What administrators' and customers' changes of single rows do, and that they change nothing else. */
  lemma AdministrationDoes(b: Bank, action: Action)
    requires Can(b, action)
    ensures
      var b' := Do(b, action);
      match action
      case OpenAccount(a, owner, currency) =>
        && a !in b.rows.accounts
        && b' == Bank(Tables(b.rows.accounts[a := AccountRow(owner, currency, 0, 0, Active)], b.rows.txns, b.rows.cards), b.ledger)
      case SetAccountStatus(a, status) =>
        && a in b.rows.accounts
        && var before := b.rows.accounts[a];
        b' == Bank(Tables(b.rows.accounts[a := AccountRow(before.owner, before.currency, before.balance, before.version, status)],
                          b.rows.txns, b.rows.cards), b.ledger)
      case IssueCard(c, a) =>
        && c !in b.rows.cards && a in b.rows.accounts
        && b' == Bank(Tables(b.rows.accounts, b.rows.txns, b.rows.cards[c := CardRow(a, CardActive, false)]), b.ledger)
      case BlockCard(c) =>
        && c in b.rows.cards
        && b' == Bank(Tables(b.rows.accounts, b.rows.txns,
                             b.rows.cards[c := CardRow(b.rows.cards[c].account, CardBlocked, b.rows.cards[c].deleted)]), b.ledger)
      case DeleteCard(c) =>
        && c in b.rows.cards
        && b' == Bank(Tables(b.rows.accounts, b.rows.txns,
                             b.rows.cards[c := CardRow(b.rows.cards[c].account, b.rows.cards[c].status, true)]), b.ledger)
      case _ => true
  {}

  /** In every run card payments, and nothing else, name a card. */
  lemma EveryRunMarksCards(actions: seq<Action>, t: TxnId)
    requires CanRun(EMPTY_BANK, actions) && t in Run(EMPTY_BANK, actions).rows.txns
    ensures var row := Run(EMPTY_BANK, actions).rows.txns[t]; row.kind == CardPayment <==> row.card.Some?
  {
    EveryRunIsGood(actions);
    assert ShapeOk(Run(EMPTY_BANK, actions).rows, Run(EMPTY_BANK, actions).rows.txns[t]);
  }
}
