/** What every committed state satisfies, and that every step of the system keeps it. */
module Invariants {
  import opened Basics
  import opened Schema
  import opened Operations
  import opened Laws

  // ---- Atomic steps ---------------------------------------------------------------------------

  /**
   The changes of the committed rows. Commit is a money operation that goes ahead. LateFail is the
   unlocked writer of FAILED: it acts on an earlier read and overwrites whatever status is there.
   */
  datatype Action =
    | Commit(call: Call, id: TxnId)
    | LateFail(txn: TxnId)
    | OpenAccount(account: AccountId, owner: CustomerId, currency: Currency)
    | SetAccountStatus(account: AccountId, status: AccountStatus)
    | IssueCard(card: CardId, account: AccountId)
    | BlockCard(card: CardId)
    | DeleteCard(card: CardId)
    | Initiate(txn: TxnId, row: TxnRow)

  /** A transfer that a customer or a schedule initiated, as opposed to a reversal. */
  predicate Initiated(t: TxnRow) {
    t.kind == Transfer && t.reversalOf.None?
  }

  /** The rows that _validate_and_create_pending_transaction inserts. */
  predicate InitiatedOn(rows: Tables, t: TxnRow) {
    && Initiated(t) && t.status == Pending && t.card.None?
    && t.sender.Some? && t.sender.value in rows.accounts
    && t.receiver.Some? && t.receiver.value in rows.accounts
    && t.sender != t.receiver
    && 0 < t.amount && Storable(t.amount)
    && t.currency == rows.accounts[t.sender.value].currency
    && t.converted.Some? && 0 <= t.converted.value && Storable(t.converted.value)
    && (rows.accounts[t.receiver.value].currency == t.currency ==> t.converted.value == t.amount)
  }

  predicate Can(b: Bank, action: Action) {
    match action
    case Commit(call, id) => DecideNow(call, id, b).Proceed?
    case LateFail(t) => t in b.rows.txns && Initiated(b.rows.txns[t])
    case OpenAccount(a, _, _) => a !in b.rows.accounts
    case SetAccountStatus(a, _) => a in b.rows.accounts
    case IssueCard(c, a) => c !in b.rows.cards && a in b.rows.accounts
    case BlockCard(c) => c in b.rows.cards
    case DeleteCard(c) => c in b.rows.cards
    case Initiate(t, row) => t !in b.rows.txns && InitiatedOn(b.rows, row)
  }

  function WithTxn(b: Bank, t: TxnId, row: TxnRow): Bank {
    b.(rows := b.rows.(txns := b.rows.txns[t := row]))
  }

  function WithAccount(b: Bank, a: AccountId, row: AccountRow): Bank {
    b.(rows := b.rows.(accounts := b.rows.accounts[a := row]))
  }

  function WithCard(b: Bank, c: CardId, row: CardRow): Bank {
    b.(rows := b.rows.(cards := b.rows.cards[c := row]))
  }

  function Do(b: Bank, action: Action): Bank
    requires Can(b, action)
  {
    match action
    case Commit(call, id) => Publish(b, DecideNow(call, id, b).writes)
    case LateFail(t) => WithTxn(b, t, b.rows.txns[t].(status := Failed))
    case OpenAccount(a, owner, currency) => WithAccount(b, a, AccountRow(owner, currency, 0, 0, Active))
    case SetAccountStatus(a, status) => WithAccount(b, a, b.rows.accounts[a].(status := status))
    case IssueCard(c, a) => WithCard(b, c, CardRow(a, CardActive, false))
    case BlockCard(c) => WithCard(b, c, b.rows.cards[c].(status := CardBlocked))
    case DeleteCard(c) => WithCard(b, c, b.rows.cards[c].(deleted := true))
    case Initiate(t, row) => WithTxn(b, t, row)
  }

  // ---- The invariant --------------------------------------------------------------------------

  predicate ShapeOk(rows: Tables, t: TxnRow) {
    && SidesSet(t)
    && (t.sender.Some? ==> t.sender.value in rows.accounts)
    && (t.receiver.Some? ==> t.receiver.value in rows.accounts)
    && t.sender != t.receiver
    && 0 < t.amount && Storable(t.amount)
    && (t.converted.Some? <==> Initiated(t))
    && (t.card.Some? <==> t.kind == CardPayment)
    && (t.converted.Some? ==> 0 <= t.converted.value)
    && (t.reversalOf.None? && t.sender.Some? ==> t.currency == rows.accounts[t.sender.value].currency)
    && (t.reversalOf.None? && t.kind == Deposit ==> t.currency == rows.accounts[t.receiver.value].currency)
    && (Initiated(t) && rows.accounts[t.receiver.value].currency == t.currency ==> t.converted.value == t.amount)
  }

  predicate ShapesOk(rows: Tables) {
    forall t | t in rows.txns :: ShapeOk(rows, rows.txns[t])
  }

  /** Replaying the ledger gives the balance, the version counts the entries, no balance is negative. */
  predicate AccountOk(b: Bank, a: AccountId) {
    if a in b.rows.accounts then
      && b.rows.accounts[a].balance == Net(b.ledger, a)
      && b.rows.accounts[a].version == Count(b.ledger, a)
      && 0 <= b.rows.accounts[a].balance < CENTS_LIMIT
    else
      Net(b.ledger, a) == 0 && Count(b.ledger, a) == 0
  }

  ghost predicate AccountsOk(b: Bank) {
    forall a :: AccountOk(b, a)
  }

  /** The ledger holds exactly the movements that the row stands for. */
  predicate Settled(b: Bank, t: TxnId)
    requires t in b.rows.txns
  {
    MovesOf(b.ledger, t) == Expected(b.rows.txns[t])
  }

  predicate StatusOk(b: Bank, t: TxnId) {
    if t !in b.rows.txns then MovesOf(b.ledger, t) == []
    else
      match b.rows.txns[t].status
      case Pending => Initiated(b.rows.txns[t]) && MovesOf(b.ledger, t) == []
      case Success => Settled(b, t)
      case Reversed => Settled(b, t)
      case Failed => Initiated(b.rows.txns[t]) && (MovesOf(b.ledger, t) == [] || Settled(b, t))
  }

  ghost predicate StatusesOk(b: Bank) {
    forall t :: StatusOk(b, t)
  }

  /** r is the settled mirror image of an earlier, settled transaction. */
  predicate ReversalOk(b: Bank, r: TxnId)
    requires r in b.rows.txns
  {
    var row := b.rows.txns[r];
    row.reversalOf.Some? ==>
      && row.reversalOf.value in b.rows.txns
      && var o := row.reversalOf.value;
         var original := b.rows.txns[o];
      && original.status in {Reversed, Failed}
      && Settled(b, o)
      && original.kind != CardPayment
      && row.status in {Success, Reversed}
      && row == ReversalOf(o, original).(status := row.status)
  }

  predicate ReversalsOk(b: Bank) {
    && (forall r | r in b.rows.txns :: ReversalOk(b, r))
    && (forall r, s | r in b.rows.txns && s in b.rows.txns && b.rows.txns[r].reversalOf.Some? ::
          b.rows.txns[r].reversalOf == b.rows.txns[s].reversalOf ==> r == s)
    && (forall o | o in b.rows.txns && b.rows.txns[o].status == Reversed :: HasReversal(b.rows, o))
  }

  ghost predicate BankInv(b: Bank) {
    && ShapesOk(b.rows)
    && AccountsOk(b)
    && Chained(b.ledger)
    && StatusesOk(b)
    && ReversalsOk(b)
  }

  // ---- What a movement adds to the folds -------------------------------------------------------

  function DeltaOf(t: TxnRow, a: AccountId): int {
    (if t.sender == Some(a) then -t.amount else 0) + (if t.receiver == Some(a) then Credited(t) else 0)
  }

  function TouchesOf(t: TxnRow, a: AccountId): nat {
    (if t.sender == Some(a) then 1 else 0) + (if t.receiver == Some(a) then 1 else 0)
  }

  lemma DebitFolds(b: Bank, p: TxnId, t: TxnRow, tag: Currency, a: AccountId, x: TxnId)
    requires t.sender.Some? ==> t.sender.value in b.rows.accounts
    ensures
      var ledger := b.ledger + DebitEntry(b.rows, p, t, tag);
      && Net(ledger, a) == Net(b.ledger, a) + (if t.sender == Some(a) then -t.amount else 0)
      && Count(ledger, a) == Count(b.ledger, a) + (if t.sender == Some(a) then 1 else 0)
      && MovesOf(ledger, x) == MovesOf(b.ledger, x) +
           if x == p && t.sender.Some? then [Move(t.sender.value, Debit, t.amount)] else []
  {
    var debit := DebitEntry(b.rows, p, t, tag);
    if t.sender.Some? {
      Append(b.ledger, debit[0], a, x);
      assert debit == [debit[0]];
    } else {
      assert b.ledger + debit == b.ledger;
    }
  }

  lemma CreditFolds(ledger: seq<Entry>, rows: Tables, p: TxnId, t: TxnRow, tag: Currency, a: AccountId, x: TxnId)
    requires t.receiver.Some? ==> t.receiver.value in rows.accounts
    ensures
      var longer := ledger + CreditEntry(rows, p, t, tag);
      && Net(longer, a) == Net(ledger, a) + (if t.receiver == Some(a) then Credited(t) else 0)
      && Count(longer, a) == Count(ledger, a) + (if t.receiver == Some(a) then 1 else 0)
      && MovesOf(longer, x) == MovesOf(ledger, x) +
           if x == p && t.receiver.Some? then [Move(t.receiver.value, Credit, Credited(t))] else []
  {
    var credit := CreditEntry(rows, p, t, tag);
    if t.receiver.Some? {
      Append(ledger, credit[0], a, x);
      assert credit == [credit[0]];
    } else {
      assert ledger + credit == ledger;
    }
  }

  lemma FoldsCombine(l0: seq<Entry>, l1: seq<Entry>, l2: seq<Entry>, p: TxnId, t: TxnRow, a: AccountId, x: TxnId)
    requires Net(l1, a) == Net(l0, a) + (if t.sender == Some(a) then -t.amount else 0)
    requires Count(l1, a) == Count(l0, a) + (if t.sender == Some(a) then 1 else 0)
    requires MovesOf(l1, x) == MovesOf(l0, x) +
               if x == p && t.sender.Some? then [Move(t.sender.value, Debit, t.amount)] else []
    requires Net(l2, a) == Net(l1, a) + (if t.receiver == Some(a) then Credited(t) else 0)
    requires Count(l2, a) == Count(l1, a) + (if t.receiver == Some(a) then 1 else 0)
    requires MovesOf(l2, x) == MovesOf(l1, x) +
               if x == p && t.receiver.Some? then [Move(t.receiver.value, Credit, Credited(t))] else []
    ensures Net(l2, a) == Net(l0, a) + DeltaOf(t, a)
    ensures Count(l2, a) == Count(l0, a) + TouchesOf(t, a)
    ensures MovesOf(l2, x) == MovesOf(l0, x) + if x == p then Expected(t) else []
  {}

  lemma MovementFolds(b: Bank, p: TxnId, t: TxnRow, tag1: Currency, tag2: Currency, a: AccountId, x: TxnId)
    requires Movable(b.rows, t)
    ensures
      var ledger := b.ledger + Movement(b.rows, p, t, tag1, tag2).entries;
      && Net(ledger, a) == Net(b.ledger, a) + DeltaOf(t, a)
      && Count(ledger, a) == Count(b.ledger, a) + TouchesOf(t, a)
      && MovesOf(ledger, x) == MovesOf(b.ledger, x) + if x == p then Expected(t) else []
  {
    var debit, credit := DebitEntry(b.rows, p, t, tag1), CreditEntry(b.rows, p, t, tag2);
    DebitFolds(b, p, t, tag1, a, x);
    CreditFolds(b.ledger + debit, b.rows, p, t, tag2, a, x);
    FoldsCombine(b.ledger, b.ledger + debit, b.ledger + debit + credit, p, t, a, x);
    assert b.ledger + debit + credit == b.ledger + (debit + credit);
  }

  lemma MovementChains(b: Bank, p: TxnId, t: TxnRow, tag1: Currency, tag2: Currency)
    requires Movable(b.rows, t) && AccountsOk(b) && Chained(b.ledger)
    ensures Chained(b.ledger + Movement(b.rows, p, t, tag1, tag2).entries)
  {
    var debit, credit := DebitEntry(b.rows, p, t, tag1), CreditEntry(b.rows, p, t, tag2);
    assert Chained(b.ledger + debit) && (t.receiver.Some? ==> Net(b.ledger + debit, t.receiver.value) == credit[0].before) by {
      if t.receiver.Some? {
        assert AccountOk(b, t.receiver.value);
      }
      if t.sender.Some? {
        assert AccountOk(b, t.sender.value);
        ChainedAppend(b.ledger, debit[0]);
        assert debit == [debit[0]];
        if t.receiver.Some? {
          Append(b.ledger, debit[0], t.receiver.value, p);
        }
      } else {
        assert b.ledger + debit == b.ledger;
      }
    }
    assert b.ledger + debit + credit == b.ledger + (debit + credit);
    if t.receiver.Some? {
      ChainedAppend(b.ledger + debit, credit[0]);
      assert credit == [credit[0]];
    } else {
      assert b.ledger + debit + credit == b.ledger + debit;
    }
  }

  // ---- Every commit is a posting ---------------------------------------------------------------

  /** p may be posted with row t: it is a PENDING transfer, or new and of one of the other kinds. */
  predicate Postable(b: Bank, p: TxnId, t: TxnRow) {
    && Movable(b.rows, t)
    && if p in b.rows.txns then
         t == b.rows.txns[p] && t.status == Pending && t.reversalOf.None?
       else
         && t.converted.None?
         && SidesSet(t)
         && match t.reversalOf
            case None =>
              && t.kind != Transfer
              && (t.card.Some? <==> t.kind == CardPayment)
              && (t.sender.Some? ==> t.currency == b.rows.accounts[t.sender.value].currency)
              && (t.receiver.Some? ==> t.currency == b.rows.accounts[t.receiver.value].currency)
            case Some(o) =>
              && o in b.rows.txns
              && b.rows.txns[o].status == Success
              && b.rows.txns[o].kind != CardPayment
              && t == ReversalOf(o, b.rows.txns[o])
  }

  /** The committed state after posting t as p. */
  function Posting(b: Bank, p: TxnId, t: TxnRow, tag1: Currency, tag2: Currency): Bank
    requires Postable(b, p, t)
  {
    var posted := Publish(b, Movement(b.rows, p, t, tag1, tag2));
    match t.reversalOf
    case None => posted
    case Some(o) => WithTxn(posted, o, b.rows.txns[o].(status := Reversed))
  }

  lemma PostableCall(b: Bank, call: Call, id: TxnId)
    requires DecideNow(call, id, b).Proceed? && Known(call, b.rows)
    requires Movable(b.rows, PostedRow(call, b.rows))
    requires call.Confirm? ==> b.rows.txns[call.txn].status == Pending && b.rows.txns[call.txn].reversalOf.None?
    ensures Postable(b, PostedId(call, id), PostedRow(call, b.rows))
  {}

  lemma CommitRows(b: Bank, call: Call, id: TxnId)
    requires DecideNow(call, id, b).Proceed? && Known(call, b.rows)
    requires Postable(b, PostedId(call, id), PostedRow(call, b.rows))
    ensures Publish(b, DecideNow(call, id, b).writes)
         == Posting(b, PostedId(call, id), PostedRow(call, b.rows), DebitTag(call, b.rows), CreditTag(call, b.rows))
  {
    ProceedPosts(call, id, b.rows, ReversalSeen(call, b.rows));
    var p, t := PostedId(call, id), PostedRow(call, b.rows);
    var w := DecideNow(call, id, b).writes;
    var m := Movement(b.rows, p, t, DebitTag(call, b.rows), CreditTag(call, b.rows));
    if call.Reverse? {
      assert b.rows.txns + w.txns == (b.rows.txns + m.txns)[call.txn := b.rows.txns[call.txn].(status := Reversed)];
    } else {
      assert w.txns == m.txns;
    }
  }

  lemma CommitPosts(b: Bank, call: Call, id: TxnId)
    requires BankInv(b) && DecideNow(call, id, b).Proceed?
    ensures Known(call, b.rows)
    ensures Postable(b, PostedId(call, id), PostedRow(call, b.rows))
    ensures Publish(b, DecideNow(call, id, b).writes)
         == Posting(b, PostedId(call, id), PostedRow(call, b.rows), DebitTag(call, b.rows), CreditTag(call, b.rows))
  {
    ProceedPosts(call, id, b.rows, ReversalSeen(call, b.rows));
    if call.Confirm? {
      assert StatusOk(b, call.txn);
    }
    PostableCall(b, call, id);
    CommitRows(b, call, id);
  }

  // ---- A posting keeps the invariant -----------------------------------------------------------

  lemma PostingFolds(b: Bank, p: TxnId, t: TxnRow, tag1: Currency, tag2: Currency, a: AccountId, x: TxnId)
    requires Postable(b, p, t)
    ensures
      var ledger := Posting(b, p, t, tag1, tag2).ledger;
      && Net(ledger, a) == Net(b.ledger, a) + DeltaOf(t, a)
      && Count(ledger, a) == Count(b.ledger, a) + TouchesOf(t, a)
      && MovesOf(ledger, x) == MovesOf(b.ledger, x) + if x == p then Expected(t) else []
  {
    MovementFolds(b, p, t, tag1, tag2, a, x);
  }

  /** What a posting writes, account by account and row by row. */
  lemma PostedAccount(b: Bank, p: TxnId, t: TxnRow, tag1: Currency, tag2: Currency, a: AccountId)
    requires Postable(b, p, t)
    ensures
      var rows' := Posting(b, p, t, tag1, tag2).rows;
      && (a in rows'.accounts <==> a in b.rows.accounts)
      && (a in b.rows.accounts ==>
            var before, after := b.rows.accounts[a], rows'.accounts[a];
            && after.balance == before.balance + DeltaOf(t, a)
            && after.version == before.version + TouchesOf(t, a)
            && (0 <= before.balance < CENTS_LIMIT ==> 0 <= after.balance < CENTS_LIMIT))
  {}

  lemma PostedTxn(b: Bank, p: TxnId, t: TxnRow, tag1: Currency, tag2: Currency, x: TxnId)
    requires Postable(b, p, t)
    ensures
      var rows' := Posting(b, p, t, tag1, tag2).rows;
      && (x in rows'.txns <==> x in b.rows.txns || x == p)
      && (x == p ==> rows'.txns[x] == t.(status := Success))
      && (x in b.rows.txns && x != p ==>
            rows'.txns[x] == b.rows.txns[x].(status := if t.reversalOf == Some(x) then Reversed else b.rows.txns[x].status))
  {}

  lemma AccountAfterPosting(b: Bank, b': Bank, t: TxnRow, a: AccountId)
    requires AccountOk(b, a)
    requires a in b'.rows.accounts <==> a in b.rows.accounts
    requires a in b.rows.accounts ==>
               && b'.rows.accounts[a].balance == b.rows.accounts[a].balance + DeltaOf(t, a)
               && b'.rows.accounts[a].version == b.rows.accounts[a].version + TouchesOf(t, a)
               && 0 <= b'.rows.accounts[a].balance < CENTS_LIMIT
    requires a !in b.rows.accounts ==> t.sender != Some(a) && t.receiver != Some(a)
    requires Net(b'.ledger, a) == Net(b.ledger, a) + DeltaOf(t, a)
    requires Count(b'.ledger, a) == Count(b.ledger, a) + TouchesOf(t, a)
    ensures AccountOk(b', a)
  {}

  lemma PostingKeepsAccounts(b: Bank, p: TxnId, t: TxnRow, tag1: Currency, tag2: Currency)
    requires BankInv(b) && Postable(b, p, t)
    ensures AccountsOk(Posting(b, p, t, tag1, tag2))
  {
    forall a ensures AccountOk(Posting(b, p, t, tag1, tag2), a) {
      assert AccountOk(b, a);
      PostedAccount(b, p, t, tag1, tag2, a);
      PostingFolds(b, p, t, tag1, tag2, a, p);
      AccountAfterPosting(b, Posting(b, p, t, tag1, tag2), t, a);
    }
  }

  /** The shape of a row depends on the accounts only through their currencies. */
  predicate SameCurrencies(rows: Tables, rows': Tables) {
    forall a | a in rows.accounts :: a in rows'.accounts && rows'.accounts[a].currency == rows.accounts[a].currency
  }

  lemma ShapeStable(rows: Tables, rows': Tables, t: TxnRow, status: TxnStatus)
    requires SameCurrencies(rows, rows') && ShapeOk(rows, t)
    ensures ShapeOk(rows', t.(status := status))
  {
    if t.sender.Some? {
      var a := t.sender.value;
      assert a in rows.accounts;
      assert a in rows'.accounts;
    }
    if t.receiver.Some? {
      var a := t.receiver.value;
      assert a in rows.accounts;
      assert a in rows'.accounts;
    }
  }

  lemma PostedShape(b: Bank, p: TxnId, t: TxnRow)
    requires BankInv(b) && Postable(b, p, t)
    ensures ShapeOk(b.rows, t)
  {
    if p in b.rows.txns {
      assert ShapeOk(b.rows, b.rows.txns[p]);
    }
    if t.reversalOf.Some? {
      assert ShapeOk(b.rows, b.rows.txns[t.reversalOf.value]);
    }
  }

  lemma PostingKeepsCurrencies(b: Bank, p: TxnId, t: TxnRow, tag1: Currency, tag2: Currency)
    requires Postable(b, p, t)
    ensures SameCurrencies(b.rows, Posting(b, p, t, tag1, tag2).rows)
  {}

  lemma PostingKeepsShapes(b: Bank, p: TxnId, t: TxnRow, tag1: Currency, tag2: Currency)
    requires BankInv(b) && Postable(b, p, t)
    ensures ShapesOk(Posting(b, p, t, tag1, tag2).rows)
  {
    var b' := Posting(b, p, t, tag1, tag2);
    PostingKeepsCurrencies(b, p, t, tag1, tag2);
    PostedShape(b, p, t);
    forall x | x in b'.rows.txns ensures ShapeOk(b'.rows, b'.rows.txns[x]) {
      var before := if x == p then t else b.rows.txns[x];
      ShapeStable(b.rows, b'.rows, before, b'.rows.txns[x].status);
    }
  }

  /** From the row facts and the ledger facts of a posting to the status of one transaction. */
  lemma StatusAfterPosting(b: Bank, b': Bank, p: TxnId, t: TxnRow, x: TxnId)
    requires StatusOk(b, x)
    requires x in b'.rows.txns <==> x in b.rows.txns || x == p
    requires x == p ==> b'.rows.txns[x] == t.(status := Success)
    requires x in b.rows.txns && x != p ==> b'.rows.txns[x] == b.rows.txns[x].(status := b'.rows.txns[x].status)
    requires x in b.rows.txns && x != p ==>
               b'.rows.txns[x].status == b.rows.txns[x].status || (b.rows.txns[x].status == Success && b'.rows.txns[x].status == Reversed)
    requires x == p && x in b.rows.txns ==> b.rows.txns[x].status == Pending
    requires MovesOf(b'.ledger, x) == MovesOf(b.ledger, x) + if x == p then Expected(t) else []
    ensures StatusOk(b', x)
  {
    assert x == p ==> MovesOf(b'.ledger, x) == Expected(t);
  }

  lemma PostingKeepsStatus(b: Bank, p: TxnId, t: TxnRow, tag1: Currency, tag2: Currency, x: TxnId)
    requires Postable(b, p, t) && StatusOk(b, x)
    ensures StatusOk(Posting(b, p, t, tag1, tag2), x)
  {
    PostingFolds(b, p, t, tag1, tag2, 0, x);
    PostedTxn(b, p, t, tag1, tag2, x);
    StatusAfterPosting(b, Posting(b, p, t, tag1, tag2), p, t, x);
  }

  lemma PostingKeepsStatuses(b: Bank, p: TxnId, t: TxnRow, tag1: Currency, tag2: Currency)
    requires BankInv(b) && Postable(b, p, t)
    ensures StatusesOk(Posting(b, p, t, tag1, tag2))
  {
    forall x ensures StatusOk(Posting(b, p, t, tag1, tag2), x) {
      assert StatusOk(b, x);
      PostingKeepsStatus(b, p, t, tag1, tag2, x);
    }
  }

  /** An existing reversal and its original are untouched by a posting. */
  lemma PostingKeepsOldMirror(b: Bank, p: TxnId, t: TxnRow, tag1: Currency, tag2: Currency, r: TxnId)
    requires BankInv(b) && Postable(b, p, t)
    requires r in b.rows.txns && b.rows.txns[r].reversalOf.Some?
    ensures r in Posting(b, p, t, tag1, tag2).rows.txns && ReversalOk(Posting(b, p, t, tag1, tag2), r)
  {
    var o := b.rows.txns[r].reversalOf.value;
    assert ReversalOk(b, r);
    PostingFolds(b, p, t, tag1, tag2, 0, o);
    var b' := Posting(b, p, t, tag1, tag2);
    assert o != p && t.reversalOf != Some(o);
    assert b'.rows.txns[o] == b.rows.txns[o];
    assert r != p;
    assert b'.rows.txns[r] == b.rows.txns[r].(status := b'.rows.txns[r].status);
  }

  lemma PostingAddsMirror(b: Bank, p: TxnId, t: TxnRow, tag1: Currency, tag2: Currency)
    requires BankInv(b) && Postable(b, p, t) && t.reversalOf.Some?
    ensures p in Posting(b, p, t, tag1, tag2).rows.txns && ReversalOk(Posting(b, p, t, tag1, tag2), p)
  {
    var o := t.reversalOf.value;
    assert StatusOk(b, o);
    PostingFolds(b, p, t, tag1, tag2, 0, o);
    var b' := Posting(b, p, t, tag1, tag2);
    assert o != p;
    assert b'.rows.txns[o] == b.rows.txns[o].(status := Reversed);
    assert b'.rows.txns[p] == t.(status := Success);
  }

  lemma PostingKeepsReversed(b: Bank, p: TxnId, t: TxnRow, tag1: Currency, tag2: Currency, o: TxnId)
    requires BankInv(b) && Postable(b, p, t)
    requires o in Posting(b, p, t, tag1, tag2).rows.txns
    requires Posting(b, p, t, tag1, tag2).rows.txns[o].status == Reversed
    ensures HasReversal(Posting(b, p, t, tag1, tag2).rows, o)
  {
    var b' := Posting(b, p, t, tag1, tag2);
    PostedTxn(b, p, t, tag1, tag2, o);
    if o in b.rows.txns && b.rows.txns[o].status == Reversed {
      var r :| r in b.rows.txns && b.rows.txns[r].reversalOf == Some(o);
      PostedTxn(b, p, t, tag1, tag2, r);
      assert r in b'.rows.txns && b'.rows.txns[r].reversalOf == Some(o);
    } else {
      PostedTxn(b, p, t, tag1, tag2, p);
      assert p in b'.rows.txns && b'.rows.txns[p].reversalOf == Some(o);
    }
  }

  lemma PostingKeepsReversals(b: Bank, p: TxnId, t: TxnRow, tag1: Currency, tag2: Currency)
    requires BankInv(b) && Postable(b, p, t)
    ensures ReversalsOk(Posting(b, p, t, tag1, tag2))
  {
    var b' := Posting(b, p, t, tag1, tag2);
    forall r | r in b'.rows.txns ensures ReversalOk(b', r) {
      if r in b.rows.txns && b.rows.txns[r].reversalOf.Some? {
        PostingKeepsOldMirror(b, p, t, tag1, tag2, r);
      } else if t.reversalOf.Some? {
        PostingAddsMirror(b, p, t, tag1, tag2);
      }
    }
    forall r, s | r in b'.rows.txns && s in b'.rows.txns && b'.rows.txns[r].reversalOf.Some? &&
                  b'.rows.txns[r].reversalOf == b'.rows.txns[s].reversalOf
      ensures r == s
    {
      if r in b.rows.txns {
        assert ReversalOk(b, r);
      }
      if s in b.rows.txns {
        assert ReversalOk(b, s);
      }
    }
    forall o | o in b'.rows.txns && b'.rows.txns[o].status == Reversed ensures HasReversal(b'.rows, o) {
      PostingKeepsReversed(b, p, t, tag1, tag2, o);
    }
  }

  // ---- Every step keeps the invariant ----------------------------------------------------------

  lemma LateFailKeepsInv(b: Bank, t: TxnId)
    requires BankInv(b) && Can(b, LateFail(t))
    ensures BankInv(Do(b, LateFail(t)))
  {
    var b' := Do(b, LateFail(t));
    forall x | x in b'.rows.txns ensures ShapeOk(b'.rows, b'.rows.txns[x]) && ReversalOk(b', x) {
      assert ShapeOk(b.rows, b.rows.txns[x]);
      assert ReversalOk(b, x);
    }
    forall x ensures StatusOk(b', x) && AccountOk(b', x) {
      assert StatusOk(b, x);
      assert AccountOk(b, x);
    }
    forall o | o in b'.rows.txns && b'.rows.txns[o].status == Reversed ensures HasReversal(b'.rows, o) {
      assert b.rows.txns[o].status == Reversed;
      var r :| r in b.rows.txns && b.rows.txns[r].reversalOf == Some(o);
      assert b'.rows.txns[r].reversalOf == Some(o);
    }
  }

  lemma InitiateKeepsInv(b: Bank, t: TxnId, row: TxnRow)
    requires BankInv(b) && Can(b, Initiate(t, row))
    ensures BankInv(Do(b, Initiate(t, row)))
  {
    var b' := Do(b, Initiate(t, row));
    forall x | x in b'.rows.txns ensures ShapeOk(b'.rows, b'.rows.txns[x]) && ReversalOk(b', x) {
      if x != t {
        assert ShapeOk(b.rows, b.rows.txns[x]);
        assert ReversalOk(b, x);
      }
    }
    forall x ensures StatusOk(b', x) && AccountOk(b', x) {
      assert StatusOk(b, x);
      assert AccountOk(b, x);
    }
    forall o | o in b'.rows.txns && b'.rows.txns[o].status == Reversed ensures HasReversal(b'.rows, o) {
      var r :| r in b.rows.txns && b.rows.txns[r].reversalOf == Some(o);
      assert b'.rows.txns[r].reversalOf == Some(o);
    }
  }

  /** A status change or a new account with balance 0. */
  lemma AccountStepKeepsInv(b: Bank, a: AccountId, row: AccountRow)
    requires BankInv(b)
    requires if a in b.rows.accounts then row == b.rows.accounts[a].(status := row.status)
             else row.balance == 0 && row.version == 0
    ensures BankInv(WithAccount(b, a, row))
  {
    var b' := WithAccount(b, a, row);
    forall x | x in b'.rows.txns ensures ShapeOk(b'.rows, b'.rows.txns[x]) && ReversalOk(b', x) {
      ShapeStable(b.rows, b'.rows, b.rows.txns[x], b.rows.txns[x].status);
      assert ReversalOk(b, x);
    }
    forall x ensures StatusOk(b', x) && AccountOk(b', x) {
      assert StatusOk(b, x);
      assert AccountOk(b, x);
    }
  }

  lemma CardStepKeepsInv(b: Bank, c: CardId, row: CardRow)
    requires BankInv(b)
    ensures BankInv(WithCard(b, c, row))
  {
    var b' := WithCard(b, c, row);
    forall x | x in b'.rows.txns ensures ShapeOk(b'.rows, b'.rows.txns[x]) && ReversalOk(b', x) {
      ShapeStable(b.rows, b'.rows, b.rows.txns[x], b.rows.txns[x].status);
      assert ReversalOk(b, x);
    }
    forall x ensures StatusOk(b', x) && AccountOk(b', x) {
      assert StatusOk(b, x);
      assert AccountOk(b, x);
    }
  }

  lemma PostingKeepsInv(b: Bank, p: TxnId, t: TxnRow, tag1: Currency, tag2: Currency)
    requires BankInv(b) && Postable(b, p, t)
    ensures BankInv(Posting(b, p, t, tag1, tag2))
  {
    PostingKeepsShapes(b, p, t, tag1, tag2);
    PostingKeepsAccounts(b, p, t, tag1, tag2);
    MovementChains(b, p, t, tag1, tag2);
    PostingKeepsStatuses(b, p, t, tag1, tag2);
    PostingKeepsReversals(b, p, t, tag1, tag2);
  }

  lemma CommitKeepsInv(b: Bank, call: Call, id: TxnId)
    requires BankInv(b) && Can(b, Commit(call, id))
    ensures BankInv(Do(b, Commit(call, id)))
  {
    CommitPosts(b, call, id);
    PostingKeepsInv(b, PostedId(call, id), PostedRow(call, b.rows), DebitTag(call, b.rows), CreditTag(call, b.rows));
  }

  lemma StepKeepsInv(b: Bank, action: Action)
    requires BankInv(b) && Can(b, action)
    ensures BankInv(Do(b, action))
  {
    match action
    case Commit(call, id) => CommitKeepsInv(b, call, id);
    case LateFail(t) => LateFailKeepsInv(b, t);
    case Initiate(t, row) => InitiateKeepsInv(b, t, row);
    case OpenAccount(a, owner, currency) => AccountStepKeepsInv(b, a, AccountRow(owner, currency, 0, 0, Active));
    case SetAccountStatus(a, status) => AccountStepKeepsInv(b, a, b.rows.accounts[a].(status := status));
    case IssueCard(c, a) => CardStepKeepsInv(b, c, CardRow(a, CardActive, false));
    case BlockCard(c) => CardStepKeepsInv(b, c, b.rows.cards[c].(status := CardBlocked));
    case DeleteCard(c) => CardStepKeepsInv(b, c, b.rows.cards[c].(deleted := true));
  }

  /** The assertions and lookups of the money operations never fail. */
  lemma NeverCrashes(b: Bank, call: Call, id: TxnId)
    requires BankInv(b)
    ensures !DecideNow(call, id, b).Crash?
  {
    if call.Confirm? && call.txn in b.rows.txns {
      assert StatusOk(b, call.txn) && ShapeOk(b.rows, b.rows.txns[call.txn]);
    }
    if call.Reverse? && call.txn in b.rows.txns {
      assert ShapeOk(b.rows, b.rows.txns[call.txn]);
    }
  }
}
