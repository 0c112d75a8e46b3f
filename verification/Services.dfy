/**
 The money services as they run in one request: a database session with an identity map of objects
 that are changed in place, flushed at commit and expired by rollback. Whatever stale copies the
 identity map holds at the start, every service changes the database exactly as its decision says.
 */
module Services {
  import opened Basics
  import opened Schema
  import opened Operations
  import opened Invariants
  import opened Transfers
  import Conversion

  /** An account object of the identity map. loaded is the row as last read or written. */
  class Account {
    const id: AccountId
    const owner: CustomerId
    const currency: Currency
    var balance: int
    var version: int
    var status: AccountStatus
    var loaded: AccountRow

    constructor (id: AccountId, row: AccountRow)
      ensures this.id == id && Row() == row && loaded == row
    {
      this.id, owner, currency := id, row.owner, row.currency;
      balance, version, status := row.balance, row.version, row.status;
      loaded := row;
    }

    function Row(): AccountRow
      reads this
    {
      AccountRow(owner, currency, balance, version, status)
    }

    /** Overwrite the attributes by the row just read. */
    method Populate(row: AccountRow)
      requires row.owner == owner && row.currency == currency
      modifies this
      ensures Row() == row && loaded == row
    {
      balance, version, status := row.balance, row.version, row.status;
      loaded := row;
    }

    /** The UPDATE of this object: the columns that changed since they were loaded. */
    function Flushed(row: AccountRow): AccountRow
      reads this
    {
      row.(
      balance := if balance != loaded.balance then balance else row.balance,
      version := if version != loaded.version then version else row.version,
      status := if status != loaded.status then status else row.status)
    }
  }

  /** A transaction object. Only its status ever changes once it has been inserted. */
  class Transaction {
    const id: TxnId
    const columns: TxnRow
    var status: TxnStatus
    var reversalOf: Option<TxnId>
    var loaded: TxnStatus

    constructor (id: TxnId, row: TxnRow)
      ensures this.id == id && columns == row && Row() == row && loaded == row.status
    {
      this.id, columns := id, row;
      status, reversalOf, loaded := row.status, row.reversalOf, row.status;
    }

    function Row(): TxnRow
      reads this
    {
      columns.(status := status, reversalOf := reversalOf)
    }

    function Flushed(row: TxnRow): TxnRow
      reads this
    {
      if status != loaded then row.(status := status) else row
    }
  }

  /** The challenge object of a transfer. */
  class TransferConfirmation {
    var code: Code
    var attempts: int
    var maxAttempts: int
    var expiresAt: int
    var verified: bool

    constructor (c: Challenge)
      ensures Value() == c
    {
      code, attempts, maxAttempts, expiresAt, verified := c.code, c.attempts, c.maxAttempts, c.expiresAt, c.verified;
    }

    function Value(): Challenge
      reads this
    {
      Challenge(code, attempts, maxAttempts, expiresAt, verified)
    }

    predicate IsExpired(now: int)
      reads this
      ensures IsExpired(now) == Expired(Value(), now)
    {
      expiresAt <= now
    }

    predicate AttemptsExhausted()
      reads this
      ensures AttemptsExhausted() == Exhausted(Value())
    {
      attempts >= maxAttempts
    }

    method RegisterFailedAttempt()
      modifies this
      ensures Value() == old(Value()).(attempts := old(attempts) + 1)
    {
      attempts := attempts + 1;
    }

    /** A fresh code: the old one and the attempts against it are gone. */
    method Reissue(code: Code, expiresAt: int)
      modifies this
      ensures Value() == old(Value()).(code := code, expiresAt := expiresAt, attempts := 0)
    {
      this.code, this.expiresAt := code, expiresAt;
      attempts := 0;
    }

    method MarkVerified()
      modifies this
      ensures Value() == old(Value()).(verified := true)
    {
      verified := true;
    }
  }

  const NO_WRITES := Writes(map[], map[], [])

  /** The constraints on an inserted transaction row. */
  predicate RowPasses(t: TxnRow) {
    && 0 < t.amount && Storable(t.amount)
    && (t.converted.Some? ==> Storable(t.converted.value))
    && (t.sender.Some? ==> t.sender != t.receiver)
  }

  predicate RowsPass(b: Bank, w: Writes) {
    && (forall i | 0 <= i < |w.entries| :: 0 < w.entries[i].amount && Storable(w.entries[i].after))
    && (forall t | t in w.txns && t !in b.rows.txns :: RowPasses(w.txns[t]))
  }

  // ---- Answers ---------------------------------------------------------------------------------

  /** The database and the answer are those of the decision. */
  predicate Answers(b: Bank, d: Decision, b': Bank, r: Outcome) {
    match d
    case Proceed(w) => b' == Publish(b, w) && r == Done
    case Refuse(e) => b' == b && r == Raised(e)
    case Abort => b' == b && r == ServerError
    case Crash => false
  }

  /** As Answers, for a confirmation: a refused transaction that is still PENDING is failed. */
  predicate AnswersLocked(b: Bank, t: TxnId, b': Bank, r: Outcome)
    requires t in b.rows.txns
  {
    match DecideConfirm(b.rows, t)
    case Refuse(e) =>
      if b.rows.txns[t].status == Pending then b' == MarkFailed(b, t) && r == Raised(e)
      else b' == b && r == Raised(AlreadyProcessed)
    case d => Answers(b, d, b', r)
  }

  /** As Answers, for a scheduled transfer whose row has only been flushed. */
  predicate AnswersFlushed(b: Bank, id: TxnId, row: TxnRow, b': Bank, r: Outcome)
    requires InitiatedOn(b.rows, row)
  {
    var sender, receiver := b.rows.accounts[row.sender.value], b.rows.accounts[row.receiver.value];
    if sender.status != Active || receiver.status != Active || sender.balance < row.amount then b' == b && r == ServerError
    else Answers(b, Post(b.rows, id, row, sender.currency, receiver.currency), b', r)
  }

  /** b' may follow b: rows stay, with all columns that never change. */
  predicate Grows(b: Bank, b': Bank) {
    && (forall a | a in b.rows.accounts ::
          && a in b'.rows.accounts
          && b'.rows.accounts[a].owner == b.rows.accounts[a].owner && b'.rows.accounts[a].currency == b.rows.accounts[a].currency)
    && (forall t | t in b.rows.txns ::
          t in b'.rows.txns && b'.rows.txns[t] == b.rows.txns[t].(status := b'.rows.txns[t].status))
  }

  // ---- Facts about the rows --------------------------------------------------------------------

  lemma PublishFailed(b: Bank, t: TxnId)
    requires t in b.rows.txns
    ensures Publish(b, NO_WRITES.(txns := map[t := b.rows.txns[t].(status := Failed)])) == MarkFailed(b, t)
  {}

  /** Locking one account, crediting it and marking a new transaction SUCCESS is a movement. */
  lemma CreditIsMovement(rows: Tables, id: TxnId, t: TxnRow, tag: Currency)
    requires t.sender.None? && t.receiver.Some? && t.receiver.value in rows.accounts && t.converted.None?
    ensures
      var a := t.receiver.value;
      var row := rows.accounts[a];
      Writes(map[a := row][a := Moved(row, t.amount)],
             map[id := t][id := t.(status := Success)],
             [] + [Entry(id, a, Credit, t.amount, tag, row.balance, row.balance + t.amount)])
      == Movement(rows, id, t, tag, tag)
  {}

  lemma DebitIsMovement(rows: Tables, id: TxnId, t: TxnRow, tag: Currency)
    requires t.sender.Some? && t.receiver.None? && t.sender.value in rows.accounts
    ensures
      var a := t.sender.value;
      var row := rows.accounts[a];
      Writes(map[a := row][a := Moved(row, -t.amount)],
             map[id := t][id := t.(status := Success)],
             [] + [Entry(id, a, Debit, t.amount, tag, row.balance, row.balance - t.amount)])
      == Movement(rows, id, t, tag, tag)
  {}

  /** The account rows that a reversal of this transaction locks. */
  function LockedSides(rows: Tables, t: TxnRow): map<AccountId, AccountRow>
    requires t.sender.Some? ==> t.sender.value in rows.accounts
    requires t.receiver.Some? ==> t.receiver.value in rows.accounts
  {
    (if t.receiver.Some? then map[t.receiver.value := rows.accounts[t.receiver.value]] else map[]) +
    (if t.sender.Some? then map[t.sender.value := rows.accounts[t.sender.value]] else map[])
  }

  /** The checks on the accounts of a reversal. */
  function ReversalRefusal(rows: Tables, t: TxnRow): Option<Refusal>
    requires t.sender.Some? ==> t.sender.value in rows.accounts
    requires t.receiver.Some? ==> t.receiver.value in rows.accounts
  {
    if t.receiver.Some? && rows.accounts[t.receiver.value].status != Active then Some(NotActive)
    else if t.sender.Some? && rows.accounts[t.sender.value].status != Active then Some(NotActive)
    else if t.receiver.Some? && rows.accounts[t.receiver.value].balance < t.amount then Some(InsufficientBalance)
    else None
  }

  function ReversalPosting(rows: Tables, id: TxnId, t: TxnId): Decision
    requires t in rows.txns && ShapeOk(rows, rows.txns[t])
  {
    match PostNew(rows, id, ReversalOf(t, rows.txns[t]), rows.txns[t].currency)
    case Proceed(w) => Proceed(w.(txns := w.txns[t := rows.txns[t].(status := Reversed)]))
    case other => other
  }

  /** What a reversal writes: the movement of its own row, and the original as REVERSED. */
  function ReversalWrites(rows: Tables, id: TxnId, t: TxnId): Writes
    requires t in rows.txns && ShapeOk(rows, rows.txns[t])
  {
    var row := rows.txns[t];
    var m := Movement(rows, id, ReversalOf(t, row), row.currency, row.currency);
    m.(txns := m.txns[t := row.(status := Reversed)])
  }

  lemma ReversalAccepted(b: Bank, id: TxnId, t: TxnId, w: Writes)
    requires t in b.rows.txns && ShapeOk(b.rows, b.rows.txns[t]) && id !in b.rows.txns
    requires w == ReversalWrites(b.rows, id, t)
    ensures ReversalPosting(b.rows, id, t) == if RowsPass(b, w) then Proceed(w) else Abort
  {
    var row := b.rows.txns[t];
    var m := Movement(b.rows, id, ReversalOf(t, row), row.currency, row.currency);
    assert w.txns[id] == ReversalOf(t, row).(status := Success);
    assert RowsPass(b, w) == ChecksPass(ReversalOf(t, row), m);
  }

  lemma ReversalStatuses(rows: Tables, id: TxnId, t: TxnId)
    requires t in rows.txns && ShapeOk(rows, rows.txns[t]) && id != t
    ensures
      var row, reversal := rows.txns[t], ReversalOf(t, rows.txns[t]);
      map[t := row][id := reversal][id := reversal.(status := Success)][t := row.(status := Reversed)]
      == ReversalWrites(rows, id, t).txns
  {}

  lemma ReversalIs(rows: Tables, id: TxnId, t: TxnId, moved: Writes, w: Writes)
    requires t in rows.txns && ShapeOk(rows, rows.txns[t])
    requires
      var m := Movement(rows, id, ReversalOf(t, rows.txns[t]), rows.txns[t].currency, rows.txns[t].currency);
      moved == Writes(m.accounts, moved.txns, m.entries)
    requires w == moved.(txns := ReversalWrites(rows, id, t).txns)
    ensures w == ReversalWrites(rows, id, t)
  {}

  lemma SetTwice<V>(m: map<int, V>, k: int, v: V, w: V)
    ensures m[k := v][k := w] == m[k := w]
  {}

  function ReversalDebited(rows: Tables, id: TxnId, t: TxnRow, w: Writes): Writes
    requires t.receiver.Some? ==> t.receiver.value in rows.accounts
  {
    if t.receiver.None? then w
    else
      var a := rows.accounts[t.receiver.value];
      w.(accounts := w.accounts[t.receiver.value := Moved(a, -t.amount)],
         entries := w.entries + [Entry(id, t.receiver.value, Debit, t.amount, t.currency, a.balance, a.balance - t.amount)])
  }

  function ReversalCredited(rows: Tables, id: TxnId, t: TxnRow, w: Writes): Writes
    requires t.sender.Some? ==> t.sender.value in rows.accounts
  {
    if t.sender.None? then w
    else
      var a := rows.accounts[t.sender.value];
      w.(accounts := w.accounts[t.sender.value := Moved(a, t.amount)],
         entries := w.entries + [Entry(id, t.sender.value, Credit, t.amount, t.currency, a.balance, a.balance + t.amount)])
  }

  /** The two changes on top of the locked rows make the movement of the reversal. */
  lemma ReversalMoves(rows: Tables, id: TxnId, t: TxnId)
    requires t in rows.txns && ShapeOk(rows, rows.txns[t])
    ensures
      var row := rows.txns[t];
      var m := Movement(rows, id, ReversalOf(t, row), row.currency, row.currency);
      forall txns ::
        ReversalCredited(rows, id, row, ReversalDebited(rows, id, row, Writes(LockedSides(rows, row), txns, [])))
        == Writes(m.accounts, txns, m.entries)
  {}

  /** The decision of a reversal, from its account checks on. */
  lemma ReversalDecision(rows: Tables, id: TxnId, t: TxnId)
    requires t in rows.txns && ShapeOk(rows, rows.txns[t])
    requires rows.txns[t].status == Success && rows.txns[t].kind != CardPayment
    ensures DecideReverse(rows, id, t, false) ==
      match ReversalRefusal(rows, rows.txns[t])
      case Some(e) => Refuse(e)
      case None => ReversalPosting(rows, id, t)
  {}

  lemma UpdatesCommute(m: map<AccountId, AccountRow>, a: AccountId, v: AccountRow, b: AccountId, w: AccountRow)
    requires a == b ==> v == w
    ensures m[a := v][b := w] == m[b := w][a := v]
  {}

  lemma FlushedTransfer(b: Bank, id: TxnId, row: TxnRow)
    requires InitiatedOn(b.rows, row) && id !in b.rows.txns
    ensures forall b', r | AnswersFlushed(b, id, row, b', r) :: (b', r) == SchedulingLocked(b, id, row)
  {
    var s, r := b.rows.accounts[row.sender.value], b.rows.accounts[row.receiver.value];
    var b1, w := WithTxn(b, id, row), Movement(b.rows, id, row, s.currency, r.currency);
    assert w == Movement(b1.rows, id, row, s.currency, r.currency);
    assert b1.rows.txns + w.txns == b.rows.txns + w.txns;
  }

  lemma PublishInserted(b: Bank, id: TxnId, row: TxnRow)
    requires id !in b.rows.txns
    ensures Publish(b, NO_WRITES.(txns := map[id := row])) == WithTxn(b, id, row)
    ensures RowsPass(b, NO_WRITES.(txns := map[id := row])) == RowPasses(row)
  {
    var w := NO_WRITES.(txns := map[id := row]);
    assert id in w.txns;
  }

  /** Once its row passes, only the entries of a transfer are left to check. */
  lemma TransferRowPasses(b: Bank, t: TxnId, row: TxnRow, w: Writes)
    requires 0 < row.amount && Storable(row.amount) && (t in b.rows.txns || RowPasses(row))
    requires row.sender != row.receiver && w.txns == map[t := row.(status := Success)]
    ensures RowsPass(b, w) == ChecksPass(row, w)
  {}

  /** Locking two accounts in either order, debiting one and crediting the other, is a movement. */
  lemma TransferIsMovement(rows: Tables, id: TxnId, t: TxnRow, tag1: Currency, tag2: Currency)
    requires t.sender.Some? && t.receiver.Some? && t.sender != t.receiver
    requires t.sender.value in rows.accounts && t.receiver.value in rows.accounts
    ensures
      var a, b := t.sender.value, t.receiver.value;
      var s, r := rows.accounts[a], rows.accounts[b];
      Writes(map[][a := s][b := r][a := Moved(s, -t.amount)][b := Moved(r, Credited(t))],
             map[id := t][id := t.(status := Success)],
             [] + [Entry(id, a, Debit, t.amount, tag1, s.balance, s.balance - t.amount)]
                + [Entry(id, b, Credit, Credited(t), tag2, r.balance, r.balance + Credited(t))])
      == Movement(rows, id, t, tag1, tag2)
  {}

  // ---- The session -----------------------------------------------------------------------------

  /**
   accounts and transactions are the identity map, entries the ledger rows added and not yet flushed.
   work is what the current database transaction has locked, changed or added. alone says that no
   other session has committed since this one began to read, so that none of its objects is stale.
   */
  class TransactionService {
    var db: Bank
    var accounts: map<AccountId, Account>
    var transactions: map<TxnId, Transaction>
    var entries: seq<Entry>
    var challenges: map<TxnId, Challenge>
    ghost var work: Writes
    ghost const alone: bool

    // ---- The identity map ----------------------------------------------------------------------

    /**
     Objects are registered under their ids and agree with the database on the columns that never
     change. An object outside the current work is unchanged, however stale; one inside it was loaded
     from the current row and is now as the work says.
     */
    ghost predicate AccountsValid()
      reads this, accounts.Values
    {
      && work.accounts.Keys <= accounts.Keys
      && forall a | a in accounts ::
           && accounts[a].id == a && a in db.rows.accounts
           && accounts[a].owner == db.rows.accounts[a].owner && accounts[a].currency == db.rows.accounts[a].currency
           && (a !in work.accounts ==> accounts[a].loaded == accounts[a].Row())
           && (alone && a !in work.accounts ==> accounts[a].Row() == db.rows.accounts[a])
           && (a in work.accounts ==> accounts[a].loaded == db.rows.accounts[a] && accounts[a].Row() == work.accounts[a])
    }

    ghost predicate TransactionsValid()
      reads this, transactions.Values
    {
      && work.txns.Keys <= transactions.Keys
      && forall t | t in transactions ::
           && transactions[t].id == t
           && (t in db.rows.txns ==> transactions[t].Row() == db.rows.txns[t].(status := transactions[t].status))
           && (t !in work.txns ==> t in db.rows.txns && transactions[t].loaded == transactions[t].status)
           && (t in work.txns ==>
                 && transactions[t].Row() == work.txns[t]
                 && (t in db.rows.txns ==> transactions[t].loaded == db.rows.txns[t].status))
    }

    ghost predicate Valid()
      reads this, accounts.Values, transactions.Values
    {
      AccountsValid() && TransactionsValid() && entries == work.entries
    }

    constructor (db: Bank, challenges: map<TxnId, Challenge>, ghost alone: bool)
      ensures this.db == db && this.challenges == challenges && this.alone == alone
      ensures Valid() && work == NO_WRITES && accounts == map[] && transactions == map[]
    {
      this.db, this.challenges, this.alone := db, challenges, alone;
      accounts, transactions, entries := map[], map[], [];
      work := NO_WRITES;
    }

    /** SELECT ... FOR UPDATE on one account, with populate_existing. */
    method GetOneForUpdate(id: AccountId) returns (a: Account?)
      requires Valid()
      modifies this`accounts, this`work, accounts.Values
      ensures Valid() && fresh(accounts.Values - old(accounts.Values))
      ensures a == null <==> id !in db.rows.accounts
      ensures a == null ==> work == old(work)
      ensures a != null ==> id in accounts && accounts[id] == a
      ensures a != null ==> work == old(work).(accounts := old(work.accounts)[id := db.rows.accounts[id]])
      ensures old(accounts.Keys) <= accounts.Keys && forall x | x in old(accounts) :: accounts[x] == old(accounts[x])
    {
      if id !in db.rows.accounts {
        return null;
      }
      if id in accounts {
        a := accounts[id];
        a.Populate(db.rows.accounts[id]);
      } else {
        a := new Account(id, db.rows.accounts[id]);
        accounts := accounts[id := a];
      }
      work := work.(accounts := work.accounts[id := db.rows.accounts[id]]);
    }

    /** SELECT ... FOR UPDATE on the transaction row, with populate_existing. */
    method GetForUpdate(id: TxnId) returns (t: Transaction?)
      requires Valid()
      modifies this`transactions, this`work, transactions.Values
      ensures Valid() && fresh(transactions.Values - old(transactions.Values))
      ensures t == null <==> id !in db.rows.txns
      ensures t == null ==> work == old(work)
      ensures t != null ==> id in transactions && transactions[id] == t
      ensures t != null ==> work == old(work).(txns := old(work.txns)[id := db.rows.txns[id]])
    {
      if id !in db.rows.txns {
        return null;
      }
      if id in transactions {
        t := transactions[id];
        t.status, t.reversalOf := db.rows.txns[id].status, db.rows.txns[id].reversalOf;
        t.loaded := t.status;
      } else {
        t := new Transaction(id, db.rows.txns[id]);
        transactions := transactions[id := t];
      }
      work := work.(txns := work.txns[id := db.rows.txns[id]]);
    }

    /** session.add of a new transaction. */
    method Create(id: TxnId, row: TxnRow) returns (t: Transaction)
      requires Valid() && id !in db.rows.txns && id !in transactions
      modifies this`transactions, this`work
      ensures Valid() && fresh(t) && t.id == id
      ensures transactions == old(transactions)[id := t]
      ensures work == old(work).(txns := old(work.txns)[id := row])
    {
      t := new Transaction(id, row);
      transactions := transactions[id := t];
      work := work.(txns := work.txns[id := row]);
    }

    /** Assign the status of a transaction. */
    method SetStatus(t: Transaction, status: TxnStatus)
      requires Valid() && t.id in work.txns && t.id in transactions && transactions[t.id] == t
      modifies this`work, t`status
      ensures Valid()
      ensures work == old(work).(txns := old(work.txns)[t.id := old(work.txns)[t.id].(status := status)])
    {
      t.status := status;
      work := work.(txns := work.txns[t.id := work.txns[t.id].(status := status)]);
    }

    /** Add an amount to a balance, count the change, and add the ledger row that records it. */
    method CreditAccount(account: Account, txn: TxnId, amount: int, tag: Currency)
      requires Valid() && account.id in work.accounts && accounts[account.id] == account
      modifies this`entries, this`work, account`balance, account`version
      ensures Valid()
      ensures
        var row := old(work.accounts)[account.id];
        work == old(work).(
          accounts := old(work.accounts)[account.id := Moved(row, amount)],
          entries := old(work.entries) + [Entry(txn, account.id, Credit, amount, tag, row.balance, row.balance + amount)])
    {
      var balanceBefore := account.balance;
      account.balance := account.balance + amount;
      account.version := account.version + 1;
      entries := entries + [Entry(txn, account.id, Credit, amount, tag, balanceBefore, account.balance)];
      work := work.(accounts := work.accounts[account.id := account.Row()], entries := entries);
    }

    /** Take an amount from a balance, count the change, and add the ledger row that records it. */
    method DebitAccount(account: Account, txn: TxnId, amount: int, tag: Currency)
      requires Valid() && account.id in work.accounts && accounts[account.id] == account
      modifies this`entries, this`work, account`balance, account`version
      ensures Valid()
      ensures
        var row := old(work.accounts)[account.id];
        work == old(work).(
          accounts := old(work.accounts)[account.id := Moved(row, -amount)],
          entries := old(work.entries) + [Entry(txn, account.id, Debit, amount, tag, row.balance, row.balance - amount)])
    {
      var balanceBefore := account.balance;
      account.balance := account.balance - amount;
      account.version := account.version + 1;
      entries := entries + [Entry(txn, account.id, Debit, amount, tag, balanceBefore, account.balance)];
      work := work.(accounts := work.accounts[account.id := account.Row()], entries := entries);
    }

    /** Rollback expires every object and forgets what was added. */
    method Rollback()
      modifies this`accounts, this`transactions, this`entries, this`work
      ensures Valid() && work == NO_WRITES && accounts == map[] && transactions == map[]
    {
      accounts, transactions, entries := map[], map[], [];
      work := NO_WRITES;
    }

    // ---- Flush and commit ----------------------------------------------------------------------

    /** The account rows after a flush: changed columns of changed objects. */
    function FlushedAccounts(): map<AccountId, AccountRow>
      reads this, accounts.Values
    {
      map a | a in db.rows.accounts ::
        if a in accounts then accounts[a].Flushed(db.rows.accounts[a]) else db.rows.accounts[a]
    }

    function FlushedTxns(): map<TxnId, TxnRow>
      reads this, transactions.Values
    {
      map t | t in db.rows.txns.Keys + transactions.Keys ::
        if t !in transactions then db.rows.txns[t]
        else if t in db.rows.txns then transactions[t].Flushed(db.rows.txns[t])
        else transactions[t].Row()
    }

    /** A flush writes the work and nothing else: stale copies that were not touched write nothing. */
    lemma FlushWritesWork()
      requires Valid()
      ensures FlushedAccounts() == db.rows.accounts + work.accounts
      ensures FlushedTxns() == db.rows.txns + work.txns
    {
      forall a | a in db.rows.accounts ensures FlushedAccounts()[a] == (db.rows.accounts + work.accounts)[a] {
        if a in accounts {
          assert accounts[a].Flushed(db.rows.accounts[a]) == if a in work.accounts then work.accounts[a] else db.rows.accounts[a];
        }
      }
      forall a | a in work.accounts ensures a in db.rows.accounts {
        assert a in accounts;
      }
      assert FlushedAccounts().Keys == (db.rows.accounts + work.accounts).Keys;
      forall t | t in db.rows.txns + work.txns
        ensures t in FlushedTxns() && FlushedTxns()[t] == (db.rows.txns + work.txns)[t]
      {
        if t in transactions && t in db.rows.txns {
          assert transactions[t].Flushed(db.rows.txns[t]) == if t in work.txns then work.txns[t] else db.rows.txns[t];
        }
      }
      forall t | t in FlushedTxns() ensures t in db.rows.txns + work.txns {
        assert t in db.rows.txns || t in transactions;
      }
      assert FlushedTxns().Keys == (db.rows.txns + work.txns).Keys;
    }

    /** Whether the database accepts the new rows and entries. */
    method Accepted() returns (ok: bool)
      requires Valid()
      ensures ok == RowsPass(db, work)
    {
      var entriesOk := forall i | 0 <= i < |entries| :: 0 < entries[i].amount && Storable(entries[i].after);
      var rowsOk := forall t | t in transactions.Keys && t !in db.rows.txns :: RowPasses(transactions[t].Row());
      assert rowsOk == forall t | t in work.txns && t !in db.rows.txns :: RowPasses(work.txns[t]);
      ok := entriesOk && rowsOk;
    }

    /** After a flush every object's loaded state is its current one. */
    method MarkLoaded()
      requires forall a, b | a in accounts && b in accounts && a != b :: accounts[a] != accounts[b]
      requires forall t, u | t in transactions && u in transactions && t != u :: transactions[t] != transactions[u]
      modifies set a | a in accounts :: accounts[a]`loaded, set t | t in transactions :: transactions[t]`loaded
      ensures forall a | a in accounts :: accounts[a].loaded == accounts[a].Row()
      ensures forall t | t in transactions :: transactions[t].loaded == transactions[t].status
    {
      forall a | a in accounts.Keys {
        accounts[a].loaded := accounts[a].Row();
      }
      forall t | t in transactions.Keys {
        transactions[t].loaded := transactions[t].status;
      }
    }

    /** Flush and commit; when the database rejects the rows, roll back. */
    method Commit() returns (r: Outcome)
      requires Valid()
      modifies this`db, this`accounts, this`transactions, this`entries, this`work, accounts.Values, transactions.Values
      ensures Valid() && work == NO_WRITES
      ensures accounts.Values <= old(accounts.Values) && transactions.Values <= old(transactions.Values)
      ensures old(RowsPass(db, work)) ==> r == Done && db == Publish(old(db), old(work))
      ensures !old(RowsPass(db, work)) ==> r == ServerError && db == old(db)
    {
      var ok := Accepted();
      if ok {
        Flush();
        r := Done;
      } else {
        Rollback();
        r := ServerError;
      }
    }

    /** Write the changed columns and the new rows. The objects stay in the identity map. */
    method Flush()
      requires Valid()
      modifies this`db, this`entries, this`work, accounts.Values, transactions.Values
      ensures Valid() && work == NO_WRITES
      ensures db == Publish(old(db), old(work))
    {
      FlushWritesWork();
      db := Bank(db.rows.(accounts := FlushedAccounts(), txns := FlushedTxns()), db.ledger + entries);
      entries := [];
      work := NO_WRITES;
      MarkLoaded();
    }

    /** get_by_id without a lock: an object already in the identity map is returned as it is. */
    method ReadTransaction(id: TxnId) returns (t: Transaction?)
      requires Valid()
      modifies this`transactions
      ensures Valid() && fresh(transactions.Values - old(transactions.Values))
      ensures t == null <==> id !in transactions
      ensures t == null ==> transactions == old(transactions)
      ensures transactions.Keys <= old(transactions.Keys) + {id}
      ensures forall x | x in old(transactions) :: x in transactions && transactions[x] == old(transactions[x])
      ensures t != null ==> transactions[id] == t
      ensures id in old(transactions) ==> transactions == old(transactions)
      ensures id !in old(transactions) ==> (t != null <==> id in db.rows.txns)
      ensures id !in old(transactions) && t != null ==> t.Row() == db.rows.txns[id]
    {
      if id in transactions {
        return transactions[id];
      }
      if id !in db.rows.txns {
        return null;
      }
      t := new Transaction(id, db.rows.txns[id]);
      transactions := transactions[id := t];
    }

    /** An object equal to the current row may be changed as one that was read under a lock. */
    method MarkFailedRead(t: TxnId)
      requires Valid() && t in db.rows.txns && t in transactions && t !in work.txns
      requires transactions[t].Row() == db.rows.txns[t]
      modifies this`work, {transactions[t]}`status
      ensures Valid()
      ensures work == old(work).(txns := old(work.txns)[t := db.rows.txns[t].(status := Failed)])
    {
      transactions[t].status := Failed;
      work := work.(txns := work.txns[t := db.rows.txns[t].(status := Failed)]);
    }

    /** mark_failed on the object that was read without a lock, and commit. */
    method FailRead(t: TxnId)
      requires Valid() && work == NO_WRITES && t in db.rows.txns && t in transactions
      requires transactions[t].Row() == db.rows.txns[t]
      modifies this`db, this`accounts, this`transactions, this`entries, this`work, accounts.Values, transactions.Values
      ensures Valid() && work == NO_WRITES
      ensures db == MarkFailed(old(db), t)
    {
      MarkFailedRead(t);
      assert RowsPass(db, work);
      PublishFailed(db, t);
      var _ := Commit();
    }

    method Refused(error: Refusal) returns (r: Outcome)
      modifies this`accounts, this`transactions, this`entries, this`work
      ensures Valid() && work == NO_WRITES && accounts == map[] && transactions == map[]
      ensures r == Raised(error)
    {
      Rollback();
      r := Raised(error);
    }

    /** Commit of a movement: the database accepts it exactly when the decision does. */
    method CommitMovement(id: TxnId, ghost t: TxnRow, ghost tag1: Currency, ghost tag2: Currency) returns (r: Outcome)
      requires Valid()
      requires t.sender.Some? ==> t.sender.value in db.rows.accounts
      requires t.receiver.Some? ==> t.receiver.value in db.rows.accounts
      requires work == Movement(db.rows, id, t, tag1, tag2)
      requires RowsPass(db, work) == ChecksPass(t, work)
      modifies this`db, this`accounts, this`transactions, this`entries, this`work, accounts.Values, transactions.Values
      ensures Valid() && work == NO_WRITES
      ensures accounts.Values <= old(accounts.Values) && transactions.Values <= old(transactions.Values)
      ensures Answers(old(db), Post(old(db.rows), id, t, tag1, tag2), db, r)
    {
      r := Commit();
    }

    /** Commit of a posting: the database accepts it exactly when the decision does. */
    method CommitPosting(id: TxnId, ghost t: TxnRow, ghost tag: Currency) returns (r: Outcome)
      requires Valid() && id !in db.rows.txns && t.status == Pending && t.converted.None?
      requires t.sender.Some? ==> t.sender.value in db.rows.accounts
      requires t.receiver.Some? ==> t.receiver.value in db.rows.accounts
      requires work == Movement(db.rows, id, t, tag, tag)
      modifies this`db, this`accounts, this`transactions, this`entries, this`work, accounts.Values, transactions.Values
      ensures Valid() && work == NO_WRITES
      ensures Answers(old(db), PostNew(old(db.rows), id, t, tag), db, r)
    {
      assert RowsPass(db, work) == ChecksPass(t, work);
      r := CommitMovement(id, t, tag, tag);
    }

    /** The common end of deposit: the new row t credits the one account that was locked. */
    method PostCredit(id: TxnId, account: Account, t: TxnRow) returns (r: Outcome)
      requires Valid() && id !in db.rows.txns && id !in transactions
      requires account.id in accounts && accounts[account.id] == account
      requires work == NO_WRITES.(accounts := map[account.id := db.rows.accounts[account.id]])
      requires t.sender.None? && t.receiver == Some(account.id) && t.converted.None? && t.status == Pending
      modifies this`db, this`accounts, this`transactions, this`entries, this`work, accounts.Values, transactions.Values
      ensures Valid() && work == NO_WRITES
      ensures Answers(old(db), PostNew(old(db.rows), id, t, t.currency), db, r)
    {
      var transaction := Create(id, t);
      CreditAccount(account, id, t.amount, t.currency);
      SetStatus(transaction, Success);
      CreditIsMovement(db.rows, id, t, t.currency);
      r := CommitPosting(id, t, t.currency);
    }

    /** The common end of withdraw and pay_with_card: the new row t debits the one account that was locked. */
    method PostDebit(id: TxnId, account: Account, t: TxnRow) returns (r: Outcome)
      requires Valid() && id !in db.rows.txns && id !in transactions
      requires account.id in accounts && accounts[account.id] == account
      requires work == NO_WRITES.(accounts := map[account.id := db.rows.accounts[account.id]])
      requires t.sender == Some(account.id) && t.receiver.None? && t.converted.None? && t.status == Pending
      modifies this`db, this`accounts, this`transactions, this`entries, this`work, accounts.Values, transactions.Values
      ensures Valid() && work == NO_WRITES
      ensures Answers(old(db), PostNew(old(db.rows), id, t, t.currency), db, r)
    {
      var transaction := Create(id, t);
      DebitAccount(account, id, t.amount, t.currency);
      SetStatus(transaction, Success);
      DebitIsMovement(db.rows, id, t, t.currency);
      r := CommitPosting(id, t, t.currency);
    }

    // ---- Services ------------------------------------------------------------------------------

    /** deposit */
    method DepositMoney(id: TxnId, accountId: AccountId, amount: int, currency: Currency) returns (r: Outcome)
      requires Valid() && work == NO_WRITES && id !in db.rows.txns && id !in transactions
      modifies this`db, this`accounts, this`transactions, this`entries, this`work, accounts.Values, transactions.Values
      ensures Valid() && work == NO_WRITES
      ensures Answers(old(db), DecideDeposit(old(db.rows), id, accountId, amount, currency), db, r)
    {
      var account := GetOneForUpdate(accountId);
      if account == null {
        r := Refused(NotFound);
      } else if account.status != Active {
        r := Refused(NotActive);
      } else if account.currency != currency {
        r := Refused(CurrencyMismatch);
      } else {
        r := PostCredit(id, account, NewTxn(Deposit, None, Some(account.id), amount, currency));
      }
    }

    /** withdraw */
    method WithdrawMoney(id: TxnId, accountId: AccountId, amount: int, currency: Currency) returns (r: Outcome)
      requires Valid() && work == NO_WRITES && id !in db.rows.txns && id !in transactions
      modifies this`db, this`accounts, this`transactions, this`entries, this`work, accounts.Values, transactions.Values
      ensures Valid() && work == NO_WRITES
      ensures Answers(old(db), DecideWithdraw(old(db.rows), id, accountId, amount, currency), db, r)
    {
      var account := GetOneForUpdate(accountId);
      if account == null {
        r := Refused(NotFound);
      } else if account.status != Active {
        r := Refused(NotActive);
      } else if account.currency != currency {
        r := Refused(CurrencyMismatch);
      } else if account.balance < amount {
        r := Refused(InsufficientBalance);
      } else {
        r := PostDebit(id, account, NewTxn(Withdrawal, Some(account.id), None, amount, currency));
      }
    }

    /** The part of pay_with_card after the card has been locked: the account is locked, checked and debited. */
    method PayFromAccount(id: TxnId, cardId: CardId, accountId: AccountId, amount: int, currency: Currency) returns (r: Outcome)
      requires Valid() && work == NO_WRITES && id !in db.rows.txns && id !in transactions
      requires CardVisible(db.rows, cardId) && db.rows.cards[cardId].status == CardActive && db.rows.cards[cardId].account == accountId
      modifies this`db, this`accounts, this`transactions, this`entries, this`work, accounts.Values, transactions.Values
      ensures Valid() && work == NO_WRITES
      ensures Answers(old(db), DecidePay(old(db.rows), id, cardId, amount, currency), db, r)
    {
      var account := GetOneForUpdate(accountId);
      if account == null {
        r := Refused(CardConflict);
      } else if account.status != Active {
        r := Refused(NotActive);
      } else if account.currency != currency {
        r := Refused(CurrencyMismatch);
      } else if account.balance < amount {
        r := Refused(InsufficientBalance);
      } else {
        r := PostDebit(id, account, NewTxn(CardPayment, Some(account.id), None, amount, currency).(card := Some(cardId)));
      }
    }

    /** The UPDATE of a card row, and its commit. */
    method CommitCard(c: CardId, row: CardRow)
      requires Valid() && work == NO_WRITES
      modifies this`db
      ensures Valid() && db == WithCard(old(db), c, row)
    {
      db := WithCard(db, c, row);
    }

    /** SELECT ... FOR UPDATE on two accounts, the smaller id first. */
    method GetTwoForUpdate(id1: AccountId, id2: AccountId) returns (a: Account, b: Account)
      requires Valid() && id1 in db.rows.accounts && id2 in db.rows.accounts
      modifies this`accounts, this`work, accounts.Values
      ensures Valid() && fresh(accounts.Values - old(accounts.Values))
      ensures id1 in accounts && accounts[id1] == a && id2 in accounts && accounts[id2] == b
      ensures work == old(work).(
        accounts := old(work.accounts)[id1 := db.rows.accounts[id1]][id2 := db.rows.accounts[id2]])
    {
      if id1 < id2 {
        var x := GetOneForUpdate(id1);
        var y := GetOneForUpdate(id2);
        a, b := x, y;
      } else {
        var y := GetOneForUpdate(id2);
        var x := GetOneForUpdate(id1);
        a, b := x, y;
        UpdatesCommute(old(work.accounts), id1, db.rows.accounts[id1], id2, db.rows.accounts[id2]);
      }
    }

    /**
     After a domain error: roll back, read the transaction again, and fail it if it is still PENDING;
     otherwise report that it has been processed.
     */
    method FailPending(t: TxnId, error: Refusal) returns (r: Outcome)
      requires t in db.rows.txns
      modifies this`db, this`accounts, this`transactions, this`entries, this`work
      ensures Valid() && work == NO_WRITES
      ensures db == if old(db.rows.txns)[t].status == Pending then MarkFailed(old(db), t) else old(db)
      ensures r == Raised(if old(db.rows.txns)[t].status == Pending then error else AlreadyProcessed)
    {
      Rollback();
      var reloaded := ReadTransaction(t);
      if reloaded.status == Pending {
        FailRead(t);
        r := Raised(error);
      } else {
        r := Refused(AlreadyProcessed);
      }
    }

    /** The accounts of a PENDING transaction exist and are distinct. */
    lemma PendingSides(t: TxnId)
      requires BankInv(db) && t in db.rows.txns && db.rows.txns[t].status == Pending
      ensures
        var row := db.rows.txns[t];
        && ShapeOk(db.rows, row)
        && row.sender.Some? && row.receiver.Some?
        && row.sender.value in db.rows.accounts && row.receiver.value in db.rows.accounts
    {
      assert StatusOk(db, t) && ShapeOk(db.rows, db.rows.txns[t]);
    }

    /** _execute_locked_transfer */
    method ExecuteLockedTransfer(t: TxnId) returns (r: Outcome)
      requires Valid() && work == NO_WRITES && BankInv(db) && t in db.rows.txns
      modifies this`db, this`accounts, this`transactions, this`entries, this`work, accounts.Values, transactions.Values
      ensures Valid() && work == NO_WRITES
      ensures AnswersLocked(old(db), t, db, r)
    {
      var lockedTransaction := GetForUpdate(t);
      if lockedTransaction.status != Pending {
        r := FailPending(t, AlreadyProcessed);
        return;
      }
      r := ExecutePending(t, lockedTransaction);
    }

    /** The locked transfer once the transaction row is locked and PENDING. */
    method ExecutePending(t: TxnId, transaction: Transaction) returns (r: Outcome)
      requires Valid() && BankInv(db) && t in db.rows.txns && db.rows.txns[t].status == Pending
      requires transaction.id == t && t in transactions && transactions[t] == transaction
      requires work == NO_WRITES.(txns := map[t := db.rows.txns[t]])
      modifies this`db, this`accounts, this`transactions, this`entries, this`work, accounts.Values, transactions.Values
      ensures Valid() && work == NO_WRITES
      ensures AnswersLocked(old(db), t, db, r)
    {
      PendingSides(t);
      var senderId, receiverId := db.rows.txns[t].sender.value, db.rows.txns[t].receiver.value;
      var sender, receiver := GetTwoForUpdate(senderId, receiverId);
      if sender.status != Active || receiver.status != Active {
        r := FailPending(t, NotActive);
      } else if sender.balance < db.rows.txns[t].amount {
        r := FailPending(t, InsufficientBalance);
      } else {
        r := FinishTransfer(t, db.rows.txns[t], transaction, sender, receiver);
      }
    }

    /** The last part of the locked transfer, after its checks have passed. */
    method FinishTransfer(t: TxnId, row: TxnRow, transaction: Transaction, sender: Account, receiver: Account)
      returns (r: Outcome)
      requires Valid() && transaction.id == t && t in transactions && transactions[t] == transaction
      requires TransferLocked(t, row, sender, receiver)
      requires 0 < row.amount && Storable(row.amount) && (t in db.rows.txns || RowPasses(row)) && row.status == Pending
      modifies this`db, this`accounts, this`transactions, this`entries, this`work, accounts.Values, transactions.Values
      ensures Valid() && work == NO_WRITES
      ensures accounts.Values <= old(accounts.Values) && transactions.Values <= old(transactions.Values)
      ensures Answers(old(db), Post(old(db.rows), t, row, sender.currency, receiver.currency), db, r)
    {
      MoveLocked(t, row, transaction, sender, receiver);
      TransferRowPasses(db, t, row, work);
      r := CommitMovement(t, row, sender.currency, receiver.currency);
    }

    /** Both accounts of the transfer are locked, as they are in the database, and nothing has changed. */
    ghost predicate TransferLocked(t: TxnId, row: TxnRow, sender: Account, receiver: Account)
      reads this
    {
      && row.sender == Some(sender.id) && row.receiver == Some(receiver.id) && sender.id != receiver.id
      && sender.id in accounts && accounts[sender.id] == sender
      && receiver.id in accounts && accounts[receiver.id] == receiver
      && sender.id in db.rows.accounts && receiver.id in db.rows.accounts
      && work == Writes(
           map[][sender.id := db.rows.accounts[sender.id]][receiver.id := db.rows.accounts[receiver.id]],
           map[t := row], [])
    }

    /** Both balances, both ledger rows, and the status. */
    method MoveLocked(t: TxnId, row: TxnRow, transaction: Transaction, sender: Account, receiver: Account)
      requires Valid() && transaction.id == t && t in transactions && transactions[t] == transaction
      requires TransferLocked(t, row, sender, receiver)
      modifies this`entries, this`work, sender, receiver, transaction`status
      ensures Valid()
      ensures work == Movement(db.rows, t, row, sender.currency, receiver.currency)
    {
      MoveBalances(t, row, sender, receiver);
      SetStatus(transaction, Success);
      TransferIsMovement(db.rows, t, row, sender.currency, receiver.currency);
    }

    method MoveBalances(t: TxnId, row: TxnRow, sender: Account, receiver: Account)
      requires Valid() && TransferLocked(t, row, sender, receiver)
      modifies this`entries, this`work, sender, receiver
      ensures Valid()
      ensures
        var a, b := sender.id, receiver.id;
        var s, r := db.rows.accounts[a], db.rows.accounts[b];
        work == Writes(
          map[][a := s][b := r][a := Moved(s, -row.amount)][b := Moved(r, Credited(row))],
          map[t := row],
          [] + [Entry(t, a, Debit, row.amount, sender.currency, s.balance, s.balance - row.amount)]
             + [Entry(t, b, Credit, Credited(row), receiver.currency, r.balance, r.balance + Credited(row))])
    {
      var creditAmount := if row.converted.Some? then row.converted.value else row.amount;
      DebitAccount(sender, t, row.amount, sender.currency);
      CreditAccount(receiver, t, creditAmount, receiver.currency);
    }

    // ---- Unlocked reads --------------------------------------------------------------------------

    /** The accounts as the session sees them: its own objects, however stale, before the database. */
    function View(): Tables
      reads this, accounts.Values
    {
      db.rows.(accounts := map a | a in db.rows.accounts :: if a in accounts then accounts[a].Row() else db.rows.accounts[a])
    }

    /** A session that is alone sees the committed accounts. */
    lemma AloneSeesCommitted()
      requires Valid() && alone && work == NO_WRITES
      ensures View() == db.rows
    {
      forall a | a in db.rows.accounts ensures View().accounts[a] == db.rows.accounts[a] {
        if a in accounts {
          assert a !in work.accounts;
        }
      }
      assert View().accounts == db.rows.accounts;
    }

    /** However stale, a session sees the right owners and currencies. */
    lemma SeesCommitted()
      requires Valid()
      ensures Sees(View(), db.rows)
    {}

    /** Other sessions commit: whatever they do, the objects of this one become no worse than stale. */
    method Elsewhere(b: Bank)
      requires Valid() && work == NO_WRITES && (alone ==> b == db) && Grows(db, b)
      modifies this`db
      ensures Valid() && db == b
    {
      db := b;
    }

    /** get_by_id without a lock: an object already in the identity map is returned as it is. */
    method ReadAccount(id: AccountId) returns (a: Account?)
      requires Valid()
      modifies this`accounts
      ensures Valid() && fresh(accounts.Values - old(accounts.Values))
      ensures View() == old(View())
      ensures a == null <==> id !in db.rows.accounts
      ensures a != null ==> id in accounts && accounts[id] == a && a.Row() == View().accounts[id]
    {
      if id in accounts {
        a := accounts[id];
      } else if id !in db.rows.accounts {
        a := null;
      } else {
        a := new Account(id, db.rows.accounts[id]);
        accounts := accounts[id := a];
      }
    }

    /** The checks of _validate_and_create_pending_transaction, on what the session sees. */
    method ValidateTransfer(r: Request) returns (v: Validation)
      requires Valid()
      modifies this`accounts
      ensures Valid() && fresh(accounts.Values - old(accounts.Values))
      ensures View() == old(View())
      ensures v == Validate(View(), r)
    {
      var sender := ReadAccount(r.sender);
      if sender == null || sender.owner != r.customer {
        return Invalid(NotFound);
      }
      if sender.status != Active {
        return Invalid(NotActive);
      }
      if r.currency != sender.currency {
        return Invalid(CurrencyMismatch);
      }
      if r.receiver.None? {
        return Invalid(NotFound);
      }
      var receiver := ReadAccount(r.receiver.value);
      if receiver == null {
        return Invalid(NotFound);
      }
      if receiver.id == sender.id {
        return Invalid(SameAccount);
      }
      if receiver.status != Active {
        return Invalid(NotActive);
      }
      if sender.balance < r.amount {
        return Invalid(InsufficientBalance);
      }
      var convertedAmount := r.amount;
      if sender.currency != receiver.currency {
        if r.rate.None? {
          return Invalid(NoExchangeRate);
        }
        if r.amount >= 0 {
          convertedAmount := Conversion.Convert(r.amount, r.rate.value);
        }
      }
      v := Validation.Valid(
        NewTxn(Transfer, Some(sender.id), Some(receiver.id), r.amount, sender.currency).(converted := Some(convertedAmount)));
    }

    /** initiate_transfer, in a request whose identity map is still empty. */
    method InitiateTransfer(id: TxnId, request: Request, code: Code, now: int, lifetime: int) returns (r: Outcome)
      requires Valid() && work == NO_WRITES && accounts == map[] && transactions == map[] && id !in db.rows.txns
      modifies this
      ensures Valid() && work == NO_WRITES
      ensures (System(db, challenges), r) == Initiating(old(System(db, challenges)), id, request, code, now, lifetime)
    {
      assert View() == db.rows;
      var v := ValidateTransfer(request);
      if v.Invalid? {
        return Raised(v.error);
      }
      r := Insert(id, v.row);
      if r == Done {
        challenges := challenges[id := Challenge(code, 0, MAX_ATTEMPTS, now + lifetime, false)];
      }
    }

    method Insert(id: TxnId, row: TxnRow) returns (r: Outcome)
      requires Valid() && work == NO_WRITES && transactions == map[] && id !in db.rows.txns
      modifies this`db, this`accounts, this`transactions, this`entries, this`work, accounts.Values
      ensures Valid() && work == NO_WRITES
      ensures db == if RowPasses(row) then WithTxn(old(db), id, row) else old(db)
      ensures r == if RowPasses(row) then Done else ServerError
    {
      var _ := Create(id, row);
      PublishInserted(db, id, row);
      r := Commit();
    }

    /**
     execute_scheduled_transfer. The session may have read accounts before, so validation goes by its
     view; the locked step goes by the database.
     */
    method ExecuteScheduledTransfer(id: TxnId, request: Request) returns (r: Outcome)
      requires Valid() && work == NO_WRITES
      modifies this`db, this`accounts, this`transactions, this`entries, this`work, accounts.Values, transactions.Values
      ensures Valid() && work == NO_WRITES
      ensures fresh(accounts.Values - old(accounts.Values)) && fresh(transactions.Values - old(transactions.Values))
      ensures (db, r) == Scheduling(old(View()), old(db), id, request)
    {
      var v := ValidateTransfer(request);
      if v.Invalid? {
        return Raised(v.error);
      }
      if id in db.rows.txns || !RowPasses(v.row) {
        Rollback();
        return ServerError;
      }
      r := ExecuteNew(id, v.row);
    }

    /** Create the row, flush it, and go to the locked step. */
    method ExecuteNew(id: TxnId, row: TxnRow) returns (r: Outcome)
      requires Valid() && work == NO_WRITES && id !in db.rows.txns && id !in transactions
      requires InitiatedOn(db.rows, row)
      modifies this`db, this`accounts, this`transactions, this`entries, this`work, accounts.Values, transactions.Values
      ensures Valid() && work == NO_WRITES
      ensures fresh(accounts.Values - old(accounts.Values)) && fresh(transactions.Values - old(transactions.Values))
      ensures (db, r) == SchedulingLocked(old(db), id, row)
    {
      FlushedTransfer(db, id, row);
      var transaction := Create(id, row);
      r := ExecuteFlushed(id, row, transaction);
    }

    /** The locked step on a row that this database transaction has only flushed. */
    method ExecuteFlushed(id: TxnId, row: TxnRow, transaction: Transaction) returns (r: Outcome)
      requires Valid() && id !in db.rows.txns && transaction.id == id && id in transactions && transactions[id] == transaction
      requires InitiatedOn(db.rows, row) && work == NO_WRITES.(txns := map[id := row])
      modifies this`db, this`accounts, this`transactions, this`entries, this`work, accounts.Values, transactions.Values
      ensures Valid() && work == NO_WRITES
      ensures fresh(accounts.Values - old(accounts.Values)) && fresh(transactions.Values - old(transactions.Values))
      ensures AnswersFlushed(old(db), id, row, db, r)
    {
      var sender, receiver := GetTwoForUpdate(row.sender.value, row.receiver.value);
      if sender.status != Active || receiver.status != Active || sender.balance < row.amount {
        r := LoseFlushed(id);
      } else {
        assert TransferLocked(id, row, sender, receiver);
        r := FinishTransfer(id, row, transaction, sender, receiver);
      }
    }

    /** After a refusal the rollback has taken the row away, and the assertion that it is there fails. */
    method LoseFlushed(id: TxnId) returns (r: Outcome)
      requires id !in db.rows.txns
      modifies this`accounts, this`transactions, this`entries, this`work
      ensures Valid() && work == NO_WRITES && accounts == map[] && transactions == map[]
      ensures r == ServerError
    {
      Rollback();
      var reloaded := ReadTransaction(id);
      assert reloaded == null;
      r := ServerError;
    }

    // ---- Reversal ------------------------------------------------------------------------------

    /** Assign reversal_of_transaction_id on a transaction that has not been inserted yet. */
    method SetReversalOf(t: Transaction, original: TxnId)
      requires Valid() && t.id in work.txns && t.id in transactions && transactions[t.id] == t && t.id !in db.rows.txns
      modifies this`work, t`reversalOf
      ensures Valid()
      ensures work == old(work).(txns := old(work.txns)[t.id := old(work.txns)[t.id].(reversalOf := Some(original))])
    {
      t.reversalOf := Some(original);
      work := work.(txns := work.txns[t.id := work.txns[t.id].(reversalOf := Some(original))]);
    }

    /** reverse_transaction */
    method ReverseTransaction(id: TxnId, t: TxnId) returns (r: Outcome)
      requires Valid() && work == NO_WRITES && BankInv(db) && id !in db.rows.txns && id !in transactions
      modifies this`db, this`accounts, this`transactions, this`entries, this`work, accounts.Values, transactions.Values
      ensures Valid() && work == NO_WRITES
      ensures Answers(old(db), DecideReverse(old(db.rows), id, t, HasReversal(old(db.rows), t)), db, r)
    {
      var original := GetForUpdate(t);
      if original == null {
        r := Refused(NotFound);
        return;
      }
      if original.status != Success {
        r := Refused(NotReversible);
        return;
      }
      if HasReversal(db.rows, t) {
        r := Refused(NotReversible);
        return;
      }
      if original.columns.kind == CardPayment {
        r := Refused(NotReversible);
        return;
      }
      r := ReverseLocked(id, t, original);
    }

    /** The reversal once its original is locked and known to be reversible. */
    method ReverseLocked(id: TxnId, t: TxnId, original: Transaction) returns (r: Outcome)
      requires Valid() && BankInv(db) && id !in db.rows.txns && id !in transactions
      requires t in db.rows.txns && db.rows.txns[t].status == Success && db.rows.txns[t].kind != CardPayment
      requires !HasReversal(db.rows, t)
      requires original.id == t && t in transactions && transactions[t] == original
      requires work == NO_WRITES.(txns := map[t := db.rows.txns[t]])
      modifies this`db, this`accounts, this`transactions, this`entries, this`work, accounts.Values, transactions.Values
      ensures Valid() && work == NO_WRITES
      ensures Answers(old(db), DecideReverse(old(db.rows), id, t, false), db, r)
    {
      assert ShapeOk(db.rows, db.rows.txns[t]);
      ReversalDecision(db.rows, id, t);
      var refusal := LockReversal(t);
      if refusal.Some? {
        r := Refused(refusal.value);
      } else {
        r := PostReversal(id, t, original);
      }
    }

    /** The accounts that a reversal has locked, as they are in the database. */
    ghost predicate ReversalLocked(t: TxnId)
      requires t in db.rows.txns && ShapeOk(db.rows, db.rows.txns[t])
      reads this
    {
      work == Writes(LockedSides(db.rows, db.rows.txns[t]), map[t := db.rows.txns[t]], [])
    }

    /** As ReversalLocked, with the row of the reversal created. */
    ghost predicate ReversalAdded(id: TxnId, t: TxnId)
      requires t in db.rows.txns && ShapeOk(db.rows, db.rows.txns[t])
      reads this
    {
      && work.accounts == LockedSides(db.rows, db.rows.txns[t])
      && work.txns == map[t := db.rows.txns[t]][id := ReversalOf(t, db.rows.txns[t])]
      && work.entries == []
    }

    /** Lock the accounts of the original by its kind, and check them. */
    method LockReversal(t: TxnId) returns (refusal: Option<Refusal>)
      requires Valid() && t in db.rows.txns && ShapeOk(db.rows, db.rows.txns[t]) && db.rows.txns[t].kind != CardPayment
      requires work == NO_WRITES.(txns := map[t := db.rows.txns[t]])
      modifies this`accounts, this`work, accounts.Values
      ensures Valid() && fresh(accounts.Values - old(accounts.Values))
      ensures refusal == ReversalRefusal(db.rows, db.rows.txns[t])
      ensures ReversalLocked(t)
    {
      var newSender, newReceiver := db.rows.txns[t].receiver, db.rows.txns[t].sender;
      if newSender.Some? && newReceiver.Some? {
        refusal := LockTransferSides(newSender.value, newReceiver.value, db.rows.txns[t].amount);
      } else if newSender.Some? {
        var account := GetOneForUpdate(newSender.value);
        refusal := if account.status != Active then Some(NotActive)
                   else if account.balance < db.rows.txns[t].amount then Some(InsufficientBalance) else None;
      } else {
        var account := GetOneForUpdate(newReceiver.value);
        refusal := if account.status != Active then Some(NotActive) else None;
      }
    }

    method LockTransferSides(newSender: AccountId, newReceiver: AccountId, amount: int) returns (refusal: Option<Refusal>)
      requires Valid() && newSender in db.rows.accounts && newReceiver in db.rows.accounts
      modifies this`accounts, this`work, accounts.Values
      ensures Valid() && fresh(accounts.Values - old(accounts.Values))
      ensures
        var s, r := db.rows.accounts[newSender], db.rows.accounts[newReceiver];
        && work == old(work).(accounts := old(work.accounts)[newSender := s][newReceiver := r])
        && refusal == if s.status != Active || r.status != Active then Some(NotActive)
                      else if s.balance < amount then Some(InsufficientBalance) else None
    {
      var sender, receiver := GetTwoForUpdate(newSender, newReceiver);
      refusal := if sender.status != Active || receiver.status != Active then Some(NotActive)
                 else if sender.balance < amount then Some(InsufficientBalance) else None;
    }

    /** The reversal's own transaction. */
    method PostReversal(id: TxnId, t: TxnId, original: Transaction) returns (r: Outcome)
      requires Valid() && id !in db.rows.txns && id !in transactions
      requires t in db.rows.txns && ShapeOk(db.rows, db.rows.txns[t]) && db.rows.txns[t].kind != CardPayment
      requires original.id == t && t in transactions && transactions[t] == original
      requires ReversalLocked(t)
      modifies this`db, this`accounts, this`transactions, this`entries, this`work, accounts.Values, transactions.Values
      ensures Valid() && work == NO_WRITES
      ensures Answers(old(db), ReversalPosting(old(db.rows), id, t), db, r)
    {
      StageReversal(id, t, original);
      ReversalAccepted(db, id, t, work);
      r := Commit();
    }

    /** Everything of a reversal but the commit. */
    method StageReversal(id: TxnId, t: TxnId, original: Transaction)
      requires Valid() && id !in db.rows.txns && id !in transactions
      requires t in db.rows.txns && ShapeOk(db.rows, db.rows.txns[t]) && db.rows.txns[t].kind != CardPayment
      requires original.id == t && t in transactions && transactions[t] == original
      requires ReversalLocked(t)
      modifies this`accounts, this`transactions, this`work, this`entries, accounts.Values, transactions.Values
      ensures Valid() && fresh(accounts.Values - old(accounts.Values)) && fresh(transactions.Values - old(transactions.Values))
      ensures work == ReversalWrites(db.rows, id, t)
    {
      var reversal := AddReversal(id, t, original);
      FinishReversal(id, t, reversal, original);
    }

    /** The movement and the statuses, once the reversal has been created. */
    method FinishReversal(id: TxnId, t: TxnId, reversal: Transaction, original: Transaction)
      requires Valid() && id !in db.rows.txns && t in db.rows.txns && ShapeOk(db.rows, db.rows.txns[t])
      requires original.id == t && t in transactions && transactions[t] == original
      requires reversal.id == id && id in transactions && transactions[id] == reversal
      requires ReversalAdded(id, t)
      modifies this`accounts, this`work, this`entries, accounts.Values, reversal`status, original`status
      ensures Valid() && fresh(accounts.Values - old(accounts.Values))
      ensures work == ReversalWrites(db.rows, id, t)
    {
      MoveReversal(id, t);
      ghost var moved := work;
      SettleReversal(id, t, reversal, original);
      ReversalIs(db.rows, id, t, moved, work);
    }

    /** Mark the reversal SUCCESS and its original REVERSED. */
    method SettleReversal(id: TxnId, t: TxnId, reversal: Transaction, original: Transaction)
      requires Valid() && id !in db.rows.txns && t in db.rows.txns && ShapeOk(db.rows, db.rows.txns[t])
      requires original.id == t && t in transactions && transactions[t] == original
      requires reversal.id == id && id in transactions && transactions[id] == reversal
      requires work.txns == map[t := db.rows.txns[t]][id := ReversalOf(t, db.rows.txns[t])]
      modifies this`work, reversal`status, original`status
      ensures Valid()
      ensures work == old(work).(txns := ReversalWrites(db.rows, id, t).txns)
    {
      SetStatus(reversal, Success);
      SetStatus(original, Reversed);
      ReversalStatuses(db.rows, id, t);
    }

    /** Create the reversal and point it at its original. */
    method AddReversal(id: TxnId, t: TxnId, original: Transaction) returns (reversal: Transaction)
      requires Valid() && id !in db.rows.txns && id !in transactions
      requires t in db.rows.txns && ShapeOk(db.rows, db.rows.txns[t]) && db.rows.txns[t].kind != CardPayment
      requires original.id == t && t in transactions && transactions[t] == original
      requires ReversalLocked(t)
      modifies this`transactions, this`work
      ensures Valid() && fresh(reversal) && reversal.id == id
      ensures t in transactions && transactions[t] == original && id in transactions && transactions[id] == reversal
      ensures fresh(transactions.Values - old(transactions.Values))
      ensures ReversalAdded(id, t)
    {
      var kind := if original.columns.kind == Deposit then Withdrawal
                  else if original.columns.kind == Withdrawal then Deposit else Transfer;
      var row := db.rows.txns[t];
      reversal := Create(id, NewTxn(kind, row.receiver, row.sender, row.amount, row.currency));
      SetReversalOf(reversal, t);
      SetTwice(old(work.txns), id, NewTxn(kind, row.receiver, row.sender, row.amount, row.currency), ReversalOf(t, row));
    }

    /** Lock and read an account once more, and debit it. */
    method DebitLocked(a: AccountId, id: TxnId, amount: int, tag: Currency)
      requires Valid() && a in db.rows.accounts
      modifies this`accounts, this`work, this`entries, accounts.Values
      ensures Valid() && fresh(accounts.Values - old(accounts.Values))
      ensures
        var row := db.rows.accounts[a];
        work == old(work).(
          accounts := old(work.accounts)[a := Moved(row, -amount)],
          entries := old(work.entries) + [Entry(id, a, Debit, amount, tag, row.balance, row.balance - amount)])
    {
      var account := GetOneForUpdate(a);
      DebitAccount(account, id, amount, tag);
      SetTwice(old(work.accounts), a, db.rows.accounts[a], Moved(db.rows.accounts[a], -amount));
    }

    /** Lock and read an account once more, and credit it. */
    method CreditLocked(a: AccountId, id: TxnId, amount: int, tag: Currency)
      requires Valid() && a in db.rows.accounts
      modifies this`accounts, this`work, this`entries, accounts.Values
      ensures Valid() && fresh(accounts.Values - old(accounts.Values))
      ensures
        var row := db.rows.accounts[a];
        work == old(work).(
          accounts := old(work.accounts)[a := Moved(row, amount)],
          entries := old(work.entries) + [Entry(id, a, Credit, amount, tag, row.balance, row.balance + amount)])
    {
      var account := GetOneForUpdate(a);
      CreditAccount(account, id, amount, tag);
      SetTwice(old(work.accounts), a, db.rows.accounts[a], Moved(db.rows.accounts[a], amount));
    }

    /**
     Each account is locked and read once more just before it is changed. Re-reading the second one
     does not lose the first one's change, because it is a different account.
     */
    method MoveReversal(id: TxnId, t: TxnId)
      requires Valid() && t in db.rows.txns && ShapeOk(db.rows, db.rows.txns[t])
      requires work.accounts == LockedSides(db.rows, db.rows.txns[t]) && work.entries == []
      modifies this`accounts, this`work, this`entries, accounts.Values
      ensures Valid() && fresh(accounts.Values - old(accounts.Values))
      ensures
        var row := db.rows.txns[t];
        var m := Movement(db.rows, id, ReversalOf(t, row), row.currency, row.currency);
        work == Writes(m.accounts, old(work.txns), m.entries)
    {
      DebitReversal(id, t);
      CreditReversal(id, t);
      ReversalMoves(db.rows, id, t);
    }

    method DebitReversal(id: TxnId, t: TxnId)
      requires Valid() && t in db.rows.txns && ShapeOk(db.rows, db.rows.txns[t])
      modifies this`accounts, this`work, this`entries, accounts.Values
      ensures Valid() && fresh(accounts.Values - old(accounts.Values))
      ensures work == ReversalDebited(db.rows, id, db.rows.txns[t], old(work))
    {
      var row := db.rows.txns[t];
      if row.receiver.Some? {
        DebitLocked(row.receiver.value, id, row.amount, row.currency);
      }
    }

    method CreditReversal(id: TxnId, t: TxnId)
      requires Valid() && t in db.rows.txns && ShapeOk(db.rows, db.rows.txns[t])
      modifies this`accounts, this`work, this`entries, accounts.Values
      ensures Valid() && fresh(accounts.Values - old(accounts.Values))
      ensures work == ReversalCredited(db.rows, id, db.rows.txns[t], old(work))
    {
      var row := db.rows.txns[t];
      if row.sender.Some? {
        CreditLocked(row.sender.value, id, row.amount, row.currency);
      }
    }

    // ---- One-time codes ------------------------------------------------------------------------

    /** _customer_is_sender: the account is read without a lock, and its owner never changes. */
    method CustomerIsSender(customer: CustomerId, transaction: Transaction) returns (yes: bool)
      requires Valid() && transaction.id in db.rows.txns && transaction.id in transactions
      requires transactions[transaction.id] == transaction
      modifies this`accounts
      ensures Valid() && fresh(accounts.Values - old(accounts.Values))
      ensures yes == OwnedBySender(db.rows, customer, transaction.id)
    {
      var senderId := transaction.columns.sender;
      if senderId.None? {
        return false;
      }
      var sender := ReadAccount(senderId.value);
      yes := sender != null && sender.owner == customer;
    }

    /** _get_owned_pending_transaction */
    method GetOwnedPending(customer: CustomerId, t: TxnId) returns (transaction: Transaction?, error: Option<Refusal>)
      requires Valid() && work == NO_WRITES && accounts == map[] && transactions == map[]
      modifies this`accounts, this`transactions
      ensures Valid() && fresh(transactions.Values) && fresh(accounts.Values)
      ensures error == OwnedPendingError(db.rows, customer, t)
      ensures error.None? ==> transaction != null && t in transactions && transactions[t] == transaction
      ensures error.None? ==> transaction.Row() == db.rows.txns[t]
    {
      transaction := ReadTransaction(t);
      if transaction == null {
        return transaction, Some(NotFound);
      }
      var yes := CustomerIsSender(customer, transaction);
      if !yes {
        error := Some(NotFound);
      } else if transaction.status != Pending {
        error := Some(AlreadyProcessed);
      } else {
        error := None;
      }
    }

    /**
     confirm_transfer, in a request whose identity map is still empty. The challenge row is read into
     an object; it is written back by whichever commit follows its change.
     */
    method Confirm(customer: CustomerId, t: TxnId, code: Code, now: int) returns (r: Outcome)
      requires Valid() && work == NO_WRITES && accounts == map[] && transactions == map[] && BankInv(db)
      modifies this
      ensures Valid() && work == NO_WRITES
      ensures (System(db, challenges), r) == Confirming(old(System(db, challenges)), customer, t, code, now)
    {
      var transaction, error := GetOwnedPending(customer, t);
      if error.Some? {
        r := Raised(error.value);
      } else if t !in challenges {
        r := Raised(NotFound);
      } else {
        r := Verify(t, code, now);
      }
    }

    /** The part of confirm_transfer that looks at the challenge. */
    method Verify(t: TxnId, code: Code, now: int) returns (r: Outcome)
      requires Valid() && work == NO_WRITES && BankInv(db)
      requires t in db.rows.txns && t in transactions && transactions[t].Row() == db.rows.txns[t]
      requires t in challenges && db.rows.txns[t].status == Pending
      modifies this, accounts.Values, transactions.Values
      ensures Valid() && work == NO_WRITES
      ensures (System(db, challenges), r) == Verifying(old(System(db, challenges)), t, code, now)
    {
      var confirmation := new TransferConfirmation(challenges[t]);
      var attemptsExhausted := confirmation.AttemptsExhausted();
      if confirmation.IsExpired(now) {
        FailRead(t);
        r := OtpExpired;
      } else if attemptsExhausted {
        FailRead(t);
        r := TooManyAttempts;
      } else if code != confirmation.code {
        r := Reject(t, confirmation);
      } else {
        r := ExecuteVerified(t, confirmation);
      }
    }

    /** A wrong code: count it, and fail the transfer with the last attempt. */
    method Reject(t: TxnId, confirmation: TransferConfirmation) returns (r: Outcome)
      requires Valid() && work == NO_WRITES
      requires t in db.rows.txns && t in transactions && transactions[t].Row() == db.rows.txns[t]
      requires t in challenges && confirmation.Value() == challenges[t]
      modifies this, accounts.Values, transactions.Values, confirmation
      ensures Valid() && work == NO_WRITES
      ensures (System(db, challenges), r) == Rejecting(old(System(db, challenges)), t)
    {
      confirmation.RegisterFailedAttempt();
      var attemptsRemaining := confirmation.maxAttempts - confirmation.attempts;
      challenges := challenges[t := confirmation.Value()];
      if attemptsRemaining <= 0 {
        FailRead(t);
        r := TooManyAttempts;
      } else {
        r := WrongCode(attemptsRemaining);
      }
    }

    /** The right code: execute, and mark the challenge in the same commit. */
    method ExecuteVerified(t: TxnId, confirmation: TransferConfirmation) returns (r: Outcome)
      requires Valid() && work == NO_WRITES && BankInv(db) && t in db.rows.txns
      requires t in challenges && confirmation.Value() == challenges[t]
      modifies this, accounts.Values, transactions.Values, confirmation
      ensures Valid() && work == NO_WRITES
      ensures (System(db, challenges), r) == Executing(old(System(db, challenges)), t)
    {
      r := ExecuteLockedTransfer(t);
      if r == Done {
        confirmation.MarkVerified();
        challenges := challenges[t := confirmation.Value()];
      }
    }

    /** resend_otp */
    method ResendOtp(customer: CustomerId, t: TxnId, code: Code, now: int, lifetime: int) returns (r: Outcome)
      requires Valid() && work == NO_WRITES && accounts == map[] && transactions == map[]
      modifies this`accounts, this`transactions, this`challenges
      ensures Valid() && work == NO_WRITES
      ensures (System(db, challenges), r) == Resending(old(System(db, challenges)), customer, t, code, now, lifetime)
    {
      var transaction, error := GetOwnedPending(customer, t);
      if error.Some? {
        r := Raised(error.value);
      } else if t !in challenges {
        r := Raised(NotFound);
      } else {
        var confirmation := new TransferConfirmation(challenges[t]);
        confirmation.Reissue(code, now + lifetime);
        challenges := challenges[t := confirmation.Value()];
        r := Done;
      }
    }
  }
}
