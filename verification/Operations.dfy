/**
 The money operations as one atomic step each: a decision taken on a set of rows, and the rows to
 be written when the decision is to go ahead. The same decision is used on the committed rows
 (atomic layer) and on the rows a session holds in its identity map (interleaved layer, services).
 */
module Operations {
  import opened Basics
  import opened Schema

  /** The calls that move money. New transactions get the id passed to Decide. */
  datatype Call =
    | Confirm(txn: TxnId)
    | DepositTo(account: AccountId, amount: int, currency: Currency)
    | WithdrawFrom(account: AccountId, amount: int, currency: Currency)
    | PayByCard(card: CardId, amount: int, currency: Currency)
    | Reverse(txn: TxnId)

  /** The domain errors of the money operations. */
  datatype Refusal =
    | NotFound
    | AlreadyProcessed
    | NotActive
    | CurrencyMismatch
    | InsufficientBalance
    | NotReversible
    | CardConflict
    | SameAccount
    | NoExchangeRate

  datatype Writes = Writes(
    accounts: map<AccountId, AccountRow>,
    txns: map<TxnId, TxnRow>,
    entries: seq<Entry>)

  /**
   Proceed: the rows to commit. Refuse: a domain error was raised. Abort: the database rejects the
   rows (CHECK, UNIQUE or NUMERIC overflow), which is not a domain error. Crash: an assertion or a
   lookup of the service code failed.
   */
  datatype Decision = Proceed(writes: Writes) | Refuse(error: Refusal) | Abort | Crash

  // ---- Rows written by one movement of money -------------------------------------------------

  predicate Storable(x: int) {
    -CENTS_LIMIT < x < CENTS_LIMIT
  }

  function DebitEntry(rows: Tables, id: TxnId, t: TxnRow, tag: Currency): seq<Entry>
    requires t.sender.Some? ==> t.sender.value in rows.accounts
  {
    if t.sender.None? then []
    else
      var a := rows.accounts[t.sender.value];
      [Entry(id, t.sender.value, Debit, t.amount, tag, a.balance, a.balance - t.amount)]
  }

  function CreditEntry(rows: Tables, id: TxnId, t: TxnRow, tag: Currency): seq<Entry>
    requires t.receiver.Some? ==> t.receiver.value in rows.accounts
  {
    if t.receiver.None? then []
    else
      var a := rows.accounts[t.receiver.value];
      [Entry(id, t.receiver.value, Credit, Credited(t), tag, a.balance, a.balance + Credited(t))]
  }

  function Moved(a: AccountRow, delta: int): AccountRow {
    a.(balance := a.balance + delta, version := a.version + 1)
  }

  function MovedAccounts(rows: Tables, t: TxnRow): map<AccountId, AccountRow>
    requires t.sender.Some? ==> t.sender.value in rows.accounts
    requires t.receiver.Some? ==> t.receiver.value in rows.accounts
  {
    (if t.sender.None? then map[] else map[t.sender.value := Moved(rows.accounts[t.sender.value], -t.amount)]) +
    (if t.receiver.None? then map[] else map[t.receiver.value := Moved(rows.accounts[t.receiver.value], Credited(t))])
  }

  /** The rows of a movement: both accounts, the entries, and the transaction as a SUCCESS. */
  function Movement(rows: Tables, id: TxnId, t: TxnRow, debitTag: Currency, creditTag: Currency): Writes
    requires t.sender.Some? ==> t.sender.value in rows.accounts
    requires t.receiver.Some? ==> t.receiver.value in rows.accounts
  {
    Writes(
      MovedAccounts(rows, t),
      map[id := t.(status := Success)],
      DebitEntry(rows, id, t, debitTag) + CreditEntry(rows, id, t, creditTag))
  }

  /**
   The constraints of the transactions, ledger_entries and accounts tables on the rows of a
   movement: positive amounts, distinct accounts, no balance outside NUMERIC(18,2).
   The CHECK on negative balances is left out: it never fires (see Invariants).
   */
  predicate ChecksPass(t: TxnRow, w: Writes) {
    && 0 < t.amount && Storable(t.amount)
    && (t.sender.Some? ==> t.sender != t.receiver)
    && (forall i | 0 <= i < |w.entries| :: 0 < w.entries[i].amount && Storable(w.entries[i].after))
  }

  function Post(rows: Tables, id: TxnId, t: TxnRow, debitTag: Currency, creditTag: Currency): Decision
    requires t.sender.Some? ==> t.sender.value in rows.accounts
    requires t.receiver.Some? ==> t.receiver.value in rows.accounts
  {
    var w := Movement(rows, id, t, debitTag, creditTag);
    if ChecksPass(t, w) then Proceed(w) else Abort
  }

  /** As Post, for a transaction that is inserted by the same commit. */
  function PostNew(rows: Tables, id: TxnId, t: TxnRow, tag: Currency): Decision
    requires t.sender.Some? ==> t.sender.value in rows.accounts
    requires t.receiver.Some? ==> t.receiver.value in rows.accounts
  {
    if id in rows.txns then Abort else Post(rows, id, t, tag, tag)
  }

  function NewTxn(kind: TxnKind, sender: Option<AccountId>, receiver: Option<AccountId>, amount: int,
                  currency: Currency): TxnRow
  {
    TxnRow(kind, sender, receiver, amount, currency, None, Pending, None, None)
  }

  // ---- The decisions -------------------------------------------------------------------------

  function DecideConfirm(rows: Tables, t: TxnId): Decision {
    if t !in rows.txns then Refuse(NotFound)
    else
      var row := rows.txns[t];
      if row.status != Pending then Refuse(AlreadyProcessed)
      else if row.sender.None? || row.receiver.None? then Crash
      else if row.sender.value !in rows.accounts || row.receiver.value !in rows.accounts then Crash
      else
        var sender, receiver := rows.accounts[row.sender.value], rows.accounts[row.receiver.value];
        if sender.status != Active || receiver.status != Active then Refuse(NotActive)
        else if sender.balance < row.amount then Refuse(InsufficientBalance)
        else Post(rows, t, row, sender.currency, receiver.currency)
  }

  function DecideDeposit(rows: Tables, id: TxnId, a: AccountId, amount: int, currency: Currency): Decision {
    if a !in rows.accounts then Refuse(NotFound)
    else if rows.accounts[a].status != Active then Refuse(NotActive)
    else if rows.accounts[a].currency != currency then Refuse(CurrencyMismatch)
    else PostNew(rows, id, NewTxn(Deposit, None, Some(a), amount, currency), currency)
  }

  function DecideWithdraw(rows: Tables, id: TxnId, a: AccountId, amount: int, currency: Currency): Decision {
    if a !in rows.accounts then Refuse(NotFound)
    else if rows.accounts[a].status != Active then Refuse(NotActive)
    else if rows.accounts[a].currency != currency then Refuse(CurrencyMismatch)
    else if rows.accounts[a].balance < amount then Refuse(InsufficientBalance)
    else PostNew(rows, id, NewTxn(Withdrawal, Some(a), None, amount, currency), currency)
  }

  predicate CardVisible(rows: Tables, c: CardId) {
    c in rows.cards && !rows.cards[c].deleted
  }

  function DecidePay(rows: Tables, id: TxnId, c: CardId, amount: int, currency: Currency): Decision {
    if !CardVisible(rows, c) then Refuse(CardConflict)
    else if rows.cards[c].status != CardActive then Refuse(CardConflict)
    else
      var a := rows.cards[c].account;
      if a !in rows.accounts then Refuse(CardConflict)
      else if rows.accounts[a].status != Active then Refuse(NotActive)
      else if rows.accounts[a].currency != currency then Refuse(CurrencyMismatch)
      else if rows.accounts[a].balance < amount then Refuse(InsufficientBalance)
      else PostNew(rows, id, NewTxn(CardPayment, Some(a), None, amount, currency).(card := Some(c)), currency)
  }

  /** The reversal of a transaction moves the original amount the opposite way. */
  function ReversalOf(t: TxnId, original: TxnRow): TxnRow {
    var kind := match original.kind
                case Transfer => Transfer
                case Deposit => Withdrawal
                case Withdrawal => Deposit
                case CardPayment => CardPayment;
    NewTxn(kind, original.receiver, original.sender, original.amount, original.currency).(reversalOf := Some(t))
  }

  /** The account columns an original of this kind must have set. */
  predicate SidesSet(t: TxnRow) {
    match t.kind
    case Transfer => t.sender.Some? && t.receiver.Some?
    case Deposit => t.sender.None? && t.receiver.Some?
    case Withdrawal => t.sender.Some? && t.receiver.None?
    case CardPayment => t.sender.Some? && t.receiver.None?
  }

  function DecideReverse(rows: Tables, id: TxnId, t: TxnId, hasReversal: bool): Decision {
    if t !in rows.txns then Refuse(NotFound)
    else
      var original := rows.txns[t];
      if original.status != Success then Refuse(NotReversible)
      else if hasReversal then Refuse(NotReversible)
      else if original.kind == CardPayment then Refuse(NotReversible)
      else if !SidesSet(original) then Crash
      else if original.receiver.Some? && original.receiver.value !in rows.accounts then Crash
      else if original.sender.Some? && original.sender.value !in rows.accounts then Crash
      else if original.receiver.Some? && rows.accounts[original.receiver.value].status != Active then Refuse(NotActive)
      else if original.sender.Some? && rows.accounts[original.sender.value].status != Active then Refuse(NotActive)
      else if original.receiver.Some? && rows.accounts[original.receiver.value].balance < original.amount then
        Refuse(InsufficientBalance)
      else
        match PostNew(rows, id, ReversalOf(t, original), original.currency)
        case Proceed(w) => Proceed(w.(txns := w.txns[t := original.(status := Reversed)]))
        case other => other
  }

  function Decide(call: Call, id: TxnId, rows: Tables, hasReversal: bool): Decision {
    match call
    case Confirm(t) => DecideConfirm(rows, t)
    case DepositTo(a, amount, currency) => DecideDeposit(rows, id, a, amount, currency)
    case WithdrawFrom(a, amount, currency) => DecideWithdraw(rows, id, a, amount, currency)
    case PayByCard(c, amount, currency) => DecidePay(rows, id, c, amount, currency)
    case Reverse(t) => DecideReverse(rows, id, t, hasReversal)
  }

  /** The answer of get_by_reversal_of, asked only by a reversal. */
  predicate ReversalSeen(call: Call, rows: Tables) {
    call.Reverse? && HasReversal(rows, call.txn)
  }

  /** The decision on the committed rows. */
  function DecideNow(call: Call, id: TxnId, b: Bank): Decision {
    Decide(call, id, b.rows, ReversalSeen(call, b.rows))
  }

  function Publish(b: Bank, w: Writes): Bank {
    Bank(
      b.rows.(accounts := b.rows.accounts + w.accounts, txns := b.rows.txns + w.txns),
      b.ledger + w.entries)
  }

  // ---- What a decision to go ahead consists of ------------------------------------------------

  /** The transaction that a call posts. */
  function PostedId(call: Call, id: TxnId): TxnId {
    if call.Confirm? then call.txn else id
  }

  /** The row of the posted transaction, before it is marked SUCCESS. */
  function PostedRow(call: Call, rows: Tables): TxnRow
    requires (call.Confirm? || call.Reverse?) ==> call.txn in rows.txns
    requires call.PayByCard? ==> call.card in rows.cards
  {
    match call
    case Confirm(t) => rows.txns[t]
    case DepositTo(a, amount, currency) => NewTxn(Deposit, None, Some(a), amount, currency)
    case WithdrawFrom(a, amount, currency) => NewTxn(Withdrawal, Some(a), None, amount, currency)
    case PayByCard(c, amount, currency) =>
      NewTxn(CardPayment, Some(rows.cards[c].account), None, amount, currency).(card := Some(c))
    case Reverse(t) => ReversalOf(t, rows.txns[t])
  }
}
