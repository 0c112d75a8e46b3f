/**
 The committed rows of the money core. Amounts are integer cents. Identifiers stand for UUIDs:
 only their equality matters, except that account rows are locked in the order of their ids.
 */
module Schema {
  import opened Basics

  type AccountId = int
  type TxnId = int
  type CardId = int
  type CustomerId = int
  type Currency = string

  /** NUMERIC(18,2) holds magnitudes below 10^16, that is below 10^18 cents. */
  const CENTS_LIMIT := 1_000_000_000_000_000_000

  datatype AccountStatus = Active | Blocked | Closed | AwaitingApproval
  datatype CardStatus = CardActive | CardBlocked | CardExpired
  datatype TxnStatus = Pending | Success | Failed | Reversed
  datatype TxnKind = Transfer | Deposit | Withdrawal | CardPayment
  datatype Side = Debit | Credit

  datatype AccountRow = AccountRow(
    owner: CustomerId,
    currency: Currency,
    balance: int,
    version: int,
    status: AccountStatus)

  datatype CardRow = CardRow(account: AccountId, status: CardStatus, deleted: bool)

  datatype TxnRow = TxnRow(
    kind: TxnKind,
    sender: Option<AccountId>,
    receiver: Option<AccountId>,
    amount: int,
    currency: Currency,
    converted: Option<int>,
    status: TxnStatus,
    reversalOf: Option<TxnId>,
    card: Option<CardId>)

  datatype Entry = Entry(
    txn: TxnId,
    account: AccountId,
    side: Side,
    amount: int,
    currency: Currency,
    before: int,
    after: int)

  /** The mutable tables. A session's identity map is a partial, possibly stale, copy of them. */
  datatype Tables = Tables(
    accounts: map<AccountId, AccountRow>,
    txns: map<TxnId, TxnRow>,
    cards: map<CardId, CardRow>)

  /** The committed database. The ledger is listed in commit order. */
  datatype Bank = Bank(rows: Tables, ledger: seq<Entry>)

  const EMPTY_BANK := Bank(Tables(map[], map[], map[]), [])

  /** The amount credited to the receiver. */
  function Credited(t: TxnRow): int {
    match t.converted
    case Some(c) => c
    case None => t.amount
  }

  /** The amount by which an entry moves its account. */
  function Signed(e: Entry): int {
    if e.side == Credit then e.amount else -e.amount
  }

  /** Some transaction reverses t. */
  predicate HasReversal(rows: Tables, t: TxnId) {
    exists r | r in rows.txns :: rows.txns[r].reversalOf == Some(t)
  }
}
