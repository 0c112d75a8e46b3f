/**
 When a money operation goes ahead: one condition for all five, independent of the order of their
 checks. And which refusal it gives otherwise.
 */
module Guards {
  import opened Basics
  import opened Schema
  import opened Operations
  import opened Laws
  import opened Invariants

  /** The account a, if there is one, exists and is active. */
  predicate ActiveSide(rows: Tables, a: Option<AccountId>) {
    a.Some? ==> a.value in rows.accounts && rows.accounts[a.value].status == Active
  }

  /** What each call asks of the row that it starts from. */
  predicate StartsRight(call: Call, b: Bank)
    requires Known(call, b.rows)
  {
    match call
    case Confirm(t) => b.rows.txns[t].status == Pending
    case DepositTo(_, _, _) => true
    case WithdrawFrom(_, _, _) => true
    case PayByCard(c, _, _) => b.rows.cards[c].status == CardActive
    case Reverse(t) => b.rows.txns[t].status == Success && b.rows.txns[t].kind != CardPayment && !HasReversal(b.rows, t)
  }

  /** A call that names a currency names that of its account. */
  predicate CurrencyFits(call: Call, rows: Tables, t: TxnRow) {
    call.DepositTo? || call.WithdrawFrom? || call.PayByCard? ==>
      forall a | Some(a) in {t.sender, t.receiver} && a in rows.accounts :: rows.accounts[a].currency == t.currency
  }

  /** What the checks of the code ask: the right start, active accounts, the right currency, a balance that covers it. */
  predicate Permitted(call: Call, b: Bank) {
    && Known(call, b.rows)
    && StartsRight(call, b)
    && var t := PostedRow(call, b.rows);
    && ActiveSide(b.rows, t.sender) && ActiveSide(b.rows, t.receiver)
    && CurrencyFits(call, b.rows, t)
    && (t.sender.Some? ==> t.amount <= b.rows.accounts[t.sender.value].balance)
  }

  /** What the tables ask of the rows: a new id, positive amounts, and a balance that fits its column. */
  predicate Fitting(call: Call, id: TxnId, b: Bank)
    requires Permitted(call, b)
  {
    var t := PostedRow(call, b.rows);
    && (call.Confirm? || id !in b.rows.txns)
    && 0 < t.amount && Storable(t.amount)
    && (t.receiver.Some? ==> 0 < Credited(t) && Storable(b.rows.accounts[t.receiver.value].balance + Credited(t)))
  }

  /** The checks on the rows of a movement, told without the rows. */
  lemma ChecksExactly(b: Bank, id: TxnId, t: TxnRow, tag1: Currency, tag2: Currency)
    requires AccountsOk(b)
    requires t.sender.Some? ==> t.sender.value in b.rows.accounts && t.amount <= b.rows.accounts[t.sender.value].balance
    requires t.receiver.Some? ==> t.receiver.value in b.rows.accounts
    requires t.sender != t.receiver
    ensures ChecksPass(t, Movement(b.rows, id, t, tag1, tag2)) <==>
      && 0 < t.amount && Storable(t.amount)
      && (t.receiver.Some? ==> 0 < Credited(t) && Storable(b.rows.accounts[t.receiver.value].balance + Credited(t)))
  {
    var w := Movement(b.rows, id, t, tag1, tag2);
    if t.sender.Some? {
      assert AccountOk(b, t.sender.value);
      assert w.entries[0] == DebitEntry(b.rows, id, t, tag1)[0];
    }
    if t.receiver.Some? {
      assert w.entries[|w.entries| - 1] == CreditEntry(b.rows, id, t, tag2)[0];
    }
  }

  lemma Sides(b: Bank, call: Call)
    requires BankInv(b) && Known(call, b.rows) && StartsRight(call, b)
    ensures PostedRow(call, b.rows).sender != PostedRow(call, b.rows).receiver
    ensures call.Confirm? || call.Reverse? ==> ShapeOk(b.rows, b.rows.txns[call.txn])
    ensures call.Confirm? ==> b.rows.txns[call.txn].sender.Some? && b.rows.txns[call.txn].receiver.Some?
  {
    if call.Confirm? || call.Reverse? {
      assert ShapeOk(b.rows, b.rows.txns[call.txn]) && StatusOk(b, call.txn);
    }
  }

  /**
   A call goes ahead exactly when its checks permit it and the tables take its rows. It is aborted by
   the database exactly when it is permitted and they do not, and refused exactly when it is not permitted.
   */
  lemma OutcomeExactly(b: Bank, call: Call, id: TxnId)
    requires BankInv(b)
    ensures DecideNow(call, id, b).Proceed? <==> Permitted(call, b) && Fitting(call, id, b)
    ensures DecideNow(call, id, b).Abort? <==> Permitted(call, b) && !Fitting(call, id, b)
    ensures DecideNow(call, id, b).Refuse? <==> !Permitted(call, b)
  {
    NeverCrashes(b, call, id);
    if Known(call, b.rows) && StartsRight(call, b) {
      Sides(b, call);
      var t := PostedRow(call, b.rows);
      if (t.sender.Some? ==> t.sender.value in b.rows.accounts && t.amount <= b.rows.accounts[t.sender.value].balance)
         && (t.receiver.Some? ==> t.receiver.value in b.rows.accounts) {
        ChecksExactly(b, PostedId(call, id), t, DebitTag(call, b.rows), CreditTag(call, b.rows));
      }
    }
  }

  // ---- Which refusal ---------------------------------------------------------------------------

  /** A condition, and the refusal that is due when it does not hold. */
  datatype Check = Check(holds: bool, otherwise: Refusal)

  /** The refusal of the first check that does not hold. */
  function FirstFailing(checks: seq<Check>): Option<Refusal> {
    if checks == [] then None
    else if !checks[0].holds then Some(checks[0].otherwise)
    else FirstFailing(checks[1..])
  }

  predicate IsActive(rows: Tables, a: AccountId) {
    a in rows.accounts && rows.accounts[a].status == Active
  }

  predicate HeldIn(rows: Tables, a: AccountId, currency: Currency) {
    a in rows.accounts && rows.accounts[a].currency == currency
  }

  predicate Covers(rows: Tables, a: AccountId, amount: int) {
    a in rows.accounts && amount <= rows.accounts[a].balance
  }

  predicate HasStatus(rows: Tables, t: TxnId, status: TxnStatus) {
    t in rows.txns && rows.txns[t].status == status
  }

  /** The checks of each call, in the order in which they count. */
  function Checklist(call: Call, b: Bank): seq<Check> {
    var rows := b.rows;
    match call
    case Confirm(t) =>
      [Check(t in rows.txns, NotFound),
       Check(HasStatus(rows, t, Pending), AlreadyProcessed),
       Check(t in rows.txns && ActiveSide(rows, rows.txns[t].sender) && ActiveSide(rows, rows.txns[t].receiver), NotActive),
       Check(t in rows.txns && (rows.txns[t].sender.Some? ==> Covers(rows, rows.txns[t].sender.value, rows.txns[t].amount)),
             InsufficientBalance)]
    case DepositTo(a, amount, currency) =>
      [Check(a in rows.accounts, NotFound), Check(IsActive(rows, a), NotActive), Check(HeldIn(rows, a, currency), CurrencyMismatch)]
    case WithdrawFrom(a, amount, currency) =>
      [Check(a in rows.accounts, NotFound), Check(IsActive(rows, a), NotActive), Check(HeldIn(rows, a, currency), CurrencyMismatch),
       Check(Covers(rows, a, amount), InsufficientBalance)]
    case PayByCard(c, amount, currency) =>
      var a := if c in rows.cards then rows.cards[c].account else 0;
      [Check(c in rows.cards && !rows.cards[c].deleted, CardConflict),
       Check(c in rows.cards && rows.cards[c].status == CardActive, CardConflict),
       Check(a in rows.accounts, CardConflict),
       Check(IsActive(rows, a), NotActive), Check(HeldIn(rows, a, currency), CurrencyMismatch),
       Check(Covers(rows, a, amount), InsufficientBalance)]
    case Reverse(t) =>
      [Check(t in rows.txns, NotFound),
       Check(HasStatus(rows, t, Success), NotReversible),
       Check(!exists r :: r in rows.txns && rows.txns[r].reversalOf == Some(t), NotReversible),
       Check(t in rows.txns && rows.txns[t].kind in {Transfer, Deposit, Withdrawal}, NotReversible),
       Check(t in rows.txns && ActiveSide(rows, rows.txns[t].sender) && ActiveSide(rows, rows.txns[t].receiver), NotActive),
       Check(t in rows.txns && (rows.txns[t].receiver.Some? ==> Covers(rows, rows.txns[t].receiver.value, rows.txns[t].amount)),
             InsufficientBalance)]
  }

  lemma FirstSteps(c: seq<Check>)
    ensures FirstFailing(c) ==
      if |c| > 0 && !c[0].holds then Some(c[0].otherwise)
      else if |c| > 1 && !c[1].holds then Some(c[1].otherwise)
      else if |c| > 2 then FirstFailing(c[2..])
      else None
  {
    if |c| > 1 {
      assert c[1..][1..] == c[2..];
    }
  }

  /** A short checklist, unrolled. */
  lemma AtMostSix(c: seq<Check>)
    requires |c| <= 6
    ensures FirstFailing(c) ==
      if |c| > 0 && !c[0].holds then Some(c[0].otherwise)
      else if |c| > 1 && !c[1].holds then Some(c[1].otherwise)
      else if |c| > 2 && !c[2].holds then Some(c[2].otherwise)
      else if |c| > 3 && !c[3].holds then Some(c[3].otherwise)
      else if |c| > 4 && !c[4].holds then Some(c[4].otherwise)
      else if |c| > 5 && !c[5].holds then Some(c[5].otherwise)
      else None
  {
    FirstSteps(c);
    if |c| > 2 {
      FirstSteps(c[2..]);
    }
    if |c| > 4 {
      FirstSteps(c[2..][2..]);
      assert c[2..][2..] == c[4..];
    }
  }

  /** A call is refused with the refusal of its first check that does not hold, and not refused when all hold. */
  lemma RefusesFirst(b: Bank, call: Call, id: TxnId)
    requires BankInv(b)
    ensures
      match FirstFailing(Checklist(call, b))
      case Some(e) => DecideNow(call, id, b) == Refuse(e)
      case None => !DecideNow(call, id, b).Refuse?
  {
    NeverCrashes(b, call, id);
    if (call.Confirm? || call.Reverse?) && call.txn in b.rows.txns {
      assert ShapeOk(b.rows, b.rows.txns[call.txn]) && StatusOk(b, call.txn);
    }
    AtMostSix(Checklist(call, b));
  }
}
