/**
 The service calls one after the other: transfers confirmed by one-time codes, the expiry sweep, and
 the money operations. In serial runs the ledger and the statuses agree completely.
 */
module Transfers {
  import opened Basics
  import opened Schema
  import opened Operations
  import opened Laws
  import opened Invariants
  import opened Conservation
  import opened Runs
  import Conversion

  type Code = string

  /** The default of the column, which no code overrides. */
  const MAX_ATTEMPTS := 5

  /** A one-time code attached to a transaction. Codes stand for their hashes. */
  datatype Challenge = Challenge(code: Code, attempts: int, maxAttempts: int, expiresAt: int, verified: bool)

  datatype System = System(bank: Bank, challenges: map<TxnId, Challenge>)

  const EMPTY_SYSTEM := System(EMPTY_BANK, map[])

  // ---- Initiating ------------------------------------------------------------------------------

  datatype Validation = Valid(row: TxnRow) | Invalid(error: Refusal)

  /** receiver is the account found under the given number, rate the active rate between the currencies. */
  datatype Request = Request(
    customer: CustomerId,
    sender: AccountId,
    receiver: Option<AccountId>,
    amount: int,
    currency: Currency,
    rate: Option<nat>)

  function Validate(rows: Tables, r: Request): Validation {
    if r.sender !in rows.accounts || rows.accounts[r.sender].owner != r.customer then Invalid(NotFound)
    else
      var sender := rows.accounts[r.sender];
      if sender.status != Active then Invalid(NotActive)
      else if r.currency != sender.currency then Invalid(CurrencyMismatch)
      else if r.receiver.None? || r.receiver.value !in rows.accounts then Invalid(NotFound)
      else if r.receiver.value == r.sender then Invalid(SameAccount)
      else
        var receiver := rows.accounts[r.receiver.value];
        if receiver.status != Active then Invalid(NotActive)
        else if sender.balance < r.amount then Invalid(InsufficientBalance)
        else if sender.currency != receiver.currency && r.rate.None? then Invalid(NoExchangeRate)
        else
          var converted :=
            if sender.currency == receiver.currency then r.amount
            else if r.amount < 0 then r.amount
            else Conversion.Convert(r.amount, r.rate.value);
          Valid(NewTxn(Transfer, Some(r.sender), r.receiver, r.amount, r.currency).(converted := Some(converted)))
  }

  /** The table constraints on the row that is inserted. */
  predicate InsertPasses(row: TxnRow) {
    0 < row.amount && Storable(row.amount) && row.converted.Some? && Storable(row.converted.value)
  }

  lemma ValidIsInitiated(rows: Tables, r: Request)
    requires Validate(rows, r).Valid? && InsertPasses(Validate(rows, r).row)
    ensures InitiatedOn(rows, Validate(rows, r).row)
  {}

  /**
   An initiated transfer debits the customer's own account and credits another active one. What it
   will credit is the amount itself within a currency, and otherwise the exact product with the rate
   rounded half up to cents.
   */
  lemma InitiatesOwnTransfer(rows: Tables, r: Request)
    requires Validate(rows, r).Valid? && InsertPasses(Validate(rows, r).row)
    ensures
      var row := Validate(rows, r).row;
      && r.sender in rows.accounts && r.receiver.Some? && r.receiver.value in rows.accounts
      && var sender, receiver := rows.accounts[r.sender], rows.accounts[r.receiver.value];
      && sender.owner == r.customer && sender.status == receiver.status == Active
      && row.sender == Some(r.sender) && row.receiver == r.receiver && row.amount == r.amount <= sender.balance
      && (if receiver.currency == sender.currency then Credited(row) == r.amount
          else r.rate.Some? && Credited(row) == Conversion.Rounded(r.amount, r.rate.value))
  {
    if r.rate.Some? {
      Conversion.ConvertFits(r.amount, r.rate.value);
    }
  }

  // ---- The calls -------------------------------------------------------------------------------

  datatype Op =
    | InitiateTransfer(id: TxnId, request: Request, code: Code, now: int, lifetime: int)
    | ResendOtp(customer: CustomerId, txn: TxnId, code: Code, now: int, lifetime: int)
    | ConfirmTransfer(customer: CustomerId, txn: TxnId, code: Code, now: int)
    | SweepExpired(now: int)
    | PaySchedule(id: TxnId, request: Request)
    | Perform(call: Call, id: TxnId)
    | Administer(action: Action)

  datatype Outcome =
    | Done
    | Raised(error: Refusal)
    | OtpExpired
    | TooManyAttempts
    | WrongCode(remaining: int)
    | ServerError

  predicate OwnedBySender(rows: Tables, customer: CustomerId, t: TxnId) {
    && t in rows.txns
    && rows.txns[t].sender.Some? && rows.txns[t].sender.value in rows.accounts
    && rows.accounts[rows.txns[t].sender.value].owner == customer
  }

  /** _get_owned_pending_transaction: None when it raises nothing. */
  function OwnedPendingError(rows: Tables, customer: CustomerId, t: TxnId): Option<Refusal> {
    if !OwnedBySender(rows, customer, t) then Some(NotFound)
    else if rows.txns[t].status != Pending then Some(AlreadyProcessed)
    else None
  }

  function MarkFailed(b: Bank, t: TxnId): Bank
    requires t in b.rows.txns
  {
    WithTxn(b, t, b.rows.txns[t].(status := Failed))
  }

  predicate Expired(c: Challenge, now: int) {
    c.expiresAt <= now
  }

  predicate Exhausted(c: Challenge) {
    c.attempts >= c.maxAttempts
  }

  function Initiating(s: System, id: TxnId, r: Request, code: Code, now: int, lifetime: int): (System, Outcome) {
    match Validate(s.bank.rows, r)
    case Invalid(e) => (s, Raised(e))
    case Valid(row) =>
      if id in s.bank.rows.txns || !InsertPasses(row) then (s, ServerError)
      else
        (System(WithTxn(s.bank, id, row),
                s.challenges[id := Challenge(code, 0, MAX_ATTEMPTS, now + lifetime, false)]),
         Done)
  }

  function Resending(s: System, customer: CustomerId, t: TxnId, code: Code, now: int, lifetime: int): (System, Outcome) {
    match OwnedPendingError(s.bank.rows, customer, t)
    case Some(e) => (s, Raised(e))
    case None =>
      if t !in s.challenges then (s, Raised(NotFound))
      else
        (s.(challenges := s.challenges[t := s.challenges[t].(code := code, attempts := 0, expiresAt := now + lifetime)]),
         Done)
  }

  /** The locked step: on a domain error the transaction, still PENDING, is failed. */
  function Executing(s: System, t: TxnId): (System, Outcome)
    requires t in s.bank.rows.txns && t in s.challenges
  {
    match DecideNow(Confirm(t), t, s.bank)
    case Proceed(w) => (System(Publish(s.bank, w), s.challenges[t := s.challenges[t].(verified := true)]), Done)
    case Refuse(e) =>
      if s.bank.rows.txns[t].status == Pending then (s.(bank := MarkFailed(s.bank, t)), Raised(e))
      else (s, Raised(AlreadyProcessed))
    case Abort => (s, ServerError)
    case Crash => (s, ServerError)
  }

  function Rejecting(s: System, t: TxnId): (System, Outcome)
    requires t in s.bank.rows.txns && t in s.challenges
  {
    var tried := s.challenges[t].(attempts := s.challenges[t].attempts + 1);
    var s' := s.(challenges := s.challenges[t := tried]);
    if tried.maxAttempts - tried.attempts <= 0 then (s'.(bank := MarkFailed(s.bank, t)), TooManyAttempts)
    else (s', WrongCode(tried.maxAttempts - tried.attempts))
  }

  /** A code is tried against the challenge of a PENDING transfer. */
  function Verifying(s: System, t: TxnId, code: Code, now: int): (System, Outcome)
    requires t in s.bank.rows.txns && t in s.challenges
  {
    var c := s.challenges[t];
    if Expired(c, now) then (s.(bank := MarkFailed(s.bank, t)), OtpExpired)
    else if Exhausted(c) then (s.(bank := MarkFailed(s.bank, t)), TooManyAttempts)
    else if code != c.code then Rejecting(s, t)
    else Executing(s, t)
  }

  function Confirming(s: System, customer: CustomerId, t: TxnId, code: Code, now: int): (System, Outcome) {
    match OwnedPendingError(s.bank.rows, customer, t)
    case Some(e) => (s, Raised(e))
    case None => if t !in s.challenges then (s, Raised(NotFound)) else Verifying(s, t, code, now)
  }

  function SchedulingLocked(b: Bank, id: TxnId, row: TxnRow): (Bank, Outcome) {
    match DecideConfirm(WithTxn(b, id, row).rows, id)
    case Proceed(w) => (Publish(WithTxn(b, id, row), w), Done)
    case _ => (b, ServerError)
  }

  /**
   execute_scheduled_transfer: validate on what the session sees, insert the row, and go straight to
   the locked step. The row has only been flushed, so after a refusal there the rollback takes it
   away, and the assertion that it can be read again fails.
   */
  function Scheduling(view: Tables, b: Bank, id: TxnId, r: Request): (Bank, Outcome) {
    match Validate(view, r)
    case Invalid(e) => (b, Raised(e))
    case Valid(row) =>
      if id in b.rows.txns || !InsertPasses(row) then (b, ServerError)
      else SchedulingLocked(b, id, row)
  }

  /** The rows that the expiry sweep selects. */
  function StaleIds(s: System, now: int): set<TxnId> {
    set t | t in s.bank.rows.txns && s.bank.rows.txns[t].status == Pending && t in s.challenges && Expired(s.challenges[t], now)
  }

  function FailAll(b: Bank, ids: set<TxnId>): Bank {
    b.(rows := b.rows.(txns := map t | t in b.rows.txns ::
      if t in ids then b.rows.txns[t].(status := Failed) else b.rows.txns[t]))
  }

  function Performing(s: System, call: Call, id: TxnId): (System, Outcome) {
    match DecideNow(call, id, s.bank)
    case Proceed(w) => (s.(bank := Publish(s.bank, w)), Done)
    case Refuse(e) => (s, Raised(e))
    case Abort => (s, ServerError)
    case Crash => (s, ServerError)
  }

  /** Administrators open accounts, change statuses, and issue, block and delete cards. */
  predicate Administrative(action: Action) {
    !action.Commit? && !action.LateFail? && !action.Initiate?
  }

  function Step(s: System, op: Op): (System, Outcome) {
    match op
    case InitiateTransfer(id, r, code, now, lifetime) => Initiating(s, id, r, code, now, lifetime)
    case ResendOtp(customer, t, code, now, lifetime) => Resending(s, customer, t, code, now, lifetime)
    case ConfirmTransfer(customer, t, code, now) => Confirming(s, customer, t, code, now)
    case SweepExpired(now) => (s.(bank := FailAll(s.bank, StaleIds(s, now))), Done)
    case PaySchedule(id, r) => (s.(bank := Scheduling(s.bank.rows, s.bank, id, r).0), Scheduling(s.bank.rows, s.bank, id, r).1)
    case Perform(call, id) => if call.Confirm? then (s, Raised(NotFound)) else Performing(s, call, id)
    case Administer(action) =>
      if Administrative(action) && Can(s.bank, action) then (s.(bank := Do(s.bank, action)), Done)
      else (s, Raised(NotFound))
  }

  // ---- The serial invariant --------------------------------------------------------------------

  /** Every PENDING transaction has a challenge with attempts left; challenges belong to transfers. */
  predicate ChallengeOk(s: System, t: TxnId) {
    && (t in s.challenges ==>
          && t in s.bank.rows.txns && Initiated(s.bank.rows.txns[t])
          && 0 <= s.challenges[t].attempts && s.challenges[t].maxAttempts == MAX_ATTEMPTS)
    && (t in s.bank.rows.txns && s.bank.rows.txns[t].status == Pending ==>
          t in s.challenges && !Exhausted(s.challenges[t]))
  }

  ghost predicate SerialInv(s: System) {
    && BankInv(s.bank)
    && Conserved(s.bank)
    && FailedMeansUnmoved(s.bank)
    && forall t :: ChallengeOk(s, t)
  }

  /** A guarded failure: the status is PENDING when FAILED is written. */
  lemma FailingPending(b: Bank, t: TxnId)
    requires BankInv(b) && Conserved(b) && FailedMeansUnmoved(b)
    requires t in b.rows.txns && b.rows.txns[t].status == Pending
    ensures BankInv(MarkFailed(b, t)) && Conserved(MarkFailed(b, t)) && FailedMeansUnmoved(MarkFailed(b, t))
    ensures Can(b, LateFail(t)) && Do(b, LateFail(t)) == MarkFailed(b, t)
  {
    assert StatusOk(b, t);
    StepKeepsInv(b, LateFail(t));
    StepConserves(b, LateFail(t));
    LateFailExactly(b, t);
  }

  lemma {:induction false} FailingAllPending(b: Bank, ids: set<TxnId>)
    requires BankInv(b) && Conserved(b) && FailedMeansUnmoved(b)
    requires forall t | t in ids :: t in b.rows.txns && b.rows.txns[t].status == Pending
    ensures BankInv(FailAll(b, ids)) && Conserved(FailAll(b, ids)) && FailedMeansUnmoved(FailAll(b, ids))
    decreases |ids|
  {
    if ids == {} {
      assert FailAll(b, ids) == b;
    } else {
      var t := Pick(ids);
      FailingPending(b, t);
      FailingAllPending(MarkFailed(b, t), ids - {t});
      assert FailAll(b, ids).rows.txns == FailAll(MarkFailed(b, t), ids - {t}).rows.txns;
    }
  }

  lemma ActionKeepsBank(b: Bank, action: Action)
    requires BankInv(b) && Conserved(b) && FailedMeansUnmoved(b) && Can(b, action) && !action.LateFail?
    ensures BankInv(Do(b, action)) && Conserved(Do(b, action)) && FailedMeansUnmoved(Do(b, action))
  {
    StepKeepsInv(b, action);
    StepConserves(b, action);
    ActionKeepsFailed(b, action);
  }

  // ---- Every call keeps the serial invariant ----------------------------------------------------

  /** A challenge table that only gets better known transfers, or fewer PENDING ones, stays right. */
  lemma ChallengesStable(s: System, s': System)
    requires forall t :: ChallengeOk(s, t)
    requires s'.challenges == s.challenges
    requires forall t | t in s.bank.rows.txns ::
               t in s'.bank.rows.txns && s'.bank.rows.txns[t] == s.bank.rows.txns[t].(status := s'.bank.rows.txns[t].status)
    requires forall t | t in s'.bank.rows.txns && s'.bank.rows.txns[t].status == Pending ::
               t in s.bank.rows.txns && s.bank.rows.txns[t].status == Pending
    ensures forall t :: ChallengeOk(s', t)
  {
    forall t ensures ChallengeOk(s', t) {
      assert ChallengeOk(s, t);
    }
  }

  /** A commit makes nothing PENDING. */
  lemma CommitPends(b: Bank, call: Call, id: TxnId, x: TxnId)
    requires BankInv(b) && Can(b, Commit(call, id))
    ensures
      var txns' := Do(b, Commit(call, id)).rows.txns;
      && (x in b.rows.txns ==> x in txns' && txns'[x] == b.rows.txns[x].(status := txns'[x].status))
      && (x in txns' && txns'[x].status == Pending ==> x in b.rows.txns && b.rows.txns[x].status == Pending && x != PostedId(call, id))
  {
    CommitPosts(b, call, id);
    PostedTxn(b, PostedId(call, id), PostedRow(call, b.rows), DebitTag(call, b.rows), CreditTag(call, b.rows), x);
  }

  lemma InitiatingKeeps(s: System, id: TxnId, r: Request, code: Code, now: int, lifetime: int)
    requires SerialInv(s)
    ensures SerialInv(Initiating(s, id, r, code, now, lifetime).0)
  {
    var s' := Initiating(s, id, r, code, now, lifetime).0;
    if s' != s {
      var row := Validate(s.bank.rows, r).row;
      ValidIsInitiated(s.bank.rows, r);
      ActionKeepsBank(s.bank, Initiate(id, row));
      forall t ensures ChallengeOk(s', t) {
        assert ChallengeOk(s, t);
      }
    }
  }

  lemma ResendingKeeps(s: System, customer: CustomerId, t: TxnId, code: Code, now: int, lifetime: int)
    requires SerialInv(s)
    ensures SerialInv(Resending(s, customer, t, code, now, lifetime).0)
  {
    var s' := Resending(s, customer, t, code, now, lifetime).0;
    forall x ensures ChallengeOk(s', x) {
      assert ChallengeOk(s, x);
    }
  }

  lemma FailingKeeps(s: System, t: TxnId)
    requires SerialInv(s) && t in s.bank.rows.txns && s.bank.rows.txns[t].status == Pending
    ensures SerialInv(s.(bank := MarkFailed(s.bank, t)))
  {
    FailingPending(s.bank, t);
    ChallengesStable(s, s.(bank := MarkFailed(s.bank, t)));
  }

  lemma ExecutingKeeps(s: System, t: TxnId)
    requires SerialInv(s) && t in s.bank.rows.txns && s.bank.rows.txns[t].status == Pending && t in s.challenges
    ensures SerialInv(Executing(s, t).0)
  {
    match DecideNow(Confirm(t), t, s.bank)
    case Proceed(w) =>
      ActionKeepsBank(s.bank, Commit(Confirm(t), t));
      var s' := Executing(s, t).0;
      forall x ensures ChallengeOk(s', x) {
        CommitPends(s.bank, Confirm(t), t, x);
        CommitPends(s.bank, Confirm(t), t, t);
        assert ChallengeOk(s, x);
      }
    case Refuse(_) => FailingKeeps(s, t);
    case _ =>
  }

  /** One more wrong code: the transaction is failed with the last one. */
  lemma WrongCodeKeeps(s: System, t: TxnId)
    requires SerialInv(s) && t in s.bank.rows.txns && s.bank.rows.txns[t].status == Pending && t in s.challenges
    ensures
      var tried := s.challenges[t].(attempts := s.challenges[t].attempts + 1);
      var s' := s.(challenges := s.challenges[t := tried]);
      SerialInv(if Exhausted(tried) then s'.(bank := MarkFailed(s.bank, t)) else s')
  {
    var tried := s.challenges[t].(attempts := s.challenges[t].attempts + 1);
    var s' := s.(challenges := s.challenges[t := tried]);
    FailingPending(s.bank, t);
    var s'' := if Exhausted(tried) then s'.(bank := MarkFailed(s.bank, t)) else s';
    forall x ensures ChallengeOk(s'', x) {
      assert ChallengeOk(s, x);
    }
  }

  lemma ConfirmingKeeps(s: System, customer: CustomerId, t: TxnId, code: Code, now: int)
    requires SerialInv(s)
    ensures SerialInv(Confirming(s, customer, t, code, now).0)
  {
    if OwnedPendingError(s.bank.rows, customer, t).None? && t in s.challenges {
      FailingKeeps(s, t);
      WrongCodeKeeps(s, t);
      ExecutingKeeps(s, t);
    }
  }

  lemma SweepingKeeps(s: System, now: int)
    requires SerialInv(s)
    ensures SerialInv(s.(bank := FailAll(s.bank, StaleIds(s, now))))
  {
    FailingAllPending(s.bank, StaleIds(s, now));
    ChallengesStable(s, s.(bank := FailAll(s.bank, StaleIds(s, now))));
  }

  lemma PerformingKeeps(s: System, call: Call, id: TxnId)
    requires SerialInv(s) && !call.Confirm?
    ensures SerialInv(Performing(s, call, id).0)
  {
    if DecideNow(call, id, s.bank).Proceed? {
      ActionKeepsBank(s.bank, Commit(call, id));
      var s' := Performing(s, call, id).0;
      forall x ensures
        && (x in s.bank.rows.txns ==>
              x in s'.bank.rows.txns && s'.bank.rows.txns[x] == s.bank.rows.txns[x].(status := s'.bank.rows.txns[x].status))
        && (x in s'.bank.rows.txns && s'.bank.rows.txns[x].status == Pending ==>
              x in s.bank.rows.txns && s.bank.rows.txns[x].status == Pending)
      {
        CommitPends(s.bank, call, id, x);
      }
      ChallengesStable(s, s');
    }
  }

  /** What a session sees of the accounts: owners and currencies never change, the rest may be stale. */
  predicate Sees(view: Tables, rows: Tables) {
    forall a | a in view.accounts ::
      && a in rows.accounts
      && view.accounts[a].owner == rows.accounts[a].owner && view.accounts[a].currency == rows.accounts[a].currency
  }

  /** What passes validation on a view is a row that may be inserted. */
  lemma SeenIsInitiated(view: Tables, rows: Tables, r: Request)
    requires Sees(view, rows) && Validate(view, r).Valid? && InsertPasses(Validate(view, r).row)
    ensures InitiatedOn(rows, Validate(view, r).row)
  {
    ValidIsInitiated(view, r);
  }

  /** A scheduled transfer that goes through is an initiation and a confirmation in one step. */
  lemma ScheduledIsTwoActions(view: Tables, b: Bank, id: TxnId, r: Request)
    requires Sees(view, b.rows) && Scheduling(view, b, id, r).1 == Done
    ensures
      var row := Validate(view, r).row;
      && Validate(view, r).Valid?
      && Can(b, Initiate(id, row))
      && var b1 := Do(b, Initiate(id, row));
         Can(b1, Commit(Confirm(id), id)) && Scheduling(view, b, id, r).0 == Do(b1, Commit(Confirm(id), id))
  {
    SeenIsInitiated(view, b.rows, r);
  }

  lemma SchedulingKeeps(s: System, id: TxnId, r: Request)
    requires SerialInv(s)
    ensures SerialInv(s.(bank := Scheduling(s.bank.rows, s.bank, id, r).0))
  {
    if Scheduling(s.bank.rows, s.bank, id, r).1 == Done {
      ScheduledIsTwoActions(s.bank.rows, s.bank, id, r);
      var row := Validate(s.bank.rows, r).row;
      ActionKeepsBank(s.bank, Initiate(id, row));
      var b1 := Do(s.bank, Initiate(id, row));
      ActionKeepsBank(b1, Commit(Confirm(id), id));
      var s' := s.(bank := Do(b1, Commit(Confirm(id), id)));
      forall x ensures ChallengeOk(s', x) {
        CommitPends(b1, Confirm(id), id, x);
        assert ChallengeOk(s, x);
      }
    }
  }

  lemma AdministeringKeeps(s: System, action: Action)
    requires SerialInv(s) && Administrative(action) && Can(s.bank, action)
    ensures SerialInv(s.(bank := Do(s.bank, action)))
  {
    ActionKeepsBank(s.bank, action);
    ChallengesStable(s, s.(bank := Do(s.bank, action)));
  }

  lemma StepKeepsSerial(s: System, op: Op)
    requires SerialInv(s)
    ensures SerialInv(Step(s, op).0)
  {
    match op
    case InitiateTransfer(id, r, code, now, lifetime) => InitiatingKeeps(s, id, r, code, now, lifetime);
    case ResendOtp(customer, t, code, now, lifetime) => ResendingKeeps(s, customer, t, code, now, lifetime);
    case ConfirmTransfer(customer, t, code, now) => ConfirmingKeeps(s, customer, t, code, now);
    case SweepExpired(now) => SweepingKeeps(s, now);
    case PaySchedule(id, r) => SchedulingKeeps(s, id, r);
    case Perform(call, id) => if !call.Confirm? { PerformingKeeps(s, call, id); }
    case Administer(action) => if Administrative(action) && Can(s.bank, action) { AdministeringKeeps(s, action); }
  }

  // ---- Serial runs -----------------------------------------------------------------------------

  datatype LogEntry = LogEntry(op: Op, outcome: Outcome)

  /** The state after a sequence of calls. */
  function After(ops: seq<Op>): System {
    if ops == [] then EMPTY_SYSTEM else Step(After(ops[..|ops| - 1]), ops[|ops| - 1]).0
  }

  /** The calls with what each one answered. */
  function Log(ops: seq<Op>): seq<LogEntry> {
    if ops == [] then []
    else
      var front, op := ops[..|ops| - 1], ops[|ops| - 1];
      Log(front) + [LogEntry(op, Step(After(front), op).1)]
  }

  lemma {:induction false} SerialRun(ops: seq<Op>)
    ensures SerialInv(After(ops))
  {
    if ops == [] {
      EmptyBankIsGood();
    } else {
      SerialRun(ops[..|ops| - 1]);
      StepKeepsSerial(After(ops[..|ops| - 1]), ops[|ops| - 1]);
    }
  }

  /**
   In every serial run the status of a transaction tells its ledger entries: none for PENDING and
   FAILED; otherwise one DEBIT and one CREDIT for a transfer, one CREDIT for a deposit, one DEBIT for a
   withdrawal or a card payment. REVERSED says exactly that a reversal exists.
   */
  lemma StatusTellsLedger(ops: seq<Op>, t: TxnId)
    requires t in After(ops).bank.rows.txns
    ensures
      var b := After(ops).bank;
      var row, moves := b.rows.txns[t], MovesOf(b.ledger, t);
      && (row.status in {Pending, Failed} ==> moves == [])
      && (row.status in {Success, Reversed} ==>
            match row.kind
            case Transfer =>
              row.sender.Some? && row.receiver.Some? &&
              moves == [Move(row.sender.value, Debit, row.amount), Move(row.receiver.value, Credit, Credited(row))]
            case Deposit => row.receiver.Some? && moves == [Move(row.receiver.value, Credit, row.amount)]
            case Withdrawal => row.sender.Some? && moves == [Move(row.sender.value, Debit, row.amount)]
            case CardPayment => row.sender.Some? && moves == [Move(row.sender.value, Debit, row.amount)])
      && (row.status == Reversed <==> HasReversal(b.rows, t))
  {
    SerialRun(ops);
    var b := After(ops).bank;
    assert StatusOk(b, t) && ShapeOk(b.rows, b.rows.txns[t]);
    if HasReversal(b.rows, t) {
      var r :| r in b.rows.txns && b.rows.txns[r].reversalOf == Some(t);
      assert ReversalOk(b, r);
    }
  }

  // ---- One-time codes --------------------------------------------------------------------------

  datatype Issue = Issue(code: Code, expiresAt: int)

  /** The code that this call issued for t, if it did. */
  function IssuedBy(e: LogEntry, t: TxnId): Option<Issue> {
    if e.outcome != Done then None
    else
      match e.op
      case InitiateTransfer(id, _, code, now, lifetime) => if id == t then Some(Issue(code, now + lifetime)) else None
      case ResendOtp(_, txn, code, now, lifetime) => if txn == t then Some(Issue(code, now + lifetime)) else None
      case _ => None
  }

  /** The code most recently issued for t. */
  function LastIssue(log: seq<LogEntry>, t: TxnId): Option<Issue> {
    if log == [] then None
    else
      match IssuedBy(log[|log| - 1], t)
      case Some(issue) => Some(issue)
      case None => LastIssue(log[..|log| - 1], t)
  }

  predicate RejectedCode(e: LogEntry, t: TxnId) {
    e.op.ConfirmTransfer? && e.op.txn == t && (e.outcome.WrongCode? || e.outcome == TooManyAttempts)
  }

  /** How many codes were rejected for t since the last one was issued. */
  function RejectedSinceIssue(log: seq<LogEntry>, t: TxnId): nat {
    if log == [] || IssuedBy(log[|log| - 1], t).Some? then 0
    else RejectedSinceIssue(log[..|log| - 1], t) + if RejectedCode(log[|log| - 1], t) then 1 else 0
  }

  /** The challenge row of t is what the log says. */
  predicate Tracks(s: System, log: seq<LogEntry>, t: TxnId) {
    match LastIssue(log, t)
    case None => t !in s.challenges && RejectedSinceIssue(log, t) == 0
    case Some(issue) =>
      && t in s.challenges
      && s.challenges[t].code == issue.code
      && s.challenges[t].expiresAt == issue.expiresAt
      && s.challenges[t].attempts == RejectedSinceIssue(log, t)
  }

  /** What one call does to the challenge of t, told by its log entry. */
  predicate ChallengeStep(s: System, s': System, e: LogEntry, t: TxnId) {
    match IssuedBy(e, t)
    case Some(issue) =>
      && t in s'.challenges
      && s'.challenges[t].code == issue.code && s'.challenges[t].expiresAt == issue.expiresAt
      && s'.challenges[t].attempts == 0
    case None =>
      && (t in s'.challenges <==> t in s.challenges)
      && (RejectedCode(e, t) ==> t in s.challenges)
      && (t in s.challenges ==>
            && s'.challenges[t].code == s.challenges[t].code && s'.challenges[t].expiresAt == s.challenges[t].expiresAt
            && s'.challenges[t].attempts == s.challenges[t].attempts + if RejectedCode(e, t) then 1 else 0)
  }

  lemma ConfirmingChallenges(s: System, customer: CustomerId, x: TxnId, code: Code, now: int, t: TxnId)
    requires ChallengeOk(s, x)
    ensures ChallengeStep(s, Confirming(s, customer, x, code, now).0,
              LogEntry(ConfirmTransfer(customer, x, code, now), Confirming(s, customer, x, code, now).1), t)
  {}

  lemma StepChallenges(s: System, op: Op, t: TxnId)
    requires forall x :: ChallengeOk(s, x)
    ensures ChallengeStep(s, Step(s, op).0, LogEntry(op, Step(s, op).1), t)
  {
    if op.ConfirmTransfer? {
      assert ChallengeOk(s, op.txn);
      ConfirmingChallenges(s, op.customer, op.txn, op.code, op.now, t);
    }
  }

  lemma ChallengeStepTracks(s: System, s': System, log: seq<LogEntry>, e: LogEntry, t: TxnId)
    requires Tracks(s, log, t) && ChallengeStep(s, s', e, t)
    ensures Tracks(s', log + [e], t)
  {
    assert (log + [e])[..|log|] == log;
  }

  /** The attempts column counts the codes rejected since the last issue, in every serial run. */
  lemma {:induction false} AttemptsCount(ops: seq<Op>, t: TxnId)
    ensures Tracks(After(ops), Log(ops), t)
  {
    if ops != [] {
      var front := ops[..|ops| - 1];
      AttemptsCount(front, t);
      SerialRun(front);
      var op := ops[|ops| - 1];
      StepChallenges(After(front), op, t);
      ChallengeStepTracks(After(front), After(ops), Log(front), LogEntry(op, Step(After(front), op).1), t);
    }
  }

  /** A PENDING transfer has attempts left, so the check for exhausted attempts never fires. */
  lemma PendingHasAttemptsLeft(ops: seq<Op>, t: TxnId)
    requires t in After(ops).bank.rows.txns && After(ops).bank.rows.txns[t].status == Pending
    ensures RejectedSinceIssue(Log(ops), t) < MAX_ATTEMPTS
    ensures t in After(ops).challenges && !Exhausted(After(ops).challenges[t])
  {
    SerialRun(ops);
    AttemptsCount(ops, t);
    assert ChallengeOk(After(ops), t);
  }

  /**
   A confirmation moves the money only for the sender's owner, with the code issued last, before it
   expires, with attempts left, and while the transfer is PENDING.
   */
  lemma CompletedByLastCode(ops: seq<Op>, customer: CustomerId, t: TxnId, code: Code, now: int)
    requires Step(After(ops), ConfirmTransfer(customer, t, code, now)).1 == Done
    ensures OwnedBySender(After(ops).bank.rows, customer, t)
    ensures After(ops).bank.rows.txns[t].status == Pending
    ensures LastIssue(Log(ops), t).Some?
    ensures LastIssue(Log(ops), t).value.code == code && now < LastIssue(Log(ops), t).value.expiresAt
    ensures RejectedSinceIssue(Log(ops), t) < MAX_ATTEMPTS
  {
    AttemptsCount(ops, t);
    SerialRun(ops);
    assert ChallengeOk(After(ops), t);
  }

  // ---- Never left PENDING? ---------------------------------------------------------------------

  /** The locked step reaches the database with rows that it rejects. */
  predicate RejectedByDatabase(rows: Tables, t: TxnId) {
    && t in rows.txns && rows.txns[t].sender.Some? && rows.txns[t].receiver.Some?
    && rows.txns[t].sender.value in rows.accounts && rows.txns[t].receiver.value in rows.accounts
    && var row := rows.txns[t];
       var sender, receiver := rows.accounts[row.sender.value], rows.accounts[row.receiver.value];
    && sender.status == Active && receiver.status == Active && row.amount <= sender.balance
    && (Credited(row) == 0 || !Storable(receiver.balance + Credited(row)))
  }

  lemma DatabaseRejects(b: Bank, t: TxnId)
    requires BankInv(b) && t in b.rows.txns && b.rows.txns[t].status == Pending
    ensures DecideConfirm(b.rows, t).Abort? <==> RejectedByDatabase(b.rows, t)
  {
    var row := b.rows.txns[t];
    assert StatusOk(b, t) && ShapeOk(b.rows, row);
    assert AccountOk(b, row.sender.value) && AccountOk(b, row.receiver.value);
    var sender, receiver := b.rows.accounts[row.sender.value], b.rows.accounts[row.receiver.value];
    var w := Movement(b.rows, t, row, sender.currency, receiver.currency);
    assert w.entries[0].amount == row.amount && w.entries[0].after == sender.balance - row.amount;
    assert w.entries[1].amount == Credited(row) && w.entries[1].after == receiver.balance + Credited(row);
  }

  /**
   A confirmation with the right code leaves the transaction PENDING, contrary to what the service
   documents, exactly when the checks pass but the credit rounds to 0.00 or overflows the column.
   */
  lemma LeftPendingExactly(s: System, t: TxnId)
    requires SerialInv(s) && t in s.bank.rows.txns && s.bank.rows.txns[t].status == Pending && t in s.challenges
    ensures
      var s' := Executing(s, t).0;
      t in s'.bank.rows.txns && (s'.bank.rows.txns[t].status == Pending <==> RejectedByDatabase(s.bank.rows, t))
    ensures RejectedByDatabase(s.bank.rows, t) <==> Executing(s, t) == (s, ServerError)
  {
    assert StatusOk(s.bank, t) && ShapeOk(s.bank.rows, s.bank.rows.txns[t]);
    NeverCrashes(s.bank, Confirm(t), t);
    DatabaseRejects(s.bank, t);
    if DecideNow(Confirm(t), t, s.bank).Proceed? {
      CommitPosts(s.bank, Confirm(t), t);
      PostedTxn(s.bank, t, s.bank.rows.txns[t], DebitTag(Confirm(t), s.bank.rows), CreditTag(Confirm(t), s.bank.rows), t);
    }
  }

  /**
   For the whole call: a transfer that is PENDING before a confirmation is PENDING after it exactly when
   the caller does not own it, when the code was wrong in time and attempts are left, or when the code
   was right in time and the database rejects the credit.
   */
  lemma StillPendingExactly(s: System, customer: CustomerId, t: TxnId, code: Code, now: int)
    requires SerialInv(s) && t in s.bank.rows.txns && s.bank.rows.txns[t].status == Pending
    ensures t in s.challenges
    ensures
      var c, s' := s.challenges[t], Confirming(s, customer, t, code, now).0;
      && t in s'.bank.rows.txns
      && (s'.bank.rows.txns[t].status == Pending <==>
            || !OwnedBySender(s.bank.rows, customer, t)
            || (now < c.expiresAt &&
                if code != c.code then c.attempts + 1 < MAX_ATTEMPTS else RejectedByDatabase(s.bank.rows, t)))
  {
    assert ChallengeOk(s, t);
    LeftPendingExactly(s, t);
  }

  // ---- Scheduled transfers that fail ------------------------------------------------------------

  /** The locked step does not take this transfer: an account, the balance, or the credit. */
  predicate LockedStepFails(b: Bank, row: TxnRow)
    requires row.sender.Some? && row.sender.value in b.rows.accounts
    requires row.receiver.Some? && row.receiver.value in b.rows.accounts
  {
    var sender, receiver := b.rows.accounts[row.sender.value], b.rows.accounts[row.receiver.value];
    || sender.status != Active || receiver.status != Active
    || sender.balance < row.amount
    || Credited(row) == 0 || !Storable(receiver.balance + Credited(row))
  }

  lemma SeenSides(view: Tables, rows: Tables, r: Request)
    requires Sees(view, rows) && Validate(view, r).Valid?
    ensures
      var row := Validate(view, r).row;
      && row.sender.Some? && row.sender.value in rows.accounts
      && row.receiver.Some? && row.receiver.value in rows.accounts
  {}

  /**
   A scheduled transfer that a session has validated on what it sees fails with something other than a
   domain error exactly when its row cannot be inserted, or when the committed accounts are inactive or
   short, or when the database rejects the credit. Nothing of it remains then, not even a FAILED row.
   */
  lemma SchedulingFailsExactly(view: Tables, b: Bank, id: TxnId, r: Request)
    requires BankInv(b) && Sees(view, b.rows) && Validate(view, r).Valid?
    ensures
      var row := Validate(view, r).row;
      && row.sender.Some? && row.sender.value in b.rows.accounts
      && row.receiver.Some? && row.receiver.value in b.rows.accounts
      && (Scheduling(view, b, id, r) == (b, ServerError) <==> id in b.rows.txns || !InsertPasses(row) || LockedStepFails(b, row))
      && (Scheduling(view, b, id, r).1 == Done <==> Scheduling(view, b, id, r) != (b, ServerError))
  {
    var row := Validate(view, r).row;
    SeenSides(view, b.rows, r);
    if id !in b.rows.txns && InsertPasses(row) {
      SeenIsInitiated(view, b.rows, r);
      StepKeepsInv(b, Initiate(id, row));
      DatabaseRejects(Do(b, Initiate(id, row)), id);
    }
  }

  /** On a view that is not stale only the database fails it: the locked step finds what validation found. */
  lemma FreshViewPasses(b: Bank, id: TxnId, r: Request)
    requires BankInv(b) && Validate(b.rows, r).Valid?
    ensures
      var row := Validate(b.rows, r).row;
      && row.receiver.Some? && row.receiver.value in b.rows.accounts
      && (Scheduling(b.rows, b, id, r) == (b, ServerError) <==>
            || id in b.rows.txns || !InsertPasses(row)
            || Credited(row) == 0 || !Storable(b.rows.accounts[row.receiver.value].balance + Credited(row)))
  {
    SchedulingFailsExactly(b.rows, b, id, r);
  }
}
