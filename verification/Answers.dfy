/** What every call on transfers answers, and what it changes, told by the history of calls and by the rows alone. */
module Answers {
  import opened Basics
  import opened Schema
  import opened Operations
  import opened Laws
  import opened Invariants
  import opened Guards
  import opened Effects
  import opened Transfers
  import Conversion

  // ---- Validation ------------------------------------------------------------------------------

  /** The checks on a request, in the order in which they count. */
  function RequestChecks(rows: Tables, r: Request): seq<Check> {
    var receiver := if r.receiver.Some? then r.receiver.value else 0;
    var found := r.receiver.Some? && receiver in rows.accounts;
    [Check(r.sender in rows.accounts && rows.accounts[r.sender].owner == r.customer, NotFound),
     Check(IsActive(rows, r.sender), NotActive),
     Check(HeldIn(rows, r.sender, r.currency), CurrencyMismatch),
     Check(found, NotFound),
     Check(receiver != r.sender, SameAccount),
     Check(found && IsActive(rows, receiver), NotActive),
     Check(Covers(rows, r.sender, r.amount), InsufficientBalance),
     Check(r.sender in rows.accounts && found &&
             (rows.accounts[r.sender].currency == rows.accounts[receiver].currency || r.rate.Some?), NoExchangeRate)]
  }

  lemma AtMostEight(c: seq<Check>)
    requires |c| == 8
    ensures FirstFailing(c) ==
      if !c[0].holds then Some(c[0].otherwise)
      else if !c[1].holds then Some(c[1].otherwise)
      else FirstFailing(c[2..])
    ensures FirstFailing(c[2..]) ==
      if !c[2].holds then Some(c[2].otherwise)
      else if !c[3].holds then Some(c[3].otherwise)
      else if !c[4].holds then Some(c[4].otherwise)
      else if !c[5].holds then Some(c[5].otherwise)
      else if !c[6].holds then Some(c[6].otherwise)
      else if !c[7].holds then Some(c[7].otherwise)
      else None
  {
    FirstSteps(c);
    AtMostSix(c[2..]);
  }

  /** A request is turned down with the refusal of its first check that does not hold, and valid when all hold. */
  lemma ValidationNamesFirst(rows: Tables, r: Request)
    ensures
      match FirstFailing(RequestChecks(rows, r))
      case Some(e) => Validate(rows, r) == Invalid(e)
      case None => Validate(rows, r).Valid?
  {
    AtMostEight(RequestChecks(rows, r));
  }

  /** When a request is valid. */
  predicate Acceptable(rows: Tables, r: Request) {
    && r.sender in rows.accounts && r.receiver.Some? && r.receiver.value in rows.accounts
    && r.receiver.value != r.sender
    && var sender, receiver := rows.accounts[r.sender], rows.accounts[r.receiver.value];
    && sender.owner == r.customer && sender.status == Active && sender.currency == r.currency
    && receiver.status == Active
    && r.amount <= sender.balance
    && (sender.currency == receiver.currency || r.rate.Some?)
  }

  /** What an acceptable request will credit: the amount, or the exact product rounded half up. */
  function CreditOf(rows: Tables, r: Request): int
    requires Acceptable(rows, r)
  {
    if rows.accounts[r.receiver.value].currency == r.currency || r.amount < 0 then r.amount
    else Conversion.Rounded(r.amount, r.rate.value)
  }

  lemma ValidatesExactly(rows: Tables, r: Request)
    ensures Validate(rows, r).Valid? <==> Acceptable(rows, r)
    ensures Validate(rows, r).Valid? && CreditOf(rows, r) < CENTS_LIMIT ==>
      Validate(rows, r).row ==
        TxnRow(Transfer, Some(r.sender), r.receiver, r.amount, r.currency, Some(CreditOf(rows, r)), Pending, None, None)
    ensures Validate(rows, r).Valid? && CreditOf(rows, r) >= CENTS_LIMIT ==> !InsertPasses(Validate(rows, r).row)
  {
    if r.rate.Some? && r.amount >= 0 {
      Conversion.ConvertFits(r.amount, r.rate.value);
    }
  }

  // ---- initiate_transfer -----------------------------------------------------------------------

  /** The tables take the row of an acceptable request. */
  predicate Insertable(b: Bank, id: TxnId, r: Request)
    requires Acceptable(b.rows, r)
  {
    id !in b.rows.txns && 0 < r.amount < CENTS_LIMIT && CreditOf(b.rows, r) < CENTS_LIMIT
  }

  /**
   An initiation is done exactly for an acceptable request whose row the tables take. Then there is one
   PENDING row more, with a challenge of five attempts, and nothing else has changed. Otherwise nothing
   has changed at all, and the answer names the first check that failed, or says that the tables did not
   take the row.
   */
  lemma InitiatesExactly(s: System, id: TxnId, r: Request, code: Code, now: int, lifetime: int)
    ensures
      var (s', outcome) := Step(s, InitiateTransfer(id, r, code, now, lifetime));
      if !Acceptable(s.bank.rows, r) then
        && FirstFailing(RequestChecks(s.bank.rows, r)).Some?
        && s' == s && outcome == Raised(FirstFailing(RequestChecks(s.bank.rows, r)).value)
      else if !Insertable(s.bank, id, r) then s' == s && outcome == ServerError
      else
        && outcome == Done
        && s'.bank.rows.accounts == s.bank.rows.accounts && s'.bank.rows.cards == s.bank.rows.cards
        && s'.bank.ledger == s.bank.ledger
        && s'.bank.rows.txns == s.bank.rows.txns[id :=
             TxnRow(Transfer, Some(r.sender), r.receiver, r.amount, r.currency, Some(CreditOf(s.bank.rows, r)), Pending, None, None)]
        && s'.challenges == s.challenges[id := Challenge(code, 0, 5, now + lifetime, false)]
  {
    ValidatesExactly(s.bank.rows, r);
    ValidationNamesFirst(s.bank.rows, r);
  }

  // ---- Calls on a PENDING transfer -------------------------------------------------------------

  /** The customer owns the account that the transfer takes its money from. */
  predicate IsSender(rows: Tables, customer: CustomerId, t: TxnId) {
    && t in rows.txns && rows.txns[t].sender.Some?
    && rows.txns[t].sender.value in rows.accounts && rows.accounts[rows.txns[t].sender.value].owner == customer
  }

  predicate IsPending(rows: Tables, t: TxnId) {
    t in rows.txns && rows.txns[t].status == Pending
  }

  /** The rows with one status changed, and nothing else. */
  predicate OnlyStatus(b: Bank, b': Bank, t: TxnId, status: TxnStatus)
    requires t in b.rows.txns
  {
    && b'.rows.accounts == b.rows.accounts && b'.rows.cards == b.rows.cards && b'.ledger == b.ledger
    && b'.rows.txns == b.rows.txns[t := b.rows.txns[t].(status := status)]
  }

  /** A resend gives a PENDING transfer of the customer a new code with all attempts, and changes nothing else. */
  lemma ResendsExactly(s: System, customer: CustomerId, t: TxnId, code: Code, now: int, lifetime: int)
    requires SerialInv(s)
    ensures
      var (s', outcome) := Step(s, ResendOtp(customer, t, code, now, lifetime));
      if !IsSender(s.bank.rows, customer, t) then s' == s && outcome == Raised(NotFound)
      else if !IsPending(s.bank.rows, t) then s' == s && outcome == Raised(AlreadyProcessed)
      else
        && outcome == Done && s'.bank == s.bank && t in s.challenges
        && s'.challenges == s.challenges[t := Challenge(code, 0, 5, now + lifetime, s.challenges[t].verified)]
  {
    assert ChallengeOk(s, t);
  }

  /** The challenge of a PENDING transfer is what the calls so far have made of it. */
  lemma PendingIssue(ops: seq<Op>, t: TxnId)
    requires IsPending(After(ops).bank.rows, t)
    ensures LastIssue(Log(ops), t).Some? && t in After(ops).challenges
    ensures
      var c, issue := After(ops).challenges[t], LastIssue(Log(ops), t).value;
      && c.code == issue.code && c.expiresAt == issue.expiresAt
      && c.attempts == RejectedSinceIssue(Log(ops), t) < 5 && c.maxAttempts == 5
  {
    AttemptsCount(ops, t);
    PendingHasAttemptsLeft(ops, t);
    SerialRun(ops);
    assert ChallengeOk(After(ops), t);
  }

  /** The challenges with one more attempt at that of t. */
  predicate OneMoreAttempt(s: System, s': System, t: TxnId) {
    && t in s.challenges
    && s'.challenges == s.challenges[t := s.challenges[t].(attempts := s.challenges[t].attempts + 1)]
  }

  /**
   In every serial run a confirmation that stops at the code: a transfer that is not the customer's, or
   not PENDING; a code that comes too late, which fails the transfer; and a wrong code in time, which
   answers five less the codes rejected since the last was issued, this one included, or fails the
   transfer when none are left.
   */
  lemma ConfirmStopsAtCode(ops: seq<Op>, customer: CustomerId, t: TxnId, code: Code, now: int)
    ensures
      var s, (s', outcome) := After(ops), Step(After(ops), ConfirmTransfer(customer, t, code, now));
      if !IsSender(s.bank.rows, customer, t) then s' == s && outcome == Raised(NotFound)
      else if !IsPending(s.bank.rows, t) then s' == s && outcome == Raised(AlreadyProcessed)
      else
        && LastIssue(Log(ops), t).Some?
        && var issue, left := LastIssue(Log(ops), t).value, 5 - (RejectedSinceIssue(Log(ops), t) + 1);
        && (issue.expiresAt <= now ==>
              outcome == OtpExpired && OnlyStatus(s.bank, s'.bank, t, Failed) && s'.challenges == s.challenges)
        && (now < issue.expiresAt && code != issue.code && left > 0 ==>
              outcome == WrongCode(left) && s'.bank == s.bank && OneMoreAttempt(s, s', t))
        && (now < issue.expiresAt && code != issue.code && left <= 0 ==>
              outcome == TooManyAttempts && OnlyStatus(s.bank, s'.bank, t, Failed) && OneMoreAttempt(s, s', t))
  {
    if IsSender(After(ops).bank.rows, customer, t) && IsPending(After(ops).bank.rows, t) {
      PendingIssue(ops, t);
    }
  }

  lemma OneMoreEntry(ops: seq<Op>, op: Op)
    ensures Log(ops + [op]) == Log(ops) + [LogEntry(op, Step(After(ops), op).1)]
    ensures Log(ops + [op])[..|Log(ops + [op])| - 1] == Log(ops)
    ensures After(ops + [op]) == Step(After(ops), op).0
  {
    assert (ops + [op])[..|ops|] == ops;
  }

  /** What one rejected code adds to a log. */
  lemma RejectedEntry(log: seq<LogEntry>, e: LogEntry, t: TxnId)
    requires RejectedCode(e, t)
    ensures RejectedSinceIssue(log + [e], t) == RejectedSinceIssue(log, t) + 1
    ensures LastIssue(log + [e], t) == LastIssue(log, t)
  {
    assert (log + [e])[..|log|] == log;
  }

  lemma WrongCodeLeft(s: System, log: seq<LogEntry>, customer: CustomerId, t: TxnId, code: Code, now: int, k: int)
    requires SerialInv(s) && Tracks(s, log, t)
    requires Step(s, ConfirmTransfer(customer, t, code, now)).1 == WrongCode(k)
    ensures k > 0 && k == 5 - (RejectedSinceIssue(log, t) + 1)
  {
    assert ChallengeOk(s, t);
  }

  /** The number of attempts left that a wrong code answers. */
  lemma WrongCodeTellsLeft(ops: seq<Op>, customer: CustomerId, t: TxnId, code: Code, now: int, k: int)
    requires Step(After(ops), ConfirmTransfer(customer, t, code, now)).1 == WrongCode(k)
    ensures k > 0 && k == 5 - RejectedSinceIssue(Log(ops + [ConfirmTransfer(customer, t, code, now)]), t)
  {
    var op := ConfirmTransfer(customer, t, code, now);
    var log, e := Log(ops), LogEntry(op, Step(After(ops), op).1);
    OneMoreEntry(ops, op);
    RejectedEntry(log, e, t);
    SerialRun(ops);
    AttemptsCount(ops, t);
    WrongCodeLeft(After(ops), log, customer, t, code, now, k);
  }

  /** n confirmations of one transfer with one code, all at one time, and the log with their entries. */
  function Tried(s: System, log: seq<LogEntry>, op: Op, n: nat): (System, seq<LogEntry>) {
    if n == 0 then (s, log)
    else
      var (s', log') := Tried(s, log, op, n - 1);
      (Step(s', op).0, log' + [LogEntry(op, Step(s', op).1)])
  }

  /** The customer could still confirm t, and this code is wrong and in time. */
  predicate WrongInTime(s: System, log: seq<LogEntry>, customer: CustomerId, t: TxnId, code: Code, now: int) {
    && IsSender(s.bank.rows, customer, t) && IsPending(s.bank.rows, t)
    && LastIssue(log, t).Some? && now < LastIssue(log, t).value.expiresAt && code != LastIssue(log, t).value.code
  }

  lemma TryOnce(s: System, log: seq<LogEntry>, customer: CustomerId, t: TxnId, code: Code, now: int)
    requires SerialInv(s) && Tracks(s, log, t) && WrongInTime(s, log, customer, t, code, now)
    ensures
      var op := ConfirmTransfer(customer, t, code, now);
      var s', e := Step(s, op).0, LogEntry(op, Step(s, op).1);
      && RejectedCode(e, t)
      && if RejectedSinceIssue(log, t) + 1 < 5 then s'.bank == s.bank else OnlyStatus(s.bank, s'.bank, t, Failed)
  {
    assert ChallengeOk(s, t);
  }

  /**
   What n rejected codes have done: with fewer than the attempts that were left nothing but counting;
   with all of them the transfer has become FAILED.
   */
  predicate TriedOff(s: System, log: seq<LogEntry>, s': System, log': seq<LogEntry>, t: TxnId, n: nat)
    requires t in s.bank.rows.txns
  {
    && RejectedSinceIssue(log', t) == RejectedSinceIssue(log, t) + n && LastIssue(log', t) == LastIssue(log, t)
    && if n < 5 - RejectedSinceIssue(log, t) then s'.bank == s.bank else OnlyStatus(s.bank, s'.bank, t, Failed)
  }

  lemma OneTry(s: System, log: seq<LogEntry>, customer: CustomerId, t: TxnId, code: Code, now: int)
    requires SerialInv(s) && Tracks(s, log, t) && WrongInTime(s, log, customer, t, code, now)
    ensures
      var op := ConfirmTransfer(customer, t, code, now);
      var s', log' := Step(s, op).0, log + [LogEntry(op, Step(s, op).1)];
      SerialInv(s') && Tracks(s', log', t) && TriedOff(s, log, s', log', t, 1)
  {
    var op := ConfirmTransfer(customer, t, code, now);
    var e := LogEntry(op, Step(s, op).1);
    TryOnce(s, log, customer, t, code, now);
    RejectedEntry(log, e, t);
    StepKeepsSerial(s, op);
    StepChallenges(s, op, t);
    ChallengeStepTracks(s, Step(s, op).0, log, e, t);
  }

  lemma TriedOn(s: System, log: seq<LogEntry>, s1: System, log1: seq<LogEntry>, s2: System, log2: seq<LogEntry>, t: TxnId, n: nat)
    requires t in s.bank.rows.txns && n < 5 - RejectedSinceIssue(log, t)
    requires TriedOff(s, log, s1, log1, t, n) && TriedOff(s1, log1, s2, log2, t, 1)
    ensures TriedOff(s, log, s2, log2, t, n + 1)
  {}

  /**
   The number told is right: from every state that a serial run reaches, when k attempts are left, fewer
   than k more wrong codes in time leave the transfer PENDING, and k of them make it FAILED.
   */
  lemma {:induction false} TriesRunOut(s: System, log: seq<LogEntry>, customer: CustomerId, t: TxnId, code: Code, now: int, n: nat)
    requires SerialInv(s) && Tracks(s, log, t) && WrongInTime(s, log, customer, t, code, now)
    requires n <= 5 - RejectedSinceIssue(log, t)
    ensures
      var (s', log') := Tried(s, log, ConfirmTransfer(customer, t, code, now), n);
      SerialInv(s') && Tracks(s', log', t) && TriedOff(s, log, s', log', t, n)
    decreases n
  {
    if n == 0 {
      assert ChallengeOk(s, t);
    } else {
      TriesRunOut(s, log, customer, t, code, now, n - 1);
      var op := ConfirmTransfer(customer, t, code, now);
      var (s1, log1) := Tried(s, log, op, n - 1);
      OneTry(s1, log1, customer, t, code, now);
      TriedOn(s, log, s1, log1, Step(s1, op).0, log1 + [LogEntry(op, Step(s1, op).1)], t, n - 1);
    }
  }

  /** In particular after any sequence of calls. */
  lemma TriesRunOutAfter(ops: seq<Op>, customer: CustomerId, t: TxnId, code: Code, now: int, n: nat)
    requires WrongInTime(After(ops), Log(ops), customer, t, code, now)
    requires n <= 5 - RejectedSinceIssue(Log(ops), t)
    ensures
      var (s', log') := Tried(After(ops), Log(ops), ConfirmTransfer(customer, t, code, now), n);
      TriedOff(After(ops), Log(ops), s', log', t, n)
  {
    SerialRun(ops);
    AttemptsCount(ops, t);
    TriesRunOut(After(ops), Log(ops), customer, t, code, now, n);
  }

  /** What a confirmation with the right code in time answers and does. */
  lemma ConfirmWithRightCode(ops: seq<Op>, customer: CustomerId, t: TxnId, code: Code, now: int)
    requires IsSender(After(ops).bank.rows, customer, t) && IsPending(After(ops).bank.rows, t)
    requires LastIssue(Log(ops), t).Some?
    requires code == LastIssue(Log(ops), t).value.code && now < LastIssue(Log(ops), t).value.expiresAt
    ensures
      var s, (s', outcome) := After(ops), Step(After(ops), ConfirmTransfer(customer, t, code, now));
      match FirstFailing(Checklist(Confirm(t), s.bank))
      case Some(e) => outcome == Raised(e) && OnlyStatus(s.bank, s'.bank, t, Failed) && s'.challenges == s.challenges
      case None =>
        && Permitted(Confirm(t), s.bank)
        && if !Fitting(Confirm(t), t, s.bank) then outcome == ServerError && s' == s
           else
             && outcome == Done && Can(s.bank, Commit(Confirm(t), t)) && s'.bank == Do(s.bank, Commit(Confirm(t), t))
             && t in s.challenges && s'.challenges == s.challenges[t := s.challenges[t].(verified := true)]
  {
    var s := After(ops);
    PendingIssue(ops, t);
    SerialRun(ops);
    RefusesFirst(s.bank, Confirm(t), t);
    OutcomeExactly(s.bank, Confirm(t), t);
  }

  // ---- The expiry sweep ------------------------------------------------------------------------

  /** The sweep fails exactly the PENDING transfers whose last code has expired, and changes nothing else. */
  lemma SweepFailsExactly(ops: seq<Op>, now: int)
    ensures
      var s, (s', outcome) := After(ops), Step(After(ops), SweepExpired(now));
      && outcome == Done && s'.challenges == s.challenges
      && s'.bank.rows.accounts == s.bank.rows.accounts && s'.bank.rows.cards == s.bank.rows.cards
      && s'.bank.ledger == s.bank.ledger
      && s'.bank.rows.txns.Keys == s.bank.rows.txns.Keys
    ensures
      var s, s' := After(ops), Step(After(ops), SweepExpired(now)).0;
      forall t | t in s.bank.rows.txns ::
        && (s.bank.rows.txns[t].status == Pending ==> LastIssue(Log(ops), t).Some?)
        && s'.bank.rows.txns[t] == s.bank.rows.txns[t].(status :=
             if s.bank.rows.txns[t].status == Pending && LastIssue(Log(ops), t).value.expiresAt <= now then Failed
             else s.bank.rows.txns[t].status)
  {
    var s := After(ops);
    forall t | t in s.bank.rows.txns && s.bank.rows.txns[t].status == Pending
      ensures LastIssue(Log(ops), t).Some? && t in s.challenges && s.challenges[t].expiresAt == LastIssue(Log(ops), t).value.expiresAt
    {
      PendingIssue(ops, t);
    }
  }

  // ---- Money operations ------------------------------------------------------------------------

  /** Deposits, withdrawals, card payments and reversals: done, refused with the first check that fails, or aborted. */
  lemma PerformsExactly(s: System, call: Call, id: TxnId)
    requires SerialInv(s) && !call.Confirm?
    ensures
      var (s', outcome) := Step(s, Perform(call, id));
      && s'.challenges == s.challenges
      && match FirstFailing(Checklist(call, s.bank))
         case Some(e) => outcome == Raised(e) && s' == s
         case None =>
           && Permitted(call, s.bank)
           && if Fitting(call, id, s.bank)
              then outcome == Done && Can(s.bank, Commit(call, id)) && s'.bank == Do(s.bank, Commit(call, id))
              else outcome == ServerError && s' == s
  {
    RefusesFirst(s.bank, call, id);
    OutcomeExactly(s.bank, call, id);
  }

  // ---- Scheduled transfers ---------------------------------------------------------------------

  /** A scheduled transfer that is refused changes nothing, and its refusal names the first check that fails on what was seen. */
  lemma SchedulingRefusesFirst(view: Tables, b: Bank, id: TxnId, r: Request)
    ensures
      match FirstFailing(RequestChecks(view, r))
      case Some(e) => Scheduling(view, b, id, r) == (b, Raised(e))
      case None => !Scheduling(view, b, id, r).1.Raised?
  {
    ValidationNamesFirst(view, r);
  }
}
