/**
 Standing orders: what one sweep over the due schedules does to the bank and to the schedules, and
 what a schedule may count on over any history of sweeps.
 */
module Schedules {
  import opened Basics
  import opened Schema
  import opened Operations
  import opened Laws
  import opened Invariants
  import opened Conservation
  import opened Runs
  import opened Transfers
  import opened Guards
  import opened Answers
  import Conversion

  type ScheduleId = int

  datatype Frequency = Daily | Weekly | Monthly

  const DAY := 86_400

  /** In seconds. A month is thirty days, whatever the calendar says. */
  function Period(f: Frequency): (p: nat)
    ensures p > 0
  {
    match f
    case Daily => DAY
    case Weekly => 7 * DAY
    case Monthly => 30 * DAY
  }

  datatype Failure = CustomerMissing | DomainError(error: Refusal)

  datatype Schedule = Schedule(
    customer: CustomerId,
    sender: AccountId,
    receiver: string,
    amount: int,
    currency: Currency,
    frequency: Frequency,
    nextRun: int,
    active: bool,
    lastTransaction: Option<TxnId>,
    lastFailure: Option<Failure>)

  /** What the sweep looks up elsewhere: customers, account numbers, and active exchange rates. */
  datatype World = World(
    customers: set<CustomerId>,
    numbers: map<string, AccountId>,
    rates: map<(Currency, Currency), nat>)

  function RequestOf(w: World, rows: Tables, s: Schedule): Request {
    var receiver := if s.receiver in w.numbers then Some(w.numbers[s.receiver]) else None;
    var rate :=
      if s.sender !in rows.accounts || receiver.None? || receiver.value !in rows.accounts then None
      else
        var pair := (rows.accounts[s.sender].currency, rows.accounts[receiver.value].currency);
        if pair in w.rates then Some(w.rates[pair]) else None;
    Request(s.customer, s.sender, receiver, s.amount, s.currency, rate)
  }

  // ---- One schedule ----------------------------------------------------------------------------

  /** Broken: something other than a domain error was raised, which the sweep does not catch. */
  datatype Attempt = Paid(bank: Bank) | Unpaid(reason: Failure) | Broken

  /** view is what the session sees of the accounts when it validates, b what is committed at the locked step. */
  function Attempted(w: World, view: Tables, b: Bank, s: Schedule, id: TxnId): Attempt {
    if s.customer !in w.customers then Unpaid(CustomerMissing)
    else
      var (b', outcome) := Scheduling(view, b, id, RequestOf(w, view, s));
      match outcome
      case Done => Paid(b')
      case Raised(e) => Unpaid(DomainError(e))
      case _ => Broken
  }

  function Advance(s: Schedule): Schedule {
    s.(nextRun := s.nextRun + Period(s.frequency))
  }

  function Recorded(s: Schedule, id: TxnId, a: Attempt): Schedule {
    match a
    case Paid(_) => Advance(s.(lastTransaction := Some(id), lastFailure := None))
    case Unpaid(reason) => Advance(s.(lastFailure := Some(reason)))
    case Broken => s
  }

  /** The locked step finds what validation found, when that was not stale: no schedule is refused there. */
  lemma RecheckPasses(b: Bank, id: TxnId, r: Request)
    requires id !in b.rows.txns && Validate(b.rows, r).Valid?
    ensures !DecideConfirm(WithTxn(b, id, Validate(b.rows, r).row).rows, id).Refuse?
    ensures !DecideConfirm(WithTxn(b, id, Validate(b.rows, r).row).rows, id).Crash?
  {}

  /** The payment cannot be made: its row, the accounts, or the credit. */
  predicate Unpayable(b: Bank, id: TxnId, row: TxnRow)
    requires row.sender.Some? && row.sender.value in b.rows.accounts
    requires row.receiver.Some? && row.receiver.value in b.rows.accounts
  {
    id in b.rows.txns || !InsertPasses(row) || LockedStepFails(b, row)
  }

  /**
   An attempt breaks the sweep exactly when the customer exists and the payment passes validation on
   what the session sees, but cannot be made: the database does not take its amount or its credit, or
   the view was stale and the committed accounts are inactive or short.
   */
  lemma AttemptBreaksExactly(w: World, view: Tables, b: Bank, s: Schedule, id: TxnId)
    requires BankInv(b) && Sees(view, b.rows)
    ensures Attempted(w, view, b, s, id).Broken? <==>
      && s.customer in w.customers
      && var v := Validate(view, RequestOf(w, view, s));
      && v.Valid?
      && v.row.sender.Some? && v.row.sender.value in b.rows.accounts
      && v.row.receiver.Some? && v.row.receiver.value in b.rows.accounts
      && Unpayable(b, id, v.row)
  {
    var r := RequestOf(w, view, s);
    if Validate(view, r).Valid? {
      SchedulingFailsExactly(view, b, id, r);
    }
  }

  /** The two movements of a payment. */
  predicate MovedOnce(b: Bank, s: Schedule, id: TxnId) {
    && id in b.rows.txns
    && var row := b.rows.txns[id];
    && row.sender == Some(s.sender) && row.receiver.Some? && row.amount == s.amount
    && MovesOf(b.ledger, id) == [Move(s.sender, Debit, s.amount), Move(row.receiver.value, Credit, Credited(row))]
  }

  lemma PaymentMoves(b: Bank, id: TxnId)
    requires BankInv(b) && Can(b, Commit(Confirm(id), id)) && MovesOf(b.ledger, id) == []
    ensures
      var b' := Do(b, Commit(Confirm(id), id));
      && id in b.rows.txns
      && id in b'.rows.txns && b'.rows.txns[id] == b.rows.txns[id].(status := Success)
      && MovesOf(b'.ledger, id) == Expected(b.rows.txns[id])
  {
    CommitPosts(b, Confirm(id), id);
    var tag1, tag2 := DebitTag(Confirm(id), b.rows), CreditTag(Confirm(id), b.rows);
    PostedTxn(b, id, b.rows.txns[id], tag1, tag2, id);
    PostingFolds(b, id, b.rows.txns[id], tag1, tag2, 0, id);
  }

  /** A payment that went through moves the schedule's amount once, as a SUCCESS. */
  lemma PaidMovesOnce(w: World, view: Tables, b: Bank, s: Schedule, id: TxnId)
    requires BankInv(b) && Sees(view, b.rows) && Attempted(w, view, b, s, id).Paid?
    ensures
      var b' := Attempted(w, view, b, s, id).bank;
      id !in b.rows.txns && MovedOnce(b', s, id) && b'.rows.txns[id].status == Success
  {
    var r := RequestOf(w, view, s);
    ScheduledIsTwoActions(view, b, id, r);
    var row := Validate(view, r).row;
    StepKeepsInv(b, Initiate(id, row));
    assert StatusOk(b, id);
    PaymentMoves(Do(b, Initiate(id, row)), id);
  }

  /** It pays from an account of the schedule's customer into the account with the schedule's number. */
  lemma PaidAsScheduled(w: World, view: Tables, b: Bank, s: Schedule, id: TxnId)
    requires BankInv(b) && Sees(view, b.rows) && Attempted(w, view, b, s, id).Paid?
    ensures
      var b' := Attempted(w, view, b, s, id).bank;
      && s.customer in w.customers
      && s.sender in b.rows.accounts && b.rows.accounts[s.sender].owner == s.customer
      && s.receiver in w.numbers
      && id in b'.rows.txns && b'.rows.txns[id].sender == Some(s.sender) && b'.rows.txns[id].receiver == Some(w.numbers[s.receiver])
  {
    var r := RequestOf(w, view, s);
    ScheduledIsTwoActions(view, b, id, r);
    InitiatesOwnTransfer(view, r);
    var row := Validate(view, r).row;
    StepKeepsInv(b, Initiate(id, row));
    assert StatusOk(b, id);
    PaymentMoves(Do(b, Initiate(id, row)), id);
  }

  /** It credits the amount within a currency, and otherwise the exact product with the active rate, rounded half up. */
  lemma PaidAtRate(w: World, view: Tables, b: Bank, s: Schedule, id: TxnId)
    requires BankInv(b) && Sees(view, b.rows) && Attempted(w, view, b, s, id).Paid?
    ensures s.sender in b.rows.accounts && s.receiver in w.numbers && w.numbers[s.receiver] in b.rows.accounts
    ensures
      var from, to := b.rows.accounts[s.sender].currency, b.rows.accounts[w.numbers[s.receiver]].currency;
      && id in Attempted(w, view, b, s, id).bank.rows.txns
      && if from == to then Credited(Attempted(w, view, b, s, id).bank.rows.txns[id]) == s.amount
         else
           && (from, to) in w.rates && s.amount >= 0
           && Credited(Attempted(w, view, b, s, id).bank.rows.txns[id]) == Conversion.Rounded(s.amount, w.rates[(from, to)])
  {
    var r := RequestOf(w, view, s);
    ScheduledIsTwoActions(view, b, id, r);
    InitiatesOwnTransfer(view, r);
    var row := Validate(view, r).row;
    StepKeepsInv(b, Initiate(id, row));
    assert StatusOk(b, id);
    PaymentMoves(Do(b, Initiate(id, row)), id);
  }

  /** It changes its two accounts' balances by the amounts of its row, and no other balance. */
  lemma PaidMovesBalances(w: World, view: Tables, b: Bank, s: Schedule, id: TxnId, a: AccountId)
    requires BankInv(b) && Sees(view, b.rows) && Attempted(w, view, b, s, id).Paid? && a in b.rows.accounts
    ensures
      var b' := Attempted(w, view, b, s, id).bank;
      && id in b'.rows.txns && a in b'.rows.accounts
      && b'.rows.accounts[a].balance == b.rows.accounts[a].balance + DeltaOf(b'.rows.txns[id], a)
  {
    var r := RequestOf(w, view, s);
    ScheduledIsTwoActions(view, b, id, r);
    var row := Validate(view, r).row;
    StepKeepsInv(b, Initiate(id, row));
    var b1 := Do(b, Initiate(id, row));
    CommitPosts(b1, Confirm(id), id);
    var tag1, tag2 := DebitTag(Confirm(id), b1.rows), CreditTag(Confirm(id), b1.rows);
    PostedTxn(b1, id, row, tag1, tag2, id);
    PostedAccount(b1, id, row, tag1, tag2, a);
  }

  lemma ActionKeepsAll(b: Bank, action: Action)
    requires BankInv(b) && Conserved(b) && Can(b, action)
    ensures BankInv(Do(b, action)) && Conserved(Do(b, action)) && Monotone(b, Do(b, action))
  {
    StepKeepsInv(b, action);
    StepConserves(b, action);
    StepIsMonotone(b, action);
  }

  /** A payment keeps every invariant of the bank, and rewrites nothing. */
  lemma PaidKeepsBank(w: World, view: Tables, b: Bank, s: Schedule, id: TxnId)
    requires BankInv(b) && Conserved(b) && Sees(view, b.rows) && Attempted(w, view, b, s, id).Paid?
    ensures
      var b' := Attempted(w, view, b, s, id).bank;
      BankInv(b') && Conserved(b') && Monotone(b, b')
  {
    var r := RequestOf(w, view, s);
    ScheduledIsTwoActions(view, b, id, r);
    var row := Validate(view, r).row;
    ActionKeepsAll(b, Initiate(id, row));
    var b1 := Do(b, Initiate(id, row));
    ActionKeepsAll(b1, Commit(Confirm(id), id));
    MonotoneTransitive(b, b1, Do(b1, Commit(Confirm(id), id)));
  }

  // ---- One sweep -------------------------------------------------------------------------------

  datatype Desk = Desk(bank: Bank, schedules: map<ScheduleId, Schedule>)

  /**
   A row of the sweep: the schedule, and the id its transaction gets. Meanwhile, before the locked step,
   other sessions commit some actions, so that the accounts the session sees may be stale: seen is None
   when they are not. crash: the process dies after the payment's own commit, before the schedule's.
   */
  datatype Turn = Turn(schedule: ScheduleId, id: TxnId, meanwhile: seq<Action>, seen: Option<Tables>, crash: bool)

  /** A turn that nothing disturbs. */
  function Alone(schedule: ScheduleId, id: TxnId): Turn {
    Turn(schedule, id, [], None, false)
  }

  datatype Sweeping = Sweeping(desk: Desk, executed: nat, failed: nat, broken: bool)

  predicate Listed(d: Desk, turns: seq<Turn>) {
    forall turn | turn in turns :: turn.schedule in d.schedules
  }

  /** What other sessions do, as far as each step is possible. */
  function Meanwhile(b: Bank, actions: seq<Action>): Bank
    decreases |actions|
  {
    if actions == [] then b else Meanwhile(if Can(b, actions[0]) then Do(b, actions[0]) else b, actions[1..])
  }

  function View(b: Bank, turn: Turn): Tables {
    if turn.seen.Some? then turn.seen.value else b.rows
  }

  /** The attempt of a turn. */
  function AttemptOf(w: World, d: Desk, turn: Turn): Attempt
    requires turn.schedule in d.schedules
  {
    var b := Meanwhile(d.bank, turn.meanwhile);
    Attempted(w, View(b, turn), b, d.schedules[turn.schedule], turn.id)
  }

  function TakeTurn(w: World, s: Sweeping, turn: Turn): Sweeping
    requires turn.schedule in s.desk.schedules
  {
    if s.broken then s
    else
      var schedule, a := s.desk.schedules[turn.schedule], AttemptOf(w, s.desk, turn);
      var paid := s.desk.(bank := if a.Paid? then a.bank else Meanwhile(s.desk.bank, turn.meanwhile));
      var recorded := paid.(schedules := s.desk.schedules[turn.schedule := Recorded(schedule, turn.id, a)]);
      if turn.crash || a.Broken? then s.(desk := paid, broken := true)
      else if a.Paid? then s.(desk := recorded, executed := s.executed + 1)
      else s.(desk := recorded, failed := s.failed + 1)
  }

  /** The sweep over the due schedules, in the order in which the query listed them. */
  function Sweep(w: World, d: Desk, turns: seq<Turn>): (s: Sweeping)
    requires Listed(d, turns)
    ensures s.desk.schedules.Keys == d.schedules.Keys
  {
    if turns == [] then Sweeping(d, 0, 0, false)
    else TakeTurn(w, Sweep(w, d, turns[..|turns| - 1]), turns[|turns| - 1])
  }

  lemma MonotoneReflexive(b: Bank)
    ensures Monotone(b, b)
  {}

  lemma {:induction false} MeanwhileKeepsAll(b: Bank, actions: seq<Action>)
    requires BankInv(b) && Conserved(b)
    ensures BankInv(Meanwhile(b, actions)) && Conserved(Meanwhile(b, actions)) && Monotone(b, Meanwhile(b, actions))
    decreases |actions|
  {
    if actions == [] {
      MonotoneReflexive(b);
    } else if Can(b, actions[0]) {
      ActionKeepsAll(b, actions[0]);
      MeanwhileKeepsAll(Do(b, actions[0]), actions[1..]);
      MonotoneTransitive(b, Do(b, actions[0]), Meanwhile(b, actions));
    } else {
      MeanwhileKeepsAll(b, actions[1..]);
    }
  }

  /** What a turn does to the bank, whatever becomes of its record. */
  lemma TurnKeepsBank(w: World, d: Desk, turn: Turn)
    requires BankInv(d.bank) && Conserved(d.bank) && turn.schedule in d.schedules
    requires turn.seen.Some? ==> Sees(turn.seen.value, Meanwhile(d.bank, turn.meanwhile).rows)
    ensures
      var b, a := Meanwhile(d.bank, turn.meanwhile), AttemptOf(w, d, turn);
      var b' := if a.Paid? then a.bank else b;
      && BankInv(b') && Conserved(b') && Monotone(d.bank, b')
      && (a.Paid? ==> turn.id !in d.bank.rows.txns && MovedOnce(b', d.schedules[turn.schedule], turn.id))
  {
    var b, a := Meanwhile(d.bank, turn.meanwhile), AttemptOf(w, d, turn);
    MeanwhileKeepsAll(d.bank, turn.meanwhile);
    if a.Paid? {
      PaidMovesOnce(w, View(b, turn), b, d.schedules[turn.schedule], turn.id);
      PaidKeepsBank(w, View(b, turn), b, d.schedules[turn.schedule], turn.id);
      MonotoneTransitive(d.bank, b, a.bank);
      assert turn.id in d.bank.rows.txns ==> TxnMonotone(d.bank, b, turn.id);
    }
  }

  /** The schedules that list_due selects. */
  function Due(d: Desk, now: int): set<ScheduleId> {
    set i | i in d.schedules && d.schedules[i].active && d.schedules[i].nextRun <= now
  }

  predicate InTurns(turns: seq<Turn>, i: ScheduleId) {
    exists turn :: turn in turns && turn.schedule == i
  }

  predicate Distinct(turns: seq<Turn>) {
    forall j, k | 0 <= j < k < |turns| :: turns[j].schedule != turns[k].schedule
  }

  lemma FrontNotIn(turns: seq<Turn>, i: ScheduleId)
    requires turns != [] && !InTurns(turns, i)
    ensures !InTurns(turns[..|turns| - 1], i) && turns[|turns| - 1].schedule != i
  {
    assert turns[|turns| - 1] in turns;
  }

  lemma {:induction false} UntouchedByTurns(w: World, d: Desk, turns: seq<Turn>, i: ScheduleId)
    requires Listed(d, turns) && !InTurns(turns, i) && i in d.schedules
    ensures Sweep(w, d, turns).desk.schedules[i] == d.schedules[i]
  {
    if turns != [] {
      var front := turns[..|turns| - 1];
      FrontNotIn(turns, i);
      UntouchedByTurns(w, d, front, i);
    }
  }

  lemma SweepSnoc(w: World, d: Desk, turns: seq<Turn>, turn: Turn)
    requires Listed(d, turns + [turn])
    ensures Listed(d, turns) && Sweep(w, d, turns + [turn]) == TakeTurn(w, Sweep(w, d, turns), turn)
  {
    assert (turns + [turn])[..|turns|] == turns;
  }

  /** Two sweeps that differ only in one schedule, and in one failure, go on differing in just that. */
  lemma TurnsCommute(w: World, without: Sweeping, with: Sweeping, i: ScheduleId, turn: Turn)
    requires turn.schedule in without.desk.schedules && i in without.desk.schedules && turn.schedule != i
    requires i in with.desk.schedules
    requires with.desk.bank == without.desk.bank
    requires with.desk.schedules == without.desk.schedules[i := with.desk.schedules[i]]
    requires with.executed == without.executed && with.failed == without.failed + 1 && with.broken == without.broken
    ensures
      var without', with' := TakeTurn(w, without, turn), TakeTurn(w, with, turn);
      && with'.desk.bank == without'.desk.bank
      && with'.desk.schedules == without'.desk.schedules[i := with.desk.schedules[i]]
      && with'.executed == without'.executed && with'.failed == without'.failed + 1 && with'.broken == without'.broken
  {
    assert with.desk.schedules[turn.schedule] == without.desk.schedules[turn.schedule];
  }

  /**
   A schedule whose payment fails with a domain error does not show in the outcome of any other: the
   money, the other schedules and the counters are as if it had not been due.
   */
  lemma {:induction false} FailureIsInvisible(w: World, d: Desk, before: seq<Turn>, x: Turn, after: seq<Turn>)
    requires Listed(d, before + [x] + after) && Listed(d, before + after) && Listed(d, before)
    requires !InTurns(after, x.schedule)
    requires
      var s := Sweep(w, d, before);
      !s.broken && AttemptOf(w, s.desk, x).Unpaid? && x.meanwhile == [] && !x.crash
    ensures
      var desk := Sweep(w, d, before).desk;
      var mine := Recorded(desk.schedules[x.schedule], x.id, AttemptOf(w, desk, x));
      var with, without := Sweep(w, d, before + [x] + after), Sweep(w, d, before + after);
      && with.desk.bank == without.desk.bank
      && with.desk.schedules == without.desk.schedules[x.schedule := mine]
      && with.executed == without.executed
      && with.failed == without.failed + 1
      && with.broken == without.broken
    decreases |after|
  {
    if after == [] {
      assert before + [x] + after == before + [x];
      assert before + after == before;
      SweepSnoc(w, d, before, x);
    } else {
      var front, last := after[..|after| - 1], after[|after| - 1];
      assert after == front + [last];
      assert before + [x] + after == (before + [x] + front) + [last];
      assert before + after == (before + front) + [last];
      SweepSnoc(w, d, before + [x] + front, last);
      SweepSnoc(w, d, before + front, last);
      FrontNotIn(after, x.schedule);
      FailureIsInvisible(w, d, before, x, front);
      var without := Sweep(w, d, before + front);
      TurnsCommute(w, without, Sweep(w, d, before + [x] + front), x.schedule, last);
    }
  }

  /**
   A broken attempt, or a crash, ends the sweep, contrary to what it documents: the schedules listed
   after it are not processed, and the schedule itself stays as it was, so that it stays due.
   */
  lemma {:induction false} BrokenStopsSweep(w: World, d: Desk, before: seq<Turn>, x: Turn, after: seq<Turn>)
    requires Listed(d, before + [x] + after) && Listed(d, before)
    requires !InTurns(before, x.schedule)
    requires
      var s := Sweep(w, d, before);
      !s.broken && (x.crash || AttemptOf(w, s.desk, x).Broken?)
    ensures
      var s := Sweep(w, d, before + [x] + after);
      && s == TakeTurn(w, Sweep(w, d, before), x) && s.broken
      && s.desk.schedules == Sweep(w, d, before).desk.schedules
      && s.desk.schedules[x.schedule] == d.schedules[x.schedule]
    decreases |after|
  {
    if after == [] {
      assert before + [x] + after == before + [x];
      SweepSnoc(w, d, before, x);
      UntouchedByTurns(w, d, before, x.schedule);
    } else {
      var front, last := after[..|after| - 1], after[|after| - 1];
      var shorter := before + [x] + front;
      assert before + [x] + after == shorter + [last];
      SweepSnoc(w, d, shorter, last);
      BrokenStopsSweep(w, d, before, x, front);
    }
  }

  /** So it is attempted again by every later sweep, with no run between: attempts that break are not bounded. */
  lemma BrokenStaysDue(w: World, d: Desk, before: seq<Turn>, x: Turn, after: seq<Turn>, now: int, later: int)
    requires Listed(d, before + [x] + after) && Listed(d, before)
    requires !InTurns(before, x.schedule)
    requires
      var s := Sweep(w, d, before);
      !s.broken && (x.crash || AttemptOf(w, s.desk, x).Broken?)
    requires x.schedule in Due(d, now) && now <= later
    ensures x.schedule in Due(Sweep(w, d, before + [x] + after).desk, later)
  {
    BrokenStopsSweep(w, d, before, x, after);
  }

  /**
   A crash between the two commits of a paid turn loses the record and not the payment: the money has
   moved, and the schedule is as it was.
   */
  lemma CrashLosesRecord(w: World, s: Sweeping, turn: Turn)
    requires BankInv(s.desk.bank) && Conserved(s.desk.bank) && turn.schedule in s.desk.schedules
    requires turn.seen.Some? ==> Sees(turn.seen.value, Meanwhile(s.desk.bank, turn.meanwhile).rows)
    requires !s.broken && turn.crash && AttemptOf(w, s.desk, turn).Paid?
    ensures
      var s' := TakeTurn(w, s, turn);
      && MovedOnce(s'.desk.bank, s.desk.schedules[turn.schedule], turn.id)
      && s'.desk.schedules == s.desk.schedules && s'.executed == s.executed && s'.broken
  {
    TurnKeepsBank(w, s.desk, turn);
  }

  /** Turn k crashes, or its attempt on what the turns before it have left raises something other than a domain error. */
  predicate BreaksAt(w: World, d: Desk, turns: seq<Turn>, k: nat)
    requires Listed(d, turns) && k < |turns|
  {
    var desk := Sweep(w, d, turns[..k]).desk;
    assert turns[k] in turns;
    turns[k].crash || AttemptOf(w, desk, turns[k]).Broken?
  }

  lemma BreaksInFront(w: World, d: Desk, turns: seq<Turn>, k: nat)
    requires Listed(d, turns) && k + 1 < |turns|
    ensures BreaksAt(w, d, turns, k) <==> BreaksAt(w, d, turns[..|turns| - 1], k)
  {
    var front := turns[..|turns| - 1];
    assert front[..k] == turns[..k] && front[k] == turns[k];
  }

  /** The last turn breaks the sweep, if it was not broken before and its attempt breaks. */
  lemma BreaksLast(w: World, d: Desk, turns: seq<Turn>)
    requires Listed(d, turns) && turns != []
    ensures Sweep(w, d, turns).broken <==>
              Sweep(w, d, turns[..|turns| - 1]).broken || BreaksAt(w, d, turns, |turns| - 1)
    ensures
      var s, s' := Sweep(w, d, turns[..|turns| - 1]), Sweep(w, d, turns);
      !s'.broken ==> s'.executed + s'.failed == s.executed + s.failed + 1
  {}

  predicate SomeBreaks(w: World, d: Desk, turns: seq<Turn>)
    requires Listed(d, turns)
  {
    exists k :: 0 <= k < |turns| && BreaksAt(w, d, turns, k)
  }

  lemma SomeBreaksLast(w: World, d: Desk, turns: seq<Turn>)
    requires Listed(d, turns) && turns != []
    ensures SomeBreaks(w, d, turns) <==> SomeBreaks(w, d, turns[..|turns| - 1]) || BreaksAt(w, d, turns, |turns| - 1)
  {
    var front := turns[..|turns| - 1];
    if SomeBreaks(w, d, turns) {
      var k :| 0 <= k < |turns| && BreaksAt(w, d, turns, k);
      if k < |front| {
        BreaksInFront(w, d, turns, k);
      }
    }
    if SomeBreaks(w, d, front) {
      var k :| 0 <= k < |front| && BreaksAt(w, d, front, k);
      BreaksInFront(w, d, turns, k);
    }
  }

  /** A sweep is broken exactly when some turn breaks it; otherwise it processes every schedule listed. */
  lemma {:induction false} SweepBreaksExactly(w: World, d: Desk, turns: seq<Turn>)
    requires Listed(d, turns)
    ensures Sweep(w, d, turns).broken <==> SomeBreaks(w, d, turns)
    ensures !Sweep(w, d, turns).broken ==> Sweep(w, d, turns).executed + Sweep(w, d, turns).failed == |turns|
  {
    if turns != [] {
      SweepBreaksExactly(w, d, turns[..|turns| - 1]);
      BreaksLast(w, d, turns);
      SomeBreaksLast(w, d, turns);
    }
  }

  // ---- Histories -------------------------------------------------------------------------------

  /** A processed run: when it was due, when it was processed, and the transaction if it paid or the failure if it did not. */
  datatype Processed = Processed(schedule: ScheduleId, due: int, at: int, paid: Option<TxnId>, failure: Option<Failure>)

  function TurnRuns(w: World, s: Sweeping, turn: Turn, now: int): (runs: seq<Processed>)
    requires turn.schedule in s.desk.schedules
    ensures |runs| <= 1 && forall run | run in runs :: run.schedule == turn.schedule
  {
    if s.broken || turn.crash then []
    else
      var schedule := s.desk.schedules[turn.schedule];
      match AttemptOf(w, s.desk, turn)
      case Paid(_) => [Processed(turn.schedule, schedule.nextRun, now, Some(turn.id), None)]
      case Unpaid(reason) => [Processed(turn.schedule, schedule.nextRun, now, None, Some(reason))]
      case Broken => []
  }

  /** The runs that a sweep processes. */
  function SweepRuns(w: World, d: Desk, turns: seq<Turn>, now: int): seq<Processed>
    requires Listed(d, turns)
  {
    if turns == [] then []
    else
      var front := turns[..|turns| - 1];
      SweepRuns(w, d, front, now) + TurnRuns(w, Sweep(w, d, front), turns[|turns| - 1], now)
  }

  /** The desk with its history: the first run date of every schedule, and the runs processed so far. */
  datatype Office = Office(desk: Desk, first: map<ScheduleId, int>, runs: seq<Processed>)

  /** What each turn sees is what some session could see: only statuses, balances and versions are stale. */
  predicate Plausible(w: World, d: Desk, turns: seq<Turn>)
    requires Listed(d, turns)
  {
    turns == [] ||
    var front, last := turns[..|turns| - 1], turns[|turns| - 1];
    && Plausible(w, d, front)
    && (last.seen.Some? ==> Sees(last.seen.value, Meanwhile(Sweep(w, d, front).desk.bank, last.meanwhile).rows))
  }

  /** The turns list every due schedule once, in whatever order, and no other. */
  predicate ListsDue(d: Desk, turns: seq<Turn>, now: int) {
    Distinct(turns) && (set turn | turn in turns :: turn.schedule) == Due(d, now)
  }

  datatype Event =
    | Opened(schedule: ScheduleId, terms: Schedule)
    | Cancelled(schedule: ScheduleId)
    | Swept(world: World, now: int, turns: seq<Turn>)
    | Acted(action: Action)

  predicate CanHappen(o: Office, e: Event) {
    match e
    case Opened(i, terms) =>
      i !in o.desk.schedules && terms.active && terms.lastTransaction.None? && terms.lastFailure.None?
    case Cancelled(i) => i in o.desk.schedules
    case Swept(w, now, turns) =>
      && ListsDue(o.desk, turns, now) && Listed(o.desk, turns) && Plausible(w, o.desk, turns)
    case Acted(action) => Can(o.desk.bank, action)
  }

  function AfterTurns(w: World, o: Office, turns: seq<Turn>, now: int): Office
    requires Listed(o.desk, turns)
  {
    Office(Sweep(w, o.desk, turns).desk, o.first, o.runs + SweepRuns(w, o.desk, turns, now))
  }

  function Happen(o: Office, e: Event): Office
    requires CanHappen(o, e)
  {
    match e
    case Opened(i, terms) =>
      o.(desk := o.desk.(schedules := o.desk.schedules[i := terms]), first := o.first[i := terms.nextRun])
    case Cancelled(i) =>
      o.(desk := o.desk.(schedules := o.desk.schedules[i := o.desk.schedules[i].(active := false)]))
    case Swept(w, now, turns) => AfterTurns(w, o, turns, now)
    case Acted(action) => o.(desk := o.desk.(bank := Do(o.desk.bank, action)))
  }

  function CountRuns(runs: seq<Processed>, i: ScheduleId): nat {
    if runs == [] then 0
    else CountRuns(runs[..|runs| - 1], i) + if runs[|runs| - 1].schedule == i then 1 else 0
  }

  /** The transaction of the last run of i that paid. */
  function LastPaid(runs: seq<Processed>, i: ScheduleId): Option<TxnId> {
    if runs == [] then None
    else
      var last := runs[|runs| - 1];
      if last.schedule == i && last.paid.Some? then last.paid else LastPaid(runs[..|runs| - 1], i)
  }

  /** The failure of the last run of i, if it failed. */
  function LastFailed(runs: seq<Processed>, i: ScheduleId): Option<Failure> {
    if runs == [] then None
    else
      var last := runs[|runs| - 1];
      if last.schedule == i then last.failure else LastFailed(runs[..|runs| - 1], i)
  }

  /** How many runs of i were processed by time t. */
  function CountBy(runs: seq<Processed>, i: ScheduleId, t: int): nat {
    if runs == [] then 0
    else CountBy(runs[..|runs| - 1], i, t) + if runs[|runs| - 1].schedule == i && runs[|runs| - 1].at <= t then 1 else 0
  }

  predicate ScheduleOk(o: Office, i: ScheduleId)
    requires i in o.desk.schedules
  {
    && i in o.first
    && o.desk.schedules[i].nextRun == o.first[i] + CountRuns(o.runs, i) * Period(o.desk.schedules[i].frequency)
    && o.desk.schedules[i].lastTransaction == LastPaid(o.runs, i)
    && o.desk.schedules[i].lastFailure == LastFailed(o.runs, i)
  }

  predicate RunOk(o: Office, n: nat)
    requires n < |o.runs|
  {
    var run := o.runs[n];
    && run.schedule in o.desk.schedules && run.schedule in o.first
    && var s := o.desk.schedules[run.schedule];
    && run.due == o.first[run.schedule] + CountRuns(o.runs[..n], run.schedule) * Period(s.frequency)
    && run.due <= run.at
    && (run.paid.Some? ==> MovedOnce(o.desk.bank, s, run.paid.value))
  }

  predicate PaidApart(o: Office) {
    forall m, n | 0 <= m < n < |o.runs| && o.runs[m].paid.Some? :: o.runs[m].paid != o.runs[n].paid
  }

  ghost predicate OfficeOk(o: Office) {
    && BankInv(o.desk.bank) && Conserved(o.desk.bank)
    && (forall i | i in o.desk.schedules :: ScheduleOk(o, i))
    && (forall i | i !in o.desk.schedules ::
          CountRuns(o.runs, i) == 0 && LastPaid(o.runs, i) == None && LastFailed(o.runs, i) == None)
    && (forall n | 0 <= n < |o.runs| :: RunOk(o, n))
    && PaidApart(o)
  }

  lemma MovedOnceStays(b: Bank, b': Bank, s: Schedule, s': Schedule, id: TxnId)
    requires Monotone(b, b') && MovedOnce(b, s, id)
    requires s'.sender == s.sender && s'.amount == s.amount
    ensures MovedOnce(b', s', id)
  {
    assert TxnMonotone(b, b', id);
  }

  /** The same schedule, later: its terms have not changed. */
  predicate SameTerms(s: Schedule, s': Schedule) {
    && s'.customer == s.customer && s'.sender == s.sender && s'.receiver == s.receiver
    && s'.amount == s.amount && s'.currency == s.currency && s'.frequency == s.frequency
  }

  /** Runs stay right while the bank goes on and schedules keep their terms. */
  lemma RunsStay(o: Office, o': Office, n: nat)
    requires n < |o.runs| && RunOk(o, n) && o.runs <= o'.runs
    requires Monotone(o.desk.bank, o'.desk.bank)
    requires o.runs[n].schedule in o'.desk.schedules && o.runs[n].schedule in o'.first
    requires o'.first[o.runs[n].schedule] == o.first[o.runs[n].schedule]
    requires SameTerms(o.desk.schedules[o.runs[n].schedule], o'.desk.schedules[o.runs[n].schedule])
    ensures RunOk(o', n)
  {
    assert o'.runs[..n] == o.runs[..n];
    var run := o.runs[n];
    if run.paid.Some? {
      MovedOnceStays(o.desk.bank, o'.desk.bank, o.desk.schedules[run.schedule], o'.desk.schedules[run.schedule], run.paid.value);
    }
  }

  lemma CountSnoc(runs: seq<Processed>, run: Processed, i: ScheduleId)
    ensures CountRuns(runs + [run], i) == CountRuns(runs, i) + if run.schedule == i then 1 else 0
    ensures LastPaid(runs + [run], i) == if run.schedule == i && run.paid.Some? then run.paid else LastPaid(runs, i)
    ensures LastFailed(runs + [run], i) == if run.schedule == i then run.failure else LastFailed(runs, i)
  {
    assert (runs + [run])[..|runs|] == runs;
  }

  /** One more run of one schedule. */
  lemma RunAppended(o: Office, o': Office, run: Processed)
    requires OfficeOk(o)
    requires o'.first == o.first && o'.runs == o.runs + [run]
    requires BankInv(o'.desk.bank) && Conserved(o'.desk.bank) && Monotone(o.desk.bank, o'.desk.bank)
    requires run.schedule in o.desk.schedules && run.schedule in o'.desk.schedules
    requires o'.desk.schedules == o.desk.schedules[run.schedule := o'.desk.schedules[run.schedule]]
    requires SameTerms(o.desk.schedules[run.schedule], o'.desk.schedules[run.schedule])
    requires o'.desk.schedules[run.schedule].nextRun == o.desk.schedules[run.schedule].nextRun + Period(o.desk.schedules[run.schedule].frequency)
    requires o'.desk.schedules[run.schedule].lastFailure == run.failure
    requires o'.desk.schedules[run.schedule].lastTransaction ==
               if run.paid.Some? then run.paid else o.desk.schedules[run.schedule].lastTransaction
    requires run.due == o.desk.schedules[run.schedule].nextRun <= run.at
    requires run.paid.Some? ==>
               run.paid.value !in o.desk.bank.rows.txns && MovedOnce(o'.desk.bank, o.desk.schedules[run.schedule], run.paid.value)
    ensures OfficeOk(o')
  {
    forall i | i in o'.desk.schedules ensures ScheduleOk(o', i) {
      CountSnoc(o.runs, run, i);
      assert ScheduleOk(o, i);
    }
    forall i | i !in o'.desk.schedules
      ensures CountRuns(o'.runs, i) == 0 && LastPaid(o'.runs, i) == None && LastFailed(o'.runs, i) == None
    {
      CountSnoc(o.runs, run, i);
    }
    forall n | 0 <= n < |o'.runs| ensures RunOk(o', n) {
      if n < |o.runs| {
        assert RunOk(o, n);
        RunsStay(o, o', n);
      } else {
        assert o'.runs[..n] == o.runs;
        assert ScheduleOk(o, run.schedule);
      }
    }
    forall m, n | 0 <= m < n < |o'.runs| && o'.runs[m].paid.Some? ensures o'.runs[m].paid != o'.runs[n].paid {
      assert RunOk(o, m);
    }
  }

  /** Changes that process no run. */
  lemma NoRunKeepsOffice(o: Office, o': Office)
    requires OfficeOk(o) && o'.runs == o.runs
    requires BankInv(o'.desk.bank) && Conserved(o'.desk.bank) && Monotone(o.desk.bank, o'.desk.bank)
    requires forall i | i in o.desk.schedules ::
               && i in o'.desk.schedules && i in o'.first && o'.first[i] == o.first[i]
               && SameTerms(o.desk.schedules[i], o'.desk.schedules[i])
               && o'.desk.schedules[i].nextRun == o.desk.schedules[i].nextRun
               && o'.desk.schedules[i].lastTransaction == o.desk.schedules[i].lastTransaction
               && o'.desk.schedules[i].lastFailure == o.desk.schedules[i].lastFailure
    requires forall i | i in o'.desk.schedules && i !in o.desk.schedules ::
               && i in o'.first && o'.desk.schedules[i].nextRun == o'.first[i]
               && o'.desk.schedules[i].lastTransaction.None? && o'.desk.schedules[i].lastFailure.None?
    ensures OfficeOk(o')
  {
    forall i | i in o'.desk.schedules ensures ScheduleOk(o', i) {
      if i in o.desk.schedules {
        assert ScheduleOk(o, i);
      }
    }
    forall n | 0 <= n < |o'.runs| ensures RunOk(o', n) {
      assert RunOk(o, n);
      RunsStay(o, o', n);
    }
  }

  /** One turn of a sweep. */
  lemma TurnKeepsOffice(w: World, s: Sweeping, o: Office, o': Office, turn: Turn, now: int)
    requires OfficeOk(o) && o.desk == s.desk && turn.schedule in s.desk.schedules
    requires s.desk.schedules[turn.schedule].nextRun <= now
    requires turn.seen.Some? ==> Sees(turn.seen.value, Meanwhile(s.desk.bank, turn.meanwhile).rows)
    requires o' == Office(TakeTurn(w, s, turn).desk, o.first, o.runs + TurnRuns(w, s, turn, now))
    ensures OfficeOk(o')
  {
    TurnKeepsBank(w, s.desk, turn);
    var runs := TurnRuns(w, s, turn, now);
    if runs == [] {
      assert o.runs + runs == o.runs;
      MonotoneReflexive(o.desk.bank);
      NoRunKeepsOffice(o, o');
    } else {
      assert runs == [runs[0]];
      RunAppended(o, o', runs[0]);
    }
  }

  lemma LastIsUntouched(w: World, d: Desk, turns: seq<Turn>)
    requires turns != [] && Distinct(turns) && Listed(d, turns)
    ensures
      var last := turns[|turns| - 1];
      && last.schedule in d.schedules && last.schedule in Sweep(w, d, turns[..|turns| - 1]).desk.schedules
      && Sweep(w, d, turns[..|turns| - 1]).desk.schedules[last.schedule] == d.schedules[last.schedule]
  {
    var front, last := turns[..|turns| - 1], turns[|turns| - 1];
    assert last in turns;
    assert !InTurns(front, last.schedule);
    UntouchedByTurns(w, d, front, last.schedule);
  }

  lemma AfterOneMore(w: World, o: Office, turns: seq<Turn>, now: int)
    requires turns != [] && Listed(o.desk, turns)
    ensures
      var front, last := turns[..|turns| - 1], turns[|turns| - 1];
      var s, mid := Sweep(w, o.desk, front), AfterTurns(w, o, front, now);
      && last.schedule in s.desk.schedules
      && AfterTurns(w, o, turns, now) == Office(TakeTurn(w, s, last).desk, o.first, mid.runs + TurnRuns(w, s, last, now))
  {
    assert turns[|turns| - 1] in turns;
  }

  lemma {:induction false} TurnsKeepOffice(w: World, o: Office, turns: seq<Turn>, now: int)
    requires OfficeOk(o) && Distinct(turns) && Listed(o.desk, turns) && Plausible(w, o.desk, turns)
    requires forall turn | turn in turns :: turn.schedule in Due(o.desk, now)
    ensures OfficeOk(AfterTurns(w, o, turns, now))
  {
    if turns == [] {
      assert AfterTurns(w, o, turns, now) == o;
    } else {
      var front, last := turns[..|turns| - 1], turns[|turns| - 1];
      TurnsKeepOffice(w, o, front, now);
      var s := Sweep(w, o.desk, front);
      LastIsUntouched(w, o.desk, turns);
      AfterOneMore(w, o, turns, now);
      TurnKeepsOffice(w, s, AfterTurns(w, o, front, now), AfterTurns(w, o, turns, now), last, now);
    }
  }

  lemma DueAreListed(d: Desk, turns: seq<Turn>, now: int)
    requires ListsDue(d, turns, now)
    ensures forall turn | turn in turns :: turn.schedule in Due(d, now)
    ensures forall i :: i in Due(d, now) <==> InTurns(turns, i)
  {
    var listed := set turn | turn in turns :: turn.schedule;
    forall turn | turn in turns ensures turn.schedule in Due(d, now) {
      assert turn.schedule in listed;
    }
  }

  lemma EventKeepsOffice(o: Office, e: Event)
    requires OfficeOk(o) && CanHappen(o, e)
    ensures OfficeOk(Happen(o, e))
  {
    match e
    case Swept(w, now, turns) =>
      DueAreListed(o.desk, turns, now);
      TurnsKeepOffice(w, o, turns, now);
    case Acted(action) =>
      ActionKeepsAll(o.desk.bank, action);
      NoRunKeepsOffice(o, Happen(o, e));
    case _ =>
      MonotoneReflexive(o.desk.bank);
      NoRunKeepsOffice(o, Happen(o, e));
  }

  predicate CanHistory(o: Office, events: seq<Event>)
    decreases |events|
  {
    events == [] || (CanHappen(o, events[0]) && CanHistory(Happen(o, events[0]), events[1..]))
  }

  function History(o: Office, events: seq<Event>): Office
    requires CanHistory(o, events)
    decreases |events|
  {
    if events == [] then o else History(Happen(o, events[0]), events[1..])
  }

  const EMPTY_OFFICE := Office(Desk(EMPTY_BANK, map[]), map[], [])

  lemma {:induction false} HistoryKeepsOffice(o: Office, events: seq<Event>)
    requires OfficeOk(o) && CanHistory(o, events)
    ensures OfficeOk(History(o, events))
    decreases |events|
  {
    if events != [] {
      EventKeepsOffice(o, events[0]);
      HistoryKeepsOffice(Happen(o, events[0]), events[1..]);
    }
  }

  lemma EveryHistoryIsGood(events: seq<Event>)
    requires CanHistory(EMPTY_OFFICE, events)
    ensures OfficeOk(History(EMPTY_OFFICE, events))
  {
    EmptyBankIsGood();
    HistoryKeepsOffice(EMPTY_OFFICE, events);
  }

  /** After k processed runs, paid or not, the next run is k periods after the first. */
  lemma NextRunTellsRuns(events: seq<Event>, i: ScheduleId)
    requires CanHistory(EMPTY_OFFICE, events) && i in History(EMPTY_OFFICE, events).desk.schedules
    ensures
      var o := History(EMPTY_OFFICE, events);
      && i in o.first
      && o.desk.schedules[i].nextRun == o.first[i] + CountRuns(o.runs, i) * Period(o.desk.schedules[i].frequency)
  {
    EveryHistoryIsGood(events);
    assert ScheduleOk(History(EMPTY_OFFICE, events), i);
  }

  /** No run is early: the k-th one is processed at first + k periods or later. */
  lemma NoRunIsEarly(events: seq<Event>, n: nat)
    requires CanHistory(EMPTY_OFFICE, events) && n < |History(EMPTY_OFFICE, events).runs|
    ensures
      var o := History(EMPTY_OFFICE, events);
      var i := o.runs[n].schedule;
      && i in o.first && i in o.desk.schedules
      && o.first[i] + CountRuns(o.runs[..n], i) * Period(o.desk.schedules[i].frequency) <= o.runs[n].at
  {
    EveryHistoryIsGood(events);
    assert RunOk(History(EMPTY_OFFICE, events), n);
  }

  lemma {:induction false} CountByIsFewer(runs: seq<Processed>, i: ScheduleId, t: int)
    ensures CountBy(runs, i, t) <= CountRuns(runs, i)
  {
    if runs != [] {
      CountByIsFewer(runs[..|runs| - 1], i, t);
    }
  }

  lemma Quotient(k: nat, p: nat, x: int)
    requires p > 0 && k * p <= x
    ensures k <= x / p
  {
    ProductMonotone(x / p + 1, k, p);
  }

  /** Whatever the clock of the sweeps does, by time t there are at most floor((t - first) / period) + 1 runs. */
  lemma {:induction false} RunsByTime(o: Office, n: nat, i: ScheduleId, t: int)
    requires OfficeOk(o) && i in o.desk.schedules && n <= |o.runs|
    ensures
      var p := Period(o.desk.schedules[i].frequency);
      i in o.first && CountBy(o.runs[..n], i, t) <= if t < o.first[i] then 0 else (t - o.first[i]) / p + 1
  {
    assert ScheduleOk(o, i);
    var p := Period(o.desk.schedules[i].frequency);
    if n > 0 {
      RunsByTime(o, n - 1, i, t);
      assert o.runs[..n][..n - 1] == o.runs[..n - 1];
      var run := o.runs[n - 1];
      if run.schedule == i && run.at <= t {
        assert RunOk(o, n - 1);
        var k := CountRuns(o.runs[..n - 1], i);
        CountByIsFewer(o.runs[..n - 1], i, t);
        Quotient(k, p, t - o.first[i]);
      }
    }
  }

  lemma AttemptsByTime(events: seq<Event>, i: ScheduleId, t: int)
    requires CanHistory(EMPTY_OFFICE, events) && i in History(EMPTY_OFFICE, events).desk.schedules
    ensures
      var o := History(EMPTY_OFFICE, events);
      var p := Period(o.desk.schedules[i].frequency);
      i in o.first && CountBy(o.runs, i, t) <= if t < o.first[i] then 0 else (t - o.first[i]) / p + 1
  {
    EveryHistoryIsGood(events);
    var o := History(EMPTY_OFFICE, events);
    RunsByTime(o, |o.runs|, i, t);
    assert o.runs[..|o.runs|] == o.runs;
  }

  /** Every run that paid has its own transaction, which moved the schedule's amount exactly once. */
  lemma PaidRunsMoveOnce(events: seq<Event>, n: nat)
    requires CanHistory(EMPTY_OFFICE, events) && n < |History(EMPTY_OFFICE, events).runs|
    ensures
      var o := History(EMPTY_OFFICE, events);
      && o.runs[n].schedule in o.desk.schedules
      && (o.runs[n].paid.Some? ==>
            && MovedOnce(o.desk.bank, o.desk.schedules[o.runs[n].schedule], o.runs[n].paid.value)
            && forall m | 0 <= m < |o.runs| && m != n :: o.runs[m].paid != o.runs[n].paid)
  {
    EveryHistoryIsGood(events);
    var o := History(EMPTY_OFFICE, events);
    assert RunOk(o, n);
  }

  lemma MoreRuns(runs: seq<Processed>, more: seq<Processed>, j: ScheduleId, i: ScheduleId)
    requires |more| <= 1 && i != j && forall run | run in more :: run.schedule == j
    ensures CountRuns(runs + more, i) == CountRuns(runs, i)
  {
    if more == [] {
      assert runs + more == runs;
    } else {
      assert more == [more[0]];
      CountSnoc(runs, more[0], i);
    }
  }

  lemma {:induction false} NotRun(w: World, o: Office, turns: seq<Turn>, now: int, i: ScheduleId)
    requires Listed(o.desk, turns) && !InTurns(turns, i)
    ensures CountRuns(AfterTurns(w, o, turns, now).runs, i) == CountRuns(o.runs, i)
  {
    if turns == [] {
      assert AfterTurns(w, o, turns, now).runs == o.runs;
    } else {
      var front, last := turns[..|turns| - 1], turns[|turns| - 1];
      FrontNotIn(turns, i);
      NotRun(w, o, front, now, i);
      MoreRuns(AfterTurns(w, o, front, now).runs, TurnRuns(w, Sweep(w, o.desk, front), last, now), last.schedule, i);
      assert AfterTurns(w, o, turns, now).runs
          == AfterTurns(w, o, front, now).runs + TurnRuns(w, Sweep(w, o.desk, front), last, now);
    }
  }

  /** A cancelled schedule is never processed again. */
  lemma {:induction false} CancelledStaysSilent(o: Office, events: seq<Event>, i: ScheduleId)
    requires CanHistory(o, events) && i in o.desk.schedules && !o.desk.schedules[i].active
    ensures i in History(o, events).desk.schedules && History(o, events).desk.schedules[i] == o.desk.schedules[i]
    ensures CountRuns(History(o, events).runs, i) == CountRuns(o.runs, i)
    decreases |events|
  {
    if events != [] {
      var e := events[0];
      if e.Swept? {
        DueAreListed(o.desk, e.turns, e.now);
        assert i !in Due(o.desk, e.now);
        UntouchedByTurns(e.world, o.desk, e.turns, i);
        NotRun(e.world, o, e.turns, e.now, i);
      }
      CancelledStaysSilent(Happen(o, e), events[1..], i);
    }
  }

  // ---- What a schedule may count on ------------------------------------------------------------

  /** Sweeps change neither the terms of a schedule nor whether it is active. */
  lemma {:induction false} SweepKeepsTerms(w: World, d: Desk, turns: seq<Turn>, i: ScheduleId)
    requires Listed(d, turns) && i in d.schedules
    ensures
      var s' := Sweep(w, d, turns).desk.schedules[i];
      SameTerms(d.schedules[i], s') && s'.active == d.schedules[i].active
  {
    if turns != [] {
      SweepKeepsTerms(w, d, turns[..|turns| - 1], i);
    }
  }

  /**
   A schedule that nobody cancels keeps exactly its terms, and stays active if it was: whatever has
   failed, it is due again from its next run on.
   */
  lemma {:induction false} KeptUntilCancelled(o: Office, events: seq<Event>, i: ScheduleId)
    requires CanHistory(o, events) && i in o.desk.schedules && Cancelled(i) !in events
    ensures i in History(o, events).desk.schedules
    ensures
      var s, s' := o.desk.schedules[i], History(o, events).desk.schedules[i];
      SameTerms(s, s') && s'.active == s.active
    decreases |events|
  {
    if events != [] {
      var e := events[0];
      if e.Swept? {
        SweepKeepsTerms(e.world, o.desk, e.turns, i);
      }
      KeptUntilCancelled(Happen(o, e), events[1..], i);
    }
  }

  /** When list_due selects a schedule. */
  lemma DueExactly(d: Desk, i: ScheduleId, t: int)
    requires i in d.schedules
    ensures i in Due(d, t) <==> d.schedules[i].active && d.schedules[i].nextRun <= t
  {}

  /** A schedule opened and not cancelled since is due at every time from its next run on. */
  lemma DueUntilCancelled(before: seq<Event>, i: ScheduleId, terms: Schedule, after: seq<Event>, t: int)
    requires CanHistory(EMPTY_OFFICE, before) && CanHappen(History(EMPTY_OFFICE, before), Opened(i, terms))
    requires CanHistory(Happen(History(EMPTY_OFFICE, before), Opened(i, terms)), after) && Cancelled(i) !in after
    ensures
      var o := History(Happen(History(EMPTY_OFFICE, before), Opened(i, terms)), after);
      && i in o.desk.schedules && SameTerms(terms, o.desk.schedules[i])
      && (i in Due(o.desk, t) <==> o.desk.schedules[i].nextRun <= t)
  {
    KeptUntilCancelled(Happen(History(EMPTY_OFFICE, before), Opened(i, terms)), after, i);
  }

  /** A schedule shows the transaction of its last run that paid, and the failure of its last run if that failed. */
  lemma RecordsTellRuns(events: seq<Event>, i: ScheduleId)
    requires CanHistory(EMPTY_OFFICE, events) && i in History(EMPTY_OFFICE, events).desk.schedules
    ensures
      var o := History(EMPTY_OFFICE, events);
      && o.desk.schedules[i].lastTransaction == LastPaid(o.runs, i)
      && o.desk.schedules[i].lastFailure == LastFailed(o.runs, i)
  {
    EveryHistoryIsGood(events);
    assert ScheduleOk(History(EMPTY_OFFICE, events), i);
  }

  function PaidCount(runs: seq<Processed>): nat {
    if runs == [] then 0 else PaidCount(runs[..|runs| - 1]) + if runs[|runs| - 1].paid.Some? then 1 else 0
  }

  lemma PaidSnoc(runs: seq<Processed>, more: seq<Processed>)
    requires |more| <= 1
    ensures PaidCount(runs + more) == PaidCount(runs) + PaidCount(more)
  {
    if more == [] {
      assert runs + more == runs;
    } else {
      assert (runs + more)[..|runs|] == runs && more[..0] == [];
    }
  }

  /** The counters of a sweep: the runs that paid, and those that did not. */
  lemma {:induction false} CountersTellRuns(w: World, d: Desk, turns: seq<Turn>, now: int)
    requires Listed(d, turns)
    ensures
      var s, runs := Sweep(w, d, turns), SweepRuns(w, d, turns, now);
      s.executed == PaidCount(runs) && s.executed + s.failed == |runs|
  {
    if turns != [] {
      var front, last := turns[..|turns| - 1], turns[|turns| - 1];
      CountersTellRuns(w, d, front, now);
      assert last in turns;
      var more := TurnRuns(w, Sweep(w, d, front), last, now);
      PaidSnoc(SweepRuns(w, d, front, now), more);
      assert more != [] ==> more[..0] == [] && more[|more| - 1] == more[0];
    }
  }

  /** A sweep that does not break runs every schedule that is due once, and no other. */
  lemma {:induction false} RunsListed(w: World, o: Office, turns: seq<Turn>, now: int, i: ScheduleId)
    requires Listed(o.desk, turns) && Distinct(turns) && !Sweep(w, o.desk, turns).broken
    ensures CountRuns(AfterTurns(w, o, turns, now).runs, i) == CountRuns(o.runs, i) + if InTurns(turns, i) then 1 else 0
  {
    if turns == [] {
      assert AfterTurns(w, o, turns, now).runs == o.runs;
    } else {
      var front, last := turns[..|turns| - 1], turns[|turns| - 1];
      assert last in turns;
      RunsListed(w, o, front, now, i);
      AfterOneMore(w, o, turns, now);
      var runs, more := AfterTurns(w, o, front, now).runs, TurnRuns(w, Sweep(w, o.desk, front), last, now);
      assert more == [more[0]];
      CountSnoc(runs, more[0], i);
      assert InTurns(turns, i) <==> InTurns(front, i) || last.schedule == i by {
        if InTurns(turns, i) && last.schedule != i {
          var turn :| turn in turns && turn.schedule == i;
          assert turn in front;
        }
      }
      assert !InTurns(front, last.schedule);
    }
  }

  /**
   After an unbroken sweep every schedule that was active with its next run by now has one run more,
   and no other schedule has.
   */
  lemma SweepRunsDue(o: Office, w: World, now: int, turns: seq<Turn>, i: ScheduleId)
    requires CanHappen(o, Swept(w, now, turns)) && !Sweep(w, o.desk, turns).broken && i in o.desk.schedules
    ensures
      var due := o.desk.schedules[i].active && o.desk.schedules[i].nextRun <= now;
      CountRuns(Happen(o, Swept(w, now, turns)).runs, i) == CountRuns(o.runs, i) + if due then 1 else 0
  {
    DueAreListed(o.desk, turns, now);
    DueExactly(o.desk, i, now);
    RunsListed(w, o, turns, now, i);
  }

  // ---- What an attempt answers -----------------------------------------------------------------

  /**
   An attempt fails for a missing customer, or with the domain error of the first check that fails on
   what was seen; otherwise it pays, unless it breaks.
   */
  lemma AttemptAnswers(w: World, view: Tables, b: Bank, s: Schedule, id: TxnId)
    ensures
      if s.customer !in w.customers then Attempted(w, view, b, s, id) == Unpaid(CustomerMissing)
      else
        match FirstFailing(RequestChecks(view, RequestOf(w, view, s)))
        case Some(e) => Attempted(w, view, b, s, id) == Unpaid(DomainError(e))
        case None => !Attempted(w, view, b, s, id).Unpaid?
  {
    SchedulingRefusesFirst(view, b, id, RequestOf(w, view, s));
  }

  /** What a schedule asks for: its own terms, the account with its number, and the active rate between the two currencies. */
  lemma RequestTold(w: World, rows: Tables, s: Schedule)
    ensures
      var r := RequestOf(w, rows, s);
      && r.customer == s.customer && r.sender == s.sender && r.amount == s.amount && r.currency == s.currency
      && (s.receiver in w.numbers <==> r.receiver.Some?)
      && (r.receiver.Some? ==> r.receiver.value == w.numbers[s.receiver])
      && (r.receiver.Some? && r.receiver.value in rows.accounts && s.sender in rows.accounts ==>
            var pair := (rows.accounts[s.sender].currency, rows.accounts[r.receiver.value].currency);
            r.rate == if pair in w.rates then Some(w.rates[pair]) else None)
  {}

  /** Periods in seconds: a day, seven days, thirty days. */
  lemma PeriodsInSeconds()
    ensures Period(Daily) == 24 * 60 * 60 && Period(Weekly) == 7 * Period(Daily) && Period(Monthly) == 30 * Period(Daily)
  {}
}
