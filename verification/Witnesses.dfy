/** Concrete runs from the empty system that reach what the code does not promise. */
module Witnesses {
  import opened Basics
  import opened Schema
  import opened Operations
  import opened Invariants
  import opened Transfers
  import opened Schedules
  import opened Refinement
  import Conversion
  import Interleaving
  import Race
  import Unrefreshed

  const AZN: Currency := "AZN"
  const USD: Currency := "USD"

  const OPENED := map[1 := AccountRow(7, AZN, 0, 0, Active), 2 := AccountRow(8, USD, 0, 0, Active)]

  /** Two accounts in different currencies, and 100 cents on the first. */
  const FUNDING: seq<Op> := [
    Administer(OpenAccount(1, 7, AZN)),
    Administer(OpenAccount(2, 8, USD)),
    Perform(DepositTo(1, 100, AZN), 5)]

  const FUNDED := Bank(
    Tables(
      map[1 := AccountRow(7, AZN, 100, 1, Active), 2 := AccountRow(8, USD, 0, 0, Active)],
      map[5 := NewTxn(Deposit, None, Some(1), 100, AZN).(status := Success)],
      map[]),
    [Entry(5, 1, Credit, 100, AZN, 0, 100)])

  lemma AfterSnoc(ops: seq<Op>, op: Op)
    ensures After(ops + [op]) == Step(After(ops), op).0
  {
    assert (ops + [op])[..|ops|] == ops;
  }

  lemma FirstDeposit()
    ensures
      Step(System(Bank(Tables(OPENED, map[], map[]), []), map[]), Perform(DepositTo(1, 100, AZN), 5)).0 == System(FUNDED, map[])
  {
    var b := Bank(Tables(OPENED, map[], map[]), []);
    var w := Movement(b.rows, 5, NewTxn(Deposit, None, Some(1), 100, AZN), AZN, AZN);
    assert w.entries == FUNDED.ledger;
    assert DecideNow(DepositTo(1, 100, AZN), 5, b) == Proceed(w);
    assert OPENED + w.accounts == FUNDED.rows.accounts;
  }

  lemma AfterFunding()
    ensures After(FUNDING) == System(FUNDED, map[])
  {
    var both := System(Bank(Tables(OPENED, map[], map[]), []), map[]);
    AfterSnoc([], FUNDING[0]);
    AfterSnoc([FUNDING[0]], FUNDING[1]);
    assert [] + [FUNDING[0]] == [FUNDING[0]];
    assert After([FUNDING[0]] + [FUNDING[1]]) == both;
    AfterSnoc([FUNDING[0]] + [FUNDING[1]], FUNDING[2]);
    FirstDeposit();
    assert [FUNDING[0]] + [FUNDING[1]] + [FUNDING[2]] == FUNDING;
  }

  // ---- Left PENDING ----------------------------------------------------------------------------

  /** One cent at a rate of a tenth. */
  const CENT_REQUEST := Request(7, 1, Some(2), 1, AZN, Some(10_000_000))

  function Initiated9(code: Code): seq<Op> {
    FUNDING + [InitiateTransfer(9, CENT_REQUEST, code, 0, 300)]
  }

  const CENT_ROW := NewTxn(Transfer, Some(1), Some(2), 1, AZN).(converted := Some(0))

  lemma AfterInitiating(code: Code)
    ensures After(Initiated9(code))
         == System(WithTxn(FUNDED, 9, CENT_ROW), map[9 := Challenge(code, 0, MAX_ATTEMPTS, 300, false)])
  {
    AfterFunding();
    AfterSnoc(FUNDING, InitiateTransfer(9, CENT_REQUEST, code, 0, 300));
    assert Conversion.Convert(1, 10_000_000) == 0 by {
      Conversion.ConvertFits(1, 10_000_000);
    }
  }

  /** The right code, in time, changes nothing: the transfer stays PENDING, whatever the code is. */
  lemma OneCentStaysPending(code: Code)
    ensures
      var s := After(Initiated9(code));
      && Confirming(s, 7, 9, code, 1) == (s, ServerError)
      && 9 in s.bank.rows.txns && s.bank.rows.txns[9].status == Pending
      && RejectedByDatabase(s.bank.rows, 9)
  {
    AfterInitiating(code);
    SerialRun(Initiated9(code));
    var s := After(Initiated9(code));
    LeftPendingExactly(s, 9);
  }

  // ---- A sweep that breaks ---------------------------------------------------------------------

  const TENTH := World({7}, map["AZ02BANK" := 2], map[(AZN, USD) := 10_000_000])
  const CENT_SCHEDULE := Schedule(7, 1, "AZ02BANK", 1, AZN, Daily, 0, true, None, None)

  lemma OneCentIsValid()
    ensures
      var v := Validate(FUNDED.rows, RequestOf(TENTH, FUNDED.rows, CENT_SCHEDULE));
      v.Valid? && Credited(v.row) == 0 && v.row.receiver == Some(2)
  {}

  lemma OneCentBreaks()
    ensures Attempted(TENTH, FUNDED.rows, FUNDED, CENT_SCHEDULE, 9).Broken?
  {
    OneCentIsValid();
    AfterFunding();
    SerialRun(FUNDING);
    AttemptBreaksExactly(TENTH, FUNDED.rows, FUNDED, CENT_SCHEDULE, 9);
  }

  /** One cent at a rate of a tenth rounds to nothing: a sweep that lists this schedule first pays nobody. */
  lemma OneCentBreaksSweep(others: map<ScheduleId, Schedule>, after: seq<Turn>)
    requires 1 !in others && forall turn | turn in after :: turn.schedule in others
    ensures
      var d := Desk(FUNDED, others[1 := CENT_SCHEDULE]);
      Listed(d, [Alone(1, 9)] + after) && Sweep(TENTH, d, [Alone(1, 9)] + after) == Sweeping(d, 0, 0, true)
  {
    var d := Desk(FUNDED, others[1 := CENT_SCHEDULE]);
    OneCentBreaks();
    assert [] + [Alone(1, 9)] + after == [Alone(1, 9)] + after;
    BrokenStopsSweep(TENTH, d, [], Alone(1, 9), after);
  }

  // ---- A reversal that is no inverse -----------------------------------------------------------

  /** Row 9: 100 cents at a rate of a half. */
  const HALF_REQUEST := Request(7, 1, Some(2), 100, AZN, Some(50_000_000))
  const HALF_ROW := NewTxn(Transfer, Some(1), Some(2), 100, AZN).(converted := Some(50))

  function Accounts(balance1: int, version1: int, balance2: int, version2: int): map<AccountId, AccountRow> {
    map[1 := AccountRow(7, AZN, balance1, version1, Active), 2 := AccountRow(8, USD, balance2, version2, Active)]
  }

  /** The second account has something of its own. */
  const BOTH_FUNDED := Bank(
    Tables(
      Accounts(100, 1, 200, 1),
      FUNDED.rows.txns[6 := NewTxn(Deposit, None, Some(2), 200, USD).(status := Success)],
      map[]),
    FUNDED.ledger + [Entry(6, 2, Credit, 200, USD, 0, 200)])

  const CONVERTED := Bank(
    Tables(Accounts(0, 2, 250, 2), BOTH_FUNDED.rows.txns[9 := HALF_ROW.(status := Success)], map[]),
    BOTH_FUNDED.ledger + [Entry(9, 1, Debit, 100, AZN, 100, 0), Entry(9, 2, Credit, 50, USD, 200, 250)])

  function HalfChallenge(code: Code, verified: bool): map<TxnId, Challenge> {
    map[9 := Challenge(code, 0, MAX_ATTEMPTS, 300, verified)]
  }

  lemma FundsBoth()
    ensures Step(System(FUNDED, map[]), Perform(DepositTo(2, 200, USD), 6)) == (System(BOTH_FUNDED, map[]), Done)
  {
    var t := NewTxn(Deposit, None, Some(2), 200, USD);
    var w := Movement(FUNDED.rows, 6, t, USD, USD);
    assert w.entries == [Entry(6, 2, Credit, 200, USD, 0, 200)];
    assert DecideNow(DepositTo(2, 200, USD), 6, FUNDED) == Proceed(w);
    assert FUNDED.rows.accounts + w.accounts == Accounts(100, 1, 200, 1);
    assert FUNDED.rows.txns + w.txns == BOTH_FUNDED.rows.txns;
  }

  lemma InitiatesHalf(code: Code)
    ensures Step(System(BOTH_FUNDED, map[]), InitiateTransfer(9, HALF_REQUEST, code, 0, 300))
         == (System(WithTxn(BOTH_FUNDED, 9, HALF_ROW), HalfChallenge(code, false)), Done)
  {
    assert Conversion.Convert(100, 50_000_000) == 50 by {
      Conversion.ConvertFits(100, 50_000_000);
    }
  }

  lemma ConfirmsHalf(code: Code)
    ensures Step(System(WithTxn(BOTH_FUNDED, 9, HALF_ROW), HalfChallenge(code, false)), ConfirmTransfer(7, 9, code, 1))
         == (System(CONVERTED, HalfChallenge(code, true)), Done)
  {
    var b := WithTxn(BOTH_FUNDED, 9, HALF_ROW);
    var w := Movement(b.rows, 9, HALF_ROW, AZN, USD);
    assert w.entries == [Entry(9, 1, Debit, 100, AZN, 100, 0), Entry(9, 2, Credit, 50, USD, 200, 250)];
    assert DecideConfirm(b.rows, 9) == Proceed(w);
    assert b.rows.accounts + w.accounts == Accounts(0, 2, 250, 2);
    assert b.rows.txns + w.txns == CONVERTED.rows.txns;
    assert HalfChallenge(code, false)[9 := HalfChallenge(code, false)[9].(verified := true)] == HalfChallenge(code, true);
  }

  lemma ReversesHalf(challenges: map<TxnId, Challenge>)
    ensures
      var (s, outcome) := Step(System(CONVERTED, challenges), Perform(Reverse(9), 10));
      && outcome == Done && s.bank.rows.accounts == Accounts(100, 3, 150, 3)
      && 9 in s.bank.rows.txns && s.bank.rows.txns[9].status == Reversed
  {
    var rows, t := CONVERTED.rows, ReversalOf(9, CONVERTED.rows.txns[9]);
    var w := Movement(rows, 10, t, AZN, AZN);
    assert w.entries == [Entry(10, 2, Debit, 100, AZN, 250, 150), Entry(10, 1, Credit, 100, AZN, 0, 100)];
    assert ChecksPass(t, w);
    assert !HasReversal(rows, 9);
    assert DecideNow(Reverse(9), 10, CONVERTED) == Proceed(w.(txns := w.txns[9 := rows.txns[9].(status := Reversed)]));
    assert rows.accounts + w.accounts == Accounts(100, 3, 150, 3);
  }

  function ConvertAndReverse(code: Code): seq<Op> {
    FUNDING + [Perform(DepositTo(2, 200, USD), 6)] + [InitiateTransfer(9, HALF_REQUEST, code, 0, 300)]
    + [ConfirmTransfer(7, 9, code, 1)] + [Perform(Reverse(9), 10)]
  }

  /** A converted transfer goes through and is reversed: the receiver, who had 200, is left with 150. */
  lemma ReversalTakesTooMuch(code: Code)
    ensures
      var before, after := After(FUNDING + [Perform(DepositTo(2, 200, USD), 6)]).bank, After(ConvertAndReverse(code)).bank;
      && before.rows.accounts == Accounts(100, 1, 200, 1)
      && after.rows.accounts == Accounts(100, 3, 150, 3)
      && 9 in after.rows.txns && after.rows.txns[9].status == Reversed
  {
    AfterFunding();
    AfterSnoc(FUNDING, Perform(DepositTo(2, 200, USD), 6));
    FundsBoth();
    var ops1 := FUNDING + [Perform(DepositTo(2, 200, USD), 6)];
    AfterSnoc(ops1, InitiateTransfer(9, HALF_REQUEST, code, 0, 300));
    InitiatesHalf(code);
    var ops2 := ops1 + [InitiateTransfer(9, HALF_REQUEST, code, 0, 300)];
    AfterSnoc(ops2, ConfirmTransfer(7, 9, code, 1));
    ConfirmsHalf(code);
    var ops3 := ops2 + [ConfirmTransfer(7, 9, code, 1)];
    AfterSnoc(ops3, Perform(Reverse(9), 10));
    ReversesHalf(HalfChallenge(code, true));
  }

  // ---- Two requests for one transfer -----------------------------------------------------------

  /** The transfer of 10 cents at a rate of a half, which the first account could pay twice. */
  const TEN_REQUEST := Request(7, 1, Some(2), 10, AZN, Some(50_000_000))
  const TEN_ROW := NewTxn(Transfer, Some(1), Some(2), 10, AZN).(converted := Some(5))

  function InitiatedTen(code: Code): seq<Op> {
    FUNDING + [InitiateTransfer(9, TEN_REQUEST, code, 0, 300)]
  }

  lemma AfterInitiatingTen(code: Code)
    ensures After(InitiatedTen(code)).bank == WithTxn(FUNDED, 9, TEN_ROW)
    ensures BankInv(WithTxn(FUNDED, 9, TEN_ROW))
  {
    AfterFunding();
    AfterSnoc(FUNDING, InitiateTransfer(9, TEN_REQUEST, code, 0, 300));
    assert Conversion.Convert(10, 50_000_000) == 5 by {
      Conversion.ConvertFits(10, 50_000_000);
    }
    SerialRun(InitiatedTen(code));
  }

  lemma TenIsPayable()
    ensures
      var b := WithTxn(FUNDED, 9, TEN_ROW);
      Unrefreshed.Copied(b, 9, TEN_ROW) && Unrefreshed.Carries(b, TEN_ROW, 2) && Can(b, Commit(Confirm(9), 11))
  {
    var b := WithTxn(FUNDED, 9, TEN_ROW);
    Unrefreshed.DecidesToPay(b, 9, TEN_ROW);
    assert WithTxn(b, 9, TEN_ROW) == b;
  }

  /** In a state that a serial run reaches, the late FAILED writer wins its race. */
  lemma RaceHappens(code: Code)
    ensures
      var m, events := Interleaving.Quiet(After(InitiatedTen(code)).bank), Race.Start(9) + (Race.Locks(3) + Race.Finale(11));
      CanPlay(m, events) && Race.FailedWithEntries(Play(m, events).db, 9)
  {
    AfterInitiatingTen(code);
    TenIsPayable();
    Race.RaceIsPossible(WithTxn(FUNDED, 9, TEN_ROW), 9, 11);
  }

  /** In the same state, without the refresh, the first account pays 20 cents for a transfer of 10. */
  lemma KeptCopiesPayTwenty(code: Code)
    ensures
      var m, events := Interleaving.Quiet(After(InitiatedTen(code)).bank), Unrefreshed.Double(9, 11);
      && Unrefreshed.CanPlayKeeping(m, events)
      && var rows := Unrefreshed.PlayKeeping(m, events).db.rows;
         1 in rows.accounts && rows.accounts[1].balance == 80
  {
    AfterInitiatingTen(code);
    TenIsPayable();
    Unrefreshed.KeptCopiesPayTwice(WithTxn(FUNDED, 9, TEN_ROW), 9, 11);
  }

  // ---- Sweeps again ----------------------------------------------------------------------------

  /** The desk after n sweeps over the same turns. */
  function Sweeps(w: World, d: Desk, turns: seq<Turn>, n: nat): (d': Desk)
    requires Listed(d, turns)
    ensures d'.schedules.Keys == d.schedules.Keys
  {
    if n == 0 then d else Sweep(w, Sweeps(w, d, turns, n - 1), turns).desk
  }

  /** The cent is tried by every one of n sweeps, each of which it breaks, and nothing ever changes. */
  lemma {:induction false} TriedForEver(others: map<ScheduleId, Schedule>, after: seq<Turn>, n: nat)
    requires 1 !in others && forall turn | turn in after :: turn.schedule in others
    ensures
      var d, turns := Desk(FUNDED, others[1 := CENT_SCHEDULE]), [Alone(1, 9)] + after;
      Listed(d, turns) && Sweeps(TENTH, d, turns, n) == d && Sweep(TENTH, d, turns).broken
  {
    OneCentBreaksSweep(others, after);
    if n > 0 {
      TriedForEver(others, after, n - 1);
    }
  }

  // ---- A record that is lost -------------------------------------------------------------------

  const HALVES := World({7}, map["AZ02BANK" := 2], map[("AZN", "USD") := 50_000_000])
  const TEN_SCHEDULE := Schedule(7, 1, "AZ02BANK", 10, AZN, Daily, 0, true, None, None)

  lemma TenIsValid(b: Bank)
    requires 1 in b.rows.accounts && 2 in b.rows.accounts
    requires b.rows.accounts[1].owner == 7 && b.rows.accounts[1].currency == AZN && b.rows.accounts[1].status == Active
    requires b.rows.accounts[2].currency == USD && b.rows.accounts[2].status == Active
    requires 10 <= b.rows.accounts[1].balance
    ensures Validate(b.rows, RequestOf(HALVES, b.rows, TEN_SCHEDULE)) == Validation.Valid(TEN_ROW)
  {
    assert Conversion.Convert(10, 50_000_000) == 5 by {
      Conversion.ConvertFits(10, 50_000_000);
    }
  }

  /** The two accounts as they are after the payments so far. */
  predicate Stands(b: Bank, balance1: int, balance2: int) {
    && 1 in b.rows.accounts && 2 in b.rows.accounts
    && b.rows.accounts[1].owner == 7 && b.rows.accounts[1].currency == AZN && b.rows.accounts[1].status == Active
    && b.rows.accounts[2].currency == USD && b.rows.accounts[2].status == Active
    && b.rows.accounts[1].balance == balance1 && b.rows.accounts[2].balance == balance2
  }

  lemma TenStands(b: Bank, id: TxnId, balance1: int, balance2: int)
    requires Stands(b, balance1, balance2) && id !in b.rows.txns
    ensures
      var b1 := WithTxn(b, id, TEN_ROW);
      && Unrefreshed.Copied(b1, id, TEN_ROW)
      && var b' := Publish(b1, Unrefreshed.Payment(b1, id, TEN_ROW));
      Stands(b', balance1 - 10, balance2 + 5) && b'.rows.txns.Keys == b.rows.txns.Keys + {id}
  {}

  /** One more payment of ten cents goes through, and debits ten. */
  lemma PaysTen(b: Bank, id: TxnId, balance1: int, balance2: int)
    requires Stands(b, balance1, balance2) && 10 <= balance1 < CENTS_LIMIT && 0 <= balance2 < CENTS_LIMIT - 5
    requires id !in b.rows.txns
    ensures
      var a := Attempted(HALVES, b.rows, b, TEN_SCHEDULE, id);
      a.Paid? && Stands(a.bank, balance1 - 10, balance2 + 5) && a.bank.rows.txns.Keys == b.rows.txns.Keys + {id}
  {
    TenIsValid(b);
    TenStands(b, id, balance1, balance2);
    var b1 := WithTxn(b, id, TEN_ROW);
    Unrefreshed.DecidesToPay(b1, id, TEN_ROW);
    assert WithTxn(b1, id, TEN_ROW) == b1;
  }

  /** The first turn crashes after its payment has been committed. */
  const CRASHED := Turn(1, 9, [], None, true)

  /** The crashed sweep: ten cents have moved, and the schedule is as it was. */
  lemma CrashPaysOnce(d: Desk)
    requires d == Desk(FUNDED, map[1 := TEN_SCHEDULE])
    ensures Listed(d, [CRASHED])
    ensures
      var d1 := Sweep(HALVES, d, [CRASHED]).desk;
      d1.schedules == d.schedules && Stands(d1.bank, 90, 5) && 10 !in d1.bank.rows.txns
  {
    PaysTen(FUNDED, 9, 100, 0);
    assert [CRASHED][..0] == [];
    assert Sweep(HALVES, d, [CRASHED]) == TakeTurn(HALVES, Sweeping(d, 0, 0, false), CRASHED);
  }

  lemma NextPays(d: Desk)
    requires d.schedules == map[1 := TEN_SCHEDULE] && Stands(d.bank, 90, 5) && 10 !in d.bank.rows.txns
    ensures Listed(d, [Alone(1, 10)])
    ensures
      var s := Sweep(HALVES, d, [Alone(1, 10)]);
      && s.executed == 1 && !s.broken && Stands(s.desk.bank, 80, 10)
      && 1 in s.desk.schedules && s.desk.schedules[1].nextRun == TEN_SCHEDULE.nextRun + Period(Daily)
  {
    PaysTen(d.bank, 10, 90, 5);
    assert [Alone(1, 10)][..0] == [];
    assert Sweep(HALVES, d, [Alone(1, 10)]) == TakeTurn(HALVES, Sweeping(d, 0, 0, false), Alone(1, 10));
  }

  /**
   A sweep that crashes between the two commits, and the next one: the customer has paid 20 cents for
   one date, and the schedule has one run recorded.
   */
  lemma CrashPaysTwice()
    ensures
      var d := Desk(FUNDED, map[1 := TEN_SCHEDULE]);
      && Listed(d, [CRASHED])
      && var d1 := Sweep(HALVES, d, [CRASHED]).desk;
      && d1.schedules == d.schedules && Listed(d1, [Alone(1, 10)])
      && var s := Sweep(HALVES, d1, [Alone(1, 10)]);
      && s.executed == 1 && !s.broken
      && Stands(s.desk.bank, 80, 10)
      && 1 in s.desk.schedules && s.desk.schedules[1].nextRun == TEN_SCHEDULE.nextRun + Period(Daily)
  {
    var d := Desk(FUNDED, map[1 := TEN_SCHEDULE]);
    CrashPaysOnce(d);
    NextPays(Sweep(HALVES, d, [CRASHED]).desk);
  }

  // ---- A view that is stale --------------------------------------------------------------------

  /** Everything is withdrawn between the validation of a scheduled payment and its locked step. */
  const OVERTAKEN := Turn(1, 9, [Commit(WithdrawFrom(1, 100, AZN), 20)], Some(FUNDED.rows), false)

  lemma WithdrawsAll()
    ensures
      var b := Meanwhile(FUNDED, OVERTAKEN.meanwhile);
      Can(FUNDED, OVERTAKEN.meanwhile[0]) && b == Do(FUNDED, OVERTAKEN.meanwhile[0]) && Stands(b, 0, 0) && Sees(FUNDED.rows, b.rows)
  {
    var w := Movement(FUNDED.rows, 20, NewTxn(Withdrawal, Some(1), None, 100, AZN), AZN, AZN);
    assert w.entries == [Entry(20, 1, Debit, 100, AZN, 100, 0)];
    assert DecideNow(WithdrawFrom(1, 100, AZN), 20, FUNDED) == Proceed(w);
  }

  /** The sweep breaks, where the customer's schedule should have failed for lack of funds. */
  lemma StaleViewBreaksSweep()
    ensures
      var d := Desk(FUNDED, map[1 := TEN_SCHEDULE]);
      && Listed(d, [OVERTAKEN]) && Plausible(HALVES, d, [OVERTAKEN])
      && Sweep(HALVES, d, [OVERTAKEN]).broken && Sweep(HALVES, d, [OVERTAKEN]).failed == 0
      && Sweep(HALVES, d, [OVERTAKEN]).desk.schedules == d.schedules
  {
    var d := Desk(FUNDED, map[1 := TEN_SCHEDULE]);
    WithdrawsAll();
    AfterFunding();
    SerialRun(FUNDING);
    var b := Meanwhile(FUNDED, OVERTAKEN.meanwhile);
    StepKeepsInv(FUNDED, OVERTAKEN.meanwhile[0]);
    TenIsValid(FUNDED);
    AttemptBreaksExactly(HALVES, FUNDED.rows, b, TEN_SCHEDULE, 9);
    assert [OVERTAKEN][..0] == [];
    assert Sweep(HALVES, d, [OVERTAKEN]) == TakeTurn(HALVES, Sweeping(d, 0, 0, false), OVERTAKEN);
  }
}
