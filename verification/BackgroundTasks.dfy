/** The two periodic tasks: they loop over the rows they selected, in a session of their own. */
module BackgroundTasks {
  import opened Basics
  import opened Schema
  import opened Operations
  import opened Invariants
  import opened Conservation
  import opened Laws
  import opened Transfers
  import opened Schedules
  import opened Services

  // ---- Expired transfers -----------------------------------------------------------------------

  predicate AllDistinct(rows: seq<TxnId>) {
    forall j, k | 0 <= j < k < |rows| :: rows[j] != rows[k]
  }

  function FailedRows(b: Bank, rows: seq<TxnId>): map<TxnId, TxnRow>
    requires forall t | t in rows :: t in b.rows.txns
  {
    map t | t in rows :: b.rows.txns[t].(status := Failed)
  }

  lemma FailedRowsStep(b: Bank, rows: seq<TxnId>, i: nat)
    requires i < |rows| && AllDistinct(rows) && forall t | t in rows :: t in b.rows.txns
    ensures rows[i] !in FailedRows(b, rows[..i])
    ensures FailedRows(b, rows[..i + 1]) == FailedRows(b, rows[..i])[rows[i] := b.rows.txns[rows[i]].(status := Failed)]
  {
    assert rows[..i + 1] == rows[..i] + [rows[i]];
  }

  lemma PublishFailedRows(b: Bank, rows: seq<TxnId>)
    requires forall t | t in rows :: t in b.rows.txns
    ensures Publish(b, NO_WRITES.(txns := FailedRows(b, rows))) == FailAll(b, set t | t in rows)
  {
    var ids := set t | t in rows;
    var left, right := b.rows.txns + FailedRows(b, rows), FailAll(b, ids).rows.txns;
    forall t | t in b.rows.txns ensures t in left && t in right && left[t] == right[t] {
      assert t in ids <==> t in rows;
    }
    assert left.Keys == b.rows.txns.Keys == right.Keys;
    assert left == right;
  }

  lemma {:induction false} DistinctCount(rows: seq<TxnId>)
    requires AllDistinct(rows)
    ensures |set t | t in rows| == |rows|
  {
    if rows != [] {
      var front, last := rows[..|rows| - 1], rows[|rows| - 1];
      DistinctCount(front);
      assert (set t | t in rows) == (set t | t in front) + {last};
    }
  }

  /** The row t has an object that agrees with it. */
  predicate Loaded(service: TransactionService, t: TxnId)
    reads service, service.transactions.Values
  {
    && t in service.db.rows.txns && t in service.transactions
    && service.transactions[t].Row() == service.db.rows.txns[t]
  }

  /** The objects of the selected rows. */
  method SelectRows(service: TransactionService, rows: seq<TxnId>)
    requires service.Valid() && service.work == NO_WRITES && service.transactions == map[]
    requires forall t | t in rows :: t in service.db.rows.txns
    modifies service`transactions
    ensures service.Valid() && fresh(service.transactions.Values)
    ensures forall k | 0 <= k < |rows| :: Loaded(service, rows[k])
  {
    for i := 0 to |rows|
      invariant service.Valid() && fresh(service.transactions.Values)
      invariant forall t | t in service.transactions :: service.transactions[t].Row() == service.db.rows.txns[t]
      invariant forall k | 0 <= k < i :: Loaded(service, rows[k])
    {
      assert rows[i] in rows;
      var _ := service.ReadTransaction(rows[i]);
    }
  }

  /** The loop of the sweep: mark each selected row as FAILED, and count it. */
  method MarkRows(service: TransactionService, rows: seq<TxnId>) returns (count: nat)
    requires service.Valid() && service.work == NO_WRITES && AllDistinct(rows)
    requires forall t | t in rows :: t in service.db.rows.txns
    requires forall k | 0 <= k < |rows| :: Loaded(service, rows[k])
    modifies service`work, service.transactions.Values
    ensures service.Valid() && service.work == NO_WRITES.(txns := FailedRows(service.db, rows))
    ensures count == |rows|
  {
    count := 0;
    for i := 0 to |rows|
      invariant service.Valid() && service.work == NO_WRITES.(txns := FailedRows(service.db, rows[..i]))
      invariant forall k | i <= k < |rows| :: Loaded(service, rows[k])
      invariant count == i
    {
      var t := rows[i];
      FailedRowsStep(service.db, rows, i);
      service.MarkFailedRead(t);
      count := count + 1;
    }
    assert rows[..|rows|] == rows;
  }

  /** Select, mark and commit. */
  method FailRows(service: TransactionService, rows: seq<TxnId>) returns (count: nat)
    requires service.Valid() && service.work == NO_WRITES && service.transactions == map[] && service.accounts == map[]
    requires AllDistinct(rows) && forall t | t in rows :: t in service.db.rows.txns
    modifies service`db, service`accounts, service`transactions, service`entries, service`work
    ensures service.Valid() && service.work == NO_WRITES
    ensures service.db == FailAll(old(service.db), set t | t in rows)
    ensures count == |rows|
  {
    SelectRows(service, rows);
    count := MarkRows(service, rows);
    PublishFailedRows(service.db, rows);
    var _ := service.Commit();
  }

  /** A PENDING transfer whose code has expired by now. */
  predicate Overdue(b: Bank, challenges: map<TxnId, Challenge>, t: TxnId, now: int) {
    && t in b.rows.txns && b.rows.txns[t].status == Pending
    && t in challenges && challenges[t].expiresAt <= now
  }

  /** rows lists each of the ids once. */
  predicate Lists(rows: seq<int>, ids: set<int>) {
    AllDistinct(rows) && (set t | t in rows) == ids
  }

  lemma ListsMembers(rows: seq<int>, ids: set<int>)
    requires Lists(rows, ids)
    ensures forall t :: t in rows <==> t in ids
    ensures forall k | 0 <= k < |rows| :: rows[k] in ids
  {
    forall t ensures t in rows <==> t in ids {
      assert t in rows <==> t in (set x | x in rows);
    }
    forall k | 0 <= k < |rows| ensures rows[k] in ids {
      assert rows[k] in rows;
    }
  }

  lemma ListsOneMore(rows: seq<int>, ids: set<int>, t: int)
    requires Lists(rows, ids) && t !in ids
    ensures Lists(rows + [t], ids + {t})
  {
    ListsMembers(rows, ids);
  }

  /** The ids in a set, in some order. */
  method Listing(ids: set<int>) returns (rows: seq<int>)
    ensures Lists(rows, ids)
  {
    rows := [];
    var rest := ids;
    while rest != {}
      invariant rest <= ids && Lists(rows, ids - rest)
      decreases rest
    {
      EmptyOrInhabited(rest);
      var t :| t in rest;
      ListsOneMore(rows, ids - rest, t);
      assert ids - (rest - {t}) == (ids - rest) + {t};
      rows := rows + [t];
      rest := rest - {t};
    }
    assert ids - rest == ids;
  }

  /** The rows that became FAILED. */
  function NewlyFailed(b: Bank, b': Bank): set<TxnId> {
    set t | t in b.rows.txns && t in b'.rows.txns && b.rows.txns[t].status != Failed && b'.rows.txns[t].status == Failed
  }

  /**
   _expire_stale_transactions_async: the PENDING transfers whose code has expired become FAILED, all other
   rows, the accounts and the ledger stay, and the count is the number of rows that became FAILED.
   */
  method ExpireStaleTransactions(service: TransactionService, now: int) returns (expiredCount: nat)
    requires service.Valid() && service.work == NO_WRITES && service.accounts == map[] && service.transactions == map[]
    modifies service`db, service`accounts, service`transactions, service`entries, service`work
    ensures service.Valid() && service.work == NO_WRITES && service.challenges == old(service.challenges)
    ensures service.db.rows.accounts == old(service.db).rows.accounts && service.db.rows.cards == old(service.db).rows.cards
    ensures service.db.ledger == old(service.db).ledger && service.db.rows.txns.Keys == old(service.db).rows.txns.Keys
    ensures forall t | t in old(service.db).rows.txns ::
              var row := old(service.db).rows.txns[t];
              service.db.rows.txns[t] ==
                row.(status := if Overdue(old(service.db), old(service.challenges), t, now) then Failed else row.status)
    ensures expiredCount == |NewlyFailed(old(service.db), service.db)|
    ensures service.db == FailAll(old(service.db), old(StaleIds(System(service.db, service.challenges), now)))
  {
    var stale := StaleIds(System(service.db, service.challenges), now);
    var rows := Listing(stale);
    ListsMembers(rows, stale);
    DistinctCount(rows);
    ghost var b := service.db;
    expiredCount := FailRows(service, rows);
    assert NewlyFailed(b, service.db) == stale;
  }

  // ---- Scheduled payments ----------------------------------------------------------------------

  class ScheduledPayment {
    const id: ScheduleId
    const customerId: CustomerId
    const senderAccountId: AccountId
    const receiverAccountNumber: string
    const amount: int
    const currency: Currency
    const frequency: Frequency
    var nextRunAt: int
    var isActive: bool
    var lastTransactionId: Option<TxnId>
    var lastFailureReason: Option<Failure>

    constructor (id: ScheduleId, s: Schedule)
      ensures this.id == id && Value() == s
    {
      this.id := id;
      customerId, senderAccountId, receiverAccountNumber := s.customer, s.sender, s.receiver;
      amount, currency, frequency := s.amount, s.currency, s.frequency;
      nextRunAt, isActive, lastTransactionId, lastFailureReason := s.nextRun, s.active, s.lastTransaction, s.lastFailure;
    }

    function Value(): Schedule
      reads this
    {
      Schedule(customerId, senderAccountId, receiverAccountNumber, amount, currency, frequency,
               nextRunAt, isActive, lastTransactionId, lastFailureReason)
    }

    method RecordSuccess(transaction: TxnId)
      modifies this
      ensures Value() == Advance(old(Value()).(lastTransaction := Some(transaction), lastFailure := None))
    {
      lastTransactionId := Some(transaction);
      lastFailureReason := None;
      nextRunAt := nextRunAt + Period(frequency);
    }

    method RecordFailure(reason: Failure)
      modifies this
      ensures Value() == Advance(old(Value()).(lastFailure := Some(reason)))
    {
      lastFailureReason := Some(reason);
      nextRunAt := nextRunAt + Period(frequency);
    }

    method Cancel()
      modifies this
      ensures Value() == old(Value()).(active := false)
    {
      isActive := false;
    }
  }

  ghost predicate Registered(payments: map<ScheduleId, ScheduledPayment>) {
    forall i | i in payments :: payments[i].id == i
  }

  function Values(payments: map<ScheduleId, ScheduledPayment>): map<ScheduleId, Schedule>
    reads payments.Values
  {
    map i | i in payments :: payments[i].Value()
  }

  lemma {:induction false} BrokenStays(w: World, d: Desk, turns: seq<Turn>, i: nat)
    requires Listed(d, turns) && i <= |turns| && Sweep(w, d, turns[..i]).broken
    ensures Sweep(w, d, turns) == Sweep(w, d, turns[..i])
    decreases |turns|
  {
    if i == |turns| {
      assert turns[..i] == turns;
    } else {
      var front := turns[..|turns| - 1];
      assert front[..i] == turns[..i];
      BrokenStays(w, d, front, i);
    }
  }

  // ---- What other sessions may do meanwhile ----------------------------------------------------

  lemma CommitKeepsOwner(b: Bank, call: Call, id: TxnId, a: AccountId)
    requires Can(b, Commit(call, id)) && a in b.rows.accounts
    ensures
      var accounts' := Do(b, Commit(call, id)).rows.accounts;
      && a in accounts'
      && accounts'[a].owner == b.rows.accounts[a].owner && accounts'[a].currency == b.rows.accounts[a].currency
  {
    ProceedPosts(call, id, b.rows, ReversalSeen(call, b.rows));
  }

  lemma CommitKeepsColumns(b: Bank, call: Call, id: TxnId, x: TxnId)
    requires BankInv(b) && Can(b, Commit(call, id)) && x in b.rows.txns
    ensures
      var txns' := Do(b, Commit(call, id)).rows.txns;
      x in txns' && txns'[x] == b.rows.txns[x].(status := txns'[x].status)
  {
    CommitPosts(b, call, id);
    PostedTxn(b, PostedId(call, id), PostedRow(call, b.rows), DebitTag(call, b.rows), CreditTag(call, b.rows), x);
  }

  lemma ActionGrows(b: Bank, action: Action)
    requires BankInv(b) && Can(b, action)
    ensures Grows(b, Do(b, action))
  {
    if action.Commit? {
      forall a | a in b.rows.accounts
        ensures
          var accounts' := Do(b, action).rows.accounts;
          && a in accounts'
          && accounts'[a].owner == b.rows.accounts[a].owner && accounts'[a].currency == b.rows.accounts[a].currency
      {
        CommitKeepsOwner(b, action.call, action.id, a);
      }
      forall x | x in b.rows.txns
        ensures
          var txns' := Do(b, action).rows.txns;
          x in txns' && txns'[x] == b.rows.txns[x].(status := txns'[x].status)
      {
        CommitKeepsColumns(b, action.call, action.id, x);
      }
    }
  }

  lemma GrowsOn(b: Bank, b': Bank, b'': Bank)
    requires Grows(b, b') && Grows(b', b'')
    ensures Grows(b, b'')
  {
    forall a | a in b.rows.accounts ensures a in b''.rows.accounts {
      assert a in b'.rows.accounts;
    }
    forall t | t in b.rows.txns ensures t in b''.rows.txns {
      assert t in b'.rows.txns;
    }
  }

  lemma {:induction false} MeanwhileGrows(b: Bank, actions: seq<Action>)
    requires BankInv(b)
    ensures BankInv(Meanwhile(b, actions)) && Grows(b, Meanwhile(b, actions))
    decreases |actions|
  {
    if actions != [] {
      var action, rest := actions[0], actions[1..];
      if Can(b, action) {
        StepKeepsInv(b, action);
        ActionGrows(b, action);
        MeanwhileGrows(Do(b, action), rest);
        GrowsOn(b, Do(b, action), Meanwhile(b, actions));
      } else {
        MeanwhileGrows(b, rest);
      }
    }
  }

  // ---- The loop --------------------------------------------------------------------------------

  lemma AttemptTold(w: World, view: Tables, b: Bank, s: Schedule, id: TxnId)
    requires s.customer in w.customers
    ensures
      var (b', r) := Scheduling(view, b, id, RequestOf(w, view, s));
      var attempt := Attempted(w, view, b, s, id);
      && b' == (if attempt.Paid? then attempt.bank else b)
      && (r == Done ==> attempt == Paid(b'))
      && (r.Raised? ==> attempt == Unpaid(DomainError(r.error)))
      && (r != Done && !r.Raised? ==> attempt == Broken)
  {}

  /** The body of the loop of the sweep, for a schedule whose customer exists. */
  method PaySchedule(service: TransactionService, world: World, schedule: ScheduledPayment, id: TxnId) returns (r: Outcome)
    requires service.Valid() && service.work == NO_WRITES
    requires schedule.customerId in world.customers
    modifies service`db, service`accounts, service`transactions, service`entries, service`work
    modifies service.accounts.Values, service.transactions.Values, schedule
    ensures service.Valid() && service.work == NO_WRITES
    ensures fresh(service.accounts.Values - old(service.accounts.Values))
    ensures fresh(service.transactions.Values - old(service.transactions.Values))
    ensures
      var attempt := Attempted(world, old(service.View()), old(service.db), old(schedule.Value()), id);
      && service.db == (if attempt.Paid? then attempt.bank else old(service.db))
      && schedule.Value() == Recorded(old(schedule.Value()), id, attempt)
      && (attempt.Paid? <==> r == Done) && (attempt.Unpaid? <==> r.Raised?)
  {
    AttemptTold(world, service.View(), service.db, schedule.Value(), id);
    r := service.ExecuteScheduledTransfer(id, RequestOf(world, service.View(), schedule.Value()));
    if r == Done {
      schedule.RecordSuccess(id);
    } else if r.Raised? {
      schedule.RecordFailure(DomainError(r.error));
    }
  }

  /** One round of the loop: count the run as executed or failed, unless it breaks the sweep. */
  method CountSchedule(service: TransactionService, world: World, schedule: ScheduledPayment, id: TxnId,
                       executed: nat, failed: nat)
    returns (executed': nat, failed': nat, broken: bool)
    requires service.Valid() && service.work == NO_WRITES
    modifies service`db, service`accounts, service`transactions, service`entries, service`work
    modifies service.accounts.Values, service.transactions.Values, schedule
    ensures service.Valid() && service.work == NO_WRITES
    ensures fresh(service.accounts.Values - old(service.accounts.Values))
    ensures fresh(service.transactions.Values - old(service.transactions.Values))
    ensures
      var attempt := Attempted(world, old(service.View()), old(service.db), old(schedule.Value()), id);
      && service.db == (if attempt.Paid? then attempt.bank else old(service.db))
      && schedule.Value() == Recorded(old(schedule.Value()), id, attempt)
      && executed' == executed + (if attempt.Paid? then 1 else 0)
      && failed' == failed + (if attempt.Unpaid? then 1 else 0)
      && broken == attempt.Broken?
  {
    executed', failed', broken := executed, failed, false;
    if schedule.customerId !in world.customers {
      schedule.RecordFailure(CustomerMissing);
      failed' := failed + 1;
    } else {
      var r := PaySchedule(service, world, schedule, id);
      if r == Done {
        executed' := executed + 1;
      } else if r.Raised? {
        failed' := failed + 1;
      } else {
        broken := true;
      }
    }
  }

  /** The same round among all schedules: the others stay as they are. */
  method RecordSchedule(service: TransactionService, world: World, payments: map<ScheduleId, ScheduledPayment>,
                        i: ScheduleId, id: TxnId, executed: nat, failed: nat)
    returns (executed': nat, failed': nat, broken: bool)
    requires service.Valid() && service.work == NO_WRITES && Registered(payments) && i in payments
    modifies service`db, service`accounts, service`transactions, service`entries, service`work
    modifies service.accounts.Values, service.transactions.Values, payments[i]
    ensures service.Valid() && service.work == NO_WRITES
    ensures fresh(service.accounts.Values - old(service.accounts.Values))
    ensures fresh(service.transactions.Values - old(service.transactions.Values))
    ensures
      var schedules := old(Values(payments));
      var attempt := Attempted(world, old(service.View()), old(service.db), schedules[i], id);
      && service.db == (if attempt.Paid? then attempt.bank else old(service.db))
      && Values(payments) == schedules[i := Recorded(schedules[i], id, attempt)]
      && executed' == executed + (if attempt.Paid? then 1 else 0)
      && failed' == failed + (if attempt.Unpaid? then 1 else 0)
      && broken == attempt.Broken?
  {
    var schedule := payments[i];
    ghost var schedules := Values(payments);
    executed', failed', broken := CountSchedule(service, world, schedule, id, executed, failed);
    forall j | j in payments && j != i ensures payments[j].Value() == schedules[j] {
      assert payments[j].id == j && schedule.id == i;
    }
    assert Values(payments) == schedules[i := schedule.Value()];
  }

  /** From what a round did to what the turn says: view was seen, b was committed, and a was the attempt. */
  lemma TurnTaken(w: World, s: Sweeping, turn: Turn, view: Tables, b: Bank, a: Attempt, s': Sweeping)
    requires turn.schedule in s.desk.schedules && !s.broken && !turn.crash
    requires turn.seen == Some(view) && b == Meanwhile(s.desk.bank, turn.meanwhile)
    requires a == Attempted(w, view, b, s.desk.schedules[turn.schedule], turn.id)
    requires s'.desk.bank == if a.Paid? then a.bank else b
    requires s'.desk.schedules == s.desk.schedules[turn.schedule := Recorded(s.desk.schedules[turn.schedule], turn.id, a)]
    requires s'.executed == s.executed + (if a.Paid? then 1 else 0)
    requires s'.failed == s.failed + (if a.Unpaid? then 1 else 0)
    requires s'.broken == a.Broken?
    ensures s' == TakeTurn(w, s, turn)
  {
    if a.Broken? {
      assert s.desk.schedules == s.desk.schedules[turn.schedule := s.desk.schedules[turn.schedule]];
    }
  }

  /** Other sessions commit. What this one sees afterwards may be stale, but not its owners and currencies. */
  method LetOthersCommit(service: TransactionService, actions: seq<Action>) returns (ghost view: Tables)
    requires service.Valid() && service.work == NO_WRITES && BankInv(service.db)
    requires service.alone ==> actions == []
    modifies service`db
    ensures service.Valid() && service.db == Meanwhile(old(service.db), actions)
    ensures view == service.View() && Sees(view, service.db.rows)
    ensures service.alone ==> view == service.db.rows
  {
    MeanwhileGrows(service.db, actions);
    service.Elsewhere(Meanwhile(service.db, actions));
    service.SeesCommitted();
    if service.alone {
      service.AloneSeesCommitted();
    }
    view := service.View();
  }

  /**
   The same round, told as a turn of the sweep: other sessions commit meanwhile, this one sees what its
   objects say, and the other schedules stay as they are.
   */
  method ProcessSchedule(service: TransactionService, world: World, payments: map<ScheduleId, ScheduledPayment>, turn: Turn,
                         ghost s: Sweeping, executed: nat, failed: nat)
    returns (executed': nat, failed': nat, broken: bool, ghost taken: Turn)
    requires service.Valid() && service.work == NO_WRITES && BankInv(service.db)
    requires Registered(payments) && turn.schedule in payments && !turn.crash && (service.alone ==> turn.meanwhile == [])
    requires s == Sweeping(Desk(service.db, Values(payments)), executed, failed, false)
    modifies service`db, service`accounts, service`transactions, service`entries, service`work
    modifies service.accounts.Values, service.transactions.Values, payments[turn.schedule]
    ensures service.Valid() && service.work == NO_WRITES
    ensures fresh(service.accounts.Values - old(service.accounts.Values))
    ensures fresh(service.transactions.Values - old(service.transactions.Values))
    ensures taken.seen.Some? && taken == turn.(seen := taken.seen)
    ensures
      var rows := Meanwhile(s.desk.bank, turn.meanwhile).rows;
      Sees(taken.seen.value, rows) && (service.alone ==> taken.seen.value == rows)
    ensures Sweeping(Desk(service.db, Values(payments)), executed', failed', broken) == TakeTurn(world, s, taken)
  {
    ghost var view := LetOthersCommit(service, turn.meanwhile);
    taken := turn.(seen := Some(view));
    ghost var b := service.db;
    ghost var a := Attempted(world, view, b, s.desk.schedules[turn.schedule], turn.id);
    executed', failed', broken := RecordSchedule(service, world, payments, turn.schedule, turn.id, executed, failed);
    ghost var s' := Sweeping(Desk(service.db, Values(payments)), executed', failed', broken);
    TurnTaken(world, s, taken, view, b, a, s');
  }

  /** The same turns, except for what is seen in them. */
  predicate SameButSeen(taken: seq<Turn>, turns: seq<Turn>) {
    |taken| == |turns| && forall k | 0 <= k < |turns| :: taken[k] == turns[k].(seen := taken[k].seen)
  }

  /** s is the sweep over the turns taken so far, which has not broken; quiet says that nothing else happened. */
  ghost predicate SweptSoFar(w: World, d: Desk, turns: seq<Turn>, taken: seq<Turn>, s: Sweeping, quiet: bool)
    requires |taken| <= |turns|
  {
    && SameButSeen(taken, turns[..|taken|])
    && Listed(d, taken) && Listed(d, turns[..|taken|]) && Plausible(w, d, taken)
    && !s.broken && s == Sweep(w, d, taken)
    && (quiet ==> s == Sweep(w, d, turns[..|taken|]))
    && BankInv(s.desk.bank) && Conserved(s.desk.bank)
  }

  /** What the sweep as a whole has been. */
  ghost predicate WholeSweep(w: World, d: Desk, turns: seq<Turn>, taken: seq<Turn>, s: Sweeping, quiet: bool) {
    && SameButSeen(taken, turns) && Listed(d, taken) && Listed(d, turns) && Plausible(w, d, taken)
    && s == Sweep(w, d, taken)
    && (quiet ==> s == Sweep(w, d, turns))
  }

  lemma SweepOneMore(w: World, d: Desk, turns: seq<Turn>, turn: Turn)
    requires Listed(d, turns) && turn.schedule in d.schedules
    ensures Listed(d, turns + [turn])
    ensures turn.schedule in Sweep(w, d, turns).desk.schedules
    ensures Sweep(w, d, turns + [turn]) == TakeTurn(w, Sweep(w, d, turns), turn)
  {
    SweepSnoc(w, d, turns, turn);
  }

  lemma PlausibleOneMore(w: World, d: Desk, turns: seq<Turn>, turn: Turn)
    requires Listed(d, turns) && turn.schedule in d.schedules && Listed(d, turns + [turn]) && Plausible(w, d, turns)
    requires turn.seen.Some? ==> Sees(turn.seen.value, Meanwhile(Sweep(w, d, turns).desk.bank, turn.meanwhile).rows)
    ensures Plausible(w, d, turns + [turn])
  {
    assert (turns + [turn])[..|turns|] == turns;
  }

  /** After a break the rest of the turns, with nothing seen in them, change nothing. */
  lemma {:induction false} RestIsPlausible(w: World, d: Desk, taken: seq<Turn>, rest: seq<Turn>)
    requires Listed(d, taken) && Listed(d, rest) && Listed(d, taken + rest) && Plausible(w, d, taken)
    requires Sweep(w, d, taken).broken && forall turn | turn in rest :: turn.seen.None?
    ensures Plausible(w, d, taken + rest) && Sweep(w, d, taken + rest) == Sweep(w, d, taken)
    decreases |rest|
  {
    if rest == [] {
      assert taken + rest == taken;
    } else {
      var front, last := rest[..|rest| - 1], rest[|rest| - 1];
      assert taken + rest == (taken + front) + [last];
      RestIsPlausible(w, d, taken, front);
      SweepOneMore(w, d, taken + front, last);
      PlausibleOneMore(w, d, taken + front, last);
    }
  }

  /** Seeing what is committed is as good as seeing nothing else. */
  lemma QuietTurn(w: World, s: Sweeping, planned: Turn, turn: Turn)
    requires planned.schedule in s.desk.schedules && planned.seen.None?
    requires turn == planned.(seen := Some(Meanwhile(s.desk.bank, planned.meanwhile).rows))
    ensures TakeTurn(w, s, turn) == TakeTurn(w, s, planned)
  {}

  lemma PrefixOneMore(turns: seq<Turn>, taken: seq<Turn>, turn: Turn)
    requires |taken| < |turns| && SameButSeen(taken, turns[..|taken|]) && turn == turns[|taken|].(seen := turn.seen)
    ensures SameButSeen(taken + [turn], turns[..|taken| + 1])
    ensures SameButSeen(taken + [turn] + turns[|taken| + 1..], turns)
  {}

  lemma QuietNext(w: World, d: Desk, turns: seq<Turn>, n: nat, s: Sweeping, turn: Turn)
    requires n < |turns| && Listed(d, turns) && Listed(d, turns[..n]) && s == Sweep(w, d, turns[..n])
    requires turns[n].seen.None? && turns[n].schedule in s.desk.schedules
    requires turn == turns[n].(seen := Some(Meanwhile(s.desk.bank, turns[n].meanwhile).rows))
    ensures Listed(d, turns[..n + 1]) && TakeTurn(w, s, turn) == Sweep(w, d, turns[..n + 1])
  {
    assert turns[n] in turns;
    SweepOneMore(w, d, turns[..n], turns[n]);
    assert turns[..n + 1] == turns[..n] + [turns[n]];
    QuietTurn(w, s, turns[n], turn);
  }

  /** The next turn of a sweep that has gone well so far. */
  lemma SweptNext(w: World, d: Desk, turns: seq<Turn>, taken: seq<Turn>, s: Sweeping, quiet: bool, turn: Turn)
    requires |taken| < |turns| && SweptSoFar(w, d, turns, taken, s, quiet) && Listed(d, turns)
    requires turns[|taken|].seen.None? && turn == turns[|taken|].(seen := turn.seen) && turn.seen.Some?
    requires
      var rows := Meanwhile(s.desk.bank, turn.meanwhile).rows;
      Sees(turn.seen.value, rows) && (quiet ==> turn.seen.value == rows)
    ensures turn.schedule in s.desk.schedules
    ensures
      var s' := TakeTurn(w, s, turn);
      && Listed(d, taken + [turn]) && Plausible(w, d, taken + [turn]) && s' == Sweep(w, d, taken + [turn])
      && Listed(d, turns[..|taken| + 1]) && (quiet ==> s' == Sweep(w, d, turns[..|taken| + 1]))
  {
    var n := |taken|;
    assert turns[n] in turns;
    SweepOneMore(w, d, taken, turn);
    PlausibleOneMore(w, d, taken, turn);
    if quiet {
      QuietNext(w, d, turns, n, s, turn);
    }
  }

  lemma SweptOn(w: World, d: Desk, turns: seq<Turn>, taken: seq<Turn>, s: Sweeping, quiet: bool, turn: Turn)
    requires |taken| < |turns| && SweptSoFar(w, d, turns, taken, s, quiet) && Listed(d, turns)
    requires turns[|taken|].seen.None? && turn == turns[|taken|].(seen := turn.seen) && turn.seen.Some?
    requires
      var rows := Meanwhile(s.desk.bank, turn.meanwhile).rows;
      Sees(turn.seen.value, rows) && (quiet ==> turn.seen.value == rows)
    ensures turn.schedule in s.desk.schedules
    ensures !TakeTurn(w, s, turn).broken ==> SweptSoFar(w, d, turns, taken + [turn], TakeTurn(w, s, turn), quiet)
  {
    SweptNext(w, d, turns, taken, s, quiet, turn);
    PrefixOneMore(turns, taken, turn);
    TurnKeepsBank(w, s.desk, turn);
  }

  /** The turn that breaks the sweep: those after it change nothing. */
  lemma SweptEnds(w: World, d: Desk, turns: seq<Turn>, taken: seq<Turn>, s: Sweeping, quiet: bool, turn: Turn)
    requires |taken| < |turns| && SweptSoFar(w, d, turns, taken, s, quiet) && Listed(d, turns)
    requires forall x | x in turns :: x.seen.None?
    requires turn == turns[|taken|].(seen := turn.seen) && turn.seen.Some?
    requires
      var rows := Meanwhile(s.desk.bank, turn.meanwhile).rows;
      Sees(turn.seen.value, rows) && (quiet ==> turn.seen.value == rows)
    ensures turn.schedule in s.desk.schedules
    ensures
      var s' := TakeTurn(w, s, turn);
      s'.broken ==> WholeSweep(w, d, turns, taken + [turn] + turns[|taken| + 1..], s', quiet)
  {
    var n := |taken|;
    assert turns[n] in turns;
    SweptNext(w, d, turns, taken, s, quiet, turn);
    PrefixOneMore(turns, taken, turn);
    if TakeTurn(w, s, turn).broken {
      var rest := turns[n + 1..];
      assert forall x | x in rest :: x in turns;
      RestIsPlausible(w, d, taken + [turn], rest);
      if quiet {
        BrokenStays(w, d, turns, n + 1);
      }
    }
  }

  lemma SweptStep(w: World, d: Desk, turns: seq<Turn>, taken: seq<Turn>, s: Sweeping, quiet: bool, turn: Turn)
    requires |taken| < |turns| && SweptSoFar(w, d, turns, taken, s, quiet) && Listed(d, turns)
    requires forall x | x in turns :: x.seen.None?
    requires turn == turns[|taken|].(seen := turn.seen) && turn.seen.Some?
    requires
      var rows := Meanwhile(s.desk.bank, turn.meanwhile).rows;
      Sees(turn.seen.value, rows) && (quiet ==> turn.seen.value == rows)
    ensures turn.schedule in s.desk.schedules
    ensures
      var s' := TakeTurn(w, s, turn);
      if s'.broken then WholeSweep(w, d, turns, taken + [turn] + turns[|taken| + 1..], s', quiet)
      else SweptSoFar(w, d, turns, taken + [turn], s', quiet)
  {
    assert turns[|taken|] in turns;
    SweptOn(w, d, turns, taken, s, quiet, turn);
    SweptEnds(w, d, turns, taken, s, quiet, turn);
  }

  lemma SweptAll(w: World, d: Desk, turns: seq<Turn>, taken: seq<Turn>, s: Sweeping, quiet: bool)
    requires |taken| == |turns| && SweptSoFar(w, d, turns, taken, s, quiet)
    ensures WholeSweep(w, d, turns, taken, s, quiet)
  {
    assert turns[..|turns|] == turns;
  }

  /** A round that takes the sweep one turn further, or ends it. */
  method SweepRound(service: TransactionService, world: World, payments: map<ScheduleId, ScheduledPayment>, turns: seq<Turn>, i: nat,
                    ghost d: Desk, ghost taken: seq<Turn>, ghost s: Sweeping, executed: nat, failed: nat)
    returns (executed': nat, failed': nat, broken: bool, ghost taken': seq<Turn>, ghost s': Sweeping)
    requires service.Valid() && service.work == NO_WRITES
    requires Registered(payments) && Listed(d, turns) && (forall turn | turn in turns :: turn.schedule in payments)
    requires forall turn | turn in turns :: turn.seen.None? && !turn.crash && (service.alone ==> turn.meanwhile == [])
    requires |taken| == i < |turns| && SweptSoFar(world, d, turns, taken, s, service.alone)
    requires s == Sweeping(Desk(service.db, Values(payments)), executed, failed, false)
    modifies service`db, service`accounts, service`transactions, service`entries, service`work
    modifies service.accounts.Values, service.transactions.Values, payments.Values
    ensures service.Valid() && service.work == NO_WRITES
    ensures fresh(service.accounts.Values - old(service.accounts.Values))
    ensures fresh(service.transactions.Values - old(service.transactions.Values))
    ensures s' == Sweeping(Desk(service.db, Values(payments)), executed', failed', broken)
    ensures if broken then WholeSweep(world, d, turns, taken', s', service.alone)
            else |taken'| == |taken| + 1 && SweptSoFar(world, d, turns, taken', s', service.alone)
  {
    ghost var turn;
    assert turns[i] in turns;
    executed', failed', broken, turn := ProcessSchedule(service, world, payments, turns[i], s, executed, failed);
    SweptStep(world, d, turns, taken, s, service.alone, turn);
    s' := TakeTurn(world, s, turn);
    taken' := if broken then taken + [turn] + turns[|taken| + 1..] else taken + [turn];
  }

  /**
   _execute_scheduled_payments_async. turns are the due schedules in the order of the query, with the
   ids that new transactions get and what other sessions commit meanwhile. An exception other than a
   domain error ends the loop. taken are the turns with what was seen in them; in a session that no
   other commits beside, that is what is committed.
   */
  method ExecuteScheduledPayments(service: TransactionService, world: World, payments: map<ScheduleId, ScheduledPayment>,
                                  turns: seq<Turn>)
    returns (executed: nat, failed: nat, broken: bool, ghost taken: seq<Turn>)
    requires service.Valid() && service.work == NO_WRITES && BankInv(service.db) && Conserved(service.db)
    requires service.accounts == map[] && service.transactions == map[]
    requires Registered(payments) && (forall turn | turn in turns :: turn.schedule in payments)
    requires forall turn | turn in turns :: turn.seen.None? && !turn.crash && (service.alone ==> turn.meanwhile == [])
    modifies service`db, service`accounts, service`transactions, service`entries, service`work, payments.Values
    ensures service.Valid() && service.work == NO_WRITES
    ensures WholeSweep(world, old(Desk(service.db, Values(payments))), turns, taken,
                  Sweeping(Desk(service.db, Values(payments)), executed, failed, broken), service.alone)
  {
    ghost var d := Desk(service.db, Values(payments));
    ghost var s := Sweeping(d, 0, 0, false);
    executed, failed, broken, taken := 0, 0, false, [];
    for i := 0 to |turns|
      invariant service.Valid() && service.work == NO_WRITES
      invariant fresh(service.accounts.Values) && fresh(service.transactions.Values)
      invariant s == Sweeping(Desk(service.db, Values(payments)), executed, failed, false)
      invariant |taken| == i && SweptSoFar(world, d, turns, taken, s, service.alone)
    {
      executed, failed, broken, taken, s := SweepRound(service, world, payments, turns, i, d, taken, s, executed, failed);
      if broken {
        return;
      }
    }
    SweptAll(world, d, turns, taken, s, service.alone);
  }

  /** list_due: the active schedules whose next run has come, in some order. */
  method ListDue(payments: map<ScheduleId, ScheduledPayment>, now: int) returns (due: seq<ScheduleId>)
    ensures AllDistinct(due)
    ensures forall i :: i in due <==> i in payments && payments[i].isActive && payments[i].nextRunAt <= now
    ensures forall k | 0 <= k < |due| :: due[k] in payments
  {
    var selected := set i | i in payments.Keys && payments[i].isActive && payments[i].nextRunAt <= now;
    due := Listing(selected);
    ListsMembers(due, selected);
  }

  lemma ListingIsDue(d: Desk, due: seq<ScheduleId>, turns: seq<Turn>, now: int)
    requires AllDistinct(due) && |turns| == |due| && forall k | 0 <= k < |due| :: turns[k].schedule == due[k]
    requires forall i :: i in due <==> i in d.schedules && d.schedules[i].active && d.schedules[i].nextRun <= now
    ensures ListsDue(d, turns, now) && Listed(d, turns)
  {
    forall turn | turn in turns ensures turn.schedule in due {
      var k :| 0 <= k < |turns| && turns[k] == turn;
      assert due[k] in due;
    }
    var listed := set turn | turn in turns :: turn.schedule;
    forall i | i in due ensures i in listed {
      var k :| 0 <= k < |due| && due[k] == i;
      assert turns[k] in turns;
    }
    forall i ensures i in listed <==> i in Due(d, now) {
      assert i in due <==> i in Due(d, now);
      if i in listed {
        var turn :| turn in turns && turn.schedule == i;
      }
    }
    assert listed == Due(d, now);
  }

  /**
   The sweep as it starts: the query lists the due schedules, and the loop runs over them. plans says for
   every schedule which id its transaction would get and what other sessions would commit meanwhile.
   */
  method SweepScheduledPayments(service: TransactionService, world: World, payments: map<ScheduleId, ScheduledPayment>,
                                plans: map<ScheduleId, Turn>, now: int)
    returns (executed: nat, failed: nat, broken: bool, turns: seq<Turn>, ghost taken: seq<Turn>)
    requires service.Valid() && service.work == NO_WRITES && BankInv(service.db) && Conserved(service.db)
    requires service.accounts == map[] && service.transactions == map[]
    requires Registered(payments) && payments.Keys <= plans.Keys
    requires forall i | i in plans ::
               && plans[i].schedule == i && plans[i].seen.None? && !plans[i].crash
               && (service.alone ==> plans[i].meanwhile == [])
    modifies service`db, service`accounts, service`transactions, service`entries, service`work, payments.Values
    ensures service.Valid() && service.work == NO_WRITES
    ensures ListsDue(old(Desk(service.db, Values(payments))), turns, now)
    ensures WholeSweep(world, old(Desk(service.db, Values(payments))), turns, taken,
                       Sweeping(Desk(service.db, Values(payments)), executed, failed, broken), service.alone)
  {
    var due := ListDue(payments, now);
    forall k | 0 <= k < |due| ensures due[k] in plans {
      assert due[k] in payments.Keys;
    }
    turns := seq(|due|, k requires 0 <= k < |due| => plans[due[k]]);
    ListingIsDue(Desk(service.db, Values(payments)), due, turns, now);
    forall turn | turn in turns ensures turn.schedule in payments && turn in plans.Values {
      var k :| 0 <= k < |turns| && turns[k] == turn;
      assert due[k] in due;
    }
    executed, failed, broken, taken := ExecuteScheduledPayments(service, world, payments, turns);
  }
}
