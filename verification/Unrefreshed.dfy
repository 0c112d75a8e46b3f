/**
 What populate_existing is for. A machine that takes the same locks in the same order, but keeps the
 copies that a session already has, executes a transfer twice.
 */
module Unrefreshed {
  import opened Schema
  import opened Operations
  import opened Laws
  import opened Invariants
  import opened Interleaving

  /** As Next, except that a locked read leaves a row alone that the identity map already holds. */
  function NextKeeping(m: Machine, e: Event): Machine
    requires Enabled(m, e)
  {
    match e
    case Lock(s) =>
      var session := m.sessions[s];
      var r := Wanted(session).value;
      var cache := if Cached(session.cache, r) then session.cache else Refresh(session.cache, m.db.rows, r);
      With(m, s, session.(cache := cache, phase := Locking(session.phase.taken + 1))).(locks := m.locks[r := s])
    case _ => Next(m, e)
  }

  predicate CanPlayKeeping(m: Machine, events: seq<Event>)
    decreases |events|
  {
    events == [] || (Enabled(m, events[0]) && CanPlayKeeping(NextKeeping(m, events[0]), events[1..]))
  }

  function PlayKeeping(m: Machine, events: seq<Event>): Machine
    requires CanPlayKeeping(m, events)
    decreases |events|
  {
    if events == [] then m else PlayKeeping(NextKeeping(m, events[0]), events[1..])
  }

  lemma PlayOneKeeping(m: Machine, e: Event, rest: seq<Event>)
    requires Enabled(m, e) && CanPlayKeeping(NextKeeping(m, e), rest)
    ensures CanPlayKeeping(m, [e] + rest) && PlayKeeping(m, [e] + rest) == PlayKeeping(NextKeeping(m, e), rest)
  {
    assert ([e] + rest)[1..] == rest;
  }

  lemma {:induction false} PlayBothKeeping(m: Machine, first: seq<Event>, second: seq<Event>)
    requires CanPlayKeeping(m, first) && CanPlayKeeping(PlayKeeping(m, first), second)
    ensures CanPlayKeeping(m, first + second)
    ensures PlayKeeping(m, first + second) == PlayKeeping(PlayKeeping(m, first), second)
    decreases |first|
  {
    if first == [] {
      assert first + second == second;
    } else {
      PlayBothKeeping(NextKeeping(m, first[0]), first[1..], second);
      assert (first + second)[1..] == first[1..] + second;
    }
  }

  // ---- One confirmation on a copy of the transaction -------------------------------------------

  /** row is a PENDING transfer between two accounts of b. */
  predicate Copied(b: Bank, t: TxnId, row: TxnRow) {
    && t in b.rows.txns && row.status == Pending
    && row.sender.Some? && row.receiver.Some? && row.sender != row.receiver
    && row.sender.value in b.rows.accounts && row.receiver.value in b.rows.accounts
  }

  function TransferPlan(t: TxnId, row: TxnRow): seq<Resource>
    requires row.sender.Some? && row.receiver.Some? && row.sender != row.receiver
  {
    var a, c := row.sender.value, row.receiver.value;
    if a < c then [TxnR(t), AccountR(a), AccountR(c)] else [TxnR(t), AccountR(c), AccountR(a)]
  }

  /** A request that has read the transfer, and nothing else, without a lock. */
  predicate HasRead(session: Session, t: TxnId, row: TxnRow) {
    session == Session(Confirm(t), NO_ROWS.(txns := map[t := row]), Reading)
  }

  /** s holds the first k rows of its plan; its copies of accounts are current, that of t may not be. */
  predicate Gathering(m: Machine, b: Bank, s: SessionId, t: TxnId, row: TxnRow, k: nat)
    requires Copied(b, t, row) && k <= 3
  {
    && m.db == b && s in m.sessions
    && var session, plan := m.sessions[s], TransferPlan(t, row);
    && session.call == Confirm(t) && session.phase == Locking(k)
    && session.cache.txns == map[t := row]
    && (forall a | a in session.cache.accounts :: a in b.rows.accounts && session.cache.accounts[a] == b.rows.accounts[a])
    && (k > 1 ==> plan[1].account in session.cache.accounts)
    && (k > 2 ==> plan[2].account in session.cache.accounts)
    && (forall r | r in m.locks :: m.locks[r] == s && r in plan[..k])
  }

  predicate OthersStay(m: Machine, m': Machine, s: SessionId) {
    m'.sessions.Keys == m.sessions.Keys && forall q | q in m.sessions && q != s :: m'.sessions[q] == m.sessions[q]
  }

  lemma LockKeeping(m: Machine, b: Bank, s: SessionId, t: TxnId, row: TxnRow, k: nat)
    requires Copied(b, t, row) && k < 3 && Gathering(m, b, s, t, row, k)
    ensures Enabled(m, Lock(s))
    ensures
      var m' := NextKeeping(m, Lock(s));
      Gathering(m', b, s, t, row, k + 1) && OthersStay(m, m', s)
  {
    var plan := TransferPlan(t, row);
    assert Plan(Confirm(t), m.sessions[s].cache) == plan;
    assert plan[k] !in plan[..k];
    assert plan[..k + 1] == plan[..k] + [plan[k]];
  }

  function Locks(s: SessionId, n: nat): seq<Event> {
    if n == 0 then [] else [Lock(s)] + Locks(s, n - 1)
  }

  lemma {:induction false} LocksKeeping(m: Machine, b: Bank, s: SessionId, t: TxnId, row: TxnRow, k: nat)
    requires Copied(b, t, row) && k <= 3 && Gathering(m, b, s, t, row, k)
    ensures CanPlayKeeping(m, Locks(s, 3 - k))
    ensures
      var m' := PlayKeeping(m, Locks(s, 3 - k));
      Gathering(m', b, s, t, row, 3) && OthersStay(m, m', s)
    decreases 3 - k
  {
    if k < 3 {
      LockKeeping(m, b, s, t, row, k);
      LocksKeeping(NextKeeping(m, Lock(s)), b, s, t, row, k + 1);
      PlayOneKeeping(m, Lock(s), Locks(s, 2 - k));
    }
  }

  /** The decision goes by the copy of the transaction and the current accounts. */
  lemma DecidesOnCopy(m: Machine, b: Bank, s: SessionId, t: TxnId, row: TxnRow)
    requires Copied(b, t, row) && Gathering(m, b, s, t, row, 3)
    ensures DecideConfirm(m.sessions[s].cache, t) == DecideConfirm(WithTxn(b, t, row).rows, t)
  {
    var cache, rows := m.sessions[s].cache, WithTxn(b, t, row).rows;
    assert Plan(Confirm(t), cache) == TransferPlan(t, row);
    forall r | r in Plan(Confirm(t), cache) ensures SameRow(cache, rows, r) {}
    ConfirmFrame(Confirm(t), cache, rows);
  }

  /** Nobody but s is about to commit. */
  predicate OnlyOne(m: Machine, s: SessionId) {
    forall q | q in m.sessions && q != s :: !m.sessions[q].phase.Ready?
  }

  lemma CommitKeeping(m: Machine, b: Bank, s: SessionId, t: TxnId, row: TxnRow, id: TxnId, w: Writes)
    requires Copied(b, t, row) && Gathering(m, b, s, t, row, 3) && OnlyOne(m, s)
    requires DecideConfirm(WithTxn(b, t, row).rows, t) == Proceed(w) && id !in b.rows.txns
    ensures CanPlayKeeping(m, [Compute(s, id), Finish(s)])
    ensures
      var m' := PlayKeeping(m, [Compute(s, id), Finish(s)]);
      && m'.db == Publish(b, w) && m'.locks == map[] && OthersStay(m, m', s)
      && m'.sessions[s].phase == Done
  {
    DecidesOnCopy(m, b, s, t, row);
    assert Plan(Confirm(t), m.sessions[s].cache) == TransferPlan(t, row);
    var m1 := NextKeeping(m, Compute(s, id));
    assert m1.sessions[s].phase == Ready(id, w);
    var m2 := NextKeeping(m1, Finish(s));
    assert m2.locks == map[];
    PlayOneKeeping(m1, Finish(s), []);
    PlayOneKeeping(m, Compute(s, id), [Finish(s)] + []);
    assert [Compute(s, id)] + ([Finish(s)] + []) == [Compute(s, id), Finish(s)];
  }

  /** All of a confirmation that has read its transfer. */
  function Confirmation(s: SessionId, id: TxnId): seq<Event> {
    [BeginLocking(s)] + (Locks(s, 3) + [Compute(s, id), Finish(s)])
  }

  lemma ConfirmsOnCopy(m: Machine, b: Bank, s: SessionId, t: TxnId, row: TxnRow, id: TxnId, w: Writes)
    requires Copied(b, t, row) && m.db == b && m.locks == map[] && OnlyOne(m, s)
    requires s in m.sessions && HasRead(m.sessions[s], t, row)
    requires DecideConfirm(WithTxn(b, t, row).rows, t) == Proceed(w) && id !in b.rows.txns
    ensures CanPlayKeeping(m, Confirmation(s, id))
    ensures
      var m' := PlayKeeping(m, Confirmation(s, id));
      && m'.db == Publish(b, w) && m'.locks == map[] && OthersStay(m, m', s) && m'.sessions[s].phase == Done
  {
    var m1 := NextKeeping(m, BeginLocking(s));
    LocksKeeping(m1, b, s, t, row, 0);
    var m2 := PlayKeeping(m1, Locks(s, 3));
    CommitKeeping(m2, b, s, t, row, id, w);
    PlayBothKeeping(m1, Locks(s, 3), [Compute(s, id), Finish(s)]);
    PlayOneKeeping(m, BeginLocking(s), Locks(s, 3) + [Compute(s, id), Finish(s)]);
  }

  // ---- Twice -----------------------------------------------------------------------------------

  /** The accounts of the transfer are active, and can carry it n times. */
  predicate Carries(b: Bank, row: TxnRow, n: nat)
    requires row.sender.Some? && row.sender.value in b.rows.accounts
    requires row.receiver.Some? && row.receiver.value in b.rows.accounts
  {
    var sender, receiver := b.rows.accounts[row.sender.value], b.rows.accounts[row.receiver.value];
    && sender.status == Active && receiver.status == Active
    && 0 < row.amount && 0 < Credited(row)
    && n * row.amount <= sender.balance < CENTS_LIMIT
    && 0 <= receiver.balance && receiver.balance + n * Credited(row) < CENTS_LIMIT
  }

  /** The writes of the transfer on the accounts of b. */
  function Payment(b: Bank, t: TxnId, row: TxnRow): Writes
    requires Copied(b, t, row)
  {
    Movement(b.rows, t, row, b.rows.accounts[row.sender.value].currency, b.rows.accounts[row.receiver.value].currency)
  }

  lemma DecidesToPay(b: Bank, t: TxnId, row: TxnRow)
    requires Copied(b, t, row) && Carries(b, row, 1)
    ensures DecideConfirm(WithTxn(b, t, row).rows, t) == Proceed(Payment(b, t, row))
  {
    var w := Payment(b, t, row);
    assert w == Payment(WithTxn(b, t, row), t, row);
    assert ChecksPass(row, w);
  }

  lemma PaymentCarriesOn(b: Bank, t: TxnId, row: TxnRow)
    requires Copied(b, t, row) && Carries(b, row, 2)
    ensures
      var b' := Publish(b, Payment(b, t, row));
      && Copied(b', t, row) && Carries(b', row, 1)
      && b'.rows.accounts[row.sender.value].balance == b.rows.accounts[row.sender.value].balance - row.amount
      && b'.rows.accounts[row.receiver.value].balance == b.rows.accounts[row.receiver.value].balance + Credited(row)
      && b'.rows.txns.Keys == b.rows.txns.Keys
  {}

  lemma PaymentMoves(b: Bank, t: TxnId, row: TxnRow)
    requires Copied(b, t, row) && Carries(b, row, 1)
    ensures
      var b' := Publish(b, Payment(b, t, row));
      && MovesOf(b'.ledger, t) == MovesOf(b.ledger, t) + Expected(row)
      && row.sender.value in b'.rows.accounts && row.receiver.value in b'.rows.accounts
      && b'.rows.accounts[row.sender.value].balance == b.rows.accounts[row.sender.value].balance - row.amount
      && b'.rows.accounts[row.receiver.value].balance == b.rows.accounts[row.receiver.value].balance + Credited(row)
  {
    MovementFolds(b, t, row, b.rows.accounts[row.sender.value].currency, b.rows.accounts[row.receiver.value].currency, 0, t);
  }

  lemma TwoPayments(b: Bank, t: TxnId, row: TxnRow)
    requires Copied(b, t, row) && Carries(b, row, 2) && MovesOf(b.ledger, t) == []
    ensures
      var b1 := Publish(b, Payment(b, t, row));
      && Copied(b1, t, row)
      && var b' := Publish(b1, Payment(b1, t, row));
      && MovesOf(b'.ledger, t) == Expected(row) + Expected(row)
      && row.sender.value in b'.rows.accounts && row.receiver.value in b'.rows.accounts
      && b'.rows.accounts[row.sender.value].balance == b.rows.accounts[row.sender.value].balance - 2 * row.amount
      && b'.rows.accounts[row.receiver.value].balance == b.rows.accounts[row.receiver.value].balance + 2 * Credited(row)
  {
    PaymentCarriesOn(b, t, row);
    PaymentMoves(b, t, row);
    PaymentMoves(Publish(b, Payment(b, t, row)), t, row);
  }

  /** Two requests read the transfer without a lock. */
  function BothRead(t: TxnId): seq<Event> {
    [Open(0, Confirm(t)), Peek(0, TxnR(t)), Open(1, Confirm(t)), Peek(1, TxnR(t))]
  }

  lemma BothHaveRead(b: Bank, t: TxnId)
    requires t in b.rows.txns
    ensures CanPlayKeeping(Quiet(b), BothRead(t))
    ensures
      var m := PlayKeeping(Quiet(b), BothRead(t));
      && m.db == b && m.locks == map[] && m.sessions.Keys == {0, 1}
      && HasRead(m.sessions[0], t, b.rows.txns[t]) && HasRead(m.sessions[1], t, b.rows.txns[t])
  {
    var m0 := Quiet(b);
    var m1 := NextKeeping(m0, Open(0, Confirm(t)));
    var m2 := NextKeeping(m1, Peek(0, TxnR(t)));
    var m3 := NextKeeping(m2, Open(1, Confirm(t)));
    var m4 := NextKeeping(m3, Peek(1, TxnR(t)));
    PlayOneKeeping(m3, Peek(1, TxnR(t)), []);
    PlayOneKeeping(m2, Open(1, Confirm(t)), [Peek(1, TxnR(t))] + []);
    var rest := [Open(1, Confirm(t))] + ([Peek(1, TxnR(t))] + []);
    PlayOneKeeping(m1, Peek(0, TxnR(t)), rest);
    PlayOneKeeping(m0, Open(0, Confirm(t)), [Peek(0, TxnR(t))] + rest);
    assert [Open(0, Confirm(t))] + ([Peek(0, TxnR(t))] + rest) == BothRead(t);
  }

  /** Both read, then one confirms, then the other. */
  function Double(t: TxnId, id: TxnId): seq<Event> {
    BothRead(t) + (Confirmation(0, id) + Confirmation(1, id))
  }

  lemma ConfirmsTwice(b: Bank, t: TxnId, id: TxnId)
    requires t in b.rows.txns && Copied(b, t, b.rows.txns[t]) && Carries(b, b.rows.txns[t], 2) && id !in b.rows.txns
    ensures CanPlayKeeping(Quiet(b), Double(t, id))
    ensures
      var row := b.rows.txns[t];
      var b1 := Publish(b, Payment(b, t, row));
      && Copied(b1, t, row)
      && PlayKeeping(Quiet(b), Double(t, id)).db == Publish(b1, Payment(b1, t, row))
  {
    var m0, row := Quiet(b), b.rows.txns[t];
    BothHaveRead(b, t);
    var m1 := PlayKeeping(m0, BothRead(t));
    DecidesToPay(b, t, row);
    ConfirmsOnCopy(m1, b, 0, t, row, id, Payment(b, t, row));
    var m2 := PlayKeeping(m1, Confirmation(0, id));
    var b1 := m2.db;
    PaymentCarriesOn(b, t, row);
    DecidesToPay(b1, t, row);
    ConfirmsOnCopy(m2, b1, 1, t, row, id, Payment(b1, t, row));
    PlayBothKeeping(m1, Confirmation(0, id), Confirmation(1, id));
    PlayBothKeeping(m0, BothRead(t), Confirmation(0, id) + Confirmation(1, id));
  }

  /**
   From every quiet state with the invariant: a PENDING transfer that its accounts can carry twice is
   executed twice by two requests. The ledger has its movements twice, and both accounts move twice.
   */
  lemma KeptCopiesPayTwice(b: Bank, t: TxnId, id: TxnId)
    requires BankInv(b) && id !in b.rows.txns
    requires t in b.rows.txns && Copied(b, t, b.rows.txns[t]) && Carries(b, b.rows.txns[t], 2)
    ensures CanPlayKeeping(Quiet(b), Double(t, id))
    ensures
      var row, b' := b.rows.txns[t], PlayKeeping(Quiet(b), Double(t, id)).db;
      && MovesOf(b'.ledger, t) == Expected(row) + Expected(row)
      && row.sender.value in b'.rows.accounts && row.receiver.value in b'.rows.accounts
      && b'.rows.accounts[row.sender.value].balance == b.rows.accounts[row.sender.value].balance - 2 * row.amount
      && b'.rows.accounts[row.receiver.value].balance == b.rows.accounts[row.receiver.value].balance + 2 * Credited(row)
  {
    assert StatusOk(b, t);
    ConfirmsTwice(b, t, id);
    TwoPayments(b, t, b.rows.txns[t]);
  }
}
