/**
 Concurrent sessions over one database. A session reads rows without locks into its identity map,
 takes row locks one at a time (SELECT ... FOR UPDATE with populate_existing), decides on the rows of
 its identity map, and publishes its writes at commit. Unlocked reads may be arbitrarily stale.
 */
module Interleaving {
  import opened Basics
  import opened Schema
  import opened Operations
  import opened Laws
  import opened Invariants

  type SessionId = int

  // ---- Row locks -------------------------------------------------------------------------------

  datatype Resource = CardR(card: CardId) | TxnR(txn: TxnId) | AccountR(account: AccountId)

  function Class(r: Resource): nat {
    if r.CardR? then 0 else if r.TxnR? then 1 else 2
  }

  /** The lock order: cards, then transactions, then accounts by id. */
  predicate Before(r: Resource, q: Resource) {
    Class(r) < Class(q) || (r.AccountR? && q.AccountR? && r.account < q.account)
  }

  /** The accounts of a transaction in lock order. */
  function AccountLocks(s: Option<AccountId>, r: Option<AccountId>): seq<Resource> {
    if s.None? && r.None? then []
    else if r.None? || s == r then [AccountR(s.value)]
    else if s.None? then [AccountR(r.value)]
    else if s.value < r.value then [AccountR(s.value), AccountR(r.value)]
    else [AccountR(r.value), AccountR(s.value)]
  }

  /** The rows a call locks, in order, as far as the rows read so far determine them. */
  function Plan(call: Call, rows: Tables): seq<Resource> {
    match call
    case Confirm(t) =>
      [TxnR(t)] +
      (if t in rows.txns && rows.txns[t].status == Pending
       then AccountLocks(rows.txns[t].sender, rows.txns[t].receiver) else [])
    case DepositTo(a, _, _) => [AccountR(a)]
    case WithdrawFrom(a, _, _) => [AccountR(a)]
    case PayByCard(c, _, _) =>
      [CardR(c)] +
      (if CardVisible(rows, c) && rows.cards[c].status == CardActive then [AccountR(rows.cards[c].account)] else [])
    case Reverse(t) =>
      [TxnR(t)] +
      (if t in rows.txns && rows.txns[t].status == Success && rows.txns[t].kind != CardPayment
       then AccountLocks(rows.txns[t].sender, rows.txns[t].receiver) else [])
  }

  predicate Visible(rows: Tables, r: Resource) {
    match r
    case CardR(c) => CardVisible(rows, c)
    case TxnR(t) => t in rows.txns
    case AccountR(a) => a in rows.accounts
  }

  predicate SameRow(v: Tables, w: Tables, r: Resource) {
    && Visible(v, r) == Visible(w, r)
    && (Visible(v, r) ==>
          match r
          case CardR(c) => v.cards[c] == w.cards[c]
          case TxnR(t) => v.txns[t] == w.txns[t]
          case AccountR(a) => v.accounts[a] == w.accounts[a])
  }

  /** Overwrite the cached copy of r by the row just read. */
  function Refresh(cache: Tables, rows: Tables, r: Resource): Tables
    requires Visible(rows, r)
  {
    match r
    case CardR(c) => cache.(cards := cache.cards[c := rows.cards[c]])
    case TxnR(t) => cache.(txns := cache.txns[t := rows.txns[t]])
    case AccountR(a) => cache.(accounts := cache.accounts[a := rows.accounts[a]])
  }

  /** The cached copy of r, if any: the identity map keeps the object it already has. */
  predicate Cached(cache: Tables, r: Resource) {
    match r
    case CardR(c) => c in cache.cards
    case TxnR(t) => t in cache.txns
    case AccountR(a) => a in cache.accounts
  }

  // ---- Sessions --------------------------------------------------------------------------------

  /**
   Reading: unlocked reads. Locking: the first `taken` rows of the plan are locked. Ready: decided,
   about to commit. Failing: rolled back, about to re-read the transaction. Condemning: has read the
   transaction as PENDING without a lock and is about to write FAILED. Done: nothing left to do.
   */
  datatype Phase =
    | Reading
    | Locking(taken: nat)
    | Ready(id: TxnId, writes: Writes)
    | Failing
    | Condemning
    | Done

  datatype Session = Session(call: Call, cache: Tables, phase: Phase)

  datatype Machine = Machine(db: Bank, locks: map<Resource, SessionId>, sessions: map<SessionId, Session>)

  const NO_ROWS := Tables(map[], map[], map[])

  /**
   GiveUp stands for every unlocked decision to fail a transaction read as PENDING: an expired or
   exhausted one-time code in confirm_transfer, and the expiry sweep. Environment steps are the
   administrators' and customers' single-row writes and inserts.
   */
  datatype Event =
    | Open(s: SessionId, call: Call)
    | Peek(s: SessionId, r: Resource)
    | BeginLocking(s: SessionId)
    | GiveUp(s: SessionId)
    | Quit(s: SessionId)
    | Lock(s: SessionId)
    | Miss(s: SessionId)
    | Compute(s: SessionId, id: TxnId)
    | Finish(s: SessionId)
    | Reload(s: SessionId)
    | Condemn(s: SessionId)
    | Environment(action: Action)

  /** No session is active. */
  function Quiet(b: Bank): Machine {
    Machine(b, map[], map[])
  }

  /** The next row that a locking session asks for. */
  function Wanted(session: Session): Option<Resource> {
    if session.phase.Locking? && session.phase.taken < |Plan(session.call, session.cache)|
    then Some(Plan(session.call, session.cache)[session.phase.taken])
    else None
  }

  predicate PendingCopy(session: Session) {
    && session.call.Confirm?
    && session.call.txn in session.cache.txns
    && session.cache.txns[session.call.txn].status == Pending
  }

  predicate Reserved(m: Machine, id: TxnId) {
    exists s | s in m.sessions :: m.sessions[s].phase.Ready? && m.sessions[s].phase.id == id
  }

  /** A row that an environment step updates must not be locked; an inserted id is a fresh UUID. */
  predicate EnvironmentMay(m: Machine, action: Action) {
    match action
    case SetAccountStatus(a, _) => AccountR(a) !in m.locks
    case BlockCard(c) => CardR(c) !in m.locks
    case DeleteCard(c) => CardR(c) !in m.locks
    case Initiate(t, _) => !Reserved(m, t)
    case OpenAccount(_, _, _) => true
    case IssueCard(_, _) => true
    case Commit(_, _) => false
    case LateFail(_) => false
  }

  predicate Enabled(m: Machine, e: Event) {
    match e
    case Open(s, _) => s !in m.sessions
    case Peek(s, r) => s in m.sessions && m.sessions[s].phase.Reading? && Visible(m.db.rows, r)
    case BeginLocking(s) =>
      s in m.sessions && m.sessions[s].phase.Reading? && (m.sessions[s].call.Confirm? ==> PendingCopy(m.sessions[s]))
    case GiveUp(s) => s in m.sessions && m.sessions[s].phase.Reading? && PendingCopy(m.sessions[s])
    case Quit(s) => s in m.sessions && m.sessions[s].phase.Reading?
    case Lock(s) =>
      s in m.sessions && var wanted := Wanted(m.sessions[s]);
      wanted.Some? && Visible(m.db.rows, wanted.value) && wanted.value !in m.locks
    case Miss(s) =>
      s in m.sessions && var wanted := Wanted(m.sessions[s]); wanted.Some? && !Visible(m.db.rows, wanted.value)
    case Compute(s, id) =>
      && s in m.sessions && m.sessions[s].phase.Locking? && Wanted(m.sessions[s]).None?
      && id !in m.db.rows.txns && !Reserved(m, id)
    case Finish(s) => s in m.sessions && m.sessions[s].phase.Ready?
    case Reload(s) => s in m.sessions && m.sessions[s].phase.Failing? && m.sessions[s].call.Confirm?
    case Condemn(s) =>
      && s in m.sessions && m.sessions[s].phase.Condemning? && m.sessions[s].call.Confirm?
      && TxnR(m.sessions[s].call.txn) !in m.locks
      && m.sessions[s].call.txn in m.db.rows.txns
    case Environment(action) => Can(m.db, action) && EnvironmentMay(m, action)
  }

  function Released(m: Machine, s: SessionId): map<Resource, SessionId> {
    map r | r in m.locks && m.locks[r] != s :: m.locks[r]
  }

  function With(m: Machine, s: SessionId, session: Session): Machine {
    m.(sessions := m.sessions[s := session])
  }

  /** Rollback releases the locks and expires the identity map. */
  function RolledBack(m: Machine, s: SessionId, phase: Phase): Machine
    requires s in m.sessions
  {
    With(m, s, m.sessions[s].(phase := phase, cache := NO_ROWS)).(locks := Released(m, s))
  }

  /** After a domain error only a confirmation goes on, to fail its transaction. */
  function AfterRefusal(call: Call): Phase {
    if call.Confirm? then Failing else Done
  }

  function Next(m: Machine, e: Event): Machine
    requires Enabled(m, e)
  {
    match e
    case Open(s, call) => With(m, s, Session(call, NO_ROWS, Reading))
    case Peek(s, r) =>
      var session := m.sessions[s];
      if Cached(session.cache, r) then m else With(m, s, session.(cache := Refresh(session.cache, m.db.rows, r)))
    case BeginLocking(s) => With(m, s, m.sessions[s].(phase := Locking(0)))
    case GiveUp(s) => With(m, s, m.sessions[s].(phase := Condemning))
    case Quit(s) => With(m, s, m.sessions[s].(phase := Done))
    case Lock(s) =>
      var session := m.sessions[s];
      var r := Wanted(session).value;
      With(m, s, session.(cache := Refresh(session.cache, m.db.rows, r), phase := Locking(session.phase.taken + 1)))
        .(locks := m.locks[r := s])
    case Miss(s) => RolledBack(m, s, AfterRefusal(m.sessions[s].call))
    case Compute(s, id) =>
      var session := m.sessions[s];
      (match Decide(session.call, id, session.cache, ReversalSeen(session.call, m.db.rows))
       case Proceed(w) => With(m, s, session.(phase := Ready(id, w)))
       case Refuse(_) => RolledBack(m, s, AfterRefusal(session.call))
       case Abort => RolledBack(m, s, Done)
       case Crash => RolledBack(m, s, Done))
    case Finish(s) =>
      With(m, s, m.sessions[s].(phase := Done)).(db := Publish(m.db, m.sessions[s].phase.writes), locks := Released(m, s))
    case Reload(s) =>
      var t := m.sessions[s].call.txn;
      var pending := t in m.db.rows.txns && m.db.rows.txns[t].status == Pending;
      With(m, s, m.sessions[s].(phase := if pending then Condemning else Done))
    case Condemn(s) =>
      var t := m.sessions[s].call.txn;
      With(m, s, m.sessions[s].(phase := Done)).(db := WithTxn(m.db, t, m.db.rows.txns[t].(status := Failed)))
    case Environment(action) => m.(db := Do(m.db, action))
  }

  // ---- The invariant ---------------------------------------------------------------------------

  /** How many rows of its plan a session has locked. */
  function Taken(session: Session): nat {
    match session.phase
    case Locking(k) => k
    case Ready(_, _) => |Plan(session.call, session.cache)|
    case _ => 0
  }

  /** The rows a session has locked, in the order in which it locked them. */
  function Held(session: Session): seq<Resource> {
    var plan := Plan(session.call, session.cache);
    if Taken(session) <= |plan| then plan[..Taken(session)] else plan
  }

  /** Cached transaction rows may be stale in their status only, and PENDING copies are initiated transfers. */
  predicate CopyOk(cache: Tables, rows: Tables, t: TxnId)
    requires t in cache.txns
  {
    && t in rows.txns
    && rows.txns[t] == cache.txns[t].(status := rows.txns[t].status)
    && (cache.txns[t].status == Pending ==> Initiated(cache.txns[t]))
  }

  predicate CopiesOk(cache: Tables, rows: Tables) {
    forall t | t in cache.txns :: CopyOk(cache, rows, t)
  }

  /** The rows a session has locked are in the database and its copies of them are current. */
  predicate HeldFresh(session: Session, rows: Tables) {
    && Taken(session) <= |Plan(session.call, session.cache)|
    && forall r | r in Held(session) :: Visible(rows, r) && SameRow(session.cache, rows, r)
  }

  predicate PhaseOk(session: Session, rows: Tables) {
    match session.phase
    case Ready(id, w) =>
      id !in rows.txns && Decide(session.call, id, session.cache, ReversalSeen(session.call, rows)) == Proceed(w)
    case Condemning =>
      session.call.Confirm? && session.call.txn in rows.txns && Initiated(rows.txns[session.call.txn])
    case Failing => session.call.Confirm?
    case _ => true
  }

  predicate SessionOk(session: Session, rows: Tables) {
    CopiesOk(session.cache, rows) && HeldFresh(session, rows) && PhaseOk(session, rows)
  }

  /** The lock table lists exactly the rows that the sessions hold. */
  predicate LocksOk(m: Machine) {
    && (forall r | r in m.locks :: m.locks[r] in m.sessions && r in Held(m.sessions[m.locks[r]]))
    && (forall s | s in m.sessions :: forall r | r in Held(m.sessions[s]) :: r in m.locks && m.locks[r] == s)
  }

  predicate IdsOk(m: Machine) {
    forall s, s' | s in m.sessions && s' in m.sessions && m.sessions[s].phase.Ready? && m.sessions[s'].phase.Ready? ::
      m.sessions[s].phase.id == m.sessions[s'].phase.id ==> s == s'
  }

  ghost predicate MachineInv(m: Machine) {
    && BankInv(m.db)
    && LocksOk(m)
    && IdsOk(m)
    && forall s | s in m.sessions :: SessionOk(m.sessions[s], m.db.rows)
  }

  // ---- A decision depends only on the rows of the plan -----------------------------------------

  /** The accounts of a planned transaction agree. */
  lemma AccountsFrame(call: Call, v: Tables, w: Tables, t: TxnRow)
    requires forall r | r in Plan(call, v) :: SameRow(v, w, r)
    requires Plan(call, v)[1..] == AccountLocks(t.sender, t.receiver)
    ensures t.sender.Some? ==> SameRow(v, w, AccountR(t.sender.value))
    ensures t.receiver.Some? ==> SameRow(v, w, AccountR(t.receiver.value))
  {
    var locks := AccountLocks(t.sender, t.receiver);
    if t.sender.Some? {
      assert AccountR(t.sender.value) == locks[0] || AccountR(t.sender.value) == locks[1];
      assert AccountR(t.sender.value) in Plan(call, v)[1..];
    }
    if t.receiver.Some? {
      assert AccountR(t.receiver.value) == locks[0] || AccountR(t.receiver.value) == locks[1];
      assert AccountR(t.receiver.value) in Plan(call, v)[1..];
    }
  }

  lemma ConfirmFrame(call: Call, v: Tables, w: Tables)
    requires call.Confirm?
    requires forall r | r in Plan(call, v) :: SameRow(v, w, r)
    ensures DecideConfirm(v, call.txn) == DecideConfirm(w, call.txn)
    ensures Plan(call, v) == Plan(call, w)
  {
    assert SameRow(v, w, Plan(call, v)[0]);
    if call.txn in v.txns && v.txns[call.txn].status == Pending {
      AccountsFrame(call, v, w, v.txns[call.txn]);
    }
  }

  lemma ReverseFrame(call: Call, id: TxnId, v: Tables, w: Tables, hasReversal: bool)
    requires call.Reverse?
    requires forall r | r in Plan(call, v) :: SameRow(v, w, r)
    requires id in v.txns <==> id in w.txns
    ensures DecideReverse(v, id, call.txn, hasReversal) == DecideReverse(w, id, call.txn, hasReversal)
    ensures Plan(call, v) == Plan(call, w)
  {
    assert SameRow(v, w, Plan(call, v)[0]);
    if call.txn in v.txns && v.txns[call.txn].status == Success && v.txns[call.txn].kind != CardPayment {
      AccountsFrame(call, v, w, v.txns[call.txn]);
    }
  }

  /** Two sets of rows that agree on the plan lead to the same decision. */
  lemma DecideFrame(call: Call, id: TxnId, v: Tables, w: Tables, hasReversal: bool)
    requires forall r | r in Plan(call, v) :: SameRow(v, w, r)
    requires id in v.txns <==> id in w.txns
    ensures Decide(call, id, v, hasReversal) == Decide(call, id, w, hasReversal)
    ensures Plan(call, v) == Plan(call, w)
  {
    var plan := Plan(call, v);
    assert SameRow(v, w, plan[0]);
    if |plan| > 1 {
      assert SameRow(v, w, plan[1]);
    }
    match call {
      case Confirm(_) => ConfirmFrame(call, v, w);
      case Reverse(_) => ReverseFrame(call, id, v, w, hasReversal);
      case _ =>
    }
  }

  lemma LockedAccount(call: Call, rows: Tables, a: AccountId)
    requires Known(call, rows)
    requires call.Confirm? ==> rows.txns[call.txn].status == Pending
    requires call.Reverse? ==> rows.txns[call.txn].status == Success && rows.txns[call.txn].kind != CardPayment
    requires call.PayByCard? ==> rows.cards[call.card].status == CardActive
    requires Some(a) in {PostedRow(call, rows).sender, PostedRow(call, rows).receiver}
    ensures AccountR(a) in Plan(call, rows)
  {
    var plan := Plan(call, rows);
    assert AccountR(a) == plan[0] || (|plan| > 1 && AccountR(a) == plan[1]) || (|plan| > 2 && AccountR(a) == plan[2]);
  }

  /** A commit writes only rows of the plan, and the row it inserts. */
  lemma WritesAreLocked(call: Call, id: TxnId, rows: Tables, hasReversal: bool)
    requires Decide(call, id, rows, hasReversal).Proceed?
    ensures
      var w := Decide(call, id, rows, hasReversal).writes;
      && (forall a | a in w.accounts :: AccountR(a) in Plan(call, rows))
      && (forall t | t in w.txns :: t == id || TxnR(t) in Plan(call, rows))
  {
    ProceedPosts(call, id, rows, hasReversal);
    var t := PostedRow(call, rows);
    if call.Confirm? || call.Reverse? {
      assert Plan(call, rows)[0] == TxnR(call.txn);
    }
    if t.sender.Some? {
      LockedAccount(call, rows, t.sender.value);
    }
    if t.receiver.Some? {
      LockedAccount(call, rows, t.receiver.value);
    }
  }

  /** Plans are strictly ascending in the lock order. */
  lemma PlanAscends(call: Call, rows: Tables, i: nat, j: nat)
    requires i < j < |Plan(call, rows)|
    ensures Before(Plan(call, rows)[i], Plan(call, rows)[j])
  {}

  /** Re-reading the row just locked does not change what was planned up to it. */
  lemma PlanPrefix(call: Call, cache: Tables, rows: Tables, k: nat)
    requires k < |Plan(call, cache)| && Visible(rows, Plan(call, cache)[k])
    ensures
      var cache' := Refresh(cache, rows, Plan(call, cache)[k]);
      && k < |Plan(call, cache')|
      && Plan(call, cache')[..k + 1] == Plan(call, cache)[..k + 1]
  {}
}
