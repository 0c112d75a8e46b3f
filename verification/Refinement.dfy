/**
 Every interleaving refines the atomic operations: the invariant of the machine, and the step of the
 committed rows that each event is.
 */
module Refinement {
  import opened Basics
  import opened Schema
  import opened Operations
  import opened Laws
  import opened Invariants
  import opened Conservation
  import opened Runs
  import opened Interleaving

  // ---- The lock table --------------------------------------------------------------------------

  lemma LocksKept(m: Machine, s: SessionId, session: Session)
    requires LocksOk(m)
    requires Held(session) == if s in m.sessions then Held(m.sessions[s]) else []
    ensures LocksOk(With(m, s, session))
  {}

  lemma LocksReleased(m: Machine, s: SessionId, session: Session)
    requires LocksOk(m) && s in m.sessions && Held(session) == []
    ensures LocksOk(With(m, s, session).(locks := Released(m, s)))
  {}

  lemma LocksTaken(m: Machine, s: SessionId, session: Session, r: Resource)
    requires LocksOk(m) && s in m.sessions && r !in m.locks
    requires Held(session) == Held(m.sessions[s]) + [r]
    ensures LocksOk(With(m, s, session).(locks := m.locks[r := s]))
  {
    var m' := With(m, s, session).(locks := m.locks[r := s]);
    forall q | q in m'.locks ensures m'.locks[q] in m'.sessions && q in Held(m'.sessions[m'.locks[q]]) {
      if q == r {
        assert Held(session)[|Held(session)| - 1] == r;
      }
    }
  }

  // ---- What other sessions may rely on ---------------------------------------------------------

  /** rows' may follow rows without disturbing a session: the rows it holds are as they were. */
  predicate Undisturbed(session: Session, rows: Tables, rows': Tables) {
    && (forall t | t in rows.txns :: t in rows'.txns && rows'.txns[t] == rows.txns[t].(status := rows'.txns[t].status))
    && (forall r | r in Held(session) :: SameRow(rows, rows', r))
    && (session.phase.Ready? ==> session.phase.id !in rows'.txns)
    && (session.phase.Ready? ==> ReversalSeen(session.call, rows') == ReversalSeen(session.call, rows))
  }

  lemma SessionStable(session: Session, rows: Tables, rows': Tables)
    requires SessionOk(session, rows) && Undisturbed(session, rows, rows')
    ensures SessionOk(session, rows')
  {
    forall t | t in session.cache.txns ensures CopyOk(session.cache, rows', t) {
      assert CopyOk(session.cache, rows, t);
    }
    forall r | r in Held(session) ensures Visible(rows', r) && SameRow(session.cache, rows', r) {
      assert Visible(rows, r) && SameRow(session.cache, rows, r);
      assert SameRow(rows, rows', r);
    }
  }

  ghost predicate SessionsOk(m: Machine) {
    forall s | s in m.sessions :: SessionOk(m.sessions[s], m.db.rows)
  }

  lemma SessionsStable(m: Machine, rows': Tables, except: set<SessionId>)
    requires SessionsOk(m)
    requires forall s | s in m.sessions && s !in except :: Undisturbed(m.sessions[s], m.db.rows, rows')
    ensures forall s | s in m.sessions && s !in except :: SessionOk(m.sessions[s], rows')
  {
    forall s | s in m.sessions && s !in except ensures SessionOk(m.sessions[s], rows') {
      SessionStable(m.sessions[s], m.db.rows, rows');
    }
  }

  // ---- Events that only change their session ----------------------------------------------------

  lemma RefreshKeepsCopies(cache: Tables, b: Bank, r: Resource)
    requires BankInv(b) && CopiesOk(cache, b.rows) && Visible(b.rows, r)
    ensures CopiesOk(Refresh(cache, b.rows, r), b.rows)
  {
    var cache' := Refresh(cache, b.rows, r);
    forall t | t in cache'.txns ensures CopyOk(cache', b.rows, t) {
      if r == TxnR(t) {
        assert StatusOk(b, t);
      } else {
        assert CopyOk(cache, b.rows, t);
      }
    }
  }

  lemma PeekKeepsInv(m: Machine, s: SessionId, r: Resource)
    requires MachineInv(m) && Enabled(m, Peek(s, r))
    ensures MachineInv(Next(m, Peek(s, r)))
  {
    var session := m.sessions[s];
    if !Cached(session.cache, r) {
      RefreshKeepsCopies(session.cache, m.db, r);
      var session' := session.(cache := Refresh(session.cache, m.db.rows, r));
      LocksKept(m, s, session');
      assert SessionOk(session', m.db.rows);
    }
  }

  lemma RefreshKeepsOthers(cache: Tables, rows: Tables, r: Resource, q: Resource)
    requires Visible(rows, r) && SameRow(cache, rows, q)
    ensures SameRow(Refresh(cache, rows, r), rows, q)
  {}

  /** Locking a row refreshes its copy and keeps the earlier ones. */
  lemma LockedSessionOk(session: Session, b: Bank, r: Resource)
    requires SessionOk(session, b.rows) && BankInv(b)
    requires Wanted(session) == Some(r) && Visible(b.rows, r)
    ensures
      var session' := session.(cache := Refresh(session.cache, b.rows, r), phase := Locking(session.phase.taken + 1));
      && Held(session') == Held(session) + [r]
      && SessionOk(session', b.rows)
  {
    var k := session.phase.taken;
    RefreshKeepsCopies(session.cache, b, r);
    PlanPrefix(session.call, session.cache, b.rows, k);
    var session' := session.(cache := Refresh(session.cache, b.rows, r), phase := Locking(k + 1));
    assert Held(session') == Plan(session.call, session.cache)[..k + 1] == Held(session) + [r];
    forall q | q in Held(session') ensures Visible(b.rows, q) && SameRow(session'.cache, b.rows, q) {
      if q != r {
        assert q in Held(session);
        RefreshKeepsOthers(session.cache, b.rows, r, q);
      }
    }
  }

  lemma LockKeepsInv(m: Machine, s: SessionId)
    requires MachineInv(m) && Enabled(m, Lock(s))
    ensures MachineInv(Next(m, Lock(s)))
  {
    var session, r := m.sessions[s], Wanted(m.sessions[s]).value;
    LockedSessionOk(session, m.db, r);
    LocksTaken(m, s, Next(m, Lock(s)).sessions[s], r);
  }

  lemma RollbackKeepsInv(m: Machine, s: SessionId, phase: Phase)
    requires MachineInv(m) && s in m.sessions
    requires phase == Done || (phase == Failing && m.sessions[s].call.Confirm?)
    ensures MachineInv(RolledBack(m, s, phase))
  {
    var session' := m.sessions[s].(phase := phase, cache := NO_ROWS);
    LocksReleased(m, s, session');
    assert SessionOk(session', m.db.rows);
  }

  lemma CopiesExist(cache: Tables, rows: Tables, t: TxnId)
    requires CopiesOk(cache, rows)
    ensures t in cache.txns ==> t in rows.txns
  {
    assert t in cache.txns ==> CopyOk(cache, rows, t);
  }

  /** The decision on the identity map is the decision on the committed rows. */
  lemma DecisionIsCurrent(m: Machine, s: SessionId, id: TxnId)
    requires MachineInv(m) && Enabled(m, Compute(s, id))
    ensures
      var session := m.sessions[s];
      Decide(session.call, id, session.cache, ReversalSeen(session.call, m.db.rows)) == DecideNow(session.call, id, m.db)
  {
    var session := m.sessions[s];
    assert SessionOk(session, m.db.rows);
    assert Held(session) == Plan(session.call, session.cache);
    CopiesExist(session.cache, m.db.rows, id);
    DecideFrame(session.call, id, session.cache, m.db.rows, ReversalSeen(session.call, m.db.rows));
  }

  lemma ComputeKeepsInv(m: Machine, s: SessionId, id: TxnId)
    requires MachineInv(m) && Enabled(m, Compute(s, id))
    ensures MachineInv(Next(m, Compute(s, id)))
  {
    var session := m.sessions[s];
    assert SessionOk(session, m.db.rows);
    match Decide(session.call, id, session.cache, ReversalSeen(session.call, m.db.rows))
    case Proceed(w) =>
      var session' := session.(phase := Ready(id, w));
      LocksKept(m, s, session');
      assert SessionOk(session', m.db.rows);
    case Refuse(_) => RollbackKeepsInv(m, s, AfterRefusal(session.call));
    case Abort => RollbackKeepsInv(m, s, Done);
    case Crash => RollbackKeepsInv(m, s, Done);
  }

  /** Begin, give up, quit, and the re-read after a rollback. */
  lemma PhaseStepKeepsInv(m: Machine, s: SessionId, phase: Phase)
    requires MachineInv(m) && s in m.sessions
    requires Taken(m.sessions[s]) == 0
    requires phase == Locking(0) || phase == Done ||
             (phase == Condemning && m.sessions[s].call.Confirm? &&
              m.sessions[s].call.txn in m.db.rows.txns && Initiated(m.db.rows.txns[m.sessions[s].call.txn]))
    ensures MachineInv(With(m, s, m.sessions[s].(phase := phase)))
  {
    var session' := m.sessions[s].(phase := phase);
    assert SessionOk(m.sessions[s], m.db.rows);
    LocksKept(m, s, session');
    assert SessionOk(session', m.db.rows);
  }

  // ---- Events that change the committed rows -----------------------------------------------------

  /** The event as a step of the committed rows, if it is one. */
  function StepOf(m: Machine, e: Event): Option<Action>
    requires Enabled(m, e)
  {
    match e
    case Finish(s) => Some(Commit(m.sessions[s].call, m.sessions[s].phase.id))
    case Condemn(s) => Some(LateFail(m.sessions[s].call.txn))
    case Environment(action) => Some(action)
    case _ => None
  }

  /** A commit is the atomic operation, taken at the commit point. */
  lemma CommitIsAtomic(m: Machine, s: SessionId)
    requires MachineInv(m) && Enabled(m, Finish(s))
    ensures
      var session := m.sessions[s];
      && DecideNow(session.call, session.phase.id, m.db) == Proceed(session.phase.writes)
      && Plan(session.call, m.db.rows) == Held(session)
  {
    var session := m.sessions[s];
    assert SessionOk(session, m.db.rows);
    assert Held(session) == Plan(session.call, session.cache);
    var id := session.phase.id;
    CopiesExist(session.cache, m.db.rows, id);
    DecideFrame(session.call, id, session.cache, m.db.rows, ReversalSeen(session.call, m.db.rows));
  }

  /** Two sessions never hold the same row. */
  lemma HeldApart(m: Machine, s: SessionId, q: SessionId, r: Resource)
    requires LocksOk(m) && s in m.sessions && q in m.sessions && s != q && r in Held(m.sessions[s])
    ensures r !in Held(m.sessions[q])
  {}

  /** The rows another session holds are not written by a commit. */
  lemma CommitSparesHeld(m: Machine, s: SessionId, q: SessionId, r: Resource)
    requires MachineInv(m) && Enabled(m, Finish(s)) && q in m.sessions && q != s && r in Held(m.sessions[q])
    ensures SameRow(m.db.rows, Next(m, Finish(s)).db.rows, r)
  {
    var session := m.sessions[s];
    CommitIsAtomic(m, s);
    WritesAreLocked(session.call, session.phase.id, m.db.rows, ReversalSeen(session.call, m.db.rows));
    assert SessionOk(m.sessions[q], m.db.rows) && SessionOk(session, m.db.rows);
    assert Visible(m.db.rows, r);
    HeldApart(m, q, s, r);
  }

  /** A commit does not insert the id that another session has drawn. */
  lemma CommitSparesIds(m: Machine, s: SessionId, q: SessionId)
    requires MachineInv(m) && Enabled(m, Finish(s)) && q in m.sessions && q != s && m.sessions[q].phase.Ready?
    ensures m.sessions[q].phase.id !in Next(m, Finish(s)).db.rows.txns
  {
    var session := m.sessions[s];
    CommitIsAtomic(m, s);
    WritesAreLocked(session.call, session.phase.id, m.db.rows, ReversalSeen(session.call, m.db.rows));
    assert SessionOk(m.sessions[q], m.db.rows) && SessionOk(session, m.db.rows);
    var drawn := m.sessions[q].phase.id;
    assert TxnR(drawn) in Held(session) ==> Visible(m.db.rows, TxnR(drawn));
  }

  /** Whether t has been reversed changes only when a reversal of t is inserted. */
  lemma HasReversalStable(rows: Tables, rows': Tables, t: TxnId)
    requires forall x | x in rows.txns :: x in rows'.txns && rows'.txns[x].reversalOf == rows.txns[x].reversalOf
    requires forall x | x in rows'.txns && rows'.txns[x].reversalOf == Some(t) :: x in rows.txns
    ensures HasReversal(rows', t) == HasReversal(rows, t)
  {
    if HasReversal(rows, t) {
      var x :| x in rows.txns && rows.txns[x].reversalOf == Some(t);
      assert x in rows'.txns && rows'.txns[x].reversalOf == Some(t);
    }
  }

  lemma TxnHeld(session: Session)
    requires session.phase.Ready?
    ensures session.call.Confirm? || session.call.Reverse? ==> TxnR(session.call.txn) in Held(session)
  {
    var plan := Plan(session.call, session.cache);
    assert Held(session) == plan;
    assert session.call.Confirm? || session.call.Reverse? ==> plan[0] == TxnR(session.call.txn);
  }

  /** Only a call that reverses t inserts a row that reverses t. */
  lemma NewReversals(b: Bank, call: Call, id: TxnId, t: TxnId)
    requires BankInv(b) && Can(b, Commit(call, id)) && call != Reverse(t)
    ensures
      var rows' := Do(b, Commit(call, id)).rows;
      forall x | x in rows'.txns && rows'.txns[x].reversalOf == Some(t) :: x in b.rows.txns
  {
    CommitPosts(b, call, id);
  }

  /** A new reversal concerns only the transaction that its session has locked. */
  lemma CommitSparesReversals(m: Machine, s: SessionId, q: SessionId)
    requires MachineInv(m) && Enabled(m, Finish(s)) && q in m.sessions && q != s && m.sessions[q].phase.Ready?
    requires forall t | t in m.db.rows.txns :: TxnMonotone(m.db, Next(m, Finish(s)).db, t)
    ensures ReversalSeen(m.sessions[q].call, Next(m, Finish(s)).db.rows) == ReversalSeen(m.sessions[q].call, m.db.rows)
  {
    var session, other := m.sessions[s], m.sessions[q];
    if other.call.Reverse? {
      TxnHeld(session);
      TxnHeld(other);
      HeldApart(m, q, s, TxnR(other.call.txn));
      CommitIsAtomic(m, s);
      NewReversals(m.db, session.call, session.phase.id, other.call.txn);
      var rows, rows' := m.db.rows, Next(m, Finish(s)).db.rows;
      forall x | x in rows.txns ensures x in rows'.txns && rows'.txns[x].reversalOf == rows.txns[x].reversalOf {
        assert TxnMonotone(m.db, Next(m, Finish(s)).db, x);
      }
      HasReversalStable(rows, rows', other.call.txn);
    }
  }

  /** A commit disturbs no other session. */
  lemma CommitDisturbsNobody(m: Machine, s: SessionId, q: SessionId)
    requires MachineInv(m) && Enabled(m, Finish(s)) && q in m.sessions && q != s
    requires forall t | t in m.db.rows.txns :: TxnMonotone(m.db, Next(m, Finish(s)).db, t)
    ensures Undisturbed(m.sessions[q], m.db.rows, Next(m, Finish(s)).db.rows)
  {
    forall r | r in Held(m.sessions[q]) ensures SameRow(m.db.rows, Next(m, Finish(s)).db.rows, r) {
      CommitSparesHeld(m, s, q, r);
    }
    if m.sessions[q].phase.Ready? {
      CommitSparesIds(m, s, q);
      CommitSparesReversals(m, s, q);
    }
  }

  lemma FinishKeepsInv(m: Machine, s: SessionId)
    requires MachineInv(m) && Enabled(m, Finish(s))
    ensures MachineInv(Next(m, Finish(s)))
    ensures Can(m.db, Commit(m.sessions[s].call, m.sessions[s].phase.id))
    ensures Next(m, Finish(s)).db == Do(m.db, Commit(m.sessions[s].call, m.sessions[s].phase.id))
  {
    CommitIsAtomic(m, s);
    var session, m' := m.sessions[s], Next(m, Finish(s));
    var action := Commit(session.call, session.phase.id);
    StepKeepsInv(m.db, action);
    StepIsMonotone(m.db, action);
    forall q | q in m.sessions && q !in {s} ensures Undisturbed(m.sessions[q], m.db.rows, m'.db.rows) {
      CommitDisturbsNobody(m, s, q);
    }
    SessionsStable(m, m'.db.rows, {s});
    LocksReleased(m, s, session.(phase := Done));
    assert SessionOk(session, m.db.rows);
    assert SessionOk(session.(phase := Done), m'.db.rows) by {
      forall t | t in session.cache.txns ensures CopyOk(session.cache, m'.db.rows, t) {
        assert CopyOk(session.cache, m.db.rows, t);
        assert TxnMonotone(m.db, m'.db, t);
      }
    }
  }

  /** rows' follows the committed rows by changes to rows that nobody has locked, and by fresh inserts. */
  predicate SparesLocks(m: Machine, rows': Tables) {
    var rows := m.db.rows;
    && (forall t | t in rows.txns :: t in rows'.txns && rows'.txns[t] == rows.txns[t].(status := rows'.txns[t].status))
    && (forall r | r in m.locks && Visible(rows, r) :: SameRow(rows, rows', r))
    && (forall t | t in rows'.txns && t !in rows.txns :: rows'.txns[t].reversalOf.None? && !Reserved(m, t))
  }

  lemma SparingDisturbsNobody(m: Machine, rows': Tables, q: SessionId)
    requires MachineInv(m) && SparesLocks(m, rows') && q in m.sessions
    ensures Undisturbed(m.sessions[q], m.db.rows, rows')
  {
    assert SessionOk(m.sessions[q], m.db.rows);
    forall r | r in Held(m.sessions[q]) ensures SameRow(m.db.rows, rows', r) {
      assert Visible(m.db.rows, r);
      assert r in m.locks;
    }
    if m.sessions[q].call.Reverse? {
      HasReversalStable(m.db.rows, rows', m.sessions[q].call.txn);
    }
  }

  lemma SparingKeepsSessions(m: Machine, rows': Tables)
    requires MachineInv(m) && SparesLocks(m, rows')
    ensures forall s | s in m.sessions :: SessionOk(m.sessions[s], rows')
  {
    forall q | q in m.sessions ensures Undisturbed(m.sessions[q], m.db.rows, rows') {
      SparingDisturbsNobody(m, rows', q);
    }
    SessionsStable(m, rows', {});
  }

  lemma FailingSparesLocks(m: Machine, t: TxnId)
    requires t in m.db.rows.txns && TxnR(t) !in m.locks
    ensures SparesLocks(m, WithTxn(m.db, t, m.db.rows.txns[t].(status := Failed)).rows)
  {}

  /** Writing FAILED waits for the row lock, so it disturbs no session that holds the row. */
  lemma CondemnKeepsInv(m: Machine, s: SessionId)
    requires MachineInv(m) && Enabled(m, Condemn(s))
    ensures MachineInv(Next(m, Condemn(s)))
    ensures Can(m.db, LateFail(m.sessions[s].call.txn))
    ensures Next(m, Condemn(s)).db == Do(m.db, LateFail(m.sessions[s].call.txn))
  {
    var session, m' := m.sessions[s], Next(m, Condemn(s));
    assert SessionOk(session, m.db.rows);
    LateFailKeepsInv(m.db, session.call.txn);
    FailingSparesLocks(m, session.call.txn);
    SparingKeepsSessions(m, m'.db.rows);
    LocksKept(m, s, session.(phase := Done));
    assert SessionOk(session, m'.db.rows);
    assert SessionOk(session.(phase := Done), m'.db.rows);
  }

  lemma EnvironmentSparesLocks(m: Machine, action: Action)
    requires Enabled(m, Environment(action))
    ensures SparesLocks(m, Do(m.db, action).rows)
  {}

  lemma EnvironmentKeepsInv(m: Machine, action: Action)
    requires MachineInv(m) && Enabled(m, Environment(action))
    ensures MachineInv(Next(m, Environment(action)))
  {
    StepKeepsInv(m.db, action);
    EnvironmentSparesLocks(m, action);
    SparingKeepsSessions(m, Do(m.db, action).rows);
  }

  // ---- The refinement --------------------------------------------------------------------------

  lemma ReloadKeepsInv(m: Machine, s: SessionId)
    requires MachineInv(m) && Enabled(m, Reload(s))
    ensures MachineInv(Next(m, Reload(s)))
  {
    var t := m.sessions[s].call.txn;
    assert StatusOk(m.db, t);
    PhaseStepKeepsInv(m, s, Next(m, Reload(s)).sessions[s].phase);
  }

  /**
   Every event keeps the invariant, and either leaves the committed rows alone or changes them
   exactly as one atomic step, enabled at that moment, would.
   */
  lemma EventRefines(m: Machine, e: Event)
    requires MachineInv(m) && Enabled(m, e)
    ensures MachineInv(Next(m, e))
    ensures
      match StepOf(m, e)
      case None => Next(m, e).db == m.db
      case Some(action) => Can(m.db, action) && Next(m, e).db == Do(m.db, action)
  {
    match e
    case Open(s, call) =>
      LocksKept(m, s, Session(call, NO_ROWS, Reading));
      assert SessionOk(Session(call, NO_ROWS, Reading), m.db.rows);
    case Peek(s, r) => PeekKeepsInv(m, s, r);
    case BeginLocking(s) => PhaseStepKeepsInv(m, s, Locking(0));
    case GiveUp(s) =>
      assert SessionOk(m.sessions[s], m.db.rows);
      assert CopyOk(m.sessions[s].cache, m.db.rows, m.sessions[s].call.txn);
      PhaseStepKeepsInv(m, s, Condemning);
    case Quit(s) => PhaseStepKeepsInv(m, s, Done);
    case Lock(s) => LockKeepsInv(m, s);
    case Miss(s) => RollbackKeepsInv(m, s, AfterRefusal(m.sessions[s].call));
    case Compute(s, id) => ComputeKeepsInv(m, s, id);
    case Finish(s) => FinishKeepsInv(m, s);
    case Reload(s) => ReloadKeepsInv(m, s);
    case Condemn(s) => CondemnKeepsInv(m, s);
    case Environment(action) => EnvironmentKeepsInv(m, action);
  }

  // ---- Plays ------------------------------------------------------------------------------------

  predicate CanPlay(m: Machine, events: seq<Event>)
    decreases |events|
  {
    events == [] || (Enabled(m, events[0]) && CanPlay(Next(m, events[0]), events[1..]))
  }

  function Play(m: Machine, events: seq<Event>): Machine
    requires CanPlay(m, events)
    decreases |events|
  {
    if events == [] then m else Play(Next(m, events[0]), events[1..])
  }

  lemma PlayOne(m: Machine, e: Event, rest: seq<Event>)
    requires Enabled(m, e) && CanPlay(Next(m, e), rest)
    ensures CanPlay(m, [e] + rest) && Play(m, [e] + rest) == Play(Next(m, e), rest)
  {
    assert ([e] + rest)[1..] == rest;
  }

  // ---- What the unlocked writer can do ------------------------------------------------------------

  /** A session with a PENDING copy may fail the transaction whatever its status has become. */
  lemma CondemnsLate(m: Machine, s: SessionId)
    requires s in m.sessions && m.sessions[s].phase.Reading? && PendingCopy(m.sessions[s])
    requires TxnR(m.sessions[s].call.txn) !in m.locks && m.sessions[s].call.txn in m.db.rows.txns
    ensures CanPlay(m, [GiveUp(s), Condemn(s)])
    ensures
      var t := m.sessions[s].call.txn;
      Play(m, [GiveUp(s), Condemn(s)]).db == WithTxn(m.db, t, m.db.rows.txns[t].(status := Failed))
  {
    var m2 := Next(m, GiveUp(s));
    var m3 := Next(m2, Condemn(s));
    assert CanPlay(m3, []);
    PlayOne(m2, Condemn(s), []);
    PlayOne(m, GiveUp(s), [Condemn(s)] + []);
    assert [GiveUp(s)] + ([Condemn(s)] + []) == [GiveUp(s), Condemn(s)];
  }

  /** After a confirmation has committed, its row lock is free. */
  lemma ConfirmedAndUnlocked(m: Machine, q: SessionId)
    requires MachineInv(m) && Enabled(m, Finish(q)) && m.sessions[q].call.Confirm?
    ensures TxnR(m.sessions[q].call.txn) !in Next(m, Finish(q)).locks
  {
    TxnHeld(m.sessions[q]);
  }

  /** After a confirmation has committed, its transaction is settled. */
  lemma ConfirmedIsSettled(m: Machine, q: SessionId)
    requires MachineInv(m) && Enabled(m, Finish(q)) && m.sessions[q].call.Confirm?
    ensures
      var t, b := m.sessions[q].call.txn, Next(m, Finish(q)).db;
      t in b.rows.txns && MovesOf(b.ledger, t) == Expected(b.rows.txns[t]) != []
  {
    var t, b := m.sessions[q].call.txn, Next(m, Finish(q)).db;
    FinishKeepsInv(m, q);
    CommitPosts(m.db, Confirm(t), m.sessions[q].phase.id);
    assert StatusOk(b, t) && ShapeOk(b.rows, b.rows.txns[t]);
  }

  /**
   A session that has read t as PENDING without a lock can fail it after another session has
   committed it: the money has moved and the status is FAILED.
   */
  lemma StaleFailureLands(m: Machine, s: SessionId, q: SessionId)
    requires MachineInv(m) && s in m.sessions && q in m.sessions
    requires m.sessions[s].phase.Reading? && PendingCopy(m.sessions[s])
    requires m.sessions[q].phase.Ready? && m.sessions[q].call == m.sessions[s].call
    ensures CanPlay(m, [Finish(q), GiveUp(s), Condemn(s)])
    ensures
      var t := m.sessions[s].call.txn;
      var b := Play(m, [Finish(q), GiveUp(s), Condemn(s)]).db;
      && t in b.rows.txns && b.rows.txns[t].status == Failed
      && MovesOf(b.ledger, t) == Expected(b.rows.txns[t]) != []
  {
    FinishKeepsInv(m, q);
    var m1 := Next(m, Finish(q));
    ConfirmedAndUnlocked(m, q);
    ConfirmedIsSettled(m, q);
    CondemnsLate(m1, s);
    PlayOne(m, Finish(q), [GiveUp(s), Condemn(s)]);
    assert [Finish(q)] + [GiveUp(s), Condemn(s)] == [Finish(q), GiveUp(s), Condemn(s)];
  }

  /** The atomic steps that a run of the machine takes, in commit order. */
  function StepsOf(m: Machine, events: seq<Event>): seq<Action>
    requires CanPlay(m, events)
    decreases |events|
  {
    if events == [] then []
    else
      (match StepOf(m, events[0])
       case None => []
       case Some(action) => [action]) + StepsOf(Next(m, events[0]), events[1..])
  }

  /** Every interleaving is a serial run of atomic steps in commit order. */
  lemma {:induction false} PlayRefinesRun(m: Machine, events: seq<Event>)
    requires MachineInv(m) && CanPlay(m, events)
    ensures MachineInv(Play(m, events))
    ensures CanRun(m.db, StepsOf(m, events))
    ensures Run(m.db, StepsOf(m, events)) == Play(m, events).db
    decreases |events|
  {
    if events != [] {
      var m' := Next(m, events[0]);
      EventRefines(m, events[0]);
      PlayRefinesRun(m', events[1..]);
      var steps, rest := StepsOf(m, events), StepsOf(m', events[1..]);
      match StepOf(m, events[0])
      case None =>
        assert steps == rest;
      case Some(action) =>
        assert steps[0] == action && steps[1..] == rest;
    }
  }

  const START := Quiet(EMPTY_BANK)

  /** Whatever the interleaving: replayable ledger, no negative balance, totals conserved. */
  lemma EveryPlayIsGood(events: seq<Event>)
    requires CanPlay(START, events)
    ensures MachineInv(Play(START, events)) && Conserved(Play(START, events).db)
    ensures var b := Play(START, events).db;
            forall a | a in b.rows.accounts :: 0 <= b.rows.accounts[a].balance == Net(b.ledger, a)
  {
    EmptyBankIsGood();
    PlayRefinesRun(START, events);
    EveryRunIsGood(StepsOf(START, events));
    var b := Play(START, events).db;
    forall a | a in b.rows.accounts ensures 0 <= b.rows.accounts[a].balance == Net(b.ledger, a) {
      assert AccountOk(b, a);
    }
  }

  /** Whatever the interleaving, no transaction is executed twice and none is reversed twice. */
  lemma EveryPlayMovesOnce(events: seq<Event>, t: TxnId, i: nat, j: nat)
    requires CanPlay(START, events) && i < j < |StepsOf(START, events)|
    ensures !(Posts(StepsOf(START, events)[i], t) && Posts(StepsOf(START, events)[j], t))
    ensures !(Reverses(StepsOf(START, events)[i], t) && Reverses(StepsOf(START, events)[j], t))
  {
    EmptyBankIsGood();
    PlayRefinesRun(START, events);
    AtMostOnce(EMPTY_BANK, StepsOf(START, events), t, i, j);
  }

  /** Whatever the interleaving, FAILED means that no money moved exactly when every unlocked FAILED landed in time. */
  lemma EveryPlayFailsExactly(events: seq<Event>)
    requires CanPlay(START, events)
    ensures CanRun(EMPTY_BANK, StepsOf(START, events))
    ensures FailedMeansUnmoved(Play(START, events).db) <==> LandsInTime(EMPTY_BANK, StepsOf(START, events))
  {
    EmptyBankIsGood();
    PlayRefinesRun(START, events);
    FailedMeansUnmovedExactly(EMPTY_BANK, StepsOf(START, events));
  }
}
