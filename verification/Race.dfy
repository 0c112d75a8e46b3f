/** The late FAILED writer does happen: from any quiet state, two requests for one payable transfer can race to it. */
module Race {
  import opened Schema
  import opened Operations
  import opened Laws
  import opened Invariants
  import opened Interleaving
  import opened Refinement

  const SLOW := 0
  const FAST := 1

  /** Both requests have read the transfer as PENDING; the fast one holds the first k rows of its plan. */
  ghost predicate Racing(m: Machine, b: Bank, t: TxnId, k: nat) {
    && MachineInv(m) && m.db == b && m.sessions.Keys == {SLOW, FAST}
    && m.sessions[SLOW].call == Confirm(t) && m.sessions[SLOW].phase == Reading && PendingCopy(m.sessions[SLOW])
    && m.sessions[FAST].call == Confirm(t) && m.sessions[FAST].phase == Locking(k) && PendingCopy(m.sessions[FAST])
  }

  /** The rows that a confirmation of t locks. */
  lemma RacePlan(m: Machine, b: Bank, t: TxnId, k: nat)
    requires Racing(m, b, t, k) && t in b.rows.txns && b.rows.txns[t].status == Pending
    ensures
      var plan := Plan(Confirm(t), m.sessions[FAST].cache);
      && |plan| == 3 && plan[0] == TxnR(t)
      && forall r | r in plan :: Visible(b.rows, r)
  {
    var cache := m.sessions[FAST].cache;
    assert SessionOk(m.sessions[FAST], b.rows);
    assert CopyOk(cache, b.rows, t);
    assert StatusOk(b, t) && ShapeOk(b.rows, b.rows.txns[t]);
  }

  /** The next row of the plan is free: whoever held it would be the fast request itself. */
  lemma NextIsFree(m: Machine, b: Bank, t: TxnId, k: nat)
    requires Racing(m, b, t, k) && k < |Plan(Confirm(t), m.sessions[FAST].cache)|
    ensures Plan(Confirm(t), m.sessions[FAST].cache)[k] !in m.locks
  {
    var session := m.sessions[FAST];
    var plan := Plan(Confirm(t), session.cache);
    var r := plan[k];
    if r in m.locks {
      assert Held(m.sessions[SLOW]) == [];
      assert r in Held(session);
      var j :| 0 <= j < k && plan[j] == r;
      PlanAscends(Confirm(t), session.cache, j, k);
    }
  }

  lemma LockNext(m: Machine, b: Bank, t: TxnId, k: nat)
    requires Racing(m, b, t, k) && t in b.rows.txns && b.rows.txns[t].status == Pending && k < 3
    ensures Enabled(m, Lock(FAST)) && Racing(Next(m, Lock(FAST)), b, t, k + 1)
  {
    RacePlan(m, b, t, k);
    NextIsFree(m, b, t, k);
    assert Plan(Confirm(t), m.sessions[FAST].cache)[k] in Plan(Confirm(t), m.sessions[FAST].cache);
    LockKeepsInv(m, FAST);
  }

  lemma ComputeNext(m: Machine, b: Bank, t: TxnId, id: TxnId)
    requires Racing(m, b, t, 3) && Can(b, Commit(Confirm(t), id)) && id !in b.rows.txns
    ensures Enabled(m, Compute(FAST, id))
    ensures
      var m' := Next(m, Compute(FAST, id));
      && MachineInv(m') && SLOW in m'.sessions && FAST in m'.sessions
      && m'.sessions[SLOW] == m.sessions[SLOW]
      && m'.sessions[FAST].call == Confirm(t) && m'.sessions[FAST].phase.Ready?
  {
    RacePlan(m, b, t, 3);
    DecisionIsCurrent(m, FAST, id);
    EventRefines(m, Compute(FAST, id));
  }

  /** One request opens and reads the transfer without a lock. */
  lemma OpenAndPeek(m: Machine, t: TxnId, s: SessionId)
    requires MachineInv(m) && s !in m.sessions && t in m.db.rows.txns && m.db.rows.txns[t].status == Pending
    ensures Enabled(m, Open(s, Confirm(t))) && Enabled(Next(m, Open(s, Confirm(t))), Peek(s, TxnR(t)))
    ensures
      var m' := Next(Next(m, Open(s, Confirm(t))), Peek(s, TxnR(t)));
      && MachineInv(m') && m'.db == m.db && m'.sessions.Keys == m.sessions.Keys + {s}
      && (forall q | q in m.sessions :: m'.sessions[q] == m.sessions[q])
      && m'.sessions[s].call == Confirm(t) && m'.sessions[s].phase == Reading && PendingCopy(m'.sessions[s])
  {
    EventRefines(m, Open(s, Confirm(t)));
    EventRefines(Next(m, Open(s, Confirm(t))), Peek(s, TxnR(t)));
  }

  /** Two requests read; the fast one starts to lock. */
  function Start(t: TxnId): seq<Event> {
    [Open(SLOW, Confirm(t)), Peek(SLOW, TxnR(t)), Open(FAST, Confirm(t)), Peek(FAST, TxnR(t)), BeginLocking(FAST)]
  }

  lemma RaceStarts(b: Bank, t: TxnId)
    requires BankInv(b) && t in b.rows.txns && b.rows.txns[t].status == Pending
    ensures CanPlay(Quiet(b), Start(t)) && Racing(Play(Quiet(b), Start(t)), b, t, 0)
  {
    var m0 := Quiet(b);
    OpenAndPeek(m0, t, SLOW);
    var m1 := Next(m0, Open(SLOW, Confirm(t)));
    var m2 := Next(m1, Peek(SLOW, TxnR(t)));
    OpenAndPeek(m2, t, FAST);
    var m3 := Next(m2, Open(FAST, Confirm(t)));
    var m4 := Next(m3, Peek(FAST, TxnR(t)));
    EventRefines(m4, BeginLocking(FAST));
    var m5 := Next(m4, BeginLocking(FAST));
    PlayOne(m4, BeginLocking(FAST), []);
    PlayOne(m3, Peek(FAST, TxnR(t)), [BeginLocking(FAST)] + []);
    PlayOne(m2, Open(FAST, Confirm(t)), [Peek(FAST, TxnR(t))] + ([BeginLocking(FAST)] + []));
    PlayOne(m1, Peek(SLOW, TxnR(t)), [Open(FAST, Confirm(t))] + ([Peek(FAST, TxnR(t))] + ([BeginLocking(FAST)] + [])));
    var rest := [Peek(SLOW, TxnR(t))] + ([Open(FAST, Confirm(t))] + ([Peek(FAST, TxnR(t))] + ([BeginLocking(FAST)] + [])));
    PlayOne(m0, Open(SLOW, Confirm(t)), rest);
    assert [Open(SLOW, Confirm(t))] + rest == Start(t);
  }

  function Locks(n: nat): seq<Event> {
    if n == 0 then [] else [Lock(FAST)] + Locks(n - 1)
  }

  /** The fast request locks the rest of its three rows. */
  lemma {:induction false} RaceLocks(m: Machine, b: Bank, t: TxnId, k: nat)
    requires Racing(m, b, t, k) && k <= 3 && t in b.rows.txns && b.rows.txns[t].status == Pending
    ensures CanPlay(m, Locks(3 - k)) && Racing(Play(m, Locks(3 - k)), b, t, 3)
    decreases 3 - k
  {
    if k < 3 {
      LockNext(m, b, t, k);
      RaceLocks(Next(m, Lock(FAST)), b, t, k + 1);
      PlayOne(m, Lock(FAST), Locks(2 - k));
    }
  }

  /** The fast request commits, and then the slow one fails the transfer that it read as PENDING. */
  function Finale(id: TxnId): seq<Event> {
    [Compute(FAST, id)] + [Finish(FAST), GiveUp(SLOW), Condemn(SLOW)]
  }

  /** The transfer is FAILED, and the ledger has all of its entries. */
  predicate FailedWithEntries(b: Bank, t: TxnId) {
    && t in b.rows.txns && b.rows.txns[t].status == Failed
    && MovesOf(b.ledger, t) == Expected(b.rows.txns[t]) != []
  }

  lemma RaceEnds(m: Machine, b: Bank, t: TxnId, id: TxnId)
    requires Racing(m, b, t, 3) && Can(b, Commit(Confirm(t), id)) && id !in b.rows.txns
    ensures CanPlay(m, Finale(id))
    ensures FailedWithEntries(Play(m, Finale(id)).db, t)
  {
    ComputeNext(m, b, t, id);
    var m' := Next(m, Compute(FAST, id));
    StaleFailureLands(m', SLOW, FAST);
    PlayOne(m, Compute(FAST, id), [Finish(FAST), GiveUp(SLOW), Condemn(SLOW)]);
  }

  lemma {:induction false} PlayBoth(m: Machine, first: seq<Event>, second: seq<Event>)
    requires CanPlay(m, first) && CanPlay(Play(m, first), second)
    ensures CanPlay(m, first + second) && Play(m, first + second) == Play(Play(m, first), second)
    decreases |first|
  {
    if first == [] {
      assert first + second == second;
    } else {
      PlayBoth(Next(m, first[0]), first[1..], second);
      assert (first + second)[1..] == first[1..] + second;
    }
  }

  /**
   From every quiet state with the invariant, and for every transfer that could be confirmed now,
   there is an interleaving of two requests that leaves it FAILED with its money moved.
   */
  lemma RaceIsPossible(b: Bank, t: TxnId, id: TxnId)
    requires BankInv(b) && Can(b, Commit(Confirm(t), id)) && id !in b.rows.txns
    ensures CanPlay(Quiet(b), Start(t) + (Locks(3) + Finale(id)))
    ensures FailedWithEntries(Play(Quiet(b), Start(t) + (Locks(3) + Finale(id))).db, t)
  {
    RaceStarts(b, t);
    var m := Play(Quiet(b), Start(t));
    RaceLocks(m, b, t, 0);
    RaceEnds(Play(m, Locks(3)), b, t, id);
    PlayBoth(m, Locks(3), Finale(id));
    PlayBoth(Quiet(b), Start(t), Locks(3) + Finale(id));
  }
}
