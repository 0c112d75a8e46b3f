/** Ordered locking leaves no set of sessions waiting for each other. */
module Deadlock {
  import opened Basics
  import opened Schema
  import opened Operations
  import opened Interleaving
  import opened Refinement

  predicate Unfinished(m: Machine, s: SessionId) {
    s in m.sessions && !m.sessions[s].phase.Done?
  }

  /** The row that a session needs next and that somebody has locked. */
  function WaitsFor(m: Machine, s: SessionId): Option<Resource>
    requires s in m.sessions
  {
    var session := m.sessions[s];
    match session.phase
    case Locking(_) =>
      var wanted := Wanted(session);
      if wanted.Some? && Visible(m.db.rows, wanted.value) && wanted.value in m.locks then wanted else None
    case Condemning =>
      if session.call.Confirm? && TxnR(session.call.txn) in m.locks then Some(TxnR(session.call.txn)) else None
    case _ => None
  }

  /** A step of the session's own, other than another unlocked read. */
  predicate Advances(m: Machine, s: SessionId, e: Event) {
    && Enabled(m, e)
    && match e
       case BeginLocking(q) => q == s
       case Quit(q) => q == s && m.sessions[s].call.Confirm? && !PendingCopy(m.sessions[s])
       case Lock(q) => q == s
       case Miss(q) => q == s
       case Compute(q, _) => q == s
       case Finish(q) => q == s
       case Reload(q) => q == s
       case Condemn(q) => q == s
       case _ => false
  }

  lemma Bound(ids: set<int>) returns (bound: int)
    ensures forall i | i in ids :: i <= bound
    decreases |ids|
  {
    if ids == {} {
      bound := 0;
    } else {
      var k := Pick(ids);
      var rest := Bound(ids - {k});
      bound := if rest < k then k else rest;
      forall i | i in ids ensures i <= bound {
        assert i == k || i in ids - {k};
      }
    }
  }

  /** Some id is not in use. */
  lemma FreshId(ids: set<int>) returns (id: int)
    ensures id !in ids
  {
    var bound := Bound(ids);
    id := bound + 1;
  }

  /** An unfinished session that waits for nobody can advance. */
  lemma NotWaitingAdvances(m: Machine, s: SessionId) returns (e: Event)
    requires MachineInv(m) && Unfinished(m, s) && WaitsFor(m, s).None?
    ensures Advances(m, s, e)
  {
    var session := m.sessions[s];
    assert SessionOk(session, m.db.rows);
    match session.phase
    case Reading => e := if session.call.Confirm? && !PendingCopy(session) then Quit(s) else BeginLocking(s);
    case Locking(_) =>
      if Wanted(session).None? {
        var drawn := set q | q in m.sessions && m.sessions[q].phase.Ready? :: m.sessions[q].phase.id;
        var id := FreshId(m.db.rows.txns.Keys + drawn);
        e := Compute(s, id);
      } else if Visible(m.db.rows, Wanted(session).value) {
        e := Lock(s);
      } else {
        e := Miss(s);
      }
    case Ready(_, _) => e := Finish(s);
    case Failing => e := Reload(s);
    case Condemning => e := Condemn(s);
  }

  /** A session waits only for rows that come after all the rows it holds. */
  lemma WaitsUpwards(m: Machine, s: SessionId, r: Resource)
    requires s in m.sessions && HeldFresh(m.sessions[s], m.db.rows)
    requires r in Held(m.sessions[s]) && WaitsFor(m, s).Some?
    ensures Before(r, WaitsFor(m, s).value)
  {
    var session := m.sessions[s];
    var i :| 0 <= i < |Held(session)| && Held(session)[i] == r;
    PlanAscends(session.call, session.cache, i, Taken(session));
  }

  /** The holder of a row that is waited for either waits for nothing or for a later row. */
  lemma HolderIsAhead(m: Machine, r: Resource)
    requires MachineInv(m) && r in m.locks
    ensures Unfinished(m, m.locks[r])
    ensures WaitsFor(m, m.locks[r]).Some? ==> Before(r, WaitsFor(m, m.locks[r]).value)
  {
    var holder := m.locks[r];
    assert r in Held(m.sessions[holder]);
    assert SessionOk(m.sessions[holder], m.db.rows);
    if WaitsFor(m, holder).Some? {
      WaitsUpwards(m, holder, r);
    }
  }

  /** The locked rows that come after r. */
  function Ahead(locked: set<Resource>, r: Resource): set<Resource> {
    set x | x in locked && Before(r, x)
  }

  lemma Shrinks(a: set<Resource>, b: set<Resource>)
    requires a < b
    ensures |a| < |b|
  {
    var rest := b - a;
    assert b == a + rest && a !! rest;
    assert rest != {};
  }

  lemma FewerAhead(locked: set<Resource>, r: Resource, next: Resource)
    requires next in locked && Before(r, next)
    ensures |Ahead(locked, next)| < |Ahead(locked, r)|
  {
    assert Ahead(locked, next) <= Ahead(locked, r) && next in Ahead(locked, r) && next !in Ahead(locked, next);
    Shrinks(Ahead(locked, next), Ahead(locked, r));
  }

  /** Following the waiting sessions along the lock order ends at one that can advance. */
  lemma {:induction false} SomeoneAhead(m: Machine, s: SessionId, r: Resource) returns (q: SessionId, e: Event)
    requires MachineInv(m) && Unfinished(m, s) && WaitsFor(m, s) == Some(r)
    ensures Unfinished(m, q) && Advances(m, q, e)
    decreases |Ahead(m.locks.Keys, r)|
  {
    var holder := m.locks[r];
    HolderIsAhead(m, r);
    if WaitsFor(m, holder).None? {
      q := holder;
      e := NotWaitingAdvances(m, holder);
    } else {
      var next := WaitsFor(m, holder).value;
      FewerAhead(m.locks.Keys, r, next);
      q, e := SomeoneAhead(m, holder, next);
    }
  }

  /** Some session that can take a step of its own. */
  lemma SomeoneAdvances(m: Machine, s: SessionId) returns (q: SessionId, e: Event)
    requires MachineInv(m) && Unfinished(m, s)
    ensures Unfinished(m, q) && Advances(m, q, e)
  {
    if WaitsFor(m, s).None? {
      q := s;
      e := NotWaitingAdvances(m, s);
    } else {
      q, e := SomeoneAhead(m, s, WaitsFor(m, s).value);
    }
  }

  /**
   No deadlock: in every reachable state with an unfinished session, some unfinished session can take
   a step of its own, opposite transfers between the same two accounts included.
   */
  lemma NoDeadlock(events: seq<Event>, s: SessionId) returns (q: SessionId, e: Event)
    requires CanPlay(START, events) && Unfinished(Play(START, events), s)
    ensures Unfinished(Play(START, events), q) && Advances(Play(START, events), q, e)
  {
    EveryPlayIsGood(events);
    q, e := SomeoneAdvances(Play(START, events), s);
  }

  // ---- No cycle --------------------------------------------------------------------------------

  /** s waits for a row that q holds. */
  predicate WaitsOn(m: Machine, s: SessionId, q: SessionId) {
    && s in m.sessions && WaitsFor(m, s).Some?
    && WaitsFor(m, s).value in m.locks && m.locks[WaitsFor(m, s).value] == q
  }

  /** Each session of the line waits for a row that the next one holds. */
  predicate WaitingLine(m: Machine, line: seq<SessionId>) {
    forall i | 0 <= i < |line| - 1 :: WaitsOn(m, line[i], line[i + 1])
  }

  /** The line closes: its last session waits for the first. */
  predicate Ring(m: Machine, line: seq<SessionId>) {
    |line| > 0 && WaitingLine(m, line) && WaitsOn(m, line[|line| - 1], line[0])
  }

  lemma WaitsAscend(m: Machine, s: SessionId, q: SessionId, r: SessionId)
    requires MachineInv(m) && WaitsOn(m, s, q) && WaitsOn(m, q, r)
    ensures Before(WaitsFor(m, s).value, WaitsFor(m, q).value)
  {
    HolderIsAhead(m, WaitsFor(m, s).value);
  }

  lemma {:induction false} Ascends(rows: seq<Resource>)
    requires |rows| > 1 && forall i | 0 <= i < |rows| - 1 :: Before(rows[i], rows[i + 1])
    ensures Before(rows[0], rows[|rows| - 1])
    decreases |rows|
  {
    if |rows| > 2 {
      Ascends(rows[..|rows| - 1]);
      assert Before(rows[|rows| - 2], rows[|rows| - 2 + 1]);
    }
  }

  /** The rows that the sessions of a line wait for, when its last session waits for somebody too. */
  lemma LineAscends(m: Machine, line: seq<SessionId>, q: SessionId, i: nat)
    requires MachineInv(m) && WaitingLine(m, line) && i + 1 < |line| && WaitsOn(m, line[|line| - 1], q)
    ensures WaitsOn(m, line[i], line[i + 1]) && WaitsFor(m, line[i + 1]).Some? && line[i + 1] in m.sessions
    ensures Before(WaitsFor(m, line[i]).value, WaitsFor(m, line[i + 1]).value)
  {
    var next := if i + 2 < |line| then line[i + 2] else q;
    assert WaitsOn(m, line[i], line[i + 1]);
    assert WaitsOn(m, line[i + 1], next) by {
      if i + 2 < |line| {
        assert WaitsOn(m, line[i + 1], line[i + 1 + 1]);
      }
    }
    WaitsAscend(m, line[i], line[i + 1], next);
  }

  /** The row that a session of a closed line waits for. */
  function RowAt(m: Machine, line: seq<SessionId>, i: nat): Resource
    requires i < |line|
  {
    if line[i] in m.sessions && WaitsFor(m, line[i]).Some? then WaitsFor(m, line[i]).value else CardR(0)
  }

  lemma NotBothWays(r: Resource, q: Resource)
    ensures !(Before(r, q) && Before(q, r)) && !Before(r, r)
  {}

  function RowsOf(m: Machine, line: seq<SessionId>): (rows: seq<Resource>)
    ensures |rows| == |line| && forall i | 0 <= i < |line| :: rows[i] == RowAt(m, line, i)
  {
    seq(|line|, i requires 0 <= i < |line| => RowAt(m, line, i))
  }

  /** The first session of a ring waits for somebody. */
  lemma FirstWaits(m: Machine, line: seq<SessionId>)
    requires Ring(m, line)
    ensures line[0] in m.sessions && WaitsFor(m, line[0]).Some?
  {
    if |line| > 1 {
      assert WaitsOn(m, line[0], line[0 + 1]);
    }
  }

  /** The rows that a line waits for ascend, when its last session waits for somebody too. */
  lemma LineRows(m: Machine, line: seq<SessionId>, q: SessionId)
    requires MachineInv(m) && |line| > 0 && WaitingLine(m, line) && WaitsOn(m, line[|line| - 1], q)
    ensures
      var rows := RowsOf(m, line);
      |rows| == 1 || Before(rows[0], rows[|rows| - 1])
  {
    var rows := RowsOf(m, line);
    forall i | 0 <= i < |rows| - 1 ensures Before(rows[i], rows[i + 1]) {
      LineAscends(m, line, q, i);
    }
    if |rows| > 1 {
      Ascends(rows);
    }
  }

  lemma NoRing(m: Machine, line: seq<SessionId>)
    requires MachineInv(m)
    ensures !Ring(m, line)
  {
    if Ring(m, line) {
      LineRows(m, line, line[0]);
      FirstWaits(m, line);
      HolderIsAhead(m, WaitsFor(m, line[|line| - 1]).value);
      var rows := RowsOf(m, line);
      NotBothWays(rows[0], rows[|rows| - 1]);
    }
  }

  /** No sessions wait for each other in a ring, whatever others do beside them. */
  lemma NoWaitCycle(events: seq<Event>, line: seq<SessionId>)
    requires CanPlay(START, events)
    ensures !Ring(Play(START, events), line)
  {
    EveryPlayIsGood(events);
    NoRing(Play(START, events), line);
  }

  // ---- All can finish --------------------------------------------------------------------------

  /** How many steps of its own a session has left at most. */
  function StepsLeft(session: Session): nat {
    match session.phase
    case Reading => 7
    case Locking(k) => if k <= 3 then 6 - k else 3
    case Failing => 2
    case Ready(_, _) => 1
    case Condemning => 1
    case Done => 0
  }

  ghost function AllStepsLeft(m: Machine): map<SessionId, int> {
    map s | s in m.sessions :: StepsLeft(m.sessions[s])
  }

  lemma PlanIsShort(call: Call, rows: Tables)
    ensures |Plan(call, rows)| <= 3
  {}

  /** A step of its own leaves all other sessions where they are. */
  lemma AdvanceOnlySelf(m: Machine, s: SessionId, e: Event)
    requires s in m.sessions && Advances(m, s, e)
    ensures s in Next(m, e).sessions && Next(m, e).sessions == m.sessions[s := Next(m, e).sessions[s]]
  {}

  lemma LockCounts(m: Machine, s: SessionId)
    requires MachineInv(m) && Enabled(m, Lock(s))
    ensures s in Next(m, Lock(s)).sessions && StepsLeft(Next(m, Lock(s)).sessions[s]) < StepsLeft(m.sessions[s])
  {
    PlanIsShort(m.sessions[s].call, m.sessions[s].cache);
  }

  lemma ComputeCounts(m: Machine, s: SessionId, id: TxnId)
    requires MachineInv(m) && Enabled(m, Compute(s, id))
    ensures s in Next(m, Compute(s, id)).sessions
    ensures StepsLeft(Next(m, Compute(s, id)).sessions[s]) < StepsLeft(m.sessions[s])
  {
    var session := m.sessions[s];
    assert SessionOk(session, m.db.rows);
    PlanIsShort(session.call, session.cache);
  }

  lemma MissCounts(m: Machine, s: SessionId)
    requires MachineInv(m) && Enabled(m, Miss(s))
    ensures s in Next(m, Miss(s)).sessions && StepsLeft(Next(m, Miss(s)).sessions[s]) < StepsLeft(m.sessions[s])
  {
    PlanIsShort(m.sessions[s].call, m.sessions[s].cache);
  }

  /** It brings the session nearer to its end. */
  lemma AdvanceCounts(m: Machine, s: SessionId, e: Event)
    requires MachineInv(m) && s in m.sessions && Advances(m, s, e)
    ensures s in Next(m, e).sessions && StepsLeft(Next(m, e).sessions[s]) < StepsLeft(m.sessions[s])
  {
    match e
    case Lock(_) => LockCounts(m, s);
    case Compute(_, id) => ComputeCounts(m, s, id);
    case Miss(_) => MissCounts(m, s);
    case _ =>
  }

  lemma {:induction false} SumIsNonNegative(m: map<int, int>)
    requires forall k | k in m :: m[k] >= 0
    ensures Sum(m) >= 0
    decreases |m|
  {
    if m.Keys != {} {
      SumIsNonNegative(m - {Pick(m.Keys)});
    }
  }

  predicate AllDone(m: Machine) {
    forall s | s in m.sessions :: m.sessions[s].phase.Done?
  }

  lemma AdvanceLowers(m: Machine, s: SessionId, e: Event)
    requires MachineInv(m) && s in m.sessions && Advances(m, s, e)
    ensures 0 <= Sum(AllStepsLeft(Next(m, e))) < Sum(AllStepsLeft(m))
  {
    var m' := Next(m, e);
    AdvanceOnlySelf(m, s, e);
    AdvanceCounts(m, s, e);
    SumUpdate(AllStepsLeft(m), s, StepsLeft(m'.sessions[s]));
    assert AllStepsLeft(m') == AllStepsLeft(m)[s := StepsLeft(m'.sessions[s])];
    SumIsNonNegative(AllStepsLeft(m'));
  }

  lemma {:induction false} FinishFrom(m: Machine) returns (events: seq<Event>)
    requires MachineInv(m)
    ensures CanPlay(m, events) && AllDone(Play(m, events))
    ensures |events| <= Sum(AllStepsLeft(m))
    decreases Sum(AllStepsLeft(m))
  {
    SumIsNonNegative(AllStepsLeft(m));
    if AllDone(m) {
      events := [];
    } else {
      var s :| s in m.sessions && !m.sessions[s].phase.Done?;
      var q, e := SomeoneAdvances(m, s);
      var m' := Next(m, e);
      EventRefines(m, e);
      AdvanceLowers(m, q, e);
      var rest := FinishFrom(m');
      PlayOne(m, e, rest);
      events := [e] + rest;
    }
  }

  /**
   From every reachable state all sessions can finish, by steps of their own, at most seven each.
   */
  lemma AllCanFinish(events: seq<Event>) returns (more: seq<Event>)
    requires CanPlay(START, events)
    ensures CanPlay(Play(START, events), more) && AllDone(Play(Play(START, events), more))
    ensures |more| <= Sum(AllStepsLeft(Play(START, events)))
  {
    EveryPlayIsGood(events);
    more := FinishFrom(Play(START, events));
  }
}
