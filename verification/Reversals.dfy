/** Reversals as inverses, and chains of reversals of reversals. */
module Reversals {
  import opened Basics
  import opened Schema
  import opened Operations
  import opened Laws
  import opened Invariants
  import opened Runs

  // ---- One reversal ----------------------------------------------------------------------------

  function MovesNet(moves: seq<Move>, a: AccountId): int {
    if moves == [] then 0
    else
      var last := moves[|moves| - 1];
      MovesNet(moves[..|moves| - 1], a) +
      if last.account != a then 0 else if last.side == Credit then last.amount else -last.amount
  }

  /** The net effect on an account of the ledger entries of one transaction. */
  function Effect(b: Bank, t: TxnId, a: AccountId): int {
    MovesNet(MovesOf(b.ledger, t), a)
  }

  lemma ExpectedNet(t: TxnRow, a: AccountId)
    ensures MovesNet(Expected(t), a) == DeltaOf(t, a)
  {
    var debit := if t.sender.Some? then [Move(t.sender.value, Debit, t.amount)] else [];
    var credit := if t.receiver.Some? then [Move(t.receiver.value, Credit, Credited(t))] else [];
    assert Expected(t) == debit + credit;
    assert MovesNet(debit, a) == if t.sender == Some(a) then -t.amount else 0;
    if t.receiver.Some? {
      assert (debit + credit)[..|debit|] == debit;
    } else {
      assert debit + credit == debit;
    }
  }

  /** A reversal moves every account by the opposite amount exactly when its original was not converted. */
  lemma MirrorDeltas(o: TxnId, t: TxnRow)
    requires SidesSet(t) && t.sender != t.receiver
    ensures (forall a :: DeltaOf(ReversalOf(o, t), a) == -DeltaOf(t, a)) <==> Credited(t) == t.amount || t.receiver.None?
  {
    if t.receiver.Some? && Credited(t) != t.amount {
      var a := t.receiver.value;
      assert DeltaOf(ReversalOf(o, t), a) != -DeltaOf(t, a);
    }
  }

  /** What the invariant says about a reversal and its original. */
  lemma Mirrored(b: Bank, r: TxnId)
    requires BankInv(b) && r in b.rows.txns && b.rows.txns[r].reversalOf.Some?
    ensures
      var o := b.rows.txns[r].reversalOf.value;
      && o in b.rows.txns
      && ShapeOk(b.rows, b.rows.txns[o])
      && Settled(b, o) && Settled(b, r)
      && b.rows.txns[r] == ReversalOf(o, b.rows.txns[o]).(status := b.rows.txns[r].status)
  {
    assert ReversalOk(b, r);
    assert StatusOk(b, r);
  }

  lemma EffectsAreDeltas(b: Bank, r: TxnId, o: TxnId)
    requires o in b.rows.txns && r in b.rows.txns && Settled(b, o) && Settled(b, r)
    requires b.rows.txns[r] == ReversalOf(o, b.rows.txns[o]).(status := b.rows.txns[r].status)
    ensures forall a :: Effect(b, r, a) == DeltaOf(ReversalOf(o, b.rows.txns[o]), a)
    ensures forall a :: Effect(b, o, a) == DeltaOf(b.rows.txns[o], a)
  {
    forall a
      ensures Effect(b, r, a) == DeltaOf(ReversalOf(o, b.rows.txns[o]), a)
      ensures Effect(b, o, a) == DeltaOf(b.rows.txns[o], a)
    {
      ExpectedNet(b.rows.txns[r], a);
      ExpectedNet(b.rows.txns[o], a);
    }
  }

  /** The entries of a reversal undo those of its original exactly when the original was not converted. */
  lemma ReversalUndoes(b: Bank, r: TxnId)
    requires BankInv(b) && r in b.rows.txns && b.rows.txns[r].reversalOf.Some?
    ensures b.rows.txns[r].reversalOf.value in b.rows.txns
    ensures
      var o := b.rows.txns[r].reversalOf.value;
      (forall a :: Effect(b, r, a) == -Effect(b, o, a)) <==> Credited(b.rows.txns[o]) == b.rows.txns[o].amount
  {
    Mirrored(b, r);
    var o := b.rows.txns[r].reversalOf.value;
    var original := b.rows.txns[o];
    EffectsAreDeltas(b, r, o);
    MirrorDeltas(o, original);
  }

  lemma PostingMovesBalance(b: Bank, p: TxnId, t: TxnRow, tag1: Currency, tag2: Currency, a: AccountId)
    requires Postable(b, p, t) && a in b.rows.accounts
    ensures
      var rows' := Posting(b, p, t, tag1, tag2).rows;
      a in rows'.accounts && rows'.accounts[a].balance == b.rows.accounts[a].balance + DeltaOf(t, a)
  {}

  /** Reversing what was just posted posts the mirror image. */
  lemma ReversePosts(b: Bank, p: TxnId, t: TxnRow, id: TxnId)
    requires BankInv(b) && p in b.rows.txns && b.rows.txns[p] == t.(status := Success)
    requires Can(b, Commit(Reverse(p), id))
    ensures Postable(b, id, ReversalOf(p, t))
    ensures Do(b, Commit(Reverse(p), id)) == Posting(b, id, ReversalOf(p, t), t.currency, t.currency)
  {
    CommitPosts(b, Reverse(p), id);
  }

  lemma MirrorBalances(b: Bank, p: TxnId, t: TxnRow, tag1: Currency, tag2: Currency, id: TxnId)
    requires Postable(b, p, t) && ShapeOk(b.rows, t)
    requires Postable(Posting(b, p, t, tag1, tag2), id, ReversalOf(p, t))
    ensures
      var rows2 := Posting(Posting(b, p, t, tag1, tag2), id, ReversalOf(p, t), t.currency, t.currency).rows;
      forall a | a in b.rows.accounts :: a in rows2.accounts && rows2.accounts[a].balance ==
        b.rows.accounts[a].balance + if t.receiver == Some(a) then Credited(t) - t.amount else 0
  {
    var b1 := Posting(b, p, t, tag1, tag2);
    forall a | a in b.rows.accounts
      ensures
        var rows2 := Posting(b1, id, ReversalOf(p, t), t.currency, t.currency).rows;
        a in rows2.accounts && rows2.accounts[a].balance ==
          b.rows.accounts[a].balance + if t.receiver == Some(a) then Credited(t) - t.amount else 0
    {
      PostingMovesBalance(b, p, t, tag1, tag2, a);
      PostingMovesBalance(b1, id, ReversalOf(p, t), t.currency, t.currency, a);
    }
  }

  /** Reversing a transaction at once restores every balance exactly when it was not converted. */
  lemma ReverseRestores(b: Bank, p: TxnId, t: TxnRow, tag1: Currency, tag2: Currency, id: TxnId)
    requires BankInv(b) && Postable(b, p, t) && t.kind != CardPayment
    requires Can(Posting(b, p, t, tag1, tag2), Commit(Reverse(p), id))
    ensures
      var b2 := Do(Posting(b, p, t, tag1, tag2), Commit(Reverse(p), id));
      && b2.rows.accounts.Keys >= b.rows.accounts.Keys
      && ((forall a | a in b.rows.accounts :: b2.rows.accounts[a].balance == b.rows.accounts[a].balance)
          <==> Credited(t) == t.amount)
  {
    PostingKeepsInv(b, p, t, tag1, tag2);
    var b1 := Posting(b, p, t, tag1, tag2);
    ReversePosts(b1, p, t, id);
    var b2 := Do(b1, Commit(Reverse(p), id));
    PostedShape(b, p, t);
    MirrorBalances(b, p, t, tag1, tag2, id);
    if Credited(t) != t.amount {
      var a := t.receiver.value;
      assert b2.rows.accounts[a].balance != b.rows.accounts[a].balance;
    }
  }

  // ---- Chains ----------------------------------------------------------------------------------

  /** Each transaction of the chain reverses the one before it. */
  predicate IsChain(b: Bank, chain: seq<TxnId>) {
    && |chain| > 0
    && (forall i | 0 <= i < |chain| :: chain[i] in b.rows.txns)
    && (forall i | 0 < i < |chain| :: b.rows.txns[chain[i]].reversalOf == Some(chain[i - 1]))
  }

  function ChainEffect(b: Bank, chain: seq<TxnId>, a: AccountId): int {
    if chain == [] then 0
    else ChainEffect(b, chain[..|chain| - 1], a) + Effect(b, chain[|chain| - 1], a)
  }

  /** From the second link on, a link negates the effect: reversals are not converted. */
  lemma LinkNegates(b: Bank, chain: seq<TxnId>, a: AccountId, i: nat)
    requires BankInv(b) && IsChain(b, chain) && 1 <= i < |chain|
    requires i > 1 || Credited(b.rows.txns[chain[0]]) == b.rows.txns[chain[0]].amount
    ensures Effect(b, chain[i], a) == -Effect(b, chain[i - 1], a)
  {
    assert b.rows.txns[chain[i]].reversalOf == Some(chain[i - 1]);
    if i > 1 {
      assert b.rows.txns[chain[i - 1]].reversalOf == Some(chain[i - 2]);
      Mirrored(b, chain[i - 1]);
    }
    ReversalUndoes(b, chain[i]);
  }

  /** The effects of a chain alternate, from its second member on. */
  lemma {:induction false} ChainAlternates(b: Bank, chain: seq<TxnId>, a: AccountId, i: nat)
    requires BankInv(b) && IsChain(b, chain) && 1 <= i < |chain|
    ensures Effect(b, chain[i], a) == if i % 2 == 1 then Effect(b, chain[1], a) else -Effect(b, chain[1], a)
    decreases i
  {
    if i > 1 {
      ChainAlternates(b, chain, a, i - 1);
      LinkNegates(b, chain, a, i);
    }
  }

  lemma ChainFront(b: Bank, chain: seq<TxnId>)
    requires IsChain(b, chain) && |chain| > 1
    ensures IsChain(b, chain[..|chain| - 1])
  {
    var front := chain[..|chain| - 1];
    forall i | 0 < i < |front| ensures b.rows.txns[front[i]].reversalOf == Some(front[i - 1]) {
      assert b.rows.txns[chain[i]].reversalOf == Some(chain[i - 1]);
    }
  }

  /** One more link on top of n: its effect is plus or minus the second one's, by parity. */
  lemma AlternatingSum(n: nat, front: int, last: int, e0: int, e1: int)
    requires n > 0
    requires front == e0 + if n % 2 == 0 then e1 else 0
    requires last == if n % 2 == 1 then e1 else -e1
    ensures front + last == e0 + if (n + 1) % 2 == 0 then e1 else 0
  {}

  /**
   After n reversals of reversals every account carries the original's effect when n is even, and
   when n is odd what the original and its first reversal leave together.
   */
  lemma {:induction false} ChainNet(b: Bank, chain: seq<TxnId>, a: AccountId)
    requires BankInv(b) && IsChain(b, chain)
    ensures ChainEffect(b, chain, a)
         == Effect(b, chain[0], a) + if |chain| % 2 == 0 then Effect(b, chain[1], a) else 0
    decreases |chain|
  {
    var n := |chain| - 1;
    if n > 0 {
      ChainFront(b, chain);
      ChainNet(b, chain[..n], a);
      ChainAlternates(b, chain, a, n);
      AlternatingSum(n, ChainEffect(b, chain[..n], a), Effect(b, chain[n], a), Effect(b, chain[0], a), Effect(b, chain[1], a));
    } else {
      assert chain[..n] == [];
    }
  }

  /** For an original that was not converted: the original's effect or nothing at all, by parity. */
  lemma ChainParity(b: Bank, chain: seq<TxnId>, a: AccountId)
    requires BankInv(b) && IsChain(b, chain)
    requires Credited(b.rows.txns[chain[0]]) == b.rows.txns[chain[0]].amount
    ensures ChainEffect(b, chain, a) == if |chain| % 2 == 1 then Effect(b, chain[0], a) else 0
  {
    ChainNet(b, chain, a);
    if |chain| > 1 {
      LinkNegates(b, chain, a, 1);
    }
  }

  // ---- No cycles -------------------------------------------------------------------------------

  /** The transaction reached by following n reversal links, if there are that many. */
  function Follow(rows: Tables, t: TxnId, n: nat): Option<TxnId>
    decreases n
  {
    if n == 0 then Some(t)
    else if t !in rows.txns || rows.txns[t].reversalOf.None? then None
    else Follow(rows, rows.txns[t].reversalOf.value, n - 1)
  }

  ghost predicate Acyclic(rows: Tables) {
    forall t, n: nat | n > 0 :: Follow(rows, t, n) != Some(t)
  }

  /** Links lead from rows that were there to rows that were there. */
  lemma {:induction false} FollowStable(b: Bank, rows': Tables, t: TxnId, n: nat)
    requires ReversalsOk(b) && t in b.rows.txns
    requires forall x | x in b.rows.txns :: x in rows'.txns && rows'.txns[x].reversalOf == b.rows.txns[x].reversalOf
    ensures Follow(rows', t, n) == Follow(b.rows, t, n)
    ensures Follow(rows', t, n).Some? ==> Follow(rows', t, n).value in b.rows.txns
    decreases n
  {
    assert t in rows'.txns;
    if n > 0 && b.rows.txns[t].reversalOf.Some? {
      assert ReversalOk(b, t);
      FollowStable(b, rows', b.rows.txns[t].reversalOf.value, n - 1);
    }
  }

  /** A row that is added to rows that are closed under the links closes no cycle. */
  lemma AddingKeepsAcyclic(b: Bank, rows': Tables)
    requires ReversalsOk(b) && Acyclic(b.rows)
    requires forall x | x in b.rows.txns :: x in rows'.txns && rows'.txns[x].reversalOf == b.rows.txns[x].reversalOf
    requires forall x | x in rows'.txns && x !in b.rows.txns ::
               rows'.txns[x].reversalOf.Some? ==> rows'.txns[x].reversalOf.value in b.rows.txns
    ensures Acyclic(rows')
  {
    forall t, n: nat | n > 0 ensures Follow(rows', t, n) != Some(t) {
      if t in b.rows.txns {
        FollowStable(b, rows', t, n);
        assert Follow(b.rows, t, n) != Some(t);
      } else if t in rows'.txns && rows'.txns[t].reversalOf.Some? {
        FollowStable(b, rows', rows'.txns[t].reversalOf.value, n - 1);
      }
    }
  }

  lemma NewLinkIsOld(b: Bank, action: Action, t: TxnId)
    requires BankInv(b) && Can(b, action)
    requires t !in b.rows.txns && t in Do(b, action).rows.txns && Do(b, action).rows.txns[t].reversalOf.Some?
    ensures Do(b, action).rows.txns[t].reversalOf.value in b.rows.txns
  {
    if action.Commit? {
      CommitPosts(b, action.call, action.id);
    }
  }

  /** No reversal closes a cycle: a new transaction is linked to from nowhere. */
  lemma StepKeepsAcyclic(b: Bank, action: Action)
    requires BankInv(b) && Acyclic(b.rows) && Can(b, action)
    ensures Acyclic(Do(b, action).rows)
  {
    var b' := Do(b, action);
    StepIsMonotone(b, action);
    forall x | x in b.rows.txns ensures x in b'.rows.txns && b'.rows.txns[x].reversalOf == b.rows.txns[x].reversalOf {
      assert TxnMonotone(b, b', x);
    }
    forall x | x in b'.rows.txns && x !in b.rows.txns && b'.rows.txns[x].reversalOf.Some?
      ensures b'.rows.txns[x].reversalOf.value in b.rows.txns
    {
      NewLinkIsOld(b, action, x);
    }
    AddingKeepsAcyclic(b, b'.rows);
  }

  lemma {:induction false} RunIsAcyclic(b: Bank, actions: seq<Action>)
    requires BankInv(b) && Acyclic(b.rows) && CanRun(b, actions)
    ensures Acyclic(Run(b, actions).rows)
    decreases |actions|
  {
    if actions != [] {
      StepKeepsInv(b, actions[0]);
      StepKeepsAcyclic(b, actions[0]);
      RunIsAcyclic(Do(b, actions[0]), actions[1..]);
    }
  }
}
