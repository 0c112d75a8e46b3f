/** Whole runs of atomic steps, including the unlocked FAILED writers. */
module Runs {
  import opened Basics
  import opened Schema
  import opened Operations
  import opened Laws
  import opened Invariants
  import opened Conservation

  predicate CanRun(b: Bank, actions: seq<Action>)
    decreases |actions|
  {
    actions == [] || (Can(b, actions[0]) && CanRun(Do(b, actions[0]), actions[1..]))
  }

  function Run(b: Bank, actions: seq<Action>): Bank
    requires CanRun(b, actions)
    decreases |actions|
  {
    if actions == [] then b else Run(Do(b, actions[0]), actions[1..])
  }

  /** PENDING < SUCCESS < REVERSED < FAILED. */
  function Rank(s: TxnStatus): nat {
    match s
    case Pending => 0
    case Success => 1
    case Reversed => 2
    case Failed => 3
  }

  /** The state b' may follow b: rows keep their facts, statuses only rise, money moves only once. */
  predicate TxnMonotone(b: Bank, b': Bank, t: TxnId)
    requires t in b.rows.txns
  {
    && t in b'.rows.txns
    && b'.rows.txns[t] == b.rows.txns[t].(status := b'.rows.txns[t].status)
    && Rank(b.rows.txns[t].status) <= Rank(b'.rows.txns[t].status)
    && (MovesOf(b'.ledger, t) == MovesOf(b.ledger, t) || (b.rows.txns[t].status == Pending && MovesOf(b.ledger, t) == []))
  }

  predicate Monotone(b: Bank, b': Bank) {
    && b.ledger <= b'.ledger
    && (forall t | t in b.rows.txns :: TxnMonotone(b, b', t))
    && SameCurrencies(b.rows, b'.rows)
  }

  lemma PostingIsMonotone(b: Bank, p: TxnId, t: TxnRow, tag1: Currency, tag2: Currency)
    requires BankInv(b) && Postable(b, p, t)
    ensures Monotone(b, Posting(b, p, t, tag1, tag2))
  {
    var b' := Posting(b, p, t, tag1, tag2);
    PostingKeepsCurrencies(b, p, t, tag1, tag2);
    forall x | x in b.rows.txns ensures TxnMonotone(b, b', x) {
      PostingFolds(b, p, t, tag1, tag2, 0, x);
      PostedTxn(b, p, t, tag1, tag2, x);
      assert StatusOk(b, x);
    }
  }

  lemma StepIsMonotone(b: Bank, action: Action)
    requires BankInv(b) && Can(b, action)
    ensures Monotone(b, Do(b, action))
  {
    if action.Commit? {
      CommitPosts(b, action.call, action.id);
      PostingIsMonotone(b, PostedId(action.call, action.id), PostedRow(action.call, b.rows),
        DebitTag(action.call, b.rows), CreditTag(action.call, b.rows));
    }
  }

  lemma MonotoneTransitive(b: Bank, b': Bank, b'': Bank)
    requires Monotone(b, b') && Monotone(b', b'')
    ensures Monotone(b, b'')
  {
    forall t | t in b.rows.txns ensures TxnMonotone(b, b'', t) {
      assert TxnMonotone(b, b', t);
      assert TxnMonotone(b', b'', t);
    }
    forall a | a in b.rows.accounts
      ensures a in b''.rows.accounts && b''.rows.accounts[a].currency == b.rows.accounts[a].currency
    {
      assert a in b'.rows.accounts;
    }
  }

  /**
   Along every run the invariant holds, totals are conserved, statuses never fall, rows and ledger
   entries are never rewritten, and a transaction's movements are fixed once they exist.
   */
  lemma {:induction false} RunKeepsInv(b: Bank, actions: seq<Action>)
    requires BankInv(b) && Conserved(b) && CanRun(b, actions)
    ensures BankInv(Run(b, actions)) && Conserved(Run(b, actions))
    ensures Monotone(b, Run(b, actions))
    decreases |actions|
  {
    if actions != [] {
      StepKeepsInv(b, actions[0]);
      StepConserves(b, actions[0]);
      StepIsMonotone(b, actions[0]);
      RunKeepsInv(Do(b, actions[0]), actions[1..]);
      MonotoneTransitive(b, Do(b, actions[0]), Run(b, actions));
    }
  }

  lemma EmptyBankIsGood()
    ensures BankInv(EMPTY_BANK) && Conserved(EMPTY_BANK)
  {
    forall c ensures Sum(Balances(EMPTY_BANK, c)) == Sum(Inflows(EMPTY_BANK, c)) {
      assert Balances(EMPTY_BANK, c) == map[] == Inflows(EMPTY_BANK, c);
    }
  }

  /** The headline: a bank that starts empty satisfies everything, whatever happens to it. */
  lemma EveryRunIsGood(actions: seq<Action>)
    requires CanRun(EMPTY_BANK, actions)
    ensures BankInv(Run(EMPTY_BANK, actions)) && Conserved(Run(EMPTY_BANK, actions))
  {
    EmptyBankIsGood();
    RunKeepsInv(EMPTY_BANK, actions);
  }

  // ---- At most once ---------------------------------------------------------------------------

  predicate Posts(action: Action, t: TxnId) {
    action.Commit? && PostedId(action.call, action.id) == t
  }

  predicate Reverses(action: Action, t: TxnId) {
    action.Commit? && action.call == Reverse(t)
  }

  /** After a posting of t, or a reversal of t, its row says so. */
  lemma PostedShows(b: Bank, action: Action, t: TxnId)
    requires BankInv(b) && Can(b, action)
    ensures Posts(action, t) ==> t in Do(b, action).rows.txns && Rank(Do(b, action).rows.txns[t].status) == 1
    ensures Posts(action, t) ==> t in b.rows.txns ==> b.rows.txns[t].status == Pending
    ensures Reverses(action, t) ==>
      && t in Do(b, action).rows.txns && Rank(Do(b, action).rows.txns[t].status) == 2
      && t in b.rows.txns && b.rows.txns[t].status == Success
  {
    if action.Commit? {
      CommitPosts(b, action.call, action.id);
    }
  }

  lemma {:induction false} SplitRun(b: Bank, actions: seq<Action>, i: nat)
    requires CanRun(b, actions) && i <= |actions|
    ensures CanRun(b, actions[..i])
    ensures CanRun(Run(b, actions[..i]), actions[i..])
    ensures Run(Run(b, actions[..i]), actions[i..]) == Run(b, actions)
    decreases i
  {
    if i > 0 {
      SplitRun(Do(b, actions[0]), actions[1..], i - 1);
      assert actions[..i][1..] == actions[1..][..i - 1];
      assert actions[i..] == actions[1..][i - 1..];
    } else {
      assert actions[i..] == actions;
    }
  }

  /** Two distinct steps cannot both post t, nor both reverse it: the first one shows in its status. */
  lemma SecondIsBarred(b: Bank, first: Action, b2: Bank, second: Action, t: TxnId)
    requires BankInv(b) && Can(b, first) && BankInv(b2) && Can(b2, second)
    requires Monotone(Do(b, first), b2)
    ensures !(Posts(first, t) && Posts(second, t))
    ensures !(Reverses(first, t) && Reverses(second, t))
  {
    PostedShows(b, first, t);
    PostedShows(b2, second, t);
    if t in Do(b, first).rows.txns {
      assert TxnMonotone(Do(b, first), b2, t);
    }
  }

  lemma FirstStep(b: Bank, actions: seq<Action>)
    requires BankInv(b) && Conserved(b) && CanRun(b, actions) && actions != []
    ensures Can(b, actions[0]) && CanRun(Do(b, actions[0]), actions[1..])
    ensures BankInv(Do(b, actions[0])) && Conserved(Do(b, actions[0]))
  {
    StepKeepsInv(b, actions[0]);
    StepConserves(b, actions[0]);
  }

  lemma GoodAfter(b: Bank, actions: seq<Action>, i: nat)
    requires BankInv(b) && Conserved(b) && CanRun(b, actions) && i <= |actions|
    ensures CanRun(b, actions[..i]) && CanRun(Run(b, actions[..i]), actions[i..])
    ensures BankInv(Run(b, actions[..i])) && Conserved(Run(b, actions[..i]))
  {
    SplitRun(b, actions, i);
    RunKeepsInv(b, actions[..i]);
  }

  /** What the first step of a run posts or reverses, no later one does. */
  lemma FirstBarsLater(b: Bank, actions: seq<Action>, j: nat, first: Action, later: Action, t: TxnId)
    requires BankInv(b) && Conserved(b) && CanRun(b, actions)
    requires 0 < j < |actions| && first == actions[0] && later == actions[j]
    ensures !(Posts(first, t) && Posts(later, t))
    ensures !(Reverses(first, t) && Reverses(later, t))
  {
    var b1, rest := Do(b, actions[0]), actions[1..];
    FirstStep(b, actions);
    SplitRun(b1, rest, j - 1);
    RunKeepsInv(b1, rest[..j - 1]);
    assert rest[j - 1..][0] == actions[j];
    SecondIsBarred(b, first, Run(b1, rest[..j - 1]), later, t);
  }

  /** No transaction is executed twice and none is reversed twice, late FAILED writers included. */
  lemma AtMostOnce(b: Bank, actions: seq<Action>, t: TxnId, i: nat, j: nat)
    requires BankInv(b) && Conserved(b) && CanRun(b, actions)
    requires i < j < |actions|
    ensures !(Posts(actions[i], t) && Posts(actions[j], t))
    ensures !(Reverses(actions[i], t) && Reverses(actions[j], t))
  {
    GoodAfter(b, actions, i);
    FirstBarsLater(Run(b, actions[..i]), actions[i..], j - i, actions[i], actions[j], t);
  }

  // ---- The late FAILED writer ------------------------------------------------------------------

  /** What FAILED is meant to say: no money moved. */
  ghost predicate FailedMeansUnmoved(b: Bank) {
    forall t | t in b.rows.txns && b.rows.txns[t].status == Failed :: MovesOf(b.ledger, t) == []
  }

  /** A FAILED written over a status keeps that meaning exactly when the status was PENDING or FAILED. */
  lemma LateFailExactly(b: Bank, t: TxnId)
    requires BankInv(b) && FailedMeansUnmoved(b) && Can(b, LateFail(t))
    ensures FailedMeansUnmoved(Do(b, LateFail(t))) <==> b.rows.txns[t].status in {Pending, Failed}
  {
    var b' := Do(b, LateFail(t));
    assert StatusOk(b, t);
    assert ShapeOk(b.rows, b.rows.txns[t]);
    if b.rows.txns[t].status in {Success, Reversed} {
      assert |Expected(b.rows.txns[t])| > 0;
      assert b'.rows.txns[t].status == Failed;
    }
  }

  /** A commit never makes or leaves a FAILED row with entries. */
  lemma CommitKeepsFailed(b: Bank, call: Call, id: TxnId)
    requires BankInv(b) && FailedMeansUnmoved(b) && Can(b, Commit(call, id))
    ensures FailedMeansUnmoved(Do(b, Commit(call, id)))
  {
    CommitPosts(b, call, id);
    var b' := Do(b, Commit(call, id));
    var p, t, tag1, tag2 := PostedId(call, id), PostedRow(call, b.rows), DebitTag(call, b.rows), CreditTag(call, b.rows);
    forall x | x in b'.rows.txns && b'.rows.txns[x].status == Failed ensures MovesOf(b'.ledger, x) == [] {
      PostedTxn(b, p, t, tag1, tag2, x);
      PostingFolds(b, p, t, tag1, tag2, 0, x);
    }
  }

  lemma ActionKeepsFailed(b: Bank, action: Action)
    requires BankInv(b) && FailedMeansUnmoved(b) && Can(b, action) && !action.LateFail?
    ensures FailedMeansUnmoved(Do(b, action))
  {
    if action.Commit? {
      CommitKeepsFailed(b, action.call, action.id);
    }
  }

  /** Every FAILED that the run writes late lands on PENDING or FAILED. */
  predicate LandsInTime(b: Bank, actions: seq<Action>)
    requires CanRun(b, actions)
    decreases |actions|
  {
    actions == [] ||
    ((actions[0].LateFail? ==> b.rows.txns[actions[0].txn].status in {Pending, Failed}) &&
     LandsInTime(Do(b, actions[0]), actions[1..]))
  }

  /** A FAILED row with entries never gets rid of them. */
  lemma SpoiledStays(b: Bank, b': Bank)
    requires Monotone(b, b') && !FailedMeansUnmoved(b)
    ensures !FailedMeansUnmoved(b')
  {
    var t :| t in b.rows.txns && b.rows.txns[t].status == Failed && MovesOf(b.ledger, t) != [];
    assert TxnMonotone(b, b', t);
    assert b'.rows.txns[t].status == Failed;
  }

  /** After any run FAILED means that no money moved exactly when every late FAILED landed in time. */
  lemma {:induction false} FailedMeansUnmovedExactly(b: Bank, actions: seq<Action>)
    requires BankInv(b) && Conserved(b) && FailedMeansUnmoved(b) && CanRun(b, actions)
    ensures FailedMeansUnmoved(Run(b, actions)) <==> LandsInTime(b, actions)
    decreases |actions|
  {
    if actions != [] {
      var action, b1 := actions[0], Do(b, actions[0]);
      StepKeepsInv(b, action);
      StepConserves(b, action);
      if action.LateFail? {
        LateFailExactly(b, action.txn);
      } else {
        ActionKeepsFailed(b, action);
      }
      if FailedMeansUnmoved(b1) {
        FailedMeansUnmovedExactly(b1, actions[1..]);
      } else {
        RunKeepsInv(b1, actions[1..]);
        SpoiledStays(b1, Run(b1, actions[1..]));
      }
    }
  }
}
