/** Folds over the ledger, and what every movement of money writes. */
module Laws {
  import opened Schema
  import opened Operations

  /** One side of a movement, without the running balances. */
  datatype Move = Move(account: AccountId, side: Side, amount: int)

  function MoveOf(e: Entry): Move {
    Move(e.account, e.side, e.amount)
  }

  // ---- Folds ---------------------------------------------------------------------------------

  /** The net effect of the entries on an account: the balance obtained by replaying them from 0. */
  function Net(ledger: seq<Entry>, a: AccountId): int {
    if ledger == [] then 0
    else
      var last := ledger[|ledger| - 1];
      Net(ledger[..|ledger| - 1], a) + if last.account == a then Signed(last) else 0
  }

  /** The number of entries of an account. */
  function Count(ledger: seq<Entry>, a: AccountId): nat {
    if ledger == [] then 0
    else Count(ledger[..|ledger| - 1], a) + if ledger[|ledger| - 1].account == a then 1 else 0
  }

  /** The movements that belong to a transaction, in ledger order. */
  function MovesOf(ledger: seq<Entry>, t: TxnId): seq<Move> {
    if ledger == [] then []
    else
      var last := ledger[|ledger| - 1];
      MovesOf(ledger[..|ledger| - 1], t) + if last.txn == t then [MoveOf(last)] else []
  }

  lemma Append(ledger: seq<Entry>, e: Entry, a: AccountId, t: TxnId)
    ensures Net(ledger + [e], a) == Net(ledger, a) + if e.account == a then Signed(e) else 0
    ensures Count(ledger + [e], a) == Count(ledger, a) + if e.account == a then 1 else 0
    ensures MovesOf(ledger + [e], t) == MovesOf(ledger, t) + if e.txn == t then [MoveOf(e)] else []
  {
    assert (ledger + [e])[..|ledger|] == ledger;
  }

  /** A ledger entry continues the chain of its account from the balance replayed so far. */
  predicate Linked(ledger: seq<Entry>, i: nat)
    requires i < |ledger|
  {
    var e := ledger[i];
    0 < e.amount && e.before == Net(ledger[..i], e.account) && e.after == e.before + Signed(e)
  }

  predicate Chained(ledger: seq<Entry>) {
    forall i: nat | i < |ledger| :: Linked(ledger, i)
  }

  lemma ChainedAppend(ledger: seq<Entry>, e: Entry)
    requires Chained(ledger)
    requires 0 < e.amount && e.before == Net(ledger, e.account) && e.after == e.before + Signed(e)
    ensures Chained(ledger + [e])
  {
    var longer := ledger + [e];
    forall i: nat | i < |longer| ensures Linked(longer, i) {
      if i < |ledger| {
        assert Linked(ledger, i);
        assert longer[..i] == ledger[..i];
      } else {
        assert longer[..i] == ledger;
      }
    }
  }

  lemma {:induction false} NetUntouched(ledger: seq<Entry>, i: nat, j: nat, a: AccountId)
    requires i <= j <= |ledger|
    requires forall k | i <= k < j :: ledger[k].account != a
    ensures Net(ledger[..j], a) == Net(ledger[..i], a)
    decreases j
  {
    if i < j {
      assert ledger[..j][..j - 1] == ledger[..j - 1];
      NetUntouched(ledger, i, j - 1, a);
    }
  }

  /** After an entry of its account, the replayed balance is what the entry says. */
  lemma NetAfterEntry(ledger: seq<Entry>, i: nat)
    requires Chained(ledger) && i < |ledger|
    ensures Net(ledger[..i + 1], ledger[i].account) == ledger[i].after
  {
    assert Linked(ledger, i);
    assert ledger[..i + 1][..i] == ledger[..i];
  }

  /**
   The entries of an account form a chain: the first starts from 0, each next one starts where the
   previous one ended, and the last one ends at the replayed balance.
   */
  lemma ChainOfAccount(ledger: seq<Entry>, a: AccountId, i: nat, j: nat)
    requires Chained(ledger) && i <= j <= |ledger|
    requires 0 < i ==> ledger[i - 1].account == a
    requires forall k | i <= k < j :: ledger[k].account != a
    ensures j < |ledger| && ledger[j].account == a ==> ledger[j].before == if i == 0 then 0 else ledger[i - 1].after
    ensures j == |ledger| ==> Net(ledger, a) == if i == 0 then 0 else ledger[i - 1].after
  {
    NetUntouched(ledger, i, j, a);
    if 0 < i {
      NetAfterEntry(ledger, i - 1);
    } else {
      assert ledger[..0] == [];
    }
    if j < |ledger| {
      assert Linked(ledger, j);
    } else {
      assert ledger[..j] == ledger;
    }
  }

  /** The movements that a transaction row stands for. */
  function Expected(t: TxnRow): seq<Move> {
    (if t.sender.Some? then [Move(t.sender.value, Debit, t.amount)] else []) +
    (if t.receiver.Some? then [Move(t.receiver.value, Credit, Credited(t))] else [])
  }

  // ---- What a decision to go ahead writes ------------------------------------------------------

  /** The table updates of a posted transaction. */
  function PostedTxns(call: Call, id: TxnId, rows: Tables): map<TxnId, TxnRow>
    requires (call.Confirm? || call.Reverse?) ==> call.txn in rows.txns
    requires call.PayByCard? ==> call.card in rows.cards
  {
    map[PostedId(call, id) := PostedRow(call, rows).(status := Success)] +
    if call.Reverse? then map[call.txn := rows.txns[call.txn].(status := Reversed)] else map[]
  }

  /** The currencies written on the two entries: each account's own, except in a reversal. */
  function DebitTag(call: Call, rows: Tables): Currency
    requires (call.Confirm? || call.Reverse?) ==> call.txn in rows.txns
    requires call.PayByCard? ==> call.card in rows.cards
  {
    var t := PostedRow(call, rows);
    if call.Confirm? && t.sender.Some? && t.sender.value in rows.accounts then rows.accounts[t.sender.value].currency
    else t.currency
  }

  function CreditTag(call: Call, rows: Tables): Currency
    requires (call.Confirm? || call.Reverse?) ==> call.txn in rows.txns
    requires call.PayByCard? ==> call.card in rows.cards
  {
    var t := PostedRow(call, rows);
    if call.Confirm? && t.receiver.Some? && t.receiver.value in rows.accounts then rows.accounts[t.receiver.value].currency
    else t.currency
  }

  /** These rows can carry the movement t: both accounts exist and the sender's balance covers it. */
  predicate Movable(rows: Tables, t: TxnRow) {
    && (t.sender.Some? ==> t.sender.value in rows.accounts && t.amount <= rows.accounts[t.sender.value].balance)
    && (t.receiver.Some? ==>
          && t.receiver.value in rows.accounts && 0 < Credited(t)
          && Storable(rows.accounts[t.receiver.value].balance + Credited(t)))
    && (t.sender.Some? ==> t.sender != t.receiver)
    && (t.sender.Some? || t.receiver.Some?)
    && 0 < t.amount && Storable(t.amount)
  }

  lemma PostMoves(rows: Tables, id: TxnId, t: TxnRow, debitTag: Currency, creditTag: Currency)
    requires t.sender.Some? ==> t.sender.value in rows.accounts && t.amount <= rows.accounts[t.sender.value].balance
    requires t.receiver.Some? ==> t.receiver.value in rows.accounts
    requires t.sender.Some? || t.receiver.Some?
    requires ChecksPass(t, Movement(rows, id, t, debitTag, creditTag))
    ensures Movable(rows, t)
  {
    var w := Movement(rows, id, t, debitTag, creditTag);
    if t.receiver.Some? {
      assert w.entries[|w.entries| - 1] == CreditEntry(rows, id, t, creditTag)[0];
    }
  }

  /** The call can be looked up: the row it starts from is there. */
  predicate Known(call: Call, rows: Tables) {
    && ((call.Confirm? || call.Reverse?) ==> call.txn in rows.txns)
    && (call.PayByCard? ==> CardVisible(rows, call.card))
  }

  /** Every decision to go ahead posts exactly one transaction, from a balance that covers it. */
  lemma ProceedPosts(call: Call, id: TxnId, rows: Tables, hasReversal: bool)
    requires Decide(call, id, rows, hasReversal).Proceed?
    ensures Known(call, rows)
    ensures call.Confirm? ==> rows.txns[call.txn].status == Pending
    ensures call.Reverse? ==>
      var o := rows.txns[call.txn];
      o.status == Success && !hasReversal && o.kind != CardPayment && SidesSet(o)
    ensures !call.Confirm? ==> id !in rows.txns
    ensures Movable(rows, PostedRow(call, rows))
    ensures
      var w := Decide(call, id, rows, hasReversal).writes;
      var m := Movement(rows, PostedId(call, id), PostedRow(call, rows), DebitTag(call, rows), CreditTag(call, rows));
      w.accounts == m.accounts && w.entries == m.entries && w.txns == PostedTxns(call, id, rows)
  {
    PostMoves(rows, PostedId(call, id), PostedRow(call, rows), DebitTag(call, rows), CreditTag(call, rows));
  }
}
