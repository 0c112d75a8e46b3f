/** The card service: it locks and changes card objects of its own, and shares the session of the money services. */
module CardService {
  import opened Basics
  import opened Schema
  import opened Operations
  import opened Invariants
  import opened Transfers
  import opened Services

  /** A card object of the identity map. */
  class Card {
    const id: CardId
    const accountId: AccountId
    var status: CardStatus
    var deleted: bool

    constructor (id: CardId, row: CardRow)
      ensures this.id == id && Row() == row
    {
      this.id, accountId := id, row.account;
      status, deleted := row.status, row.deleted;
    }

    function Row(): CardRow
      reads this
    {
      CardRow(accountId, status, deleted)
    }

    /** Overwrite the attributes by the row just read. */
    method Populate(row: CardRow)
      requires row.account == accountId
      modifies this
      ensures Row() == row
    {
      status, deleted := row.status, row.deleted;
    }
  }

  class Service {
    const session: TransactionService
    var cards: map<CardId, Card>

    /** Card objects are registered under their ids and know their account; the rest may be stale. */
    ghost predicate Valid()
      reads this, cards.Values, session, session.accounts.Values, session.transactions.Values
    {
      && session.Valid()
      && forall c | c in cards ::
           && cards[c].id == c && c in session.db.rows.cards
           && cards[c].accountId == session.db.rows.cards[c].account
    }

    constructor (session: TransactionService)
      requires session.Valid()
      ensures this.session == session && cards == map[] && Valid()
    {
      this.session := session;
      cards := map[];
    }

    /** get_by_id without a lock: a card object already in the identity map is returned as it is. */
    method GetById(c: CardId) returns (card: Card?)
      requires Valid()
      modifies this`cards
      ensures Valid() && fresh(cards.Values - old(cards.Values))
      ensures card == null <==> !CardVisible(session.db.rows, c)
      ensures card != null ==> c in cards && cards[c] == card
    {
      if !CardVisible(session.db.rows, c) {
        return null;
      }
      if c !in cards {
        card := new Card(c, session.db.rows.cards[c]);
        cards := cards[c := card];
      }
      card := cards[c];
    }

    /** SELECT ... FOR UPDATE on a card that is not deleted, with populate_existing. */
    method GetOneForUpdate(c: CardId) returns (card: Card?)
      requires Valid()
      modifies this`cards, cards.Values
      ensures Valid() && fresh(cards.Values - old(cards.Values))
      ensures card == null <==> !CardVisible(session.db.rows, c)
      ensures card != null ==> c in cards && cards[c] == card && card.Row() == session.db.rows.cards[c]
    {
      if !CardVisible(session.db.rows, c) {
        return null;
      }
      if c in cards {
        card := cards[c];
        card.Populate(session.db.rows.cards[c]);
      } else {
        card := new Card(c, session.db.rows.cards[c]);
        cards := cards[c := card];
      }
    }

    /** pay_with_card: the card row is locked and read again first, then the account behind it. */
    method PayWithCard(id: TxnId, cardId: CardId, amount: int, currency: Currency) returns (r: Outcome)
      requires Valid() && session.work == NO_WRITES && id !in session.db.rows.txns && id !in session.transactions
      modifies this`cards, cards.Values
      modifies session`db, session`accounts, session`transactions, session`entries, session`work
      modifies session.accounts.Values, session.transactions.Values
      ensures session.Valid() && session.work == NO_WRITES
      ensures Answers(old(session.db), DecidePay(old(session.db.rows), id, cardId, amount, currency), session.db, r)
    {
      var lockedCard := GetOneForUpdate(cardId);
      if lockedCard == null {
        r := session.Refused(CardConflict);
      } else if lockedCard.status != CardActive {
        r := session.Refused(CardConflict);
      } else {
        r := session.PayFromAccount(id, cardId, lockedCard.accountId, amount, currency);
      }
    }

    /** block_own_card, on a card that was read without a lock: by what was seen, whatever it has become. */
    method BlockOwnCard(cardId: CardId) returns (r: Option<Refusal>)
      requires Valid() && session.work == NO_WRITES && cardId in cards
      modifies {cards[cardId]}`status, session`db
      ensures Valid() && session.work == NO_WRITES
      ensures
        var seen := old(cards[cardId].status);
        && (r == Some(CardConflict) <==> seen != CardActive) && (r == None <==> seen == CardActive)
        && session.db == if seen != CardActive then old(session.db)
                         else WithCard(old(session.db), cardId, old(session.db.rows.cards)[cardId].(status := CardBlocked))
    {
      var card := cards[cardId];
      if card.status == CardBlocked {
        return Some(CardConflict);
      }
      if card.status == CardExpired {
        return Some(CardConflict);
      }
      card.status := CardBlocked;
      var b := session.db;
      session.CommitCard(cardId, b.rows.cards[cardId].(status := card.status));
      r := None;
    }
  }
}
