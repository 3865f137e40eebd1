/** Point conservation: balances, the point history and the payments always add up. */
module Ledger {
  import opened Common
  import opened Domain
  import opened Serial
  import opened Interleaving
  import opened Serializability

  /** The amounts of one user's history rows of one kind. */
  ghost function Entries(db: Db, userId: int, kind: TransactionType): map<int, int> {
    map h | h in db.histories && db.histories[h].userId == userId && db.histories[h].kind == kind ::
      db.histories[h].amount
  }

  ghost function Charged(db: Db, userId: int): int {
    Total(Entries(db, userId, CHARGE))
  }

  ghost function Used(db: Db, userId: int): int {
    Total(Entries(db, userId, USE))
  }

  /** The prices of one user's payments. */
  ghost function Prices(db: Db, userId: int): map<int, int> {
    map p | p in db.payments && db.payments[p].userId == userId :: db.payments[p].price
  }

  ghost function Paid(db: Db, userId: int): int {
    Total(Prices(db, userId))
  }

  lemma EntriesInsert(db: Db, db': Db, h: PointHistory, userId: int, kind: TransactionType)
    requires h.id !in db.histories && db'.histories == db.histories[h.id := h]
    ensures Total(Entries(db', userId, kind)) ==
            Total(Entries(db, userId, kind)) + if h.userId == userId && h.kind == kind then h.amount else 0
  {
    if h.userId == userId && h.kind == kind {
      assert Entries(db', userId, kind) == Entries(db, userId, kind)[h.id := h.amount];
      TotalInsert(Entries(db, userId, kind), h.id, h.amount);
    } else {
      assert Entries(db', userId, kind) == Entries(db, userId, kind);
    }
  }

  lemma PaidInsert(db: Db, db': Db, id: int, p: Payment, userId: int)
    requires id !in db.payments && db'.payments == db.payments[id := p]
    ensures Paid(db', userId) == Paid(db, userId) + if p.userId == userId then p.price else 0
  {
    if p.userId == userId {
      assert Prices(db', userId) == Prices(db, userId)[id := p.price];
      TotalInsert(Prices(db, userId), id, p.price);
    } else {
      assert Prices(db', userId) == Prices(db, userId);
    }
  }

  /** From db to db' the user's balance moved by the charges and uses recorded in between,
      and the uses by the payments recorded in between. */
  ghost predicate Balanced(db: Db, db': Db, userId: int) {
    && userId in db.points && userId in db'.points
    && db'.points[userId].amount - db.points[userId].amount ==
         (Charged(db', userId) - Charged(db, userId)) - (Used(db', userId) - Used(db, userId))
    && Used(db', userId) - Used(db, userId) == Paid(db', userId) - Paid(db, userId)
    && (db.points[userId].amount >= 0 ==> db'.points[userId].amount >= 0)
  }

  lemma AloneBalanced(db: Db, i: Input, userId: int)
    requires Keyed(db) && FreshIds(db, i) && Alone(db, i).Success? && userId in db.points
    ensures Balanced(db, Alone(db, i).value, userId)
  {
    var db' := Alone(db, i).value;
    match i
    case Book(_, _, _, _, _, _, _, _, _, _, _) =>
    case Pay(_, _, _, _, historyId, _, paymentId, _, _) =>
      EntriesInsert(db, db', db'.histories[historyId], userId, CHARGE);
      EntriesInsert(db, db', db'.histories[historyId], userId, USE);
      PaidInsert(db, db', paymentId, db'.payments[paymentId], userId);
    case Charge(_, _, historyId, _) =>
      EntriesInsert(db, db', db'.histories[historyId], userId, CHARGE);
      EntriesInsert(db, db', db'.histories[historyId], userId, USE);
  }

  lemma {:induction false} ReplayBalanced(db: Db, log: seq<Input>, userId: int)
    requires Keyed(db) && Replay(db, log).Success? && userId in db.points
    ensures Balanced(db, Replay(db, log).value, userId)
  {
    if log != [] {
      var init := log[..|log| - 1];
      ReplayKeyed(db, init);
      ReplayBalanced(db, init, userId);
      ReplayLast(db, log);
      AloneBalanced(Replay(db, init).value, log[|log| - 1], userId);
    }
  }

  /** Point conservation in every state that any interleaving reaches. */
  lemma PointsConserved(s0: State, acts: seq<Action>, userId: int)
    requires Initial(s0) && Run(s0, acts) && userId in s0.db.points
    ensures Balanced(s0.db, Exec(s0, acts).db, userId)
  {
    Serializable(s0, acts);
    ReplayBalanced(s0.db, History(Exec(s0, acts)), userId);
  }

  /** From empty ledgers: balance = opening + charges - uses, and uses = payments. */
  lemma BalanceFromLedger(s0: State, acts: seq<Action>, userId: int)
    requires Initial(s0) && Run(s0, acts) && userId in s0.db.points
    requires s0.db.histories == map[] && s0.db.payments == map[] && s0.db.points[userId].amount >= 0
    ensures var db := Exec(s0, acts).db;
            && userId in db.points
            && db.points[userId].amount == s0.db.points[userId].amount + Charged(db, userId) - Used(db, userId)
            && db.points[userId].amount >= 0
            && Used(db, userId) == Paid(db, userId)
  {
    PointsConserved(s0, acts, userId);
    assert Entries(s0.db, userId, CHARGE) == map[] && Entries(s0.db, userId, USE) == map[];
    assert Prices(s0.db, userId) == map[];
  }
}
