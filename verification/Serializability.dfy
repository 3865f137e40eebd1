/** Every interleaving leaves the tables that the committed transactions leave when they run
    one after another in commit order. The proof rests on the version checks and row locks
    only; no unique index is used. */
module Serializability {
  import opened Common
  import opened Domain
  import opened Serial
  import opened Interleaving

  // ---- What a live transaction knows about the committed tables ----

  /** The row read is still the committed one, or the committed one has a later version. */
  ghost predicate SeatSeen(db: Db, s: Seat) {
    s.id in db.seats && (db.seats[s.id] == s || db.seats[s.id].version > s.version)
  }

  ghost predicate BookingSeen(db: Db, b: Booking) {
    b.id in db.bookings && (db.bookings[b.id] == b || db.bookings[b.id].version > b.version)
  }

  ghost predicate SeatCurrent(db: Db, s: Seat) {
    s.id in db.seats && db.seats[s.id] == s
  }

  ghost predicate BookingCurrent(db: Db, b: Booking) {
    b.id in db.bookings && db.bookings[b.id] == b
  }

  ghost predicate PointCurrent(db: Db, p: Point) {
    p.userId in db.points && db.points[p.userId] == p
  }

  ghost predicate TxnInv(db: Db, t: Txn) {
    && Loaded(t)
    && match t.input
       case Book(_, _, seatId, _, _, _, _, _, _, _, _) =>
         && (t.pc >= 1 ==> CheckSchedule(db, t.input).Success?)
         && (t.pc >= 2 ==>
               && t.seat.value.id == seatId
               && CheckSeat(t.input, t.seat.value).Success?
               && SeatSeen(db, t.seat.value))
         && (t.pc >= 3 ==> SeatCurrent(db, t.seat.value))
       case Pay(userId, bookingId, bookingCheckAt, _, _, _, _, _, _) =>
         && (t.pc >= 1 ==>
               && t.booking.value.id == bookingId
               && PayBooking(t.booking.value, userId, bookingCheckAt).Success?
               && BookingSeen(db, t.booking.value))
         && (t.pc >= 2 ==> BookingCurrent(db, t.booking.value))
         && (t.pc >= 3 ==>
               && t.seat.value.id == t.booking.value.seatId
               && CheckSeat(t.input, t.seat.value).Success?
               && SeatSeen(db, t.seat.value))
         && (t.pc >= 4 ==> SeatCurrent(db, t.seat.value))
         && (t.pc >= 5 ==>
               && t.point.value.userId == userId
               && CheckPoint(t, t.point.value).Success?
               && PointCurrent(db, t.point.value))
       case Charge(userId, _, _, _) =>
         t.pc >= 1 ==>
           t.point.value.userId == userId && CheckPoint(t, t.point.value).Success? && PointCurrent(db, t.point.value)
  }

  /** The locks each live transaction has taken. */
  ghost function Holdings(txns: map<TxnId, Txn>): map<TxnId, set<LockKey>> {
    map x | x in txns && txns[x].Live() && Loaded(txns[x]) :: Held(txns[x])
  }

  /** A lock is in the lock table exactly when a live transaction has taken it, under its id. */
  ghost predicate LockTable(holdings: map<TxnId, set<LockKey>>, locks: map<LockKey, TxnId>) {
    && (forall k | k in locks :: locks[k] in holdings && k in holdings[locks[k]])
    && (forall x, k | x in holdings && k in holdings[x] :: k in locks && locks[k] == x)
  }

  ghost predicate LocksMatch(s: State) {
    LockTable(Holdings(s.txns), s.locks)
  }

  ghost predicate LogMatches(s: State) {
    && (forall j | 0 <= j < |s.log| :: s.log[j] in s.txns && s.txns[s.log[j]].status.Committed?)
    && (forall j, k | 0 <= j < k < |s.log| :: s.log[j] != s.log[k])
    && (forall x | x in s.txns && s.txns[x].status.Committed? :: x in s.log)
  }

  /** The committed requests in commit order. */
  ghost function History(s: State): seq<Input>
    requires LogMatches(s)
  {
    seq(|s.log|, j requires 0 <= j < |s.log| => s.txns[s.log[j]].input)
  }

  ghost predicate Inv(s: State, db0: Db) {
    && Keyed(s.db)
    && DistinctIds(s.txns)
    && (forall x | x in s.txns && s.txns[x].Live() :: TxnInv(s.db, s.txns[x]))
    && (forall x | x in s.txns && !s.txns[x].status.Committed? :: FreshIds(s.db, s.txns[x].input))
    && LocksMatch(s)
    && LogMatches(s)
    && Replay(db0, History(s)) == Success(s.db)
  }

  lemma InitialInv(s: State)
    requires Initial(s)
    ensures Inv(s, s.db)
  {
  }

  // ---- A commit seen from the other transactions ----

  /** db' keeps every row that is not locked by keys, and later versions replace the others. */
  ghost predicate Later(db: Db, db': Db, keys: set<LockKey>) {
    && db'.schedules == db.schedules
    && (forall k | k in db.seats ::
          && k in db'.seats
          && (db'.seats[k] == db.seats[k] || db'.seats[k].version > db.seats[k].version)
          && (SeatLock(k) !in keys ==> db'.seats[k] == db.seats[k]))
    && (forall k | k in db.bookings ::
          && k in db'.bookings
          && (db'.bookings[k] == db.bookings[k] || db'.bookings[k].version > db.bookings[k].version)
          && (BookingLock(k) !in keys ==> db'.bookings[k] == db.bookings[k]))
    && (forall k | k in db.points ::
          k in db'.points && (PointLock(k) !in keys ==> db'.points[k] == db.points[k]))
  }

  /** At commit the written rows are exactly what the request does alone to the tables as
      committed now: every row it read is locked by it and therefore current. */
  lemma EffectsAreAlone(db: Db, t: Txn)
    requires TxnInv(db, t) && Keyed(db) && t.pc == Length(t.input)
    ensures Effects(db, t).Success?
    ensures Alone(db, t.input) == Effects(db, t)
  {
  }

  lemma EffectsLater(db: Db, t: Txn)
    requires TxnInv(db, t) && Keyed(db) && t.pc == Length(t.input) && FreshIds(db, t.input)
    requires Effects(db, t).Success?
    ensures Later(db, Effects(db, t).value, Held(t))
    ensures Keyed(Effects(db, t).value)
  {
    match t.input
    case Book(_, _, _, _, _, _, _, _, _, _, _) => BookEffectsLater(db, t);
    case Pay(_, _, _, _, _, _, _, _, _) => PayEffectsLater(db, t);
    case Charge(_, _, _, _) =>
  }

  lemma BookEffectsLater(db: Db, t: Txn)
    requires t.input.Book? && TxnInv(db, t) && Keyed(db) && t.pc == Length(t.input) && FreshIds(db, t.input)
    requires Effects(db, t).Success?
    ensures Later(db, Effects(db, t).value, Held(t))
    ensures Keyed(Effects(db, t).value)
  {
  }

  lemma PayEffectsLater(db: Db, t: Txn)
    requires t.input.Pay? && TxnInv(db, t) && Keyed(db) && t.pc == Length(t.input)
    requires Effects(db, t).Success?
    ensures Later(db, Effects(db, t).value, Held(t))
    ensures Keyed(Effects(db, t).value)
  {
  }

  lemma TxnInvLater(db: Db, db': Db, keys: set<LockKey>, t: Txn)
    requires TxnInv(db, t) && Later(db, db', keys) && Held(t) !! keys
    ensures TxnInv(db', t)
  {
    match t.input
    case Book(_, _, seatId, _, _, _, _, _, _, _, _) =>
      assert t.pc >= 3 ==> SeatLock(seatId) in Held(t);
    case Pay(userId, bookingId, _, _, _, _, _, _, _) =>
      assert t.pc >= 2 ==> BookingLock(bookingId) in Held(t);
      assert t.pc >= 4 ==> SeatLock(t.seat.value.id) in Held(t);
      assert t.pc >= 5 ==> PointLock(userId) in Held(t);
    case Charge(userId, _, _, _) =>
      assert t.pc >= 1 ==> PointLock(userId) in Held(t);
  }

  lemma FreshStays(db: Db, i: Input, other: Input)
    requires Alone(db, i).Success? && FreshIds(db, other) && RowKeys(i) !! RowKeys(other)
    ensures FreshIds(Alone(db, i).value, other)
  {
    match other
    case Book(_, _, _, _, _, _, _, _, newBookingId, outboxId, _) =>
      assert BookingRow(newBookingId) in RowKeys(other) && OutboxRow(outboxId) in RowKeys(other);
    case Pay(_, _, _, _, historyId, _, paymentId, outboxId, _) =>
      assert HistoryRow(historyId) in RowKeys(other) && PaymentRow(paymentId) in RowKeys(other);
      assert OutboxRow(outboxId) in RowKeys(other);
    case Charge(_, _, historyId, _) =>
      assert HistoryRow(historyId) in RowKeys(other);
  }

  lemma FreshAfterCommit(db: Db, t: Txn, i: Input)
    requires TxnInv(db, t) && Keyed(db) && t.pc == Length(t.input) && Effects(db, t).Success?
    requires FreshIds(db, i) && RowKeys(t.input) !! RowKeys(i)
    ensures FreshIds(Effects(db, t).value, i)
  {
    EffectsAreAlone(db, t);
    FreshStays(db, t.input, i);
  }

  // ---- Each step keeps the invariant ----

  lemma AdvanceTxnInv(db: Db, locks: map<LockKey, TxnId>, tid: TxnId, t: Txn)
    requires TxnInv(db, t) && Keyed(db) && t.pc < Length(t.input)
    requires Attempt(db, locks, tid, t).Next?
    ensures var t' := Attempt(db, locks, tid, t).txn;
            && TxnInv(db, t')
            && t'.input == t.input && t'.status == t.status
            && Held(t') == Held(t) + Attempt(db, locks, tid, t).taken
            && forall k | k in Attempt(db, locks, tid, t).taken :: !LockedByOther(locks, tid, k)
  {
  }

  lemma LockTableGrant(holdings: map<TxnId, set<LockKey>>, locks: map<LockKey, TxnId>, tid: TxnId, taken: set<LockKey>)
    requires LockTable(holdings, locks) && tid in holdings
    requires forall k | k in taken :: !LockedByOther(locks, tid, k)
    ensures LockTable(holdings[tid := holdings[tid] + taken], Grant(locks, tid, taken))
  {
  }

  lemma LockTableRelease(holdings: map<TxnId, set<LockKey>>, locks: map<LockKey, TxnId>, tid: TxnId)
    requires LockTable(holdings, locks)
    ensures LockTable(holdings - {tid}, Release(locks, tid))
  {
  }

  lemma AdvanceLocks(s: State, tid: TxnId, t': Txn, taken: set<LockKey>)
    requires LocksMatch(s) && tid in s.txns && s.txns[tid].Live() && t'.Live()
    requires Loaded(s.txns[tid]) && Loaded(t') && Held(t') == Held(s.txns[tid]) + taken
    requires forall k | k in taken :: !LockedByOther(s.locks, tid, k)
    ensures LockTable(Holdings(s.txns[tid := t']), Grant(s.locks, tid, taken))
  {
    var h := Holdings(s.txns);
    LockTableGrant(h, s.locks, tid, taken);
    assert Holdings(s.txns[tid := t']) == h[tid := h[tid] + taken];
  }

  lemma EndLocks(s: State, tid: TxnId, t': Txn)
    requires LocksMatch(s) && tid in s.txns && t'.Finished()
    ensures LockTable(Holdings(s.txns[tid := t']), Release(s.locks, tid))
  {
    LockTableRelease(Holdings(s.txns), s.locks, tid);
    assert Holdings(s.txns[tid := t']) == Holdings(s.txns) - {tid};
  }

  /** Replacing a transaction that stays uncommitted leaves the history alone. */
  lemma LogUnchanged(s: State, tid: TxnId, t': Txn, locks: map<LockKey, TxnId>)
    requires LogMatches(s) && tid in s.txns
    requires t'.input == s.txns[tid].input && !t'.status.Committed? && !s.txns[tid].status.Committed?
    ensures LogMatches(s.(txns := s.txns[tid := t'], locks := locks))
    ensures History(s.(txns := s.txns[tid := t'], locks := locks)) == History(s)
  {
  }

  /** A step of a transaction that does not commit in it. */
  lemma PrivateStepInv(s: State, db0: Db, tid: TxnId, t': Txn, locks: map<LockKey, TxnId>)
    requires Inv(s, db0) && tid in s.txns && s.txns[tid].Live()
    requires t'.input == s.txns[tid].input && !t'.status.Committed?
    requires t'.Live() ==> TxnInv(s.db, t')
    requires LockTable(Holdings(s.txns[tid := t']), locks)
    ensures Inv(s.(txns := s.txns[tid := t'], locks := locks), db0)
  {
    LogUnchanged(s, tid, t', locks);
  }

  /** What an operation may do to the transaction that issues it. */
  ghost predicate SafeOutcome(s: State, tid: TxnId, o: Outcome)
    requires tid in s.txns && Loaded(s.txns[tid])
  {
    o.Next? ==>
      && TxnInv(s.db, o.txn)
      && o.txn.input == s.txns[tid].input && o.txn.status == s.txns[tid].status
      && Held(o.txn) == Held(s.txns[tid]) + o.taken
      && forall k | k in o.taken :: !LockedByOther(s.locks, tid, k)
  }

  lemma FailingKeepsLocks(s: State, tid: TxnId, e: ErrorCode)
    requires LocksMatch(s) && tid in s.txns && s.txns[tid].Live()
    ensures LockTable(Holdings(s.txns[tid := s.txns[tid].(status := Failing(e))]), s.locks)
  {
    var t' := s.txns[tid].(status := Failing(e));
    assert Loaded(t') == Loaded(s.txns[tid]);
    assert Loaded(t') ==> Held(t') == Held(s.txns[tid]);
    assert Holdings(s.txns[tid := t']) == Holdings(s.txns);
  }

  lemma FailingTxnInv(db: Db, t: Txn, e: ErrorCode)
    requires TxnInv(db, t)
    ensures TxnInv(db, t.(status := Failing(e)))
  {
  }

  lemma OutcomeInv(s: State, db0: Db, tid: TxnId, o: Outcome)
    requires Inv(s, db0) && tid in s.txns && s.txns[tid].Live()
    requires Loaded(s.txns[tid]) && !o.Wait? && SafeOutcome(s, tid, o)
    ensures Inv(After(s, tid, o), db0)
  {
    if o.Next? {
      AdvanceLocks(s, tid, o.txn, o.taken);
      PrivateStepInv(s, db0, tid, o.txn, Grant(s.locks, tid, o.taken));
    } else {
      FailingKeepsLocks(s, tid, o.error);
      FailingTxnInv(s.db, s.txns[tid], o.error);
      PrivateStepInv(s, db0, tid, s.txns[tid].(status := Failing(o.error)), s.locks);
      assert s.(txns := s.txns[tid := s.txns[tid].(status := Failing(o.error))], locks := s.locks) == After(s, tid, o);
    }
  }

  lemma AdvanceInv(s: State, db0: Db, tid: TxnId)
    requires Inv(s, db0) && Enabled(s, Advance(tid))
    ensures Inv(Step(s, Advance(tid)), db0)
  {
    assert TxnInv(s.db, s.txns[tid]);
    var o := Attempt(s.db, s.locks, tid, s.txns[tid]);
    if o.Next? {
      AdvanceTxnInv(s.db, s.locks, tid, s.txns[tid]);
    }
    OutcomeInv(s, db0, tid, o);
  }

  lemma EndInv(s: State, db0: Db, tid: TxnId, error: ErrorCode)
    requires Inv(s, db0) && tid in s.txns && s.txns[tid].Live()
    ensures Inv(s.(txns := s.txns[tid := s.txns[tid].(status := Aborted(error))], locks := Release(s.locks, tid)), db0)
  {
    var t' := s.txns[tid].(status := Aborted(error));
    EndLocks(s, tid, t');
    PrivateStepInv(s, db0, tid, t', Release(s.locks, tid));
  }

  lemma LogExtended(s: State, s': State, tid: TxnId)
    requires LogMatches(s) && tid in s.txns && !s.txns[tid].status.Committed?
    requires s'.txns == s.txns[tid := s.txns[tid].(status := Committed)] && s'.log == s.log + [tid]
    ensures LogMatches(s') && History(s') == History(s) + [s.txns[tid].input]
  {
    assert tid !in s.log;
    forall x | x in s'.txns && s'.txns[x].status.Committed?
      ensures x in s'.log
    {
      assert x in s.log || x == tid;
    }
  }

  lemma HoldingsApart(holdings: map<TxnId, set<LockKey>>, locks: map<LockKey, TxnId>, x: TxnId, y: TxnId)
    requires LockTable(holdings, locks) && x in holdings && y in holdings && x != y
    ensures holdings[x] !! holdings[y]
  {
    forall k | k in holdings[x]
      ensures k !in holdings[y]
    {
      assert locks[k] == x;
    }
  }

  /** The lock tables of two live transactions never share a lock. */
  lemma HeldApart(s: State, x: TxnId, y: TxnId)
    requires LocksMatch(s) && x in s.txns && y in s.txns && x != y
    requires s.txns[x].Live() && s.txns[y].Live() && Loaded(s.txns[x]) && Loaded(s.txns[y])
    ensures Held(s.txns[x]) !! Held(s.txns[y])
  {
    var h := Holdings(s.txns);
    assert x in h && y in h;
    assert h[x] == Held(s.txns[x]);
    assert h[y] == Held(s.txns[y]);
    HoldingsApart(h, s.locks, x, y);
  }

  lemma OthersAfterCommit(s: State, db0: Db, tid: TxnId, x: TxnId)
    requires Inv(s, db0) && Enabled(s, Commit(tid)) && x in s.txns && x != tid
    ensures s.txns[x].Live() ==> TxnInv(Step(s, Commit(tid)).db, s.txns[x])
    ensures !s.txns[x].status.Committed? ==> FreshIds(Step(s, Commit(tid)).db, s.txns[x].input)
  {
    var t := s.txns[tid];
    if !s.txns[x].status.Committed? {
      FreshAfterCommit(s.db, t, s.txns[x].input);
    }
    if s.txns[x].Live() {
      EffectsLater(s.db, t);
      HeldApart(s, x, tid);
      TxnInvLater(s.db, Effects(s.db, t).value, Held(t), s.txns[x]);
    }
  }

  /** A commit seen from another live transaction x: the rows that x has locked are as they
      were, and what x has checked and not locked is unchanged or has a later version. */
  lemma CommitSparesOthers(s: State, db0: Db, tid: TxnId, x: TxnId)
    requires Inv(s, db0) && Enabled(s, Commit(tid)) && x in s.txns && x != tid && s.txns[x].Live()
    ensures var db, db', held := s.db, Step(s, Commit(tid)).db, Held(s.txns[x]);
            && (forall k | SeatLock(k) in held :: k in db.seats && k in db'.seats && db'.seats[k] == db.seats[k])
            && (forall k | BookingLock(k) in held ::
                  k in db.bookings && k in db'.bookings && db'.bookings[k] == db.bookings[k])
            && (forall k | PointLock(k) in held :: k in db.points && k in db'.points && db'.points[k] == db.points[k])
            && TxnInv(db', s.txns[x])
  {
    assert TxnInv(s.db, s.txns[x]);
    OthersAfterCommit(s, db0, tid, x);
    EffectsLater(s.db, s.txns[tid]);
    HeldApart(s, x, tid);
    LockedRowsStay(s.db, Step(s, Commit(tid)).db, Held(s.txns[tid]), s.txns[x]);
  }

  lemma LockedRowsStay(db: Db, db': Db, keys: set<LockKey>, t: Txn)
    requires TxnInv(db, t) && Later(db, db', keys) && Held(t) !! keys
    ensures forall k | SeatLock(k) in Held(t) :: k in db.seats && k in db'.seats && db'.seats[k] == db.seats[k]
    ensures forall k | BookingLock(k) in Held(t) ::
              k in db.bookings && k in db'.bookings && db'.bookings[k] == db.bookings[k]
    ensures forall k | PointLock(k) in Held(t) :: k in db.points && k in db'.points && db'.points[k] == db.points[k]
  {
  }

  lemma CommitHistory(s: State, db0: Db, tid: TxnId)
    requires Inv(s, db0) && Enabled(s, Commit(tid))
    ensures var s' := Step(s, Commit(tid));
            && Keyed(s'.db)
            && LogMatches(s')
            && History(s') == History(s) + [s.txns[tid].input]
            && Replay(db0, History(s')) == Success(s'.db)
  {
    var t := s.txns[tid];
    assert TxnInv(s.db, t);
    EffectsAreAlone(s.db, t);
    EffectsLater(s.db, t);
    LogExtended(s, Step(s, Commit(tid)), tid);
    ReplayAppend(db0, History(s), t.input);
  }

  lemma CommitInv(s: State, db0: Db, tid: TxnId)
    requires Inv(s, db0) && Enabled(s, Commit(tid))
    ensures Inv(Step(s, Commit(tid)), db0)
  {
    var s' := Step(s, Commit(tid));
    CommitHistory(s, db0, tid);
    EndLocks(s, tid, s.txns[tid].(status := Committed));
    forall x | x in s.txns && x != tid
      ensures s.txns[x].Live() ==> TxnInv(s'.db, s.txns[x])
      ensures !s.txns[x].status.Committed? ==> FreshIds(s'.db, s.txns[x].input)
    {
      OthersAfterCommit(s, db0, tid, x);
    }
  }

  lemma StepInv(s: State, db0: Db, a: Action)
    requires Inv(s, db0) && Enabled(s, a)
    ensures Inv(Step(s, a), db0)
  {
    match a
    case Advance(tid) => AdvanceInv(s, db0, tid);
    case Commit(tid) => CommitInv(s, db0, tid);
    case Rollback(tid) => EndInv(s, db0, tid, s.txns[tid].status.error);
    case Crash(tid) => EndInv(s, db0, tid, InternalServerError);
  }

  /** The same requests, and a history that only grows. */
  ghost predicate Follows(s: State, s': State) {
    && s'.txns.Keys == s.txns.Keys
    && (forall x | x in s.txns :: s'.txns[x].input == s.txns[x].input)
    && s.log <= s'.log
  }

  lemma AttemptInput(db: Db, locks: map<LockKey, TxnId>, tid: TxnId, t: Txn)
    requires Loaded(t) && t.pc < Length(t.input) && Attempt(db, locks, tid, t).Next?
    ensures Attempt(db, locks, tid, t).txn.input == t.input
  {
  }

  lemma StepFollows(s: State, a: Action)
    requires Enabled(s, a)
    ensures Follows(s, Step(s, a))
  {
    if a.Advance? && Attempt(s.db, s.locks, a.tid, s.txns[a.tid]).Next? {
      AttemptInput(s.db, s.locks, a.tid, s.txns[a.tid]);
    }
  }

  lemma {:induction false} RunInv(s: State, db0: Db, acts: seq<Action>)
    requires Inv(s, db0) && Run(s, acts)
    ensures Inv(Exec(s, acts), db0)
    ensures Follows(s, Exec(s, acts))
    decreases |acts|
  {
    if acts != [] {
      StepInv(s, db0, acts[0]);
      StepFollows(s, acts[0]);
      RunInv(Step(s, acts[0]), db0, acts[1..]);
    }
  }

  // ---- The theorem ----

  /** Serializability. After any run of any set of book, pay and charge transactions, the
      committed tables are the replay of the committed requests in commit order, each
      transaction at most once; a transaction that did not commit appears nowhere in it. */
  lemma Serializable(s0: State, acts: seq<Action>)
    requires Initial(s0) && Run(s0, acts)
    ensures var s := Exec(s0, acts);
            && LogMatches(s)
            && Replay(s0.db, History(s)) == Success(s.db)
  {
    InitialInv(s0);
    RunInv(s0, s0.db, acts);
  }

  /** log is the commit-order history of a run of the requests of s0. */
  ghost predicate Commits(s0: State, acts: seq<Action>, log: seq<Input>) {
    Initial(s0) && Run(s0, acts) && LogMatches(Exec(s0, acts)) && log == History(Exec(s0, acts))
  }

  lemma CommitsReplay(s0: State, acts: seq<Action>, log: seq<Input>)
    requires Commits(s0, acts, log)
    ensures Replay(s0.db, log) == Success(Exec(s0, acts).db)
  {
    Serializable(s0, acts);
  }

  lemma HistoryGrows(s: State, s': State)
    requires LogMatches(s) && LogMatches(s') && Follows(s, s')
    ensures History(s) <= History(s')
  {
    forall j | 0 <= j < |s.log|
      ensures s'.log[j] == s.log[j] && History(s')[j] == History(s)[j]
    {
    }
  }

  lemma ReplayRest(db: Db, first: seq<Input>, log: seq<Input>)
    requires first <= log && Replay(db, log).Success?
    ensures Replay(db, first).Success?
    ensures Replay(Replay(db, first).value, log[|first|..]) == Replay(db, log)
  {
    assert log == first + log[|first|..];
    ReplaySplit(db, first, log[|first|..]);
  }

  /** A run that goes on replays the newly committed requests on the tables it started from. */
  lemma SerializableFrom(s: State, db0: Db, acts: seq<Action>)
    requires Inv(s, db0) && Run(s, acts)
    ensures var s' := Exec(s, acts);
            && Inv(s', db0)
            && History(s) <= History(s')
            && Replay(s.db, History(s')[|s.log|..]) == Success(s'.db)
  {
    RunInv(s, db0, acts);
    HistoryGrows(s, Exec(s, acts));
    ReplayRest(db0, History(s), History(Exec(s, acts)));
  }
}
