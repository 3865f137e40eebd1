/** Of rival requests that race to completion exactly one wins. */
module Races {
  import opened Common
  import opened Domain
  import opened Serial
  import opened Interleaving
  import opened Serializability
  import opened Solo

  predicate NoCrash(acts: seq<Action>) {
    forall j | 0 <= j < |acts| :: !acts[j].Crash?
  }

  /** Each request would succeed alone, and after any one of them any other would not. */
  ghost predicate Rivals(s0: State) {
    && AllSucceedAlone(s0, s0.db)
    && (forall x, y | x in s0.txns && y in s0.txns && x != y ::
          Alone(Alone(s0.db, s0.txns[x].input).value, s0.txns[y].input).Failure?)
  }

  // ---- At least one ----

  /** As long as nobody has committed, nobody has failed and every row read is current. */
  ghost predicate Untouched(s: State, s0: State) {
    && s.db == s0.db
    && s.log == []
    && forall x | x in s.txns :: s.txns[x].status.Running? && CurrentRows(s.db, s.txns[x])
  }

  lemma UntouchedAdvance(s: State, s0: State, tid: TxnId)
    requires Inv(s, s0.db) && Enabled(s, Advance(tid)) && Untouched(s, s0)
    requires Alone(s0.db, s.txns[tid].input).Success?
    ensures Untouched(Step(s, Advance(tid)), s0)
  {
    var t := s.txns[tid];
    assert TxnInv(s.db, t);
    if Attempt(s.db, s.locks, tid, t).Throw? {
      ThrowIsAlone(s.db, s.locks, tid, t);
    } else {
      NextIsCurrent(s.db, s.locks, tid, t);
      AdvanceTxnInv(s.db, s.locks, tid, t);
    }
  }

  ghost predicate AllSucceedAlone(s: State, db0: Db) {
    forall x | x in s.txns :: Alone(db0, s.txns[x].input).Success?
  }

  lemma AllSucceedFollows(s: State, s': State, db0: Db)
    requires AllSucceedAlone(s, db0) && Follows(s, s')
    ensures AllSucceedAlone(s', db0)
  {
    forall x | x in s'.txns
      ensures Alone(db0, s'.txns[x].input).Success?
    {
      assert x in s.txns && s'.txns[x].input == s.txns[x].input;
    }
  }

  lemma UntouchedStep(s: State, s0: State, a: Action)
    requires Inv(s, s0.db) && Enabled(s, a) && !a.Crash? && Untouched(s, s0) && AllSucceedAlone(s, s0.db)
    ensures Untouched(Step(s, a), s0) || Step(s, a).log != []
  {
    match a
    case Advance(tid) => UntouchedAdvance(s, s0, tid);
    case Commit(tid) => assert Step(s, a).log == s.log + [tid];
    case _ =>
  }

  lemma {:induction false} UntouchedRun(s: State, s0: State, acts: seq<Action>)
    requires Inv(s, s0.db) && Run(s, acts) && NoCrash(acts) && (Untouched(s, s0) || s.log != [])
    requires AllSucceedAlone(s, s0.db)
    ensures Untouched(Exec(s, acts), s0) || Exec(s, acts).log != []
    decreases |acts|
  {
    if acts != [] {
      var a, s' := acts[0], Step(s, acts[0]);
      StepInv(s, s0.db, a);
      StepFollows(s, a);
      AllSucceedFollows(s, s', s0.db);
      if s.log == [] {
        UntouchedStep(s, s0, a);
      }
      NoCrashTail(acts);
      UntouchedRun(s', s0, acts[1..]);
    }
  }

  lemma NoCrashTail(acts: seq<Action>)
    requires acts != [] && NoCrash(acts)
    ensures !acts[0].Crash? && NoCrash(acts[1..])
  {
    assert forall j | 0 <= j < |acts[1..]| :: acts[1..][j] == acts[j + 1];
  }

  lemma InitialUntouched(s0: State)
    requires Initial(s0)
    ensures Untouched(s0, s0)
  {
  }

  // ---- At most one ----

  lemma FirstTwo(db: Db, log: seq<Input>)
    requires Replay(db, log).Success? && |log| >= 1
    ensures Alone(db, log[0]).Success?
    ensures |log| == 1 ==> Alone(db, log[0]) == Replay(db, log)
    ensures |log| >= 2 ==> Alone(Alone(db, log[0]).value, log[1]).Success?
  {
    ReplayAt(db, log, 0);
    assert log[..0] == [];
    if |log| == 1 {
      assert log[..1] == log;
    } else {
      ReplayAt(db, log, 1);
    }
  }

  lemma AtMostOne(s0: State, s: State)
    requires Inv(s, s0.db) && Rivals(s0) && s.log != []
    requires Follows(s0, s)
    ensures |s.log| == 1 && s.log[0] in s0.txns
    ensures Alone(s0.db, s0.txns[s.log[0]].input) == Success(s.db)
  {
    var log := History(s);
    assert s.log[0] in s.txns && log[0] == s0.txns[s.log[0]].input;
    assert |s.log| >= 2 ==> s.log[1] in s.txns && s.log[0] != s.log[1] && log[1] == s0.txns[s.log[1]].input;
    FirstTwo(s0.db, log);
  }

  /** w won and every other transaction aborted. */
  ghost predicate OnlyWinner(s: State, w: TxnId) {
    && w in s.txns && s.log == [w] && s.txns[w].status.Committed?
    && forall x | x in s.txns && x != w :: s.txns[x].status.Aborted?
  }

  lemma SoleCommit(s: State, w: TxnId)
    requires LogMatches(s) && s.log == [w] && forall x | x in s.txns :: s.txns[x].Finished()
    ensures OnlyWinner(s, w)
  {
    assert s.log[0] in s.txns;
  }

  lemma FinishedRace(s0: State, s: State) returns (w: TxnId)
    requires Inv(s, s0.db) && Rivals(s0) && s0.txns != map[] && (Untouched(s, s0) || s.log != [])
    requires Follows(s0, s)
    requires forall x | x in s.txns :: s.txns[x].Finished()
    ensures OnlyWinner(s, w) && w in s0.txns && Success(s.db) == Alone(s0.db, s0.txns[w].input)
  {
    var x :| x in s0.txns;
    assert x in s.txns && s.txns[x].Finished();
    AtMostOne(s0, s);
    w := s.log[0];
    SoleCommit(s, w);
  }

  /** Rivals that race to completion without infrastructure failure: one commits, and leaves
      the tables it would leave alone; the others abort. */
  lemma ExactlyOneWinner(s0: State, acts: seq<Action>) returns (w: TxnId)
    requires Initial(s0) && Run(s0, acts) && NoCrash(acts) && Rivals(s0) && s0.txns != map[]
    requires forall x | x in Exec(s0, acts).txns :: Exec(s0, acts).txns[x].Finished()
    ensures OnlyWinner(Exec(s0, acts), w)
    ensures w in s0.txns && Success(Exec(s0, acts).db) == Alone(s0.db, s0.txns[w].input)
  {
    InitialInv(s0);
    RunInv(s0, s0.db, acts);
    InitialUntouched(s0);
    UntouchedRun(s0, s0, acts);
    w := FinishedRace(s0, Exec(s0, acts));
  }

  // ---- Bookings of one seat ----

  /** Any requests for one available seat, whose clocks read times less than five minutes apart. */
  ghost predicate SeatRace(s0: State, seatId: int) {
    && seatId in s0.db.seats
    && !s0.db.seats[seatId].isPaid
    && (forall x | x in s0.txns ::
          var i := s0.txns[x].input;
          && i.Book? && i.seatId == seatId && CheckSchedule(s0.db, i).Success?
          && (s0.db.seats[seatId].reservedUntil.Some? ==> s0.db.seats[seatId].reservedUntil.value <= i.guardAt))
    && (forall x, y | x in s0.txns && y in s0.txns :: s0.txns[y].input.guardAt < s0.txns[x].input.setAt + HOLD_MS)
  }

  lemma SeatRaceRivals(s0: State, seatId: int)
    requires SeatRace(s0, seatId)
    ensures Rivals(s0)
  {
    forall x, y | x in s0.txns && y in s0.txns
      ensures Alone(s0.db, s0.txns[x].input).Success?
      ensures Alone(Alone(s0.db, s0.txns[x].input).value, s0.txns[y].input).Failure?
    {
      var i, j := s0.txns[x].input, s0.txns[y].input;
      assert i.Book? && j.Book?;
    }
  }

  /** Exactly one of n >= 1 racing bookings of a seat commits; all others abort. */
  lemma OneBookingWins(s0: State, acts: seq<Action>, seatId: int) returns (w: TxnId)
    requires Initial(s0) && Run(s0, acts) && NoCrash(acts) && SeatRace(s0, seatId) && s0.txns != map[]
    requires forall x | x in Exec(s0, acts).txns :: Exec(s0, acts).txns[x].Finished()
    ensures OnlyWinner(Exec(s0, acts), w)
  {
    SeatRaceRivals(s0, seatId);
    w := ExactlyOneWinner(s0, acts);
  }

  // ---- Payments of one booking ----

  /** Any payment requests for one valid and funded booking by its own user. */
  ghost predicate PaymentRace(s0: State, bookingId: int) {
    && bookingId in s0.db.bookings
    && var b := s0.db.bookings[bookingId];
       && !b.isPaid && b.price > 0
       && b.seatId in s0.db.seats && !s0.db.seats[b.seatId].isPaid && s0.db.seats[b.seatId].reservedUntil.Some?
       && b.userId in s0.db.points && s0.db.points[b.userId].amount >= b.price
       && forall x | x in s0.txns ::
            var i := s0.txns[x].input;
            && i.Pay? && i.bookingId == bookingId && i.userId == b.userId
            && i.bookingCheckAt <= b.expiresAt
            && i.seatCheckAt <= s0.db.seats[b.seatId].reservedUntil.value
  }

  lemma PaymentRaceRivals(s0: State, bookingId: int)
    requires PaymentRace(s0, bookingId)
    ensures Rivals(s0)
  {
    forall x, y | x in s0.txns && y in s0.txns
      ensures Alone(s0.db, s0.txns[x].input).Success?
      ensures Alone(Alone(s0.db, s0.txns[x].input).value, s0.txns[y].input).Failure?
    {
      var i, j := s0.txns[x].input, s0.txns[y].input;
      assert i.Pay? && j.Pay?;
    }
  }

  /** Exactly one of n >= 1 racing payments of a booking commits; all others abort. */
  lemma OnePaymentWins(s0: State, acts: seq<Action>, bookingId: int) returns (w: TxnId)
    requires Initial(s0) && Run(s0, acts) && NoCrash(acts) && PaymentRace(s0, bookingId) && s0.txns != map[]
    requires forall x | x in Exec(s0, acts).txns :: Exec(s0, acts).txns[x].Finished()
    ensures OnlyWinner(Exec(s0, acts), w)
  {
    PaymentRaceRivals(s0, bookingId);
    w := ExactlyOneWinner(s0, acts);
  }
}
