/** A seat is sold at most once, to one booking and with one payment, and a sale is final. */
module Sales {
  import opened Domain
  import opened Serial
  import opened Interleaving
  import opened Serializability
  import opened Solo

  // ---- What the tables agree on ----

  /** Every booking carries its seat's price and concert. */
  ghost predicate BookingsFollowSeats(db: Db) {
    forall b | b in db.bookings ::
      && db.bookings[b].seatId in db.seats
      && db.bookings[b].price == db.seats[db.bookings[b].seatId].price
      && db.bookings[b].concertId == db.seats[db.bookings[b].seatId].concertId
  }

  /** A payment repeats the user, concert, schedule, seat and price of the paid booking it names. */
  ghost predicate Settles(db: Db, p: Payment) {
    && p.bookingId in db.bookings
    && var b := db.bookings[p.bookingId];
       && b.isPaid && p.userId == b.userId && p.seatId == b.seatId && p.price == b.price
       && p.concertId == b.concertId && p.scheduleId == b.scheduleId
  }

  ghost predicate PaymentsSettle(db: Db) {
    forall p | p in db.payments :: Settles(db, db.payments[p])
  }

  predicate PaysFor(db: Db, p: int, b: int) {
    p in db.payments && db.payments[p].bookingId == b
  }

  ghost predicate PaidBookingsHavePayments(db: Db) {
    forall b | b in db.bookings && db.bookings[b].isPaid :: exists p :: PaysFor(db, p, b)
  }

  predicate PaidFor(db: Db, b: int, seatId: int) {
    b in db.bookings && db.bookings[b].isPaid && db.bookings[b].seatId == seatId
  }

  ghost predicate OneSaleEach(db: Db) {
    && (forall b, c, seatId | PaidFor(db, b, seatId) && PaidFor(db, c, seatId) :: b == c)
    && (forall p, q, b | PaysFor(db, p, b) && PaysFor(db, q, b) :: p == q)
  }

  ghost predicate SeatsShowSales(db: Db) {
    forall k | k in db.seats :: db.seats[k].isPaid <==> exists b :: PaidFor(db, b, k)
  }

  ghost predicate Consistent(db: Db) {
    && Keyed(db)
    && BookingsFollowSeats(db)
    && PaymentsSettle(db)
    && PaidBookingsHavePayments(db)
    && OneSaleEach(db)
    && SeatsShowSales(db)
  }

  lemma BookConsistent(db: Db, i: Input)
    requires i.Book? && Consistent(db) && FreshIds(db, i) && Alone(db, i).Success?
    ensures Consistent(Alone(db, i).value)
  {
    var db' := Alone(db, i).value;
    assert forall b, k :: PaidFor(db', b, k) <==> PaidFor(db, b, k);
    assert forall p, b :: PaysFor(db', p, b) <==> PaysFor(db, p, b);
  }

  lemma ChargeConsistent(db: Db, i: Input)
    requires i.Charge? && Consistent(db) && Alone(db, i).Success?
    ensures Consistent(Alone(db, i).value)
  {
    var db' := Alone(db, i).value;
    assert forall b, k :: PaidFor(db', b, k) <==> PaidFor(db, b, k);
    assert forall p, b :: PaysFor(db', p, b) <==> PaysFor(db, p, b);
  }

  lemma PayConsistent(db: Db, i: Input)
    requires i.Pay? && Consistent(db) && FreshIds(db, i) && Alone(db, i).Success?
    ensures Consistent(Alone(db, i).value)
  {
    var db' := Alone(db, i).value;
    var seatId := db.bookings[i.bookingId].seatId;
    assert forall b :: !PaidFor(db, b, seatId);
    assert forall b, k :: PaidFor(db', b, k) <==> PaidFor(db, b, k) || (b == i.bookingId && k == seatId);
    forall p | p in db.payments
      ensures !PaysFor(db, p, i.bookingId)
    {
      assert Settles(db, db.payments[p]);
    }
    assert forall p, b :: PaysFor(db', p, b) <==> PaysFor(db, p, b) || (p == i.paymentId && b == i.bookingId);
    forall k | k in db'.seats
      ensures db'.seats[k].isPaid <==> exists b :: PaidFor(db', b, k)
    {
      if k == seatId {
        assert PaidFor(db', i.bookingId, k);
      } else if db.seats[k].isPaid {
        var b :| PaidFor(db, b, k);
        assert PaidFor(db', b, k);
      }
    }
    forall p | p in db'.payments
      ensures Settles(db', db'.payments[p])
    {
      assert p != i.paymentId ==> Settles(db, db.payments[p]);
    }
    assert PaidBookingsHavePayments(db') by {
      forall b | b in db'.bookings && db'.bookings[b].isPaid
        ensures exists p :: PaysFor(db', p, b)
      {
        if b == i.bookingId {
          assert PaysFor(db', i.paymentId, b);
        } else {
          var p :| PaysFor(db, p, b);
          assert PaysFor(db', p, b);
        }
      }
    }
  }

  lemma {:induction false} ReplayConsistent(db: Db, log: seq<Input>)
    requires Consistent(db) && Replay(db, log).Success?
    ensures Consistent(Replay(db, log).value)
  {
    if log != [] {
      var init, last := log[..|log| - 1], log[|log| - 1];
      ReplayConsistent(db, init);
      ReplayLast(db, log);
      var mid := Replay(db, init).value;
      match last
      case Book(_, _, _, _, _, _, _, _, _, _, _) => BookConsistent(mid, last);
      case Pay(_, _, _, _, _, _, _, _, _) => PayConsistent(mid, last);
      case Charge(_, _, _, _) => ChargeConsistent(mid, last);
    }
  }

  // ---- No double sale ----

  predicate PaymentOn(db: Db, p: int, seatId: int) {
    p in db.payments && db.payments[p].seatId == seatId
  }

  /** b is the only paid booking of the seat and p the only payment on it; p is by b's user,
      for b, its concert and its schedule, and of the seat's own concert and price. */
  ghost predicate TheSale(db: Db, seatId: int, b: int, p: int) {
    && seatId in db.seats
    && PaidFor(db, b, seatId)
    && PaymentOn(db, p, seatId)
    && (forall c :: PaidFor(db, c, seatId) ==> c == b)
    && (forall q :: PaymentOn(db, q, seatId) ==> q == p)
    && db.payments[p].bookingId == b
    && db.payments[p].userId == db.bookings[b].userId
    && db.payments[p].price == db.bookings[b].price == db.seats[seatId].price
    && db.payments[p].concertId == db.bookings[b].concertId == db.seats[seatId].concertId
    && db.payments[p].scheduleId == db.bookings[b].scheduleId
  }

  ghost predicate Unsold(db: Db, seatId: int) {
    && (forall b :: !PaidFor(db, b, seatId))
    && (forall p :: !PaymentOn(db, p, seatId))
  }

  lemma ConsistentSale(db: Db, seatId: int)
    requires Consistent(db) && seatId in db.seats
    ensures db.seats[seatId].isPaid <==> exists b, p :: TheSale(db, seatId, b, p)
    ensures !db.seats[seatId].isPaid <==> Unsold(db, seatId)
  {
    forall q | PaymentOn(db, q, seatId)
      ensures PaidFor(db, db.payments[q].bookingId, seatId) && PaysFor(db, q, db.payments[q].bookingId)
    {
      assert Settles(db, db.payments[q]);
    }
    if db.seats[seatId].isPaid {
      var b :| PaidFor(db, b, seatId);
      var p :| PaysFor(db, p, b);
      assert Settles(db, db.payments[p]);
      assert TheSale(db, seatId, b, p);
    }
  }

  /** No double sale, in every state that any interleaving reaches. */
  lemma NoDoubleSale(s0: State, acts: seq<Action>, seatId: int)
    requires Initial(s0) && Consistent(s0.db) && Run(s0, acts)
    requires seatId in Exec(s0, acts).db.seats
    ensures var db := Exec(s0, acts).db;
            && (db.seats[seatId].isPaid <==> exists b, p :: TheSale(db, seatId, b, p))
            && (!db.seats[seatId].isPaid <==> Unsold(db, seatId))
  {
    Serializable(s0, acts);
    ReplayConsistent(s0.db, History(Exec(s0, acts)));
    ConsistentSale(Exec(s0, acts).db, seatId);
  }

  // ---- Schedules ----

  /** Every booking is for the schedule of its seat. */
  ghost predicate SchedulesAgree(db: Db) {
    forall b | b in db.bookings ::
      && db.bookings[b].seatId in db.seats
      && db.bookings[b].scheduleId == db.seats[db.bookings[b].seatId].scheduleId
  }

  /** A booking request names the schedule that its seat belongs to. */
  predicate NamesSchedule(db: Db, i: Input) {
    i.Book? ==> i.seatId in db.seats && i.scheduleId == db.seats[i.seatId].scheduleId
  }

  ghost predicate SameSchedules(db: Db, db': Db) {
    && db'.seats.Keys == db.seats.Keys
    && forall k | k in db.seats :: db'.seats[k].scheduleId == db.seats[k].scheduleId
  }

  lemma AloneSchedules(db: Db, i: Input)
    requires Keyed(db) && FreshIds(db, i) && Alone(db, i).Success?
    ensures SameSchedules(db, Alone(db, i).value)
    ensures SchedulesAgree(Alone(db, i).value) <==> SchedulesAgree(db) && NamesSchedule(db, i)
  {
    var db' := Alone(db, i).value;
    if i.Book? {
      assert i.newBookingId in db'.bookings;
    }
    if SchedulesAgree(db') {
      forall b | b in db.bookings
        ensures db.bookings[b].seatId in db.seats
        ensures db.bookings[b].scheduleId == db.seats[db.bookings[b].seatId].scheduleId
      {
        assert b in db'.bookings;
      }
    }
  }

  lemma {:induction false} ReplaySchedules(db: Db, log: seq<Input>)
    requires Keyed(db) && Replay(db, log).Success?
    ensures SameSchedules(db, Replay(db, log).value)
    ensures SchedulesAgree(Replay(db, log).value) <==>
              SchedulesAgree(db) && forall j | 0 <= j < |log| :: NamesSchedule(db, log[j])
  {
    if log != [] {
      var init, last := log[..|log| - 1], log[|log| - 1];
      ReplaySchedules(db, init);
      ReplayKeyed(db, init);
      ReplayLast(db, log);
      AloneSchedules(Replay(db, init).value, last);
      assert NamesSchedule(Replay(db, init).value, last) <==> NamesSchedule(db, last);
      assert forall j | 0 <= j < |init| :: init[j] == log[j];
    }
  }

  /** Nothing compares the requested schedule with the seat's. Bookings and seats agree on the
      schedule after a run exactly when every committed booking request named the right one. */
  lemma ScheduleAgreement(s0: State, acts: seq<Action>, log: seq<Input>)
    requires Commits(s0, acts, log) && SchedulesAgree(s0.db)
    ensures SchedulesAgree(Exec(s0, acts).db) <==> forall j | 0 <= j < |log| :: NamesSchedule(s0.db, log[j])
  {
    CommitsReplay(s0, acts, log);
    ReplaySchedules(s0.db, log);
  }

  /** The server takes a booking request whatever schedule it names, as long as that one is
      open and the seat is free. */
  lemma WrongScheduleAlone(db: Db, i: Input)
    requires i.Book? && FreshIds(db, i) && Keyed(db)
    requires CheckSchedule(db, i).Success? && i.seatId in db.seats
    requires BookSeat(db.seats[i.seatId], i.guardAt, i.setAt).Success?
    ensures Alone(db, i).Success?
    ensures !NamesSchedule(db, i) ==> !SchedulesAgree(Alone(db, i).value)
  {
    AloneSchedules(db, i);
  }

  /** So there are runs after which a booking is for another schedule than its seat: one for
      every request that names an open schedule and a free seat of another. */
  lemma WrongScheduleCommits(s0: State, tid: TxnId) returns (acts: seq<Action>)
    requires Initial(s0) && tid in s0.txns
    requires var i := s0.txns[tid].input;
             && i.Book? && CheckSchedule(s0.db, i).Success? && i.seatId in s0.db.seats
             && BookSeat(s0.db.seats[i.seatId], i.guardAt, i.setAt).Success?
             && i.scheduleId != s0.db.seats[i.seatId].scheduleId
    ensures Commits(s0, acts, [s0.txns[tid].input])
    ensures !SchedulesAgree(Exec(s0, acts).db)
  {
    var i := s0.txns[tid].input;
    WrongScheduleAlone(s0.db, i);
    acts := OneRequestRuns(s0, tid);
  }

  // ---- Sold is final ----

  /** db' has the sold seat as db has it, and the same paid bookings of it. */
  ghost predicate SaleKept(db: Db, db': Db, seatId: int) {
    && seatId in db.seats && seatId in db'.seats
    && db'.seats[seatId] == db.seats[seatId]
    && (forall b | PaidFor(db, b, seatId) || PaidFor(db', b, seatId) ::
          b in db.bookings && b in db'.bookings && db'.bookings[b] == db.bookings[b])
  }

  lemma AloneKeepsSale(db: Db, i: Input, seatId: int)
    requires FreshIds(db, i) && Alone(db, i).Success? && seatId in db.seats && db.seats[seatId].isPaid
    ensures SaleKept(db, Alone(db, i).value, seatId)
  {
  }

  lemma {:induction false} ReplayKeepsSale(db: Db, log: seq<Input>, seatId: int)
    requires Replay(db, log).Success? && seatId in db.seats && db.seats[seatId].isPaid
    ensures SaleKept(db, Replay(db, log).value, seatId)
  {
    if log != [] {
      var init := log[..|log| - 1];
      ReplayKeepsSale(db, init, seatId);
      ReplayLast(db, log);
      AloneKeepsSale(Replay(db, init).value, log[|log| - 1], seatId);
    }
  }

  /** Once a seat is paid, no continuation changes its row or pays another booking of it. */
  lemma SoldIsFinal(s0: State, acts: seq<Action>, more: seq<Action>, seatId: int)
    requires Initial(s0) && Run(s0, acts) && Run(Exec(s0, acts), more)
    requires seatId in Exec(s0, acts).db.seats && Exec(s0, acts).db.seats[seatId].isPaid
    ensures SaleKept(Exec(s0, acts).db, Exec(Exec(s0, acts), more).db, seatId)
  {
    InitialInv(s0);
    RunInv(s0, s0.db, acts);
    var s := Exec(s0, acts);
    SerializableFrom(s, s0.db, more);
    ReplayKeepsSale(s.db, History(Exec(s, more))[|s.log|..], seatId);
  }

  // ---- Versions count the writes ----

  /** The seat that request i writes when it runs on db. */
  function WritesSeat(db: Db, i: Input, seatId: int): bool {
    match i
    case Book(_, _, target, _, _, _, _, _, _, _, _) => target == seatId
    case Pay(_, bookingId, _, _, _, _, _, _, _) => bookingId in db.bookings && db.bookings[bookingId].seatId == seatId
    case Charge(_, _, _, _) => false
  }

  /** How many entries of a history write the seat. */
  function SeatWrites(db: Db, log: seq<Input>, seatId: int): nat
    requires Replay(db, log).Success?
  {
    if log == [] then 0
    else
      var init := log[..|log| - 1];
      SeatWrites(db, init, seatId) +
      if WritesSeat(Replay(db, init).value, log[|log| - 1], seatId) then 1 else 0
  }

  lemma AloneVersion(db: Db, i: Input, seatId: int)
    requires Alone(db, i).Success? && seatId in db.seats
    ensures var db' := Alone(db, i).value;
            && seatId in db'.seats
            && db'.seats[seatId].version == db.seats[seatId].version + (if WritesSeat(db, i, seatId) then 1 else 0)
            && (!WritesSeat(db, i, seatId) ==> db'.seats[seatId] == db.seats[seatId])
  {
  }

  lemma {:induction false} ReplayVersion(db: Db, log: seq<Input>, seatId: int)
    requires Replay(db, log).Success? && seatId in db.seats
    ensures var db' := Replay(db, log).value;
            && seatId in db'.seats
            && db'.seats[seatId].version == db.seats[seatId].version + SeatWrites(db, log, seatId)
            && (SeatWrites(db, log, seatId) == 0 ==> db'.seats[seatId] == db.seats[seatId])
  {
    if log != [] {
      ReplayVersion(db, log[..|log| - 1], seatId);
      ReplayLast(db, log);
      AloneVersion(Replay(db, log[..|log| - 1]).value, log[|log| - 1], seatId);
    }
  }

  /** In every reachable state a seat's version has risen by one for each committed
      transaction that wrote the seat, and by nothing else. */
  lemma VersionCountsCommits(s0: State, acts: seq<Action>, seatId: int)
    requires Initial(s0) && Run(s0, acts) && seatId in s0.db.seats
    ensures LogMatches(Exec(s0, acts)) && Replay(s0.db, History(Exec(s0, acts))).Success?
    ensures seatId in Exec(s0, acts).db.seats
    ensures Exec(s0, acts).db.seats[seatId].version ==
            s0.db.seats[seatId].version + SeatWrites(s0.db, History(Exec(s0, acts)), seatId)
  {
    Serializable(s0, acts);
    ReplayVersion(s0.db, History(Exec(s0, acts)), seatId);
  }
}
