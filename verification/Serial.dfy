/** The committed tables, and what each use case does to them when it runs with no other
    transaction beside it. Replay is the serial order the interleavings are compared with. */
module Serial {
  import opened Common
  import opened Domain

  datatype Db = Db(
    schedules: map<int, Schedule>,
    seats: map<int, Seat>,
    bookings: map<int, Booking>,
    points: map<int, Point>,          // one row for each user, by user id
    histories: map<int, PointHistory>,
    payments: map<int, Payment>,
    outbox: map<int, Outbox>)

  /** A request with everything the server reads from outside while it serves it: each
      clock reading, and the row ids that the sequences will issue to it. */
  datatype Input =
    | Book(userId: int, scheduleId: int, seatId: int,
           startCheckAt: int, endCheckAt: int,           // schedule validation
           guardAt: int, setAt: int,                     // the two readings of seat.book()
           createdAt: int, newBookingId: int,            // the booking row
           outboxId: int, outboxAt: int)
    | Pay(userId: int, bookingId: int,
          bookingCheckAt: int, seatCheckAt: int,
          historyId: int, historyAt: int, paymentId: int,
          outboxId: int, outboxAt: int)
    | Charge(userId: int, amount: int, historyId: int, historyAt: int)

  /** Row keys match row ids. */
  ghost predicate Keyed(db: Db) {
    && (forall k :: k in db.seats ==> db.seats[k].id == k)
    && (forall k :: k in db.bookings ==> db.bookings[k].id == k)
    && (forall k :: k in db.points ==> db.points[k].userId == k)
  }

  function NewBooking(i: Input, seat: Seat): Booking
    requires i.Book?
  {
    Booking(
      i.newBookingId, i.userId, seat.concertId, i.scheduleId, i.seatId,
      seat.price, false, i.createdAt + HOLD_MS, 0)
  }

  function NewPayment(i: Input, b: Booking): Payment
    requires i.Pay?
  {
    Payment(i.paymentId, i.userId, b.concertId, b.scheduleId, b.seatId, i.bookingId, b.price)
  }

  function CheckSchedule(db: Db, i: Input): Result<(), ErrorCode>
    requires i.Book?
  {
    if i.scheduleId !in db.schedules then Failure(ScheduleNotFound)
    else ValidateBookable(db.schedules[i.scheduleId], i.startCheckAt, i.endCheckAt)
  }

  function BookAlone(db: Db, i: Input): Result<Db, ErrorCode>
    requires i.Book?
  {
    var _ :- CheckSchedule(db, i);
    if i.seatId !in db.seats then Failure(SeatNotFound) else
    var seat :- BookSeat(db.seats[i.seatId], i.guardAt, i.setAt);
    var booking := NewBooking(i, seat);
    Success(db.(
      seats := db.seats[i.seatId := NextSeat(seat)],
      bookings := db.bookings[i.newBookingId := booking],
      outbox := db.outbox[i.outboxId := Outbox(i.outboxId, BookingCompleted(booking), INIT, i.outboxAt)]))
  }

  function PayAlone(db: Db, i: Input): Result<Db, ErrorCode>
    requires i.Pay?
  {
    if i.bookingId !in db.bookings then Failure(BookingNotFound) else
    var booking :- PayBooking(db.bookings[i.bookingId], i.userId, i.bookingCheckAt);
    if booking.seatId !in db.seats then Failure(SeatNotFound) else
    var seat :- PaySeat(db.seats[booking.seatId], i.seatCheckAt);
    if i.userId !in db.points then Failure(PointNotFound) else
    var point :- UsePoint(db.points[i.userId], booking.price);
    var history :- CreateHistory(i.historyId, i.userId, point.id, booking.price, USE, i.historyAt);
    var payment := NewPayment(i, booking);
    Success(db.(
      bookings := db.bookings[i.bookingId := NextBooking(booking)],
      seats := db.seats[booking.seatId := NextSeat(seat)],
      points := db.points[i.userId := point],
      histories := db.histories[i.historyId := history],
      payments := db.payments[i.paymentId := payment],
      outbox := db.outbox[i.outboxId := Outbox(i.outboxId, PaymentCompleted(payment), INIT, i.outboxAt)]))
  }

  function ChargeAlone(db: Db, i: Input): Result<Db, ErrorCode>
    requires i.Charge?
  {
    if i.userId !in db.points then Failure(PointNotFound) else
    var point :- ChargePoint(db.points[i.userId], i.amount);
    var history :- CreateHistory(i.historyId, i.userId, point.id, i.amount, CHARGE, i.historyAt);
    Success(db.(
      points := db.points[i.userId := point],
      histories := db.histories[i.historyId := history]))
  }

  function Alone(db: Db, i: Input): Result<Db, ErrorCode> {
    match i
    case Book(_, _, _, _, _, _, _, _, _, _, _) => BookAlone(db, i)
    case Pay(_, _, _, _, _, _, _, _, _) => PayAlone(db, i)
    case Charge(_, _, _, _) => ChargeAlone(db, i)
  }

  /** The row ids issued to the request are not in use. */
  predicate FreshIds(db: Db, i: Input) {
    match i
    case Book(_, _, _, _, _, _, _, _, _, _, _) => i.newBookingId !in db.bookings && i.outboxId !in db.outbox
    case Pay(_, _, _, _, _, _, _, _, _) =>
      i.historyId !in db.histories && i.paymentId !in db.payments && i.outboxId !in db.outbox
    case Charge(_, _, _, _) => i.historyId !in db.histories
  }

  /** One request after another; a reused primary key or a rejected request stops the replay. */
  function Replay(db: Db, log: seq<Input>): Result<Db, ErrorCode> {
    if log == [] then Success(db) else
    var mid :- Replay(db, log[..|log| - 1]);
    if !FreshIds(mid, log[|log| - 1]) then Failure(InternalServerError)
    else Alone(mid, log[|log| - 1])
  }

  lemma ReplayAppend(db: Db, log: seq<Input>, i: Input)
    requires Replay(db, log).Success?
    requires FreshIds(Replay(db, log).value, i)
    ensures Replay(db, log + [i]) == Alone(Replay(db, log).value, i)
  {
    assert (log + [i])[..|log + [i]| - 1] == log;
  }

  /** Replaying a history is replaying its first part and then the rest. */
  lemma {:induction false} ReplaySplit(db: Db, first: seq<Input>, rest: seq<Input>)
    requires Replay(db, first + rest).Success?
    ensures Replay(db, first).Success?
    ensures Replay(db, first + rest) == Replay(Replay(db, first).value, rest)
    decreases |rest|
  {
    if rest == [] {
      assert first + rest == first;
    } else {
      var init := rest[..|rest| - 1];
      assert (first + rest)[..|first + rest| - 1] == first + init;
      ReplaySplit(db, first, init);
    }
  }

  /** The tables after the first n entries of a history. */
  function DbAt(db: Db, log: seq<Input>, n: nat): Db
    requires n <= |log| && Replay(db, log[..n]).Success?
  {
    Replay(db, log[..n]).value
  }

  lemma ReplayPrefix(db: Db, log: seq<Input>, n: nat)
    requires Replay(db, log).Success? && n <= |log|
    ensures Replay(db, log[..n]).Success?
    ensures Replay(DbAt(db, log, n), log[n..]) == Replay(db, log)
  {
    assert log[..n] + log[n..] == log;
    ReplaySplit(db, log[..n], log[n..]);
  }

  lemma ReplayLast(db: Db, log: seq<Input>)
    requires log != [] && Replay(db, log).Success?
    ensures var init := log[..|log| - 1];
            && Replay(db, init).Success?
            && FreshIds(Replay(db, init).value, log[|log| - 1])
            && Alone(Replay(db, init).value, log[|log| - 1]) == Replay(db, log)
  {
  }

  /** Each entry of a history succeeds, with unused ids, on the tables its predecessors leave. */
  lemma ReplayAt(db: Db, log: seq<Input>, n: nat)
    requires Replay(db, log).Success? && n < |log|
    ensures Replay(db, log[..n]).Success? && Replay(db, log[..n + 1]).Success?
    ensures FreshIds(DbAt(db, log, n), log[n])
    ensures Alone(DbAt(db, log, n), log[n]) == Success(DbAt(db, log, n + 1))
  {
    ReplayPrefix(db, log, n + 1);
    var first := log[..n + 1];
    assert first[..n] == log[..n] && first[n] == log[n];
    ReplayLast(db, first);
  }

  lemma AloneKeyed(db: Db, i: Input)
    requires Keyed(db) && Alone(db, i).Success?
    ensures Keyed(Alone(db, i).value)
  {
  }

  lemma {:induction false} ReplayKeyed(db: Db, log: seq<Input>)
    requires Keyed(db) && Replay(db, log).Success?
    ensures Keyed(Replay(db, log).value)
  {
    if log != [] {
      ReplayKeyed(db, log[..|log| - 1]);
      ReplayLast(db, log);
      AloneKeyed(Replay(db, log[..|log| - 1]).value, log[|log| - 1]);
    }
  }
}
