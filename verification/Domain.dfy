/** The rows of the booking tables and what the domain objects compute on them.
    Every clock reading is a parameter, in milliseconds. */
module Domain {
  import opened Common

  /** Both five-minute holds: the seat reservation and the booking expiry. */
  const HOLD_MS := 5 * 60 * 1000

  datatype Schedule = Schedule(id: int, bookingStartAt: int, bookingEndAt: int)

  datatype Seat = Seat(
    id: int, concertId: int, scheduleId: int, price: int, number: int,
    isPaid: bool, reservedUntil: Option<int>, version: int)

  datatype Booking = Booking(
    id: int, userId: int, concertId: int, scheduleId: int, seatId: int,
    price: int, isPaid: bool, expiresAt: int, version: int)

  datatype Point = Point(id: int, userId: int, amount: int)

  datatype TransactionType = CHARGE | USE

  datatype PointHistory = PointHistory(
    id: int, userId: int, pointId: int, amount: int, kind: TransactionType, createdAt: int)

  datatype Payment = Payment(
    id: int, userId: int, concertId: int, scheduleId: int, seatId: int, bookingId: int, price: int)

  datatype OutboxStatus = INIT | PUBLISHED

  /** The serialized row that an outbox entry carries. */
  datatype Message = BookingCompleted(booking: Booking) | PaymentCompleted(payment: Payment)

  datatype Outbox = Outbox(id: int, message: Message, status: OutboxStatus, createdAt: int)

  function ValidateBookable(s: Schedule, startCheckAt: int, endCheckAt: int): Result<(), ErrorCode> {
    if s.bookingStartAt > startCheckAt then Failure(BookingNotStarted)
    else if s.bookingEndAt < endCheckAt then Failure(BookingAlreadyPassed)
    else Success(())
  }

  function BookSeat(s: Seat, guardAt: int, setAt: int): Result<Seat, ErrorCode> {
    if s.reservedUntil.Some? && s.reservedUntil.value > guardAt then Failure(SeatAlreadyBooked)
    else if s.isPaid then Failure(SeatAlreadySold)
    else Success(s.(reservedUntil := Some(setAt + HOLD_MS)))
  }

  function PaySeat(s: Seat, checkAt: int): Result<Seat, ErrorCode> {
    if s.isPaid then Failure(SeatAlreadySold)
    else if s.reservedUntil.None? || s.reservedUntil.value < checkAt then Failure(SeatNotReserved)
    else Success(s.(isPaid := true))
  }

  /** The seat can be paid up to t, and booked again from t on. */
  ghost predicate HoldEndsAt(s: Seat, t: int) {
    && (forall checkAt :: PaySeat(s, checkAt).Success? <==> checkAt <= t)
    && (forall guardAt, setAt :: BookSeat(s, guardAt, setAt).Success? <==> t <= guardAt)
  }

  ghost predicate SoldForGood(s: Seat) {
    && (forall checkAt :: PaySeat(s, checkAt) == Failure(SeatAlreadySold))
    && (forall guardAt, setAt :: BookSeat(s, guardAt, setAt).Failure?)
  }

  /** The end of a hold is in the row. */
  lemma HoldInRow(s: Seat, t: int)
    requires HoldEndsAt(s, t)
    ensures !s.isPaid && s.reservedUntil == Some(t)
  {
    assert PaySeat(s, t).Success?;
    assert PaySeat(s, t + 1).Failure?;
  }

  function PayBooking(b: Booking, userId: int, checkAt: int): Result<Booking, ErrorCode> {
    if b.userId != userId then Failure(UnauthorizedConcertPayment)
    else if b.isPaid then Failure(PaymentAlreadyProcessed)
    else if b.expiresAt < checkAt then Failure(PaymentExpired)
    else Success(b.(isPaid := true))
  }

  function ChargePoint(p: Point, amount: int): Result<Point, ErrorCode> {
    if amount <= 0 then Failure(MinimumChargeAmount)
    else Success(p.(amount := p.amount + amount))
  }

  function UsePoint(p: Point, amount: int): Result<Point, ErrorCode> {
    if amount <= 0 then Failure(MinimumPaymentAmount)
    else if p.amount < amount then Failure(InsufficientPoint)
    else Success(p.(amount := p.amount - amount))
  }

  function CreateHistory(
    id: int, userId: int, pointId: int, amount: int, kind: TransactionType, now: int): Result<PointHistory, ErrorCode>
  {
    if amount <= 0 then Failure(MinimumChargeAmount)
    else Success(PointHistory(id, userId, pointId, amount, kind, now))
  }

  /** What a compare-and-set write stores: the whole object with the next version. */
  function NextSeat(s: Seat): Seat {
    s.(version := s.version + 1)
  }

  function NextBooking(b: Booking): Booking {
    b.(version := b.version + 1)
  }
}
