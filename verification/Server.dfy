/** The booking server's objects: domain objects, repositories, services and use cases.
    Each use case, run with nothing beside it, does to the tables what Serial.Alone says. */
module Server {
  import opened Common
  import opened Domain
  import opened Serial
  import WaitingServices

  /** The tables. A transaction that throws is rolled back to the tables it started from. */
  class Database {
    var schedules: map<int, Schedule>
    var seats: map<int, Seat>
    var bookings: map<int, Booking>
    var points: map<int, Point>
    var histories: map<int, PointHistory>
    var payments: map<int, Payment>
    var outbox: map<int, Outbox>

    function Tables(): Db
      reads this
    {
      Db(schedules, seats, bookings, points, histories, payments, outbox)
    }

    constructor (t: Db)
      ensures Tables() == t
    {
      schedules, seats, bookings, points := t.schedules, t.seats, t.bookings, t.points;
      histories, payments, outbox := t.histories, t.payments, t.outbox;
    }

    method Restore(t: Db)
      modifies this
      ensures Tables() == t
    {
      schedules, seats, bookings, points := t.schedules, t.seats, t.bookings, t.points;
      histories, payments, outbox := t.histories, t.payments, t.outbox;
    }
  }

  // ---- Domain objects ----

  class ConcertSeat {
    const id: int
    const concertId: int
    const scheduleId: int
    const price: int
    const number: int
    var isPaid: bool
    var reservedUntil: Option<int>
    const version: int

    constructor (row: Seat)
      ensures Row() == row
    {
      id, concertId, scheduleId, price, number := row.id, row.concertId, row.scheduleId, row.price, row.number;
      isPaid, reservedUntil, version := row.isPaid, row.reservedUntil, row.version;
    }

    function Row(): Seat
      reads this
    {
      Seat(id, concertId, scheduleId, price, number, isPaid, reservedUntil, version)
    }

    /** A free seat, and no other, gets a hold: it can be paid up to the end of the hold and
        be booked again from then on. A running hold is reported before a sale. */
    method Book(guardAt: int, setAt: int) returns (r: Result<(), ErrorCode>)
      modifies this
      ensures r.Success? <==> !old(isPaid) && !old(HeldAt(guardAt))
      ensures r.Success? ==> Row() == old(Row()).(reservedUntil := reservedUntil)
      ensures r.Success? ==> HoldEndsAt(Row(), setAt + HOLD_MS)
      ensures r.Failure? ==> Row() == old(Row())
      ensures r.Failure? ==> r.error == if HeldAt(guardAt) then SeatAlreadyBooked else SeatAlreadySold
    {
      if reservedUntil.Some? && reservedUntil.value > guardAt {
        return Failure(SeatAlreadyBooked);
      }
      if isPaid {
        return Failure(SeatAlreadySold);
      }
      reservedUntil := Some(setAt + 5 * 60 * 1000);
      return Success(());
    }

    /** A seat that is held up to some time not past, and not sold, is sold; it can then
        never be paid or booked again. */
    method Pay(checkAt: int) returns (r: Result<(), ErrorCode>)
      modifies this
      ensures r.Success? <==> old(!isPaid && reservedUntil.Some? && checkAt <= reservedUntil.value)
      ensures r.Success? ==> Row() == old(Row()).(isPaid := isPaid) && SoldForGood(Row())
      ensures r.Failure? ==> Row() == old(Row())
      ensures r.Failure? ==> r.error == if isPaid then SeatAlreadySold else SeatNotReserved
    {
      if isPaid {
        return Failure(SeatAlreadySold);
      }
      if reservedUntil.None? || reservedUntil.value < checkAt {
        return Failure(SeatNotReserved);
      }
      isPaid := true;
      return Success(());
    }

    predicate HeldAt(now: int)
      reads this
    {
      reservedUntil.Some? && reservedUntil.value > now
    }

    /** A seat shows as available exactly when it can be booked at that time. */
    predicate IsAvailable(now: int)
      reads this
      ensures IsAvailable(now) <==> forall setAt :: BookSeat(Row(), now, setAt).Success?
      ensures IsAvailable(now) ==> forall checkAt | checkAt > now :: PaySeat(Row(), checkAt).Failure?
    {
      assert forall setAt :: BookSeat(Row(), now, setAt).Success? <==> BookSeat(Row(), now, now).Success?;
      if isPaid then false
      else if reservedUntil.Some? && reservedUntil.value > now then false
      else true
    }
  }

  class ConcertBooking {
    const id: int
    const userId: int
    const concertId: int
    const scheduleId: int
    const seatId: int
    const price: int
    var isPaid: bool
    const expiresAt: int
    const version: int

    constructor (row: Booking)
      ensures Row() == row
    {
      id, userId, concertId, scheduleId := row.id, row.userId, row.concertId, row.scheduleId;
      seatId, price, isPaid, expiresAt, version := row.seatId, row.price, row.isPaid, row.expiresAt, row.version;
    }

    function Row(): Booking
      reads this
    {
      Booking(id, userId, concertId, scheduleId, seatId, price, isPaid, expiresAt, version)
    }

    /** Paid by its own user, up to its expiry, and never by anybody again. A foreign user is
        refused before anything else is looked at, a second payment before an expired one. */
    method Pay(userId: int, checkAt: int) returns (r: Result<(), ErrorCode>)
      modifies this
      ensures r.Success? <==> userId == this.userId && !old(isPaid) && checkAt <= expiresAt
      ensures r.Success? ==> Row() == old(Row()).(isPaid := isPaid)
      ensures r.Success? ==> forall user, t :: PayBooking(Row(), user, t).Failure?
      ensures r.Failure? ==> Row() == old(Row())
      ensures r.Failure? ==> (r.error == UnauthorizedConcertPayment <==> userId != this.userId)
      ensures r.Failure? && userId == this.userId ==>
                r.error == if isPaid then PaymentAlreadyProcessed else PaymentExpired
    {
      if this.userId != userId {
        return Failure(UnauthorizedConcertPayment);
      }
      if isPaid {
        return Failure(PaymentAlreadyProcessed);
      }
      if expiresAt < checkAt {
        return Failure(PaymentExpired);
      }
      isPaid := true;
      return Success(());
    }
  }

  class PointAccount {
    const id: int
    const userId: int
    var amount: int

    constructor (row: Point)
      ensures Row() == row
    {
      id, userId, amount := row.id, row.userId, row.amount;
    }

    function Row(): Point
      reads this
    {
      Point(id, userId, amount)
    }

    /** Adds a positive amount: a use of the same amount takes it back. */
    method Charge(amount: int) returns (r: Result<(), ErrorCode>)
      modifies this
      ensures r == if amount > 0 then Success(()) else Failure(MinimumChargeAmount)
      ensures r.Success? && old(this.amount) >= 0 ==> UsePoint(Row(), amount) == Success(old(Row()))
      ensures r.Success? ==> this.amount - old(this.amount) == amount
      ensures r.Failure? ==> Row() == old(Row())
    {
      if amount <= 0 {
        return Failure(MinimumChargeAmount);
      }
      this.amount := this.amount + amount;
      return Success(());
    }

    /** Takes a positive amount that the balance covers, so that the balance never becomes
        negative: a charge of the same amount gives it back. */
    method Use(amount: int) returns (r: Result<(), ErrorCode>)
      modifies this
      ensures r.Success? <==> 0 < amount <= old(this.amount)
      ensures r.Success? ==> ChargePoint(Row(), amount) == Success(old(Row())) && this.amount >= 0
      ensures r.Failure? ==> Row() == old(Row())
      ensures r.Failure? ==> r.error == if amount > 0 then InsufficientPoint else MinimumPaymentAmount
    {
      if amount <= 0 {
        return Failure(MinimumPaymentAmount);
      }
      if this.amount < amount {
        return Failure(InsufficientPoint);
      }
      this.amount := this.amount - amount;
      return Success(());
    }
  }

  // ---- Repositories ----

  class ConcertSeatRepository {
    const db: Database

    constructor (db: Database)
      ensures this.db == db
    {
      this.db := db;
    }

    method FindOneById(id: int) returns (seat: ConcertSeat?)
      ensures seat != null <==> id in db.seats
      ensures seat != null ==> fresh(seat) && seat.Row() == db.seats[id]
    {
      if id in db.seats {
        seat := new ConcertSeat(db.seats[id]);
      } else {
        seat := null;
      }
    }

    /** Compare and set on the version; the whole row is written with the next version. */
    method Update(seat: ConcertSeat) returns (updated: bool)
      modifies db
      ensures updated <==> seat.id in old(db.seats) && old(db.seats)[seat.id].version == seat.version
      ensures !updated ==> db.Tables() == old(db.Tables())
      ensures updated ==>
                && seat.id in db.seats
                && db.Tables() == old(db.Tables()).(seats := old(db.seats)[seat.id := db.seats[seat.id]])
                && var row := db.seats[seat.id];
                   && row.id == seat.id && row.concertId == seat.concertId && row.scheduleId == seat.scheduleId
                   && row.price == seat.price && row.number == seat.number
                   && row.isPaid == seat.isPaid && row.reservedUntil == seat.reservedUntil
                   && row.version == seat.version + 1
    {
      updated := seat.id in db.seats && db.seats[seat.id].version == seat.version;
      if updated {
        db.seats := db.seats[seat.id := Seat(
          seat.id, seat.concertId, seat.scheduleId, seat.price, seat.number,
          seat.isPaid, seat.reservedUntil, seat.version + 1)];
      }
    }
  }

  class ConcertBookingRepository {
    const db: Database

    constructor (db: Database)
      ensures this.db == db
    {
      this.db := db;
    }

    method FindOneById(id: int) returns (booking: ConcertBooking?)
      ensures booking != null <==> id in db.bookings
      ensures booking != null ==> fresh(booking) && booking.Row() == db.bookings[id]
    {
      if id in db.bookings {
        booking := new ConcertBooking(db.bookings[id]);
      } else {
        booking := null;
      }
    }

    method Update(booking: ConcertBooking) returns (updated: bool)
      modifies db
      ensures updated <==> booking.id in old(db.bookings) && old(db.bookings)[booking.id].version == booking.version
      ensures !updated ==> db.Tables() == old(db.Tables())
      ensures updated ==>
                && booking.id in db.bookings
                && db.Tables() == old(db.Tables()).(bookings := old(db.bookings)[booking.id := db.bookings[booking.id]])
                && var row := db.bookings[booking.id];
                   && row.id == booking.id && row.userId == booking.userId
                   && row.concertId == booking.concertId && row.scheduleId == booking.scheduleId
                   && row.seatId == booking.seatId && row.price == booking.price
                   && row.isPaid == booking.isPaid && row.expiresAt == booking.expiresAt
                   && row.version == booking.version + 1
    {
      updated := booking.id in db.bookings && db.bookings[booking.id].version == booking.version;
      if updated {
        db.bookings := db.bookings[booking.id := Booking(
          booking.id, booking.userId, booking.concertId, booking.scheduleId, booking.seatId,
          booking.price, booking.isPaid, booking.expiresAt, booking.version + 1)];
      }
    }

    method Save(booking: ConcertBooking)
      modifies db
      ensures db.Tables() == old(db.Tables()).(bookings := old(db.bookings)[booking.id := booking.Row()])
    {
      db.bookings := db.bookings[booking.id := booking.Row()];
    }
  }

  class PointRepository {
    const db: Database

    constructor (db: Database)
      ensures this.db == db
    {
      this.db := db;
    }

    method FindOneByUserId(userId: int) returns (point: PointAccount?)
      ensures point != null <==> userId in db.points
      ensures point != null ==> fresh(point) && point.Row() == db.points[userId]
    {
      if userId in db.points {
        point := new PointAccount(db.points[userId]);
      } else {
        point := null;
      }
    }

    method Save(point: PointAccount)
      modifies db
      ensures db.Tables() == old(db.Tables()).(points := old(db.points)[point.userId := point.Row()])
    {
      db.points := db.points[point.userId := point.Row()];
    }
  }

  // ---- Services ----

  class ConcertService {
    const db: Database
    const seatRepository: ConcertSeatRepository
    const bookingRepository: ConcertBookingRepository

    predicate Valid() {
      seatRepository.db == db && bookingRepository.db == db
    }

    constructor (db: Database)
      ensures Valid() && this.db == db
    {
      this.db := db;
      seatRepository := new ConcertSeatRepository(db);
      bookingRepository := new ConcertBookingRepository(db);
    }

    /** Bookable exactly when the first reading is not before the start and the second not
        after the end; each refusal says which of these failed first. */
    method ValidateScheduleIsBookable(scheduleId: int, startCheckAt: int, endCheckAt: int)
      returns (r: Result<(), ErrorCode>)
      ensures r.Success? <==>
                && scheduleId in db.schedules
                && db.schedules[scheduleId].bookingStartAt <= startCheckAt
                && endCheckAt <= db.schedules[scheduleId].bookingEndAt
      ensures r == Failure(ScheduleNotFound) <==> scheduleId !in db.schedules
      ensures r == Failure(BookingNotStarted) <==>
                scheduleId in db.schedules && startCheckAt < db.schedules[scheduleId].bookingStartAt
      ensures r.Failure? ==> r.error in {ScheduleNotFound, BookingNotStarted, BookingAlreadyPassed}
    {
      if scheduleId !in db.schedules {
        return Failure(ScheduleNotFound);
      }
      return ValidateBookable(db.schedules[scheduleId], startCheckAt, endCheckAt);
    }

    method BookSeat(seatId: int, guardAt: int, setAt: int) returns (r: Result<ConcertSeat, ErrorCode>)
      requires Valid() && Keyed(db.Tables())
      modifies db
      ensures
        if seatId !in old(db.seats) then
          r == Failure(SeatNotFound) && db.Tables() == old(db.Tables())
        else
          match Domain.BookSeat(old(db.seats)[seatId], guardAt, setAt)
          case Failure(e) => r == Failure(e) && db.Tables() == old(db.Tables())
          case Success(row) =>
            && r.Success? && r.value.Row() == row
            && db.Tables() == old(db.Tables()).(seats := old(db.seats)[seatId := NextSeat(row)])
    {
      var seat := seatRepository.FindOneById(seatId);
      if seat == null {
        return Failure(SeatNotFound);
      }
      var booked := seat.Book(guardAt, setAt);
      if booked.Failure? {
        return Failure(booked.error);
      }
      HoldInRow(seat.Row(), setAt + HOLD_MS);
      var updated := seatRepository.Update(seat);
      if !updated {
        return Failure(OptimisticLockConflict);
      }
      return Success(seat);
    }

    method PaySeat(seatId: int, checkAt: int) returns (r: Result<ConcertSeat, ErrorCode>)
      requires Valid() && Keyed(db.Tables())
      modifies db
      ensures
        if seatId !in old(db.seats) then
          r == Failure(SeatNotFound) && db.Tables() == old(db.Tables())
        else
          match Domain.PaySeat(old(db.seats)[seatId], checkAt)
          case Failure(e) => r == Failure(e) && db.Tables() == old(db.Tables())
          case Success(row) =>
            && r.Success? && r.value.Row() == row
            && db.Tables() == old(db.Tables()).(seats := old(db.seats)[seatId := NextSeat(row)])
    {
      var seat := seatRepository.FindOneById(seatId);
      if seat == null {
        return Failure(SeatNotFound);
      }
      var paid := seat.Pay(checkAt);
      if paid.Failure? {
        return Failure(paid.error);
      }
      var updated := seatRepository.Update(seat);
      if !updated {
        return Failure(OptimisticLockConflict);
      }
      return Success(seat);
    }

    method PayBooking(userId: int, bookingId: int, checkAt: int) returns (r: Result<ConcertBooking, ErrorCode>)
      requires Valid() && Keyed(db.Tables())
      modifies db
      ensures
        if bookingId !in old(db.bookings) then
          r == Failure(BookingNotFound) && db.Tables() == old(db.Tables())
        else
          match Domain.PayBooking(old(db.bookings)[bookingId], userId, checkAt)
          case Failure(e) => r == Failure(e) && db.Tables() == old(db.Tables())
          case Success(row) =>
            && r.Success? && r.value.Row() == row
            && db.Tables() == old(db.Tables()).(bookings := old(db.bookings)[bookingId := NextBooking(row)])
    {
      var booking := bookingRepository.FindOneById(bookingId);
      if booking == null {
        return Failure(BookingNotFound);
      }
      var paid := booking.Pay(userId, checkAt);
      if paid.Failure? {
        return Failure(paid.error);
      }
      var updated := bookingRepository.Update(booking);
      if !updated {
        return Failure(OptimisticLockConflict);
      }
      return Success(booking);
    }
  }

  class PointService {
    const db: Database
    const pointRepository: PointRepository

    predicate Valid() {
      pointRepository.db == db
    }

    constructor (db: Database)
      ensures Valid() && this.db == db
    {
      this.db := db;
      pointRepository := new PointRepository(db);
    }

    /** What both charge and use leave behind: the saved balance and its history row. */
    ghost predicate Recorded(before: Db, after: Db, point: Point, historyId: int, history: PointHistory) {
      after == before.(
        points := before.points[point.userId := point],
        histories := before.histories[historyId := history])
    }

    method Charge(userId: int, amount: int, historyId: int, historyAt: int) returns (r: Result<PointAccount, ErrorCode>)
      requires Valid() && Keyed(db.Tables())
      modifies db
      ensures
        if userId !in old(db.points) then
          r == Failure(PointNotFound) && db.Tables() == old(db.Tables())
        else
          match ChargePoint(old(db.points)[userId], amount)
          case Failure(e) => r == Failure(e) && db.Tables() == old(db.Tables())
          case Success(point) =>
            && r.Success? && r.value.Row() == point
            && Recorded(old(db.Tables()), db.Tables(), point, historyId,
                        PointHistory(historyId, userId, point.id, amount, CHARGE, historyAt))
    {
      var point := pointRepository.FindOneByUserId(userId);
      if point == null {
        return Failure(PointNotFound);
      }
      var charged := point.Charge(amount);
      if charged.Failure? {
        return Failure(charged.error);
      }
      pointRepository.Save(point);
      var history := CreateHistory(historyId, userId, point.id, amount, CHARGE, historyAt);
      db.histories := db.histories[historyId := history.value];
      return Success(point);
    }

    method Use(userId: int, amount: int, historyId: int, historyAt: int) returns (r: Result<PointAccount, ErrorCode>)
      requires Valid() && Keyed(db.Tables())
      modifies db
      ensures
        if userId !in old(db.points) then
          r == Failure(PointNotFound) && db.Tables() == old(db.Tables())
        else
          match UsePoint(old(db.points)[userId], amount)
          case Failure(e) => r == Failure(e) && db.Tables() == old(db.Tables())
          case Success(point) =>
            && r.Success? && r.value.Row() == point
            && Recorded(old(db.Tables()), db.Tables(), point, historyId,
                        PointHistory(historyId, userId, point.id, amount, USE, historyAt))
    {
      var point := pointRepository.FindOneByUserId(userId);
      if point == null {
        return Failure(PointNotFound);
      }
      var used := point.Use(amount);
      if used.Failure? {
        return Failure(used.error);
      }
      pointRepository.Save(point);
      var history := CreateHistory(historyId, userId, point.id, amount, USE, historyAt);
      db.histories := db.histories[historyId := history.value];
      return Success(point);
    }
  }

  // ---- Use cases ----

  /** The outbox rows that were announced inside the server, oldest first. */
  class EventBus {
    var published: seq<Outbox>

    constructor ()
      ensures published == []
    {
      published := [];
    }

    method Publish(outbox: Outbox)
      modifies this
      ensures published == old(published) + [outbox]
    {
      published := published + [outbox];
    }
  }

  class BookConcertSeatUseCase {
    const db: Database
    const concertService: ConcertService
    const eventBus: EventBus

    predicate Valid() {
      concertService.db == db && concertService.Valid()
    }

    constructor (db: Database, eventBus: EventBus)
      ensures Valid() && this.db == db && this.eventBus == eventBus
    {
      this.db, this.eventBus := db, eventBus;
      concertService := new ConcertService(db);
    }

    /** The transaction: all of it or, when its body throws, nothing. */
    method Transact(i: Input) returns (r: Result<(Booking, Outbox), ErrorCode>)
      requires i.Book? && Valid() && Keyed(db.Tables()) && CheckSchedule(db.Tables(), i).Success?
      modifies db
      ensures match Alone(old(db.Tables()), i)
              case Success(after) =>
                db.Tables() == after && r == Success((after.bookings[i.newBookingId], after.outbox[i.outboxId]))
              case Failure(e) => db.Tables() == old(db.Tables()) && r == Failure(e)
    {
      var begun := db.Tables();
      var seat := concertService.BookSeat(i.seatId, i.guardAt, i.setAt);
      if seat.Failure? {
        db.Restore(begun);
        return Failure(seat.error);
      }
      var booking := new ConcertBooking(Booking(
        i.newBookingId, i.userId, seat.value.concertId, i.scheduleId, i.seatId,
        seat.value.price, false, i.createdAt + 5 * 60 * 1000, 0));
      concertService.bookingRepository.Save(booking);
      var outbox := Outbox(i.outboxId, BookingCompleted(booking.Row()), INIT, i.outboxAt);
      db.outbox := db.outbox[i.outboxId := outbox];
      return Success((booking.Row(), outbox));
    }

    /** The committed outbox row is announced once, after the commit; a failure announces nothing. */
    method Execute(i: Input) returns (r: Result<Booking, ErrorCode>)
      requires i.Book? && Valid() && Keyed(db.Tables())
      modifies db, eventBus
      ensures match Alone(old(db.Tables()), i)
              case Success(after) =>
                && db.Tables() == after
                && r == Success(after.bookings[i.newBookingId])
                && eventBus.published == old(eventBus.published) + [after.outbox[i.outboxId]]
              case Failure(e) =>
                db.Tables() == old(db.Tables()) && r == Failure(e) && eventBus.published == old(eventBus.published)
    {
      var bookable := concertService.ValidateScheduleIsBookable(i.scheduleId, i.startCheckAt, i.endCheckAt);
      if bookable.Failure? {
        return Failure(bookable.error);
      }
      var committed := Transact(i);
      if committed.Failure? {
        return Failure(committed.error);
      }
      eventBus.Publish(committed.value.1);
      return Success(committed.value.0);
    }
  }

  class PayConcertBookingUseCase {
    const db: Database
    const concertService: ConcertService
    const pointService: PointService
    const eventBus: EventBus
    const tokenQueueService: WaitingServices.TokenQueueService

    predicate Valid() {
      && concertService.db == db && concertService.Valid()
      && pointService.db == db && pointService.Valid()
    }

    constructor (db: Database, eventBus: EventBus, tokenQueueService: WaitingServices.TokenQueueService)
      ensures Valid() && this.db == db && this.eventBus == eventBus && this.tokenQueueService == tokenQueueService
    {
      this.db, this.eventBus, this.tokenQueueService := db, eventBus, tokenQueueService;
      concertService := new ConcertService(db);
      pointService := new PointService(db);
    }

    /** The transaction: all of it or, when its body throws, nothing. */
    method Transact(i: Input) returns (r: Result<(Payment, Outbox), ErrorCode>)
      requires i.Pay? && Valid() && Keyed(db.Tables())
      modifies db
      ensures match Alone(old(db.Tables()), i)
              case Success(after) =>
                db.Tables() == after && r == Success((after.payments[i.paymentId], after.outbox[i.outboxId]))
              case Failure(e) => db.Tables() == old(db.Tables()) && r == Failure(e)
    {
      var begun := db.Tables();
      var paid := concertService.PayBooking(i.userId, i.bookingId, i.bookingCheckAt);
      if paid.Failure? {
        db.Restore(begun);
        return Failure(paid.error);
      }
      var booking := paid.value;
      var seat := concertService.PaySeat(booking.seatId, i.seatCheckAt);
      if seat.Failure? {
        db.Restore(begun);
        return Failure(seat.error);
      }
      var point := pointService.Use(i.userId, booking.price, i.historyId, i.historyAt);
      if point.Failure? {
        db.Restore(begun);
        return Failure(point.error);
      }
      var payment := Payment(
        i.paymentId, i.userId, booking.concertId, booking.scheduleId, booking.seatId, i.bookingId, booking.price);
      db.payments := db.payments[i.paymentId := payment];
      var outbox := Outbox(i.outboxId, PaymentCompleted(payment), INIT, i.outboxAt);
      db.outbox := db.outbox[i.outboxId := outbox];
      return Success((payment, outbox));
    }

    /** member is the user id as the token store's key. The committed outbox row is announced
        once and the payer's token is dropped; a failure does neither. */
    method Execute(i: Input, member: string) returns (r: Result<Payment, ErrorCode>)
      requires i.Pay? && Valid() && Keyed(db.Tables())
      modifies db, eventBus, tokenQueueService.active
      ensures match Alone(old(db.Tables()), i)
              case Success(after) =>
                && db.Tables() == after
                && r == Success(after.payments[i.paymentId])
                && eventBus.published == old(eventBus.published) + [after.outbox[i.outboxId]]
                && tokenQueueService.active.tokens == old(tokenQueueService.active.tokens) - {member}
              case Failure(e) =>
                && db.Tables() == old(db.Tables()) && r == Failure(e)
                && eventBus.published == old(eventBus.published)
                && tokenQueueService.active.tokens == old(tokenQueueService.active.tokens)
    {
      var committed := Transact(i);
      if committed.Failure? {
        return Failure(committed.error);
      }
      eventBus.Publish(committed.value.1);
      tokenQueueService.Expire(member);
      return Success(committed.value.0);
    }
  }

  class ChargePointUseCase {
    const db: Database
    const pointService: PointService

    predicate Valid() {
      pointService.db == db && pointService.Valid()
    }

    constructor (db: Database)
      ensures Valid() && this.db == db
    {
      this.db := db;
      pointService := new PointService(db);
    }

    method Execute(i: Input) returns (r: Result<Point, ErrorCode>)
      requires i.Charge? && Valid() && Keyed(db.Tables())
      modifies db
      ensures match Alone(old(db.Tables()), i)
              case Success(after) => db.Tables() == after && r == Success(after.points[i.userId])
              case Failure(e) => db.Tables() == old(db.Tables()) && r == Failure(e)
    {
      var begun := db.Tables();
      var point := pointService.Charge(i.userId, i.amount, i.historyId, i.historyAt);
      if point.Failure? {
        db.Restore(begun);
        return Failure(point.error);
      }
      return Success(point.value.Row());
    }
  }
}
