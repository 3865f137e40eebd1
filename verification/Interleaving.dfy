/** Book, pay and charge transactions whose steps interleave freely under READ COMMITTED.
    A transaction sees committed rows only, keeps its own writes to itself until it commits,
    and holds a row lock from the write (or locking read) that takes it until it ends. */
module Interleaving {
  import opened Common
  import opened Domain
  import opened Serial

  type TxnId = nat

  datatype LockKey = BookingLock(id: int) | SeatLock(id: int) | PointLock(userId: int)

  /** Primary keys of the rows a request inserts. */
  datatype RowKey = BookingRow(id: int) | HistoryRow(id: int) | PaymentRow(id: int) | OutboxRow(id: int)

  datatype Op =
    | ValidateSchedule | ReadBooking | WriteBooking | ReadSeat | WriteSeat | LockPoint | SavePoint
    | InsertHistory | InsertBooking | InsertPayment | InsertOutbox

  datatype Status = Running | Failing(error: ErrorCode) | Aborted(error: ErrorCode) | Committed

  /** pc counts the operations done; the rows are the ones the transaction read. */
  datatype Txn = Txn(
    input: Input, pc: nat, status: Status,
    booking: Option<Booking>, seat: Option<Seat>, point: Option<Point>)
  {
    predicate Live() { status.Running? || status.Failing? }

    predicate Finished() { status.Aborted? || status.Committed? }
  }

  datatype State = State(
    db: Db,
    txns: map<TxnId, Txn>,
    locks: map<LockKey, TxnId>,
    log: seq<TxnId>)               // the committed transactions, in commit order

  // ---- The programs ----

  function Length(i: Input): nat {
    match i
    case Book(_, _, _, _, _, _, _, _, _, _, _) => 5
    case Pay(_, _, _, _, _, _, _, _, _) => 9
    case Charge(_, _, _, _) => 3
  }

  function OpAt(i: Input, pc: nat): Op
    requires pc < Length(i)
  {
    match i
    case Book(_, _, _, _, _, _, _, _, _, _, _) =>
      if pc == 0 then ValidateSchedule
      else if pc == 1 then ReadSeat
      else if pc == 2 then WriteSeat
      else if pc == 3 then InsertBooking
      else InsertOutbox
    case Pay(_, _, _, _, _, _, _, _, _) =>
      if pc == 0 then ReadBooking
      else if pc == 1 then WriteBooking
      else if pc == 2 then ReadSeat
      else if pc == 3 then WriteSeat
      else if pc == 4 then LockPoint
      else if pc == 5 then SavePoint
      else if pc == 6 then InsertHistory
      else if pc == 7 then InsertPayment
      else InsertOutbox
    case Charge(_, _, _, _) =>
      if pc == 0 then LockPoint
      else if pc == 1 then SavePoint
      else InsertHistory
  }

  /** The rows that the operations already done have read. */
  predicate Loaded(t: Txn) {
    && t.pc <= Length(t.input)
    && match t.input
       case Book(_, _, _, _, _, _, _, _, _, _, _) => t.pc >= 2 ==> t.seat.Some?
       case Pay(_, _, _, _, _, _, _, _, _) =>
         (t.pc >= 1 ==> t.booking.Some?) && (t.pc >= 3 ==> t.seat.Some?) && (t.pc >= 5 ==> t.point.Some?)
       case Charge(_, _, _, _) => t.pc >= 1 ==> t.point.Some?
  }

  /** The locks of a live transaction that has come this far. */
  function Held(t: Txn): set<LockKey>
    requires Loaded(t)
  {
    match t.input
    case Book(_, _, seatId, _, _, _, _, _, _, _, _) => if t.pc >= 3 then {SeatLock(seatId)} else {}
    case Pay(userId, bookingId, _, _, _, _, _, _, _) =>
      (if t.pc >= 2 then {BookingLock(bookingId)} else {}) +
      (if t.pc >= 4 then {SeatLock(t.booking.value.seatId)} else {}) +
      (if t.pc >= 5 then {PointLock(userId)} else {})
    case Charge(userId, _, _, _) => if t.pc >= 1 then {PointLock(userId)} else {}
  }

  // ---- One operation ----

  datatype Outcome = Next(txn: Txn, taken: set<LockKey>) | Throw(error: ErrorCode) | Wait(key: LockKey)

  predicate LockedByOther(locks: map<LockKey, TxnId>, tid: TxnId, key: LockKey) {
    key in locks && locks[key] != tid
  }

  /** A statement on a locked row waits for the lock holder. */
  function TakeLock(locks: map<LockKey, TxnId>, tid: TxnId, key: LockKey, t: Txn): Outcome {
    if LockedByOther(locks, tid, key) then Wait(key) else Next(t.(pc := t.pc + 1), {key})
  }

  function SeatIdOf(t: Txn): int
    requires t.input.Book? || (t.input.Pay? && t.booking.Some?)
  {
    if t.input.Book? then t.input.seatId else t.booking.value.seatId
  }

  function CheckSeat(i: Input, s: Seat): Result<Seat, ErrorCode>
    requires i.Book? || i.Pay?
  {
    if i.Book? then BookSeat(s, i.guardAt, i.setAt) else PaySeat(s, i.seatCheckAt)
  }

  function CheckPoint(t: Txn, p: Point): Result<Point, ErrorCode>
    requires t.input.Charge? || (t.input.Pay? && t.booking.Some?)
  {
    if t.input.Charge? then ChargePoint(p, t.input.amount) else UsePoint(p, t.booking.value.price)
  }

  function HistoryOf(t: Txn): Result<PointHistory, ErrorCode>
    requires t.input.Charge? || (t.input.Pay? && t.booking.Some?)
    requires t.point.Some?
  {
    if t.input.Charge? then
      CreateHistory(t.input.historyId, t.input.userId, t.point.value.id, t.input.amount, CHARGE, t.input.historyAt)
    else
      CreateHistory(t.input.historyId, t.input.userId, t.point.value.id, t.booking.value.price, USE, t.input.historyAt)
  }

  /** What happens when transaction tid issues its next operation against the committed
      tables db. A versioned write matches no row as soon as the committed version has moved,
      whoever holds the lock; if the version still matches it waits for the holder and is then
      decided again. */
  function Attempt(db: Db, locks: map<LockKey, TxnId>, tid: TxnId, t: Txn): Outcome
    requires Loaded(t) && t.pc < Length(t.input)
  {
    match OpAt(t.input, t.pc)
    case ValidateSchedule =>
      (match CheckSchedule(db, t.input)
       case Failure(e) => Throw(e)
       case Success(_) => Next(t.(pc := t.pc + 1), {}))
    case ReadBooking =>
      if t.input.bookingId !in db.bookings then Throw(BookingNotFound)
      else
        var row := db.bookings[t.input.bookingId];
        (match PayBooking(row, t.input.userId, t.input.bookingCheckAt)
         case Failure(e) => Throw(e)
         case Success(_) => Next(t.(pc := t.pc + 1, booking := Some(row)), {}))
    case WriteBooking =>
      var row := t.booking.value;
      if row.id !in db.bookings || db.bookings[row.id].version != row.version then Throw(OptimisticLockConflict)
      else TakeLock(locks, tid, BookingLock(row.id), t)
    case ReadSeat =>
      if SeatIdOf(t) !in db.seats then Throw(SeatNotFound)
      else
        var row := db.seats[SeatIdOf(t)];
        (match CheckSeat(t.input, row)
         case Failure(e) => Throw(e)
         case Success(_) => Next(t.(pc := t.pc + 1, seat := Some(row)), {}))
    case WriteSeat =>
      var row := t.seat.value;
      if row.id !in db.seats || db.seats[row.id].version != row.version then Throw(OptimisticLockConflict)
      else TakeLock(locks, tid, SeatLock(row.id), t)
    case LockPoint =>
      if t.input.userId !in db.points then Throw(PointNotFound)
      else if LockedByOther(locks, tid, PointLock(t.input.userId)) then Wait(PointLock(t.input.userId))
      else
        var row := db.points[t.input.userId];
        (match CheckPoint(t, row)
         case Failure(e) => Throw(e)
         case Success(_) => Next(t.(pc := t.pc + 1, point := Some(row)), {PointLock(t.input.userId)}))
    case InsertHistory =>
      (match HistoryOf(t)
       case Failure(e) => Throw(e)
       case Success(_) => Next(t.(pc := t.pc + 1), {}))
    case _ => Next(t.(pc := t.pc + 1), {})
  }

  /** The rows the transaction wrote, computed from the rows it read, put into the tables. */
  function Effects(db: Db, t: Txn): Result<Db, ErrorCode>
    requires Loaded(t) && t.pc == Length(t.input)
  {
    match t.input
    case Book(_, _, _, _, _, _, _, _, newBookingId, outboxId, outboxAt) =>
      var seat :- CheckSeat(t.input, t.seat.value);
      var booking := NewBooking(t.input, seat);
      Success(db.(
        seats := db.seats[seat.id := NextSeat(seat)],
        bookings := db.bookings[newBookingId := booking],
        outbox := db.outbox[outboxId := Outbox(outboxId, BookingCompleted(booking), INIT, outboxAt)]))
    case Pay(userId, bookingId, bookingCheckAt, _, historyId, _, paymentId, outboxId, outboxAt) =>
      var booking :- PayBooking(t.booking.value, userId, bookingCheckAt);
      var seat :- CheckSeat(t.input, t.seat.value);
      var point :- CheckPoint(t, t.point.value);
      var history :- HistoryOf(t);
      var payment := NewPayment(t.input, booking);
      Success(db.(
        bookings := db.bookings[booking.id := NextBooking(booking)],
        seats := db.seats[seat.id := NextSeat(seat)],
        points := db.points[point.userId := point],
        histories := db.histories[historyId := history],
        payments := db.payments[paymentId := payment],
        outbox := db.outbox[outboxId := Outbox(outboxId, PaymentCompleted(payment), INIT, outboxAt)]))
    case Charge(userId, _, historyId, _) =>
      var point :- CheckPoint(t, t.point.value);
      var history :- HistoryOf(t);
      Success(db.(
        points := db.points[point.userId := point],
        histories := db.histories[historyId := history]))
  }

  // ---- Steps and runs ----

  datatype Action =
    | Advance(tid: TxnId)    // the next operation takes effect or throws
    | Commit(tid: TxnId)
    | Rollback(tid: TxnId)   // the end of a transaction whose body threw
    | Crash(tid: TxnId)      // lost connection or server: the database drops the transaction

  predicate Enabled(s: State, a: Action) {
    && a.tid in s.txns
    && var t := s.txns[a.tid];
       && Loaded(t)
       && match a
          case Advance(tid) => t.status.Running? && t.pc < Length(t.input) && !Attempt(s.db, s.locks, tid, t).Wait?
          case Commit(_) => t.status.Running? && t.pc == Length(t.input) && Effects(s.db, t).Success?
          case Rollback(_) => t.status.Failing?
          case Crash(_) => t.Live()
  }

  function Release(locks: map<LockKey, TxnId>, tid: TxnId): map<LockKey, TxnId> {
    map k | k in locks && locks[k] != tid :: locks[k]
  }

  function Grant(locks: map<LockKey, TxnId>, tid: TxnId, taken: set<LockKey>): map<LockKey, TxnId> {
    locks + map k | k in taken :: tid
  }

  function After(s: State, tid: TxnId, o: Outcome): State
    requires tid in s.txns && !o.Wait?
  {
    match o
    case Next(t', taken) => s.(txns := s.txns[tid := t'], locks := Grant(s.locks, tid, taken))
    case Throw(e) => s.(txns := s.txns[tid := s.txns[tid].(status := Failing(e))])
  }

  function Step(s: State, a: Action): State
    requires Enabled(s, a)
  {
    var t := s.txns[a.tid];
    match a
    case Advance(tid) => After(s, tid, Attempt(s.db, s.locks, tid, t))
    case Commit(tid) =>
      State(Effects(s.db, t).value, s.txns[tid := t.(status := Committed)], Release(s.locks, tid), s.log + [tid])
    case Rollback(tid) =>
      s.(txns := s.txns[tid := t.(status := Aborted(t.status.error))], locks := Release(s.locks, tid))
    case Crash(tid) =>
      s.(txns := s.txns[tid := t.(status := Aborted(InternalServerError))], locks := Release(s.locks, tid))
  }

  predicate Run(s: State, acts: seq<Action>)
    decreases |acts|
  {
    acts == [] || (Enabled(s, acts[0]) && Run(Step(s, acts[0]), acts[1..]))
  }

  /** The state at the end of a run. */
  function Exec(s: State, acts: seq<Action>): State
    requires Run(s, acts)
    decreases |acts|
  {
    if acts == [] then s else Exec(Step(s, acts[0]), acts[1..])
  }

  // ---- Starting states ----

  function RowKeys(i: Input): set<RowKey> {
    match i
    case Book(_, _, _, _, _, _, _, _, newBookingId, outboxId, _) => {BookingRow(newBookingId), OutboxRow(outboxId)}
    case Pay(_, _, _, _, historyId, _, paymentId, outboxId, _) =>
      {HistoryRow(historyId), PaymentRow(paymentId), OutboxRow(outboxId)}
    case Charge(_, _, historyId, _) => {HistoryRow(historyId)}
  }

  /** Sequences never issue the same id twice. */
  ghost predicate DistinctIds(txns: map<TxnId, Txn>) {
    forall x, y | x in txns && y in txns && x != y :: RowKeys(txns[x].input) !! RowKeys(txns[y].input)
  }

  /** Any finite set of requests, none of them begun. */
  ghost predicate Initial(s: State) {
    && Keyed(s.db)
    && s.locks == map[]
    && s.log == []
    && DistinctIds(s.txns)
    && forall x | x in s.txns ::
         s.txns[x] == Txn(s.txns[x].input, 0, Running, None, None, None) && FreshIds(s.db, s.txns[x].input)
  }
}
