/** What committed requests leave in the tables, row by row and field by field: the rows that
    are updated keep what they are about, the rows that are inserted say what was done. */
module Records {
  import opened Domain
  import opened Serial
  import opened Interleaving
  import opened Serializability

  // ---- What an update may change ----

  /** A seat changes at most in isPaid, reservedUntil and version. */
  predicate SameSeat(s: Seat, s': Seat) {
    && s'.id == s.id && s'.concertId == s.concertId && s'.scheduleId == s.scheduleId
    && s'.price == s.price && s'.number == s.number
  }

  /** A booking changes at most in isPaid and version, and is not paid back. */
  predicate SameBooking(b: Booking, b': Booking) {
    && b'.id == b.id && b'.userId == b.userId && b'.concertId == b.concertId
    && b'.scheduleId == b.scheduleId && b'.seatId == b.seatId
    && b'.price == b.price && b'.expiresAt == b.expiresAt
    && (b.isPaid ==> b' == b)
  }

  /** A point row changes at most in its amount. */
  predicate SamePoint(p: Point, p': Point) {
    p'.id == p.id && p'.userId == p.userId
  }

  ghost predicate Kept(db: Db, db': Db) {
    && db'.schedules == db.schedules
    && db'.seats.Keys == db.seats.Keys && db'.points.Keys == db.points.Keys
    && (forall k | k in db.seats :: SameSeat(db.seats[k], db'.seats[k]))
    && (forall k | k in db.points :: SamePoint(db.points[k], db'.points[k]))
    && (forall k | k in db.bookings :: k in db'.bookings && SameBooking(db.bookings[k], db'.bookings[k]))
    && (forall k | k in db.histories :: k in db'.histories && db'.histories[k] == db.histories[k])
    && (forall k | k in db.payments :: k in db'.payments && db'.payments[k] == db.payments[k])
    && (forall k | k in db.outbox :: k in db'.outbox && db'.outbox[k] == db.outbox[k])
  }

  lemma AloneKeeps(db: Db, i: Input)
    requires Keyed(db) && FreshIds(db, i) && Alone(db, i).Success?
    ensures Kept(db, Alone(db, i).value)
  {
    match i
    case Book(_, _, _, _, _, _, _, _, _, _, _) => BookKeeps(db, i);
    case Pay(_, _, _, _, _, _, _, _, _) => PayKeeps(db, i);
    case Charge(_, _, _, _) =>
  }

  lemma BookKeeps(db: Db, i: Input)
    requires i.Book? && Keyed(db) && FreshIds(db, i) && Alone(db, i).Success?
    ensures Kept(db, Alone(db, i).value)
  {
  }

  lemma PayKeeps(db: Db, i: Input)
    requires i.Pay? && Keyed(db) && FreshIds(db, i) && Alone(db, i).Success?
    ensures Kept(db, Alone(db, i).value)
  {
  }

  lemma KeptThen(db: Db, mid: Db, db': Db)
    requires Kept(db, mid) && Kept(mid, db')
    ensures Kept(db, db')
  {
  }

  lemma {:induction false} ReplayKeeps(db: Db, log: seq<Input>)
    requires Keyed(db) && Replay(db, log).Success?
    ensures Kept(db, Replay(db, log).value)
  {
    if log != [] {
      var init, last := log[..|log| - 1], log[|log| - 1];
      ReplayKeeps(db, init);
      ReplayKeyed(db, init);
      ReplayLast(db, log);
      AloneKeeps(Replay(db, init).value, last);
      KeptThen(db, Replay(db, init).value, Replay(db, log).value);
    }
  }

  /** In every reachable state: a seat is the seat it was but for isPaid, reservedUntil and
      version, a booking the booking it was but for isPaid and version, a point row the one it
      was but for its amount; histories, payments and outbox rows never change, and no row is
      ever missing. */
  lemma RowsKeepTheirFields(s0: State, acts: seq<Action>)
    requires Initial(s0) && Run(s0, acts)
    ensures Kept(s0.db, Exec(s0, acts).db)
  {
    Serializable(s0, acts);
    ReplayKeeps(s0.db, History(Exec(s0, acts)));
  }

  // ---- What a booking leaves ----

  /** The booking row: who booked which seat when, at the seat's own price and of its concert. */
  predicate BookingRecord(db: Db, i: Input) {
    && i.Book? && i.newBookingId in db.bookings && i.seatId in db.seats
    && var b, s := db.bookings[i.newBookingId], db.seats[i.seatId];
       && b.id == i.newBookingId && b.userId == i.userId
       && b.scheduleId == i.scheduleId && b.seatId == i.seatId
       && b.concertId == s.concertId && b.price == s.price
       && b.expiresAt == i.createdAt + 5 * 60 * 1000
       && b.version == if b.isPaid then 1 else 0
  }

  /** Its message: the booking as it was before it was paid. */
  predicate BookingMessage(db: Db, i: Input) {
    && i.Book? && i.newBookingId in db.bookings && i.outboxId in db.outbox
    && var created := db.bookings[i.newBookingId].(isPaid := false, version := 0);
       db.outbox[i.outboxId] == Outbox(i.outboxId, BookingCompleted(created), INIT, i.outboxAt)
  }

  lemma BookRecords(db: Db, i: Input)
    requires i.Book? && Keyed(db) && Alone(db, i).Success?
    ensures BookingRecord(Alone(db, i).value, i) && BookingMessage(Alone(db, i).value, i)
  {
  }

  lemma AloneBookingRecord(db: Db, a: Input, i: Input)
    requires Keyed(db) && FreshIds(db, a) && Alone(db, a).Success? && BookingRecord(db, i)
    ensures BookingRecord(Alone(db, a).value, i)
  {
    AloneKeeps(db, a);
  }

  lemma KeptBookingMessage(db: Db, db': Db, i: Input)
    requires Kept(db, db') && BookingMessage(db, i)
    ensures BookingMessage(db', i)
  {
    var b, b' := db.bookings[i.newBookingId], db'.bookings[i.newBookingId];
    assert SameBooking(b, b');
    assert b'.(isPaid := false, version := 0) == b.(isPaid := false, version := 0);
  }

  lemma {:induction false} ReplayBookingRecord(db: Db, log: seq<Input>, i: Input)
    requires Keyed(db) && Replay(db, log).Success? && BookingRecord(db, i)
    ensures BookingRecord(Replay(db, log).value, i)
  {
    if log != [] {
      var init := log[..|log| - 1];
      ReplayBookingRecord(db, init, i);
      ReplayKeyed(db, init);
      ReplayLast(db, log);
      AloneBookingRecord(Replay(db, init).value, log[|log| - 1], i);
    }
  }

  // ---- What a payment leaves ----

  /** The payment row repeats what its booking is about, and the booking is paid. */
  predicate PaymentRecord(db: Db, i: Input) {
    && i.Pay? && i.paymentId in db.payments && i.bookingId in db.bookings
    && var p, b := db.payments[i.paymentId], db.bookings[i.bookingId];
       && b.isPaid
       && p.id == i.paymentId && p.bookingId == i.bookingId == b.id && p.userId == i.userId == b.userId
       && p.concertId == b.concertId && p.scheduleId == b.scheduleId && p.seatId == b.seatId
       && p.price == b.price
  }

  /** The history row of the debit, and the message. */
  predicate PaymentTraces(db: Db, i: Input) {
    && i.Pay? && i.paymentId in db.payments && i.historyId in db.histories
    && i.userId in db.points && i.outboxId in db.outbox
    && var h, p := db.histories[i.historyId], db.payments[i.paymentId];
       && h.id == i.historyId && h.userId == i.userId && h.pointId == db.points[i.userId].id
       && h.amount == p.price > 0 && h.kind == USE && h.createdAt == i.historyAt
       && db.outbox[i.outboxId] == Outbox(i.outboxId, PaymentCompleted(p), INIT, i.outboxAt)
  }

  lemma PayRecords(db: Db, i: Input)
    requires i.Pay? && Keyed(db) && Alone(db, i).Success?
    ensures PaymentRecord(Alone(db, i).value, i) && PaymentTraces(Alone(db, i).value, i)
  {
  }

  lemma KeptPayment(db: Db, db': Db, i: Input)
    requires Kept(db, db') && PaymentRecord(db, i) && PaymentTraces(db, i)
    ensures PaymentRecord(db', i) && PaymentTraces(db', i)
  {
    assert SameBooking(db.bookings[i.bookingId], db'.bookings[i.bookingId]);
    assert SamePoint(db.points[i.userId], db'.points[i.userId]);
  }

  // ---- What a charge leaves ----

  predicate ChargeRecord(db: Db, i: Input) {
    && i.Charge? && i.historyId in db.histories && i.userId in db.points
    && var h := db.histories[i.historyId];
       && h.id == i.historyId && h.userId == i.userId && h.pointId == db.points[i.userId].id
       && h.amount == i.amount > 0 && h.kind == CHARGE && h.createdAt == i.historyAt
  }

  lemma ChargeRecords(db: Db, i: Input)
    requires i.Charge? && Keyed(db) && Alone(db, i).Success?
    ensures ChargeRecord(Alone(db, i).value, i)
  {
  }

  lemma KeptCharge(db: Db, db': Db, i: Input)
    requires Kept(db, db') && ChargeRecord(db, i)
    ensures ChargeRecord(db', i)
  {
    assert SamePoint(db.points[i.userId], db'.points[i.userId]);
  }

  // ---- Over whole runs ----

  /** What a committed request has left. */
  ghost predicate Recorded(db: Db, i: Input) {
    match i
    case Book(_, _, _, _, _, _, _, _, _, _, _) => BookingRecord(db, i) && BookingMessage(db, i)
    case Pay(_, _, _, _, _, _, _, _, _) => PaymentRecord(db, i) && PaymentTraces(db, i)
    case Charge(_, _, _, _) => ChargeRecord(db, i)
  }

  lemma AloneRecords(db: Db, i: Input)
    requires Keyed(db) && Alone(db, i).Success?
    ensures Recorded(Alone(db, i).value, i)
  {
    match i
    case Book(_, _, _, _, _, _, _, _, _, _, _) => BookRecords(db, i);
    case Pay(_, _, _, _, _, _, _, _, _) => PayRecords(db, i);
    case Charge(_, _, _, _) => ChargeRecords(db, i);
  }

  lemma StaysRecorded(db: Db, log: seq<Input>, i: Input)
    requires Keyed(db) && Replay(db, log).Success? && Recorded(db, i)
    ensures Recorded(Replay(db, log).value, i)
  {
    ReplayKeeps(db, log);
    match i
    case Book(_, _, _, _, _, _, _, _, _, _, _) =>
      ReplayBookingRecord(db, log, i);
      KeptBookingMessage(db, Replay(db, log).value, i);
    case Pay(_, _, _, _, _, _, _, _, _) => KeptPayment(db, Replay(db, log).value, i);
    case Charge(_, _, _, _) => KeptCharge(db, Replay(db, log).value, i);
  }

  lemma HistoryRecords(db: Db, log: seq<Input>, j: nat)
    requires Keyed(db) && Replay(db, log).Success? && j < |log|
    ensures Recorded(Replay(db, log).value, log[j])
  {
    ReplayAt(db, log, j);
    ReplayKeyed(db, log[..j]);
    AloneRecords(DbAt(db, log, j), log[j]);
    ReplayKeyed(db, log[..j + 1]);
    ReplayPrefix(db, log, j + 1);
    StaysRecorded(DbAt(db, log, j + 1), log[j + 1..], log[j]);
  }

  /** After any run every committed request is on record: each row that it inserted is there
      under its id and says, field by field, what was booked, paid or charged, by whom, for how
      much and when; and the message in its outbox row carries the row as it was committed. */
  lemma CommitsOnRecord(s0: State, acts: seq<Action>, log: seq<Input>, j: nat)
    requires Commits(s0, acts, log) && j < |log|
    ensures Recorded(Exec(s0, acts).db, log[j])
  {
    CommitsReplay(s0, acts, log);
    HistoryRecords(s0.db, log, j);
  }

  // ---- And nothing else ----

  function Inserted(log: seq<Input>): set<RowKey> {
    if log == [] then {} else Inserted(log[..|log| - 1]) + RowKeys(log[|log| - 1])
  }

  /** The inserted rows of a table. */
  ghost predicate GrewBy(db: Db, db': Db, keys: set<RowKey>) {
    && (forall k :: k in db'.bookings <==> k in db.bookings || BookingRow(k) in keys)
    && (forall k :: k in db'.histories <==> k in db.histories || HistoryRow(k) in keys)
    && (forall k :: k in db'.payments <==> k in db.payments || PaymentRow(k) in keys)
    && (forall k :: k in db'.outbox <==> k in db.outbox || OutboxRow(k) in keys)
  }

  lemma AloneGrows(db: Db, i: Input)
    requires Keyed(db) && Alone(db, i).Success?
    ensures GrewBy(db, Alone(db, i).value, RowKeys(i))
  {
  }

  lemma {:induction false} ReplayGrows(db: Db, log: seq<Input>)
    requires Keyed(db) && Replay(db, log).Success?
    ensures GrewBy(db, Replay(db, log).value, Inserted(log))
  {
    if log != [] {
      var init := log[..|log| - 1];
      ReplayGrows(db, init);
      ReplayKeyed(db, init);
      ReplayLast(db, log);
      AloneGrows(Replay(db, init).value, log[|log| - 1]);
    }
  }

  /** A row is in the tables after a run exactly if it was there before or a committed request
      inserted it under one of its own ids. */
  lemma NothingElseInserted(s0: State, acts: seq<Action>, log: seq<Input>)
    requires Commits(s0, acts, log)
    ensures GrewBy(s0.db, Exec(s0, acts).db, Inserted(log))
  {
    CommitsReplay(s0, acts, log);
    ReplayGrows(s0.db, log);
  }
}
