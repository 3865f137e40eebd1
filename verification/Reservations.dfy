/** How far apart the reservations of one seat are, and how long a payer can overlap with
    the next reserver. Times are the readings of the servers' own clocks; nothing relates the
    clock of one transaction to the clock of another. */
module Reservations {
  import opened Common
  import opened Domain
  import opened Serial
  import opened Interleaving
  import opened Serializability
  import opened Solo

  predicate BooksSeat(i: Input, seatId: int) {
    i.Book? && i.seatId == seatId
  }

  function CountBookings(log: seq<Input>, seatId: int): nat {
    if log == [] then 0
    else CountBookings(log[..|log| - 1], seatId) + if BooksSeat(log[|log| - 1], seatId) then 1 else 0
  }

  /** Within each call of seat.book() for this seat the clock did not run backwards. */
  predicate SeatClocks(log: seq<Input>, seatId: int) {
    forall j | 0 <= j < |log| && BooksSeat(log[j], seatId) :: log[j].guardAt <= log[j].setAt
  }

  /** The seat is held at least until t. */
  predicate HeldUntil(db: Db, seatId: int, t: int) {
    seatId in db.seats && db.seats[seatId].reservedUntil.Some? && db.seats[seatId].reservedUntil.value >= t
  }

  lemma AloneHolds(db: Db, i: Input, seatId: int, t: int)
    requires Alone(db, i).Success? && HeldUntil(db, seatId, t)
    ensures !BooksSeat(i, seatId) ==> HeldUntil(Alone(db, i).value, seatId, t)
    ensures BooksSeat(i, seatId) ==> i.guardAt >= t && HeldUntil(Alone(db, i).value, seatId, i.setAt + HOLD_MS)
  {
  }

  /** A hold grows by five minutes with every committed booking. */
  lemma {:induction false} HoldGrows(db: Db, log: seq<Input>, seatId: int, t: int)
    requires Replay(db, log).Success? && HeldUntil(db, seatId, t) && SeatClocks(log, seatId)
    ensures HeldUntil(Replay(db, log).value, seatId, t + CountBookings(log, seatId) * HOLD_MS)
  {
    if log != [] {
      var init, last := log[..|log| - 1], log[|log| - 1];
      HoldGrows(db, init, seatId, t);
      ReplayLast(db, log);
      AloneHolds(Replay(db, init).value, last, seatId, t + CountBookings(init, seatId) * HOLD_MS);
      assert BooksSeat(last, seatId) ==> last.guardAt <= last.setAt;
    }
  }

  /** Without a booking in between the hold stays what it is, whatever the clocks do. */
  lemma {:induction false} HoldStays(db: Db, log: seq<Input>, seatId: int, t: int)
    requires Replay(db, log).Success? && HeldUntil(db, seatId, t)
    requires CountBookings(log, seatId) == 0
    ensures HeldUntil(Replay(db, log).value, seatId, t)
  {
    if log != [] {
      var init := log[..|log| - 1];
      HoldStays(db, init, seatId, t);
      ReplayLast(db, log);
      AloneHolds(Replay(db, init).value, log[|log| - 1], seatId, t);
    }
  }

  lemma BookHolds(db: Db, i: Input)
    requires i.Book? && Alone(db, i).Success?
    ensures HeldUntil(Alone(db, i).value, i.seatId, i.setAt + HOLD_MS)
  {
  }

  /** The part of a history strictly between entries j and k, replayed from after j. */
  lemma Between(db: Db, log: seq<Input>, j: nat, k: nat)
    requires Replay(db, log).Success? && j < k < |log|
    ensures Replay(db, log[..j + 1]).Success? && Replay(db, log[..k]).Success?
    ensures Replay(DbAt(db, log, j + 1), log[j + 1..k]) == Success(DbAt(db, log, k))
  {
    ReplayPrefix(db, log, k);
    var first := log[..k];
    ReplayPrefix(db, first, j + 1);
    assert first[..j + 1] == log[..j + 1] && first[j + 1..] == log[j + 1..k];
  }

  // ---- Spacing ----

  /** How long the seat that entry j booked is held just before entry k. */
  lemma HoldBefore(db: Db, log: seq<Input>, j: nat, k: nat)
    requires Replay(db, log).Success? && j < k < |log| && log[j].Book?
    ensures Replay(db, log[..k]).Success?
    ensures CountBookings(log[j + 1..k], log[j].seatId) == 0 ==>
              HeldUntil(DbAt(db, log, k), log[j].seatId, log[j].setAt + HOLD_MS)
    ensures SeatClocks(log[j + 1..k], log[j].seatId) ==>
              HeldUntil(DbAt(db, log, k), log[j].seatId,
                        log[j].setAt + HOLD_MS + CountBookings(log[j + 1..k], log[j].seatId) * HOLD_MS)
  {
    var seatId, t := log[j].seatId, log[j].setAt + HOLD_MS;
    ReplayAt(db, log, j);
    BookHolds(DbAt(db, log, j), log[j]);
    Between(db, log, j, k);
    var mid := log[j + 1..k];
    if CountBookings(mid, seatId) == 0 {
      HoldStays(DbAt(db, log, j + 1), mid, seatId, t);
    }
    if SeatClocks(mid, seatId) {
      HoldGrows(DbAt(db, log, j + 1), mid, seatId, t);
    }
  }

  predicate SameSeat(log: seq<Input>, j: nat, k: nat) {
    j < k < |log| && log[j].Book? && BooksSeat(log[k], log[j].seatId)
  }

  lemma HistorySpacing(db: Db, log: seq<Input>, j: nat, k: nat)
    requires Replay(db, log).Success? && SameSeat(log, j, k)
    ensures CountBookings(log[j + 1..k], log[j].seatId) == 0 ==> log[k].guardAt >= log[j].setAt + HOLD_MS
    ensures SeatClocks(log[j + 1..k], log[j].seatId) ==>
              log[k].guardAt >= log[j].setAt + HOLD_MS + CountBookings(log[j + 1..k], log[j].seatId) * HOLD_MS
  {
    HoldBefore(db, log, j, k);
    ReplayAt(db, log, k);
    var seatId, t := log[j].seatId, log[j].setAt + HOLD_MS;
    var n := CountBookings(log[j + 1..k], seatId);
    if n == 0 {
      AloneHolds(DbAt(db, log, k), log[k], seatId, t);
    }
    if SeatClocks(log[j + 1..k], seatId) {
      AloneHolds(DbAt(db, log, k), log[k], seatId, t + n * HOLD_MS);
    }
  }

  /** The clocks of the calls between two bookings, and that of the second. */
  lemma ClocksSplit(log: seq<Input>, j: nat, k: nat)
    requires SameSeat(log, j, k) && SeatClocks(log[j + 1..k + 1], log[j].seatId)
    ensures SeatClocks(log[j + 1..k], log[j].seatId) && log[k].guardAt <= log[k].setAt
  {
    var calls, between := log[j + 1..k + 1], log[j + 1..k];
    assert calls[k - j - 1] == log[k];
    forall i | 0 <= i < |between| && BooksSeat(between[i], log[j].seatId)
      ensures between[i].guardAt <= between[i].setAt
    {
      assert calls[i] == between[i];
    }
  }

  /** Reservation spacing. Successive committed bookings of a seat: the later one's check
      reads a time at least five minutes after the reading the earlier one set its hold from.
      n bookings further on it is n times five minutes, if within the calls that booked the
      seat since then the clock did not run backwards. */
  lemma ReservationSpacing(s0: State, acts: seq<Action>, log: seq<Input>, j: nat, k: nat)
    requires Commits(s0, acts, log) && SameSeat(log, j, k)
    ensures CountBookings(log[j + 1..k], log[j].seatId) == 0 ==> log[k].guardAt >= log[j].setAt + HOLD_MS
    ensures SeatClocks(log[j + 1..k + 1], log[j].seatId) ==>
              log[k].setAt >= log[j].setAt + (1 + CountBookings(log[j + 1..k], log[j].seatId)) * HOLD_MS
  {
    CommitsReplay(s0, acts, log);
    HistorySpacing(s0.db, log, j, k);
    if SeatClocks(log[j + 1..k + 1], log[j].seatId) {
      ClocksSplit(log, j, k);
    }
  }

  lemma HoldsAddUp(n: nat, t: int, later: int)
    requires later >= t + n * HOLD_MS
    ensures later >= t
  {
    assert n * HOLD_MS >= 0;
  }

  lemma LaterHold(db: Db, log: seq<Input>, j: nat, k: nat)
    requires Replay(db, log).Success? && SameSeat(log, j, k) && SeatClocks(log[j + 1..k + 1], log[j].seatId)
    ensures log[k].setAt >= log[j].setAt + HOLD_MS
  {
    HistorySpacing(db, log, j, k);
    ClocksSplit(log, j, k);
    HoldsAddUp(CountBookings(log[j + 1..k], log[j].seatId), log[j].setAt + HOLD_MS, log[k].guardAt);
  }

  // ---- Bookings in a window ----

  predicate BooksWithin(i: Input, seatId: int, t: int, w: nat) {
    BooksSeat(i, seatId) && t <= i.setAt <= t + w
  }

  /** How many bookings of the seat set their hold within w of t. */
  function CountWithin(log: seq<Input>, seatId: int, t: int, w: nat): nat {
    if log == [] then 0
    else CountWithin(log[..|log| - 1], seatId, t, w) + if BooksWithin(log[|log| - 1], seatId, t, w) then 1 else 0
  }

  lemma ClocksPart(log: seq<Input>, seatId: int, j: nat, k: nat)
    requires SeatClocks(log, seatId) && j <= k <= |log|
    ensures SeatClocks(log[j..k], seatId)
  {
    assert forall i | 0 <= i < k - j :: log[j..k][i] == log[j + i];
  }

  lemma NextWithin(db: Db, log: seq<Input>, seatId: int, k: nat, next: nat)
    requires Replay(db, log).Success? && SeatClocks(log, seatId)
    requires k < next < |log| && BooksSeat(log[k], seatId) && BooksSeat(log[next], seatId)
    ensures log[next].setAt >= log[k].setAt + HOLD_MS
  {
    ClocksPart(log, seatId, k + 1, next + 1);
    LaterHold(db, log, k, next);
  }

  /** The time that the holds set in the window take together. */
  function TimeWithin(log: seq<Input>, seatId: int, t: int, w: nat): nat {
    if log == [] then 0
    else
      TimeWithin(log[..|log| - 1], seatId, t, w) +
      if BooksWithin(log[|log| - 1], seatId, t, w) then HOLD_MS else 0
  }

  lemma {:induction false} TimeIsCount(log: seq<Input>, seatId: int, t: int, w: nat)
    ensures TimeWithin(log, seatId, t, w) == CountWithin(log, seatId, t, w) * HOLD_MS
  {
    if log != [] {
      TimeIsCount(log[..|log| - 1], seatId, t, w);
    }
  }

  /** The last booking in a window comes after all the holds set before it in the window. */
  lemma {:induction false} LastWithin(db: Db, log: seq<Input>, seatId: int, t: int, w: nat) returns (k: nat)
    requires Replay(db, log).Success? && SeatClocks(log, seatId) && TimeWithin(log, seatId, t, w) > 0
    ensures k < |log| && BooksWithin(log[k], seatId, t, w)
    ensures log[k].setAt >= t + TimeWithin(log, seatId, t, w) - HOLD_MS
    decreases |log|
  {
    var init, last := log[..|log| - 1], |log| - 1;
    ReplayLast(db, log);
    ClocksPart(log, seatId, 0, last);
    if TimeWithin(init, seatId, t, w) == 0 {
      k := last;
    } else {
      k := LastWithin(db, init, seatId, t, w);
      if BooksWithin(log[last], seatId, t, w) {
        NextWithin(db, log, seatId, k, last);
        k := last;
      }
    }
  }

  lemma HoldsFit(n: nat, w: nat)
    requires n * HOLD_MS <= w
    ensures n <= w / HOLD_MS
  {
  }

  lemma WithinBound(db: Db, log: seq<Input>, seatId: int, t: int, w: nat)
    requires Replay(db, log).Success? && SeatClocks(log, seatId)
    ensures CountWithin(log, seatId, t, w) <= w / HOLD_MS + 1
  {
    TimeIsCount(log, seatId, t, w);
    if CountWithin(log, seatId, t, w) > 0 {
      var k := LastWithin(db, log, seatId, t, w);
      HoldsFit(CountWithin(log, seatId, t, w) - 1, w);
    }
  }

  /** At most floor(w / 5 min) + 1 committed bookings of a seat set their holds within any window
      of length w, counted over any stretch of the commit order in which the clocks of the
      calls that booked this seat did not run backwards. */
  lemma WindowBound(
    s0: State, acts: seq<Action>, log: seq<Input>, from: nat, to: nat, seatId: int, t: int, w: nat)
    requires Commits(s0, acts, log) && from <= to <= |log| && SeatClocks(log[from..to], seatId)
    ensures CountWithin(log[from..to], seatId, t, w) <= w / HOLD_MS + 1
  {
    CommitsReplay(s0, acts, log);
    ReplayPrefix(s0.db, log, to);
    var first := log[..to];
    ReplayPrefix(s0.db, first, from);
    assert first[from..] == log[from..to];
    WithinBound(DbAt(s0.db, first, from), log[from..to], seatId, t, w);
  }

  // ---- Exactly when a booking can be paid ----

  /** Entry j created a booking of the seat. Its row is as it was, or paid with the seat. */
  ghost predicate BookedBy(db: Db, i: Input, seatPrice: int) {
    && i.Book?
    && i.seatId in db.seats && db.seats[i.seatId].price == seatPrice
    && i.newBookingId in db.bookings
    && var b := db.bookings[i.newBookingId];
       && b.seatId == i.seatId && b.userId == i.userId && b.price == seatPrice
       && b.expiresAt == i.createdAt + HOLD_MS
       && (b.isPaid ==> db.seats[i.seatId].isPaid)
  }

  lemma BookBooks(db: Db, i: Input)
    requires i.Book? && Alone(db, i).Success?
    ensures BookedBy(Alone(db, i).value, i, db.seats[i.seatId].price)
  {
  }

  lemma AloneStaysBooked(db: Db, a: Input, i: Input, seatPrice: int)
    requires Keyed(db) && FreshIds(db, a) && Alone(db, a).Success? && BookedBy(db, i, seatPrice)
    ensures BookedBy(Alone(db, a).value, i, seatPrice)
  {
  }

  lemma {:induction false} StaysBooked(db: Db, log: seq<Input>, i: Input, seatPrice: int)
    requires Keyed(db) && Replay(db, log).Success? && BookedBy(db, i, seatPrice)
    ensures BookedBy(Replay(db, log).value, i, seatPrice)
  {
    if log != [] {
      var init := log[..|log| - 1];
      StaysBooked(db, init, i, seatPrice);
      ReplayKeyed(db, init);
      ReplayLast(db, log);
      AloneStaysBooked(Replay(db, init).value, log[|log| - 1], i, seatPrice);
    }
  }

  /** The seat is held until t and no longer. */
  predicate HeldTo(db: Db, seatId: int, t: int) {
    seatId in db.seats && db.seats[seatId].reservedUntil == Some(t)
  }

  lemma AloneHoldsTo(db: Db, i: Input, seatId: int, t: int)
    requires Keyed(db) && Alone(db, i).Success? && HeldTo(db, seatId, t) && !BooksSeat(i, seatId)
    ensures HeldTo(Alone(db, i).value, seatId, t)
  {
  }

  lemma {:induction false} StaysHeldTo(db: Db, log: seq<Input>, seatId: int, t: int)
    requires Keyed(db) && Replay(db, log).Success? && HeldTo(db, seatId, t) && CountBookings(log, seatId) == 0
    ensures HeldTo(Replay(db, log).value, seatId, t)
  {
    if log != [] {
      var init := log[..|log| - 1];
      StaysHeldTo(db, init, seatId, t);
      ReplayKeyed(db, init);
      ReplayLast(db, log);
      AloneHoldsTo(Replay(db, init).value, log[|log| - 1], seatId, t);
    }
  }

  /** Entry j booked a seat; entry k, possibly j itself, is the last that did. */
  predicate LastReserver(log: seq<Input>, j: nat, k: nat) {
    && j <= k < |log| && log[j].Book? && BooksSeat(log[k], log[j].seatId)
    && CountBookings(log[k + 1..], log[j].seatId) == 0
  }

  lemma BookHoldsTo(db: Db, i: Input)
    requires i.Book? && Alone(db, i).Success?
    ensures HeldTo(Alone(db, i).value, i.seatId, i.setAt + HOLD_MS)
  {
  }

  lemma HeldAfter(db: Db, log: seq<Input>, k: nat)
    requires Keyed(db) && Replay(db, log).Success? && k < |log| && log[k].Book?
    requires CountBookings(log[k + 1..], log[k].seatId) == 0
    ensures HeldTo(Replay(db, log).value, log[k].seatId, log[k].setAt + HOLD_MS)
  {
    ReplayAt(db, log, k);
    BookHoldsTo(DbAt(db, log, k), log[k]);
    ReplayKeyed(db, log[..k + 1]);
    ReplayPrefix(db, log, k + 1);
    StaysHeldTo(DbAt(db, log, k + 1), log[k + 1..], log[k].seatId, log[k].setAt + HOLD_MS);
  }

  lemma BookedAfter(db: Db, log: seq<Input>, j: nat)
    requires Keyed(db) && Replay(db, log).Success? && j < |log| && log[j].Book?
    ensures var db', seatId := Replay(db, log).value, log[j].seatId;
            seatId in db'.seats && BookedBy(db', log[j], db'.seats[seatId].price)
  {
    ReplayAt(db, log, j);
    BookBooks(DbAt(db, log, j), log[j]);
    var price := DbAt(db, log, j).seats[log[j].seatId].price;
    ReplayPrefix(db, log, j + 1);
    ReplayKeyed(db, log[..j + 1]);
    StaysBooked(DbAt(db, log, j + 1), log[j + 1..], log[j], price);
  }

  lemma TablesAfter(db: Db, log: seq<Input>, j: nat, k: nat)
    requires Keyed(db) && Replay(db, log).Success? && LastReserver(log, j, k)
    ensures var db', seatId := Replay(db, log).value, log[j].seatId;
            && HeldTo(db', seatId, log[k].setAt + HOLD_MS)
            && BookedBy(db', log[j], db'.seats[seatId].price)
  {
    BookedAfter(db, log, j);
    HeldAfter(db, log, k);
  }

  predicate Funded(db: Db, userId: int, price: int) {
    price > 0 && userId in db.points && db.points[userId].amount >= price
  }

  /** The payment names the booking that i created, comes from its user, who can afford it, and
      the seat is not sold. */
  predicate Entitled(db: Db, i: Input, pay: Input) {
    && i.Book? && pay.Pay? && pay.bookingId == i.newBookingId && pay.userId == i.userId
    && i.seatId in db.seats && !db.seats[i.seatId].isPaid && Funded(db, pay.userId, db.seats[i.seatId].price)
  }

  lemma PaysExactly(db: Db, i: Input, pay: Input, heldTo: int)
    requires pay.Pay? && i.Book? && pay.bookingId == i.newBookingId
    requires HeldTo(db, i.seatId, heldTo) && BookedBy(db, i, db.seats[i.seatId].price)
    ensures Alone(db, pay).Success? <==>
              Entitled(db, i, pay) && pay.bookingCheckAt <= i.createdAt + HOLD_MS && pay.seatCheckAt <= heldTo
  {
  }

  /** Exactly when a booking can be paid, after any run. The seat check cannot tell whose hold
      it reads: the payment of booking j succeeds if and only if the booking has not expired at
      the first reading, the hold of the last reserver k of the seat has not ended at the
      second, and its user is entitled. */
  lemma PaymentExactly(s0: State, acts: seq<Action>, log: seq<Input>, j: nat, k: nat, pay: Input)
    requires Commits(s0, acts, log) && LastReserver(log, j, k)
    requires pay.Pay? && pay.bookingId == log[j].newBookingId
    ensures Alone(Exec(s0, acts).db, pay).Success? <==>
              && Entitled(Exec(s0, acts).db, log[j], pay)
              && pay.bookingCheckAt <= log[j].createdAt + HOLD_MS
              && pay.seatCheckAt <= log[k].setAt + HOLD_MS
  {
    CommitsReplay(s0, acts, log);
    TablesAfter(s0.db, log, j, k);
    PaysExactly(Exec(s0, acts).db, log[j], pay, log[k].setAt + HOLD_MS);
  }

  // ---- Overlap ----

  /** Entry j books a seat, entry k books the same seat again, entry l pays the first booking. */
  predicate Overlaps(log: seq<Input>, j: nat, k: nat, l: nat) {
    SameSeat(log, j, k) && k < l < |log| && log[l].Pay? && log[l].bookingId == log[j].newBookingId
  }

  /** A committed payment of the booking that entry j created was checked before it expired. */
  lemma PaidBeforeExpiry(db: Db, log: seq<Input>, j: nat, l: nat)
    requires Keyed(db) && Replay(db, log).Success? && j < l < |log|
    requires log[j].Book? && log[l].Pay? && log[l].bookingId == log[j].newBookingId
    ensures log[l].bookingCheckAt <= log[j].createdAt + HOLD_MS
  {
    ReplayAt(db, log, l);
    BookedAfter(db, log[..l], j);
  }

  lemma HistoryOverlap(db: Db, log: seq<Input>, j: nat, k: nat, l: nat)
    requires Keyed(db) && Replay(db, log).Success? && Overlaps(log, j, k, l)
    requires SeatClocks(log[j + 1..k + 1], log[j].seatId)
    ensures log[l].bookingCheckAt <= log[j].createdAt + HOLD_MS
    ensures log[k].setAt >= log[j].setAt + HOLD_MS
  {
    PaidBeforeExpiry(db, log, j, l);
    LaterHold(db, log, j, k);
  }

  /** Bounded overlap. A seat paid under an old booking after it was booked again was paid at
      most (creation - seat reading) + (seat check - booking check) after the new booking. */
  lemma BoundedOverlap(s0: State, acts: seq<Action>, log: seq<Input>, j: nat, k: nat, l: nat)
    requires Commits(s0, acts, log) && Overlaps(log, j, k, l) && SeatClocks(log[j + 1..k + 1], log[j].seatId)
    ensures log[l].seatCheckAt - log[k].setAt <=
            (log[j].createdAt - log[j].setAt) + (log[l].seatCheckAt - log[l].bookingCheckAt)
  {
    CommitsReplay(s0, acts, log);
    HistoryOverlap(s0.db, log, j, k, l);
  }

  /** With no gap between the paired readings only the boundary instant is left. */
  lemma NoGapNoOverlap(s0: State, acts: seq<Action>, log: seq<Input>, j: nat, k: nat, l: nat)
    requires Commits(s0, acts, log) && Overlaps(log, j, k, l) && SeatClocks(log[j + 1..k + 1], log[j].seatId)
    requires log[j].createdAt == log[j].setAt && log[l].seatCheckAt == log[l].bookingCheckAt
    requires log[k].setAt <= log[l].seatCheckAt
    ensures log[l].seatCheckAt == log[k].setAt == log[j].setAt + HOLD_MS
  {
    CommitsReplay(s0, acts, log);
    HistoryOverlap(s0.db, log, j, k, l);
  }

  /** How long after the hold of entry k was set the payment checks the seat. */
  function Overlap(second: Input, pay: Input): int
    requires second.Book? && pay.Pay?
  {
    pay.seatCheckAt - second.setAt
  }

  /** The time between the paired readings of the first booking and of its payment. */
  function Gaps(first: Input, pay: Input): int
    requires first.Book? && pay.Pay?
  {
    (first.createdAt - first.setAt) + (pay.seatCheckAt - pay.bookingCheckAt)
  }

  /** A payment that succeeds after a history was checked while the last hold still ran. */
  lemma PaidWithinHold(db: Db, log: seq<Input>, j: nat, k: nat, pay: Input)
    requires Keyed(db) && Replay(db, log).Success? && LastReserver(log, j, k)
    requires pay.Pay? && pay.bookingId == log[j].newBookingId && Alone(Replay(db, log).value, pay).Success?
    ensures pay.seatCheckAt <= log[k].setAt + HOLD_MS
  {
    TablesAfter(db, log, j, k);
    PaysExactly(Replay(db, log).value, log[j], pay, log[k].setAt + HOLD_MS);
  }

  /** A committed payment under an old booking overlaps the last reserver by at most the gaps,
      and never by more than the five minutes of the last reserver's own hold. */
  lemma OverlapBound(s0: State, acts: seq<Action>, log: seq<Input>, j: nat, k: nat, l: nat)
    requires Commits(s0, acts, log) && Overlaps(log, j, k, l) && LastReserver(log[..l], j, k)
    requires SeatClocks(log[j + 1..k + 1], log[j].seatId)
    ensures Overlap(log[k], log[l]) <= Gaps(log[j], log[l]) && Overlap(log[k], log[l]) <= HOLD_MS
  {
    CommitsReplay(s0, acts, log);
    BoundedOverlap(s0, acts, log, j, k, l);
    ReplayAt(s0.db, log, l);
    PaidWithinHold(s0.db, log[..l], j, k, log[l]);
  }

  /** A second booking at the instant at which the first hold ends, and a payment of the first
      booking that passes its expiry check at the last instant. */
  predicate Latest(first: Input, second: Input, pay: Input) {
    && first.Book? && second.Book? && pay.Pay?
    && second.seatId == first.seatId && second.guardAt == second.setAt == first.setAt + HOLD_MS
    && pay.bookingCheckAt == first.createdAt + HOLD_MS
  }

  lemma SecondBooks(db: Db, first: Input, second: Input, pay: Input)
    requires Latest(first, second, pay)
    requires Keyed(db) && FreshIds(db, second) && CheckSchedule(db, second).Success?
    requires HeldTo(db, first.seatId, first.setAt + HOLD_MS)
    requires BookedBy(db, first, db.seats[first.seatId].price) && Entitled(db, first, pay)
    ensures Alone(db, second).Success?
    ensures Entitled(Alone(db, second).value, first, pay)
    ensures HeldTo(Alone(db, second).value, first.seatId, second.setAt + HOLD_MS)
  {
  }

  /** Both bounds are attained, after any run and with any gaps between the paired readings: at
      the instant at which the hold of j ends another user can book the seat, and for as long
      as the overlap is within the second hold j can still pay, with an overlap of exactly the
      gaps; beyond it j cannot. */
  lemma OverlapAttained(
    s0: State, acts: seq<Action>, log: seq<Input>, j: nat, second: Input, pay: Input)
    requires Commits(s0, acts, log) && LastReserver(log, j, j)
    requires var db := Exec(s0, acts).db;
             && FreshIds(db, second) && second.Book? && CheckSchedule(db, second).Success?
             && Latest(log[j], second, pay) && Entitled(db, log[j], pay)
    ensures Alone(Exec(s0, acts).db, second).Success?
    ensures Overlap(second, pay) == Gaps(log[j], pay)
    ensures Alone(Alone(Exec(s0, acts).db, second).value, pay).Success? <==> Gaps(log[j], pay) <= HOLD_MS
  {
    CommitsReplay(s0, acts, log);
    var db := Exec(s0, acts).db;
    TablesAfter(s0.db, log, j, j);
    ReplayKeyed(s0.db, log);
    SecondBooks(db, log[j], second, pay);
    AloneStaysBooked(db, second, log[j], db.seats[log[j].seatId].price);
    PaysExactly(Alone(db, second).value, log[j], pay, second.setAt + HOLD_MS);
  }

  lemma CommitLast(s0: State, order: seq<TxnId>, x: TxnId, y: TxnId) returns (more: seq<Action>)
    requires Initial(s0) && SomeOrder(s0, order) && InOrder(s0, order).Success?
    requires x in s0.txns && y in s0.txns && x != y && x !in order && y !in order
    requires var db, i, j := InOrder(s0, order).value, s0.txns[x].input, s0.txns[y].input;
             Alone(db, i).Success? && Alone(Alone(db, i).value, j).Success?
    ensures Commits(s0, more, Requests(s0, order) + [s0.txns[x].input] + [s0.txns[y].input])
  {
    OrderAppend(s0, order, x);
    OrderAppend(s0, order + [x], y);
    more := SerialRunCommits(s0, order + [x] + [y]);
  }

  /** Two more transactions of s0 that succeed one after the other after a run can commit last. */
  lemma TwoMore(s0: State, acts: seq<Action>, x: TxnId, y: TxnId) returns (more: seq<Action>)
    requires Initial(s0) && Run(s0, acts) && x in s0.txns && y in s0.txns && x != y
    requires x !in Exec(s0, acts).log && y !in Exec(s0, acts).log
    requires var db, i, j := Exec(s0, acts).db, s0.txns[x].input, s0.txns[y].input;
             Alone(db, i).Success? && Alone(Alone(db, i).value, j).Success?
    ensures LogMatches(Exec(s0, acts))
    ensures Commits(s0, more, History(Exec(s0, acts)) + [s0.txns[x].input, s0.txns[y].input])
  {
    CommittedOrder(s0, acts);
    more := CommitLast(s0, Exec(s0, acts).log, x, y);
    var log := History(Exec(s0, acts));
    assert log + [s0.txns[x].input] + [s0.txns[y].input] == log + [s0.txns[x].input, s0.txns[y].input];
  }

  /** So the overlap is not only possible on the tables: it is in a run of the server. */
  lemma OverlapRun(s0: State, acts: seq<Action>, log: seq<Input>, j: nat, x: TxnId, y: TxnId)
    returns (more: seq<Action>)
    requires Commits(s0, acts, log) && LastReserver(log, j, j) && x in s0.txns && y in s0.txns
    requires x !in Exec(s0, acts).log && y !in Exec(s0, acts).log
    requires var db, second, pay := Exec(s0, acts).db, s0.txns[x].input, s0.txns[y].input;
             && Latest(log[j], second, pay) && CheckSchedule(db, second).Success?
             && Entitled(db, log[j], pay) && Gaps(log[j], pay) <= HOLD_MS
    ensures Commits(s0, more, log + [s0.txns[x].input, s0.txns[y].input])
    ensures Overlap(s0.txns[x].input, s0.txns[y].input) == Gaps(log[j], s0.txns[y].input)
  {
    InitialInv(s0);
    RunInv(s0, s0.db, acts);
    OverlapAttained(s0, acts, log, j, s0.txns[x].input, s0.txns[y].input);
    more := TwoMore(s0, acts, x, y);
  }
}
