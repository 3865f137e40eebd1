/** Result types, the server's error codes and sums over finite maps. */
module Common {

  datatype Option<+T> = None | Some(value: T)

  datatype Result<+R, +E> = Success(value: R) | Failure(error: E) {
    predicate IsFailure() {
      Failure?
    }

    function PropagateFailure<U>(): Result<U, E>
      requires Failure?
    {
      Failure(error)
    }

    function Extract(): R
      requires Success?
    {
      value
    }
  }

  datatype ErrorCode =
    | ScheduleNotFound
    | BookingNotStarted
    | BookingAlreadyPassed
    | SeatNotFound
    | SeatAlreadyBooked
    | SeatAlreadySold
    | SeatNotReserved
    | BookingNotFound
    | UnauthorizedConcertPayment
    | PaymentAlreadyProcessed
    | PaymentExpired
    | PointNotFound
    | MinimumChargeAmount
    | MinimumPaymentAmount
    | InsufficientPoint
    | OptimisticLockConflict
    | OutboxNotFound
    | WaitingTokenNotFound
    | InternalServerError

  lemma SomeElement(elements: set<int>)
    requires elements != {}
    ensures exists k :: k in elements
  {
    assert (forall k :: k !in elements) ==> elements == {};
  }

  /** The sum of all values of a finite map. */
  ghost function Total<K>(m: map<K, int>): int
    decreases |m|
  {
    if m == map[] then 0
    else
      var k :| k in m;
      m[k] + Total(m - {k})
  }

  /** Any key may be taken out first. */
  lemma {:induction false} TotalSplit<K>(m: map<K, int>, k: K)
    requires k in m
    ensures Total(m) == m[k] + Total(m - {k})
    decreases |m|
  {
    var j :| j in m && Total(m) == m[j] + Total(m - {j});
    if j != k {
      TotalSplit(m - {j}, k);
      TotalSplit(m - {k}, j);
      assert m - {j} - {k} == m - {k} - {j};
    }
  }

  lemma TotalInsert<K>(m: map<K, int>, k: K, v: int)
    requires k !in m
    ensures Total(m[k := v]) == Total(m) + v
  {
    TotalSplit(m[k := v], k);
    assert m[k := v] - {k} == m;
  }

  /** Changing one value changes the sum by the difference. */
  lemma TotalUpdate<K>(m: map<K, int>, k: K, v: int)
    requires k in m
    ensures Total(m[k := v]) == Total(m) - m[k] + v
  {
    TotalSplit(m, k);
    TotalSplit(m[k := v], k);
    assert m[k := v] - {k} == m - {k};
  }
}
