/** A transaction that nobody interferes with does exactly what its request does alone:
    the same tables if it succeeds, the same error if it does not. */
module Solo {
  import opened Common
  import opened Serial
  import opened Interleaving
  import opened Serializability
  import opened Progress

  /** The rows t read are still the committed ones. */
  ghost predicate CurrentRows(db: Db, t: Txn) {
    && Loaded(t)
    && match t.input
       case Book(_, _, _, _, _, _, _, _, _, _, _) => t.pc >= 2 ==> SeatCurrent(db, t.seat.value)
       case Pay(_, _, _, _, _, _, _, _, _) =>
         (t.pc >= 1 ==> BookingCurrent(db, t.booking.value)) && (t.pc >= 3 ==> SeatCurrent(db, t.seat.value))
       case Charge(_, _, _, _) => true
  }

  /** A row that t read and is about to write has been rewritten by a later commit. */
  ghost predicate Overtaken(db: Db, t: Txn) {
    || (t.booking.Some? &&
        var b := t.booking.value; b.id in db.bookings && db.bookings[b.id].version > b.version)
    || (t.seat.Some? &&
        var s := t.seat.value; s.id in db.seats && db.seats[s.id].version > s.version)
  }

  /** The error that the request gets alone on the tables as they are now, or a version
      conflict of a transaction that a commit overtook. */
  ghost predicate Justified(db: Db, t: Txn, e: ErrorCode) {
    (e == OptimisticLockConflict && Overtaken(db, t)) || Alone(db, t.input) == Failure(e)
  }

  lemma ThrowJustified(db: Db, locks: map<LockKey, TxnId>, tid: TxnId, t: Txn)
    requires Keyed(db) && TxnInv(db, t) && t.pc < Length(t.input)
    requires Attempt(db, locks, tid, t).Throw?
    ensures Justified(db, t, Attempt(db, locks, tid, t).error)
  {
    if t.input.Pay? {
      PayThrowJustified(db, locks, tid, t);
    }
  }

  lemma PayThrowJustified(db: Db, locks: map<LockKey, TxnId>, tid: TxnId, t: Txn)
    requires t.input.Pay? && Keyed(db) && TxnInv(db, t) && t.pc < Length(t.input)
    requires Attempt(db, locks, tid, t).Throw?
    ensures Justified(db, t, Attempt(db, locks, tid, t).error)
  {
  }

  /** No spurious failures, in any reachable state. */
  lemma FailuresJustified(s0: State, acts: seq<Action>, tid: TxnId)
    requires Initial(s0) && Run(s0, acts) && Enabled(Exec(s0, acts), Advance(tid))
    ensures var s, s' := Exec(s0, acts), Step(Exec(s0, acts), Advance(tid));
            s'.txns[tid].status.Failing? ==> Justified(s.db, s.txns[tid], s'.txns[tid].status.error)
  {
    InitialInv(s0);
    RunInv(s0, s0.db, acts);
    var s := Exec(s0, acts);
    assert TxnInv(s.db, s.txns[tid]);
    if Attempt(s.db, s.locks, tid, s.txns[tid]).Throw? {
      ThrowJustified(s.db, s.locks, tid, s.txns[tid]);
    } else {
      AdvanceTxnInv(s.db, s.locks, tid, s.txns[tid]);
    }
  }

  /** On current rows there is no conflict. */
  lemma ThrowIsAlone(db: Db, locks: map<LockKey, TxnId>, tid: TxnId, t: Txn)
    requires Keyed(db) && TxnInv(db, t) && CurrentRows(db, t) && t.pc < Length(t.input)
    requires Attempt(db, locks, tid, t).Throw?
    ensures Alone(db, t.input) == Failure(Attempt(db, locks, tid, t).error)
  {
  }

  lemma NextIsCurrent(db: Db, locks: map<LockKey, TxnId>, tid: TxnId, t: Txn)
    requires Keyed(db) && TxnInv(db, t) && CurrentRows(db, t) && t.pc < Length(t.input)
    requires Attempt(db, locks, tid, t).Next?
    ensures CurrentRows(db, Attempt(db, locks, tid, t).txn)
    ensures Attempt(db, locks, tid, t).txn.pc == t.pc + 1
  {
  }

  /** From s to s' the transaction tid did its request alone. */
  ghost predicate DidAlone(s: State, s': State, tid: TxnId)
    requires tid in s.txns
  {
    && tid in s'.txns
    && (forall x | x in s.txns && x != tid :: x in s'.txns && s'.txns[x] == s.txns[x])
    && match Alone(s.db, s.txns[tid].input)
       case Success(db') => s'.db == db' && s'.txns[tid].status == Committed && s'.log == s.log + [tid]
       case Failure(e) => s'.db == s.db && s'.txns[tid].status == Aborted(e) && s'.log == s.log
  }

  /** Steps of one transaction only, none of them a crash. */
  predicate OwnSteps(acts: seq<Action>, tid: TxnId) {
    forall j | 0 <= j < |acts| :: acts[j].tid == tid && !acts[j].Crash?
  }

  /** Carried on by its own steps, the transaction ends. */
  ghost predicate Ends(s: State, acts: seq<Action>, tid: TxnId) {
    Run(s, acts) && OwnSteps(acts, tid) && tid in Exec(s, acts).txns && Exec(s, acts).txns[tid].Finished()
  }

  lemma FinishSolo(s: State, db0: Db, tid: TxnId) returns (acts: seq<Action>)
    requires Inv(s, db0) && tid in s.txns
    requires (s.txns[tid].status.Running? && s.txns[tid].pc == Length(s.txns[tid].input)) ||
             (s.txns[tid].status.Failing? && Alone(s.db, s.txns[tid].input) == Failure(s.txns[tid].status.error))
    ensures Ends(s, acts, tid)
  {
    var t := s.txns[tid];
    assert TxnInv(s.db, t);
    if t.status.Running? {
      EffectsAreAlone(s.db, t);
      acts := [Commit(tid)];
    } else {
      acts := [Rollback(tid)];
    }
    assert acts[1..] == [];
    assert Enabled(s, acts[0]);
    assert Exec(s, acts) == Exec(Step(s, acts[0]), acts[1..]) == Step(s, acts[0]);
  }

  /** What an operation of an undisturbed transaction does to it. */
  ghost predicate Undisturbed(db: Db, t: Txn, t': Txn) {
    && t'.input == t.input
    && if t'.status.Failing? then Alone(db, t.input) == Failure(t'.status.error)
       else t'.status.Running? && t'.pc == t.pc + 1 && CurrentRows(db, t')
  }

  lemma SoloOutcome(db: Db, locks: map<LockKey, TxnId>, tid: TxnId, t: Txn)
    requires Keyed(db) && TxnInv(db, t) && CurrentRows(db, t) && t.status.Running? && t.pc < Length(t.input)
    requires forall k | k in locks :: locks[k] == tid
    ensures var o := Attempt(db, locks, tid, t);
            !o.Wait? && Undisturbed(db, t, if o.Next? then o.txn else t.(status := Failing(o.error)))
  {
    var o := Attempt(db, locks, tid, t);
    match o
    case Wait(_) => WaitHolder(db, locks, tid, t);
    case Throw(_) => ThrowIsAlone(db, locks, tid, t);
    case Next(_, _) =>
      NextIsCurrent(db, locks, tid, t);
      AdvanceTxnInv(db, locks, tid, t);
  }

  /** s' is s after one more operation of tid, which nobody disturbs. */
  ghost predicate OneMore(s: State, s': State, tid: TxnId)
    requires tid in s.txns
  {
    && s'.db == s.db && s'.log == s.log && tid in s'.txns
    && (forall k | k in s'.locks :: s'.locks[k] == tid)
    && (forall x | x in s.txns && x != tid :: x in s'.txns && s'.txns[x] == s.txns[x])
    && Undisturbed(s.db, s.txns[tid], s'.txns[tid])
  }

  lemma OneMoreShape(s: State, tid: TxnId, o: Outcome)
    requires tid in s.txns && !o.Wait? && forall k | k in s.locks :: s.locks[k] == tid
    requires Undisturbed(s.db, s.txns[tid], if o.Next? then o.txn else s.txns[tid].(status := Failing(o.error)))
    ensures OneMore(s, After(s, tid, o), tid)
  {
  }

  lemma SoloStep(s: State, db0: Db, tid: TxnId)
    requires Inv(s, db0) && tid in s.txns && s.txns[tid].status.Running? && CurrentRows(s.db, s.txns[tid])
    requires s.txns[tid].pc < Length(s.txns[tid].input) && forall k | k in s.locks :: s.locks[k] == tid
    ensures Enabled(s, Advance(tid))
    ensures Inv(Step(s, Advance(tid)), db0) && OneMore(s, Step(s, Advance(tid)), tid)
  {
    assert TxnInv(s.db, s.txns[tid]);
    SoloOutcome(s.db, s.locks, tid, s.txns[tid]);
    OneMoreShape(s, tid, Attempt(s.db, s.locks, tid, s.txns[tid]));
    AdvanceInv(s, db0, tid);
  }

  lemma OwnTail(acts: seq<Action>, tid: TxnId)
    requires acts != [] && OwnSteps(acts, tid)
    ensures acts[0].tid == tid && !acts[0].Crash? && OwnSteps(acts[1..], tid)
  {
    assert forall j | 0 <= j < |acts[1..]| :: acts[1..][j] == acts[j + 1];
  }

  /** A finished transaction takes no more steps. */
  lemma NothingAfterEnd(s: State, tid: TxnId, acts: seq<Action>)
    requires tid in s.txns && s.txns[tid].Finished() && Run(s, acts) && OwnSteps(acts, tid)
    ensures acts == []
  {
    if acts != [] {
      OwnTail(acts, tid);
    }
  }

  /** The end of an undisturbed transaction is what FinishSolo says. */
  lemma OnlyEnd(s: State, db0: Db, tid: TxnId, acts: seq<Action>)
    requires Inv(s, db0) && tid in s.txns && Run(s, acts) && OwnSteps(acts, tid)
    requires Exec(s, acts).txns.Keys == s.txns.Keys && Exec(s, acts).txns[tid].Finished()
    requires (s.txns[tid].status.Running? && s.txns[tid].pc == Length(s.txns[tid].input)) ||
             (s.txns[tid].status.Failing? && Alone(s.db, s.txns[tid].input) == Failure(s.txns[tid].status.error))
    ensures DidAlone(s, Exec(s, acts), tid)
  {
    assert acts != [];
    OwnTail(acts, tid);
    var s1 := Step(s, acts[0]);
    NothingAfterEnd(s1, tid, acts[1..]);
    assert Exec(s, acts) == s1;
    assert TxnInv(s.db, s.txns[tid]);
    if s.txns[tid].status.Running? {
      EffectsAreAlone(s.db, s.txns[tid]);
    }
  }

  /** However a transaction is carried on by its own steps until it ends, it does its request alone. */
  lemma {:induction false} SoloRun(s: State, db0: Db, tid: TxnId, acts: seq<Action>)
    requires Inv(s, db0) && tid in s.txns && s.txns[tid].status.Running? && CurrentRows(s.db, s.txns[tid])
    requires forall k | k in s.locks :: s.locks[k] == tid
    requires Run(s, acts) && OwnSteps(acts, tid)
    requires Exec(s, acts).txns.Keys == s.txns.Keys && Exec(s, acts).txns[tid].Finished()
    ensures DidAlone(s, Exec(s, acts), tid)
    decreases |acts|
  {
    if s.txns[tid].pc == Length(s.txns[tid].input) {
      OnlyEnd(s, db0, tid, acts);
    } else {
      assert acts != [];
      OwnTail(acts, tid);
      SoloStep(s, db0, tid);
      var s' := Step(s, Advance(tid));
      RunInv(s', db0, acts[1..]);
      if s'.txns[tid].status.Failing? {
        OnlyEnd(s', db0, tid, acts[1..]);
      } else {
        SoloRun(s', db0, tid, acts[1..]);
      }
    }
  }

  /** From any reachable state in which no row is locked, a request that no other transaction
      interrupts commits the tables that it yields alone, or aborts with the error that it
      gets alone and changes nothing: whichever way it is carried on until it ends. */
  lemma SoloIsAlone(s0: State, acts: seq<Action>, tid: TxnId, more: seq<Action>)
    requires Initial(s0) && Run(s0, acts) && tid in s0.txns && tid in Exec(s0, acts).txns
    requires Exec(s0, acts).locks == map[] && Exec(s0, acts).txns[tid] == s0.txns[tid]
    requires Run(Exec(s0, acts), more) && OwnSteps(more, tid)
    requires tid in Exec(Exec(s0, acts), more).txns && Exec(Exec(s0, acts), more).txns[tid].Finished()
    ensures DidAlone(Exec(s0, acts), Exec(Exec(s0, acts), more), tid)
    ensures Exec(Exec(s0, acts), more).locks == map[]
  {
    InitialInv(s0);
    RunInv(s0, s0.db, acts);
    var s := Exec(s0, acts);
    RunInv(s, s0.db, more);
    SoloRun(s, s0.db, tid, more);
    NoLocksLeft(s, Exec(s, more), tid);
  }

  lemma EndsCons(s: State, tid: TxnId, rest: seq<Action>)
    requires Enabled(s, Advance(tid)) && Ends(Step(s, Advance(tid)), rest, tid)
    ensures Ends(s, [Advance(tid)] + rest, tid)
  {
    assert ([Advance(tid)] + rest)[1..] == rest;
  }

  lemma {:induction false} SoloExists(s: State, db0: Db, tid: TxnId) returns (acts: seq<Action>)
    requires Inv(s, db0) && tid in s.txns && s.txns[tid].status.Running? && CurrentRows(s.db, s.txns[tid])
    requires forall k | k in s.locks :: s.locks[k] == tid
    ensures Ends(s, acts, tid)
    decreases Length(s.txns[tid].input) - s.txns[tid].pc
  {
    if s.txns[tid].pc == Length(s.txns[tid].input) {
      acts := FinishSolo(s, db0, tid);
    } else {
      SoloStep(s, db0, tid);
      var s' := Step(s, Advance(tid));
      var rest;
      if s'.txns[tid].status.Failing? {
        rest := FinishSolo(s', db0, tid);
      } else {
        rest := SoloExists(s', db0, tid);
      }
      EndsCons(s, tid, rest);
      acts := [Advance(tid)] + rest;
    }
  }

  /** And there is such a way: every request can run on its own to its end. */
  lemma SoloRunExists(s0: State, acts: seq<Action>, tid: TxnId) returns (more: seq<Action>)
    requires Initial(s0) && Run(s0, acts) && tid in s0.txns && tid in Exec(s0, acts).txns
    requires Exec(s0, acts).locks == map[] && Exec(s0, acts).txns[tid] == s0.txns[tid]
    ensures Run(Exec(s0, acts), more) && OwnSteps(more, tid)
    ensures DidAlone(Exec(s0, acts), Exec(Exec(s0, acts), more), tid)
    ensures Exec(Exec(s0, acts), more).locks == map[]
  {
    InitialInv(s0);
    RunInv(s0, s0.db, acts);
    more := SoloExists(Exec(s0, acts), s0.db, tid);
    SoloIsAlone(s0, acts, tid, more);
  }

  /** A transaction that ends leaves no lock of its own behind. */
  lemma NoLocksLeft(s: State, s': State, tid: TxnId)
    requires LocksMatch(s) && LocksMatch(s')
    requires s.txns.Keys == s'.txns.Keys && tid in s.txns && s'.txns[tid].Finished()
    requires forall x | x in s.txns && x != tid :: s'.txns[x] == s.txns[x]
    ensures s'.locks.Keys <= s.locks.Keys
  {
    var h, h' := Holdings(s.txns), Holdings(s'.txns);
    forall k | k in s'.locks
      ensures k in s.locks
    {
      var x := s'.locks[k];
      assert x in h' && k in h'[x];
      assert x in h && k in h[x];
    }
  }

  // ---- Every serial history is a run ----

  lemma {:induction false} RunConcat(s: State, first: seq<Action>, rest: seq<Action>)
    requires Run(s, first) && Run(Exec(s, first), rest)
    ensures Run(s, first + rest) && Exec(s, first + rest) == Exec(Exec(s, first), rest)
    decreases |first|
  {
    if first == [] {
      assert first + rest == rest;
    } else {
      assert (first + rest)[1..] == first[1..] + rest;
      RunConcat(Step(s, first[0]), first[1..], rest);
    }
  }

  function Requests(s0: State, order: seq<TxnId>): seq<Input>
    requires forall j | 0 <= j < |order| :: order[j] in s0.txns
  {
    seq(|order|, j requires 0 <= j < |order| => s0.txns[order[j]].input)
  }

  /** Some of the requests, each at most once, in any order. */
  ghost predicate SomeOrder(s0: State, order: seq<TxnId>) {
    && (forall j | 0 <= j < |order| :: order[j] in s0.txns)
    && (forall j, k | 0 <= j < k < |order| :: order[j] != order[k])
  }

  /** The run commits exactly these transactions in this order and touches no other. */
  ghost predicate Serially(s0: State, order: seq<TxnId>, acts: seq<Action>) {
    && Run(s0, acts)
    && var s := Exec(s0, acts);
       && s.log == order && s.locks == map[]
       && forall x | x in s0.txns && x !in order :: x in s.txns && s.txns[x] == s0.txns[x]
  }

  lemma SeriallyNext(s0: State, order: seq<TxnId>, first: seq<Action>, tid: TxnId, more: seq<Action>)
    requires Serially(s0, order, first) && tid in s0.txns && tid !in order
    requires tid in Exec(s0, first).txns && Run(Exec(s0, first), more)
    requires DidAlone(Exec(s0, first), Exec(Exec(s0, first), more), tid) && Exec(Exec(s0, first), more).locks == map[]
    requires Alone(Exec(s0, first).db, Exec(s0, first).txns[tid].input).Success?
    ensures Serially(s0, order + [tid], first + more)
    ensures Exec(s0, first + more) == Exec(Exec(s0, first), more)
  {
    RunConcat(s0, first, more);
  }

  lemma SerialStep(s0: State, order: seq<TxnId>, tid: TxnId, first: seq<Action>) returns (acts: seq<Action>)
    requires Initial(s0) && Serially(s0, order, first) && tid in s0.txns && tid !in order
    requires Alone(Exec(s0, first).db, s0.txns[tid].input).Success?
    ensures Serially(s0, order + [tid], acts)
    ensures Success(Exec(s0, acts).db) == Alone(Exec(s0, first).db, s0.txns[tid].input)
  {
    var more := SoloRunExists(s0, first, tid);
    SeriallyNext(s0, order, first, tid, more);
    acts := first + more;
  }

  /** What the requests do one after another in the given order. */
  ghost function InOrder(s0: State, order: seq<TxnId>): Result<Db, ErrorCode>
    requires SomeOrder(s0, order)
  {
    Replay(s0.db, Requests(s0, order))
  }

  lemma InOrderLast(s0: State, order: seq<TxnId>)
    requires order != [] && SomeOrder(s0, order) && InOrder(s0, order).Success?
    ensures var init, tid := order[..|order| - 1], order[|order| - 1];
            && SomeOrder(s0, init) && tid !in init && tid in s0.txns
            && InOrder(s0, init).Success?
            && Alone(InOrder(s0, init).value, s0.txns[tid].input) == InOrder(s0, order)
  {
    var init := order[..|order| - 1];
    assert Requests(s0, order)[..|order| - 1] == Requests(s0, init);
    ReplayLast(s0.db, Requests(s0, order));
  }

  /** The converse of serializability: whatever the requests do one after another in some
      order, there is a run of the step system that commits them in that order and leaves the
      same tables. So the tables that runs can leave are exactly the serial ones. */
  lemma {:induction false} SerialRunExists(s0: State, order: seq<TxnId>) returns (acts: seq<Action>)
    requires Initial(s0) && SomeOrder(s0, order) && InOrder(s0, order).Success?
    ensures Serially(s0, order, acts)
    ensures Success(Exec(s0, acts).db) == InOrder(s0, order)
    decreases |order|
  {
    if order == [] {
      acts := [];
    } else {
      InOrderLast(s0, order);
      var init, tid := order[..|order| - 1], order[|order| - 1];
      var first := SerialRunExists(s0, init);
      acts := SerialStep(s0, init, tid, first);
      assert init + [tid] == order;
    }
  }

  /** A transaction that an order leaves out still has unused ids after it. */
  lemma {:induction false} FreshAfterOrder(s0: State, order: seq<TxnId>, x: TxnId)
    requires Initial(s0) && SomeOrder(s0, order) && InOrder(s0, order).Success? && x in s0.txns && x !in order
    ensures FreshIds(InOrder(s0, order).value, s0.txns[x].input)
    decreases |order|
  {
    if order != [] {
      InOrderLast(s0, order);
      var init, tid := order[..|order| - 1], order[|order| - 1];
      FreshAfterOrder(s0, init, x);
      FreshStays(InOrder(s0, init).value, s0.txns[tid].input, s0.txns[x].input);
    }
  }

  lemma OneMoreRequest(s0: State, order: seq<TxnId>, x: TxnId)
    requires SomeOrder(s0, order) && x in s0.txns && x !in order
    ensures SomeOrder(s0, order + [x])
    ensures Requests(s0, order + [x]) == Requests(s0, order) + [s0.txns[x].input]
  {
  }

  lemma OrderAppend(s0: State, order: seq<TxnId>, x: TxnId)
    requires Initial(s0) && SomeOrder(s0, order) && InOrder(s0, order).Success? && x in s0.txns && x !in order
    ensures SomeOrder(s0, order + [x]) && Requests(s0, order + [x]) == Requests(s0, order) + [s0.txns[x].input]
    ensures InOrder(s0, order + [x]) == Alone(InOrder(s0, order).value, s0.txns[x].input)
  {
    FreshAfterOrder(s0, order, x);
    OneMoreRequest(s0, order, x);
    ReplayAppend(s0.db, Requests(s0, order), s0.txns[x].input);
  }

  /** The commit order of a run, as an order of requests. */
  lemma CommittedOrder(s0: State, acts: seq<Action>)
    requires Initial(s0) && Run(s0, acts)
    ensures var s := Exec(s0, acts);
            && LogMatches(s) && SomeOrder(s0, s.log)
            && Requests(s0, s.log) == History(s) && InOrder(s0, s.log) == Success(s.db)
  {
    InitialInv(s0);
    RunInv(s0, s0.db, acts);
    var s := Exec(s0, acts);
    forall j | 0 <= j < |s.log|
      ensures s.log[j] in s0.txns && s.txns[s.log[j]].input == s0.txns[s.log[j]].input
    {
      assert s.log[j] in s.txns;
    }
  }

  lemma SerialRunCommits(s0: State, order: seq<TxnId>) returns (acts: seq<Action>)
    requires Initial(s0) && SomeOrder(s0, order) && InOrder(s0, order).Success?
    ensures Commits(s0, acts, Requests(s0, order))
    ensures Success(Exec(s0, acts).db) == InOrder(s0, order)
  {
    acts := SerialRunExists(s0, order);
    CommittedOrder(s0, acts);
  }

  /** A request that succeeds alone has a run that commits it and nothing else. */
  lemma OneRequestRuns(s0: State, tid: TxnId) returns (acts: seq<Action>)
    requires Initial(s0) && tid in s0.txns && Alone(s0.db, s0.txns[tid].input).Success?
    ensures Commits(s0, acts, [s0.txns[tid].input])
    ensures Success(Exec(s0, acts).db) == Alone(s0.db, s0.txns[tid].input)
  {
    OrderAppend(s0, [], tid);
    assert [] + [tid] == [tid] && Requests(s0, [tid]) == [s0.txns[tid].input];
    acts := SerialRunCommits(s0, [tid]);
  }
}
