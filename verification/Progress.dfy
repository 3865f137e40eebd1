/** No deadlock, and every run of finitely many transactions ends. */
module Progress {
  import opened Common
  import opened Serial
  import opened Interleaving
  import opened Serializability

  // ---- Waiting ----

  /** Bookings are locked before seats, seats before points. */
  function Rank(k: LockKey): nat {
    match k
    case BookingLock(_) => 0
    case SeatLock(_) => 1
    case PointLock(_) => 2
  }

  predicate Blocked(s: State, x: TxnId) {
    && x in s.txns
    && var t := s.txns[x];
       t.status.Running? && Loaded(t) && t.pc < Length(t.input) && Attempt(s.db, s.locks, x, t).Wait?
  }

  function Awaited(s: State, x: TxnId): LockKey
    requires Blocked(s, x)
  {
    Attempt(s.db, s.locks, x, s.txns[x]).key
  }

  /** x waits for a lock that y holds. */
  predicate WaitsFor(s: State, x: TxnId, y: TxnId) {
    Blocked(s, x) && Awaited(s, x) in s.locks && s.locks[Awaited(s, x)] == y
  }

  /** A transaction only ever waits for a lock above all those it holds. */
  lemma WaitsUpwards(db: Db, locks: map<LockKey, TxnId>, x: TxnId, t: Txn, k: LockKey)
    requires Loaded(t) && t.pc < Length(t.input) && Attempt(db, locks, x, t).Wait? && k in Held(t)
    ensures Rank(k) < Rank(Attempt(db, locks, x, t).key)
  {
  }

  lemma WaitHolder(db: Db, locks: map<LockKey, TxnId>, x: TxnId, t: Txn)
    requires Loaded(t) && t.pc < Length(t.input) && Attempt(db, locks, x, t).Wait?
    ensures LockedByOther(locks, x, Attempt(db, locks, x, t).key)
  {
  }

  lemma HolderHolds(s: State, k: LockKey)
    requires LocksMatch(s) && k in s.locks
    ensures var x := s.locks[k];
            x in s.txns && s.txns[x].Live() && Loaded(s.txns[x]) && k in Held(s.txns[x])
  {
    var h := Holdings(s.txns);
    assert s.locks[k] in h && k in h[s.locks[k]];
  }

  /** Along the wait-for relation the awaited locks strictly climb. */
  lemma WaitsForClimbs(s: State, db0: Db, x: TxnId, y: TxnId)
    requires Inv(s, db0) && WaitsFor(s, x, y) && Blocked(s, y)
    ensures Rank(Awaited(s, x)) < Rank(Awaited(s, y))
  {
    HolderHolds(s, Awaited(s, x));
    WaitsUpwards(s.db, s.locks, y, s.txns[y], Awaited(s, x));
  }

  ghost predicate WaitChain(s: State, p: seq<TxnId>) {
    forall j | 0 <= j < |p| - 1 :: WaitsFor(s, p[j], p[j + 1])
  }

  lemma ChainTail(s: State, p: seq<TxnId>)
    requires |p| >= 2 && WaitChain(s, p)
    ensures WaitsFor(s, p[0], p[1]) && WaitChain(s, p[1..])
  {
    var q := p[1..];
    forall j | 0 <= j < |q| - 1
      ensures WaitsFor(s, q[j], q[j + 1])
    {
      assert WaitsFor(s, p[j + 1], p[j + 2]);
    }
  }

  lemma {:induction false} ChainClimbs(s: State, db0: Db, p: seq<TxnId>)
    requires Inv(s, db0) && |p| >= 2 && WaitChain(s, p) && Blocked(s, p[|p| - 1])
    ensures Blocked(s, p[0])
    ensures Rank(Awaited(s, p[0])) + |p| - 1 <= Rank(Awaited(s, p[|p| - 1]))
    decreases |p|
  {
    ChainTail(s, p);
    if |p| > 2 {
      ChainClimbs(s, db0, p[1..]);
    }
    WaitsForClimbs(s, db0, p[0], p[1]);
  }

  /** The wait-for graph of a reachable state has no cycle of any length. */
  lemma NoWaitCycle(s0: State, acts: seq<Action>, p: seq<TxnId>)
    requires Initial(s0) && Run(s0, acts) && |p| >= 2 && WaitChain(Exec(s0, acts), p)
    ensures p[0] != p[|p| - 1]
  {
    InitialInv(s0);
    RunInv(s0, s0.db, acts);
    var s := Exec(s0, acts);
    assert WaitsFor(s, p[0], p[1]);
    if p[0] == p[|p| - 1] {
      ChainClimbs(s, s0.db, p);
    }
  }

  // ---- Deadlock freedom ----

  /** The steps the server itself takes; a crash is not progress. */
  predicate CanMove(s: State, x: TxnId) {
    Enabled(s, Advance(x)) || Enabled(s, Commit(x)) || Enabled(s, Rollback(x))
  }

  lemma MovesOrWaits(s: State, db0: Db, x: TxnId)
    requires Inv(s, db0) && x in s.txns && s.txns[x].Live()
    ensures CanMove(s, x) || (Blocked(s, x) && Awaited(s, x) in s.locks && s.locks[Awaited(s, x)] != x)
  {
    var t := s.txns[x];
    assert TxnInv(s.db, t);
    if t.status.Running? {
      if t.pc == Length(t.input) {
        EffectsAreAlone(s.db, t);
        assert Enabled(s, Commit(x));
      } else if Blocked(s, x) {
        WaitHolder(s.db, s.locks, x, t);
      } else {
        assert Enabled(s, Advance(x));
      }
    } else {
      assert Enabled(s, Rollback(x));
    }
  }

  /** The holder of the lock that x waits for is live, and waits, if at all, for a higher one. */
  lemma HolderAhead(s: State, db0: Db, x: TxnId)
    requires Inv(s, db0) && Blocked(s, x) && Awaited(s, x) in s.locks
    ensures var z := s.locks[Awaited(s, x)];
            && z in s.txns && s.txns[z].Live()
            && (Blocked(s, z) ==> Rank(Awaited(s, x)) < Rank(Awaited(s, z)))
  {
    var z := s.locks[Awaited(s, x)];
    HolderHolds(s, Awaited(s, x));
    if Blocked(s, z) {
      WaitsForClimbs(s, db0, x, z);
    }
  }

  predicate Stuck(s: State, x: TxnId) {
    x in s.txns && s.txns[x].Live() && !CanMove(s, x)
  }

  /** Whom a blocked transaction waits for, and how high the lock is that it waits for. */
  function Holder(s: State, x: TxnId): TxnId {
    if Blocked(s, x) && Awaited(s, x) in s.locks then s.locks[Awaited(s, x)] else x
  }

  function Height(s: State, x: TxnId): nat {
    if Blocked(s, x) then Rank(Awaited(s, x)) else 0
  }

  /** A stuck transaction waits for a live one that, if stuck itself, waits for a higher lock. */
  ghost predicate Climbs(s: State, stuck: set<TxnId>) {
    forall x | x in stuck ::
      && Holder(s, x) in s.txns && s.txns[Holder(s, x)].Live()
      && Height(s, x) <= 2
      && (Holder(s, x) in stuck ==> Height(s, x) < Height(s, Holder(s, x)))
  }

  lemma StuckClimbs(s: State, db0: Db, x: TxnId)
    requires Inv(s, db0) && Stuck(s, x)
    ensures var z := Holder(s, x);
            && z in s.txns && s.txns[z].Live()
            && (Stuck(s, z) ==> Height(s, x) < Height(s, z))
  {
    MovesOrWaits(s, db0, x);
    HolderAhead(s, db0, x);
    var z := Holder(s, x);
    if Stuck(s, z) {
      MovesOrWaits(s, db0, z);
    }
  }

  lemma HeightBound(s: State, x: TxnId)
    ensures Height(s, x) <= 2
  {
  }

  lemma AllClimb(s: State, db0: Db, stuck: set<TxnId>)
    requires Inv(s, db0) && forall x :: x in stuck <==> Stuck(s, x)
    ensures Climbs(s, stuck)
  {
    forall x | x in stuck
      ensures Holder(s, x) in s.txns && s.txns[Holder(s, x)].Live()
      ensures Height(s, x) <= 2
      ensures Holder(s, x) in stuck ==> Height(s, x) < Height(s, Holder(s, x))
    {
      StuckClimbs(s, db0, x);
      HeightBound(s, x);
    }
  }

  /** Following the holders of the locks leads out of the stuck transactions. */
  lemma {:induction false} ClimbOut(s: State, stuck: set<TxnId>, x: TxnId) returns (y: TxnId)
    requires Climbs(s, stuck) && x in stuck
    ensures y in s.txns && s.txns[y].Live() && y !in stuck
    decreases 2 - Height(s, x)
  {
    y := Holder(s, x);
    if y in stuck {
      y := ClimbOut(s, stuck, y);
    }
  }

  /** From any live transaction one that can move is reached. */
  lemma FindMover(s: State, db0: Db, x: TxnId) returns (y: TxnId)
    requires Inv(s, db0) && x in s.txns && s.txns[x].Live()
    ensures y in s.txns && CanMove(s, y)
  {
    if CanMove(s, x) {
      return x;
    }
    var stuck := set w | w in s.txns && Stuck(s, w);
    AllClimb(s, db0, stuck);
    y := ClimbOut(s, stuck, x);
  }

  /** Deadlock freedom: while some transaction is unfinished, one can take a step of its own. */
  lemma NoDeadlock(s0: State, acts: seq<Action>)
    requires Initial(s0) && Run(s0, acts)
    requires exists x :: x in Exec(s0, acts).txns && !Exec(s0, acts).txns[x].Finished()
    ensures exists y :: y in Exec(s0, acts).txns && CanMove(Exec(s0, acts), y)
  {
    InitialInv(s0);
    RunInv(s0, s0.db, acts);
    var s := Exec(s0, acts);
    var x :| x in s.txns && !s.txns[x].Finished();
    var y := FindMover(s, s0.db, x);
  }

  // ---- Termination ----

  /** Operations left, the commit or rollback included. */
  function Remaining(t: Txn): nat {
    match t.status
    case Running => if t.pc <= Length(t.input) then Length(t.input) - t.pc + 2 else 2
    case Failing(_) => 1
    case Aborted(_) => 0
    case Committed => 0
  }

  ghost function WorkLeft(s: State): int {
    Total(map x | x in s.txns :: Remaining(s.txns[x]))
  }

  lemma {:induction false} TotalNonNegative<K>(m: map<K, int>)
    requires forall k | k in m :: m[k] >= 0
    ensures Total(m) >= 0
    decreases |m|
  {
    if m != map[] {
      var k :| k in m && Total(m) == m[k] + Total(m - {k});
      TotalNonNegative(m - {k});
    }
  }

  lemma StepRemaining(s: State, a: Action)
    requires Enabled(s, a)
    ensures a.tid in Step(s, a).txns
    ensures Step(s, a).txns == s.txns[a.tid := Step(s, a).txns[a.tid]]
    ensures Remaining(Step(s, a).txns[a.tid]) < Remaining(s.txns[a.tid])
  {
  }

  lemma StepUsesWork(s: State, a: Action)
    requires Enabled(s, a)
    ensures 0 <= WorkLeft(Step(s, a)) < WorkLeft(s)
  {
    StepRemaining(s, a);
    var m := map x | x in s.txns :: Remaining(s.txns[x]);
    var m' := map x | x in Step(s, a).txns :: Remaining(Step(s, a).txns[x]);
    assert m' == m[a.tid := Remaining(Step(s, a).txns[a.tid])];
    TotalUpdate(m, a.tid, Remaining(Step(s, a).txns[a.tid]));
    TotalNonNegative(m');
  }

  /** Termination: no run is longer than the work its transactions have left. */
  lemma {:induction false} RunsEnd(s: State, acts: seq<Action>)
    requires Run(s, acts)
    ensures |acts| <= WorkLeft(s) - WorkLeft(Exec(s, acts))
    ensures 0 <= WorkLeft(Exec(s, acts))
    decreases |acts|
  {
    if acts == [] {
      TotalNonNegative(map x | x in s.txns :: Remaining(s.txns[x]));
    } else {
      StepUsesWork(s, acts[0]);
      RunsEnd(Step(s, acts[0]), acts[1..]);
    }
  }

  /** A run that cannot be continued has finished every transaction. */
  lemma StuckMeansFinished(s0: State, acts: seq<Action>)
    requires Initial(s0) && Run(s0, acts)
    requires forall y | y in Exec(s0, acts).txns :: !CanMove(Exec(s0, acts), y)
    ensures forall x | x in Exec(s0, acts).txns :: Exec(s0, acts).txns[x].Finished()
  {
    forall x | x in Exec(s0, acts).txns
      ensures Exec(s0, acts).txns[x].Finished()
    {
      if !Exec(s0, acts).txns[x].Finished() {
        NoDeadlock(s0, acts);
      }
    }
  }
}
