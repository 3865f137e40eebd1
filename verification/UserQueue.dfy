/** The older queue kept in a table: a position is the distance between two row ids. */
module UserQueue {
  import opened Common

  const BATCH: nat := 100
  const TOKEN_MS := 10 * 60 * 1000

  // ---- Positions ----

  ghost predicate IsOldest(pending: set<int>, id: int) {
    id in pending && forall k | k in pending :: id <= k
  }

  function Position(id: int, oldest: int): int {
    id - oldest + 1
  }

  /** The pending rows up to a row, itself included: its true place in the queue. */
  ghost function UpTo(pending: set<int>, id: int): set<int> {
    set k | k in pending && k <= id
  }

  function Between(lo: int, hi: int): (ids: set<int>)
    ensures forall k :: k in ids <==> lo <= k <= hi
    decreases hi - lo
  {
    if lo <= hi then Between(lo, hi - 1) + {hi} else {}
  }

  lemma {:induction false} CountBetween(lo: int, hi: int)
    requires lo <= hi + 1
    ensures |Between(lo, hi)| == hi - lo + 1
    decreases hi - lo
  {
    if lo <= hi {
      CountBetween(lo, hi - 1);
    }
  }

  lemma SubsetCount(a: set<int>, b: set<int>)
    requires a <= b
    ensures |a| <= |b|
    ensures |a| == |b| ==> a == b
  {
    assert b == a + (b - a);
    assert |b| == |a| + |b - a|;
  }

  /** The reported position is never below the true one, and is the true one exactly when
      every id from the oldest pending row to the row is a pending row. */
  lemma PositionIsUpperBound(pending: set<int>, id: int, oldest: int)
    requires id in pending && IsOldest(pending, oldest)
    ensures Position(id, oldest) >= |UpTo(pending, id)|
    ensures Position(id, oldest) == |UpTo(pending, id)| <==> forall k | oldest <= k <= id :: k in pending
  {
    CountBetween(oldest, id);
    SubsetCount(UpTo(pending, id), Between(oldest, id));
    if forall k | oldest <= k <= id :: k in pending {
      assert UpTo(pending, id) == Between(oldest, id);
    }
    if Position(id, oldest) == |UpTo(pending, id)| {
      forall k | oldest <= k <= id
        ensures k in pending
      {
        assert k in Between(oldest, id);
      }
    }
  }

  // ---- The table over whole runs ----

  /** nextId is the next value of the id sequence. An insert draws its id first and shows its
      row later, when it commits: open holds the ids drawn for rows not yet visible. A run
      holds the ids it has read. */
  datatype State = State(pending: set<int>, open: set<int>, nextId: int, runs: map<nat, set<int>>)

  datatype Action =
    | Draw                                    // an insert draws its id
    | Show(id: int)                           // and commits: its row becomes visible
    | Lose(id: int)                           // or fails: the id is gone
    | Read(run: nat, batch: set<int>)         // an activation run reads the oldest pending rows
    | Save(run: nat)                          // and saves them with their tokens
    | Stop(run: nat)

  /** The n lowest elements, or all if there are fewer. */
  ghost predicate Lowest(pending: set<int>, n: nat, batch: set<int>) {
    && batch <= pending
    && |batch| == (if |pending| < n then |pending| else n)
    && forall x, y | x in batch && y in pending - batch :: x < y
  }

  ghost predicate Enabled(s: State, a: Action) {
    match a
    case Draw => true
    case Show(id) => id in s.open
    case Lose(id) => id in s.open
    case Read(run, batch) => run !in s.runs && Lowest(s.pending, BATCH, batch)
    case Save(run) => run in s.runs
    case Stop(run) => run in s.runs
  }

  function Step(s: State, a: Action): State {
    match a
    case Draw => s.(open := s.open + {s.nextId}, nextId := s.nextId + 1)
    case Show(id) => s.(pending := s.pending + {id}, open := s.open - {id})
    case Lose(id) => s.(open := s.open - {id})
    case Read(run, batch) => s.(runs := s.runs[run := batch])
    case Save(run) => if run in s.runs then s.(pending := s.pending - s.runs[run], runs := s.runs - {run}) else s
    case Stop(run) => s.(runs := s.runs - {run})
  }

  ghost predicate Run(s: State, acts: seq<Action>)
    decreases |acts|
  {
    acts == [] || (Enabled(s, acts[0]) && Run(Step(s, acts[0]), acts[1..]))
  }

  function Exec(s: State, acts: seq<Action>): State
    decreases |acts|
  {
    if acts == [] then s else Exec(Step(s, acts[0]), acts[1..])
  }

  function Start(first: int): State {
    State({}, {}, first, map[])
  }

  /** No insert fails, and rows become visible in the order of their ids. */
  ghost predicate InIdOrder(s: State, a: Action) {
    && !a.Lose?
    && (a.Show? ==> forall k | k in s.open :: a.id <= k)
  }

  ghost predicate OrderedRun(s: State, acts: seq<Action>)
    decreases |acts|
  {
    acts == [] || (Enabled(s, acts[0]) && InIdOrder(s, acts[0]) && OrderedRun(Step(s, acts[0]), acts[1..]))
  }

  /** The open ids are the newest ones. */
  ghost predicate OpenLast(s: State) {
    && (forall k | k in s.pending + s.open :: k < s.nextId)
    && (forall j, k | j in s.pending && k in s.open :: j < k)
    && (forall j, k | j in s.open && j < k < s.nextId :: k in s.open)
  }

  /** Pending ids reach up to the open ones without a hole. */
  ghost predicate NoHoles(s: State) {
    forall j, k | j in s.pending && j < k < s.nextId :: k in s.pending || k in s.open
  }

  /** Ids that a run may hold: visible ones, and none without all the pending ones below it. */
  ghost predicate Low(s: State, batch: set<int>) {
    && (forall x | x in batch :: x < s.nextId)
    && (forall x, k | x in batch && k in s.open :: x < k)
    && (forall x, k | x in batch && k in s.pending && k < x :: k in batch)
  }

  ghost predicate RunsLow(s: State) {
    forall run | run in s.runs :: Low(s, s.runs[run])
  }

  ghost predicate Dense(s: State) {
    OpenLast(s) && NoHoles(s) && RunsLow(s)
  }

  lemma StepOpenLast(s: State, a: Action)
    requires OpenLast(s) && Enabled(s, a) && InIdOrder(s, a)
    ensures OpenLast(Step(s, a))
  {
  }

  lemma StepNoHoles(s: State, a: Action)
    requires Dense(s) && Enabled(s, a) && InIdOrder(s, a)
    ensures NoHoles(Step(s, a))
  {
    var s' := Step(s, a);
    forall j, k | j in s'.pending && j < k < s'.nextId
      ensures k in s'.pending || k in s'.open
    {
      assert a.Show? && j == a.id ==> j in s.open;
      assert j in s.pending && k < s.nextId ==> k in s.pending || k in s.open;
      assert a.Save? ==> Low(s, s.runs[a.run]);
    }
  }

  lemma ReadIsLow(s: State, batch: set<int>)
    requires OpenLast(s) && Lowest(s.pending, BATCH, batch)
    ensures Low(s, batch)
  {
    forall x, k | x in batch && k in s.pending && k < x
      ensures k in batch
    {
      assert k !in s.pending - batch;
    }
  }

  lemma StaysLow(s: State, a: Action, batch: set<int>)
    requires Enabled(s, a) && InIdOrder(s, a) && Low(s, batch)
    ensures Low(Step(s, a), batch)
  {
    var s' := Step(s, a);
    forall x, k | x in batch && k in s'.pending && k < x
      ensures k in batch
    {
      assert k in s.open ==> x < k;
      assert k in s.pending ==> k in batch;
    }
  }

  lemma StepRunsLow(s: State, a: Action)
    requires Dense(s) && Enabled(s, a) && InIdOrder(s, a)
    ensures RunsLow(Step(s, a))
  {
    var s' := Step(s, a);
    forall run | run in s'.runs
      ensures Low(s', s'.runs[run])
    {
      if a.Read? && a.run == run {
        ReadIsLow(s, a.batch);
        StaysLow(s, a, a.batch);
      } else {
        StaysLow(s, a, s.runs[run]);
      }
    }
  }

  lemma {:induction false} RunDense(s: State, acts: seq<Action>)
    requires Dense(s) && OrderedRun(s, acts)
    ensures Dense(Exec(s, acts))
    decreases |acts|
  {
    if acts != [] {
      StepOpenLast(s, acts[0]);
      StepNoHoles(s, acts[0]);
      StepRunsLow(s, acts[0]);
      RunDense(Step(s, acts[0]), acts[1..]);
    }
  }

  /** If no id is lost and rows become visible in id order, the reported position is the true
      one in every reachable state, however the activation runs of several instances overlap. */
  lemma PositionExact(first: int, acts: seq<Action>, id: int, oldest: int)
    requires OrderedRun(Start(first), acts)
    requires id in Exec(Start(first), acts).pending && IsOldest(Exec(Start(first), acts).pending, oldest)
    ensures Position(id, oldest) == |UpTo(Exec(Start(first), acts).pending, id)|
  {
    var s := Exec(Start(first), acts);
    RunDense(Start(first), acts);
    PositionIsUpperBound(s.pending, id, oldest);
    forall k | oldest <= k <= id
      ensures k in s.pending
    {
      assert id in s.pending + s.open;
      assert k in s.open ==> id !in s.pending;
    }
  }

  /** An id that has left the queue, lost or activated, is never pending again. */
  lemma {:induction false} NeverAgain(s: State, acts: seq<Action>, id: int)
    requires Run(s, acts) && id < s.nextId && id !in s.open && id !in s.pending
    ensures id !in Exec(s, acts).pending && id !in Exec(s, acts).open
    decreases |acts|
  {
    if acts != [] {
      NeverAgain(Step(s, acts[0]), acts[1..], id);
    }
  }

  /** A lost id never becomes a place in the queue. */
  lemma LostForGood(s: State, acts: seq<Action>, id: int)
    requires id in s.open && id < s.nextId && id !in s.pending && Run(Step(s, Lose(id)), acts)
    ensures id !in Exec(Step(s, Lose(id)), acts).pending
  {
    NeverAgain(Step(s, Lose(id)), acts, id);
  }

  lemma {:induction false} RunAppend(s: State, acts: seq<Action>, a: Action)
    requires Run(s, acts) && Enabled(Exec(s, acts), a)
    ensures Run(s, acts + [a]) && Exec(s, acts + [a]) == Step(Exec(s, acts), a)
    decreases |acts|
  {
    if acts == [] {
      assert acts + [a] == [a] && [a][1..] == [];
    } else {
      RunAppend(Step(s, acts[0]), acts[1..], a);
      assert (acts + [a])[1..] == acts[1..] + [a];
    }
  }

  predicate NoneLost(acts: seq<Action>) {
    forall j | 0 <= j < |acts| :: !acts[j].Lose?
  }

  /** acts is a run of the empty table that told a user a place too far back. */
  ghost predicate Overstates(first: int, acts: seq<Action>, id: int, oldest: int) {
    && Run(Start(first), acts)
    && var pending := Exec(Start(first), acts).pending;
       id in pending && IsOldest(pending, oldest) && Position(id, oldest) > |UpTo(pending, id)|
  }

  /** One lost id between two waiting users and the later one is told a place too far back. */
  lemma GapOverstates(first: int) returns (acts: seq<Action>)
    ensures Overstates(first, acts, first + 2, first)
    ensures Position(first + 2, first) == 3
  {
    acts := [];
    acts := Then(first, acts, Draw);
    acts := Then(first, acts, Show(first));
    acts := Then(first, acts, Draw);
    acts := Then(first, acts, Lose(first + 1));
    acts := Then(first, acts, Draw);
    acts := Then(first, acts, Show(first + 2));
    var pending := Exec(Start(first), acts).pending;
    assert pending == {first, first + 2};
    assert UpTo(pending, first + 2) == {first, first + 2};
  }

  lemma Then(first: int, acts: seq<Action>, a: Action) returns (more: seq<Action>)
    requires Run(Start(first), acts) && Enabled(Exec(Start(first), acts), a)
    ensures more == acts + [a]
    ensures Run(Start(first), more) && Exec(Start(first), more) == Step(Exec(Start(first), acts), a)
  {
    RunAppend(Start(first), acts, a);
    more := acts + [a];
  }

  /** Rows first and first + 2 are visible, first + 1 is not yet. */
  lemma TwoVisible(first: int) returns (acts: seq<Action>)
    ensures Run(Start(first), acts) && NoneLost(acts)
    ensures Exec(Start(first), acts) == State({first, first + 2}, {first + 1}, first + 3, map[])
  {
    acts := [];
    acts := Then(first, acts, Draw);
    acts := Then(first, acts, Draw);
    acts := Then(first, acts, Draw);
    acts := Then(first, acts, Show(first));
    acts := Then(first, acts, Show(first + 2));
    assert Exec(Start(first), acts).pending == {first, first + 2};
    assert Exec(Start(first), acts).open == {first + 1};
  }

  /** So is somebody whose row is visible while one with an earlier id is not. */
  lemma OpenRowOverstates(first: int) returns (acts: seq<Action>)
    ensures Overstates(first, acts, first + 2, first)
    ensures NoneLost(acts)
  {
    acts := TwoVisible(first);
    assert UpTo({first, first + 2}, first + 2) == {first, first + 2};
  }

  /** The two visible rows are being activated. */
  lemma LateRow(first: int) returns (acts: seq<Action>)
    ensures Run(Start(first), acts) && NoneLost(acts)
    ensures Exec(Start(first), acts) ==
            State({first, first + 2}, {first + 1}, first + 3, map[0 := {first, first + 2}])
  {
    acts := TwoVisible(first);
    assert Lowest({first, first + 2}, BATCH, {first, first + 2});
    acts := Then(first, acts, Read(0, {first, first + 2}));
  }

  /** And, with every row visible by now, somebody behind a row that became visible after a later
      id had been activated. */
  lemma LateRowOverstates(first: int) returns (acts: seq<Action>)
    ensures Overstates(first, acts, first + 3, first + 1)
    ensures NoneLost(acts)
  {
    acts := LateRow(first);
    acts := Then(first, acts, Show(first + 1));
    acts := Then(first, acts, Save(0));
    acts := Then(first, acts, Draw);
    acts := Then(first, acts, Show(first + 3));
    var pending := Exec(Start(first), acts).pending;
    assert pending == {first + 1, first + 3};
    assert UpTo(pending, first + 3) == {first + 1, first + 3};
  }

  // ---- The queue entry and its service ----

  datatype Row = Row(userId: int, token: Option<int>, expiresAt: Option<int>)

  function PendingIds(rows: map<int, Row>): set<int> {
    set k | k in rows && rows[k].token.None?
  }

  class QueueEntry {
    const id: int
    const userId: int
    var token: Option<int>
    var expiresAt: Option<int>
    var currentOrder: int

    constructor (id: int, row: Row)
      ensures this.id == id && Contents() == row && currentOrder == 0
    {
      this.id, userId, token, expiresAt, currentOrder := id, row.userId, row.token, row.expiresAt, 0;
    }

    function Contents(): Row
      reads this
    {
      Row(userId, token, expiresAt)
    }

    /** Counts the ids from the oldest pending one on, whether their rows are pending or not:
        never below the true place, and exact if all of them are pending. An id below the
        oldest one gets a place below one. No oldest row, or id 0, counts as none. */
    method CalculateCurrentOrder(oldestPendingId: Option<int>)
      modifies this`currentOrder
      ensures oldestPendingId in {None, Some(0)} ==> currentOrder == 1
      ensures oldestPendingId !in {None, Some(0)} ==>
                var oldest := oldestPendingId.value;
                && (oldest <= id ==> currentOrder == |Between(oldest, id)|)
                && (oldest > id ==> currentOrder == 1 - |Between(id, oldest - 1)|)
                && forall pending | id in pending && IsOldest(pending, oldest) ::
                     && currentOrder >= |UpTo(pending, id)|
                     && (currentOrder == |UpTo(pending, id)| <==> forall k | oldest <= k <= id :: k in pending)
    {
      if oldestPendingId.Some? && oldestPendingId.value != 0 {
        var oldest := oldestPendingId.value;
        currentOrder := id - oldest + 1;
        if oldest <= id {
          CountBetween(oldest, id);
        } else {
          CountBetween(id, oldest - 1);
        }
        forall pending | id in pending && IsOldest(pending, oldest)
          ensures Position(id, oldest) >= |UpTo(pending, id)|
          ensures Position(id, oldest) == |UpTo(pending, id)| <==> forall k | oldest <= k <= id :: k in pending
        {
          PositionIsUpperBound(pending, id, oldest);
        }
      } else {
        currentOrder := 1;
      }
    }

    /** The token is opaque: it stands for the id it was signed for. */
    method Activate(now: int)
      modifies this`token, this`expiresAt
      ensures Contents() == Row(userId, Some(id), Some(now + TOKEN_MS))
    {
      token := Some(id);
      expiresAt := Some(now + 10 * 60 * 1000);
    }

    /** Active from the activation up to, but not at, the expiry. */
    predicate IsActive(now: int)
      reads this
      ensures IsActive(now) <==> token.Some? && exists end :: expiresAt == Some(end) && now < end
    {
      token.Some? && expiresAt.Some? && expiresAt.value > now
    }
  }

  /** A row that findUnexpiredByUserId may return. */
  predicate Unexpired(rows: map<int, Row>, id: int, userId: int, now: int) {
    id in rows && rows[id].userId == userId && (rows[id].expiresAt.None? || rows[id].expiresAt.value > now)
  }

  class UserQueueRepository {
    var rows: map<int, Row>

    constructor (rows: map<int, Row>)
      ensures this.rows == rows
    {
      this.rows := rows;
    }

    method FindUnexpiredByUserId(userId: int, now: int) returns (entry: QueueEntry?)
      ensures entry != null <==> exists id :: Unexpired(rows, id, userId, now)
      ensures entry != null ==> fresh(entry) && entry.currentOrder == 0
      ensures entry != null ==> Unexpired(rows, entry.id, userId, now) && entry.Contents() == rows[entry.id]
      ensures entry != null ==> entry.userId == userId && (entry.expiresAt.None? || now < entry.expiresAt.value)
      ensures entry == null ==> forall id | id in rows && rows[id].userId == userId ::
                                  rows[id].expiresAt.Some? && rows[id].expiresAt.value <= now
    {
      var left := rows.Keys;
      while left != {}
        invariant left <= rows.Keys
        invariant forall id | Unexpired(rows, id, userId, now) :: id in left
        decreases left
      {
        SomeElement(left);
        var next :| next in left;
        if Unexpired(rows, next, userId, now) {
          entry := new QueueEntry(next, rows[next]);
          return;
        }
        left := left - {next};
      }
      forall id | id in rows && rows[id].userId == userId
        ensures rows[id].expiresAt.Some? && rows[id].expiresAt.value <= now
      {
        assert !Unexpired(rows, id, userId, now);
      }
      entry := null;
    }

    /** Inserts a row under the id that the sequence issued. */
    method Save(id: int, row: Row) returns (entry: QueueEntry)
      modifies this
      ensures rows == old(rows)[id := row]
      ensures fresh(entry) && entry.id == id && entry.Contents() == row && entry.currentOrder == 0
    {
      rows := rows[id := row];
      entry := new QueueEntry(id, row);
    }

    method FindOldestPending() returns (id: Option<int>)
      ensures id.None? <==> PendingIds(rows) == {}
      ensures id.Some? ==> IsOldest(PendingIds(rows), id.value)
    {
      var pending := PendingIds(rows);
      if pending == {} {
        return None;
      }
      var oldest := Minimum(pending);
      return Some(oldest);
    }

    method FindPendingQueues(count: nat) returns (ids: set<int>)
      ensures Lowest(PendingIds(rows), count, ids)
    {
      var left := PendingIds(rows);
      ids := {};
      while left != {} && |ids| < count
        invariant ids !! left && ids + left == PendingIds(rows)
        invariant forall x, y | x in ids && y in left :: x < y
        invariant |ids| <= count
        decreases left
      {
        var next := Minimum(left);
        ids, left := ids + {next}, left - {next};
      }
      assert PendingIds(rows) - ids == left;
      assert |PendingIds(rows)| == |ids| + |left|;
    }

    method BulkSave(entries: map<int, Row>)
      modifies this
      ensures rows == old(rows) + entries
    {
      rows := rows + entries;
    }
  }

  method Minimum(ids: set<int>) returns (least: int)
    requires ids != {}
    ensures IsOldest(ids, least)
  {
    SomeElement(ids);
    least :| least in ids;
    var left := ids - {least};
    while left != {}
      invariant left <= ids && least in ids && least !in left
      invariant forall k | k in ids && k !in left :: least <= k
      decreases left
    {
      SomeElement(left);
      var next :| next in left;
      left := left - {next};
      if next < least {
        least := next;
      }
    }
  }

  /** What an entry is told when the oldest pending row is this one: the number of ids from
      there to its own, which, if it is pending itself, is never below its true place and equals
      it exactly if all these ids are pending. An id below the oldest one gets a place below
      one, and the id 0 counts as no oldest row. */
  ghost predicate ToldFrom(oldest: int, pending: set<int>, id: int, order: int) {
    if oldest == 0 then order == 1
    else if oldest > id then order == 1 - |Between(id, oldest - 1)|
    else
      && order == |Between(oldest, id)|
      && (id in pending ==>
            && order >= |UpTo(pending, id)| >= 1
            && (order == |UpTo(pending, id)| <==> forall k | oldest <= k <= id :: k in pending))
  }

  /** What an entry that is not active is told when these rows are pending. */
  ghost predicate ToldOrder(pending: set<int>, id: int, order: int) {
    && (pending == {} ==> order == 1)
    && forall oldest | IsOldest(pending, oldest) :: ToldFrom(oldest, pending, id, order)
  }

  lemma ToldByOldest(oldest: int, pending: set<int>, id: int, order: int)
    requires IsOldest(pending, oldest) && ToldFrom(oldest, pending, id, order)
    ensures ToldOrder(pending, id, order)
  {
    forall other | IsOldest(pending, other)
      ensures other == oldest
    {
    }
  }

  class UserQueueService {
    const repository: UserQueueRepository

    constructor (repository: UserQueueRepository)
      ensures this.repository == repository
    {
      this.repository := repository;
    }

    method CalculateOrder(entry: QueueEntry, now: int)
      modifies entry`currentOrder
      ensures entry.IsActive(now) ==> entry.currentOrder == old(entry.currentOrder)
      ensures !entry.IsActive(now) ==> ToldOrder(PendingIds(repository.rows), entry.id, entry.currentOrder)
    {
      var active := entry.IsActive(now);
      if active {
        return;
      }
      var oldest := repository.FindOldestPending();
      entry.CalculateCurrentOrder(oldest);
      ghost var pending := PendingIds(repository.rows);
      if oldest.Some? {
        assert entry.id in pending ==> entry.id in UpTo(pending, entry.id);
        ToldByOldest(oldest.value, pending, entry.id, entry.currentOrder);
      }
    }

    /** Exactly the 100 oldest pending rows get tokens; no other row changes. */
    method ActivateQueues(now: int)
      modifies repository
      ensures exists batch ::
                && Lowest(PendingIds(old(repository.rows)), BATCH, batch)
                && PendingIds(repository.rows) == PendingIds(old(repository.rows)) - batch
                && repository.rows.Keys == old(repository.rows).Keys
                && forall k | k in old(repository.rows) ::
                     repository.rows[k] ==
                       if k in batch then Row(old(repository.rows)[k].userId, Some(k), Some(now + TOKEN_MS))
                       else old(repository.rows)[k]
    {
      ghost var before := repository.rows;
      var batch := repository.FindPendingQueues(100);
      var left, saved := batch, map[];
      while left != {}
        invariant left <= batch && repository.rows == before
        invariant saved == map k | k in batch - left :: Row(before[k].userId, Some(k), Some(now + TOKEN_MS))
        decreases left
      {
        SomeElement(left);
        var next :| next in left;
        var entry := new QueueEntry(next, repository.rows[next]);
        entry.Activate(now);
        saved, left := saved[next := entry.Contents()], left - {next};
      }
      assert batch - left == batch;
      repository.BulkSave(saved);
    }
  }

  class EnqueueUserQueueUseCase {
    const service: UserQueueService

    constructor (service: UserQueueService)
      ensures this.service == service
    {
      this.service := service;
    }

    /** An unexpired entry of the user is reused and the table stays as it is; otherwise one
        pending row is added. The entry is the user's row of the table, with order 0 if it is
        active and else with the order told. The two clock readings are separate. */
    method Execute(userId: int, newId: int, findAt: int, now: int) returns (entry: QueueEntry)
      requires newId !in service.repository.rows
      modifies service.repository
      ensures fresh(entry) && entry.userId == userId
      ensures entry.id in service.repository.rows && entry.Contents() == service.repository.rows[entry.id]
      ensures (exists id :: Unexpired(old(service.repository.rows), id, userId, findAt)) ==>
                && service.repository.rows == old(service.repository.rows)
                && Unexpired(old(service.repository.rows), entry.id, userId, findAt)
      ensures !(exists id :: Unexpired(old(service.repository.rows), id, userId, findAt)) ==>
                && entry.id == newId
                && service.repository.rows == old(service.repository.rows)[newId := Row(userId, None, None)]
                && PendingIds(service.repository.rows) == PendingIds(old(service.repository.rows)) + {newId}
      ensures entry.IsActive(now) ==> entry.currentOrder == 0
      ensures !entry.IsActive(now) ==>
                ToldOrder(PendingIds(service.repository.rows), entry.id, entry.currentOrder)
    {
      var found := service.repository.FindUnexpiredByUserId(userId, findAt);
      if found == null {
        entry := service.repository.Save(newId, Row(userId, None, None));
      } else {
        entry := found;
      }
      service.CalculateOrder(entry, now);
    }
  }
}
