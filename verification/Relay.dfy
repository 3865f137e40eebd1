/** The transactional outbox and its consumers over an unreliable bus. A message handed to
    the bus may be delivered any number of times, in any order, to either consumer, or never;
    every server-side activity may stop between any two of its statements. */
module Relay {
  import opened Domain

  const RETRY_AFTER_MS := 1000 * 60 * 3
  const KEEP_MS := 1000 * 60 * 60 * 24 * 10

  datatype Row = Row(status: OutboxStatus, createdAt: int)

  datatype ProcessedStatus = RECEIVED | SUCCESS

  /** The outbox consumer: find the row, then save the object (save looks the id up again and
      either updates or inserts). */
  datatype Marker = Finding(id: int) | Saving(id: int) | Writing(id: int, present: bool)

  /** The data platform consumer: register the outbox id, call out, record success. */
  datatype Delivery = Received(id: int) | Registered(id: int) | Called(id: int)

  datatype State = State(
    rows: map<int, Row>,               // the outbox table
    issued: set<int>,                  // ids of all outbox rows ever committed with a booking or payment
    announcing: set<int>,              // committed, and the server has not yet published the event
    resends: map<nat, set<int>>,       // running resend jobs: ids still to be emitted
    sent: set<int>,                    // ids in messages ever handed to the bus
    markers: map<nat, Marker>,
    deliveries: map<nat, Delivery>,
    processed: map<int, ProcessedStatus>,
    calls: multiset<int>,              // calls made to the data platform, by outbox id
    handled: set<int>,                 // ids for which the outbox consumer was invoked
    published: set<int>,               // ids whose row was ever PUBLISHED
    removed: set<int>,                 // ids whose row the clean-up ever deleted
    missing: set<int>)                 // ids that the outbox consumer ever failed to find

  datatype Action =
    | CommitEvent(id: int, createdAt: int)
    | Announce(id: int)
    | LoseAnnouncement(id: int)
    | StartResend(job: nat, now: int)
    | Emit(job: nat, id: int)
    | StopResend(job: nat)
    | DeliverToMarker(pid: nat, id: int)
    | MarkFind(pid: nat)
    | MarkLook(pid: nat)
    | MarkWrite(pid: nat, now: int)
    | StopMarker(pid: nat)
    | CleanUp(now: int)
    | DeliverToPlatform(pid: nat, id: int)
    | Register(pid: nat)
    | Call(pid: nat)
    | Succeed(pid: nat)
    | StopDelivery(pid: nat)

  /** Rows still INIT that were created more than three minutes before now. */
  function Failed(rows: map<int, Row>, now: int): set<int> {
    set k | k in rows && rows[k].status == INIT && rows[k].createdAt < now - RETRY_AFTER_MS
  }

  /** Rows PUBLISHED that were created more than ten days before now. */
  function Old(rows: map<int, Row>, now: int): set<int> {
    set k | k in rows && rows[k].status == PUBLISHED && rows[k].createdAt < now - KEEP_MS
  }

  function Publish(rows: map<int, Row>, id: int): map<int, Row>
    requires id in rows
  {
    rows[id := rows[id].(status := PUBLISHED)]
  }

  predicate Enabled(s: State, a: Action) {
    match a
    case CommitEvent(id, _) => id !in s.issued
    case Announce(id) => id in s.announcing
    case LoseAnnouncement(id) => id in s.announcing
    case StartResend(job, _) => job !in s.resends
    case Emit(job, id) => job in s.resends && id in s.resends[job]
    case StopResend(job) => job in s.resends
    case DeliverToMarker(pid, id) => id in s.sent && pid !in s.markers
    case MarkFind(pid) => pid in s.markers && s.markers[pid].Finding?
    case MarkLook(pid) => pid in s.markers && s.markers[pid].Saving?
    case MarkWrite(pid, _) => pid in s.markers && s.markers[pid].Writing?
    case StopMarker(pid) => pid in s.markers
    case CleanUp(_) => true
    case DeliverToPlatform(pid, id) => id in s.sent && pid !in s.deliveries
    case Register(pid) => pid in s.deliveries && s.deliveries[pid].Received?
    case Call(pid) => pid in s.deliveries && s.deliveries[pid].Registered?
    case Succeed(pid) => pid in s.deliveries && s.deliveries[pid].Called?
    case StopDelivery(pid) => pid in s.deliveries
  }

  function Step(s: State, a: Action): State
    requires Enabled(s, a)
  {
    match a
    case CommitEvent(id, createdAt) =>
      s.(rows := s.rows[id := Row(INIT, createdAt)], issued := s.issued + {id}, announcing := s.announcing + {id})
    case Announce(id) => s.(sent := s.sent + {id}, announcing := s.announcing - {id})
    case LoseAnnouncement(id) => s.(announcing := s.announcing - {id})
    case StartResend(job, now) => s.(resends := s.resends[job := Failed(s.rows, now)])
    case Emit(job, id) => s.(sent := s.sent + {id}, resends := s.resends[job := s.resends[job] - {id}])
    case StopResend(job) => s.(resends := s.resends - {job})
    case DeliverToMarker(pid, id) => s.(markers := s.markers[pid := Finding(id)], handled := s.handled + {id})
    case MarkFind(pid) =>
      var id := s.markers[pid].id;
      if id in s.rows then s.(markers := s.markers[pid := Saving(id)])
      else s.(markers := s.markers - {pid}, missing := s.missing + {id})
    case MarkLook(pid) =>
      var id := s.markers[pid].id;
      s.(markers := s.markers[pid := Writing(id, id in s.rows)])
    case MarkWrite(pid, now) =>
      var id, present := s.markers[pid].id, s.markers[pid].present;
      var done := s.(markers := s.markers - {pid});
      if present && id in s.rows then                      // UPDATE of the row
        done.(rows := Publish(s.rows, id), published := s.published + {id})
      else if !present && id !in s.rows then               // INSERT of the row under its old id
        done.(rows := s.rows[id := Row(PUBLISHED, now)], published := s.published + {id})
      else done                                            // no row matched, or duplicate key
    case StopMarker(pid) => s.(markers := s.markers - {pid})
    case CleanUp(now) => s.(rows := s.rows - Old(s.rows, now), removed := s.removed + Old(s.rows, now))
    case DeliverToPlatform(pid, id) => s.(deliveries := s.deliveries[pid := Received(id)])
    case Register(pid) =>
      var id := s.deliveries[pid].id;
      if id in s.processed then s.(deliveries := s.deliveries - {pid})     // unique constraint
      else s.(deliveries := s.deliveries[pid := Registered(id)], processed := s.processed[id := RECEIVED])
    case Call(pid) =>
      var id := s.deliveries[pid].id;
      s.(deliveries := s.deliveries[pid := Called(id)], calls := s.calls + multiset{id})
    case Succeed(pid) =>
      var id := s.deliveries[pid].id;
      s.(deliveries := s.deliveries - {pid}, processed := s.processed[id := SUCCESS])
    case StopDelivery(pid) => s.(deliveries := s.deliveries - {pid})
  }

  predicate Run(s: State, acts: seq<Action>)
    decreases |acts|
  {
    acts == [] || (Enabled(s, acts[0]) && Run(Step(s, acts[0]), acts[1..]))
  }

  function Exec(s: State, acts: seq<Action>): State
    requires Run(s, acts)
    decreases |acts|
  {
    if acts == [] then s else Exec(Step(s, acts[0]), acts[1..])
  }

  /** Nothing holds the bus or the crashes back: a sent message can reach a new handler of either
      kind at any time, and any activity can stop after any of its statements. */
  lemma Unreliable(s: State, pid: nat, id: int)
    ensures id in s.sent && pid !in s.markers ==> Enabled(s, DeliverToMarker(pid, id))
    ensures id in s.sent && pid !in s.deliveries ==> Enabled(s, DeliverToPlatform(pid, id))
    ensures pid in s.markers ==> pid !in Step(s, StopMarker(pid)).markers
    ensures pid in s.deliveries ==> pid !in Step(s, StopDelivery(pid)).deliveries
    ensures pid in s.resends ==> pid !in Step(s, StopResend(pid)).resends
    ensures id in s.announcing ==> id !in Step(s, LoseAnnouncement(id)).announcing
  {
  }

  lemma OneStep(s: State, a: Action)
    ensures Run(s, [a]) <==> Enabled(s, a)
    ensures Enabled(s, a) ==> Exec(s, [a]) == Step(s, a)
  {
    assert [a][1..] == [];
  }

  lemma ThreeSteps(s: State, a: Action, b: Action, c: Action)
    requires Enabled(s, a) && Enabled(Step(s, a), b) && Enabled(Step(Step(s, a), b), c)
    ensures Run(s, [a, b, c]) && Exec(s, [a, b, c]) == Step(Step(Step(s, a), b), c)
  {
    var s1 := Step(s, a);
    var s2 := Step(s1, b);
    assert [c][1..] == [] && Run(s2, [c]) && Exec(s2, [c]) == Step(s2, c);
    assert [b, c][1..] == [c] && Run(s1, [b, c]) && Exec(s1, [b, c]) == Step(s2, c);
    assert [a, b, c][1..] == [b, c];
  }

  const Empty := State(map[], {}, {}, map[], {}, map[], map[], map[], multiset{}, {}, {}, {}, {})

  // ---- The external effect ----

  /** The delivery owns the processed row of its id. */
  predicate Owns(deliveries: map<nat, Delivery>, pid: nat, id: int) {
    pid in deliveries && (deliveries[pid] == Registered(id) || deliveries[pid] == Called(id))
  }

  ghost predicate OneOwner(deliveries: map<nat, Delivery>) {
    forall p, q, id | Owns(deliveries, p, id) && Owns(deliveries, q, id) :: p == q
  }

  /** What a delivery's progress says about its id. */
  ghost predicate InStep(sent: set<int>, processed: map<int, ProcessedStatus>, calls: multiset<int>, d: Delivery) {
    && d.id in sent
    && (d.Registered? ==> d.id in processed && processed[d.id] == RECEIVED && calls[d.id] == 0)
    && (d.Called? ==> d.id in processed && calls[d.id] == 1)
  }

  ghost predicate CallsCounted(sent: set<int>, processed: map<int, ProcessedStatus>, calls: multiset<int>) {
    forall id ::
      && calls[id] <= 1
      && (id !in processed ==> calls[id] == 0)
      && (id in processed ==> id in sent && (processed[id] == SUCCESS ==> calls[id] == 1))
  }

  ghost predicate CallsOk(
    sent: set<int>, deliveries: map<nat, Delivery>, processed: map<int, ProcessedStatus>, calls: multiset<int>)
  {
    && (forall pid | pid in deliveries :: InStep(sent, processed, calls, deliveries[pid]))
    && OneOwner(deliveries)
    && CallsCounted(sent, processed, calls)
  }

  ghost predicate CallsInv(s: State) {
    CallsOk(s.sent, s.deliveries, s.processed, s.calls)
  }

  lemma CallsDrop(s: State, pid: nat)
    requires CallsInv(s)
    ensures CallsOk(s.sent, s.deliveries - {pid}, s.processed, s.calls)
  {
    assert forall p, k :: Owns(s.deliveries - {pid}, p, k) ==> Owns(s.deliveries, p, k);
  }

  lemma CallsStart(s: State, pid: nat, id: int)
    requires CallsInv(s) && Enabled(s, DeliverToPlatform(pid, id))
    ensures CallsInv(Step(s, DeliverToPlatform(pid, id)))
  {
    var s' := Step(s, DeliverToPlatform(pid, id));
    forall p | p in s'.deliveries
      ensures InStep(s'.sent, s'.processed, s'.calls, s'.deliveries[p])
    {
      assert p != pid ==> InStep(s.sent, s.processed, s.calls, s.deliveries[p]);
    }
    assert forall p, k :: Owns(s'.deliveries, p, k) ==> Owns(s.deliveries, p, k);
  }

  lemma CallsRegister(s: State, pid: nat)
    requires CallsInv(s) && Enabled(s, Register(pid)) && s.deliveries[pid].id !in s.processed
    ensures CallsInv(Step(s, Register(pid)))
  {
    var id, s' := s.deliveries[pid].id, Step(s, Register(pid));
    forall p | p in s'.deliveries
      ensures InStep(s'.sent, s'.processed, s'.calls, s'.deliveries[p])
    {
      assert InStep(s.sent, s.processed, s.calls, s.deliveries[p]);
    }
    forall p | p in s.deliveries && p != pid
      ensures !Owns(s.deliveries, p, id)
    {
      assert InStep(s.sent, s.processed, s.calls, s.deliveries[p]);
    }
    assert forall p, k :: Owns(s'.deliveries, p, k) ==> Owns(s.deliveries, p, k) || (p == pid && k == id);
  }

  /** Nobody else is past registration for the id of a delivery that is. */
  lemma SoleOwner(s: State, pid: nat, p: nat)
    requires CallsInv(s) && pid in s.deliveries && p in s.deliveries && p != pid
    requires !s.deliveries[pid].Received? && !s.deliveries[p].Received?
    ensures s.deliveries[p].id != s.deliveries[pid].id
  {
    assert Owns(s.deliveries, pid, s.deliveries[pid].id) && Owns(s.deliveries, p, s.deliveries[p].id);
  }

  lemma CallsCall(s: State, pid: nat)
    requires CallsInv(s) && Enabled(s, Call(pid))
    ensures CallsInv(Step(s, Call(pid)))
  {
    var s' := Step(s, Call(pid));
    assert InStep(s.sent, s.processed, s.calls, s.deliveries[pid]);
    forall p | p in s'.deliveries
      ensures InStep(s'.sent, s'.processed, s'.calls, s'.deliveries[p])
    {
      assert InStep(s.sent, s.processed, s.calls, s.deliveries[p]);
      if p != pid && !s.deliveries[p].Received? {
        SoleOwner(s, pid, p);
      }
    }
    assert forall p, k :: Owns(s'.deliveries, p, k) <==> Owns(s.deliveries, p, k);
  }

  lemma CallsSucceed(s: State, pid: nat)
    requires CallsInv(s) && Enabled(s, Succeed(pid))
    ensures CallsInv(Step(s, Succeed(pid)))
  {
    var s' := Step(s, Succeed(pid));
    assert InStep(s.sent, s.processed, s.calls, s.deliveries[pid]);
    forall p | p in s'.deliveries
      ensures InStep(s'.sent, s'.processed, s'.calls, s'.deliveries[p])
    {
      assert InStep(s.sent, s.processed, s.calls, s.deliveries[p]);
      if !s.deliveries[p].Received? {
        SoleOwner(s, pid, p);
      }
    }
    assert forall p, k :: Owns(s'.deliveries, p, k) ==> Owns(s.deliveries, p, k);
  }

  lemma CallsMoreSent(s: State, sent: set<int>)
    requires CallsInv(s) && s.sent <= sent
    ensures CallsOk(sent, s.deliveries, s.processed, s.calls)
  {
    forall pid | pid in s.deliveries
      ensures InStep(sent, s.processed, s.calls, s.deliveries[pid])
    {
      assert InStep(s.sent, s.processed, s.calls, s.deliveries[pid]);
    }
  }

  lemma CallsStep(s: State, a: Action)
    requires CallsInv(s) && Enabled(s, a)
    ensures CallsInv(Step(s, a))
  {
    match a
    case DeliverToPlatform(pid, id) => CallsStart(s, pid, id);
    case Register(pid) =>
      if s.deliveries[pid].id in s.processed {
        CallsDrop(s, pid);
      } else {
        CallsRegister(s, pid);
      }
    case Call(pid) => CallsCall(s, pid);
    case Succeed(pid) => CallsSucceed(s, pid);
    case StopDelivery(pid) => CallsDrop(s, pid);
    case _ => CallsMoreSent(s, Step(s, a).sent);
  }

  // ---- The outbox rows ----

  /** Who has been told of which row. */
  ghost predicate Told(s: State) {
    && s.announcing <= s.issued && s.handled <= s.sent <= s.issued
    && ResendsIssued(s) && MarkersHandled(s)
  }

  ghost predicate ResendsIssued(s: State) {
    forall job | job in s.resends :: s.resends[job] <= s.issued
  }

  ghost predicate MarkersHandled(s: State) {
    forall pid | pid in s.markers :: s.markers[pid].id in s.handled
  }

  /** Where each committed row is. */
  ghost predicate Located(s: State) {
    && s.rows.Keys <= s.issued <= s.rows.Keys + s.removed
    && s.missing <= s.removed <= s.published <= s.handled
    && (forall id | id in s.rows :: s.rows[id].status == PUBLISHED <==> id in s.published)
    && (forall pid | pid in s.markers && s.markers[pid].Writing? && !s.markers[pid].present ::
          s.markers[pid].id in s.removed)
  }

  ghost predicate RowsInv(s: State) {
    Told(s) && Located(s)
  }

  lemma ResendsStep(s: State, a: Action)
    requires ResendsIssued(s) && s.rows.Keys <= s.issued && Enabled(s, a)
    ensures ResendsIssued(Step(s, a))
  {
  }

  lemma MarkersStep(s: State, a: Action)
    requires MarkersHandled(s) && Enabled(s, a)
    ensures MarkersHandled(Step(s, a))
  {
  }

  lemma ToldStep(s: State, a: Action)
    requires Told(s) && s.rows.Keys <= s.issued && Enabled(s, a)
    ensures Told(Step(s, a))
  {
    ResendsStep(s, a);
    MarkersStep(s, a);
  }

  lemma LocatedStep(s: State, a: Action)
    requires RowsInv(s) && Enabled(s, a)
    ensures Located(Step(s, a))
  {
    match a
    case MarkWrite(pid, now) => LocatedWrite(s, pid, now);
    case CleanUp(now) => LocatedCleanUp(s, now);
    case _ =>
  }

  lemma LocatedCleanUp(s: State, now: int)
    requires RowsInv(s)
    ensures Located(Step(s, CleanUp(now)))
  {
    forall id | id in Old(s.rows, now)
      ensures id in s.published
    {
      assert s.rows[id].status == PUBLISHED;
    }
  }

  lemma LocatedWrite(s: State, pid: nat, now: int)
    requires RowsInv(s) && Enabled(s, MarkWrite(pid, now))
    ensures Located(Step(s, MarkWrite(pid, now)))
  {
  }

  lemma RowsStep(s: State, a: Action)
    requires RowsInv(s) && Enabled(s, a)
    ensures RowsInv(Step(s, a))
  {
    ToldStep(s, a);
    LocatedStep(s, a);
  }

  lemma PublishedGrows(s: State, a: Action)
    requires Enabled(s, a)
    ensures s.published <= Step(s, a).published
  {
  }

  lemma {:induction false} RunInv(s: State, acts: seq<Action>)
    requires CallsInv(s) && RowsInv(s) && Run(s, acts)
    ensures CallsInv(Exec(s, acts)) && RowsInv(Exec(s, acts))
    decreases |acts|
  {
    if acts != [] {
      CallsStep(s, acts[0]);
      RowsStep(s, acts[0]);
      RunInv(Step(s, acts[0]), acts[1..]);
    }
  }

  // ---- What holds in every run ----

  /** At-most-once effect. Whatever the bus and the crashes do, each outbox id is sent to the
      data platform at most once, SUCCESS means exactly once, and only ids of committed
      bookings and payments are sent. */
  lemma AtMostOnce(acts: seq<Action>, id: int)
    requires Run(Empty, acts)
    ensures var s := Exec(Empty, acts);
            && s.calls[id] <= 1
            && (id in s.processed && s.processed[id] == SUCCESS ==> s.calls[id] == 1)
            && (s.calls[id] > 0 ==> id in s.processed && id in s.sent && id in s.issued)
  {
    RunInv(Empty, acts);
  }

  /** No event lost or invented. A message carries the id of a committed row; a committed row
      is in the table until the clean-up takes it, which happens only to a row that was
      PUBLISHED, which happens only after a delivery; a row once PUBLISHED is never INIT
      again; a delivery finds no row only if the clean-up took it. */
  lemma NothingLostOrInvented(acts: seq<Action>, id: int)
    requires Run(Empty, acts)
    ensures var s := Exec(Empty, acts);
            && (id in s.sent ==> id in s.issued)
            && (id in s.issued ==> id in s.rows || id in s.removed)
            && (id in s.removed ==> id in s.published)
            && (id in s.published ==> id in s.handled && id in s.sent)
            && (id in s.rows ==> (s.rows[id].status == INIT <==> id !in s.published))
            && (id in s.missing ==> id in s.removed)
  {
    RunInv(Empty, acts);
  }

  /** A row leaves the table in a step exactly when the clean-up finds it PUBLISHED and more
      than ten days old; while it stays it keeps its age, and never goes back to INIT. */
  lemma RowFate(s: State, a: Action, id: int)
    requires Enabled(s, a) && id in s.rows && RowsInv(s)
    ensures id !in Step(s, a).rows <==>
              a.CleanUp? && s.rows[id].status == PUBLISHED && s.rows[id].createdAt < a.now - KEEP_MS
    ensures id in Step(s, a).rows ==>
              && Step(s, a).rows[id].createdAt == s.rows[id].createdAt
              && (s.rows[id].status == PUBLISHED ==> Step(s, a).rows[id].status == PUBLISHED)
  {
  }

  /** Only a new commit adds a row, or a consumer whose row was cleaned up after it had found
      it: its save inserts the row again, as PUBLISHED. */
  lemma RowOrigin(s: State, a: Action, id: int)
    requires Enabled(s, a) && id !in s.rows && RowsInv(s)
    ensures id in Step(s, a).rows <==>
              || (a.CommitEvent? && a.id == id)
              || (a.MarkWrite? && s.markers[a.pid] == Writing(id, false))
    ensures id in Step(s, a).rows ==>
              if a.CommitEvent? then id !in s.issued && Step(s, a).rows[id].status == INIT
              else id in s.removed && Step(s, a).rows[id].status == PUBLISHED
  {
  }

  lemma {:induction false} RunAppend(s: State, acts: seq<Action>, a: Action)
    requires Run(s, acts) && Enabled(Exec(s, acts), a)
    ensures Run(s, acts + [a]) && Exec(s, acts + [a]) == Step(Exec(s, acts), a)
    decreases |acts|
  {
    if acts == [] {
      assert acts + [a] == [a] && [a][1..] == [];
    } else {
      assert (acts + [a])[1..] == acts[1..] + [a];
      RunAppend(Step(s, acts[0]), acts[1..], a);
    }
  }

  lemma Then(acts: seq<Action>, a: Action) returns (more: seq<Action>)
    requires Run(Empty, acts) && Enabled(Exec(Empty, acts), a)
    ensures Run(Empty, more) && Exec(Empty, more) == Step(Exec(Empty, acts), a)
  {
    RunAppend(Empty, acts, a);
    more := acts + [a];
  }

  /** A row that was published, with no consumer at work on it. */
  predicate Settled(s: State, id: int, createdAt: int) {
    id in s.rows && s.rows[id] == Row(PUBLISHED, createdAt) && id in s.sent && s.markers == map[]
  }

  lemma PublishOne(id: int, createdAt: int) returns (acts: seq<Action>)
    ensures Run(Empty, acts) && Settled(Exec(Empty, acts), id, createdAt)
  {
    acts := Then([], CommitEvent(id, createdAt));
    acts := Then(acts, Announce(id));
    acts := Then(acts, DeliverToMarker(0, id));
    var s := Exec(Empty, acts);
    assert s.rows == map[id := Row(INIT, createdAt)] && s.sent == {id} && s.markers == map[0 := Finding(id)];
    acts := Then(acts, MarkFind(0));
    acts := Then(acts, MarkLook(0));
    acts := Then(acts, MarkWrite(0, createdAt));
  }

  lemma LateSave(acts: seq<Action>, id: int, createdAt: int, now: int) returns (more: seq<Action>)
    requires Run(Empty, acts) && Settled(Exec(Empty, acts), id, createdAt) && createdAt < now - KEEP_MS
    ensures Run(Empty, more)
    ensures id in Exec(Empty, more).removed && Settled(Exec(Empty, more), id, now)
  {
    more := Then(acts, DeliverToMarker(0, id));
    more := Then(more, MarkFind(0));
    more := Then(more, CleanUp(now));
    var s := Exec(Empty, more);
    assert id !in s.rows && id in s.removed && id in s.sent && s.markers == map[0 := Saving(id)];
    more := Then(more, MarkLook(0));
    more := Then(more, MarkWrite(0, now));
  }

  /** Deletion is not final: the clean-up can fall between a consumer's find and its save, and
      then the save inserts the deleted row again. */
  lemma RemovedRowReturns(id: int, createdAt: int, now: int) returns (acts: seq<Action>)
    requires createdAt < now - KEEP_MS
    ensures Run(Empty, acts)
    ensures id in Exec(Empty, acts).removed && id in Exec(Empty, acts).rows
  {
    acts := PublishOne(id, createdAt);
    acts := LateSave(acts, id, createdAt, now);
  }
}
