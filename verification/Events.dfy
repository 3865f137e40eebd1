/** Each committed booking or payment writes exactly one outbox row, in the same transaction. */
module Events {
  import opened Common
  import opened Domain
  import opened Serial
  import opened Interleaving
  import opened Serializability
  import Relay

  predicate HasEvent(i: Input) {
    i.Book? || i.Pay?
  }

  function EventIds(log: seq<Input>): set<int> {
    if log == [] then {}
    else
      var last := log[|log| - 1];
      EventIds(log[..|log| - 1]) + if HasEvent(last) then {last.outboxId} else {}
  }

  function EventCount(log: seq<Input>): nat {
    if log == [] then 0
    else EventCount(log[..|log| - 1]) + if HasEvent(log[|log| - 1]) then 1 else 0
  }

  /** The row that a request commits, as its outbox message carries it. */
  function MessageOf(after: Db, i: Input): Option<Message> {
    match i
    case Book(_, _, _, _, _, _, _, _, newBookingId, _, _) =>
      if newBookingId in after.bookings then Some(BookingCompleted(after.bookings[newBookingId])) else None
    case Pay(_, _, _, _, _, _, paymentId, _, _) =>
      if paymentId in after.payments then Some(PaymentCompleted(after.payments[paymentId])) else None
    case Charge(_, _, _, _) => None
  }

  /** The outbox row that it commits with it. */
  function EventRow(after: Db, i: Input): Outbox
    requires HasEvent(i) && MessageOf(after, i).Some?
  {
    Outbox(i.outboxId, MessageOf(after, i).value, INIT, i.outboxAt)
  }

  lemma AloneEvent(db: Db, i: Input)
    requires FreshIds(db, i) && Alone(db, i).Success?
    ensures var db' := Alone(db, i).value;
            && (!HasEvent(i) ==> db'.outbox == db.outbox)
            && (HasEvent(i) ==>
                  && i.outboxId !in db.outbox
                  && MessageOf(db', i).Some?
                  && db'.outbox == db.outbox[i.outboxId := EventRow(db', i)])
  {
  }

  /** db' has the outbox rows of db and new ones under the given ids. */
  ghost predicate Grown(db: Db, db': Db, ids: set<int>, count: nat) {
    && db'.outbox.Keys == db.outbox.Keys + ids
    && |db'.outbox| == |db.outbox| + count
    && forall k | k in db.outbox :: db'.outbox[k] == db.outbox[k]
  }

  lemma GrownByOne(db: Db, db': Db, id: int, row: Outbox)
    requires id !in db.outbox && db'.outbox == db.outbox[id := row]
    ensures Grown(db, db', {id}, 1)
  {
    assert db'.outbox.Keys == db.outbox.Keys + {id};
  }

  lemma AloneGrows(db: Db, i: Input)
    requires FreshIds(db, i) && Alone(db, i).Success?
    ensures Grown(db, Alone(db, i).value, if HasEvent(i) then {i.outboxId} else {}, if HasEvent(i) then 1 else 0)
  {
    AloneEvent(db, i);
    if HasEvent(i) {
      GrownByOne(db, Alone(db, i).value, i.outboxId, EventRow(Alone(db, i).value, i));
    }
  }

  lemma GrownThen(db: Db, mid: Db, db': Db, ids: set<int>, count: nat, ids': set<int>, count': nat)
    requires Grown(db, mid, ids, count) && Grown(mid, db', ids', count')
    ensures Grown(db, db', ids + ids', count + count')
  {
  }

  lemma {:induction false} ReplayEvents(db: Db, log: seq<Input>)
    requires Replay(db, log).Success?
    ensures Grown(db, Replay(db, log).value, EventIds(log), EventCount(log))
  {
    if log != [] {
      var init, last := log[..|log| - 1], log[|log| - 1];
      ReplayEvents(db, init);
      ReplayLast(db, log);
      var mid := Replay(db, init).value;
      AloneGrows(mid, last);
      GrownThen(db, mid, Alone(mid, last).value, EventIds(init), EventCount(init),
                if HasEvent(last) then {last.outboxId} else {}, if HasEvent(last) then 1 else 0);
    }
  }

  /** After any interleaving the outbox holds the old rows and one new INIT row for each
      committed booking and payment, and that row carries what the transaction committed. */
  lemma OneEventEach(s0: State, acts: seq<Action>, log: seq<Input>, j: nat)
    requires Commits(s0, acts, log) && j < |log|
    ensures var db := Exec(s0, acts).db;
            && Grown(s0.db, db, EventIds(log), EventCount(log))
            && (HasEvent(log[j]) ==>
                  && log[j].outboxId in db.outbox && log[j].outboxId !in s0.db.outbox
                  && Replay(s0.db, log[..j + 1]).Success?
                  && Some(db.outbox[log[j].outboxId].message) == MessageOf(DbAt(s0.db, log, j + 1), log[j])
                  && db.outbox[log[j].outboxId].status == INIT)
  {
    CommitsReplay(s0, acts, log);
    EventOfEntry(s0.db, log, j);
  }

  lemma EventOfEntry(db: Db, log: seq<Input>, j: nat)
    requires Replay(db, log).Success? && j < |log|
    ensures var db' := Replay(db, log).value;
            && Grown(db, db', EventIds(log), EventCount(log))
            && (HasEvent(log[j]) ==>
                  && log[j].outboxId in db'.outbox && log[j].outboxId !in db.outbox
                  && Replay(db, log[..j + 1]).Success?
                  && Some(db'.outbox[log[j].outboxId].message) == MessageOf(DbAt(db, log, j + 1), log[j])
                  && db'.outbox[log[j].outboxId].status == INIT)
  {
    ReplayEvents(db, log);
    ReplayAt(db, log, j);
    AloneEvent(DbAt(db, log, j), log[j]);
    ReplayEvents(db, log[..j]);
    ReplayPrefix(db, log, j + 1);
    ReplayEvents(DbAt(db, log, j + 1), log[j + 1..]);
  }

  /** The outbox table as the relay sees it. */
  function RelayRows(db: Db): map<int, Relay.Row> {
    map k | k in db.outbox :: Relay.Row(db.outbox[k].status, db.outbox[k].createdAt)
  }

  lemma CommitEffects(s: State, db0: Db, tid: TxnId)
    requires Inv(s, db0) && Enabled(s, Commit(tid))
    ensures FreshIds(s.db, s.txns[tid].input)
    ensures Alone(s.db, s.txns[tid].input) == Success(Step(s, Commit(tid)).db)
  {
    assert TxnInv(s.db, s.txns[tid]);
    EffectsAreAlone(s.db, s.txns[tid]);
  }

  /** Seen from the relay, a step of the booking transactions is nothing or one CommitEvent
      with an id that the table has not held. */
  lemma StepIsRelayCommit(s: State, db0: Db, a: Action)
    requires Inv(s, db0) && Enabled(s, a)
    ensures
      if a.Commit? && HasEvent(s.txns[a.tid].input) then
        var i := s.txns[a.tid].input;
        && i.outboxId !in RelayRows(s.db)
        && RelayRows(Step(s, a).db) == RelayRows(s.db)[i.outboxId := Relay.Row(INIT, i.outboxAt)]
      else
        RelayRows(Step(s, a).db) == RelayRows(s.db)
  {
    if a.Commit? {
      CommitEffects(s, db0, a.tid);
      RelayCommit(s.db, s.txns[a.tid].input);
    } else {
      assert Step(s, a).db == s.db;
    }
  }

  lemma RelayCommit(db: Db, i: Input)
    requires FreshIds(db, i) && Alone(db, i).Success?
    ensures var db' := Alone(db, i).value;
            if HasEvent(i) then
              i.outboxId !in RelayRows(db) && RelayRows(db') == RelayRows(db)[i.outboxId := Relay.Row(INIT, i.outboxAt)]
            else
              RelayRows(db') == RelayRows(db)
  {
    AloneEvent(db, i);
  }

  // ---- The transactions and the relay together ----

  /** The server's transactions and the relay on one outbox table: a step of either. */
  datatype Joint = Joint(server: State, relay: Relay.State)

  datatype Move = OfServer(a: Action) | OfRelay(b: Relay.Action)

  /** What the relay sees of a move: the commit of a booking or payment is a commit of its row. */
  function Seen(s: State, m: Move): seq<Relay.Action>
    requires m.OfServer? ==> Enabled(s, m.a)
  {
    match m
    case OfRelay(b) => [b]
    case OfServer(a) =>
      if a.Commit? && HasEvent(s.txns[a.tid].input) then
        [Relay.CommitEvent(s.txns[a.tid].input.outboxId, s.txns[a.tid].input.outboxAt)]
      else []
  }

  /** Rows are committed by transactions only. */
  predicate Can(c: Joint, m: Move) {
    && (m.OfServer? ==> Enabled(c.server, m.a))
    && (m.OfRelay? ==> !m.b.CommitEvent?)
    && Relay.Run(c.relay, Seen(c.server, m))
  }

  function Do(c: Joint, m: Move): Joint
    requires Can(c, m)
  {
    Joint(if m.OfServer? then Step(c.server, m.a) else c.server, Relay.Exec(c.relay, Seen(c.server, m)))
  }

  predicate JointRun(c: Joint, moves: seq<Move>)
    decreases |moves|
  {
    moves == [] || (Can(c, moves[0]) && JointRun(Do(c, moves[0]), moves[1..]))
  }

  function JointExec(c: Joint, moves: seq<Move>): Joint
    requires JointRun(c, moves)
    decreases |moves|
  {
    if moves == [] then c else JointExec(Do(c, moves[0]), moves[1..])
  }

  /** The relay's table holds what was committed and not cleaned up, and a row that has not
      been published is as the transaction left it. */
  ghost predicate SameOutbox(db: Db, r: Relay.State) {
    && r.issued == db.outbox.Keys
    && forall id | id in r.rows && id !in r.published :: id in db.outbox && r.rows[id] == RelayRows(db)[id]
  }

  ghost predicate JointInv(c: Joint, db0: Db) {
    && Inv(c.server, db0)
    && Relay.CallsInv(c.relay) && Relay.RowsInv(c.relay)
    && SameOutbox(c.server.db, c.relay)
  }

  lemma SeenIsOne(c: Joint, m: Move)
    requires Can(c, m) && Seen(c.server, m) != []
    ensures Relay.Enabled(c.relay, Seen(c.server, m)[0])
    ensures Do(c, m).relay == Relay.Step(c.relay, Seen(c.server, m)[0])
  {
    var seen := Seen(c.server, m);
    assert seen == [seen[0]];
    Relay.OneStep(c.relay, seen[0]);
  }

  /** A step of the relay's own leaves a row that is not published as it is, and adds none. */
  lemma UnpublishedRow(r: Relay.State, b: Relay.Action, id: int)
    requires Relay.RowsInv(r) && Relay.Enabled(r, b) && !b.CommitEvent?
    requires id in Relay.Step(r, b).rows && id !in Relay.Step(r, b).published
    ensures id in r.rows && id !in r.published && Relay.Step(r, b).rows[id] == r.rows[id]
  {
    Relay.PublishedGrows(r, b);
    Relay.RowsStep(r, b);
    if id in r.rows {
      Relay.RowFate(r, b, id);
    } else {
      Relay.RowOrigin(r, b, id);
    }
  }

  lemma RelayKeepsOutbox(db: Db, r: Relay.State, b: Relay.Action)
    requires Relay.RowsInv(r) && SameOutbox(db, r) && Relay.Enabled(r, b) && !b.CommitEvent?
    ensures SameOutbox(db, Relay.Step(r, b))
  {
    var r' := Relay.Step(r, b);
    forall id | id in r'.rows && id !in r'.published
      ensures id in db.outbox && r'.rows[id] == RelayRows(db)[id]
    {
      UnpublishedRow(r, b, id);
    }
  }

  lemma CommitAddsRow(db: Db, db': Db, r: Relay.State, id: int, at: int)
    requires SameOutbox(db, r) && Relay.Enabled(r, Relay.CommitEvent(id, at))
    requires RelayRows(db') == RelayRows(db)[id := Relay.Row(INIT, at)]
    ensures SameOutbox(db', Relay.Step(r, Relay.CommitEvent(id, at)))
  {
    assert db'.outbox.Keys == RelayRows(db').Keys && db.outbox.Keys == RelayRows(db).Keys;
  }

  lemma SameRows(db: Db, db': Db, r: Relay.State)
    requires SameOutbox(db, r) && RelayRows(db') == RelayRows(db)
    ensures SameOutbox(db', r)
  {
    assert db'.outbox.Keys == RelayRows(db').Keys && db.outbox.Keys == RelayRows(db).Keys;
  }

  lemma CommitKeepsOutbox(c: Joint, db0: Db, a: Action)
    requires JointInv(c, db0) && Can(c, OfServer(a))
    ensures var c' := Do(c, OfServer(a)); SameOutbox(c'.server.db, c'.relay)
  {
    StepIsRelayCommit(c.server, db0, a);
    if Seen(c.server, OfServer(a)) == [] {
      SameRows(c.server.db, Step(c.server, a).db, c.relay);
    } else {
      var i := c.server.txns[a.tid].input;
      SeenIsOne(c, OfServer(a));
      CommitAddsRow(c.server.db, Step(c.server, a).db, c.relay, i.outboxId, i.outboxAt);
    }
  }

  lemma DoInv(c: Joint, db0: Db, m: Move)
    requires JointInv(c, db0) && Can(c, m)
    ensures JointInv(Do(c, m), db0)
  {
    match m
    case OfServer(a) =>
      StepInv(c.server, db0, a);
      CommitKeepsOutbox(c, db0, a);
      if Seen(c.server, m) != [] {
        SeenIsOne(c, m);
        Relay.CallsStep(c.relay, Seen(c.server, m)[0]);
        Relay.RowsStep(c.relay, Seen(c.server, m)[0]);
      }
    case OfRelay(b) =>
      SeenIsOne(c, m);
      Relay.CallsStep(c.relay, b);
      Relay.RowsStep(c.relay, b);
      RelayKeepsOutbox(c.server.db, c.relay, b);
  }

  lemma {:induction false} JointRunInv(c: Joint, db0: Db, moves: seq<Move>)
    requires JointInv(c, db0) && JointRun(c, moves)
    ensures JointInv(JointExec(c, moves), db0)
    decreases |moves|
  {
    if moves != [] {
      DoInv(c, db0, moves[0]);
      JointRunInv(Do(c, moves[0]), db0, moves[1..]);
    }
  }

  lemma JointStart(s0: State)
    requires Initial(s0) && s0.db.outbox == map[]
    ensures JointInv(Joint(s0, Relay.Empty), s0.db)
  {
    InitialInv(s0);
  }

  function ServerMoves(moves: seq<Move>): seq<Action>
    decreases |moves|
  {
    if moves == [] then [] else (if moves[0].OfServer? then [moves[0].a] else []) + ServerMoves(moves[1..])
  }

  lemma {:induction false} JointServer(c: Joint, moves: seq<Move>)
    requires JointRun(c, moves)
    ensures Run(c.server, ServerMoves(moves))
    ensures Exec(c.server, ServerMoves(moves)) == JointExec(c, moves).server
    decreases |moves|
  {
    if moves != [] {
      JointServer(Do(c, moves[0]), moves[1..]);
      if moves[0].OfServer? {
        assert ServerMoves(moves)[1..] == ServerMoves(moves[1..]);
      } else {
        assert ServerMoves(moves) == ServerMoves(moves[1..]);
      }
    }
  }

  lemma IdNeverIssued(db: Db, r: Relay.State, id: int)
    requires SameOutbox(db, r)
    ensures id in r.issued <==> id in RelayRows(db)
  {
  }

  lemma ReadyForCommit(c: Joint, db0: Db, a: Action)
    requires JointInv(c, db0)
    ensures Can(c, OfServer(a)) <==> Enabled(c.server, a)
  {
    if Enabled(c.server, a) && Seen(c.server, OfServer(a)) != [] {
      StepIsRelayCommit(c.server, db0, a);
      var seen := Seen(c.server, OfServer(a));
      assert seen == [seen[0]];
      IdNeverIssued(c.server.db, c.relay, seen[0].id);
      Relay.OneStep(c.relay, seen[0]);
    }
  }

  /** The relay never stands in the way: after any joint run, whatever step the transactions can
      take they can take with the relay beside them, and a row they commit has an id that was
      never issued before. */
  lemma RelayNeverBlocks(s0: State, moves: seq<Move>, a: Action)
    requires Initial(s0) && s0.db.outbox == map[] && JointRun(Joint(s0, Relay.Empty), moves)
    ensures var c := JointExec(Joint(s0, Relay.Empty), moves); Can(c, OfServer(a)) <==> Enabled(c.server, a)
  {
    JointStart(s0);
    JointRunInv(Joint(s0, Relay.Empty), s0.db, moves);
    ReadyForCommit(JointExec(Joint(s0, Relay.Empty), moves), s0.db, a);
  }

  /** The transactions in a joint run are a run of their own, and the outbox that they see and
      the one that the relay sees are one: the relay has been given exactly the rows of the
      committed bookings and payments, and a row not yet published is as it was committed. */
  lemma RunsTogether(s0: State, moves: seq<Move>)
    requires Initial(s0) && s0.db.outbox == map[] && JointRun(Joint(s0, Relay.Empty), moves)
    ensures var c := JointExec(Joint(s0, Relay.Empty), moves);
            && Run(s0, ServerMoves(moves)) && Exec(s0, ServerMoves(moves)) == c.server
            && LogMatches(c.server)
            && c.relay.issued == EventIds(History(c.server))
            && SameOutbox(c.server.db, c.relay)
  {
    var c := JointExec(Joint(s0, Relay.Empty), moves);
    JointServer(Joint(s0, Relay.Empty), moves);
    JointStart(s0);
    JointRunInv(Joint(s0, Relay.Empty), s0.db, moves);
    ReplayEvents(s0.db, History(c.server));
  }

  lemma {:induction false} EntryOfEvent(log: seq<Input>, id: int)
    requires id in EventIds(log)
    ensures exists j :: 0 <= j < |log| && HasEvent(log[j]) && log[j].outboxId == id
  {
    var init, last := log[..|log| - 1], log[|log| - 1];
    if id in EventIds(init) {
      EntryOfEvent(init, id);
      var j :| 0 <= j < |init| && HasEvent(init[j]) && init[j].outboxId == id;
      assert log[j] == init[j];
    } else {
      assert log[|log| - 1].outboxId == id;
    }
  }

  lemma EventsDistinct(db: Db, log: seq<Input>)
    requires db.outbox == map[] && Replay(db, log).Success?
    ensures |EventIds(log)| == EventCount(log)
  {
    ReplayEvents(db, log);
    var db' := Replay(db, log).value;
    assert db'.outbox.Keys == EventIds(log);
    assert |db'.outbox| == |db'.outbox.Keys|;
  }

  /** At-most-once, for bookings and payments. In every joint run, transactions interleaved with
      announcements, resends, deliveries, consumers, clean-ups and crashes: each committed
      booking or payment has an id of its own, an id is sent to the data platform at most once
      and only when the booking or payment that has it is committed, and SUCCESS is recorded
      only for one that was sent. */
  lemma CommittedAtMostOnce(s0: State, moves: seq<Move>, id: int)
    requires Initial(s0) && s0.db.outbox == map[] && JointRun(Joint(s0, Relay.Empty), moves)
    ensures var c := JointExec(Joint(s0, Relay.Empty), moves);
            && LogMatches(c.server)
            && var log, r := History(c.server), c.relay;
               && |EventIds(log)| == EventCount(log)
               && r.calls[id] <= 1
               && (r.calls[id] > 0 ==> exists j :: 0 <= j < |log| && HasEvent(log[j]) && log[j].outboxId == id)
               && (id in r.processed && r.processed[id] == Relay.SUCCESS ==> r.calls[id] == 1)
  {
    var c := JointExec(Joint(s0, Relay.Empty), moves);
    RunsTogether(s0, moves);
    JointStart(s0);
    JointRunInv(Joint(s0, Relay.Empty), s0.db, moves);
    EventsDistinct(s0.db, History(c.server));
    if c.relay.calls[id] > 0 {
      assert id in c.relay.sent && c.relay.sent <= c.relay.issued;
      EntryOfEvent(History(c.server), id);
    }
  }
}
