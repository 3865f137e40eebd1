/** The outbox service, the resend job and the consumers as objects. Run with nothing beside
    it, each consumer is a sequence of steps of the relay. */
module OutboxServices {
  import opened Common
  import opened Domain
  import opened Relay

  // ---- Specifications on the tables ----

  /** A delivered message marks its row. */
  function Mark(rows: map<int, Row>, id: int): map<int, Row> {
    if id in rows then Publish(rows, id) else rows
  }

  /** The elements of a set, each once, in no particular order. */
  method Listed(elements: set<int>) returns (list: seq<int>)
    ensures forall k :: k in list <==> k in elements
    ensures forall j, k | 0 <= j < k < |list| :: list[j] != list[k]
  {
    list := [];
    var left := elements;
    while left != {}
      invariant left <= elements
      invariant forall k :: k in list <==> k in elements && k !in left
      invariant forall j, k | 0 <= j < k < |list| :: list[j] != list[k]
      decreases left
    {
      SomeElement(left);
      var next :| next in left;
      list, left := list + [next], left - {next};
    }
  }

  // ---- Objects ----

  class OutboxEntry {
    const id: int
    var status: OutboxStatus

    constructor (id: int, status: OutboxStatus)
      ensures this.id == id && this.status == status
    {
      this.id, this.status := id, status;
    }

    method ToPublished()
      modifies this
      ensures status == PUBLISHED
    {
      status := PUBLISHED;
    }
  }

  predicate PublishedBefore(row: Row, date: int) {
    row.status == PUBLISHED && row.createdAt < date
  }

  class OutboxRepository {
    var rows: map<int, Row>

    constructor (rows: map<int, Row>)
      ensures this.rows == rows
    {
      this.rows := rows;
    }

    method FindOneById(id: int) returns (entry: OutboxEntry?)
      ensures entry != null <==> id in rows
      ensures entry != null ==> fresh(entry) && entry.id == id && entry.status == rows[id].status
    {
      if id in rows {
        entry := new OutboxEntry(id, rows[id].status);
      } else {
        entry := null;
      }
    }

    /** Update the row with the entry's id, or insert one. */
    method Save(entry: OutboxEntry, now: int)
      modifies this
      ensures rows == old(rows)[entry.id :=
                Row(entry.status, if entry.id in old(rows) then old(rows)[entry.id].createdAt else now)]
    {
      if entry.id in rows {
        rows := rows[entry.id := Row(entry.status, rows[entry.id].createdAt)];
      } else {
        rows := rows[entry.id := Row(entry.status, now)];
      }
    }

    /** The matching ids, each once, in no particular order. */
    method FindInitCreatedBefore(date: int) returns (ids: seq<int>)
      ensures forall k :: k in ids <==> k in rows && rows[k].status == INIT && rows[k].createdAt < date
      ensures forall j, k | 0 <= j < k < |ids| :: ids[j] != ids[k]
    {
      ids := Listed(set k | k in rows && rows[k].status == INIT && rows[k].createdAt < date);
    }

    method RemovePublishedCreatedBefore(date: int)
      modifies this
      ensures rows == old(rows) - (set k | k in old(rows) && PublishedBefore(old(rows)[k], date))
    {
      rows := map k | k in rows && !PublishedBefore(rows[k], date) :: rows[k];
    }
  }

  class OutboxService {
    const repository: OutboxRepository

    constructor (repository: OutboxRepository)
      ensures this.repository == repository
    {
      this.repository := repository;
    }

    method ToPublished(id: int, now: int) returns (r: Result<(), ErrorCode>)
      modifies repository
      ensures r == if id in old(repository.rows) then Success(()) else Failure(OutboxNotFound)
      ensures repository.rows == Mark(old(repository.rows), id)
    {
      var entry := repository.FindOneById(id);
      if entry == null {
        return Failure(OutboxNotFound);
      }
      entry.ToPublished();
      repository.Save(entry, now);
      return Success(());
    }

    method FindFailed(now: int) returns (ids: seq<int>)
      ensures forall k :: k in ids <==> k in Failed(repository.rows, now)
      ensures forall j, k | 0 <= j < k < |ids| :: ids[j] != ids[k]
    {
      ids := repository.FindInitCreatedBefore(now - 1000 * 60 * 3);
    }

    method RemoveOldPublishedOutboxes(now: int)
      modifies repository
      ensures repository.rows == old(repository.rows) - Old(old(repository.rows), now)
    {
      repository.RemovePublishedCreatedBefore(now - 1000 * 60 * 60 * 24 * 10);
    }
  }

  class MessageBus {
    var messages: seq<int>

    constructor ()
      ensures messages == []
    {
      messages := [];
    }

    method Emit(id: int)
      modifies this
      ensures messages == old(messages) + [id]
    {
      messages := messages + [id];
    }
  }

  class HandleFailedOutboxesUseCase {
    const service: OutboxService
    const bus: MessageBus

    constructor (service: OutboxService, bus: MessageBus)
      ensures this.service == service && this.bus == bus
    {
      this.service, this.bus := service, bus;
    }

    /** One message for each failed row, and none for any other. */
    method Execute(now: int) returns (ghost resent: seq<int>)
      modifies bus
      ensures bus.messages == old(bus.messages) + resent
      ensures forall k :: k in resent <==> k in Failed(service.repository.rows, now)
      ensures forall j, k | 0 <= j < k < |resent| :: resent[j] != resent[k]
    {
      var failed := service.FindFailed(now);
      resent := failed;
      var next := 0;
      while next < |failed|
        invariant 0 <= next <= |failed|
        invariant bus.messages == old(bus.messages) + failed[..next]
      {
        bus.Emit(failed[next]);
        assert failed[..next + 1] == failed[..next] + [failed[next]];
        next := next + 1;
      }
      assert failed[..|failed|] == failed;
    }
  }

  class DataPlatformConsumer {
    var processed: map<int, ProcessedStatus>
    var calls: seq<int>

    constructor ()
      ensures processed == map[] && calls == []
    {
      processed, calls := map[], [];
    }

    /** Handles one message. A failed call is caught and still counts as processed. */
    method Send(id: int, callFails: bool) returns (r: Result<(), ErrorCode>)
      modifies this
      ensures id in old(processed) ==>
                r == Failure(InternalServerError) && processed == old(processed) && calls == old(calls)
      ensures id !in old(processed) ==>
                r == Success(()) && processed == old(processed)[id := SUCCESS] && calls == old(calls) + [id]
    {
      if id in processed {
        return Failure(InternalServerError);
      }
      processed := processed[id := RECEIVED];
      var answer := Call(id, callFails);
      if answer.Failure? {
        // nothing to compensate
      }
      processed := processed[id := SUCCESS];
      return Success(());
    }

    method Call(id: int, callFails: bool) returns (answer: Result<(), ErrorCode>)
      modifies this`calls
      ensures calls == old(calls) + [id]
      ensures answer.Failure? <==> callFails
    {
      calls := calls + [id];
      return if callFails then Failure(InternalServerError) else Success(());
    }
  }

  // ---- The objects and the relay ----

  /** An undisturbed delivery to the outbox consumer is the service's toPublished. */
  lemma MarkIsSteps(s: State, pid: nat, now: int)
    requires pid in s.markers && s.markers[pid].Finding?
    ensures var id := s.markers[pid].id;
            if id in s.rows then
              && Run(s, [MarkFind(pid), MarkLook(pid), MarkWrite(pid, now)])
              && Exec(s, [MarkFind(pid), MarkLook(pid), MarkWrite(pid, now)]).rows == Mark(s.rows, id)
              && pid !in Exec(s, [MarkFind(pid), MarkLook(pid), MarkWrite(pid, now)]).markers
            else
              && Run(s, [MarkFind(pid)])
              && Exec(s, [MarkFind(pid)]).rows == Mark(s.rows, id)
              && id in Exec(s, [MarkFind(pid)]).missing && pid !in Exec(s, [MarkFind(pid)]).markers
  {
    var id := s.markers[pid].id;
    if id in s.rows {
      ThreeSteps(s, MarkFind(pid), MarkLook(pid), MarkWrite(pid, now));
    }
  }

  /** An undisturbed delivery to the data platform consumer is its Send. */
  lemma SendIsSteps(s: State, pid: nat)
    requires pid in s.deliveries && s.deliveries[pid].Received?
    ensures var id := s.deliveries[pid].id;
            if id in s.processed then
              && Run(s, [Register(pid)])
              && Exec(s, [Register(pid)]).processed == s.processed && Exec(s, [Register(pid)]).calls == s.calls
              && pid !in Exec(s, [Register(pid)]).deliveries
            else
              && Run(s, [Register(pid), Call(pid), Succeed(pid)])
              && Exec(s, [Register(pid), Call(pid), Succeed(pid)]).processed == s.processed[id := SUCCESS]
              && Exec(s, [Register(pid), Call(pid), Succeed(pid)]).calls == s.calls + multiset{id}
              && pid !in Exec(s, [Register(pid), Call(pid), Succeed(pid)]).deliveries
  {
    if s.deliveries[pid].id !in s.processed {
      ThreeSteps(s, Register(pid), Call(pid), Succeed(pid));
    }
  }
}
