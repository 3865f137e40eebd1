/** The token queue service and its repositories as objects. */
module WaitingServices {
  import opened Common
  import opened WaitingRoom
  import opened ActivationRuns

  /** The place of a member, counted from one. */
  ghost predicate IsOrder(q: seq<Entry>, member: string, order: nat) {
    1 <= order <= |q| && q[order - 1].member == member
  }

  class WaitingTokenQueueRepository {
    var entries: seq<Entry>

    ghost predicate Valid()
      reads this
    {
      SortedSet(entries)
    }

    constructor ()
      ensures Valid() && entries == []
    {
      entries := [];
    }

    /** Insertion into the sorted set; a member that is in it stays where it is. */
    method Add(member: string, now: int)
      requires Valid()
      modifies this
      ensures Valid() && entries == AddNX(old(entries), Entry(now, member))
    {
      AddKeepsSorted(entries, Entry(now, member));
      var e, p, found := Entry(now, member), 0, false;
      var next := 0;
      while next < |entries|
        invariant 0 <= next <= |entries|
        invariant found <==> exists j | 0 <= j < next :: entries[j].member == member
        invariant unchanged(this)
      {
        found := found || entries[next].member == member;
        next := next + 1;
      }
      if found {
        return;
      }
      while p < |entries| && Before(entries[p], e)
        invariant 0 <= p <= |entries|
        invariant forall j | 0 <= j < p :: Before(entries[j], e)
        invariant unchanged(this)
      {
        p := p + 1;
      }
      InsertAtUnique(entries, e, p);
      entries := entries[..p] + [e] + entries[p..];
    }

    method GetOrder(member: string) returns (order: Option<nat>)
      requires Valid()
      ensures order.Some? <==> Waits(entries, member)
      ensures order.Some? ==> IsOrder(entries, member, order.value)
      ensures order.Some? ==> order.value == 1 + |Below(entries, entries[order.value - 1])|
    {
      var rank := 0;
      while rank < |entries| && entries[rank].member != member
        invariant 0 <= rank <= |entries|
        invariant forall j | 0 <= j < rank :: entries[j].member != member
      {
        rank := rank + 1;
      }
      if rank == |entries| {
        return None;
      }
      RankCounts(entries, rank);
      return Some(rank + 1);
    }

    method GetSize() returns (size: nat)
      ensures size == |entries|
    {
      size := |entries|;
    }

    /** The first count members, each at the place that its order says; all others, if there
        are any, sort behind every one of them. */
    method FindOldest(count: nat) returns (members: seq<string>)
      requires Valid()
      ensures |members| <= |entries| && |members| <= count
      ensures |members| == |entries| || |members| == count
      ensures forall j | 0 <= j < |members| :: IsOrder(entries, members[j], j + 1)
      ensures forall x, j | x in entries && x.member !in members && 0 <= j < |members| :: Before(entries[j], x)
    {
      var oldest := entries[..if |entries| < count then |entries| else count];
      members := Names(oldest);
      forall k | 0 <= k < |oldest|
        ensures entries[k].member in members
      {
        assert members[k] == oldest[k].member;
      }
    }

    method Remove(members: seq<string>)
      requires Valid()
      modifies this
      ensures Valid() && entries == Without(old(entries), Elements(members))
      ensures forall x :: x in entries <==> x in old(entries) && x.member !in members
    {
      forall x
        ensures x in Without(entries, Elements(members)) <==> x in entries && x.member !in members
      {
        WithoutMembers(entries, Elements(members), x);
      }
      WithoutSorted(entries, Elements(members));
      entries := Without(entries, Elements(members));
    }
  }

  /** The tokens after a batch has been admitted: live ones stay, and each other member of the
      batch has one of its own, issued now. */
  ghost predicate Admitted(before: map<string, Token>, after: map<string, Token>, members: seq<string>, now: int) {
    && after.Keys == before.Keys + Elements(members)
    && (forall m | m in before :: after[m] == before[m])
    && (forall m | m in members && m !in before :: after[m].member == m && after[m].issuedAt == now)
  }

  class ActiveTokenQueueRepository {
    var tokens: map<string, Token>

    constructor ()
      ensures tokens == map[]
    {
      tokens := map[];
    }

    /** Afterwards the member has a token: the one already held, or a new one of now. */
    method Add(member: string, now: int)
      modifies this
      ensures Admitted(old(tokens), tokens, [member], now)
    {
      if member !in tokens {
        tokens := tokens[member := Token(member, now)];
      }
    }

    method Remove(member: string)
      modifies this
      ensures tokens == old(tokens) - {member}
    {
      tokens := tokens - {member};
    }

    method FindOne(member: string) returns (token: Option<Token>)
      ensures token == if member in tokens then Some(tokens[member]) else None
    {
      if member in tokens {
        return Some(tokens[member]);
      }
      return None;
    }
  }

  datatype TokenQueue =
    | Active(token: Token)
    | Waiting(member: string, order: nat, estimateWaitingSec: nat)

  function CreateWaiting(member: string, order: nat): TokenQueue {
    Waiting(member, order, EstimateWaitingSec(order))
  }

  /** What somebody without a live token is told when the waiting room has become q' from q: if
      they waited already, the true order, and nothing has moved; otherwise they are in and are
      told the size, which is never below their true order and equals it exactly when all the
      others sort before them. The estimate belongs to the order told. */
  ghost predicate Answer(q: seq<Entry>, q': seq<Entry>, member: string, now: int, queue: TokenQueue) {
    && queue.Waiting? && queue.member == member
    && queue.estimateWaitingSec == Ceil(queue.order, 2000) * 10
    && q' == AddNX(q, Entry(now, member))
    && (Waits(q, member) ==> q' == q && IsOrder(q, member, queue.order))
    && (!Waits(q, member) ==>
          && queue.order == |q'| == |q| + 1
          && exists order: nat ::
               && IsOrder(q', member, order)
               && order == 1 + |Below(q', Entry(now, member))|
               && queue.order >= order
               && (queue.order == order <==> forall x | x in q :: Before(x, Entry(now, member))))
  }

  class TokenQueueService {
    const waiting: WaitingTokenQueueRepository
    const active: ActiveTokenQueueRepository

    constructor (waiting: WaitingTokenQueueRepository, active: ActiveTokenQueueRepository)
      ensures this.waiting == waiting && this.active == active
    {
      this.waiting, this.active := waiting, active;
    }

    method AddWaitingToken(member: string, now: int) returns (queue: TokenQueue)
      requires waiting.Valid()
      modifies waiting
      ensures waiting.Valid() && Answer(old(waiting.entries), waiting.entries, member, now, queue)
    {
      var order := waiting.GetOrder(member);
      if order.Some? {
        return CreateWaiting(member, order.value);
      }
      var e := Entry(now, member);
      ghost var q := waiting.entries;
      waiting.Add(member, now);
      var size := waiting.GetSize();
      ghost var p := InsertAt(q, e);
      assert waiting.entries[p] == e;
      RankCounts(waiting.entries, p);
      assert IsOrder(waiting.entries, member, p + 1);
      LastIffAllBefore(q, e);
      return CreateWaiting(member, size);
    }

    method GetWaitingToken(member: string) returns (r: Result<TokenQueue, ErrorCode>)
      requires waiting.Valid()
      ensures r.Success? <==> Waits(waiting.entries, member)
      ensures r.Success? ==>
                && r.value.Waiting? && r.value.member == member
                && IsOrder(waiting.entries, member, r.value.order)
                && r.value.estimateWaitingSec == Ceil(r.value.order, 2000) * 10
      ensures r.Failure? ==> r.error == WaitingTokenNotFound
    {
      var order := waiting.GetOrder(member);
      if order.None? {
        return Failure(WaitingTokenNotFound);
      }
      return Success(CreateWaiting(member, order.value));
    }

    /** One conditional set for each member of the batch. */
    method Admit(members: seq<string>, now: int)
      modifies active
      ensures Admitted(old(active.tokens), active.tokens, members, now)
    {
      var next := 0;
      while next < |members|
        invariant 0 <= next <= |members|
        invariant Admitted(old(active.tokens), active.tokens, members[..next], now)
      {
        active.Add(members[next], now);
        assert members[..next + 1] == members[..next] + [members[next]];
        assert Elements(members[..next + 1]) == Elements(members[..next]) + {members[next]};
        next := next + 1;
      }
      assert members[..|members|] == members;
    }

    /** Admits the 2000 first, or all if there are fewer, and leaves the others as they are. */
    method ActivateQueues(now: int)
      requires waiting.Valid()
      modifies waiting, active
      ensures waiting.Valid() && waiting.entries == Activate(old(waiting.entries))
      ensures var q := old(waiting.entries); waiting.entries == if |q| < 2000 then [] else q[2000..]
      ensures var q := old(waiting.entries);
              Admitted(old(active.tokens), active.tokens, Names(q[..BatchSize(q)]), now)
    {
      ghost var q := waiting.entries;
      ActivationIsFair(q);
      NamesAreMembers(q[..BatchSize(q)]);
      var members := waiting.FindOldest(QUEUE_THROUGHPUT);
      assert members == Names(q[..BatchSize(q)]);
      if |members| == 0 {
        return;
      }
      Admit(members, now);
      waiting.Remove(members);
    }

    method Expire(member: string)
      modifies active
      ensures active.tokens == old(active.tokens) - {member}
    {
      active.Remove(member);
    }
  }

  /** An entry is inserted at the end exactly when all others sort before it. */
  lemma LastIffAllBefore(q: seq<Entry>, e: Entry)
    ensures InsertAt(q, e) == |q| <==> forall x | x in q :: Before(x, e)
  {
    if InsertAt(q, e) < |q| {
      assert q[InsertAt(q, e)] in q;
    }
  }

  class EnqueueTokenQueueUseCase {
    const service: TokenQueueService

    constructor (service: TokenQueueService)
      ensures this.service == service
    {
      this.service := service;
    }

    /** Somebody with a live token gets it back and does not enter the waiting room; anybody else
        waits and is told their order and estimate. */
    method Execute(member: string, now: int) returns (queue: TokenQueue)
      requires service.waiting.Valid()
      modifies service.waiting
      ensures service.waiting.Valid()
      ensures member in service.active.tokens ==>
                && queue == Active(service.active.tokens[member])
                && service.waiting.entries == old(service.waiting.entries)
      ensures member !in service.active.tokens ==>
                Answer(old(service.waiting.entries), service.waiting.entries, member, now, queue)
    {
      var token := service.active.FindOne(member);
      if token.Some? {
        return Active(token.value);
      }
      queue := service.AddWaitingToken(member, now);
    }
  }
}
