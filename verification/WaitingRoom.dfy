/** The waiting room: a sorted set of (score, member) entries that is drained from the front,
    2000 members at a time. The sorted set is kept as a sorted sequence. */
module WaitingRoom {
  datatype Entry = Entry(score: int, member: string)

  /** Members admitted by one activation, and the constant the estimate divides by. */
  const QUEUE_THROUGHPUT: nat := 2000
  const THROUGHPUT_PER_10_SEC: nat := 2000

  // ---- The order of a sorted set ----

  predicate LexLess(a: string, b: string) {
    b != [] && (a == [] || a[0] < b[0] || (a[0] == b[0] && LexLess(a[1..], b[1..])))
  }

  /** By score, and by member where scores tie. */
  predicate Before(x: Entry, y: Entry) {
    x.score < y.score || (x.score == y.score && LexLess(x.member, y.member))
  }

  lemma {:induction false} LexTransitive(a: string, b: string, c: string)
    requires LexLess(a, b) && LexLess(b, c)
    ensures LexLess(a, c)
    decreases |a|
  {
    if a != [] && a[0] == b[0] == c[0] {
      LexTransitive(a[1..], b[1..], c[1..]);
    }
  }

  lemma {:induction false} LexTotal(a: string, b: string)
    ensures LexLess(a, b) || LexLess(b, a) || a == b
    ensures !(LexLess(a, b) && LexLess(b, a))
    ensures a == b ==> !LexLess(a, b)
    decreases |a|
  {
    if a != [] && b != [] {
      LexTotal(a[1..], b[1..]);
      assert a == [a[0]] + a[1..] && b == [b[0]] + b[1..];
    }
  }

  /** The strings are the same up to p, where a ends or has the smaller character. */
  predicate SmallerAt(a: string, b: string, p: nat) {
    p <= |a| && p < |b| && a[..p] == b[..p] && (p == |a| || a[p] < b[p])
  }

  /** The members are compared as in a dictionary. */
  lemma {:induction false} LexExactly(a: string, b: string)
    ensures LexLess(a, b) <==> exists p :: SmallerAt(a, b, p)
    decreases |a|
  {
    if a == [] || b == [] || a[0] != b[0] {
      if LexLess(a, b) {
        assert SmallerAt(a, b, 0);
      }
      if p: nat :| SmallerAt(a, b, p) {
        assert p > 0 ==> a[..p][0] == b[..p][0];
      }
    } else {
      LexExactly(a[1..], b[1..]);
      if p: nat :| SmallerAt(a[1..], b[1..], p) {
        LexLonger(a, b, p);
      }
      if p: nat :| SmallerAt(a, b, p) {
        LexShorter(a, b, p);
      }
    }
  }

  lemma LexLonger(a: string, b: string, p: nat)
    requires a != [] && b != [] && a[0] == b[0] && SmallerAt(a[1..], b[1..], p)
    ensures SmallerAt(a, b, p + 1)
  {
    assert a[..p + 1] == [a[0]] + a[1..][..p] && b[..p + 1] == [b[0]] + b[1..][..p];
  }

  lemma LexShorter(a: string, b: string, p: nat)
    requires a != [] && b != [] && a[0] == b[0] && SmallerAt(a, b, p)
    ensures p > 0 && SmallerAt(a[1..], b[1..], p - 1)
  {
    assert a[1..][..p - 1] == a[..p][1..] && b[1..][..p - 1] == b[..p][1..];
  }

  /** First come, first served: whoever joined earlier is ahead, and at the same time whoever
      has the smaller name. */
  lemma OrderOfService(x: Entry, y: Entry)
    ensures x.score < y.score ==> Before(x, y) && !Before(y, x)
    ensures x.score == y.score ==> (Before(x, y) <==> exists p :: SmallerAt(x.member, y.member, p))
  {
    LexExactly(x.member, y.member);
  }

  lemma BeforeOrder(x: Entry, y: Entry, z: Entry)
    ensures Before(x, y) && Before(y, z) ==> Before(x, z)
    ensures !(Before(x, y) && Before(y, x)) && !Before(x, x)
    ensures x.member != y.member ==> Before(x, y) || Before(y, x)
  {
    LexTotal(x.member, y.member);
    LexTotal(x.member, x.member);
    if LexLess(x.member, y.member) && LexLess(y.member, z.member) {
      LexTransitive(x.member, y.member, z.member);
    }
  }

  ghost predicate SortedSet(q: seq<Entry>) {
    && (forall j, k | 0 <= j < k < |q| :: Before(q[j], q[k]))
    && (forall j, k | 0 <= j < k < |q| :: q[j].member != q[k].member)
  }

  predicate Waits(q: seq<Entry>, member: string) {
    exists j | 0 <= j < |q| :: q[j].member == member
  }

  // ---- Rank ----

  /** The entries of q that sort before e. */
  ghost function Below(q: seq<Entry>, e: Entry): set<Entry> {
    set x | x in q && Before(x, e)
  }

  lemma {:induction false} DistinctCount(q: seq<Entry>)
    requires SortedSet(q)
    ensures |set x | x in q| == |q|
    decreases |q|
  {
    if q != [] {
      var init, last := q[..|q| - 1], q[|q| - 1];
      DistinctCount(init);
      assert (set x | x in q) == (set x | x in init) + {last};
      assert last !in init;
    }
  }

  /** The index of an entry is the number of entries that sort before it. */
  lemma RankCounts(q: seq<Entry>, j: nat)
    requires SortedSet(q) && j < |q|
    ensures |Below(q, q[j])| == j
  {
    assert Below(q, q[j]) == set x | x in q[..j] by {
      forall x | x in q && Before(x, q[j])
        ensures x in q[..j]
      {
        var k :| 0 <= k < |q| && q[k] == x;
        BeforeOrder(x, q[j], x);
        assert k < j;
        assert q[..j][k] == x;
      }
    }
    DistinctCount(q[..j]);
  }

  // ---- Adding ----

  /** Where e belongs: after the entries that sort before it. */
  function InsertAt(q: seq<Entry>, e: Entry): (p: nat)
    ensures p <= |q|
    ensures forall k | 0 <= k < p :: Before(q[k], e)
    ensures p < |q| ==> !Before(q[p], e)
  {
    if q == [] || !Before(q[0], e) then 0 else 1 + InsertAt(q[1..], e)
  }

  lemma {:induction false} InsertAtUnique(q: seq<Entry>, e: Entry, p: nat)
    requires p <= |q|
    requires forall j | 0 <= j < p :: Before(q[j], e)
    requires p < |q| ==> !Before(q[p], e)
    ensures InsertAt(q, e) == p
    decreases |q|
  {
    if p > 0 {
      InsertAtUnique(q[1..], e, p - 1);
    }
  }

  /** ZADD with NX. */
  function AddNX(q: seq<Entry>, e: Entry): seq<Entry> {
    if Waits(q, e.member) then q
    else q[..InsertAt(q, e)] + [e] + q[InsertAt(q, e)..]
  }

  lemma AddKeepsSorted(q: seq<Entry>, e: Entry)
    requires SortedSet(q)
    ensures SortedSet(AddNX(q, e))
  {
    if !Waits(q, e.member) {
      var p, q' := InsertAt(q, e), AddNX(q, e);
      forall j | p <= j < |q|
        ensures Before(e, q[j])
      {
        BeforeOrder(e, q[p], q[j]);
      }
      forall j, k | 0 <= j < k < |q'|
        ensures Before(q'[j], q'[k]) && q'[j].member != q'[k].member
      {
        var j0, k0 := if j < p then j else j - 1, if k < p then k else k - 1;
        if j == p {
          assert q'[j] == e && q'[k] == q[k0];
        } else if k == p {
          assert q'[j] == q[j0] && q'[k] == e;
        } else {
          assert q'[j] == q[j0] && q'[k] == q[k0];
        }
      }
    }
  }

  // ---- Removing ----

  /** ZREM. */
  function Without(q: seq<Entry>, members: set<string>): seq<Entry> {
    if q == [] then []
    else (if q[0].member in members then [] else [q[0]]) + Without(q[1..], members)
  }

  lemma {:induction false} WithoutMembers(q: seq<Entry>, members: set<string>, x: Entry)
    ensures x in Without(q, members) <==> x in q && x.member !in members
    decreases |q|
  {
    if q != [] {
      WithoutMembers(q[1..], members, x);
      assert q == [q[0]] + q[1..];
    }
  }

  lemma {:induction false} WithoutSorted(q: seq<Entry>, members: set<string>)
    requires SortedSet(q)
    ensures SortedSet(Without(q, members))
    decreases |q|
  {
    if q != [] {
      var rest := Without(q[1..], members);
      WithoutSorted(q[1..], members);
      forall j | 0 <= j < |rest|
        ensures Before(q[0], rest[j]) && q[0].member != rest[j].member
      {
        WithoutMembers(q[1..], members, rest[j]);
        assert rest[j] in rest;
        var k :| 0 <= k < |q[1..]| && q[1..][k] == rest[j];
        assert q[k + 1] == rest[j];
      }
    }
  }

  lemma {:induction false} WithoutNone(q: seq<Entry>, members: set<string>)
    requires forall x | x in q :: x.member !in members
    ensures Without(q, members) == q
    decreases |q|
  {
    if q != [] {
      WithoutNone(q[1..], members);
      assert q == [q[0]] + q[1..];
    }
  }

  lemma {:induction false} WithoutConcat(q: seq<Entry>, r: seq<Entry>, members: set<string>)
    ensures Without(q + r, members) == Without(q, members) + Without(r, members)
    decreases |q|
  {
    if q == [] {
      assert q + r == r;
    } else {
      assert (q + r)[1..] == q[1..] + r;
      WithoutConcat(q[1..], r, members);
    }
  }

  lemma WaitsAfterRemove(q: seq<Entry>, members: set<string>, member: string)
    ensures Waits(Without(q, members), member) <==> Waits(q, member) && member !in members
  {
    var q' := Without(q, members);
    if Waits(q', member) {
      var j :| 0 <= j < |q'| && q'[j].member == member;
      WithoutMembers(q, members, q'[j]);
      assert q'[j] in q';
    }
    if Waits(q, member) && member !in members {
      var j :| 0 <= j < |q| && q[j].member == member;
      WithoutMembers(q, members, q[j]);
      assert q[j] in q;
    }
  }

  lemma InsertSplits(q: seq<Entry>, e: Entry, x: Entry)
    requires SortedSet(q) && !Waits(q, e.member)
    ensures x in q[..InsertAt(q, e)] ==> Before(x, e)
    ensures x in q[InsertAt(q, e)..] ==> !Before(x, e)
  {
    var p := InsertAt(q, e);
    if x in q[p..] {
      var j :| p <= j < |q| && q[j] == x;
      BeforeOrder(e, q[p], x);
      BeforeOrder(e, x, e);
    }
  }

  /** Where e belongs once others have been removed. */
  lemma InsertAfterRemove(q: seq<Entry>, e: Entry, members: set<string>)
    requires SortedSet(q) && !Waits(q, e.member)
    ensures var p := InsertAt(q, e);
            InsertAt(Without(q[..p], members) + Without(q[p..], members), e) == |Without(q[..p], members)|
  {
    var p := InsertAt(q, e);
    var low, high := Without(q[..p], members), Without(q[p..], members);
    forall j | 0 <= j < |low|
      ensures Before((low + high)[j], e)
    {
      assert low[j] in low;
      WithoutMembers(q[..p], members, low[j]);
      InsertSplits(q, e, low[j]);
    }
    if high != [] {
      assert high[0] in high && (low + high)[|low|] == high[0];
      WithoutMembers(q[p..], members, high[0]);
      InsertSplits(q, e, high[0]);
    }
    InsertAtUnique(low + high, e, |low|);
  }

  lemma RemoveAround(left: seq<Entry>, e: Entry, right: seq<Entry>, members: set<string>)
    requires e.member !in members
    ensures Without(left + [e] + right, members) == Without(left, members) + [e] + Without(right, members)
  {
    WithoutConcat(left + [e], right, members);
    WithoutConcat(left, [e], members);
    assert [e][1..] == [];
  }

  lemma RemoveSplits(q: seq<Entry>, members: set<string>, p: nat)
    requires p <= |q|
    ensures Without(q, members) == Without(q[..p], members) + Without(q[p..], members)
  {
    WithoutConcat(q[..p], q[p..], members);
    assert q[..p] + q[p..] == q;
  }

  lemma InsertBetween(low: seq<Entry>, high: seq<Entry>, e: Entry)
    requires !Waits(low + high, e.member) && InsertAt(low + high, e) == |low|
    ensures AddNX(low + high, e) == low + [e] + high
  {
    assert (low + high)[..|low|] == low && (low + high)[|low|..] == high;
  }

  /** It makes no difference whether somebody joins before or after others are removed. */
  lemma JoinCommutes(q: seq<Entry>, e: Entry, members: set<string>)
    requires SortedSet(q) && e.member !in members
    ensures Without(AddNX(q, e), members) == AddNX(Without(q, members), e)
  {
    WaitsAfterRemove(q, members, e.member);
    if !Waits(q, e.member) {
      var p := InsertAt(q, e);
      RemoveAround(q[..p], e, q[p..], members);
      RemoveSplits(q, members, p);
      InsertAfterRemove(q, e, members);
      InsertBetween(Without(q[..p], members), Without(q[p..], members), e);
    }
  }

  function MembersOf(q: seq<Entry>): set<string> {
    set x | x in q :: x.member
  }

  lemma {:induction false} WithoutPrefix(q: seq<Entry>, k: nat)
    requires SortedSet(q) && k <= |q|
    ensures Without(q, MembersOf(q[..k])) == q[k..]
  {
    var members := MembersOf(q[..k]);
    forall j | k <= j < |q|
      ensures q[j].member !in members
    {
      assert forall x | x in q[..k] :: x.member != q[j].member;
    }
    WithoutAll(q, k, members);
  }

  lemma {:induction false} WithoutAll(q: seq<Entry>, k: nat, members: set<string>)
    requires k <= |q|
    requires forall j | 0 <= j < k :: q[j].member in members
    requires forall j | k <= j < |q| :: q[j].member !in members
    ensures Without(q, members) == q[k..]
    decreases |q|
  {
    if q != [] {
      if k == 0 {
        WithoutNone(q, members);
      } else {
        assert q[1..][k - 1..] == q[k..];
        WithoutAll(q[1..], k - 1, members);
      }
    }
  }

  // ---- Activation ----

  function BatchSize(q: seq<Entry>): nat {
    if |q| < QUEUE_THROUGHPUT then |q| else QUEUE_THROUGHPUT
  }

  /** What one activation leaves waiting. */
  function Activate(q: seq<Entry>): seq<Entry> {
    Without(q, MembersOf(q[..BatchSize(q)]))
  }

  /** One activation moves exactly min(2000, size) members, all of them ahead of all that stay
      and none later to join. */
  lemma ActivationIsFair(q: seq<Entry>)
    requires SortedSet(q)
    ensures BatchSize(q) == if |q| < 2000 then |q| else 2000
    ensures Activate(q) == q[BatchSize(q)..]
    ensures |Activate(q)| == |q| - BatchSize(q) && SortedSet(Activate(q))
    ensures forall x, y | x in q[..BatchSize(q)] && y in Activate(q) :: Before(x, y) && x.score <= y.score
    ensures |MembersOf(q[..BatchSize(q)])| == BatchSize(q)
  {
    WithoutPrefix(q, BatchSize(q));
    CountMembers(q[..BatchSize(q)]);
  }

  lemma {:induction false} CountMembers(q: seq<Entry>)
    requires SortedSet(q)
    ensures |MembersOf(q)| == |q|
    decreases |q|
  {
    if q != [] {
      var init, last := q[..|q| - 1], q[|q| - 1];
      CountMembers(init);
      assert q == init + [last];
      assert MembersOf(q) == MembersOf(init) + {last.member};
      assert last.member !in MembersOf(init);
    }
  }

  // ---- The estimate ----

  function Ceil(a: nat, b: nat): nat
    requires b > 0
  {
    (a + b - 1) / b
  }

  function EstimateWaitingSec(order: nat): nat {
    Ceil(order, THROUGHPUT_PER_10_SEC) * 10
  }

  /** What happens to the waiting room after a user has been told an order. The time of a
      tick is in seconds since then. */
  datatype Event = Tick(at: real) | Join(entry: Entry)

  function After(q: seq<Entry>, e: Event): seq<Entry> {
    match e
    case Tick(_) => Activate(q)
    case Join(entry) => AddNX(q, entry)
  }

  function AfterAll(q: seq<Entry>, events: seq<Event>): seq<Entry>
    decreases |events|
  {
    if events == [] then q else AfterAll(After(q, events[0]), events[1..])
  }

  function Ticks(events: seq<Event>): nat
    decreases |events|
  {
    if events == [] then 0 else (if events[0].Tick? then 1 else 0) + Ticks(events[1..])
  }

  /** Everybody who joins later sorts behind u. */
  ghost predicate Behind(u: Entry, events: seq<Event>) {
    forall j | 0 <= j < |events| && events[j].Join? :: Before(u, events[j].entry)
  }

  /** Ticks come every ten seconds, the next one in first seconds. */
  predicate Paced(events: seq<Event>, first: real)
    decreases |events|
  {
    || events == []
    || match events[0]
       case Tick(at) => at == first && Paced(events[1..], first + 10.0)
       case Join(_) => Paced(events[1..], first)
  }

  /** u waits at this order. */
  ghost predicate At(q: seq<Entry>, u: Entry, order: nat) {
    1 <= order <= |q| && q[order - 1] == u
  }

  lemma JoinBehind(q: seq<Entry>, u: Entry, e: Entry)
    requires SortedSet(q) && Before(u, e)
    ensures SortedSet(AddNX(q, e))
    ensures forall order: nat | At(q, u, order) :: At(AddNX(q, e), u, order)
    ensures u !in q ==> u !in AddNX(q, e)
  {
    AddKeepsSorted(q, e);
    BeforeOrder(u, e, u);
    if !Waits(q, e.member) {
      var p := InsertAt(q, e);
      forall order: nat | At(q, u, order)
        ensures At(AddNX(q, e), u, order)
      {
        if p < order - 1 {
          BeforeOrder(q[p], u, e);
        }
      }
    }
  }

  lemma TickMoves(q: seq<Entry>, u: Entry, order: nat)
    requires SortedSet(q) && At(q, u, order)
    ensures SortedSet(Activate(q))
    ensures order > QUEUE_THROUGHPUT ==> At(Activate(q), u, order - QUEUE_THROUGHPUT)
    ensures order <= QUEUE_THROUGHPUT ==> u in q[..BatchSize(q)] && u !in Activate(q)
  {
    ActivationIsFair(q);
    if order <= QUEUE_THROUGHPUT {
      assert q[..BatchSize(q)][order - 1] == u;
    }
  }

  /** u is this many places ahead of its order, or gone. */
  ghost predicate Moved(q: seq<Entry>, u: Entry, order: nat, places: nat) {
    if places < order then At(q, u, order - places) else u !in q
  }

  lemma MovedTick(q: seq<Entry>, u: Entry, order: nat, places: nat)
    requires SortedSet(q) && Moved(q, u, order, places)
    ensures SortedSet(Activate(q)) && Moved(Activate(q), u, order, places + QUEUE_THROUGHPUT)
  {
    if places < order {
      TickMoves(q, u, order - places);
    } else {
      ActivationIsFair(q);
    }
  }

  lemma MovedJoin(q: seq<Entry>, u: Entry, order: nat, places: nat, e: Entry)
    requires SortedSet(q) && Moved(q, u, order, places) && Before(u, e)
    ensures SortedSet(AddNX(q, e)) && Moved(AddNX(q, e), u, order, places)
  {
    JoinBehind(q, u, e);
  }

  lemma BehindTail(u: Entry, events: seq<Event>)
    requires events != [] && Behind(u, events)
    ensures events[0].Join? ==> Before(u, events[0].entry)
    ensures Behind(u, events[1..])
  {
    assert forall j | 0 <= j < |events[1..]| :: events[1..][j] == events[j + 1];
  }

  /** The places that an event gains for everybody who stays. */
  function Gain(e: Event): nat {
    if e.Tick? then QUEUE_THROUGHPUT else 0
  }

  function Gained(events: seq<Event>): nat
    decreases |events|
  {
    if events == [] then 0 else Gain(events[0]) + Gained(events[1..])
  }

  lemma {:induction false} GainedByTicks(events: seq<Event>)
    ensures Gained(events) == Ticks(events) * QUEUE_THROUGHPUT
    decreases |events|
  {
    if events != [] {
      GainedByTicks(events[1..]);
    }
  }

  lemma MovedStep(q: seq<Entry>, u: Entry, order: nat, places: nat, e: Event)
    requires SortedSet(q) && Moved(q, u, order, places) && (e.Join? ==> Before(u, e.entry))
    ensures SortedSet(After(q, e)) && Moved(After(q, e), u, order, places + Gain(e))
  {
    match e
    case Tick(_) => MovedTick(q, u, order, places);
    case Join(entry) => MovedJoin(q, u, order, places, entry);
  }

  lemma {:induction false} MovedOn(q: seq<Entry>, u: Entry, order: nat, places: nat, events: seq<Event>)
    requires SortedSet(q) && Moved(q, u, order, places) && Behind(u, events)
    ensures SortedSet(AfterAll(q, events))
    ensures Moved(AfterAll(q, events), u, order, places + Gained(events))
    decreases |events|
  {
    if events != [] {
      BehindTail(u, events);
      MovedStep(q, u, order, places, events[0]);
      MovedOn(After(q, events[0]), u, order, places + Gain(events[0]), events[1..]);
    }
  }

  /** As long as fewer than ceil(order / 2000) activations have run, u waits, 2000 places
      further ahead for each; with the ceil(order / 2000)-th it is gone. */
  lemma PlaceAfter(q: seq<Entry>, u: Entry, order: nat, events: seq<Event>)
    requires SortedSet(q) && At(q, u, order) && Behind(u, events)
    ensures SortedSet(AfterAll(q, events))
    ensures Moved(AfterAll(q, events), u, order, Ticks(events) * QUEUE_THROUGHPUT)
  {
    MovedOn(q, u, order, 0, events);
    GainedByTicks(events);
  }

  lemma CeilBounds(order: nat, ticks: nat)
    ensures ticks * QUEUE_THROUGHPUT >= order <==> ticks >= Ceil(order, QUEUE_THROUGHPUT)
  {
  }

  // ---- When u is admitted ----

  /** Event p takes u out of the waiting room. */
  ghost predicate Leaves(q: seq<Entry>, u: Entry, events: seq<Event>, p: int) {
    0 <= p < |events| && u in AfterAll(q, events[..p]) && u !in AfterAll(q, events[..p + 1])
  }

  lemma {:induction false} AfterAppend(q: seq<Entry>, events: seq<Event>, e: Event)
    ensures AfterAll(q, events + [e]) == After(AfterAll(q, events), e)
    ensures Ticks(events + [e]) == Ticks(events) + if e.Tick? then 1 else 0
    decreases |events|
  {
    if events == [] {
      assert events + [e] == [e] && [e][1..] == [];
    } else {
      assert (events + [e])[1..] == events[1..] + [e];
      AfterAppend(After(q, events[0]), events[1..], e);
    }
  }

  lemma {:induction false} PacedTick(events: seq<Event>, first: real, p: nat)
    requires Paced(events, first) && p < |events| && events[p].Tick?
    ensures events[p].at == first + 10.0 * Ticks(events[..p]) as real
    decreases |events|
  {
    if p > 0 {
      assert events[..p][0] == events[0] && events[..p][1..] == events[1..][..p - 1];
      PacedTick(events[1..], if events[0].Tick? then first + 10.0 else first, p - 1);
    }
  }

  /** u leaves in one of the first n events if it does not wait after them. */
  lemma {:induction false} LeavesWithin(q: seq<Entry>, u: Entry, events: seq<Event>, n: nat) returns (p: int)
    requires n <= |events| && u in q && u !in AfterAll(q, events[..n])
    ensures Leaves(q, u, events, p)
    decreases n
  {
    assert events[..0] == [];
    if u in AfterAll(q, events[..n - 1]) {
      p := n - 1;
    } else {
      p := LeavesWithin(q, u, events, n - 1);
    }
  }

  lemma BehindPrefix(u: Entry, events: seq<Event>, p: nat)
    requires Behind(u, events) && p <= |events|
    ensures Behind(u, events[..p])
  {
  }

  /** The event that takes u out is the ceil(order / 2000)-th tick, and u is in its batch. */
  lemma LeavesByTick(q: seq<Entry>, u: Entry, order: nat, events: seq<Event>, p: nat)
    requires SortedSet(q) && At(q, u, order) && Behind(u, events) && Leaves(q, u, events, p)
    ensures events[p].Tick? && Ticks(events[..p]) + 1 == Ceil(order, QUEUE_THROUGHPUT)
    ensures var now := AfterAll(q, events[..p]); u in now[..BatchSize(now)]
  {
    var before := events[..p];
    assert events[..p + 1] == before + [events[p]];
    BehindPrefix(u, events, p);
    BehindPrefix(u, events, p + 1);
    PlaceAfter(q, u, order, before);
    PlaceAfter(q, u, order, events[..p + 1]);
    AfterAppend(q, before, events[p]);
    CeilBounds(order, Ticks(before));
    CeilBounds(order, Ticks(before) + 1);
    TickMoves(AfterAll(q, before), u, order - Ticks(before) * QUEUE_THROUGHPUT);
  }

  /** The estimate is exact. u waits for as long as fewer than ceil(order / 2000) activations
      have run. If ticks come every ten seconds, the event that takes u out of the waiting
      room is a tick that has u in its batch and comes within the last ten seconds of the
      estimate; and there is one as soon as u no longer waits. */
  lemma EstimateExact(q: seq<Entry>, u: Entry, order: nat, events: seq<Event>, first: real)
    requires SortedSet(q) && At(q, u, order) && Behind(u, events)
    requires Paced(events, first) && 0.0 < first <= 10.0
    ensures u in AfterAll(q, events) <==> Ticks(events) < Ceil(order, QUEUE_THROUGHPUT)
    ensures u !in AfterAll(q, events) ==> exists p :: Leaves(q, u, events, p)
    ensures forall p | Leaves(q, u, events, p) ::
              && events[p].Tick?
              && EstimateWaitingSec(order) as real - 10.0 < events[p].at <= EstimateWaitingSec(order) as real
              && var now := AfterAll(q, events[..p]); u in now[..BatchSize(now)]
  {
    PlaceAfter(q, u, order, events);
    CeilBounds(order, Ticks(events));
    assert q[order - 1] == u;
    if u !in AfterAll(q, events) {
      assert events[..|events|] == events;
      var p := LeavesWithin(q, u, events, |events|);
    }
    forall p | Leaves(q, u, events, p)
      ensures events[p].Tick?
      ensures EstimateWaitingSec(order) as real - 10.0 < events[p].at <= EstimateWaitingSec(order) as real
      ensures var now := AfterAll(q, events[..p]); u in now[..BatchSize(now)]
    {
      LeavesByTick(q, u, order, events, p);
      PacedTick(events, first, p);
    }
  }

  // ---- An order told while others come and go ----

  lemma {:induction false} AfterAllSorted(q: seq<Entry>, events: seq<Event>)
    requires SortedSet(q)
    ensures SortedSet(AfterAll(q, events))
    decreases |events|
  {
    if events != [] {
      match events[0] {
        case Tick(_) => ActivationIsFair(q);
        case Join(e) => AddKeepsSorted(q, e);
      }
      AfterAllSorted(After(q, events[0]), events[1..]);
    }
  }

  lemma LastExactly(q: seq<Entry>, e: Entry, order: nat)
    requires SortedSet(q) && At(q, e, order)
    ensures |q| == order <==> forall x | x in q && x != e :: Before(x, e)
  {
    if |q| > order {
      assert q[order] in q && Before(e, q[order]);
      BeforeOrder(e, q[order], e);
    }
  }

  lemma PlaceExactly(q: seq<Entry>, e: Entry, order: nat)
    requires SortedSet(q) && At(q, e, order)
    ensures order == 1 + |Below(q, e)| <= |q|
    ensures |q| == order <==> forall x | x in q && x != e :: Before(x, e)
  {
    RankCounts(q, order - 1);
    LastExactly(q, e, order);
  }

  /** A new user is told the size of the queue as it is after any number of other users have
      come and gone since the insertion: never below the user's place at that time, and equal
      to it exactly if the user is then the last. */
  lemma SizeTold(q: seq<Entry>, e: Entry, events: seq<Event>, order: nat)
    requires SortedSet(q) && At(AfterAll(AddNX(q, e), events), e, order)
    ensures var now := AfterAll(AddNX(q, e), events);
            && order == 1 + |Below(now, e)| <= |now|
            && (|now| == order <==> forall x | x in now && x != e :: Before(x, e))
  {
    AddKeepsSorted(q, e);
    AfterAllSorted(AddNX(q, e), events);
    PlaceExactly(AfterAll(AddNX(q, e), events), e, order);
  }
}
