/** The waiting estimate when activation runs of several instances overlap. Everything is stated
    about the states of one run of the system, by the number of actions done. */
module Estimates {
  import opened WaitingRoom
  import opened ActivationRuns

  /** The waiting room after n actions. */
  ghost function RoomAt(acts: seq<Action>, n: nat): seq<Entry>
    requires Run(Empty, acts) && n <= |acts|
  {
    StateAt(acts, n).waiting
  }

  ghost function StateAt(acts: seq<Action>, n: nat): State
    requires Run(Empty, acts) && n <= |acts|
  {
    RunSplit(Empty, acts, n);
    Exec(Empty, acts[..n])
  }

  lemma Next(acts: seq<Action>, n: nat)
    requires Run(Empty, acts) && n < |acts|
    ensures Enabled(StateAt(acts, n), acts[n]) && StateAt(acts, n + 1) == Step(StateAt(acts, n), acts[n])
    ensures SortedSet(RoomAt(acts, n)) && SortedSet(RoomAt(acts, n + 1))
  {
    var done := acts[..n + 1];
    RunSplit(Empty, acts, n + 1);
    LastStep(done);
    assert done[..n] == acts[..n] && done[n] == acts[n];
    RunOrdered(Empty, acts[..n]);
    RunOrdered(Empty, done);
  }

  // ---- Nobody gets ahead ----

  /** From action from on, everybody who joins sorts behind u. */
  ghost predicate JoinBehind(acts: seq<Action>, from: nat, u: Entry) {
    forall n | from <= n < |acts| && acts[n].Enqueue? :: Before(u, acts[n].entry)
  }

  /** Whoever is ahead of u in q' was so in q, and u itself was there. */
  ghost predicate NobodyNewAhead(q: seq<Entry>, q': seq<Entry>, u: Entry) {
    forall x | x in q' && (x == u || Before(x, u)) :: x in q
  }

  lemma StepAhead(s: State, a: Action, u: Entry)
    requires Enabled(s, a) && (a.Enqueue? ==> Before(u, a.entry))
    ensures NobodyNewAhead(s.waiting, Step(s, a).waiting, u)
  {
    forall x | x in Step(s, a).waiting && (x == u || Before(x, u))
      ensures x in s.waiting
    {
      if a.Enqueue? {
        BeforeOrder(u, a.entry, u);
      } else if a.Finish? {
        WithoutMembers(s.waiting, Elements(s.jobs[a.job].batch), x);
      }
    }
  }

  lemma {:induction false} NobodyGetsAhead(acts: seq<Action>, i: nat, j: nat, u: Entry)
    requires Run(Empty, acts) && i <= j <= |acts| && JoinBehind(acts, i, u)
    ensures NobodyNewAhead(RoomAt(acts, i), RoomAt(acts, j), u)
    decreases j
  {
    if i < j {
      NobodyGetsAhead(acts, i, j - 1, u);
      Next(acts, j - 1);
      StepAhead(StateAt(acts, j - 1), acts[j - 1], u);
    }
  }

  // ---- What one run gains ----

  /** u has left, or has at most n entries before it. */
  ghost predicate Within(q: seq<Entry>, u: Entry, n: int) {
    u in q ==> |Below(q, u)| <= n
  }

  lemma SubsetSize(a: set<Entry>, b: set<Entry>)
    requires a <= b
    ensures |a| <= |b|
  {
    assert b == a + (b - a);
  }

  lemma StaysWithin(q: seq<Entry>, q': seq<Entry>, u: Entry, n: int)
    requires NobodyNewAhead(q, q', u) && Within(q, u, n)
    ensures Within(q', u, n)
  {
    if u in q' {
      assert Below(q', u) <= Below(q, u);
      SubsetSize(Below(q', u), Below(q, u));
    }
  }

  lemma FewerBelow(q: seq<Entry>, q': seq<Entry>, u: Entry, front: seq<Entry>)
    requires SortedSet(front) && NobodyNewAhead(q, q', u)
    requires forall x | x in front :: x in Below(q, u) && x !in q'
    ensures |Below(q', u)| <= |Below(q, u)| - |front|
  {
    var gone := set x | x in front;
    DistinctCount(front);
    assert gone <= Below(q, u) && Below(q', u) <= Below(q, u) - gone;
    SubsetSize(Below(q', u), Below(q, u) - gone);
    assert Below(q, u) == gone + (Below(q, u) - gone);
  }

  /** If u waits with fewer than 2000 before it, it is in the front; otherwise the front is all before it. */
  lemma FrontOf(q: seq<Entry>, u: Entry)
    requires SortedSet(q) && u in q
    ensures |Below(q, u)| < QUEUE_THROUGHPUT ==> u in q[..BatchSize(q)]
    ensures |Below(q, u)| >= QUEUE_THROUGHPUT ==>
              BatchSize(q) == QUEUE_THROUGHPUT && forall x | x in q[..BatchSize(q)] :: x in Below(q, u)
  {
    var p :| 0 <= p < |q| && q[p] == u;
    RankCounts(q, p);
    if p < QUEUE_THROUGHPUT {
      assert q[..BatchSize(q)][p] == u;
    }
  }

  /** When the front has left, u has 2000 fewer before it, or has left too. */
  lemma FrontGone(q: seq<Entry>, q': seq<Entry>, u: Entry, n: int)
    requires SortedSet(q) && NobodyNewAhead(q, q', u) && Within(q, u, n)
    requires forall x | x in q[..BatchSize(q)] :: x !in q'
    ensures Within(q', u, n - QUEUE_THROUGHPUT)
  {
    if u in q' {
      FrontOf(q, u);
      FewerBelow(q, q', u, q[..BatchSize(q)]);
    }
  }

  /** An activation run: started by one action, finished by a later one, not stopped between. */
  datatype Span = Span(start: nat, finish: nat, job: nat)

  predicate Completes(acts: seq<Action>, r: Span) {
    && r.start < r.finish < |acts|
    && acts[r.start] == Start(r.job) && acts[r.finish] == Finish(r.job)
    && forall n | r.start < n < r.finish :: acts[n] !in {Finish(r.job), Stop(r.job)}
  }

  /** The job has this batch. */
  predicate HasBatch(s: State, job: nat, batch: seq<string>) {
    job in s.jobs && s.jobs[job].batch == batch
  }

  lemma BatchStep(s: State, a: Action, job: nat, batch: seq<string>)
    requires Enabled(s, a) && HasBatch(s, job, batch) && a !in {Finish(job), Stop(job)}
    ensures HasBatch(Step(s, a), job, batch)
  {
  }

  lemma {:induction false} BatchStays(acts: seq<Action>, r: Span, n: nat, batch: seq<string>)
    requires Run(Empty, acts) && Completes(acts, r) && r.start < n <= r.finish
    requires HasBatch(StateAt(acts, r.start + 1), r.job, batch)
    ensures HasBatch(StateAt(acts, n), r.job, batch)
    decreases n
  {
    if n > r.start + 1 {
      BatchStays(acts, r, n - 1, batch);
      Next(acts, n - 1);
      BatchStep(StateAt(acts, n - 1), acts[n - 1], r.job, batch);
    }
  }

  lemma FrontLeaves(acts: seq<Action>, r: Span, x: Entry)
    requires Run(Empty, acts) && Completes(acts, r)
    requires x in RoomAt(acts, r.start)[..BatchSize(RoomAt(acts, r.start))]
    ensures x !in RoomAt(acts, r.finish + 1)
  {
    var front := RoomAt(acts, r.start)[..BatchSize(RoomAt(acts, r.start))];
    Next(acts, r.start);
    BatchStays(acts, r, r.finish, Names(front));
    Next(acts, r.finish);
    WithoutMembers(RoomAt(acts, r.finish), Elements(Names(front)), x);
    var j :| 0 <= j < |front| && front[j] == x;
    assert Names(front)[j] == x.member;
  }

  /** A completed run takes u 2000 places ahead or out, whatever happens beside it. */
  lemma RunGains(acts: seq<Action>, r: Span, u: Entry, n: int)
    requires Run(Empty, acts) && Completes(acts, r) && JoinBehind(acts, r.start, u)
    requires Within(RoomAt(acts, r.start), u, n)
    ensures Within(RoomAt(acts, r.finish + 1), u, n - QUEUE_THROUGHPUT)
  {
    Next(acts, r.start);
    NobodyGetsAhead(acts, r.start, r.finish + 1, u);
    forall x | x in RoomAt(acts, r.start)[..BatchSize(RoomAt(acts, r.start))]
      ensures x !in RoomAt(acts, r.finish + 1)
    {
      FrontLeaves(acts, r, x);
    }
    FrontGone(RoomAt(acts, r.start), RoomAt(acts, r.finish + 1), u, n);
  }

  // ---- The estimate ----

  /** Completed runs after action from, each started when the one before had finished. Other runs
      may do anything before, between and beside them. */
  ghost predicate InTurn(acts: seq<Action>, from: nat, runs: seq<Span>) {
    && (forall i | 0 <= i < |runs| :: Completes(acts, runs[i]) && from <= runs[i].start)
    && (forall i, j | 0 <= i < j < |runs| :: runs[i].finish < runs[j].start)
  }

  lemma {:induction false} RunsGain(acts: seq<Action>, from: nat, runs: seq<Span>, u: Entry, n: int)
    requires Run(Empty, acts) && from <= |acts| && InTurn(acts, from, runs) && JoinBehind(acts, from, u)
    requires Within(RoomAt(acts, from), u, n)
    ensures Within(RoomAt(acts, |acts|), u, n - |runs| * QUEUE_THROUGHPUT)
    decreases |runs|
  {
    if runs == [] {
      NobodyGetsAhead(acts, from, |acts|, u);
      StaysWithin(RoomAt(acts, from), RoomAt(acts, |acts|), u, n);
    } else {
      var r := runs[0];
      NobodyGetsAhead(acts, from, r.start, u);
      StaysWithin(RoomAt(acts, from), RoomAt(acts, r.start), u, n);
      RunGains(acts, r, u, n);
      RunsGain(acts, r.finish + 1, runs[1..], u, n - QUEUE_THROUGHPUT);
    }
  }

  lemma OrderIsWithin(acts: seq<Action>, n: nat, u: Entry, order: nat)
    requires Run(Empty, acts) && n <= |acts| && At(RoomAt(acts, n), u, order)
    ensures Within(RoomAt(acts, n), u, order - 1)
  {
    RunSplit(Empty, acts, n);
    RunOrdered(Empty, acts[..n]);
    RankCounts(RoomAt(acts, n), order - 1);
  }

  lemma NoPlaceLeft(q: seq<Entry>, u: Entry, n: int)
    requires Within(q, u, n) && n < 0
    ensures u !in q
  {
  }

  /** The estimate holds as a bound however the runs of several instances overlap. Somebody who
      was told order r, with later arrivals behind, has left the waiting room once ceil(r / 2000)
      runs have completed one after another since then, whatever other runs have done. */
  lemma LeavesInTime(acts: seq<Action>, from: nat, runs: seq<Span>, u: Entry, order: nat)
    requires Run(Empty, acts) && from <= |acts| && At(RoomAt(acts, from), u, order)
    requires JoinBehind(acts, from, u) && InTurn(acts, from, runs)
    requires |runs| >= Ceil(order, QUEUE_THROUGHPUT)
    ensures u !in Exec(Empty, acts).waiting
  {
    OrderIsWithin(acts, from, u, order);
    RunsGain(acts, from, runs, u, order - 1);
    CeilBounds(order, |runs|);
    NoPlaceLeft(RoomAt(acts, |acts|), u, order - 1 - |runs| * QUEUE_THROUGHPUT);
    assert acts[..|acts|] == acts;
  }
}
