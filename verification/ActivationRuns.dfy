/** Activation runs of several server instances that overlap. A run reads the front of the
    sorted set, then sets one active token after another, then removes its batch; its sets
    reach the store before its remove because they share a connection. */
module ActivationRuns {
  import opened WaitingRoom

  /** A token is opaque; the user id and the time of issue tell tokens apart. */
  datatype Token = Token(member: string, issuedAt: int)

  /** The members read, and how many of their tokens have been set. */
  datatype Job = Job(batch: seq<string>, sent: nat)

  datatype State = State(waiting: seq<Entry>, active: map<string, Token>, jobs: map<nat, Job>)

  datatype Action =
    | Enqueue(entry: Entry)
    | Start(job: nat)
    | SetNext(job: nat, now: int)
    | Finish(job: nat)
    | Stop(job: nat)              // the instance dies
    | EndToken(member: string)    // expiry, or removal after payment

  function Names(q: seq<Entry>): seq<string> {
    seq(|q|, j requires 0 <= j < |q| => q[j].member)
  }

  function Elements(members: seq<string>): set<string> {
    set m | m in members
  }

  /** SET with NX. */
  function SetNX(active: map<string, Token>, member: string, now: int): map<string, Token> {
    if member in active then active else active[member := Token(member, now)]
  }

  predicate Enabled(s: State, a: Action) {
    match a
    case Enqueue(_) => true
    case Start(job) => job !in s.jobs
    case SetNext(job, _) => job in s.jobs && s.jobs[job].sent < |s.jobs[job].batch|
    case Finish(job) => job in s.jobs && s.jobs[job].sent == |s.jobs[job].batch|
    case Stop(job) => job in s.jobs
    case EndToken(_) => true
  }

  function Step(s: State, a: Action): State
    requires Enabled(s, a)
  {
    match a
    case Enqueue(entry) => s.(waiting := AddNX(s.waiting, entry))
    case Start(job) => s.(jobs := s.jobs[job := Job(Names(s.waiting[..BatchSize(s.waiting)]), 0)])
    case SetNext(job, now) =>
      var j := s.jobs[job];
      s.(active := SetNX(s.active, j.batch[j.sent], now), jobs := s.jobs[job := j.(sent := j.sent + 1)])
    case Finish(job) =>
      s.(waiting := Without(s.waiting, Elements(s.jobs[job].batch)), jobs := s.jobs - {job})
    case Stop(job) => s.(jobs := s.jobs - {job})
    case EndToken(member) => s.(active := s.active - {member})
  }

  /** A run may start from any instance at any time, and stop after any of its statements; a
      token may end at any time. */
  lemma Unreliable(s: State, job: nat, member: string)
    ensures job !in s.jobs ==> Enabled(s, Start(job))
    ensures job in s.jobs ==> job !in Step(s, Stop(job)).jobs
    ensures member !in Step(s, EndToken(member)).active
  {
  }

  predicate Run(s: State, acts: seq<Action>)
    decreases |acts|
  {
    acts == [] || (Enabled(s, acts[0]) && Run(Step(s, acts[0]), acts[1..]))
  }

  function Exec(s: State, acts: seq<Action>): State
    requires Run(s, acts)
    decreases |acts|
  {
    if acts == [] then s else Exec(Step(s, acts[0]), acts[1..])
  }

  predicate Present(s: State, member: string) {
    Waits(s.waiting, member) || member in s.active
  }

  ghost predicate Counted(s: State) {
    forall job | job in s.jobs :: s.jobs[job].sent <= |s.jobs[job].batch|
  }

  /** The job has already set the member's token. */
  predicate HasSet(s: State, job: nat, member: string) {
    job in s.jobs && s.jobs[job].sent <= |s.jobs[job].batch| && member in s.jobs[job].batch[..s.jobs[job].sent]
  }

  lemma StepCounted(s: State, a: Action)
    requires Counted(s) && Enabled(s, a)
    ensures Counted(Step(s, a))
  {
  }

  /** A step makes a job one that has set the member's token only by setting it. */
  lemma HasSetStep(s: State, a: Action, job: nat, member: string)
    requires Counted(s) && Enabled(s, a)
    ensures HasSet(Step(s, a), job, member) <==>
              || (HasSet(s, job, member) && a !in {Finish(job), Stop(job)})
              || (a.SetNext? && a.job == job && Sets(s, a, member))
  {
    if a.SetNext? && a.job == job {
      var j := s.jobs[job];
      assert j.batch[..j.sent + 1] == j.batch[..j.sent] + [j.batch[j.sent]];
    }
  }

  /** The step is a SET for the member. */
  predicate Sets(s: State, a: Action, member: string)
    requires Enabled(s, a)
  {
    a.SetNext? && s.jobs[a.job].batch[s.jobs[a.job].sent] == member
  }

  // ---- Exactly when a user vanishes ----

  /** The two ways out of both structures: a run removes a waiting member whose token is gone
      already, or the token of somebody who is not waiting ends. */
  predicate Vanishes(s: State, a: Action, member: string)
    requires Enabled(s, a)
  {
    match a
    case Finish(job) => member in s.jobs[job].batch && member !in s.active
    case EndToken(m) => m == member && !Waits(s.waiting, member)
    case _ => false
  }

  lemma WaitsAfterAdd(q: seq<Entry>, e: Entry, member: string)
    ensures Waits(AddNX(q, e), member) <==> Waits(q, member) || member == e.member
  {
    var p, q' := InsertAt(q, e), AddNX(q, e);
    if !Waits(q, e.member) {
      assert q'[p] == e;
      if Waits(q, member) {
        var j :| 0 <= j < |q| && q[j].member == member;
        assert q'[if j < p then j else j + 1] == q[j];
      }
      if Waits(q', member) && member != e.member {
        var j :| 0 <= j < |q'| && q'[j].member == member;
        assert q[if j < p then j else j - 1] == q'[j];
      }
    }
  }

  lemma VanishesExactly(s: State, a: Action, member: string)
    requires Enabled(s, a) && Present(s, member)
    ensures !Present(Step(s, a), member) <==> Vanishes(s, a, member)
  {
    match a
    case Enqueue(entry) => WaitsAfterAdd(s.waiting, entry, member);
    case Finish(job) => WaitsAfterRemove(s.waiting, Elements(s.jobs[job].batch), member);
    case _ =>
  }

  // ---- No loss ----

  /** No step replaces a token that is alive. */
  lemma NoTokenReplaced(s: State, a: Action, member: string)
    requires Enabled(s, a) && member in s.active
    ensures member in Step(s, a).active <==> a != EndToken(member)
    ensures member in Step(s, a).active ==> Step(s, a).active[member] == s.active[member]
  {
  }

  predicate EndsToken(acts: seq<Action>, member: string) {
    exists j | 0 <= j < |acts| :: acts[j] == EndToken(member)
  }

  lemma EndsTail(acts: seq<Action>, member: string)
    requires acts != [] && !EndsToken(acts, member)
    ensures acts[0] != EndToken(member) && !EndsToken(acts[1..], member)
  {
    assert forall j | 0 <= j < |acts[1..]| :: acts[1..][j] == acts[j + 1];
  }

  /** A live token is the same token until it ends, however many runs try to set it again. */
  lemma {:induction false} TokenKept(s: State, acts: seq<Action>, member: string)
    requires Run(s, acts) && member in s.active && !EndsToken(acts, member)
    ensures member in Exec(s, acts).active && Exec(s, acts).active[member] == s.active[member]
    decreases |acts|
  {
    if acts != [] {
      EndsTail(acts, member);
      NoTokenReplaced(s, acts[0], member);
      TokenKept(Step(s, acts[0]), acts[1..], member);
    }
  }

  /** The action sets a token, and this is the token. */
  predicate Issues(a: Action, token: Token) {
    a.SetNext? && a.now == token.issuedAt
  }

  /** Whoever holds a token holds one of their own, held all along or issued at the time of a set. */
  lemma {:induction false} TokenOrigin(s: State, acts: seq<Action>, member: string)
    requires Run(s, acts) && member in Exec(s, acts).active
    ensures var token := Exec(s, acts).active[member];
            || (member in s.active && s.active[member] == token && !EndsToken(acts, member))
            || (token.member == member && exists j :: 0 <= j < |acts| && Issues(acts[j], token))
    decreases |acts|
  {
    if acts != [] {
      var a, s1 := acts[0], Step(s, acts[0]);
      var token := Exec(s, acts).active[member];
      TokenOrigin(s1, acts[1..], member);
      if j :| 0 <= j < |acts[1..]| && Issues(acts[1..][j], token) {
        assert Issues(acts[j + 1], token);
      }
      if member in s1.active && s1.active[member] == token && !EndsToken(acts[1..], member) {
        EndsCons(a, acts[1..], member);
        assert [a] + acts[1..] == acts;
        assert member !in s.active ==> Issues(a, token) && token.member == member;
      }
    }
  }

  lemma EndsCons(a: Action, acts: seq<Action>, member: string)
    requires !EndsToken(acts, member)
    ensures EndsToken([a] + acts, member) <==> a == EndToken(member)
  {
    assert ([a] + acts)[0] == a;
  }

  /** The member's own token does not end while a run that has set it is in flight. What
      happens to other tokens does not matter. */
  ghost predicate Quiet(s: State, a: Action, member: string) {
    a == EndToken(member) ==> forall job :: !HasSet(s, job, member)
  }

  ghost predicate QuietRun(s: State, acts: seq<Action>, member: string)
    decreases |acts|
  {
    acts == [] || (Enabled(s, acts[0]) && Quiet(s, acts[0], member) && QuietRun(Step(s, acts[0]), acts[1..], member))
  }

  /** Whoever has been set by a run in flight is active. */
  ghost predicate Held(s: State, member: string) {
    forall job | HasSet(s, job, member) :: member in s.active
  }

  lemma StepHeld(s: State, a: Action, member: string)
    requires Counted(s) && Held(s, member) && Enabled(s, a) && Quiet(s, a, member)
    ensures Held(Step(s, a), member)
  {
    forall job | HasSet(Step(s, a), job, member)
      ensures member in Step(s, a).active
    {
      HasSetStep(s, a, job, member);
    }
  }

  lemma {:induction false} RunHeld(s: State, acts: seq<Action>, member: string)
    requires Counted(s) && Held(s, member) && Run(s, acts) && QuietRun(s, acts, member)
    ensures Counted(Exec(s, acts)) && Held(Exec(s, acts), member)
    decreases |acts|
  {
    if acts != [] {
      StepCounted(s, acts[0]);
      StepHeld(s, acts[0], member);
      RunHeld(Step(s, acts[0]), acts[1..], member);
    }
  }

  lemma {:induction false} NoLossFrom(s: State, acts: seq<Action>, member: string)
    requires Counted(s) && Held(s, member) && Run(s, acts) && Present(s, member) && !EndsToken(acts, member)
    ensures Present(Exec(s, acts), member)
    decreases |acts|
  {
    if acts != [] {
      var a := acts[0];
      EndsTail(acts, member);
      StepCounted(s, a);
      StepHeld(s, a, member);
      VanishesExactly(s, a, member);
      assert a.Finish? ==> s.jobs[a.job].batch[..s.jobs[a.job].sent] == s.jobs[a.job].batch;
      assert a.Finish? && member in s.jobs[a.job].batch ==> HasSet(s, a.job, member);
      NoLossFrom(Step(s, a), acts[1..], member);
    }
  }

  const Empty := State([], map[], map[])

  /** However runs of several instances overlap, somebody who is waiting or active stays waiting
      or active until their own token ends, if that token has never ended while a run that had
      set it was in flight. */
  lemma NoLoss(acts: seq<Action>, more: seq<Action>, member: string)
    requires Run(Empty, acts) && QuietRun(Empty, acts, member)
    requires Run(Exec(Empty, acts), more)
    requires Present(Exec(Empty, acts), member) && !EndsToken(more, member)
    ensures Present(Exec(Exec(Empty, acts), more), member)
  {
    RunHeld(Empty, acts, member);
    NoLossFrom(Exec(Empty, acts), more, member);
  }

  // ---- Exactly when a run drops a user ----

  /** From s on, the job stays in flight and nobody sets the member's token. */
  predicate LeftAlone(s: State, acts: seq<Action>, job: nat, member: string)
    decreases |acts|
  {
    || acts == []
    || (&& Enabled(s, acts[0])
        && acts[0] !in {Finish(job), Stop(job)} && !Sets(s, acts[0], member)
        && LeftAlone(Step(s, acts[0]), acts[1..], job, member))
  }

  /** Action n ended the member's token when the job had set it; since then the job has been in
      flight and nobody has set the token again. */
  ghost predicate EndedAt(acts: seq<Action>, n: int, job: nat, member: string) {
    && 0 <= n < |acts| && acts[n] == EndToken(member)
    && Run(Empty, acts[..n]) && HasSet(Exec(Empty, acts[..n]), job, member)
    && LeftAlone(Step(Exec(Empty, acts[..n]), acts[n]), acts[n + 1..], job, member)
  }

  lemma {:induction false} RunSplit(s: State, acts: seq<Action>, n: nat)
    requires Run(s, acts) && n <= |acts|
    ensures Run(s, acts[..n]) && Run(Exec(s, acts[..n]), acts[n..])
    ensures Exec(Exec(s, acts[..n]), acts[n..]) == Exec(s, acts)
    decreases |acts|
  {
    if n == 0 {
      assert acts[..0] == [] && acts[0..] == acts;
    } else {
      assert acts[..n][0] == acts[0] && acts[..n][1..] == acts[1..][..n - 1] && acts[1..][n - 1..] == acts[n..];
      RunSplit(Step(s, acts[0]), acts[1..], n - 1);
    }
  }

  lemma {:induction false} RunCounted(s: State, acts: seq<Action>)
    requires Counted(s) && Run(s, acts)
    ensures Counted(Exec(s, acts))
    decreases |acts|
  {
    if acts != [] {
      StepCounted(s, acts[0]);
      RunCounted(Step(s, acts[0]), acts[1..]);
    }
  }

  /** A run that has set a token holds a member whose token is gone. */
  predicate Dangling(s: State, job: nat, member: string) {
    HasSet(s, job, member) && member !in s.active
  }

  lemma {:induction false} LeftDangling(s: State, acts: seq<Action>, job: nat, member: string)
    requires Counted(s) && Dangling(s, job, member) && Run(s, acts) && LeftAlone(s, acts, job, member)
    ensures Dangling(Exec(s, acts), job, member)
    decreases |acts|
  {
    if acts != [] {
      StepCounted(s, acts[0]);
      HasSetStep(s, acts[0], job, member);
      LeftDangling(Step(s, acts[0]), acts[1..], job, member);
    }
  }

  lemma {:induction false} LeftAloneAppend(s: State, acts: seq<Action>, a: Action, job: nat, member: string)
    requires Run(s, acts) && LeftAlone(s, acts, job, member) && Enabled(Exec(s, acts), a)
    requires a !in {Finish(job), Stop(job)} && !Sets(Exec(s, acts), a, member)
    ensures LeftAlone(s, acts + [a], job, member)
    decreases |acts|
  {
    if acts == [] {
      assert acts + [a] == [a] && [a][1..] == [];
    } else {
      assert (acts + [a])[1..] == acts[1..] + [a];
      LeftAloneAppend(Step(s, acts[0]), acts[1..], a, job, member);
    }
  }

  /** Before a step that leaves the job dangling, it dangled already or the token was alive. */
  lemma DanglingStep(s: State, a: Action, job: nat, member: string)
    requires Counted(s) && Enabled(s, a) && Dangling(Step(s, a), job, member)
    ensures HasSet(s, job, member) && a !in {Finish(job), Stop(job)}
    ensures member in s.active ==> a == EndToken(member)
    ensures member !in s.active ==> !Sets(s, a, member)
  {
    HasSetStep(s, a, job, member);
  }

  /** The last step of a run. */
  lemma LastStep(acts: seq<Action>)
    requires Run(Empty, acts) && acts != []
    ensures var init, a := acts[..|acts| - 1], acts[|acts| - 1];
            Run(Empty, init) && Enabled(Exec(Empty, init), a) && Exec(Empty, acts) == Step(Exec(Empty, init), a)
  {
    RunSplit(Empty, acts, |acts| - 1);
    var last := acts[|acts| - 1..];
    assert last == [acts[|acts| - 1]] && last[1..] == [];
  }

  lemma TailAfter(acts: seq<Action>, a: Action, n: nat)
    requires n < |acts|
    ensures (acts + [a])[..n] == acts[..n] && (acts + [a])[n] == acts[n]
    ensures (acts + [a])[n + 1..] == acts[n + 1..] + [a]
  {
  }

  lemma RunAfter(acts: seq<Action>, n: nat)
    requires Run(Empty, acts) && n < |acts|
    ensures Run(Empty, acts[..n]) && Enabled(Exec(Empty, acts[..n]), acts[n])
    ensures var s := Step(Exec(Empty, acts[..n]), acts[n]);
            Run(s, acts[n + 1..]) && Exec(s, acts[n + 1..]) == Exec(Empty, acts)
  {
    RunSplit(Empty, acts, n);
    assert acts[n..][0] == acts[n] && acts[n..][1..] == acts[n + 1..];
  }

  lemma EndedLonger(acts: seq<Action>, a: Action, n: int, job: nat, member: string)
    requires Run(Empty, acts) && EndedAt(acts, n, job, member) && Enabled(Exec(Empty, acts), a)
    requires a !in {Finish(job), Stop(job)} && !Sets(Exec(Empty, acts), a, member)
    ensures EndedAt(acts + [a], n, job, member)
  {
    TailAfter(acts, a, n);
    RunAfter(acts, n);
    LeftAloneAppend(Step(Exec(Empty, acts[..n]), acts[n]), acts[n + 1..], a, job, member);
  }

  lemma EndedNow(acts: seq<Action>, job: nat, member: string)
    requires Run(Empty, acts) && HasSet(Exec(Empty, acts), job, member)
    ensures EndedAt(acts + [EndToken(member)], |acts|, job, member)
  {
    var longer := acts + [EndToken(member)];
    assert longer[..|acts|] == acts && longer[|acts| + 1..] == [];
  }

  lemma {:induction false} FindEnd(acts: seq<Action>, job: nat, member: string) returns (n: int)
    requires Run(Empty, acts) && Dangling(Exec(Empty, acts), job, member)
    ensures EndedAt(acts, n, job, member)
    decreases |acts|
  {
    var init, a := acts[..|acts| - 1], acts[|acts| - 1];
    assert acts == init + [a];
    LastStep(acts);
    RunCounted(Empty, init);
    DanglingStep(Exec(Empty, init), a, job, member);
    if member in Exec(Empty, init).active {
      EndedNow(init, job, member);
      n := |init|;
    } else {
      n := FindEnd(init, job, member);
      EndedLonger(init, a, n, job, member);
    }
  }

  lemma EndedDangles(acts: seq<Action>, n: int, job: nat, member: string)
    requires Run(Empty, acts) && EndedAt(acts, n, job, member)
    ensures Dangling(Exec(Empty, acts), job, member)
  {
    RunAfter(acts, n);
    var s := Exec(Empty, acts[..n]);
    RunCounted(Empty, acts[..n]);
    StepCounted(s, acts[n]);
    HasSetStep(s, acts[n], job, member);
    LeftDangling(Step(s, acts[n]), acts[n + 1..], job, member);
  }

  /** In any run: the remove of a job takes somebody who was waiting or active out of both
      structures if and only if they are in its batch and their token ended after this job had
      set it and has not been set again. */
  lemma DroppedExactly(acts: seq<Action>, job: nat, member: string)
    requires Run(Empty, acts) && Enabled(Exec(Empty, acts), Finish(job)) && Present(Exec(Empty, acts), member)
    ensures !Present(Step(Exec(Empty, acts), Finish(job)), member) <==> exists n :: EndedAt(acts, n, job, member)
  {
    var s := Exec(Empty, acts);
    VanishesExactly(s, Finish(job), member);
    assert s.jobs[job].batch[..s.jobs[job].sent] == s.jobs[job].batch;
    if Dangling(s, job, member) {
      var n := FindEnd(acts, job, member);
    }
    if n :| EndedAt(acts, n, job, member) {
      EndedDangles(acts, n, job, member);
    }
  }

  /** The read of a sorted set names nobody twice. */
  ghost predicate Ordered(s: State) {
    && SortedSet(s.waiting) && Counted(s)
    && forall job, j, k | job in s.jobs && 0 <= j < k < |s.jobs[job].batch| ::
         s.jobs[job].batch[j] != s.jobs[job].batch[k]
  }

  lemma StepOrdered(s: State, a: Action)
    requires Ordered(s) && Enabled(s, a)
    ensures Ordered(Step(s, a))
  {
    match a
    case Enqueue(entry) => AddKeepsSorted(s.waiting, entry);
    case Finish(job) => WithoutSorted(s.waiting, Elements(s.jobs[job].batch));
    case _ =>
  }

  lemma {:induction false} RunOrdered(s: State, acts: seq<Action>)
    requires Ordered(s) && Run(s, acts)
    ensures Ordered(Exec(s, acts))
    decreases |acts|
  {
    if acts != [] {
      StepOrdered(s, acts[0]);
      RunOrdered(Step(s, acts[0]), acts[1..]);
    }
  }

  /** A run that dangles can go on and drop the member. */
  lemma {:induction false} DropByFinish(s: State, job: nat, member: string) returns (acts: seq<Action>)
    requires Ordered(s) && Dangling(s, job, member)
    ensures Run(s, acts) && !EndsToken(acts, member) && !Present(Exec(s, acts), member)
    decreases |s.jobs[job].batch| - s.jobs[job].sent
  {
    var j := s.jobs[job];
    if j.sent == |j.batch| {
      acts := [Finish(job)];
      assert acts[1..] == [] && j.batch[..j.sent] == j.batch;
      WaitsAfterRemove(s.waiting, Elements(j.batch), member);
    } else {
      var a := SetNext(job, 0);
      StepOrdered(s, a);
      HasSetStep(s, a, job, member);
      var rest := DropByFinish(Step(s, a), job, member);
      acts := [a] + rest;
      assert acts[1..] == rest;
      EndsCons(a, rest, member);
    }
  }

  /** In every reachable state: somebody waiting or active is certain to stay so until their
      own token ends, however the runs in flight and later ones go on, if and only if no run in
      flight has set a token of theirs that is gone by now. */
  lemma NoLossExactly(acts: seq<Action>, member: string)
    requires Run(Empty, acts) && Present(Exec(Empty, acts), member)
    ensures var s := Exec(Empty, acts);
            (forall more | Run(s, more) && !EndsToken(more, member) :: Present(Exec(s, more), member)) <==>
            (forall job :: !Dangling(s, job, member))
  {
    var s := Exec(Empty, acts);
    RunOrdered(Empty, acts);
    if job: nat :| Dangling(s, job, member) {
      var more := DropByFinish(s, job, member);
    } else {
      assert forall job | HasSet(s, job, member) :: !Dangling(s, job, member);
      forall more | Run(s, more) && !EndsToken(more, member)
        ensures Present(Exec(s, more), member)
      {
        NoLossFrom(s, more, member);
      }
    }
  }

  // ---- A run that no other run overlaps ----

  /** What may happen between the read and the remove: users join, the run sets its tokens,
      and tokens of users outside the batch end. */
  predicate Lone(acts: seq<Action>, job: nat, batch: seq<string>) {
    forall j | 0 <= j < |acts| ::
      match acts[j]
      case Enqueue(_) => true
      case SetNext(k, _) => k == job
      case EndToken(m) => m !in batch
      case _ => false
  }

  /** The arrivals; somebody in the batch who asks again joins nothing. */
  function Arrivals(acts: seq<Action>, batch: seq<string>): seq<Event>
    decreases |acts|
  {
    if acts == [] then []
    else
      (if acts[0].Enqueue? && acts[0].entry.member !in batch then [Join(acts[0].entry)] else []) +
      Arrivals(acts[1..], batch)
  }

  /** The job is the only one, and its batch waits. */
  ghost predicate OnlyJob(s: State, job: nat, batch: seq<string>) {
    && SortedSet(s.waiting) && Counted(s)
    && s.jobs.Keys == {job} && s.jobs[job].batch == batch
    && (forall m | m in batch :: Waits(s.waiting, m) && Held(s, m))
  }

  lemma LoneTail(acts: seq<Action>, job: nat, batch: seq<string>)
    requires acts != [] && Lone(acts, job, batch)
    ensures Lone(acts[..1], job, batch) && Lone(acts[1..], job, batch)
  {
    assert forall j | 0 <= j < |acts[1..]| :: acts[1..][j] == acts[j + 1];
  }

  lemma LoneStep(s: State, a: Action, job: nat, batch: seq<string>)
    requires OnlyJob(s, job, batch) && Enabled(s, a) && Lone([a], job, batch)
    ensures OnlyJob(Step(s, a), job, batch)
    ensures Without(Step(s, a).waiting, Elements(batch)) ==
            if a.Enqueue? && a.entry.member !in batch then AddNX(Without(s.waiting, Elements(batch)), a.entry)
            else Without(s.waiting, Elements(batch))
    ensures Step(s, a).active.Keys <= s.active.Keys + Elements(batch)
  {
    assert [a][0] == a;
    StepCounted(s, a);
    forall m | m in batch
      ensures Waits(Step(s, a).waiting, m) && Held(Step(s, a), m)
    {
      StepHeld(s, a, m);
      if a.Enqueue? {
        WaitsAfterAdd(s.waiting, a.entry, m);
      }
    }
    if a.Enqueue? {
      AddKeepsSorted(s.waiting, a.entry);
      if a.entry.member !in batch {
        JoinCommutes(s.waiting, a.entry, Elements(batch));
      }
    }
  }

  lemma {:induction false} LoneMiddle(s: State, acts: seq<Action>, job: nat, batch: seq<string>)
    requires OnlyJob(s, job, batch) && Run(s, acts) && Lone(acts, job, batch)
    ensures OnlyJob(Exec(s, acts), job, batch)
    ensures Without(Exec(s, acts).waiting, Elements(batch)) ==
            AfterAll(Without(s.waiting, Elements(batch)), Arrivals(acts, batch))
    ensures Exec(s, acts).active.Keys <= s.active.Keys + Elements(batch)
    decreases |acts|
  {
    if acts != [] {
      LoneTail(acts, job, batch);
      assert acts[..1] == [acts[0]];
      LoneStep(s, acts[0], job, batch);
      LoneMiddle(Step(s, acts[0]), acts[1..], job, batch);
      if acts[0].Enqueue? && acts[0].entry.member !in batch {
        assert Arrivals(acts, batch)[1..] == Arrivals(acts[1..], batch);
      } else {
        assert Arrivals(acts, batch) == Arrivals(acts[1..], batch);
      }
    }
  }

  lemma LoneStart(s: State, job: nat)
    requires s.jobs == map[] && SortedSet(s.waiting)
    ensures OnlyJob(Step(s, Start(job)), job, Names(s.waiting[..BatchSize(s.waiting)]))
  {
    var front := s.waiting[..BatchSize(s.waiting)];
    forall m | m in Names(front)
      ensures Waits(s.waiting, m)
    {
      var j :| 0 <= j < |front| && Names(front)[j] == m;
      assert s.waiting[j].member == m;
    }
  }

  /** A run that no other run overlaps, with users joining while it is in flight: it leaves what
      one activation at its read and the arrivals after it leave, and its batch is active. */
  lemma LoneRunActivates(s: State, job: nat, middle: seq<Action>)
    requires s.jobs == map[] && SortedSet(s.waiting)
    requires Run(Step(s, Start(job)), middle) && Lone(middle, job, Names(s.waiting[..BatchSize(s.waiting)]))
    requires Enabled(Exec(Step(s, Start(job)), middle), Finish(job))
    ensures var batch := Names(s.waiting[..BatchSize(s.waiting)]);
            var s' := Step(Exec(Step(s, Start(job)), middle), Finish(job));
            && s'.jobs == map[]
            && s'.waiting == AfterAll(Activate(s.waiting), Arrivals(middle, batch))
            && Elements(batch) <= s'.active.Keys <= s.active.Keys + Elements(batch)
            && forall m | m in batch && m !in s.active ::
                 s'.active[m].member == m && exists j :: 0 <= j < |middle| && Issues(middle[j], s'.active[m])
  {
    var batch := Names(s.waiting[..BatchSize(s.waiting)]);
    LoneStart(s, job);
    LoneMiddle(Step(s, Start(job)), middle, job, batch);
    NamesAreMembers(s.waiting[..BatchSize(s.waiting)]);
    var s2 := Exec(Step(s, Start(job)), middle);
    assert s2.jobs[job].batch[..s2.jobs[job].sent] == batch;
    forall m | m in batch
      ensures m in s2.active
    {
      assert Held(s2, m) && HasSet(s2, job, m);
    }
    forall m | m in batch && m !in s.active
      ensures s2.active[m].member == m && exists j :: 0 <= j < |middle| && Issues(middle[j], s2.active[m])
    {
      TokenOrigin(Step(s, Start(job)), middle, m);
    }
  }

  lemma NamesAreMembers(q: seq<Entry>)
    ensures Elements(Names(q)) == MembersOf(q)
  {
    forall m | m in MembersOf(q)
      ensures m in Names(q)
    {
      var j :| 0 <= j < |q| && q[j].member == m;
      assert Names(q)[j] == m;
    }
  }

  // ---- Why the proviso is needed ----

  lemma {:induction false} Extend(acts: seq<Action>, a: Action, s: State) returns (more: seq<Action>)
    requires Run(s, acts) && Enabled(Exec(s, acts), a)
    ensures Run(s, more) && Exec(s, more) == Step(Exec(s, acts), a)
    decreases |acts|
  {
    if acts == [] {
      more := [a];
      assert more[1..] == [];
    } else {
      var rest := Extend(acts[1..], a, Step(s, acts[0]));
      more := [acts[0]] + rest;
      assert more[1..] == rest;
    }
  }

  /** Two runs that have both read and set the only waiting user, as yet removed by neither. */
  predicate BothSet(s: State, m: string) {
    && s.waiting == [Entry(0, m)]
    && s.jobs == map[0 := Job([m], 1), 1 := Job([m], 1)]
    && m in s.active
  }

  lemma BothStart(m: string) returns (acts: seq<Action>)
    ensures Run(Empty, acts)
    ensures Exec(Empty, acts) == State([Entry(0, m)], map[], map[0 := Job([m], 0), 1 := Job([m], 0)])
  {
    acts := Extend([], Enqueue(Entry(0, m)), Empty);
    var s := Exec(Empty, acts);
    assert s.waiting == [Entry(0, m)];
    assert Names(s.waiting[..BatchSize(s.waiting)]) == [m];
    acts := Extend(acts, Start(0), Empty);
    acts := Extend(acts, Start(1), Empty);
  }

  lemma OverlapBegins(m: string) returns (acts: seq<Action>)
    ensures Run(Empty, acts) && BothSet(Exec(Empty, acts), m)
  {
    acts := BothStart(m);
    acts := Extend(acts, SetNext(0, 0), Empty);
    acts := Extend(acts, SetNext(1, 0), Empty);
  }

  /** The first run has finished, the token has ended, and the user queues again. */
  predicate QueuedAgain(s: State, m: string) {
    s.waiting == [Entry(1, m)] && s.jobs == map[1 := Job([m], 1)] && m !in s.active
  }

  lemma UserReturns(acts: seq<Action>, m: string) returns (more: seq<Action>)
    requires Run(Empty, acts) && BothSet(Exec(Empty, acts), m)
    ensures Run(Empty, more) && QueuedAgain(Exec(Empty, more), m)
  {
    more := Extend(acts, Finish(0), Empty);
    var s := Exec(Empty, more);
    assert Without([Entry(0, m)], Elements([m])) == [];
    assert s.waiting == [] && s.jobs == map[1 := Job([m], 1)];
    more := Extend(more, EndToken(m), Empty);
    more := Extend(more, Enqueue(Entry(1, m)), Empty);
  }

  /** A user whose token ends between the sets and the remove of an overlapping run, and who
      queues again in that time, is removed from the queue without being admitted. */
  lemma LostWithoutProviso(m: string) returns (acts: seq<Action>)
    ensures Run(Empty, acts)
    ensures var s := Exec(Empty, acts);
            Enabled(s, Finish(1)) && Waits(s.waiting, m) && !Present(Step(s, Finish(1)), m)
  {
    acts := OverlapBegins(m);
    acts := UserReturns(acts, m);
    var s := Exec(Empty, acts);
    assert s.waiting[0].member == m && s.jobs[1].batch[0] == m;
    VanishesExactly(s, Finish(1), m);
  }
}
