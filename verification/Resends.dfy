/** What a resend achieves: on the tables, in the running relay, and when it first comes. */
module Resends {
  import opened Domain
  import opened Relay
  import opened OutboxServices

  // ---- On the tables ----

  function MarkAll(rows: map<int, Row>, ids: seq<int>): map<int, Row> {
    if ids == [] then rows else Mark(MarkAll(rows, ids[..|ids| - 1]), ids[|ids| - 1])
  }

  lemma {:induction false} MarkAllRows(rows: map<int, Row>, ids: seq<int>)
    ensures MarkAll(rows, ids).Keys == rows.Keys
    ensures forall k | k in rows ::
              MarkAll(rows, ids)[k] == if k in ids then rows[k].(status := PUBLISHED) else rows[k]
  {
    if ids != [] {
      MarkAllRows(rows, ids[..|ids| - 1]);
      assert ids == ids[..|ids| - 1] + [ids[|ids| - 1]];
    }
  }

  /** If the messages of a resend are all delivered, in any order and however often, no row
      created before its cutoff is left INIT and every other row is as it was. */
  lemma RetryComplete(rows: map<int, Row>, now: int, delivered: seq<int>)
    requires forall k :: k in delivered <==> k in Failed(rows, now)
    ensures Failed(MarkAll(rows, delivered), now) == {}
    ensures MarkAll(rows, delivered).Keys == rows.Keys
    ensures forall k | k in rows && k !in Failed(rows, now) :: MarkAll(rows, delivered)[k] == rows[k]
    ensures forall k | k in rows :: MarkAll(rows, delivered)[k].createdAt == rows[k].createdAt
  {
    MarkAllRows(rows, delivered);
    forall k | k in rows
      ensures k !in Failed(MarkAll(rows, delivered), now)
    {
      assert k in delivered <==> k in Failed(rows, now);
    }
  }

  // ---- In the running relay ----

  lemma {:induction false} PublishedStays(s: State, acts: seq<Action>)
    requires Run(s, acts)
    ensures s.published <= Exec(s, acts).published
    decreases |acts|
  {
    if acts != [] {
      PublishedGrows(s, acts[0]);
      PublishedStays(Step(s, acts[0]), acts[1..]);
    }
  }

  /** The row is INIT and older than the cutoff. */
  predicate OldInit(s: State, id: int, cutoff: int) {
    id in s.rows && s.rows[id].status == INIT && s.rows[id].createdAt < cutoff
  }

  /** The action commits the row, created before the cutoff. */
  predicate CommitsOld(a: Action, id: int, cutoff: int) {
    a.CommitEvent? && a.id == id && a.createdAt < cutoff
  }

  predicate CommittedLate(acts: seq<Action>, id: int, cutoff: int) {
    exists j | 0 <= j < |acts| :: CommitsOld(acts[j], id, cutoff)
  }

  lemma CommittedLateTail(acts: seq<Action>, id: int, cutoff: int)
    requires acts != []
    ensures CommittedLate(acts, id, cutoff) <==>
              CommitsOld(acts[0], id, cutoff) || CommittedLate(acts[1..], id, cutoff)
  {
    if CommittedLate(acts[1..], id, cutoff) {
      var j :| 0 <= j < |acts[1..]| && CommitsOld(acts[1..][j], id, cutoff);
      assert acts[j + 1] == acts[1..][j];
    }
    if j :| 0 < j < |acts| && CommitsOld(acts[j], id, cutoff) {
      assert acts[1..][j - 1] == acts[j];
    }
  }

  lemma OldInitStep(s: State, a: Action, id: int, cutoff: int)
    requires RowsInv(s) && Enabled(s, a)
    ensures OldInit(Step(s, a), id, cutoff) <==>
              id !in Step(s, a).published && (OldInit(s, id, cutoff) || CommitsOld(a, id, cutoff))
  {
    RowsStep(s, a);
    PublishedGrows(s, a);
    if id in s.rows {
      RowFate(s, a, id);
    } else {
      RowOrigin(s, a, id);
    }
  }

  /** Exactly which rows older than the cutoff are INIT after any run: those that were so at its
      start or were committed in it, and have not been published. */
  lemma {:induction false} OldInitExactly(s: State, acts: seq<Action>, id: int, cutoff: int)
    requires RowsInv(s) && Run(s, acts)
    ensures OldInit(Exec(s, acts), id, cutoff) <==>
              && id !in Exec(s, acts).published
              && (OldInit(s, id, cutoff) || CommittedLate(acts, id, cutoff))
    decreases |acts|
  {
    if acts == [] {
      assert OldInit(s, id, cutoff) ==> id !in s.published;
    } else {
      RowsStep(s, acts[0]);
      OldInitStep(s, acts[0], id, cutoff);
      PublishedStays(Step(s, acts[0]), acts[1..]);
      CommittedLateTail(acts, id, cutoff);
      OldInitExactly(Step(s, acts[0]), acts[1..], id, cutoff);
    }
  }

  predicate NoStop(acts: seq<Action>, pid: nat) {
    forall j | 0 <= j < |acts| :: acts[j] != StopMarker(pid)
  }

  lemma NoStopTail(acts: seq<Action>, pid: nat)
    requires acts != [] && NoStop(acts, pid)
    ensures acts[0] != StopMarker(pid) && NoStop(acts[1..], pid)
  {
    assert forall j | 0 <= j < |acts[1..]| :: acts[1..][j] == acts[j + 1];
  }

  lemma WritePublishes(s: State, pid: nat, now: int)
    requires RowsInv(s) && Enabled(s, MarkWrite(pid, now))
    ensures s.markers[pid].id in Step(s, MarkWrite(pid, now)).published
  {
  }

  lemma MissIsPublished(s: State, pid: nat)
    requires RowsInv(s) && Enabled(s, MarkFind(pid)) && pid !in Step(s, MarkFind(pid)).markers
    ensures s.markers[pid].id in s.published
  {
  }

  /** A handler works on one message from its delivery on. */
  lemma HandlerId(s: State, a: Action, pid: nat)
    requires Enabled(s, a) && pid in Step(s, a).markers
    ensures var id := Step(s, a).markers[pid].id;
            a == DeliverToMarker(pid, id) || (pid in s.markers && s.markers[pid].id == id)
  {
  }

  /** Only these steps end a handler. */
  lemma HandlerEnds(s: State, a: Action, pid: nat)
    requires Enabled(s, a) && pid in s.markers && pid !in Step(s, a).markers
    ensures a in {StopMarker(pid), MarkFind(pid)} || (a.MarkWrite? && a.pid == pid)
  {
  }

  /** A step keeps a handler at work on its message, stops it, or finds or leaves the row published. */
  lemma HandlerStep(s: State, a: Action, pid: nat)
    requires RowsInv(s) && Enabled(s, a) && pid in s.markers && a != StopMarker(pid)
    ensures var s', id := Step(s, a), s.markers[pid].id;
            (pid in s'.markers && s'.markers[pid].id == id) || id in s'.published
  {
    if pid in Step(s, a).markers {
      HandlerId(s, a, pid);
    } else {
      HandlerEnds(s, a, pid);
      if a.MarkWrite? {
        WritePublishes(s, pid, a.now);
      } else {
        MissIsPublished(s, pid);
      }
    }
  }

  /** A handler that is not stopped ends with its row published, whatever happens meanwhile. */
  lemma {:induction false} HandlerPublishes(s: State, acts: seq<Action>, pid: nat)
    requires RowsInv(s) && Run(s, acts) && NoStop(acts, pid)
    requires pid in s.markers && pid !in Exec(s, acts).markers
    ensures s.markers[pid].id in Exec(s, acts).published
    decreases |acts|
  {
    assert acts != [];
    var a, s' := acts[0], Step(s, acts[0]);
    NoStopTail(acts, pid);
    RowsStep(s, a);
    HandlerStep(s, a, pid);
    if s.markers[pid].id in s'.published {
      PublishedStays(s', acts[1..]);
    } else {
      HandlerPublishes(s', acts[1..], pid);
    }
  }

  /** From action n on, a message with the id is delivered to a handler that is not stopped
      and has ended by the end of the run. */
  ghost predicate Answered(s: State, acts: seq<Action>, id: int, n: nat)
    requires Run(s, acts)
  {
    exists i: nat, pid: nat | n <= i < |acts| ::
      acts[i] == DeliverToMarker(pid, id) && NoStop(acts[i + 1..], pid) && pid !in Exec(s, acts).markers
  }

  lemma {:induction false} AnsweredPublishes(s: State, acts: seq<Action>, i: nat, pid: nat, id: int)
    requires RowsInv(s) && Run(s, acts) && i < |acts| && acts[i] == DeliverToMarker(pid, id)
    requires NoStop(acts[i + 1..], pid) && pid !in Exec(s, acts).markers
    ensures id in Exec(s, acts).published
    decreases i
  {
    RowsStep(s, acts[0]);
    if i == 0 {
      HandlerPublishes(Step(s, acts[0]), acts[1..], pid);
    } else {
      assert acts[1..][i..] == acts[i + 1..];
      AnsweredPublishes(Step(s, acts[0]), acts[1..], i - 1, pid, id);
    }
  }

  predicate NotStopped(acts: seq<Action>, job: nat) {
    forall j | 0 <= j < |acts| :: acts[j] != StopResend(job)
  }

  /** The job is not stopped and has emptied its list by the end of the run. */
  ghost predicate JobEnds(s: State, acts: seq<Action>, job: nat)
    requires Run(s, acts)
  {
    && NotStopped(acts, job)
    && job in Exec(s, acts).resends && Exec(s, acts).resends[job] == {}
  }

  predicate EmittedIn(acts: seq<Action>, job: nat, id: int) {
    exists n | 0 <= n < |acts| :: acts[n] == Emit(job, id)
  }

  lemma EmittedInTail(acts: seq<Action>, job: nat, id: int)
    requires acts != []
    ensures EmittedIn(acts, job, id) <==> acts[0] == Emit(job, id) || EmittedIn(acts[1..], job, id)
  {
    if n :| 0 <= n < |acts[1..]| && acts[1..][n] == Emit(job, id) {
      assert acts[n + 1] == acts[1..][n];
    }
    if n :| 0 < n < |acts| && acts[n] == Emit(job, id) {
      assert acts[1..][n - 1] == acts[n];
    }
  }

  lemma ListStep(s: State, a: Action, job: nat, id: int)
    requires Enabled(s, a) && job in s.resends && a != StopResend(job)
    ensures job in Step(s, a).resends
    ensures id in Step(s, a).resends[job] <==> id in s.resends[job] && a != Emit(job, id)
    ensures a == Emit(job, id) ==> id in s.resends[job]
  {
  }

  /** What a running job emits: each id comes off its list when it is emitted, only listed ids
      are emitted, and what is not emitted stays on the list. */
  lemma {:induction false} ListExactly(s: State, acts: seq<Action>, job: nat, id: int)
    requires Run(s, acts) && NotStopped(acts, job) && job in s.resends
    ensures job in Exec(s, acts).resends
    ensures id in Exec(s, acts).resends[job] <==> id in s.resends[job] && !EmittedIn(acts, job, id)
    ensures EmittedIn(acts, job, id) ==> id in s.resends[job]
    decreases |acts|
  {
    if acts != [] {
      assert forall j | 0 <= j < |acts[1..]| :: acts[1..][j] == acts[j + 1];
      ListStep(s, acts[0], job, id);
      EmittedInTail(acts, job, id);
      ListExactly(Step(s, acts[0]), acts[1..], job, id);
    }
  }

  /** Every message that the job emits is answered. */
  ghost predicate AllAnswered(s: State, acts: seq<Action>, job: nat)
    requires Run(s, acts)
  {
    forall n | 0 <= n < |acts| && acts[n].Emit? && acts[n].job == job :: Answered(s, acts, acts[n].id, n + 1)
  }

  lemma ListedArePublished(s: State, acts: seq<Action>, job: nat)
    requires RowsInv(s) && Run(s, acts) && job in s.resends
    requires JobEnds(s, acts, job) && AllAnswered(s, acts, job)
    ensures s.resends[job] <= Exec(s, acts).published
  {
    forall id | id in s.resends[job]
      ensures id in Exec(s, acts).published
    {
      ListExactly(s, acts, job, id);
      var n: nat :| n < |acts| && acts[n] == Emit(job, id);
      assert Answered(s, acts, acts[n].id, n + 1);
      var i: nat, pid: nat :| n + 1 <= i < |acts| && acts[i] == DeliverToMarker(pid, id)
        && NoStop(acts[i + 1..], pid) && pid !in Exec(s, acts).markers;
      AnsweredPublishes(s, acts, i, pid, id);
    }
  }

  /** No handler is or comes to be at work on the id. */
  predicate Untouched(s: State, acts: seq<Action>, id: int) {
    && (forall pid | pid in s.markers :: s.markers[pid].id != id)
    && (forall j | 0 <= j < |acts| && acts[j].DeliverToMarker? :: acts[j].id != id)
  }

  lemma UntouchedTail(s: State, acts: seq<Action>, id: int)
    requires acts != [] && Enabled(s, acts[0]) && Untouched(s, acts, id)
    ensures Untouched(Step(s, acts[0]), acts[1..], id)
  {
    forall pid | pid in Step(s, acts[0]).markers
      ensures Step(s, acts[0]).markers[pid].id != id
    {
      HandlerId(s, acts[0], pid);
    }
    assert forall j | 0 <= j < |acts[1..]| :: acts[1..][j] == acts[j + 1];
  }

  lemma UntouchedStep(s: State, a: Action, id: int)
    requires RowsInv(s) && Enabled(s, a) && id in s.issued
    requires forall pid | pid in s.markers :: s.markers[pid].id != id
    ensures id in Step(s, a).issued
    ensures id in Step(s, a).rows ==> id in s.rows && Step(s, a).rows[id] == s.rows[id]
    ensures id in s.rows && id !in Step(s, a).rows ==> s.rows[id].status == PUBLISHED
  {
    match a
    case MarkWrite(pid, _) => assert s.markers[pid].id != id;
    case CleanUp(_) =>
    case CommitEvent(_, _) =>
    case _ => assert Step(s, a).rows == s.rows;
  }

  /** Such a row is as it was, unless the clean-up took it as it was, PUBLISHED and old. */
  lemma {:induction false} UntouchedRow(s: State, acts: seq<Action>, id: int)
    requires RowsInv(s) && Run(s, acts) && id in s.issued && Untouched(s, acts, id)
    ensures id in Exec(s, acts).rows ==> id in s.rows && Exec(s, acts).rows[id] == s.rows[id]
    ensures id in s.rows && id !in Exec(s, acts).rows ==> s.rows[id].status == PUBLISHED
    decreases |acts|
  {
    if acts != [] {
      var a, s' := acts[0], Step(s, acts[0]);
      UntouchedTail(s, acts, id);
      RowsStep(s, a);
      UntouchedStep(s, a, id);
      UntouchedRow(s', acts[1..], id);
    }
  }

  /** The same in the running system. A resend job takes its list at time now and empties it;
      each message that it emits reaches, in any order and any number of times, at least one
      handler that runs to its end; everything else the relay does goes on meanwhile. Then the
      job has emitted the failed rows and no other, and every one of them has been published. A
      row older than the cutoff is INIT exactly if it was committed only after the list was taken
      and has not been published yet: without such late commits there is none. A row on which no
      handler worked is as it was or was cleaned up. */
  lemma ResendCatchesUp(s: State, job: nat, now: int, acts: seq<Action>)
    requires RowsInv(s) && Enabled(s, StartResend(job, now))
    requires Run(Step(s, StartResend(job, now)), acts)
    requires JobEnds(Step(s, StartResend(job, now)), acts, job)
    requires AllAnswered(Step(s, StartResend(job, now)), acts, job)
    ensures var s', cutoff := Exec(Step(s, StartResend(job, now)), acts), now - RETRY_AFTER_MS;
            && (forall k :: EmittedIn(acts, job, k) <==> k in Failed(s.rows, now))
            && Failed(s.rows, now) <= s'.published
            && (forall k :: k in Failed(s'.rows, now) <==> CommittedLate(acts, k, cutoff) && k !in s'.published)
            && forall k | k in s.rows && Untouched(s, acts, k) ::
                 if k in s'.rows then s'.rows[k] == s.rows[k] else s.rows[k].status == PUBLISHED
  {
    var s1, cutoff := Step(s, StartResend(job, now)), now - RETRY_AFTER_MS;
    RowsStep(s, StartResend(job, now));
    ListedArePublished(s1, acts, job);
    forall k
      ensures EmittedIn(acts, job, k) <==> k in Failed(s.rows, now)
    {
      ListExactly(s1, acts, job, k);
    }
    forall k
      ensures k in Failed(Exec(s1, acts).rows, now) <==>
                CommittedLate(acts, k, cutoff) && k !in Exec(s1, acts).published
    {
      OldInitExactly(s1, acts, k, cutoff);
      assert OldInit(s1, k, cutoff) <==> k in Failed(s.rows, now);
    }
    forall k | k in s.rows && Untouched(s, acts, k)
      ensures var rows := Exec(s1, acts).rows;
              if k in rows then rows[k] == s.rows[k] else s.rows[k].status == PUBLISHED
    {
      UntouchedRow(s1, acts, k);
    }
  }

  // ---- When a row is first resent ----

  const TICK_MS := 1000 * 60 * 5

  function Tick(phase: int, n: nat): int {
    phase + n * TICK_MS
  }

  /** With a tick every five minutes, a row that stays INIT is first picked up by a tick no
      later than eight minutes after its creation, and by no earlier tick. */
  lemma FirstResend(createdAt: int, phase: int) returns (n: nat)
    requires phase <= createdAt
    ensures Tick(phase, n) <= createdAt + 8 * 60 * 1000
    ensures forall rows: map<int, Row>, k | k in rows && rows[k] == Row(INIT, createdAt) ::
              k in Failed(rows, Tick(phase, n))
    ensures forall rows: map<int, Row>, k, m: nat | k in rows && rows[k].createdAt == createdAt && m < n ::
              k !in Failed(rows, Tick(phase, m))
  {
    n := (createdAt + RETRY_AFTER_MS - phase) / TICK_MS + 1;
    assert Tick(phase, n - 1) <= createdAt + RETRY_AFTER_MS < Tick(phase, n);
    forall m: nat | m < n
      ensures Tick(phase, m) <= Tick(phase, n - 1)
    {
    }
  }
}
