/** The history of an outbox row over a whole run of the relay: exactly when a row that was
    cleaned up is in the table again. Everything is stated about the states of one run, by the
    number of actions done. */
module RowHistories {
  import opened Relay

  lemma {:induction false} RunPrefix(s: State, acts: seq<Action>, n: nat)
    requires Run(s, acts) && n <= |acts|
    ensures Run(s, acts[..n])
    decreases n
  {
    if n > 0 {
      assert acts[..n][0] == acts[0] && acts[..n][1..] == acts[1..][..n - 1];
      RunPrefix(Step(s, acts[0]), acts[1..], n - 1);
    }
  }

  /** The state after n actions of a run. */
  function At(acts: seq<Action>, n: nat): State
    requires Run(Empty, acts) && n <= |acts|
  {
    RunPrefix(Empty, acts, n);
    Exec(Empty, acts[..n])
  }

  lemma {:induction false} LastOfRun(s: State, acts: seq<Action>, a: Action)
    requires Run(s, acts + [a])
    ensures Run(s, acts) && Enabled(Exec(s, acts), a) && Exec(s, acts + [a]) == Step(Exec(s, acts), a)
    decreases |acts|
  {
    if acts == [] {
      assert [] + [a] == [a];
      OneStep(s, a);
    } else {
      assert (acts + [a])[1..] == acts[1..] + [a];
      LastOfRun(Step(s, acts[0]), acts[1..], a);
    }
  }

  lemma Next(acts: seq<Action>, n: nat)
    requires Run(Empty, acts) && n < |acts|
    ensures Enabled(At(acts, n), acts[n]) && At(acts, n + 1) == Step(At(acts, n), acts[n])
  {
    RunPrefix(Empty, acts, n + 1);
    assert acts[..n + 1] == acts[..n] + [acts[n]];
    LastOfRun(Empty, acts[..n], acts[n]);
  }

  lemma Sound(acts: seq<Action>, n: nat)
    requires Run(Empty, acts) && n <= |acts|
    ensures RowsInv(At(acts, n))
  {
    RunPrefix(Empty, acts, n);
    RunInv(Empty, acts[..n]);
  }

  // ---- What a handler has seen ----

  predicate MarkerIs(acts: seq<Action>, n: nat, pid: nat, m: Marker)
    requires Run(Empty, acts) && n <= |acts|
  {
    pid in At(acts, n).markers && At(acts, n).markers[pid] == m
  }

  /** The handler's marker is m from state i to state j. */
  ghost predicate MarkerStays(acts: seq<Action>, i: nat, j: nat, pid: nat, m: Marker)
    requires Run(Empty, acts) && j <= |acts|
  {
    forall n | i <= n <= j :: MarkerIs(acts, n, pid, m)
  }

  /** The handler found the row with action f. */
  predicate Finds(acts: seq<Action>, f: nat, pid: nat, id: int)
    requires Run(Empty, acts)
  {
    f < |acts| && acts[f] == MarkFind(pid) && MarkerIs(acts, f, pid, Finding(id)) && id in At(acts, f).rows
  }

  /** The handler looked for the row again with action l, and it was gone. */
  predicate Misses(acts: seq<Action>, l: nat, pid: nat, id: int)
    requires Run(Empty, acts)
  {
    l < |acts| && acts[l] == MarkLook(pid) && MarkerIs(acts, l, pid, Saving(id)) && id !in At(acts, l).rows
  }

  /** A handler comes to have found its row only by finding it. */
  lemma SavingStep(s: State, a: Action, pid: nat, id: int)
    requires Enabled(s, a) && pid in Step(s, a).markers && Step(s, a).markers[pid] == Saving(id)
    ensures pid in s.markers
    ensures s.markers[pid] == Saving(id) || (a == MarkFind(pid) && s.markers[pid] == Finding(id) && id in s.rows)
  {
  }

  lemma WritingStep(s: State, a: Action, pid: nat, id: int)
    requires Enabled(s, a) && pid in Step(s, a).markers && Step(s, a).markers[pid] == Writing(id, false)
    ensures pid in s.markers
    ensures || s.markers[pid] == Writing(id, false)
            || (a == MarkLook(pid) && s.markers[pid] == Saving(id) && id !in s.rows)
  {
  }

  lemma {:induction false} WhenFound(acts: seq<Action>, n: nat, pid: nat, id: int) returns (f: nat)
    requires Run(Empty, acts) && n <= |acts| && MarkerIs(acts, n, pid, Saving(id))
    ensures f < n && Finds(acts, f, pid, id) && MarkerStays(acts, f + 1, n, pid, Saving(id))
    decreases n
  {
    Next(acts, n - 1);
    SavingStep(At(acts, n - 1), acts[n - 1], pid, id);
    if MarkerIs(acts, n - 1, pid, Saving(id)) {
      f := WhenFound(acts, n - 1, pid, id);
    } else {
      f := n - 1;
    }
  }

  lemma {:induction false} WhenMissed(acts: seq<Action>, n: nat, pid: nat, id: int) returns (l: nat)
    requires Run(Empty, acts) && n <= |acts| && MarkerIs(acts, n, pid, Writing(id, false))
    ensures l < n && Misses(acts, l, pid, id) && MarkerStays(acts, l + 1, n, pid, Writing(id, false))
    decreases n
  {
    Next(acts, n - 1);
    WritingStep(At(acts, n - 1), acts[n - 1], pid, id);
    if MarkerIs(acts, n - 1, pid, Writing(id, false)) {
      l := WhenMissed(acts, n - 1, pid, id);
    } else {
      l := n - 1;
    }
  }

  // ---- When a row left and when it came ----

  /** Action c is a clean-up that takes the row. */
  predicate Takes(acts: seq<Action>, c: nat, id: int)
    requires Run(Empty, acts)
  {
    c < |acts| && acts[c].CleanUp? && id in Old(At(acts, c).rows, acts[c].now)
  }

  /** A row that was there and is not was taken by a clean-up in between. */
  lemma {:induction false} WhenTaken(acts: seq<Action>, i: nat, j: nat, id: int) returns (c: nat)
    requires Run(Empty, acts) && i < j <= |acts| && id in At(acts, i).rows && id !in At(acts, j).rows
    ensures i <= c < j && Takes(acts, c, id)
    decreases j
  {
    Next(acts, j - 1);
    if id in At(acts, j - 1).rows {
      Sound(acts, j - 1);
      RowFate(At(acts, j - 1), acts[j - 1], id);
      c := j - 1;
    } else {
      c := WhenTaken(acts, i, j - 1, id);
    }
  }

  /** The row is in the table in state n and in every later one. */
  ghost predicate InSince(acts: seq<Action>, n: nat, id: int)
    requires Run(Empty, acts)
  {
    forall m | n <= m <= |acts| :: id in At(acts, m).rows
  }

  /** The last time that a row came into the table, if it is there in state n and since. */
  lemma {:induction false} WhenCame(acts: seq<Action>, n: nat, id: int) returns (w: nat)
    requires Run(Empty, acts) && n <= |acts| && InSince(acts, n, id)
    ensures w < n && id !in At(acts, w).rows && InSince(acts, w + 1, id)
    decreases n
  {
    assert id in At(acts, n).rows;
    assert acts[..0] == [];
    if id in At(acts, n - 1).rows {
      w := WhenCame(acts, n - 1, id);
    } else {
      w := n - 1;
    }
  }

  lemma RemovedStep(s: State, a: Action, id: int)
    requires Enabled(s, a)
    ensures id in Step(s, a).removed <==> id in s.removed || (a.CleanUp? && id in Old(s.rows, a.now))
  {
  }

  lemma {:induction false} RemovedStays(acts: seq<Action>, i: nat, j: nat, id: int)
    requires Run(Empty, acts) && i <= j <= |acts| && id in At(acts, i).removed
    ensures id in At(acts, j).removed
    decreases j
  {
    if i < j {
      RemovedStays(acts, i, j - 1, id);
      Next(acts, j - 1);
      RemovedStep(At(acts, j - 1), acts[j - 1], id);
    }
  }

  /** While a row is in the table nothing takes it. */
  lemma {:induction false} NotRemovedSince(acts: seq<Action>, i: nat, j: nat, id: int)
    requires Run(Empty, acts) && i <= j <= |acts| && id !in At(acts, i).removed && InSince(acts, i, id)
    ensures id !in At(acts, j).removed
    decreases j
  {
    if i < j {
      NotRemovedSince(acts, i, j - 1, id);
      Next(acts, j - 1);
      RemovedStep(At(acts, j - 1), acts[j - 1], id);
      assert id in At(acts, j).rows;
    }
  }

  // ---- Exactly when a removed row is back ----

  /** A handler found the row with action f, a clean-up took it with action c, the handler looked
      again with action l and saved it into the gap with action w; nothing else happened to the
      handler in between, and the row has been in the table since. */
  ghost predicate BroughtBack(acts: seq<Action>, f: nat, c: nat, l: nat, w: nat, pid: nat, id: int)
    requires Run(Empty, acts)
  {
    && f < c < l < w < |acts|
    && Finds(acts, f, pid, id) && MarkerStays(acts, f + 1, l, pid, Saving(id))
    && Takes(acts, c, id)
    && Misses(acts, l, pid, id) && MarkerStays(acts, l + 1, w, pid, Writing(id, false))
    && acts[w].MarkWrite? && acts[w].pid == pid && id !in At(acts, w).rows
    && InSince(acts, w + 1, id)
  }

  /** What brought in a row that had been removed. */
  lemma CameBySave(acts: seq<Action>, w: nat, id: int)
    requires Run(Empty, acts) && w < |acts| && id !in At(acts, w).rows && InSince(acts, w + 1, id)
    requires id in At(acts, |acts|).removed
    ensures acts[w].MarkWrite? && MarkerIs(acts, w, acts[w].pid, Writing(id, false))
  {
    Next(acts, w);
    assert id in At(acts, w + 1).rows;
    Sound(acts, w);
    RowOrigin(At(acts, w), acts[w], id);
    if acts[w].CommitEvent? {
      RemovedStep(At(acts, w), acts[w], id);
      NotRemovedSince(acts, w + 1, |acts|, id);
    }
  }

  lemma FindBringer(acts: seq<Action>, id: int) returns (f: nat, c: nat, l: nat, w: nat, pid: nat)
    requires Run(Empty, acts) && id in At(acts, |acts|).removed && id in At(acts, |acts|).rows
    ensures BroughtBack(acts, f, c, l, w, pid, id)
  {
    w := WhenCame(acts, |acts|, id);
    CameBySave(acts, w, id);
    pid := acts[w].pid;
    l := WhenMissed(acts, w, pid, id);
    f := WhenFound(acts, l, pid, id);
    c := WhenTaken(acts, f, l, id);
  }

  lemma TakenAndBack(acts: seq<Action>, c: nat, w: nat, id: int)
    requires Run(Empty, acts) && Takes(acts, c, id) && w < |acts| && InSince(acts, w + 1, id)
    ensures id in At(acts, |acts|).removed && id in At(acts, |acts|).rows
  {
    Next(acts, c);
    RemovedStep(At(acts, c), acts[c], id);
    RemovedStays(acts, c + 1, |acts|, id);
  }

  /** In any run: a row that the clean-up has deleted is in the table at the end if and only if
      a clean-up fell between some handler's find and its second look, that handler's save then
      inserted the row, and no clean-up has taken it since. */
  lemma BackExactly(acts: seq<Action>, id: int)
    requires Run(Empty, acts)
    ensures id in Exec(Empty, acts).removed && id in Exec(Empty, acts).rows <==>
              exists f, c, l, w, pid :: BroughtBack(acts, f, c, l, w, pid, id)
  {
    assert acts[..|acts|] == acts;
    if id in At(acts, |acts|).removed && id in At(acts, |acts|).rows {
      var f, c, l, w, pid := FindBringer(acts, id);
    }
    if f: nat, c: nat, l: nat, w: nat, pid: nat :| BroughtBack(acts, f, c, l, w, pid, id) {
      TakenAndBack(acts, c, w, id);
    }
  }
}
