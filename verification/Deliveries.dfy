/** What happens to an event on its way: which ids are on the bus, and that a delivery to the
    data platform consumer that is not stopped has its effect. */
module Deliveries {
  import opened Relay

  // ---- On the bus ----

  /** The action hands a message with the id to the bus. */
  predicate Sends(a: Action, id: int) {
    a == Announce(id) || (a.Emit? && a.id == id)
  }

  predicate SentIn(acts: seq<Action>, id: int) {
    exists j | 0 <= j < |acts| :: Sends(acts[j], id)
  }

  lemma SentInTail(acts: seq<Action>, id: int)
    requires acts != []
    ensures SentIn(acts, id) <==> Sends(acts[0], id) || SentIn(acts[1..], id)
  {
    if SentIn(acts[1..], id) {
      var j :| 0 <= j < |acts[1..]| && Sends(acts[1..][j], id);
      assert acts[j + 1] == acts[1..][j];
    }
    if j :| 0 < j < |acts| && Sends(acts[j], id) {
      assert acts[1..][j - 1] == acts[j];
    }
  }

  lemma SentStep(s: State, a: Action, id: int)
    requires Enabled(s, a)
    ensures id in Step(s, a).sent <==> id in s.sent || Sends(a, id)
  {
  }

  /** A message can be delivered exactly if the announcement or a resend has sent it. */
  lemma {:induction false} SentExactly(s: State, acts: seq<Action>, id: int)
    requires Run(s, acts)
    ensures id in Exec(s, acts).sent <==> id in s.sent || SentIn(acts, id)
    decreases |acts|
  {
    if acts != [] {
      SentStep(s, acts[0], id);
      SentInTail(acts, id);
      SentExactly(Step(s, acts[0]), acts[1..], id);
    }
  }

  /** The action settles the announcement of the id: made, or lost with the server. */
  predicate Settles(a: Action, id: int) {
    a in {Announce(id), LoseAnnouncement(id)}
  }

  predicate SettledIn(acts: seq<Action>, id: int) {
    exists j | 0 <= j < |acts| :: Settles(acts[j], id)
  }

  lemma SettledInTail(acts: seq<Action>, id: int)
    requires acts != []
    ensures SettledIn(acts, id) <==> Settles(acts[0], id) || SettledIn(acts[1..], id)
  {
    if SettledIn(acts[1..], id) {
      var j :| 0 <= j < |acts[1..]| && Settles(acts[1..][j], id);
      assert acts[j + 1] == acts[1..][j];
    }
    if j :| 0 < j < |acts| && Settles(acts[j], id) {
      assert acts[1..][j - 1] == acts[j];
    }
  }

  lemma AnnouncingStep(s: State, a: Action, id: int)
    requires Enabled(s, a)
    ensures id in Step(s, a).announcing <==>
              (id in s.announcing || (a.CommitEvent? && a.id == id)) && !Settles(a, id)
    ensures id in Step(s, a).issued <==> id in s.issued || (a.CommitEvent? && a.id == id)
    ensures Settles(a, id) ==> id in s.announcing
  {
  }

  lemma AnnouncingIssued(s: State, a: Action)
    requires s.announcing <= s.issued && Enabled(s, a)
    ensures Step(s, a).announcing <= Step(s, a).issued
  {
  }

  /** Once settled, an announcement is not made again. */
  lemma {:induction false} SettledForGood(s: State, acts: seq<Action>, id: int)
    requires s.announcing <= s.issued && Run(s, acts) && id in s.issued && id !in s.announcing
    ensures id !in Exec(s, acts).announcing && !SettledIn(acts, id)
    decreases |acts|
  {
    if acts != [] {
      AnnouncingStep(s, acts[0], id);
      AnnouncingIssued(s, acts[0]);
      SettledInTail(acts, id);
      SettledForGood(Step(s, acts[0]), acts[1..], id);
    }
  }

  /** A committed event is waiting to be announced exactly until it is announced or lost. */
  lemma {:induction false} AnnouncingExactly(s: State, acts: seq<Action>, id: int)
    requires s.announcing <= s.issued && (id in s.issued ==> id in s.announcing) && Run(s, acts)
    ensures id in Exec(s, acts).announcing <==> id in Exec(s, acts).issued && !SettledIn(acts, id)
    decreases |acts|
  {
    if acts != [] {
      var s1 := Step(s, acts[0]);
      AnnouncingStep(s, acts[0], id);
      AnnouncingIssued(s, acts[0]);
      SettledInTail(acts, id);
      if Settles(acts[0], id) {
        SettledForGood(s1, acts[1..], id);
      } else {
        AnnouncingExactly(s1, acts[1..], id);
      }
    }
  }

  // ---- At the data platform consumer ----

  /** A handler is at work on the id. */
  predicate InHand(s: State, pid: nat, id: int) {
    pid in s.deliveries && s.deliveries[pid].id == id
  }

  predicate NeverStopped(acts: seq<Action>, pid: nat) {
    forall j | 0 <= j < |acts| :: acts[j] != StopDelivery(pid)
  }

  lemma ProcessedStep(s: State, a: Action, id: int)
    requires Enabled(s, a) && id in s.processed
    ensures id in Step(s, a).processed
  {
  }

  lemma {:induction false} ProcessedStays(s: State, acts: seq<Action>, id: int)
    requires Run(s, acts) && id in s.processed
    ensures id in Exec(s, acts).processed
    decreases |acts|
  {
    if acts != [] {
      ProcessedStep(s, acts[0], id);
      ProcessedStays(Step(s, acts[0]), acts[1..], id);
    }
  }

  /** A step that does not stop the handler leaves it at work or leaves its id registered. */
  lemma InHandStep(s: State, a: Action, pid: nat, id: int)
    requires CallsInv(s) && Enabled(s, a) && InHand(s, pid, id) && a != StopDelivery(pid)
    ensures InHand(Step(s, a), pid, id) || id in Step(s, a).processed
  {
    assert InStep(s.sent, s.processed, s.calls, s.deliveries[pid]);
  }

  lemma {:induction false} HandlerRegisters(s: State, acts: seq<Action>, pid: nat, id: int)
    requires CallsInv(s) && Run(s, acts) && NeverStopped(acts, pid)
    requires InHand(s, pid, id) && pid !in Exec(s, acts).deliveries
    ensures id in Exec(s, acts).processed
    decreases |acts|
  {
    assert acts != [];
    var s1 := Step(s, acts[0]);
    assert forall j | 0 <= j < |acts[1..]| :: acts[1..][j] == acts[j + 1];
    CallsStep(s, acts[0]);
    InHandStep(s, acts[0], pid, id);
    if id in s1.processed {
      ProcessedStays(s1, acts[1..], id);
    } else {
      HandlerRegisters(s1, acts[1..], pid, id);
    }
  }

  /** A delivery whose handler is not stopped and has ended leaves its id registered. */
  lemma {:induction false} DeliveryRegisters(s: State, acts: seq<Action>, i: nat, pid: nat, id: int)
    requires CallsInv(s) && Run(s, acts) && i < |acts| && acts[i] == DeliverToPlatform(pid, id)
    requires NeverStopped(acts[i + 1..], pid) && pid !in Exec(s, acts).deliveries
    ensures id in Exec(s, acts).processed
    decreases i
  {
    CallsStep(s, acts[0]);
    if i == 0 {
      HandlerRegisters(Step(s, acts[0]), acts[1..], pid, id);
    } else {
      assert acts[1..][i..] == acts[i + 1..];
      DeliveryRegisters(Step(s, acts[0]), acts[1..], i - 1, pid, id);
    }
  }

  // ---- Exactly once ----

  /** No handler of the id is stopped. */
  predicate Unstopped(s: State, acts: seq<Action>, id: int)
    requires Run(s, acts)
    decreases |acts|
  {
    || acts == []
    || (&& (acts[0].StopDelivery? ==> !InHand(s, acts[0].pid, id))
        && Unstopped(Step(s, acts[0]), acts[1..], id))
  }

  predicate DeliveredIn(acts: seq<Action>, id: int) {
    exists j | 0 <= j < |acts| :: acts[j].DeliverToPlatform? && acts[j].id == id
  }

  /** A registered id that is not SUCCESS has its owner at work, and a delivered id is
      registered or in hand. */
  ghost predicate UnderWay(s: State, id: int) {
    && (id in s.processed && s.processed[id] == RECEIVED ==> exists pid :: Owns(s.deliveries, pid, id))
    && (id in s.processed || exists pid :: InHand(s, pid, id))
  }

  lemma UnderWayStep(s: State, a: Action, id: int)
    requires CallsInv(s) && Enabled(s, a) && UnderWay(s, id)
    requires a.StopDelivery? ==> !InHand(s, a.pid, id)
    ensures UnderWay(Step(s, a), id)
  {
    var s' := Step(s, a);
    if id in s.processed {
      ProcessedStep(s, a, id);
      if s'.processed[id] == RECEIVED {
        OwnerStays(s, a, id);
      }
    } else {
      var pid: nat :| InHand(s, pid, id);
      InHandStep(s, a, pid, id);
      if id in s'.processed {
        RegisteredNow(s, a, id);
      }
    }
  }

  /** Only registration makes an id known, and then its handler owns it. */
  lemma RegisteredNow(s: State, a: Action, id: int)
    requires CallsInv(s) && Enabled(s, a) && id !in s.processed && id in Step(s, a).processed
    ensures exists pid :: Owns(Step(s, a).deliveries, pid, id)
  {
    assert forall pid | pid in s.deliveries :: InStep(s.sent, s.processed, s.calls, s.deliveries[pid]);
    assert a.Register? && Owns(Step(s, a).deliveries, a.pid, id);
  }

  lemma OwnerStays(s: State, a: Action, id: int)
    requires CallsInv(s) && Enabled(s, a) && id in s.processed && id in Step(s, a).processed
    requires s.processed[id] == RECEIVED ==> exists pid :: Owns(s.deliveries, pid, id)
    requires a.StopDelivery? ==> !InHand(s, a.pid, id)
    requires Step(s, a).processed[id] == RECEIVED
    ensures exists pid :: Owns(Step(s, a).deliveries, pid, id)
  {
    if s.processed[id] == RECEIVED {
      var pid: nat :| Owns(s.deliveries, pid, id);
      assert Owns(Step(s, a).deliveries, pid, id);
    }
  }

  lemma {:induction false} UnderWayOn(s: State, acts: seq<Action>, id: int)
    requires CallsInv(s) && Run(s, acts) && Unstopped(s, acts, id) && UnderWay(s, id)
    ensures UnderWay(Exec(s, acts), id) && CallsInv(Exec(s, acts))
    decreases |acts|
  {
    if acts != [] {
      CallsStep(s, acts[0]);
      UnderWayStep(s, acts[0], id);
      UnderWayOn(Step(s, acts[0]), acts[1..], id);
    }
  }

  /** Before the first delivery of an id nothing has happened to it. */
  lemma {:induction false} DeliveredIsUnderWay(s: State, acts: seq<Action>, id: int)
    requires CallsInv(s) && Run(s, acts) && Unstopped(s, acts, id) && DeliveredIn(acts, id)
    requires id !in s.processed || UnderWay(s, id)
    ensures UnderWay(Exec(s, acts), id) && CallsInv(Exec(s, acts))
    decreases |acts|
  {
    var a, s1 := acts[0], Step(s, acts[0]);
    CallsStep(s, a);
    if id in s.processed || UnderWay(s, id) {
      UnderWayStep(s, a, id);
      UnderWayOn(s1, acts[1..], id);
    } else if a.DeliverToPlatform? && a.id == id {
      assert InHand(s1, a.pid, id);
      UnderWayOn(s1, acts[1..], id);
    } else {
      var j :| 0 <= j < |acts| && acts[j].DeliverToPlatform? && acts[j].id == id;
      assert acts[1..][j - 1] == acts[j];
      if id in s1.processed {
        RegisteredNow(s, a, id);
      }
      DeliveredIsUnderWay(s1, acts[1..], id);
    }
  }

  /** Exactly once, without consumer crashes: if an id was delivered at least once, in any order
      and number, and no handler of it was stopped or is still at work, then it was sent to the
      data platform exactly once and its row says SUCCESS. */
  lemma ExactlyOnce(acts: seq<Action>, id: int)
    requires Run(Empty, acts) && Unstopped(Empty, acts, id) && DeliveredIn(acts, id)
    requires forall pid :: !InHand(Exec(Empty, acts), pid, id)
    ensures var s := Exec(Empty, acts);
            s.calls[id] == 1 && id in s.processed && s.processed[id] == SUCCESS
  {
    DeliveredIsUnderWay(Empty, acts, id);
    var s := Exec(Empty, acts);
    assert forall pid :: Owns(s.deliveries, pid, id) ==> InHand(s, pid, id);
  }
}
