/** Correlating completion notifications with waiting requests.  Each locked region is
    one atomic step; requests, notifications and time-outs interleave freely. */
module ZmqBarrier {
  import opened Common

  type Id = string

  datatype Barrier = Barrier(active: set<Id>, counts: map<Id, int>)

  function Register(b: Barrier, id: Id): Barrier {
    Barrier(b.active + {id}, b.counts[id := 0])
  }

  function Discard(b: Barrier, id: Id): Barrier {
    Barrier(b.active - {id}, b.counts - {id})
  }

  // One decoded notification; those for unknown requests are ignored.
  function Notify(b: Barrier, id: Id): Barrier {
    if id !in b.active then b
    else Barrier(b.active, b.counts[id := Count(b, id) + 1])
  }

  function Count(b: Barrier, id: Id): int {
    if id in b.counts then b.counts[id] else 0
  }

  class ZmqNotificationListener {
    var active: set<Id>
    var counts: map<Id, int>

    ghost function Abs(): Barrier
      reads this
    {
      Barrier(active, counts)
    }

    constructor ()
      ensures Abs() == Barrier({}, map[])
    {
      active, counts := {}, map[];
    }

    method RegisterRequest(id: Id)
      modifies this
      ensures Abs() == Register(old(Abs()), id)
    {
      active := active + {id};
      counts := counts[id := 0];
    }

    method DiscardRequest(id: Id)
      modifies this
      ensures Abs() == Discard(old(Abs()), id)
    {
      active := active - {id};
      counts := counts - {id};
    }

    // The counting step of the receive loop.  `None` is a key error.
    method Receive(id: Id) returns (count: Option<int>)
      modifies this
      ensures active == counts.Keys || old(active != counts.Keys)
      ensures old(active <= counts.Keys) ==>
                Abs() == Notify(old(Abs()), id) && count == Some(if id in active then Count(Abs(), id) else 0)
    {
      if id !in active {
        return Some(0);
      }
      if id !in counts {
        return None;
      }
      counts := counts[id := counts[id] + 1];
      return Some(counts[id]);
    }
  }

  // ---------------------------------------------------------------- interleaved runs

  datatype Event =
    | Registers(id: Id)
    | Notifies(id: Id)
    | Discards(id: Id)                 // the request fails before waiting
    | Passes(id: Id, expected: int)    // the wait's condition is seen to hold
    | TimesOut(id: Id)
    | Leaves(id: Id)                   // the discard that ends every wait

  datatype Stage = Registered | Leaving | Gone

  datatype State = State(barrier: Barrier, stage: map<Id, Stage>)

  const Initial := State(Barrier({}, map[]), map[])

  predicate InStage(s: State, id: Id, stage: Stage) {
    id in s.stage && s.stage[id] == stage
  }

  // Request ids are never reused; a request registers, then either discards or waits.
  predicate Enabled(s: State, e: Event) {
    match e
    case Registers(id) => id !in s.stage
    case Notifies(_) => true
    case Discards(id) => InStage(s, id, Registered)
    case Passes(id, expected) => InStage(s, id, Registered) && Count(s.barrier, id) >= expected
    case TimesOut(id) => InStage(s, id, Registered)
    case Leaves(id) => InStage(s, id, Leaving)
  }

  function Apply(s: State, e: Event): State {
    match e
    case Registers(id) => State(Register(s.barrier, id), s.stage[id := Registered])
    case Notifies(id) => State(Notify(s.barrier, id), s.stage)
    case Discards(id) => State(Discard(s.barrier, id), s.stage[id := Gone])
    case Passes(id, _) => State(s.barrier, s.stage[id := Leaving])
    case TimesOut(id) => State(s.barrier, s.stage[id := Leaving])
    case Leaves(id) => State(Discard(s.barrier, id), s.stage[id := Gone])
  }

  function After(es: seq<Event>): State {
    if es == [] then Initial else Apply(After(es[..|es| - 1]), es[|es| - 1])
  }

  predicate IsRun(es: seq<Event>) {
    es == [] || (IsRun(es[..|es| - 1]) && Enabled(After(es[..|es| - 1]), es[|es| - 1]))
  }

  // The notifications sent for `id` since it was registered, counted from the events alone.
  function NotifiedSince(es: seq<Event>, id: Id): nat {
    if es == [] || es[|es| - 1] == Registers(id) then 0
    else NotifiedSince(es[..|es| - 1], id) + if es[|es| - 1] == Notifies(id) then 1 else 0
  }

  ghost predicate Agree(s: State, es: seq<Event>) {
    && s.barrier.active == s.barrier.counts.Keys
    && (forall id :: id in s.barrier.active <==> InStage(s, id, Registered) || InStage(s, id, Leaving))
    && (forall id :: id in s.barrier.active ==> s.barrier.counts[id] == NotifiedSince(es, id))
  }

  lemma AgreeStep(s: State, es: seq<Event>, e: Event)
    requires Agree(s, es) && Enabled(s, e)
    ensures Agree(Apply(s, e), es + [e])
  {
    assert (es + [e])[..|es|] == es;
    var t := Apply(s, e);
    forall id | id in t.barrier.active ensures t.barrier.counts[id] == NotifiedSince(es + [e], id) {
      assert e.id != id ==> id in s.barrier.active;
    }
  }

  /** In every reachable state the active ids are the counted ids, and each count is the
      number of notifications for that id since its registration. */
  lemma {:induction false} CountsAreNotifications(es: seq<Event>)
    requires IsRun(es)
    ensures Agree(After(es), es)
  {
    if es != [] {
      var front, e := es[..|es| - 1], es[|es| - 1];
      CountsAreNotifications(front);
      AgreeStep(After(front), front, e);
      assert front + [e] == es;
    }
  }

  /** A registered request's wait can return normally exactly when at least the expected
      notifications for it have arrived since its registration. */
  lemma WaitNeedsNotifications(es: seq<Event>, id: Id, expected: int)
    requires IsRun(es) && InStage(After(es), id, Registered)
    ensures Enabled(After(es), Passes(id, expected)) <==> NotifiedSince(es, id) >= expected
  {
    CountsAreNotifications(es);
  }

  /** So in every run, at every normal end of a wait, at least the expected notifications
      have arrived since the request was registered. */
  lemma {:induction false} EveryWaitWasNotified(es: seq<Event>)
    requires IsRun(es)
    ensures forall k :: 0 <= k < |es| && es[k].Passes? ==> NotifiedSince(es[..k], es[k].id) >= es[k].expected
  {
    if es != [] {
      var front, last := es[..|es| - 1], es[|es| - 1];
      EveryWaitWasNotified(front);
      if last.Passes? {
        WaitNeedsNotifications(front, last.id, last.expected);
      }
      forall k | 0 <= k < |es| && es[k].Passes? ensures NotifiedSince(es[..k], es[k].id) >= es[k].expected {
        assert k < |front| ==> front[k] == es[k] && front[..k] == es[..k];
      }
    }
  }

  /** A notification changes no other id's entry, and none at all for an unknown id. */
  lemma NotificationsAreSeparate(es: seq<Event>, id: Id, other: Id)
    requires IsRun(es) && other != id
    ensures var b, after := After(es).barrier, Notify(After(es).barrier, id);
            && after.active == b.active
            && (other in after.counts <==> other in b.counts)
            && Count(after, other) == Count(b, other)
            && (id !in b.counts ==> after == b)
            && (id in b.counts ==> Count(after, id) == Count(b, id) + 1)
  {
    CountsAreNotifications(es);
  }

  /** Once a request's wait has ended, normally or not, no entry for it ever appears again. */
  lemma {:induction false} GoneForGood(es: seq<Event>, k: nat)
    requires IsRun(es) && k < |es| && (es[k].Leaves? || es[k].Discards?)
    ensures InStage(After(es), es[k].id, Gone)
    ensures es[k].id !in After(es).barrier.active && es[k].id !in After(es).barrier.counts
  {
    var front := es[..|es| - 1];
    if k < |front| {
      GoneForGood(front, k);
    }
    CountsAreNotifications(es);
  }
}
