/** Draining over whole runs: what is drained is not picked, stays draining, and goes without
    a reservation left behind; and the one way in which that fails. */
module Draining {
  import opened Common
  import CircuitBreakers
  import opened Registry
  import opened LoadBalancer
  import opened Leases
  import opened Protocol
  import opened ProtocolRuns

  ghost predicate IsDraining(s: System, a: Address) {
    a in s.records && s.records[a].status.Draining?
  }

  predicate RemovesAddress(s: System, e: Event, a: Address) {
    e.DrainRemoves? && s.lock.Some? && s.lock.value.address == a
  }

  // Every unreleased lease on `a` in the later history is one of the earlier history.
  ghost predicate NoGain(before: seq<Lease>, after: seq<Lease>, a: Address) {
    && |before| <= |after|
    && forall k :: 0 <= k < |after| && !after[k].released && after[k].address == a ==>
         k < |before| && !before[k].released && before[k].address == a
  }

  lemma StepLeases(env: Env, s: System, e: Event, t: System, a: Address)
    requires Step(env, s, e, t) && !Picks(e, a)
    ensures NoGain(s.leases, t.leases, a)
  {
    if e.Schedules? {
      ScheduledLeases(env, s, e, t);
    } else {
      StepMarks(env, s, e, t);
    }
  }

  predicate Picks(e: Event, a: Address) {
    e.Schedules? && e.address == a
  }

  // No policy picks a draining instance.
  lemma NeverPicked(env: Env, s: System, e: Event, t: System, a: Address)
    requires Step(env, s, e, t) && IsDraining(s, a)
    ensures !Picks(e, a)
  {
    if e.Schedules? {
      assert e.address in AvailableSet(s.records, env.cbEnabled, e.role, e.model);
    }
  }

  // No step but the removal ends the draining.
  lemma StaysDraining(env: Env, s: System, e: Event, t: System, a: Address)
    requires Step(env, s, e, t) && IsDraining(s, a) && !RemovesAddress(s, e, a)
    ensures IsDraining(t, a)
  {
    if IsRelease(e) {
      ReleasesOnlyCount(env, s, e, t);
    }
  }

  lemma RemovedClean(env: Env, s: System, e: Event, t: System, a: Address)
    requires Shaped(s) && Step(env, s, e, t) && RemovesAddress(s, e, a)
    ensures a !in t.records && (InStep(s, env.fallback, a) ==> Unleased(s.leases, a))
  {
    RemovedShape(s, s.lock.value.role, s.lock.value.address);
    UnleasedTotals(s.leases, a);
  }

  lemma OneDrainingStep(env: Env, start: seq<Lease>, s: System, e: Event, t: System, a: Address)
    requires Step(env, s, e, t) && IsDraining(s, a) && !RemovesAddress(s, e, a)
    requires NoGain(start, s.leases, a)
    ensures IsDraining(t, a) && NoGain(start, t.leases, a) && !Picks(e, a)
  {
    NeverPicked(env, s, e, t, a);
    StaysDraining(env, s, e, t, a);
    StepLeases(env, s, e, t, a);
  }

  lemma {:induction false} DrainsUntil(env: Env, states: seq<System>, es: seq<Event>, a: Address, i: nat, j: nat)
    requires Run(env, states, es) && i <= j <= |es| && IsDraining(states[i], a)
    requires forall k :: i <= k < j ==> !RemovesAddress(states[k], es[k], a)
    ensures IsDraining(states[j], a) && NoGain(states[i].leases, states[j].leases, a)
    ensures forall k :: i <= k < j ==> !Picks(es[k], a)
    decreases j
  {
    if i < j {
      DrainsUntil(env, states, es, a, i, j - 1);
      assert StepsAt(env, states, es, j - 1);
      OneDrainingStep(env, states[i].leases, states[j - 1], es[j - 1], states[j], a);
    }
  }

  /** Drain safety, in every run whatever state the records are in: from the moment an instance
      is draining until it is removed, it stays draining whatever health results arrive, no
      policy selects it, and it gains no lease; and unless a step before has spoiled its
      address, it is removed only without unreleased reservations. */
  lemma DrainSafety(env: Env, states: seq<System>, es: seq<Event>, a: Address, i: nat, j: nat)
    requires Run(env, states, es) && Shaped(states[0]) && InStep(states[0], env.fallback, a)
    requires i <= j <= |es| && IsDraining(states[i], a)
    requires forall k :: i <= k < j ==> !RemovesAddress(states[k], es[k], a)
    ensures IsDraining(states[j], a)
    ensures forall k :: i <= k < j ==> !Picks(es[k], a)
    ensures NoGain(states[i].leases, states[j].leases, a)
    ensures j < |es| && RemovesAddress(states[j], es[j], a) ==>
              && a !in states[j + 1].records
              && ((forall k :: 0 <= k < j ==> SparedAt(env, states, es, a, k)) ==> Unleased(states[j].leases, a))
  {
    DrainsUntil(env, states, es, a, i, j);
    if j < |es| && RemovesAddress(states[j], es[j], a) {
      AlwaysShaped(env, states, es, j);
      assert StepsAt(env, states, es, j);
      RemovedClean(env, states[j], es[j], states[j + 1], a);
      if forall k :: 0 <= k < j ==> SparedAt(env, states, es, a, k) {
        AgreedUntil(env, states, es, a, j);
      }
    }
  }

  /** A prefill or decode instance, where no address changes its role, is removed only
      without unreleased reservations. */
  lemma SplitDrainSafety(env: Env, states: seq<System>, es: seq<Event>, roleOf: Address -> Role, j: nat)
    requires Reaches(env, states, es) && |states| == |es| + 1 && OneRole(states, es, roleOf)
    requires j < |es| && es[j].DrainRemoves? && states[j].lock.Some? && !roleOf(states[j].lock.value.address).Aggregated?
    ensures Unleased(states[j].leases, states[j].lock.value.address)
  {
    assert StepsAt(env, states, es, j);
    SplitUntil(env, states, es, roleOf, j);
    RemovedClean(env, states[j], es[j], states[j + 1], states[j].lock.value.address);
  }

  // ---------------------------------------------------------------- the spoiled drain

  // An aggregated instance serves two requests; the first one's reply cannot be rendered, and
  // the instance is drained.
  function SpoiledDrain(a: Address, model: string): seq<Event> {
    [Schedules(Aggregated, model, 1, 1, a), Schedules(Aggregated, model, 1, 1, a), ReleasesTwice(0),
     BeginsDrain(Aggregated, a), DrainRemoves, Releases(1)]
  }

  function SpoiledStates(a: Address, model: string): seq<System> {
    var r := Record(Aggregated, model, Healthy, 0, CircuitBreakers.Initial);
    var first, second := Lease(Aggregated, a, 1, false, false), Lease(Aggregated, a, 1, false, false);
    var s := System(map[a := r], Roster([], EmptyPool), Roster([], EmptyPool), false, None, []);
    var leased := [first.(released := true), second];
    [s,
     s.(records := map[a := r.(active := 1)], leases := [first]),
     s.(records := map[a := r.(active := 2)], leases := [first, second]),
     s.(records := map[a := r], leases := leased),
     s.(records := map[a := r.(status := Draining)], lock := Some(Drain(Aggregated, a)), leases := leased),
     s.(records := map[], leases := leased),
     s.(records := map[], leases := leased)]
  }

  lemma SpoiledSteps(breakers: CircuitBreakers.Config, a: Address, model: string)
    ensures var env, states, es := Env({}, false, breakers), SpoiledStates(a, model), SpoiledDrain(a, model);
            && Step(env, states[0], es[0], states[1]) && Step(env, states[1], es[1], states[2])
            && Step(env, states[2], es[2], states[3])
  {
    var env, states, es := Env({}, false, breakers), SpoiledStates(a, model), SpoiledDrain(a, model);
    assert a in AvailableSet(states[0].records, false, Aggregated, model);
    assert a in AvailableSet(states[1].records, false, Aggregated, model);
    assert MarkReleased(states[2].leases, 0) == states[3].leases;
    assert Decremented(Decremented(states[2].records, a), a) == states[3].records;
  }

  lemma DrainSteps(breakers: CircuitBreakers.Config, a: Address, model: string)
    ensures var env, states, es := Env({}, false, breakers), SpoiledStates(a, model), SpoiledDrain(a, model);
            && Step(env, states[3], es[3], states[4]) && Step(env, states[4], es[4], states[5])
            && Step(env, states[5], es[5], states[6])
  {
    var env, states, es := Env({}, false, breakers), SpoiledStates(a, model), SpoiledDrain(a, model);
    assert states[4].records - {a} == map[];
  }

  /** The condition is needed: there is a run, from a state in agreement, that removes an
      instance with an unreleased reservation, whose release then raises. */
  lemma SpoiledDrainLosesAReservation(breakers: CircuitBreakers.Config, a: Address, model: string)
    ensures var env, states, es := Env({}, false, breakers), SpoiledStates(a, model), SpoiledDrain(a, model);
            && Reaches(env, states, es) && Overlaps(states[2], es[2])
            && RemovesAddress(states[4], es[4], a) && !Unleased(states[4].leases, a)
            && Raises(states[5], es[5])
  {
    var env, states, es := Env({}, false, breakers), SpoiledStates(a, model), SpoiledDrain(a, model);
    StartSatisfiesInv(states[0], env.fallback);
    SpoiledSteps(breakers, a, model);
    DrainSteps(breakers, a, model);
    forall i | 0 <= i < |es| ensures StepsAt(env, states, es, i) {
      assert i == 0 || i == 1 || i == 2 || i == 3 || i == 4 || i == 5;
    }
    assert !states[4].leases[1].released;
  }
}
