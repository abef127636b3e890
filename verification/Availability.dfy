/** Who is scheduled over whole runs: health results, breakers and additions decide who is
    available, and nobody else is ever picked.  An instance's breaker sees just the calls a run
    makes of it. */
module Availability {
  import opened Common
  import CB = CircuitBreakers
  import opened Registry
  import opened LoadBalancer
  import opened Leases
  import opened Protocol
  import opened ProtocolInvariant
  import opened ProtocolRuns
  import opened Draining
  import opened Limits

  // ---------------------------------------------------------------- one step

  /** Whoever is picked is registered, of the role and healthy, serves the model named, and has
      a closed breaker if breakers are enabled. */
  lemma PickedMayServe(env: Env, s: System, e: Event, t: System)
    requires Step(env, s, e, t) && e.Schedules?
    ensures MayServe(s.records, env.cbEnabled, e.role, e.model, e.address)
  {
    AvailableExactly(s.records, env.cbEnabled, e.role, e.model, e.address);
  }

  predicate Healthily(s: System, a: Address) {
    a in s.records && s.records[a].status == Healthy
  }

  // The event makes `a` healthy.
  predicate Heals(e: Event, a: Address) {
    e == HealthResult(a, true) || (e.Adds? && e.address == a)
  }

  // Only a good result or an addition makes an instance healthy.
  lemma OnlyHealed(env: Env, s: System, e: Event, t: System, a: Address)
    requires Step(env, s, e, t) && !Healthily(s, a) && !Heals(e, a)
    ensures !Healthily(t, a)
  {
    if IsRelease(e) {
      ReleasesOnlyCount(env, s, e, t);
    } else if CallsBreakers(e) {
      OnlyBreakersChange(env, s.records, e);
    }
  }

  lemma FailedResult(env: Env, s: System, e: Event, t: System, a: Address)
    requires Step(env, s, e, t) && e == HealthResult(a, false)
    ensures !Healthily(t, a)
    ensures forall role, model :: !MayServe(t.records, env.cbEnabled, role, model, a)
  {
    if a in s.records {
      MarkedMeans(s.records, a, false);
    }
  }

  /** A good result makes an instance available that is not draining and has a closed breaker;
      so does its addition. */
  lemma GoodResult(env: Env, s: System, e: Event, t: System, a: Address)
    requires Step(env, s, e, t) && Heals(e, a)
    requires e.HealthResult? ==> a in s.records && s.records[a].status != Draining && s.records[a].breaker.phase == CB.Closed
    requires e.Adds? ==> a !in s.records
    ensures a in t.records
    ensures var r := t.records[a];
            && a in AvailableSet(t.records, env.cbEnabled, r.role, r.model)
            && r.role == (if e.Adds? then e.role else s.records[a].role)
            && r.model == if e.Adds? then e.model else s.records[a].model
  {
    if e.HealthResult? {
      MarkedMeans(s.records, a, true);
    }
    AvailableExactly(t.records, env.cbEnabled, t.records[a].role, t.records[a].model, a);
  }

  // ---------------------------------------------------------------- unhealthy instances

  lemma {:induction false} UnhealthyUntil(env: Env, states: seq<System>, es: seq<Event>, a: Address, i: nat, j: nat)
    requires Run(env, states, es) && |states| == |es| + 1 && i <= j <= |es| && !Healthily(states[i], a)
    requires forall k :: i <= k < j ==> !Heals(es[k], a)
    ensures !Healthily(states[j], a)
    decreases j
  {
    if i < j {
      UnhealthyUntil(env, states, es, a, i, j - 1);
      assert StepsAt(env, states, es, j - 1);
      OnlyHealed(env, states[j - 1], es[j - 1], states[j], a);
    }
  }

  /** From a failed health result until the next good one, or its next addition, no policy
      picks the instance, and it is in no available set. */
  lemma NotPickedWhileUnhealthy(env: Env, states: seq<System>, es: seq<Event>, a: Address, i: nat, j: nat)
    requires Run(env, states, es) && |states| == |es| + 1 && i < j <= |es|
    requires es[i] == HealthResult(a, false) && forall k :: i < k < j ==> !Heals(es[k], a)
    ensures forall role, model :: a !in AvailableSet(states[j].records, env.cbEnabled, role, model)
    ensures j < |es| ==> !Picks(es[j], a)
  {
    assert StepsAt(env, states, es, i);
    FailedResult(env, states[i], es[i], states[i + 1], a);
    UnhealthyUntil(env, states, es, a, i + 1, j);
    forall role, model ensures a !in AvailableSet(states[j].records, env.cbEnabled, role, model) {
      AvailableExactly(states[j].records, env.cbEnabled, role, model, a);
    }
    if j < |es| && Picks(es[j], a) {
      assert StepsAt(env, states, es, j);
      PickedMayServe(env, states[j], es[j], states[j + 1]);
    }
  }

  // ---------------------------------------------------------------- staying available

  // The event may take `a` out of those available for the model.
  predicate Endangers(e: Event, a: Address, model: string) {
    || e == HealthResult(a, false)
    || (e.BeginsDrain? && e.address == a)
    || (e.RecordsFailure? && e.address == a)
    || (e.DiscoversModel? && e.address == a && model != "" && e.model != model)
  }

  lemma StepKeepsAvailable(env: Env, s: System, e: Event, t: System, role: Role, model: string, a: Address)
    requires Shaped(s) && Step(env, s, e, t) && MayServe(s.records, env.cbEnabled, role, model, a) && !Endangers(e, a, model)
    ensures MayServe(t.records, env.cbEnabled, role, model, a)
  {
    if CallsBreakers(e) {
      BreakerStep(env, s, e, t, a);
    } else {
      OtherStepKeepsAvailable(env, s, e, t, role, model, a);
    }
  }

  lemma OtherStepKeepsAvailable(env: Env, s: System, e: Event, t: System, role: Role, model: string, a: Address)
    requires Shaped(s) && Step(env, s, e, t) && MayServe(s.records, env.cbEnabled, role, model, a) && !Endangers(e, a, model)
    requires !CallsBreakers(e)
    ensures MayServe(t.records, env.cbEnabled, role, model, a)
  {
    if IsRelease(e) {
      ReleasesOnlyCount(env, s, e, t);
    } else if e.HealthResult? && e.address in s.records {
      MarkedMeans(s.records, e.address, e.healthy);
    }
  }

  /** Requests, releases with their recorded successes, looks at breakers, additions and drains
      of others: nothing takes an available instance away but a recorded failure or a failed
      health result of its own, its own drain, or another model discovered for it. */
  lemma {:induction false} StaysAvailable(
    env: Env, states: seq<System>, es: seq<Event>, role: Role, model: string, a: Address, i: nat, j: nat)
    requires Run(env, states, es) && Shaped(states[0]) && |states| == |es| + 1 && i <= j <= |es|
    requires a in AvailableSet(states[i].records, env.cbEnabled, role, model)
    requires forall k :: i <= k < j ==> !Endangers(es[k], a, model)
    ensures a in AvailableSet(states[j].records, env.cbEnabled, role, model)
    decreases j
  {
    if i < j {
      StaysAvailable(env, states, es, role, model, a, i, j - 1);
      AvailableExactly(states[j - 1].records, env.cbEnabled, role, model, a);
      AlwaysShaped(env, states, es, j - 1);
      assert StepsAt(env, states, es, j - 1);
      StepKeepsAvailable(env, states[j - 1], es[j - 1], states[j], role, model, a);
      AvailableExactly(states[j].records, env.cbEnabled, role, model, a);
    }
  }

  // ---------------------------------------------------------------- the breaker of an instance

  // The call that a step makes of the breaker of `a`, if any.
  function CallOf(env: Env, s: System, e: Event, a: Address): Option<CB.Event> {
    match e
    case Looks(role, model, now) =>
      if env.cbEnabled && a in s.records && Matches(s.records[a], role, model) then Some(CB.Look(now)) else None
    case Inspects(b, now) => if b == a then Some(CB.Look(now)) else None
    case RecordsSuccess(b, now) => if b == a then Some(CB.Success(now)) else None
    case RecordsFailure(b, now, seen) => if b == a then Some(CB.Failure(now, seen)) else None
    case _ => None
  }

  function AfterCall(env: Env, b: CB.Breaker, o: Option<CB.Event>): CB.Breaker {
    if o.Some? then CB.Apply(env.breakers, b, o.value) else b
  }

  lemma BreakerStep(env: Env, s: System, e: Event, t: System, a: Address)
    requires Step(env, s, e, t) && CallsBreakers(e) && a in s.records
    ensures a in t.records && SameButBreakers(s.records, t.records)
    ensures t.records[a].breaker == AfterCall(env, s.records[a].breaker, CallOf(env, s, e, a))
  {
    OnlyBreakersChange(env, s.records, e);
  }

  // A step that neither adds nor removes the instance does to its breaker what its call does.
  lemma OneCall(env: Env, s: System, e: Event, t: System, a: Address)
    requires Step(env, s, e, t) && a in s.records && !RemovesAddress(s, e, a)
    ensures a in t.records
    ensures t.records[a].breaker == AfterCall(env, s.records[a].breaker, CallOf(env, s, e, a))
  {
    if IsRelease(e) {
      ReleasesOnlyCount(env, s, e, t);
    } else if CallsBreakers(e) {
      BreakerStep(env, s, e, t, a);
    }
  }

  // The calls of steps i, ..., j - 1.
  function CallsOf(env: Env, states: seq<System>, es: seq<Event>, a: Address, i: nat, j: nat): seq<CB.Event>
    requires i <= j <= |es| && |states| == |es| + 1
    decreases j
  {
    if i == j then []
    else
      var before, o := CallsOf(env, states, es, a, i, j - 1), CallOf(env, states[j - 1], es[j - 1], a);
      if o.Some? then before + [o.value] else before
  }

  /** While an instance stays, its breaker is what its own history makes of the calls the run
      has made of it since it was added. */
  lemma {:induction false} BreakerFollowsCalls(env: Env, states: seq<System>, es: seq<Event>, a: Address, i: nat, j: nat)
    requires Run(env, states, es) && |states| == |es| + 1 && i < j <= |es|
    requires es[i].Adds? && es[i].address == a && a !in states[i].records && StaysFor(states, es, a, i + 1, j)
    ensures a in states[j].records
    ensures states[j].records[a].breaker == CB.After(env.breakers, CallsOf(env, states, es, a, i + 1, j))
    decreases j
  {
    assert StepsAt(env, states, es, j - 1);
    if i + 1 < j {
      BreakerFollowsCalls(env, states, es, a, i, j - 1);
      OneCall(env, states[j - 1], es[j - 1], states[j], a);
      var o := CallOf(env, states[j - 1], es[j - 1], a);
      if o.Some? {
        CB.AfterSnoc(env.breakers, CallsOf(env, states, es, a, i + 1, j - 1), o.value);
      }
    }
  }

  /** So the instance is picked only when that history leaves its breaker closed. */
  lemma PickedOnlyIfClosed(env: Env, states: seq<System>, es: seq<Event>, a: Address, i: nat, j: nat)
    requires Run(env, states, es) && |states| == |es| + 1 && i < j < |es| && env.cbEnabled
    requires es[i].Adds? && es[i].address == a && a !in states[i].records && StaysFor(states, es, a, i + 1, j)
    requires Picks(es[j], a)
    ensures CB.After(env.breakers, CallsOf(env, states, es, a, i + 1, j)).phase == CB.Closed
  {
    BreakerFollowsCalls(env, states, es, a, i, j);
    assert StepsAt(env, states, es, j);
    PickedMayServe(env, states[j], es[j], states[j + 1]);
  }

  // ---------------------------------------------------------------- tripped instances

  // The successes recorded for `a` in steps i, ..., j - 1.
  function SuccessesFor(es: seq<Event>, a: Address, i: nat, j: nat): nat
    requires i <= j <= |es|
    decreases j
  {
    if i == j then 0
    else SuccessesFor(es, a, i, j - 1) + if es[j - 1].RecordsSuccess? && es[j - 1].address == a then 1 else 0
  }

  function AtLeastOne(n: int): int {
    if n < 1 then 1 else n
  }

  // What a tripped breaker has become after `n` successes.
  predicate Recovering(c: CB.Config, b: CB.Breaker, n: nat) {
    && (b.phase == CB.Closed ==> n >= AtLeastOne(c.successThreshold))
    && (b.phase == CB.HalfOpen ==> b.successes <= n)
  }

  lemma RecoveringStep(c: CB.Config, b: CB.Breaker, n: nat, o: Option<CB.Event>)
    requires Recovering(c, b, n)
    ensures var b' := if o.Some? then CB.Apply(c, b, o.value) else b;
            Recovering(c, b', n + if o.Some? && o.value.Success? then 1 else 0)
  {
  }

  lemma {:induction false} RecoversOnlyBySuccesses(
    env: Env, states: seq<System>, es: seq<Event>, a: Address, i: nat, j: nat)
    requires Run(env, states, es) && |states| == |es| + 1 && i <= j <= |es| && StaysFor(states, es, a, i, j)
    requires a in states[i].records && states[i].records[a].breaker.phase == CB.Open
    ensures a in states[j].records
    ensures Recovering(env.breakers, states[j].records[a].breaker, SuccessesFor(es, a, i, j))
    decreases j
  {
    if i < j {
      RecoversOnlyBySuccesses(env, states, es, a, i, j - 1);
      assert StepsAt(env, states, es, j - 1);
      OneCall(env, states[j - 1], es[j - 1], states[j], a);
      RecoveringStep(env.breakers, states[j - 1].records[a].breaker, SuccessesFor(es, a, i, j - 1),
                     CallOf(env, states[j - 1], es[j - 1], a));
    }
  }

  /** Once its breaker has tripped, an instance that stays is picked again only after as many
      successes as the breaker asks for have been recorded for it, by requests it still had. */
  lemma PickedAgainOnlyAfterSuccesses(env: Env, states: seq<System>, es: seq<Event>, a: Address, i: nat, j: nat)
    requires Run(env, states, es) && |states| == |es| + 1 && i <= j < |es| && env.cbEnabled
    requires a in states[i].records && states[i].records[a].breaker.phase == CB.Open && StaysFor(states, es, a, i, j)
    requires Picks(es[j], a)
    ensures SuccessesFor(es, a, i, j) >= AtLeastOne(env.breakers.successThreshold)
  {
    RecoversOnlyBySuccesses(env, states, es, a, i, j);
    assert StepsAt(env, states, es, j);
    PickedMayServe(env, states[j], es[j], states[j + 1]);
  }

  // The clock readings the step takes of the breaker of `a` are before `limit`.
  predicate Before(env: Env, s: System, e: Event, a: Address, limit: real) {
    var o := CallOf(env, s, e, a);
    o.Some? ==> o.value.at < limit && o.value.End() < limit
  }

  lemma {:induction false} StaysTripped(env: Env, states: seq<System>, es: seq<Event>, a: Address, i: nat, j: nat)
    requires Run(env, states, es) && |states| == |es| + 1 && i <= j <= |es| && StaysFor(states, es, a, i, j)
    requires a in states[i].records && states[i].records[a].breaker.phase == CB.Open
    requires var limit := states[i].records[a].breaker.openedAt + env.breakers.timeout;
             forall k :: i <= k < j ==> Before(env, states[k], es[k], a, limit)
    ensures a in states[j].records && states[j].records[a].breaker == states[i].records[a].breaker
    decreases j
  {
    if i < j {
      StaysTripped(env, states, es, a, i, j - 1);
      assert StepsAt(env, states, es, j - 1);
      assert Before(env, states[j - 1], es[j - 1], a, states[i].records[a].breaker.openedAt + env.breakers.timeout);
      OneCall(env, states[j - 1], es[j - 1], states[j], a);
    }
  }

  /** Nor is it picked before the breaker's timeout has passed since it tripped. */
  lemma NotPickedBeforeTimeout(env: Env, states: seq<System>, es: seq<Event>, a: Address, i: nat, j: nat)
    requires Run(env, states, es) && |states| == |es| + 1 && i <= j < |es| && env.cbEnabled && StaysFor(states, es, a, i, j)
    requires a in states[i].records && states[i].records[a].breaker.phase == CB.Open
    requires var limit := states[i].records[a].breaker.openedAt + env.breakers.timeout;
             forall k :: i <= k < j ==> Before(env, states[k], es[k], a, limit)
    ensures !Picks(es[j], a)
  {
    StaysTripped(env, states, es, a, i, j);
    if Picks(es[j], a) {
      assert StepsAt(env, states, es, j);
      PickedMayServe(env, states[j], es[j], states[j + 1]);
    }
  }

  // ---------------------------------------------------------------- being served

  /** A request that the load balancer schedules finds an instance whenever one is available
      whose model length, as reported when it was added, it fits. */
  lemma FittingRequestIsServed(
    env: Env, states: seq<System>, es: seq<Event>, i: nat, j: nat, model: string, need: int)
    requires Run(env, states, es) && Shaped(states[0]) && |states| == |es| + 1 && i < j <= |es|
    requires es[i].Adds? && !es[i].role.Aggregated? && es[i].address !in states[i].records && states[i].balanced
    requires StaysFor(states, es, es[i].address, i + 1, j) && model !in env.fallback && need <= es[i].limit
    requires es[i].address in AvailableSet(states[j].records, env.cbEnabled, es[i].role, model)
    ensures exists a :: MayPick(env, states[j], es[i].role, model, need, a)
  {
    AlwaysShaped(env, states, es, i);
    AlwaysShaped(env, states, es, j);
    assert StepsAt(env, states, es, i);
    AdditionSetsLimit(env, states[i], es[i], states[i + 1]);
    LimitFollowsInstance(env, states, es, es[i].role, es[i].address, es[i].limit, i + 1, j);
    SomebodyFits(env, states[j], es[i].role, model, need, es[i].address, es[i].limit);
  }

  lemma SomebodyFits(env: Env, s: System, role: Role, model: string, need: int, a: Address, limit: int)
    requires Shaped(s) && s.balanced && !role.Aggregated? && model !in env.fallback
    requires HasLimit(s, role, a, limit) && need <= limit
    requires a in AvailableSet(s.records, env.cbEnabled, role, model)
    ensures exists b :: MayPick(env, s, role, model, need, b)
  {
    var r, available := RosterOf(s, role), AvailableSet(s.records, env.cbEnabled, role, model);
    var i := IndexOf(r.addresses, a);
    assert Eligible(r.pool, r.addresses, need, available, i);
    var k := BestChoice(r, role, need, available, i);
    PositionOf(r.addresses, k);
    assert MayPick(env, s, role, model, need, r.addresses[k]);
  }

  // The unreleased work the load balancer knows of on `a` is no more than on `b`.
  predicate NoMoreLoad(s: System, role: Role, a: Address, b: Address) {
    var n, m := Total(s.leases, Batched(a)), Total(s.leases, Batched(b));
    var lengths := Total(s.leases, Lengths(a)) <= Total(s.leases, Lengths(b));
    if role.Prefill? then lengths else n < m || (n == m && lengths)
  }

  /** The load balancer places a request where the unreleased requests are least, in tokens for
      prefill and in number, then tokens, for decode, among those available that it fits. */
  lemma PickIsLeastLoaded(env: Env, s: System, e: Event, t: System, b: Address, limit: int)
    requires Inv(s, env.fallback) && Step(env, s, e, t) && e.Schedules? && !e.role.Aggregated? && Tracks(s, env.fallback, e.role, e.model)
    requires b in AvailableSet(s.records, env.cbEnabled, e.role, e.model)
    requires HasLimit(s, e.role, b, limit) && e.length + e.maxTokens <= limit
    ensures NoMoreLoad(s, e.role, e.address, b)
  {
    var r, available := RosterOf(s, e.role), AvailableSet(s.records, env.cbEnabled, e.role, e.model);
    var i, k := IndexOf(r.addresses, e.address), IndexOf(r.addresses, b);
    assert Eligible(r.pool, r.addresses, e.length + e.maxTokens, available, k);
    assert InStep(s, env.fallback, e.address) && InStep(s, env.fallback, b);
    if e.role.Decode? {
      DecodeChoiceIsLexicographic(s, env.fallback, e.length + e.maxTokens, available, i);
    }
  }

  // Position `i` is at most as good a choice as position `k`.
  predicate NoBetter(r: Roster, role: Role, k: nat, i: nat)
    requires Sized(r.pool, |r.addresses|) && k < |r.addresses| && i < |r.addresses|
  {
    if role.Prefill? then r.pool.tokens[k] < r.pool.tokens[i] || (r.pool.tokens[k] == r.pool.tokens[i] && k <= i)
    else
      || r.pool.batch[k] < r.pool.batch[i]
      || (r.pool.batch[k] == r.pool.batch[i] && r.pool.batch[k] == 0 && k <= i)
      || (r.pool.batch[k] == r.pool.batch[i] && r.pool.batch[k] != 0
          && (r.pool.tokens[k] < r.pool.tokens[i] || (r.pool.tokens[k] == r.pool.tokens[i] && k <= i)))
  }

  lemma {:induction false} BestUpTo(r: Roster, role: Role, need: int, available: set<Address>, i: nat, n: nat) returns (k: nat)
    requires Sized(r.pool, |r.addresses|) && Eligible(r.pool, r.addresses, need, available, i) && n <= |r.addresses|
    ensures Eligible(r.pool, r.addresses, need, available, k) && NoBetter(r, role, k, i)
    ensures forall j: nat :: j < n && Eligible(r.pool, r.addresses, need, available, j) ==> NoBetter(r, role, k, j)
    decreases n
  {
    if n == 0 {
      return i;
    }
    k := BestUpTo(r, role, need, available, i, n - 1);
    if Eligible(r.pool, r.addresses, need, available, n - 1) && !NoBetter(r, role, k, n - 1) {
      k := n - 1;
    }
  }

  lemma BestChoice(r: Roster, role: Role, need: int, available: set<Address>, i: nat) returns (k: nat)
    requires Sized(r.pool, |r.addresses|) && !role.Aggregated? && Eligible(r.pool, r.addresses, need, available, i)
    ensures k < |r.addresses|
    ensures if role.Prefill? then PrefillChoice(r.pool, r.addresses, need, available, k)
            else DecodeChoice(r.pool, r.addresses, need, available, k)
  {
    k := BestUpTo(r, role, need, available, i, |r.addresses|);
  }
}
