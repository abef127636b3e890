/** Whole runs of the protocol, from any state satisfying the invariant. */
module ProtocolRuns {
  import opened Common
  import opened Registry
  import opened LoadBalancer
  import opened Leases
  import opened Protocol
  import opened ProtocolSteps
  import opened ProtocolInvariant
  import CircuitBreakers

  datatype Env = Env(fallback: set<string>, cbEnabled: bool, breakers: CircuitBreakers.Config)

  datatype Event =
    | Schedules(role: Role, model: string, length: nat, maxTokens: nat, address: Address)
    | Releases(k: nat)                       // one of a request's instances
    | ReleasesBoth(p: nat, d: nat)           // both in one call
    | ReleasesTwice(k: nat)                  // an aggregated reply that cannot be rendered: once more, at once
    | HealthResult(address: Address, healthy: bool)
    | Looks(role: Role, model: string, now: real)    // somebody asks who is available
    | Inspects(address: Address, now: real)          // a snapshot of one instance is taken
    | RecordsSuccess(address: Address, now: real)
    | RecordsFailure(address: Address, now: real, seen: real)
    | DiscoversModel(address: Address, model: string)
    | Adds(role: Role, address: Address, model: string, limit: int)
    | BeginsDrain(role: Role, address: Address)
    | DrainTimesOut
    | DrainRemoves

  // The instance is the load balancer's choice among the available ones.
  ghost predicate BalancerPicks(r: Roster, role: Role, need: int, available: set<Address>, a: Address) {
    && Sized(r.pool, |r.addresses|)
    && a in r.addresses
    && if role.Prefill? then PrefillChoice(r.pool, r.addresses, need, available, IndexOf(r.addresses, a))
       else DecodeChoice(r.pool, r.addresses, need, available, IndexOf(r.addresses, a))
  }

  // The instance is one that the policy in use may pick.
  ghost predicate MayPick(env: Env, s: System, role: Role, model: string, need: int, a: Address) {
    var available := AvailableSet(s.records, env.cbEnabled, role, model);
    && a in available
    && (Tracks(s, env.fallback, role, model) ==> BalancerPicks(RosterOf(s, role), role, need, available, a))
  }

  // What a step starts from: what is released is unreleased, requests name their prefill and
  // decode instances' model as far as the fallback set is concerned, and discovery does not
  // move a leased instance into or out of that set.
  ghost predicate Allowed(env: Env, s: System, e: Event) {
    match e
    case Schedules(role, model, length, maxTokens, a) =>
      && MayPick(env, s, role, model, length + maxTokens, a)
      && (role.Aggregated? || (model in env.fallback <==> s.records[a].model in env.fallback))
    case Releases(k) => k < |s.leases| && !s.leases[k].released
    case ReleasesBoth(p, d) =>
      && p < |s.leases| && d < |s.leases| && !s.leases[p].released && !s.leases[d].released
      && s.leases[p].role.Prefill? && s.leases[d].role.Decode? && s.leases[p].tracked == s.leases[d].tracked
    case ReleasesTwice(k) => k < |s.leases| && !s.leases[k].released && s.leases[k].role.Aggregated?
    case HealthResult(_, _) => true
    case Looks(_, _, _) => true
    case Inspects(_, _) => true
    case RecordsSuccess(_, _) => true
    case RecordsFailure(_, _, _) => true
    case DiscoversModel(a, model) =>
      a in s.records ==> s.records[a].active == 0 || (model in env.fallback <==> s.records[a].model in env.fallback)
    case Adds(_, _, _, _) => s.lock.None?
    case BeginsDrain(_, _) => s.lock.None?
    case DrainTimesOut => s.lock.Some?
    case DrainRemoves => s.lock.Some? && ActiveOf(s, s.lock.value.address) <= 0
  }

  // The registry's count, zero for an unknown address: the drain loop's test.
  function ActiveOf(s: System, a: Address): int {
    if a in s.records then s.records[a].active else 0
  }

  // The step would raise an error from the registry or from a list.
  ghost predicate Raises(s: System, e: Event) {
    match e
    case Releases(k) => !CanRelease(s, k)
    case ReleasesBoth(p, d) => !(CanRelease(s, p) && CanRelease(s, d))
    case ReleasesTwice(k) => !CanRelease(s, k)
    case DrainRemoves => s.lock.None? || !CanRemove(s, s.lock.value.role, s.lock.value.address)
    case _ => false
  }

  predicate CallsBreakers(e: Event) {
    e.Looks? || e.Inspects? || e.RecordsSuccess? || e.RecordsFailure?
  }

  // The records after a call of breakers; one for an unknown instance raises without effect.
  function BreakersAfter(env: Env, rs: Records, e: Event): Records
    requires CallsBreakers(e)
  {
    match e
    case Looks(role, model, now) => Looked(rs, env.breakers, env.cbEnabled, role, model, now, rs.Keys)
    case Inspects(a, now) =>
      if a in rs then rs[a := rs[a].(breaker := CircuitBreakers.Observe(env.breakers, rs[a].breaker, now))] else rs
    case RecordsSuccess(a, now) =>
      if a in rs then rs[a := rs[a].(breaker := CircuitBreakers.Succeed(env.breakers, rs[a].breaker, now))] else rs
    case RecordsFailure(a, now, seen) =>
      if a in rs then rs[a := rs[a].(breaker := CircuitBreakers.Fail(env.breakers, rs[a].breaker, now, seen))] else rs
  }

  lemma OnlyBreakersChange(env: Env, rs: Records, e: Event)
    requires CallsBreakers(e)
    ensures SameButBreakers(rs, BreakersAfter(env, rs, e))
  {
  }

  // What the step does; where it raises, up to there.
  ghost predicate Effect(env: Env, s: System, e: Event, t: System) {
    match e
    case Schedules(role, model, length, _, a) =>
      var tracked := Tracks(s, env.fallback, role, model);
      && a in s.records && Aligned(s) && (tracked ==> a in RosterOf(s, role).addresses)
      && t == Scheduled(s, role, a, length, tracked)
    case Releases(k) => k < |s.leases| && t == Released(s, env.fallback, k)
    case ReleasesBoth(p, d) =>
      && p < |s.leases| && d < |s.leases| && p != d && Aligned(s)
      && s.leases[p].role.Prefill? && s.leases[d].role.Decode?
      && t == ReleasedBoth(s, env.fallback, p, d)
    case ReleasesTwice(k) => k < |s.leases| && t == ReleasedTwice(s, env.fallback, k)
    case HealthResult(a, healthy) =>
      t == if a in s.records then s.(records := Marked(s.records, a, healthy)) else s
    case Looks(_, _, _) => t == s.(records := BreakersAfter(env, s.records, e))
    case Inspects(_, _) => t == s.(records := BreakersAfter(env, s.records, e))
    case RecordsSuccess(_, _) => t == s.(records := BreakersAfter(env, s.records, e))
    case RecordsFailure(_, _, _) => t == s.(records := BreakersAfter(env, s.records, e))
    case DiscoversModel(a, model) =>
      t == if a in s.records then s.(records := s.records[a := s.records[a].(model := model)]) else s
    case Adds(role, a, model, limit) =>
      if a in s.records then t == s else Aligned(s) && t == Added(s, role, a, model, limit)
    case BeginsDrain(role, a) => t == DrainBegun(s, role, a)
    case DrainTimesOut => t == s.(lock := None)
    case DrainRemoves => t == if Raises(s, e) then s else Removed(s, s.lock.value.role, s.lock.value.address)
  }

  ghost predicate Step(env: Env, s: System, e: Event, t: System) {
    Allowed(env, s, e) && Effect(env, s, e, t)
  }

  ghost predicate StepsAt(env: Env, states: seq<System>, es: seq<Event>, i: nat)
    requires i < |es| && |states| == |es| + 1
  {
    Step(env, states[i], es[i], states[i + 1])
  }

  ghost predicate Run(env: Env, states: seq<System>, es: seq<Event>) {
    && |states| == |es| + 1
    && forall i :: 0 <= i < |es| ==> StepsAt(env, states, es, i)
  }

  // A proxy starts without leases, with every counter zero.
  lemma StartSatisfiesInv(s: System, fallback: set<string>)
    requires Listed(s) && s.leases == [] && s.lock.None?
    requires forall a :: a in s.records ==> s.records[a].active == 0
    requires s.balanced ==> Fresh(s.prefill) && Fresh(s.decode)
    ensures Inv(s, fallback)
  {
    assert forall a :: InStep(s, fallback, a);
  }

  // Arrays as long as the list, all counters zero.
  predicate Fresh(r: Roster) {
    Sized(r.pool, |r.addresses|) && r.pool.batch == Zeros(|r.addresses|) && r.pool.tokens == Zeros(|r.addresses|)
  }

  // ---------------------------------------------------------------- one step

  // Where a step puts registry, arrays and leases out of step: an aggregated instance whose
  // completion is recorded twice while another request is active; and the partner of an
  // instance whose joint completion raises before the load balancer hears of it.
  function Spoils(env: Env, s: System, e: Event): set<Address> {
    match e
    case ReleasesTwice(k) => if Overlaps(s, e) then {s.leases[k].address} else {}
    case ReleasesBoth(p, d) =>
      if p < |s.leases| && d < |s.leases| && s.leases[p].address in s.records then
        if s.leases[d].address !in s.records then Unheard(s.leases[p])
        else if s.balanced && !Silent(s, env.fallback, s.leases[p].address, s.leases[d].address) && !CanRelease(s, p) then
          Unheard(s.leases[d])
        else {}
      else {}
    case _ => {}
  }

  function Unheard(l: Lease): set<Address> {
    if l.tracked then {l.address} else {}
  }

  // The second completion comes while another request is active on the instance.
  predicate Overlaps(s: System, e: Event) {
    && e.ReleasesTwice? && e.k < |s.leases|
    && s.leases[e.k].address in s.records && s.records[s.leases[e.k].address].active > 1
  }

  /** Whatever happens, lists go on following the roles, arrays the lists, and the lock its
      draining instance. */
  lemma StepShape(env: Env, s: System, e: Event, t: System)
    requires Shaped(s) && Step(env, s, e, t)
    ensures Shaped(t)
  {
    if IsRelease(e) {
      ReleaseShape(env, s, e, t);
      return;
    }
    if CallsBreakers(e) {
      OnlyBreakersChange(env, s.records, e);
      ShapeKept(s, t);
      return;
    }
    match e
    case Schedules(role, model, length, _, a) => ScheduledShape(s, role, a, length, Tracks(s, env.fallback, role, model));
    case HealthResult(_, _) => ShapeKept(s, t);
    case DiscoversModel(_, _) => ShapeKept(s, t);
    case Adds(role, a, model, limit) =>
      if a !in s.records {
        AddedShape(s, role, a, model, limit);
      }
    case BeginsDrain(role, a) => DrainBegunShape(s, role, a);
    case DrainTimesOut =>
    case DrainRemoves => RemovedShape(s, s.lock.value.role, s.lock.value.address);
  }

  lemma ReleaseShape(env: Env, s: System, e: Event, t: System)
    requires Shaped(s) && Step(env, s, e, t) && IsRelease(e)
    ensures Shaped(t)
  {
    match e
    case Releases(k) => ReleasedShape(s, env.fallback, k);
    case ReleasesBoth(p, d) => ReleasedBothShape(s, env.fallback, p, d);
    case ReleasesTwice(k) =>
      ReleasedShape(s, env.fallback, k);
      AgainShape(Released(s, env.fallback, k), k);
  }

  lemma DrainBegunShape(s: System, role: Role, a: Address)
    requires Shaped(s) && s.lock.None?
    ensures Shaped(DrainBegun(s, role, a))
  {
    if InRole(s.records, role, a) {
      ShapeKept(s, s.(records := s.records[a := s.records[a].(status := Draining)]));
    }
  }

  // Some leases are marked released, and nothing else happens to the leases.
  ghost predicate OnlyMarks(before: seq<Lease>, after: seq<Lease>) {
    && |after| == |before|
    && forall k :: 0 <= k < |before| ==> after[k] == before[k] || after[k] == before[k].(released := true)
  }

  // The two tables differ at most in the active counts.
  ghost predicate SameButCounts(rs: Records, rs': Records) {
    && rs'.Keys == rs.Keys
    && forall a :: a in rs ==> rs'[a] == rs[a].(active := rs'[a].active)
  }

  // Releases change counters and mark leases, and nothing else.
  ghost predicate OnlyCounts(s: System, t: System) {
    && SameButCounts(s.records, t.records) && OnlyMarks(s.leases, t.leases)
    && t.prefill.addresses == s.prefill.addresses && t.prefill.pool.limits == s.prefill.pool.limits
    && t.decode.addresses == s.decode.addresses && t.decode.pool.limits == s.decode.pool.limits
    && t.balanced == s.balanced && t.lock == s.lock
  }

  lemma OnlyCountsTwice(s: System, t: System, u: System)
    requires OnlyCounts(s, t) && OnlyCounts(t, u)
    ensures OnlyCounts(s, u)
  {
  }

  lemma QuietOnlyCounts(s: System, k: nat)
    requires k < |s.leases| && s.leases[k].address in s.records
    ensures OnlyCounts(s, Quiet(s, k))
  {
  }

  lemma ToldOnlyCounts(s: System, k: nat)
    requires CanRelease(s, k) && s.balanced && !s.leases[k].role.Aggregated?
    ensures OnlyCounts(s, Told(s, k))
  {
    QuietOnlyCounts(CompletedIn(s, k), k);
  }

  lemma ReleasedOnlyCounts(s: System, fallback: set<string>, k: nat)
    requires k < |s.leases|
    ensures OnlyCounts(s, Released(s, fallback, k)) && OnlyCounts(s, ReleasedTwice(s, fallback, k))
  {
    if s.leases[k].address in s.records {
      QuietOnlyCounts(s, k);
      if CanRelease(s, k) && s.balanced && !s.leases[k].role.Aggregated? {
        ToldOnlyCounts(s, k);
      }
    }
    var t := Released(s, fallback, k);
    AgainOnlyCounts(t, k);
    OnlyCountsTwice(s, t, Again(t, k));
  }

  lemma AgainOnlyCounts(s: System, k: nat)
    requires k < |s.leases|
    ensures OnlyCounts(s, Again(s, k))
  {
  }

  lemma ReleasedBothOnlyCounts(s: System, fallback: set<string>, p: nat, d: nat)
    requires p < |s.leases| && d < |s.leases| && p != d && Aligned(s)
    requires s.leases[p].role.Prefill? && s.leases[d].role.Decode?
    ensures OnlyCounts(s, ReleasedBoth(s, fallback, p, d))
  {
    var a, b := s.leases[p].address, s.leases[d].address;
    if a in s.records {
      QuietOnlyCounts(s, p);
      if b in s.records {
        if !s.balanced || Silent(s, fallback, a, b) || !CanRelease(s, p) {
          QuietOnlyCounts(Quiet(s, p), d);
          OnlyCountsTwice(s, Quiet(s, p), Quiet(Quiet(s, p), d));
        } else {
          ToldThen(s, p, d);
        }
      }
    }
  }

  lemma ToldThen(s: System, p: nat, d: nat)
    requires p < |s.leases| && d < |s.leases| && p != d && CanRelease(s, p) && s.balanced && s.leases[d].address in s.records
    requires s.leases[p].role.Prefill? && s.leases[d].role.Decode?
    ensures OnlyCounts(s, Quiet(Told(s, p), d))
    ensures CanRelease(s, d) ==> OnlyCounts(s, Told(Told(s, p), d))
  {
    ToldOnlyCounts(s, p);
    QuietOnlyCounts(Told(s, p), d);
    OnlyCountsTwice(s, Told(s, p), Quiet(Told(s, p), d));
    if CanRelease(s, d) {
      ToldOnlyCounts(Told(s, p), d);
      OnlyCountsTwice(s, Told(s, p), Told(Told(s, p), d));
    }
  }

  predicate IsRelease(e: Event) {
    e.Releases? || e.ReleasesBoth? || e.ReleasesTwice?
  }

  lemma ReleasesOnlyCount(env: Env, s: System, e: Event, t: System)
    requires Effect(env, s, e, t) && IsRelease(e)
    ensures OnlyCounts(s, t)
  {
    match e
    case Releases(k) => ReleasedOnlyCounts(s, env.fallback, k);
    case ReleasesTwice(k) => ReleasedOnlyCounts(s, env.fallback, k);
    case ReleasesBoth(p, d) => ReleasedBothOnlyCounts(s, env.fallback, p, d);
  }

  // Only scheduling adds a lease.
  lemma StepMarks(env: Env, s: System, e: Event, t: System)
    requires Step(env, s, e, t) && !e.Schedules?
    ensures OnlyMarks(s.leases, t.leases)
  {
    if IsRelease(e) {
      ReleasesOnlyCount(env, s, e, t);
    }
  }

  lemma ScheduledLeases(env: Env, s: System, e: Event, t: System)
    requires Step(env, s, e, t) && e.Schedules?
    ensures exists l: Lease :: l.address == e.address && l.role == e.role && t.leases == s.leases + [l]
  {
    assert t.leases[|s.leases|].address == e.address && t.leases[|s.leases|].role == e.role;
  }

  // Completing both instances of a request, for an address in step.
  lemma BothInStep(env: Env, s: System, p: nat, d: nat, x: Address)
    requires Shaped(s) && Allowed(env, s, ReleasesBoth(p, d)) && InStep(s, env.fallback, x)
    ensures var t := ReleasedBoth(s, env.fallback, p, d);
            Aligned(t) && (x !in Spoils(env, s, ReleasesBoth(p, d)) ==> InStep(t, env.fallback, x))
  {
    ReleasedBothShape(s, env.fallback, p, d);
    var a, b := s.leases[p].address, s.leases[d].address;
    if x == a {
      Holder(s, env.fallback, p);
    }
    if x == b {
      Holder(s, env.fallback, d);
    }
    if a in s.records {
      if s.balanced && b in s.records && !Silent(s, env.fallback, a, b) && CanRelease(s, p) {
        TellsFirst(env, s, p, d, x);
      } else if x !in Spoils(env, s, ReleasesBoth(p, d)) {
        QuietInStep(s, env.fallback, p, x);
        QuietShape(s, p);
        if b in s.records {
          QuietInStep(Quiet(s, p), env.fallback, d, x);
        }
      }
    }
  }

  // The load balancer hears of the prefill instance, and of the decode instance if that is listed.
  lemma TellsFirst(env: Env, s: System, p: nat, d: nat, x: Address)
    requires Shaped(s) && Allowed(env, s, ReleasesBoth(p, d)) && InStep(s, env.fallback, x)
    requires s.balanced && CanRelease(s, p) && s.leases[d].address in s.records
    ensures CanRelease(s, d) ==> CanRelease(Told(s, p), d) && InStep(Told(Told(s, p), d), env.fallback, x)
    ensures !CanRelease(s, d) ==> InStep(Quiet(Told(s, p), d), env.fallback, x)
  {
    var t := Told(s, p);
    ToldInStep(s, env.fallback, p, x);
    ToldShape(s, p);
    assert t.leases[d] == s.leases[d];
    if CanRelease(s, d) {
      ToldInStep(t, env.fallback, d, x);
    } else {
      if s.leases[d].address == x {
        Holder(s, env.fallback, d);
      }
      QuietInStep(t, env.fallback, d, x);
    }
  }

  lemma BothSpoils(env: Env, s: System, p: nat, d: nat, x: Address)
    requires Shaped(s) && Allowed(env, s, ReleasesBoth(p, d)) && InStep(s, env.fallback, x)
    requires x in Spoils(env, s, ReleasesBoth(p, d))
    ensures var t := ReleasedBoth(s, env.fallback, p, d); Aligned(t) && !InStep(t, env.fallback, x)
  {
    ReleasedBothShape(s, env.fallback, p, d);
    if s.leases[d].address !in s.records {
      Holder(s, env.fallback, p);
      QuietLeavesBatch(s, p);
    } else {
      Holder(s, env.fallback, d);
      QuietShape(s, p);
      PartnerFirst(env, s, p, d);
      QuietLeavesBatch(Quiet(s, p), d);
    }
  }

  // The other instance's count does not concern `x`.
  lemma PartnerFirst(env: Env, s: System, p: nat, d: nat)
    requires Shaped(s) && Allowed(env, s, ReleasesBoth(p, d)) && s.leases[p].address in s.records
    requires InStep(s, env.fallback, s.leases[d].address) && CanRelease(s, d)
    ensures s.leases[p].address != s.leases[d].address
    ensures var t := Quiet(s, p); InStep(t, env.fallback, s.leases[d].address) && CanRelease(t, d)
  {
    if s.leases[p].address == s.leases[d].address {
      Holder(s, env.fallback, p);
      Holder(s, env.fallback, d);
      assert false;
    }
    QuietInStep(s, env.fallback, p, s.leases[d].address);
  }

  lemma TwiceInStep(env: Env, s: System, k: nat, x: Address)
    requires Shaped(s) && Allowed(env, s, ReleasesTwice(k)) && InStep(s, env.fallback, x)
    ensures var t := ReleasedTwice(s, env.fallback, k);
            Aligned(t) && (InStep(t, env.fallback, x) <==> x !in Spoils(env, s, ReleasesTwice(k)))
  {
    var t := Released(s, env.fallback, k);
    ReleasedShape(s, env.fallback, k);
    ReleasedInStep(s, env.fallback, k, x);
    AgainInStep(t, env.fallback, k, x);
    if s.leases[k].address == x {
      Holder(s, env.fallback, k);
    }
  }

  /** A step leaves an address in step that was, unless it is one the step spoils, and then it
      does not. */
  lemma StepInStep(env: Env, s: System, e: Event, t: System, x: Address)
    requires Shaped(s) && InStep(s, env.fallback, x) && Step(env, s, e, t)
    ensures Aligned(t) && (InStep(t, env.fallback, x) <==> x !in Spoils(env, s, e))
  {
    StepShape(env, s, e, t);
    if CallsBreakers(e) {
      OnlyBreakersChange(env, s.records, e);
      BreakersInStep(s, env.fallback, t.records, x);
      return;
    }
    match e
    case Schedules(role, model, length, _, a) => ScheduledInStep(s, env.fallback, role, model, a, length, x);
    case Releases(k) => ReleasedInStep(s, env.fallback, k, x);
    case ReleasesBoth(p, d) =>
      if x in Spoils(env, s, e) {
        BothSpoils(env, s, p, d, x);
      } else {
        BothInStep(env, s, p, d, x);
      }
    case ReleasesTwice(k) => TwiceInStep(env, s, k, x);
    case HealthResult(a, healthy) =>
      if a in s.records {
        RecordChangeInStep(s, env.fallback, a, Marked(s.records, a, healthy)[a], x);
        assert s.records[a := Marked(s.records, a, healthy)[a]] == Marked(s.records, a, healthy);
      }
    case DiscoversModel(a, model) => DiscoveredInStep(env, s, a, model, t, x);
    case Adds(role, a, model, limit) =>
      if a !in s.records {
        AddedInStep(s, env.fallback, role, a, model, limit, x);
      }
    case BeginsDrain(role, a) =>
      if InRole(s.records, role, a) {
        RecordChangeInStep(s, env.fallback, a, s.records[a].(status := Draining), x);
      }
    case DrainTimesOut =>
    case DrainRemoves => RemovedInStep(s, env.fallback, s.lock.value.role, s.lock.value.address, x);
  }

  lemma DiscoveredInStep(env: Env, s: System, a: Address, model: string, t: System, x: Address)
    requires Shaped(s) && InStep(s, env.fallback, x) && Step(env, s, DiscoversModel(a, model), t)
    ensures Aligned(t) && InStep(t, env.fallback, x)
  {
    if a in s.records {
      RecordChangeInStep(s, env.fallback, a, s.records[a].(model := model), x);
    }
  }

  // The addresses of the leases that the step releases.
  function Touches(s: System, e: Event): set<Address> {
    match e
    case Releases(k) => if k < |s.leases| then {s.leases[k].address} else {}
    case ReleasesTwice(k) => if k < |s.leases| then {s.leases[k].address} else {}
    case ReleasesBoth(p, d) =>
      if p < |s.leases| && d < |s.leases| then {s.leases[p].address, s.leases[d].address} else {}
    case _ => {}
  }

  /** A step raises only where an instance it releases is out of step already. */
  lemma RaisesOutOfStep(env: Env, s: System, e: Event)
    requires Shaped(s) && Allowed(env, s, e) && forall x :: x in Touches(s, e) ==> InStep(s, env.fallback, x)
    ensures !Raises(s, e)
  {
    match e
    case Releases(k) => Holder(s, env.fallback, k);
    case ReleasesTwice(k) => Holder(s, env.fallback, k);
    case ReleasesBoth(p, d) =>
      Holder(s, env.fallback, p);
      Holder(s, env.fallback, d);
    case DrainRemoves => RemovedShape(s, s.lock.value.role, s.lock.value.address);
    case _ =>
  }

  /** From a state in agreement a step raises nothing, and leads to one exactly when it does
      not complete an aggregated request twice while another is active on the instance. */
  lemma StepKeeps(env: Env, s: System, e: Event, t: System)
    requires Inv(s, env.fallback) && Step(env, s, e, t)
    ensures Inv(t, env.fallback) <==> !Overlaps(s, e)
    ensures !Raises(s, e)
  {
    forall x | x in Touches(s, e) ensures InStep(s, env.fallback, x) {
    }
    RaisesOutOfStep(env, s, e);
    StepShape(env, s, e, t);
    forall x ensures InStep(t, env.fallback, x) <==> x !in Spoils(env, s, e) {
      assert InStep(s, env.fallback, x);
      StepInStep(env, s, e, t, x);
    }
    assert Overlaps(s, e) ==> s.leases[e.k].address in Spoils(env, s, e);
    assert !Overlaps(s, e) ==> Spoils(env, s, e) == {};
  }

  // ---------------------------------------------------------------- runs

  ghost predicate SparedAt(env: Env, states: seq<System>, es: seq<Event>, x: Address, i: nat)
    requires i < |es| && |states| == |es| + 1
  {
    x !in Spoils(env, states[i], es[i])
  }

  // Registry, arrays and leases agree about `x` in state `i`.
  ghost predicate AgreedAt(env: Env, states: seq<System>, x: Address, i: nat)
    requires i < |states|
  {
    Aligned(states[i]) && InStep(states[i], env.fallback, x)
  }

  lemma {:induction false} AlwaysShaped(env: Env, states: seq<System>, es: seq<Event>, n: nat)
    requires Run(env, states, es) && Shaped(states[0]) && n <= |es|
    ensures Shaped(states[n])
    decreases n
  {
    if n > 0 {
      AlwaysShaped(env, states, es, n - 1);
      assert StepsAt(env, states, es, n - 1);
      StepShape(env, states[n - 1], es[n - 1], states[n]);
    }
  }

  lemma {:induction false} AgreedUntil(env: Env, states: seq<System>, es: seq<Event>, x: Address, n: nat)
    requires Run(env, states, es) && Shaped(states[0]) && InStep(states[0], env.fallback, x) && n <= |es|
    requires forall i :: 0 <= i < n ==> SparedAt(env, states, es, x, i)
    ensures AgreedAt(env, states, x, n)
    decreases n
  {
    if n > 0 {
      AgreedUntil(env, states, es, x, n - 1);
      AlwaysShaped(env, states, es, n - 1);
      assert StepsAt(env, states, es, n - 1) && SparedAt(env, states, es, x, n - 1);
      StepInStep(env, states[n - 1], es[n - 1], states[n], x);
    }
  }

  /** Address by address, over every run, in whatever state the other addresses are: registry,
      arrays and leases agree about an address in every state of the run if and only if no
      step spoils that address. */
  lemma EveryAddress(env: Env, states: seq<System>, es: seq<Event>, x: Address)
    requires Run(env, states, es) && Shaped(states[0]) && InStep(states[0], env.fallback, x)
    ensures forall i :: 0 <= i < |states| ==> Shaped(states[i])
    ensures (forall i :: 0 <= i < |states| ==> AgreedAt(env, states, x, i)) <==>
            (forall i :: 0 <= i < |es| ==> SparedAt(env, states, es, x, i))
  {
    forall i | 0 <= i < |states| ensures Shaped(states[i]) {
      AlwaysShaped(env, states, es, i);
    }
    if forall i :: 0 <= i < |es| ==> SparedAt(env, states, es, x, i) {
      forall i | 0 <= i < |states| ensures AgreedAt(env, states, x, i) {
        AgreedUntil(env, states, es, x, i);
      }
    }
    if forall i :: 0 <= i < |states| ==> AgreedAt(env, states, x, i) {
      forall i | 0 <= i < |es| ensures SparedAt(env, states, es, x, i) {
        assert StepsAt(env, states, es, i) && AgreedAt(env, states, x, i) && AgreedAt(env, states, x, i + 1);
        StepInStep(env, states[i], es[i], states[i + 1], x);
      }
    }
  }

  ghost predicate Reaches(env: Env, states: seq<System>, es: seq<Event>) {
    Run(env, states, es) && Inv(states[0], env.fallback)
  }

  // Until step `n` no aggregated request is completed twice beside another.
  ghost predicate NoOverlapUntil(states: seq<System>, es: seq<Event>, n: nat)
    requires n <= |es| && |states| == |es| + 1
  {
    forall i :: 0 <= i < n ==> !OverlapsAt(states, es, i)
  }

  ghost predicate OverlapsAt(states: seq<System>, es: seq<Event>, i: nat)
    requires i < |es| && |states| == |es| + 1
  {
    Overlaps(states[i], es[i])
  }

  lemma {:induction false} InvUntil(env: Env, states: seq<System>, es: seq<Event>, n: nat)
    requires Reaches(env, states, es) && |states| == |es| + 1 && n <= |es| && NoOverlapUntil(states, es, n)
    ensures Inv(states[n], env.fallback)
    decreases n
  {
    if n > 0 {
      InvUntil(env, states, es, n - 1);
      assert StepsAt(env, states, es, n - 1) && !OverlapsAt(states, es, n - 1);
      StepKeeps(env, states[n - 1], es[n - 1], states[n]);
    }
  }

  /** Over all addresses: in a run that interleaves requests, health results, discovery,
      additions and drains, registry, arrays and leases agree in every state if and only if
      no aggregated request is completed twice while another is active on its instance; and
      until then no step raises: no release reaches an unregistered address or one missing
      from its role's list. */
  lemma EveryReachableState(env: Env, states: seq<System>, es: seq<Event>)
    requires Reaches(env, states, es) && |states| == |es| + 1
    ensures (forall i :: 0 <= i < |states| ==> Inv(states[i], env.fallback)) <==> NoOverlapUntil(states, es, |es|)
    ensures forall i :: 0 <= i < |es| && NoOverlapUntil(states, es, i) ==> Inv(states[i], env.fallback) && !Raises(states[i], es[i])
  {
    if NoOverlapUntil(states, es, |es|) {
      forall i | 0 <= i < |states| ensures Inv(states[i], env.fallback) {
        InvUntil(env, states, es, i);
      }
    }
    if forall i :: 0 <= i < |states| ==> Inv(states[i], env.fallback) {
      forall i | 0 <= i < |es| ensures !OverlapsAt(states, es, i) {
        assert StepsAt(env, states, es, i) && Inv(states[i + 1], env.fallback);
        StepKeeps(env, states[i], es[i], states[i + 1]);
      }
    }
    forall i | 0 <= i < |es| && NoOverlapUntil(states, es, i) ensures Inv(states[i], env.fallback) && !Raises(states[i], es[i]) {
      InvUntil(env, states, es, i);
      assert StepsAt(env, states, es, i);
      StepKeeps(env, states[i], es[i], states[i + 1]);
    }
  }

  // ---------------------------------------------------------------- prefill and decode instances

  // Every address is recorded, leased and added under its one role.
  ghost predicate InRoles(s: System, roleOf: Address -> Role) {
    && (forall a :: a in s.records ==> s.records[a].role == roleOf(a))
    && (forall k :: 0 <= k < |s.leases| ==> s.leases[k].role == roleOf(s.leases[k].address))
  }

  ghost predicate AddsInRole(e: Event, roleOf: Address -> Role) {
    e.Adds? ==> e.role == roleOf(e.address)
  }

  lemma StepRoles(env: Env, s: System, e: Event, t: System, roleOf: Address -> Role)
    requires Shaped(s) && InRoles(s, roleOf) && Step(env, s, e, t) && AddsInRole(e, roleOf)
    ensures InRoles(t, roleOf)
  {
    if e.Schedules? {
      assert InRole(s.records, e.role, e.address);
      ScheduledLeases(env, s, e, t);
    } else {
      StepMarks(env, s, e, t);
      StepRecordRoles(env, s, e, t, roleOf);
    }
  }

  lemma StepRecordRoles(env: Env, s: System, e: Event, t: System, roleOf: Address -> Role)
    requires InRoles(s, roleOf) && Step(env, s, e, t) && AddsInRole(e, roleOf) && !e.Schedules?
    ensures forall a :: a in t.records ==> t.records[a].role == roleOf(a)
  {
    if IsRelease(e) {
      ReleasesOnlyCount(env, s, e, t);
    }
  }

  // Prefill and decode instances are in step.
  ghost predicate SplitAgrees(env: Env, s: System, roleOf: Address -> Role) {
    Shaped(s) && InRoles(s, roleOf) && forall x :: !roleOf(x).Aggregated? ==> InStep(s, env.fallback, x)
  }

  lemma SplitStep(env: Env, s: System, e: Event, t: System, roleOf: Address -> Role)
    requires SplitAgrees(env, s, roleOf) && Step(env, s, e, t) && AddsInRole(e, roleOf)
    ensures SplitAgrees(env, t, roleOf)
    ensures forall x :: x in Spoils(env, s, e) ==> roleOf(x).Aggregated?
    ensures (forall x :: x in Touches(s, e) ==> !roleOf(x).Aggregated?) ==> !Raises(s, e)
  {
    StepShape(env, s, e, t);
    StepRoles(env, s, e, t, roleOf);
    SplitSpoils(env, s, e, roleOf);
    forall x | !roleOf(x).Aggregated? ensures InStep(t, env.fallback, x) {
      StepInStep(env, s, e, t, x);
    }
  }

  // Only aggregated instances are spoiled, and prefill and decode releases do not raise.
  lemma SplitSpoils(env: Env, s: System, e: Event, roleOf: Address -> Role)
    requires SplitAgrees(env, s, roleOf) && Allowed(env, s, e)
    ensures forall x :: x in Spoils(env, s, e) ==> roleOf(x).Aggregated?
    ensures (forall x :: x in Touches(s, e) ==> !roleOf(x).Aggregated?) ==> !Raises(s, e)
  {
    if e.ReleasesBoth? || forall x :: x in Touches(s, e) ==> !roleOf(x).Aggregated? {
      RaisesOutOfStep(env, s, e);
    }
  }

  ghost predicate OneRole(states: seq<System>, es: seq<Event>, roleOf: Address -> Role) {
    && states != [] && InRoles(states[0], roleOf)
    && forall i :: 0 <= i < |es| ==> AddsInRole(es[i], roleOf)
  }

  lemma {:induction false} SplitUntil(env: Env, states: seq<System>, es: seq<Event>, roleOf: Address -> Role, n: nat)
    requires Reaches(env, states, es) && OneRole(states, es, roleOf) && n <= |es|
    ensures SplitAgrees(env, states[n], roleOf)
    decreases n
  {
    if n == 0 {
      forall x ensures InStep(states[0], env.fallback, x) {
      }
    } else {
      SplitUntil(env, states, es, roleOf, n - 1);
      assert StepsAt(env, states, es, n - 1);
      SplitStep(env, states[n - 1], es[n - 1], states[n], roleOf);
    }
  }

  /** Where no address changes its role, prefill and decode instances are in step in every
      state, whatever aggregated requests do, and no release of theirs ever raises. */
  lemma PrefillAndDecodeAlwaysAgree(env: Env, states: seq<System>, es: seq<Event>, roleOf: Address -> Role)
    requires Reaches(env, states, es) && |states| == |es| + 1 && OneRole(states, es, roleOf)
    ensures forall i, x :: 0 <= i < |states| && !roleOf(x).Aggregated? ==> AgreedAt(env, states, x, i)
    ensures forall i :: 0 <= i < |es| && (forall x :: x in Touches(states[i], es[i]) ==> !roleOf(x).Aggregated?) ==>
              !Raises(states[i], es[i])
  {
    forall i, x | 0 <= i < |states| && !roleOf(x).Aggregated? ensures AgreedAt(env, states, x, i) {
      SplitUntil(env, states, es, roleOf, i);
    }
    forall i | 0 <= i < |es| && (forall x :: x in Touches(states[i], es[i]) ==> !roleOf(x).Aggregated?)
      ensures !Raises(states[i], es[i])
    {
      SplitUntil(env, states, es, roleOf, i);
      assert StepsAt(env, states, es, i);
      SplitStep(env, states[i], es[i], states[i + 1], roleOf);
    }
  }
}
