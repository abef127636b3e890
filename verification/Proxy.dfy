/** The proxy object: it schedules on, and edits, address lists that the load balancer and
    discovery share with it.  Its methods take the steps of the protocol. */
module Proxies {
  import opened Common
  import opened Registry
  import opened LoadBalancer
  import opened Leases
  import opened Protocol
  import opened ProtocolInvariant
  import opened ProtocolRuns
  import opened Membership
  import opened Discovery
  import opened RoundRobin
  import opened Draining
  import opened Workers
  import opened Routing
  import opened ProxySteps
  import HashRing

  datatype Policy =
    | Cycling(cycling: RoundRobinSchedulingPolicy)
    | LeastLoaded(balancer: LoadBalancedScheduler)
    | Routes(router: Router)

  datatype DrainResult = Waiting | TimedOut | RemovedNow

  datatype AddResult = AddedNow | Invalid | AlreadyExists | RolledBack

  // The instance that holds the mutation lock for a drain, with the model read at its start.
  datatype DrainTask = DrainTask(drain: Drain, model: string)

  class Proxy {
    const registry: InstanceRegistry
    const prefillInstances: AddressList
    const decodeInstances: AddressList
    const policy: Policy
    const roundRobinPolicy: RoundRobinSchedulingPolicy
    const discovery: NodeDiscovery?
    const healthMonitor: HealthMonitor?
    const fallback: set<string>          // models without a tokenizer
    var aggregatedInstances: map<string, seq<Address>>
    var prefillCycler: Cycler
    var decodeCycler: Cycler
    var aggregatedTurns: map<string, nat>
    var draining: Option<DrainTask>
    ghost var leases: seq<Lease>

    // ---------------------------------------------------------------- abstraction

    ghost function PolicyParts(): set<object> {
      match policy
      case Cycling(_) => {}
      case LeastLoaded(b) => {b}
      case Routes(r) => {r.Object()}
    }

    ghost function Parts(): set<object> {
      {this, registry, prefillInstances, decodeInstances}
      + PolicyParts()
      + (if discovery == null then {} else {discovery, discovery.aggregatedInstances})
      + (if healthMonitor == null then {} else {healthMonitor})
    }

    ghost function Sys(): System
      reads Parts()
    {
      System(registry.instances,
             Roster(prefillInstances.items, if policy.LeastLoaded? then policy.balancer.prefill else EmptyPool),
             Roster(decodeInstances.items, if policy.LeastLoaded? then policy.balancer.decode else EmptyPool),
             policy.LeastLoaded?,
             if draining.Some? then Some(draining.value.drain) else None,
             leases)
    }

    ghost predicate PolicySound()
      reads PolicyParts()
    {
      policy.Routes? ==> policy.router.Valid()
    }

    ghost function Seen(): View
      reads Parts()
    {
      View(Sys(),
           aggregatedInstances,
           if policy.Routes? then Some(policy.router.Force()) else None,
           if healthMonitor == null then None else Some(healthMonitor.nodes),
           if discovery == null then None else Some(discovery.Abs()),
           if draining.Some? then draining.value.model else "")
    }

    // One list per role, shared by everyone who holds it.
    ghost predicate Wired()
      reads Parts()
    {
      && prefillInstances != decodeInstances
      && (policy.LeastLoaded? ==>
            policy.balancer.prefillInstances == prefillInstances && policy.balancer.decodeInstances == decodeInstances)
      && registry.Valid() && PolicySound()
      && (discovery != null ==>
            discovery.prefillInstances == prefillInstances && discovery.decodeInstances == decodeInstances && discovery.Separate())
    }

    // Each cycler cycles over the role's current list.
    ghost predicate Current()
      reads this, prefillInstances, decodeInstances
    {
      prefillCycler.items == prefillInstances.items && decodeCycler.items == decodeInstances.items
    }

    // The cyclers other than the role's are up to date.
    ghost predicate CurrentBut(role: Role)
      reads this, prefillInstances, decodeInstances
    {
      && (!role.Prefill? ==> prefillCycler.items == prefillInstances.items)
      && (!role.Decode? ==> decodeCycler.items == decodeInstances.items)
    }

    // Between two awaits.
    ghost predicate Valid()
      reads Parts()
    {
      Wired() && Current() && ViewValid(Seen(), fallback)
    }

    // `discovery` and the load balancer were given the same two list objects.
    constructor (
      registry: InstanceRegistry, prefillInstances: AddressList, decodeInstances: AddressList, policy: Policy,
      discovery: NodeDiscovery?, healthMonitor: HealthMonitor?, fallback: set<string>,
      aggregatedInstances: map<string, seq<Address>>)
      requires prefillInstances != decodeInstances
      requires policy.LeastLoaded? ==>
                 policy.balancer.prefillInstances == prefillInstances && policy.balancer.decodeInstances == decodeInstances
      requires registry.Valid()
      requires policy.Routes? ==> policy.router.Valid()
      requires discovery != null ==>
                 discovery.prefillInstances == prefillInstances && discovery.decodeInstances == decodeInstances && discovery.Separate()
      ensures this.registry == registry && this.policy == policy && this.fallback == fallback
      ensures this.prefillInstances == prefillInstances && this.decodeInstances == decodeInstances
      ensures this.discovery == discovery && this.healthMonitor == healthMonitor
      ensures this.aggregatedInstances == aggregatedInstances && leases == [] && draining.None?
      ensures Wired() && Current()
    {
      this.registry, this.prefillInstances, this.decodeInstances := registry, prefillInstances, decodeInstances;
      this.policy, this.discovery, this.healthMonitor := policy, discovery, healthMonitor;
      this.fallback, this.aggregatedInstances := fallback, aggregatedInstances;
      roundRobinPolicy := new RoundRobinSchedulingPolicy();
      prefillCycler := new Cycler(prefillInstances.items);
      decodeCycler := new Cycler(decodeInstances.items);
      aggregatedTurns, draining, leases := map[], None, [];
    }

    /** Put together from parts that all describe the registered instances, and before anything
        has been counted, the proxy is valid. */
    lemma StartsValid()
      requires Wired() && Current() && Starts(Seen())
      ensures Valid()
    {
      StartIsValid(Seen(), fallback);
    }

    function ListOf(role: Role): AddressList
      requires !role.Aggregated?
    {
      if role.Prefill? then prefillInstances else decodeInstances
    }

    // ---------------------------------------------------------------- scheduling

    ghost function TheEnv(): Env {
      Env(fallback, registry.cbEnabled, registry.config)
    }

    function CyclerOf(role: Role): Cycler
      requires !role.Aggregated?
      reads this
    {
      if role.Prefill? then prefillCycler else decodeCycler
    }

    // The policy that serves the model picks from what is available.
    method Select(
      cycler: Cycler, role: Role, requestLen: int, maxTokens: int, model: string, key: int, available: set<Address>)
      returns (r: Option<Address>)
      requires Wired() && Distinct(cycler.items) && forall a :: a in available ==> a in cycler.items
      requires policy.LeastLoaded? ==> policy.balancer.Aligned()
      requires !role.Aggregated? && cycler.items == ListOf(role).items
      modifies cycler, if policy.LeastLoaded? then {policy.balancer} else {}
      ensures Wired() && Seen() == old(Seen()).(sys := Sys())
      ensures r.Some? ==> r.value in available
      ensures ChosenFrom(old(Sys()), Sys(), fallback, role, model, requestLen, maxTokens, available, r)
      ensures model in fallback || policy.Cycling? ==>
                (r.None? <==> available == {}) && (r, cycler.position) == TakeTurn(cycler.items, old(cycler.position), available)
      ensures model !in fallback && policy.Routes? ==> policy.router.Picks(old(policy.router.Entries()), old(registry.instances), available, key, r)
    {
      if model in fallback || policy.Cycling? {
        r := SelectInTurn(cycler, available);
        return;
      }
      r := SelectByPolicy(role, requestLen, maxTokens, model, key, available);
    }

    method SelectByPolicy(
      role: Role, requestLen: int, maxTokens: int, ghost model: string, key: int, available: set<Address>) returns (r: Option<Address>)
      requires Wired() && !role.Aggregated? && Distinct(ListOf(role).items)
      requires policy.LeastLoaded? ==> policy.balancer.Aligned()
      requires model !in fallback && !policy.Cycling?
      modifies if policy.LeastLoaded? then {policy.balancer} else {}
      ensures Wired() && Seen() == old(Seen()).(sys := Sys())
      ensures ChosenFrom(old(Sys()), Sys(), fallback, role, model, requestLen, maxTokens, available, r)
      ensures policy.Routes? ==> policy.router.Picks(old(policy.router.Entries()), old(registry.instances), available, key, r)
    {
      match policy
      case LeastLoaded(_) => r := SelectLeastLoaded(role, requestLen, maxTokens, model, available);
      case Routes(_) => r := SelectRouted(available, key);
    }

    method SelectRouted(available: set<Address>, key: int) returns (r: Option<Address>)
      requires policy.Routes? && policy.router.Valid()
      ensures policy.router.Picks(policy.router.Entries(), registry.instances, available, key, r)
    {
      r := policy.router.SelectFrom(registry, available, key);
    }

    method SelectInTurn(cycler: Cycler, available: set<Address>) returns (r: Option<Address>)
      requires Wired() && Distinct(cycler.items) && forall a :: a in available ==> a in cycler.items
      modifies cycler
      ensures Wired() && Seen() == old(Seen())
      ensures r.Some? ==> r.value in available
      ensures r.None? <==> available == {}
      ensures (r, cycler.position) == TakeTurn(cycler.items, old(cycler.position), available)
    {
      if available != {} && cycler.items != [] {
        CallStops(cycler.items, cycler.position, available);
      }
      DistinctCalls(cycler.items, cycler.position, available);
      var o := roundRobinPolicy.Schedule(cycler, available);
      r := if o.Picked? then Some(o.address) else None;
    }

    method SelectLeastLoaded(role: Role, requestLen: int, maxTokens: int, ghost model: string, available: set<Address>)
      returns (r: Option<Address>)
      requires Wired() && policy.LeastLoaded? && policy.balancer.Aligned() && model !in fallback
      requires !role.Aggregated? && Distinct(ListOf(role).items)
      modifies if policy.LeastLoaded? then {policy.balancer} else {}
      ensures Wired() && Seen() == old(Seen()).(sys := Sys())
      ensures ChosenFrom(old(Sys()), Sys(), fallback, role, model, requestLen, maxTokens, available, r)
    {
      ghost var i;
      if role == Prefill {
        r, i := policy.balancer.SchedulePrefill(requestLen, maxTokens, available);
      } else {
        r, i := policy.balancer.ScheduleDecode(requestLen, maxTokens, available);
      }
      if r.Some? {
        PositionOf(ListOf(role).items, i);
      }
    }

    /** Schedules one request, by the policy of its model, and counts it.  Only a request that
        does not name its instance's model, as far as the fallback models are concerned, can
        leave the records out of step. */
    method Schedule(cycler: Cycler, isPrompt: bool, requestLen: nat, maxTokens: nat, model: string, key: int, now: real)
      returns (r: Option<Address>, ghost s: System, ghost available: set<Address>)
      requires Valid() && cycler == CyclerOf(RoleOf(isPrompt))
      modifies cycler, registry, this`leases, if policy.LeastLoaded? then {policy.balancer} else {}
      ensures Wired() && Current() && Seen() == old(Seen()).(sys := Sys())
      ensures s == LookedIn(old(Sys()), RoleOf(isPrompt), model, now)
      ensures available == AvailableSet(old(Sys()).records, registry.cbEnabled, RoleOf(isPrompt), model)
      ensures r.Some? ==>
                && MayPick(TheEnv(), s, RoleOf(isPrompt), model, requestLen + maxTokens, r.value)
                && r.value in s.records && Aligned(s)
                && Sys() == Scheduled(s, RoleOf(isPrompt), r.value, requestLen, Tracks(s, fallback, RoleOf(isPrompt), model))
      ensures r.Some? ==> MayServe(s.records, registry.cbEnabled, if isPrompt then Prefill else Decode, model, r.value)
      ensures r.None? ==> Sys() == s
      ensures r.None? && (!policy.Routes? || model in fallback) ==>
                NobodyToPick(TheEnv(), s, RoleOf(isPrompt), model, requestLen + maxTokens)
      ensures model in fallback || policy.Cycling? ==>
                (r, cycler.position) == TakeTurn(cycler.items, old(cycler.position), available)
      ensures model !in fallback && policy.Routes? ==>
                policy.router.Picks(old(policy.router.Entries()), s.records, available, key, r)
      ensures !Valid() ==> r.Some? && !(model in fallback <==> s.records[r.value].model in fallback)
    {
      ghost var v := Seen();
      s := LookedIn(Sys(), RoleOf(isPrompt), model, now);
      available := AvailableSet(Sys().records, registry.cbEnabled, RoleOf(isPrompt), model);
      r := Choose(cycler, RoleOf(isPrompt), requestLen, maxTokens, model, key, now, s, available);
      Recount(v, s, RoleOf(isPrompt), model, requestLen, maxTokens, now, r);
    }

    function RoleOf(isPrompt: bool): Role {
      if isPrompt then Prefill else Decode
    }

    // The pick is counted, if there is one.
    method Recount(
      ghost v: View, ghost s: System, role: Role, ghost model: string, ghost requestLen: nat, ghost maxTokens: nat, ghost now: real,
      o: Option<Address>)
      requires Wired() && Current() && !role.Aggregated? && ViewValid(v, fallback)
      requires s == LookedIn(v.sys, role, model, now) && SameButBreakers(v.sys.records, s.records)
      requires Seen() == v.(sys := Sys()) && PickMade(TheEnv(), s, Sys(), policy.Routes?, role, model, requestLen, maxTokens, o)
      modifies registry, this`leases
      ensures Wired() && Current() && Seen() == v.(sys := Sys())
      ensures o.Some? ==>
                && o.value in s.records && Aligned(s)
                && (Tracks(s, fallback, role, model) ==> o.value in RosterOf(s, role).addresses)
                && Sys() == Scheduled(s, role, o.value, requestLen, Tracks(s, fallback, role, model))
      ensures o.None? ==> Sys() == s
      ensures !Valid() ==> o.Some? && !(model in fallback <==> s.records[o.value].model in fallback)
    {
      if o.Some? {
        CountChosen(v, s, role, model, requestLen, maxTokens, now, o.value);
      } else {
        StillValid(v, role, model, now);
      }
    }

    // Only breakers have been looked at.
    lemma StillValid(v: View, role: Role, model: string, now: real)
      requires Wired() && Current() && ViewValid(v, fallback) && Seen() == v.(sys := LookedIn(v.sys, role, model, now))
      ensures Valid()
    {
      LookedView(v, fallback, registry.config, registry.cbEnabled, role, model, now);
    }

    // The chosen instance's new lease; the policy has counted it already.
    method CountChosen(
      ghost v: View, ghost s: System, role: Role, ghost model: string, ghost requestLen: nat, ghost maxTokens: nat, ghost now: real,
      a: Address)
      requires Wired() && Current() && !role.Aggregated? && ViewValid(v, fallback)
      requires s == LookedIn(v.sys, role, model, now) && MayPick(TheEnv(), s, role, model, requestLen + maxTokens, a)
      requires Seen() == v.(sys := if Tracks(s, fallback, role, model) then Bumped(s, role, a, requestLen) else s)
      modifies registry, this`leases
      ensures Wired() && Current() && Seen() == v.(sys := Sys())
      ensures a in s.records && Aligned(s)
      ensures Sys() == Scheduled(s, role, a, requestLen, Tracks(s, fallback, role, model))
      ensures (model in fallback <==> s.records[a].model in fallback) ==> Valid()
    {
      Count(Lease(role, a, requestLen, Tracks(s, fallback, role, model), false), a);
      if model in fallback <==> s.records[a].model in fallback {
        SchedulingSteps(TheEnv(), v, s, role, model, requestLen, maxTokens, now, a);
      }
    }

    // Looks up who is available and lets the policy pick.
    method Choose(
      cycler: Cycler, role: Role, requestLen: nat, maxTokens: nat, model: string, key: int, now: real,
      ghost s: System, ghost among: set<Address>)
      returns (r: Option<Address>)
      requires Valid() && !role.Aggregated? && cycler == CyclerOf(role)
      requires s == LookedIn(Sys(), role, model, now) && among == AvailableSet(Sys().records, registry.cbEnabled, role, model)
      modifies cycler, registry, if policy.LeastLoaded? then {policy.balancer} else {}
      ensures Wired() && Current() && Seen() == old(Seen()).(sys := Sys())
      ensures SameButBreakers(old(Sys()).records, s.records)
      ensures PickMade(TheEnv(), s, Sys(), policy.Routes?, role, model, requestLen, maxTokens, r)
      ensures model in fallback || policy.Cycling? ==>
                (r, cycler.position) == TakeTurn(cycler.items, old(cycler.position), among)
      ensures model !in fallback && policy.Routes? ==>
                policy.router.Picks(old(policy.router.Entries()), s.records, among, key, r)
    {
      var available := LookAround(role, model, now);
      r := ChooseAmong(cycler, role, requestLen, maxTokens, model, key, available);
    }

    method ChooseAmong(
      cycler: Cycler, role: Role, requestLen: nat, maxTokens: nat, model: string, key: int, available: set<Address>)
      returns (r: Option<Address>)
      requires Wired() && !role.Aggregated? && cycler == CyclerOf(role) && cycler.items == ListOf(role).items
      requires Distinct(cycler.items) && forall a :: a in available ==> a in cycler.items
      requires policy.LeastLoaded? ==> policy.balancer.Aligned()
      requires available == AvailableSet(Sys().records, registry.cbEnabled, role, model)
      modifies cycler, if policy.LeastLoaded? then {policy.balancer} else {}
      ensures Wired() && Seen() == old(Seen()).(sys := Sys())
      ensures PickMade(TheEnv(), old(Sys()), Sys(), policy.Routes?, role, model, requestLen, maxTokens, r)
      ensures model in fallback || policy.Cycling? ==>
                (r, cycler.position) == TakeTurn(cycler.items, old(cycler.position), available)
      ensures model !in fallback && policy.Routes? ==>
                policy.router.Picks(old(policy.router.Entries()), old(registry.instances), available, key, r)
    {
      ghost var s := Sys();
      r := Select(cycler, role, requestLen, maxTokens, model, key, available);
      ChosenMayBePicked(TheEnv(), s, Sys(), role, model, requestLen, maxTokens, r);
    }

    method LookAround(role: Role, model: string, now: real) returns (available: set<Address>)
      requires Valid() && !role.Aggregated?
      modifies registry
      ensures Wired() && Current() && Seen() == old(Seen()).(sys := Sys())
      ensures Sys() == LookedIn(old(Sys()), role, model, now) && SameButBreakers(old(Sys()).records, Sys().records)
      ensures available == AvailableSet(old(Sys()).records, registry.cbEnabled, role, model)
      ensures available == AvailableSet(Sys().records, registry.cbEnabled, role, model)
      ensures Distinct(ListOf(role).items) && forall a :: a in available ==> a in ListOf(role).items && a in Sys().records
      ensures policy.LeastLoaded? ==> policy.balancer.Aligned()
      ensures policy.Routes? ==> policy.router.Entries() == old(policy.router.Entries())
    {
      LookingIsHarmless(Sys(), fallback, registry.config, registry.cbEnabled, role, model, now);
      available := Available(role, model, now);
    }

    // The instances the registry lets through, as they were registered.
    method AvailableInOrder(role: Role, model: string, now: real) returns (available: seq<Address>)
      requires Wired() && Current()
      modifies registry
      ensures Wired() && Current() && Seen() == old(Seen()).(sys := Sys()) && registry.order == old(registry.order)
      ensures Sys() == LookedIn(old(Sys()), role, model, now)
      ensures available == InOrder(registry.order, AvailableSet(old(Sys()).records, registry.cbEnabled, role, model))
    {
      available := registry.GetAvailableInstances(role, model, now);
    }

    // As a set.
    method Available(role: Role, model: string, now: real) returns (available: set<Address>)
      requires Wired() && Current()
      modifies registry
      ensures Wired() && Current() && Seen() == old(Seen()).(sys := Sys())
      ensures Sys() == LookedIn(old(Sys()), role, model, now)
      ensures available == AvailableSet(old(Sys()).records, registry.cbEnabled, role, model)
    {
      var found := AvailableInOrder(role, model, now);
      InOrderFacts(registry.order, AvailableSet(old(registry.instances), registry.cbEnabled, role, model));
      available := set a | a in found;
    }

    // The registry's count of the new lease.
    method Count(ghost l: Lease, a: Address)
      requires Wired() && Current() && a in registry.instances && l.address == a
      modifies registry, this`leases
      ensures Wired() && Current() && Seen() == old(Seen()).(sys := Sys()) && registry.order == old(registry.order)
      ensures Sys() == old(Sys()).(records := Incremented(old(Sys()).records, a), leases := old(Sys()).leases + [l])
    {
      var r := registry.IncrementActiveRequests(a);
      leases := leases + [l];
    }

    // ---------------------------------------------------------------- completion

    /** Releases one or both instances of a reservation: the registry's counts, then the
        policy's unless every instance released serves a fallback model. */
    method ScheduleCompletion(
      prefill: Option<Address>, decode: Option<Address>, reqLen: int, now: real, ghost p: nat, ghost d: nat)
      returns (r: Raised)
      requires Valid()
      requires prefill.Some? ==> IsLease(leases, p, Prefill, prefill.value, reqLen)
      requires decode.Some? ==> IsLease(leases, d, Decode, decode.value, reqLen)
      requires prefill.Some? && decode.Some? ==> leases[p].tracked == leases[d].tracked
      modifies registry, this`leases, PolicyParts()
      ensures r.Fine? && Wired() && Current() && Seen() == old(Seen()).(sys := Sys())
      ensures CanReleaseThese(old(Sys()), prefill.Some?, decode.Some?, p, d)
      ensures var t := ReleasedThese(old(Sys()), fallback, prefill.Some?, decode.Some?, p, d);
              && OnlyInspected(registry.config, now, NamesOf(prefill, decode), t.records, Sys().records)
              && Sys() == t.(records := Sys().records)
    {
      ghost var s := Sys();
      ReleasesAreSafe(s, fallback, prefill.Some?, decode.Some?, p, d);
      ReleasedInParts(s, fallback, prefill.Some?, decode.Some?, p, d);
      r := UncountBoth(prefill, decode, reqLen, p, d);
      if r == Fine {
        r := TellPolicy(prefill, decode, reqLen, now);
      }
    }

    // The policy hears of the completion unless every instance serves a fallback model.
    method TellPolicy(prefill: Option<Address>, decode: Option<Address>, reqLen: int, now: real) returns (r: Raised)
      requires Wired() && Current() && (policy.LeastLoaded? ==> policy.balancer.Aligned())
      requires prefill.Some? ==> prefill.value in registry.instances && prefill.value in prefillInstances.items
      requires decode.Some? ==> decode.value in registry.instances && decode.value in decodeInstances.items
      modifies registry, PolicyParts()
      ensures r.Fine? && Wired() && Current() && Seen() == old(Seen()).(sys := Sys())
      ensures OnlyInspected(registry.config, now, NamesOf(prefill, decode), old(Sys()).records, Sys().records)
      ensures var s := old(Sys());
              Sys() == if !s.balanced || Unreported(s, fallback, prefill, decode) then s.(records := Sys().records)
                       else s.(records := Sys().records,
                               prefill := if prefill.Some? then CompletedAt(s.prefill, prefill.value, reqLen) else s.prefill,
                               decode := if decode.Some? then CompletedAt(s.decode, decode.value, reqLen) else s.decode)
    {
      var silent;
      r, silent := AllFallback(prefill, decode, now);
      if r != Fine || silent {
        return;
      }
      r := Complete(prefill, decode, reqLen);
    }

    method UncountBoth(prefill: Option<Address>, decode: Option<Address>, reqLen: int, ghost p: nat, ghost d: nat)
      returns (r: Raised)
      requires Wired() && Current()
      requires CanReleaseThese(Sys(), prefill.Some?, decode.Some?, p, d)
      requires prefill.Some? ==> IsLease(leases, p, Prefill, prefill.value, reqLen)
      requires decode.Some? ==> IsLease(leases, d, Decode, decode.value, reqLen)
      modifies registry, this`leases
      ensures r.Fine? && Wired() && Current() && Seen() == old(Seen()).(sys := Sys())
      ensures Sys() == UncountedThese(old(Sys()), prefill.Some?, decode.Some?, p, d)
    {
      r := Fine;
      if prefill.Some? {
        r := Uncount(prefill.value, p);
        if r != Fine {
          return;
        }
      }
      if decode.Some? {
        r := Uncount(decode.value, d);
      }
    }

    method Uncount(a: Address, ghost k: nat) returns (r: Raised)
      requires Wired() && Current() && k < |leases|
      modifies registry, this`leases
      ensures Wired() && Current() && Seen() == old(Seen()).(sys := Sys())
      ensures r == if a in old(Sys()).records then Fine else KeyError
      ensures r.Fine? ==>
                Sys() == old(Sys()).(records := Decremented(old(Sys()).records, a), leases := MarkReleased(old(Sys()).leases, k))
      ensures !r.Fine? ==> Sys() == old(Sys())
    {
      r := LowerCount(a);
      if r == Fine {
        leases := MarkReleased(leases, k);
      }
    }

    // Whether there is an instance and every one of them serves a fallback model.
    method AllFallback(prefill: Option<Address>, decode: Option<Address>, now: real) returns (r: Raised, silent: bool)
      requires Wired() && Current()
      modifies registry
      ensures Wired() && Current() && Seen() == old(Seen()).(sys := Sys())
      ensures OnlyInspected(registry.config, now, NamesOf(prefill, decode), old(Sys()).records, Sys().records)
      ensures Sys() == old(Sys()).(records := Sys().records)
      ensures (prefill.Some? ==> prefill.value in old(Sys()).records) && (decode.Some? ==> decode.value in old(Sys()).records) ==>
                && r.Fine?
                && (silent <==> (prefill.Some? || decode.Some?)
                                && (prefill.Some? ==> old(Sys()).records[prefill.value].model in fallback)
                                && (decode.Some? ==> old(Sys()).records[decode.value].model in fallback))
    {
      var yes;
      ghost var rs := registry.instances;
      InspectedNone(registry.config, now, rs);
      if prefill.Some? {
        r, yes := IsFallback(prefill.value, now);
        if r != Fine || !yes {
          return r, false;
        }
      }
      ghost var rs1 := registry.instances;
      if decode.Some? {
        r, yes := IsFallback(decode.value, now);
        InspectedThen(registry.config, now, if prefill.Some? then {prefill.value} else {}, {decode.value}, rs, rs1, registry.instances);
        if r != Fine || !yes {
          return r, false;
        }
      }
      return Fine, prefill.Some? || decode.Some?;
    }

    method IsFallback(a: Address, now: real) returns (r: Raised, yes: bool)
      requires Wired() && Current()
      modifies registry
      ensures Wired() && Current() && Seen() == old(Seen()).(sys := Sys())
      ensures OnlyInspected(registry.config, now, {a}, old(Sys()).records, Sys().records)
      ensures Sys() == old(Sys()).(records := Sys().records)
      ensures a in old(Sys()).records ==> r.Fine? && (yes <==> old(Sys()).records[a].model in fallback)
    {
      var model;
      r, model := registry.GetInstanceModel(a, now);
      yes := r == Fine && model in fallback;
    }

    // The policy's completion; only the load balancer has one.
    method Complete(prefill: Option<Address>, decode: Option<Address>, reqLen: int) returns (r: Raised)
      requires Wired() && Current() && (policy.LeastLoaded? ==> policy.balancer.Aligned())
      modifies PolicyParts()
      ensures Wired() && Current() && Seen() == old(Seen()).(sys := Sys())
      ensures !policy.LeastLoaded? ==> r.Fine? && Sys() == old(Sys())
      ensures policy.LeastLoaded?
              && (prefill.Some? ==> prefill.value in prefillInstances.items)
              && (decode.Some? ==> decode.value in decodeInstances.items) ==>
                && r.Fine?
                && var s := old(Sys());
                   Sys() == s.(prefill := if prefill.Some? then CompletedAt(s.prefill, prefill.value, reqLen) else s.prefill,
                               decode := if decode.Some? then CompletedAt(s.decode, decode.value, reqLen) else s.decode)
    {
      r := Fine;
      if policy.LeastLoaded? {
        if prefill.Some? {
          r := policy.balancer.CompletePrefill(prefill.value, reqLen);
          if r != Fine {
            return;
          }
        }
        if decode.Some? {
          r := policy.balancer.CompleteDecode(decode.value, reqLen);
        }
      } else if policy.Routes? {
        policy.router.Completed(prefill, decode);
      }
    }

    /** What a reservation calls when it lets go: completion, then the breakers' successes.
        It never raises, the proxy is consistent again, and beyond the release each instance
        let go of, and no other, sees one success. */
    method ExceptionHandler(
      prefill: Option<Address>, decode: Option<Address>, reqLen: int, now: real, ghost p: nat, ghost d: nat)
      returns (r: Raised)
      requires Valid()
      requires prefill.Some? ==> IsLease(leases, p, Prefill, prefill.value, reqLen)
      requires decode.Some? ==> IsLease(leases, d, Decode, decode.value, reqLen)
      requires prefill.Some? && decode.Some? ==> leases[p].tracked == leases[d].tracked
      modifies registry, this`leases, PolicyParts()
      ensures r.Fine? && Valid() && Seen() == old(Seen()).(sys := Sys())
      ensures CanReleaseThese(old(Sys()), prefill.Some?, decode.Some?, p, d)
      ensures var t := ReleasedThese(old(Sys()), fallback, prefill.Some?, decode.Some?, p, d);
              && CreditsJust(registry.config, now, NamesOf(prefill, decode), t.records, Sys().records)
              && Sys() == t.(records := Sys().records)
    {
      ghost var v := Seen();
      ReleasesAreSafe(v.sys, fallback, prefill.Some?, decode.Some?, p, d);
      ghost var t := ReleasedThese(v.sys, fallback, prefill.Some?, decode.Some?, p, d);
      CompletionSteps(TheEnv(), v, prefill.Some?, decode.Some?, p, d);
      CreditedAfterLook(registry.config, now, NamesOf(prefill, decode), t.records, t.records);
      if prefill.None? && decode.None? {
        return Fine;
      }
      r := CompleteAndCredit(prefill, decode, reqLen, now, p, d);
      BreakersView(v, fallback, t, Sys().records);
    }

    method CompleteAndCredit(
      prefill: Option<Address>, decode: Option<Address>, reqLen: int, now: real, ghost p: nat, ghost d: nat)
      returns (r: Raised)
      requires Valid()
      requires prefill.Some? ==> IsLease(leases, p, Prefill, prefill.value, reqLen)
      requires decode.Some? ==> IsLease(leases, d, Decode, decode.value, reqLen)
      requires prefill.Some? && decode.Some? ==> leases[p].tracked == leases[d].tracked && prefill != decode
      modifies registry, this`leases, PolicyParts()
      ensures r.Fine? && Wired() && Current() && Seen() == old(Seen()).(sys := Sys())
      ensures CanReleaseThese(old(Sys()), prefill.Some?, decode.Some?, p, d)
      ensures var t := ReleasedThese(old(Sys()), fallback, prefill.Some?, decode.Some?, p, d);
              Sys() == t.(records := Credited(t.records, registry.config, NamesOf(prefill, decode), now))
    {
      r := ScheduleCompletion(prefill, decode, reqLen, now, p, d);
      ghost var t := ReleasedThese(old(Sys()), fallback, prefill.Some?, decode.Some?, p, d);
      ReleasedNames(old(Sys()), fallback, prefill.Some?, decode.Some?, p, d);
      CreditedAfterLook(registry.config, now, NamesOf(prefill, decode), t.records, Sys().records);
      r := RecordSuccesses(prefill, decode, now);
    }

    // Two different instances see one success each.
    method RecordSuccesses(prefill: Option<Address>, decode: Option<Address>, now: real) returns (r: Raised)
      requires Wired() && Current() && (prefill.Some? && decode.Some? ==> prefill != decode)
      modifies registry
      ensures Wired() && Current() && Seen() == old(Seen()).(sys := Sys())
      ensures (prefill.Some? ==> prefill.value in old(Sys()).records) && (decode.Some? ==> decode.value in old(Sys()).records) ==>
                && r.Fine?
                && Sys() == old(Sys()).(records := Credited(old(Sys()).records, registry.config, NamesOf(prefill, decode), now))
    {
      r := Fine;
      ghost var rs := Sys().records;
      if (prefill.Some? ==> prefill.value in rs) && (decode.Some? ==> decode.value in rs) {
        CreditedOneByOne(rs, registry.config, prefill, decode, now);
      }
      if prefill.Some? {
        r := RecordSuccess(prefill.value, now);
        if r != Fine {
          return;
        }
      }
      if decode.Some? {
        r := RecordSuccess(decode.value, now);
      }
    }

    method RecordSuccess(a: Address, now: real) returns (r: Raised)
      requires Wired() && Current()
      modifies registry
      ensures Wired() && Current() && Seen() == old(Seen()).(sys := Sys())
      ensures r == if a in old(Sys()).records then Fine else KeyError
      ensures Step(TheEnv(), old(Sys()), RecordsSuccess(a, now), Sys())
    {
      r := registry.RecordSuccess(a, now);
    }

    /** A request's failure is recorded for its instances, as far as they are registered: a step
        of the protocol each, which leaves every record in step. */
    method RecordFailures(prefill: Option<Address>, decode: Option<Address>, now: real, seen: real) returns (r: Raised)
      requires Valid()
      modifies registry
      ensures Valid() && Seen() == old(Seen()).(sys := Sys())
      ensures r == if (prefill.Some? && prefill.value !in old(Sys()).records) || (decode.Some? && decode.value !in old(Sys()).records)
                   then KeyError else Fine
      ensures Sys() == if prefill.Some? && prefill.value !in old(Sys()).records then old(Sys())
                       else AfterFailure(TheEnv(), AfterFailure(TheEnv(), old(Sys()), prefill, now, seen), decode, now, seen)
    {
      r := Fine;
      if prefill.Some? {
        r := RecordFailure(prefill.value, now, seen);
        if r != Fine {
          return;
        }
      }
      if decode.Some? {
        r := RecordFailure(decode.value, now, seen);
      }
    }

    method RecordFailure(a: Address, now: real, seen: real) returns (r: Raised)
      requires Valid()
      modifies registry
      ensures Valid() && Seen() == old(Seen()).(sys := Sys())
      ensures r == if a in old(Sys()).records then Fine else KeyError
      ensures Step(TheEnv(), old(Sys()), RecordsFailure(a, now, seen), Sys())
    {
      ghost var v := Seen();
      r := BlameInstance(a, now, seen);
      OnlyBreakersChange(TheEnv(), v.sys.records, RecordsFailure(a, now, seen));
      BreakersView(v, fallback, v.sys, Sys().records);
    }

    method BlameInstance(a: Address, now: real, seen: real) returns (r: Raised)
      requires Wired() && Current()
      modifies registry
      ensures Wired() && Current() && Seen() == old(Seen()).(sys := Sys())
      ensures r == if a in old(Sys()).records then Fine else KeyError
      ensures Step(TheEnv(), old(Sys()), RecordsFailure(a, now, seen), Sys())
    {
      r := registry.RecordFailure(a, now, seen);
    }

    // ---------------------------------------------------------------- results from outside

    /** A probe's answer, late or not, or its failure. */
    method ProbeNode(a: Address, reply: Reply)
      requires Valid()
      modifies registry
      ensures Valid() && Seen() == old(Seen()).(sys := Sys())
      ensures Step(TheEnv(), old(Sys()), HealthResult(a, reply == Answered(200)), Sys())
      ensures reply != Answered(200) ==> forall role, model :: !MayServe(Sys().records, registry.cbEnabled, role, model, a)
    {
      ApplyHealth(a, reply.Answered? && reply.status == 200);
    }

    /** A health result, late or not: an unknown instance's is ignored, a draining instance
        stays draining, any other instance is healthy or unhealthy from now on, and every record
        stays in step. */
    method ApplyHealth(a: Address, healthy: bool)
      requires Valid()
      modifies registry
      ensures Valid() && Seen() == old(Seen()).(sys := Sys())
      ensures Step(TheEnv(), old(Sys()), HealthResult(a, healthy), Sys())
      ensures IsDraining(old(Sys()), a) ==> Sys() == old(Sys())
      ensures var rs, rs' := old(Sys()).records, Sys().records;
              && Sys() == old(Sys()).(records := rs')
              && if a !in rs then rs' == rs
                 else
                   && SameButStatus(rs, rs', a)
                   && rs'[a].status == if rs[a].status == Draining then Draining else if healthy then Healthy else Unhealthy
      ensures !healthy ==> forall role, model :: !MayServe(Sys().records, registry.cbEnabled, role, model, a)
    {
      ghost var v := Seen();
      if a in v.sys.records {
        MarkedMeans(v.sys.records, a, healthy);
      }
      ghost var t := if a in v.sys.records then v.sys.(records := Marked(v.sys.records, a, healthy)) else v.sys;
      HealthView(TheEnv(), v, a, healthy, t);
      Mark(a, healthy);
    }

    // The registry's mark, if the instance is known.
    method Mark(a: Address, healthy: bool)
      requires Wired() && Current()
      modifies registry
      ensures Wired() && Current() && Seen() == old(Seen()).(sys := Sys())
      ensures var rs := old(Sys()).records;
              Sys() == if a in rs then old(Sys()).(records := Marked(rs, a, healthy)) else old(Sys())
    {
      var r;
      if healthy {
        r := registry.MarkHealthy(a);
      } else {
        r := registry.MarkUnhealthy(a);
      }
    }

    /** Discovery learns an instance's model.  Only that of an aggregated instance, or of an
        instance in use that so becomes or ceases to be a fallback instance, can leave the
        records out of step. */
    method DiscoverModel(a: Address, model: string) returns (r: Raised)
      requires Valid()
      modifies registry
      ensures Wired() && Current() && Seen() == old(Seen()).(sys := Sys())
      ensures r == if a in old(Sys()).records then Fine else KeyError
      ensures Effect(TheEnv(), old(Sys()), DiscoversModel(a, model), Sys())
      ensures !Valid() ==>
                var rs := old(Sys()).records;
                a in rs && (rs[a].role.Aggregated? || (rs[a].active != 0 && !(model in fallback <==> rs[a].model in fallback)))
    {
      ghost var v := Seen();
      r := UpdateModel(a, model);
      if r == Fine {
        ModelView(v, fallback, a, model);
      }
    }

    method UpdateModel(a: Address, model: string) returns (r: Raised)
      requires Wired() && Current()
      modifies registry
      ensures Wired() && Current() && Seen() == old(Seen()).(sys := Sys())
      ensures r == if a in old(Sys()).records then Fine else KeyError
      ensures Effect(TheEnv(), old(Sys()), DiscoversModel(a, model), Sys())
    {
      r := registry.UpdateModel(a, model);
    }

    // ---------------------------------------------------------------- single edits

    method Register(role: Role, a: Address, model: string)
      requires Wired() && a !in registry.instances
      modifies registry
      ensures Wired() && Seen() == old(Seen()).(sys := Sys())
      ensures Sys() == Membership.Register(old(Seen()), role, a, model).sys
    {
      registry.AddHealthy(role, a, model);
    }

    method Unregister(a: Address)
      requires Wired() && a in registry.instances
      modifies registry
      ensures Wired() && Seen() == old(Seen()).(sys := Sys())
      ensures Sys() == old(Sys()).(records := old(Sys()).records - {a})
    {
      registry.Drop(a);
    }

    method AddInstanceToPolicy(role: Role, a: Address, maxModelLen: int)
      requires Wired() && !role.Aggregated?
      modifies PolicyParts()
      ensures Wired() && Seen() == PolicyAdd(old(Seen()), role, a, maxModelLen)
    {
      match policy
      case Cycling(_) =>
      case LeastLoaded(_) => ExtendBalancer(role, maxModelLen);
      case Routes(_) => HireWorker(a);
    }

    // The policy's addition, when it raises.
    method StopInPolicy(role: Role, a: Address, maxModelLen: int, points: Option<nat>)
      requires Wired() && !role.Aggregated?
      modifies PolicyParts()
      ensures Wired() && Seen() == PolicyStopped(old(Seen()), role, a, maxModelLen, points)
    {
      if points.Some? {
        match policy
        case Cycling(_) =>
        case LeastLoaded(_) => ExtendBalancer(role, maxModelLen);
        case Routes(_) => HirePartly(a, points.value);
      }
    }

    method HirePartly(a: Address, n: nat)
      requires Wired() && policy.Routes?
      modifies PolicyParts()
      ensures Wired() && Seen() == old(Seen()).(workforce := Some(PartlyJoined(old(Seen()).workforce.value, a, n)))
    {
      policy.router.AddPartly(a, n);
    }

    method ExtendBalancer(role: Role, maxModelLen: int)
      requires Wired() && policy.LeastLoaded? && !role.Aggregated?
      modifies if policy.LeastLoaded? then {policy.balancer} else {}
      ensures Wired()
      ensures var r := RosterOf(old(Sys()), role);
              Seen() == WithRoster(old(Seen()), role, r.(pool := Extend(r.pool, maxModelLen)))
    {
      policy.balancer.AddInstanceState(role, maxModelLen);
    }

    method HireWorker(a: Address)
      requires Wired() && policy.Routes?
      modifies PolicyParts()
      ensures Wired() && Seen() == old(Seen()).(workforce := Some(Joined(old(Seen()).workforce.value, a)))
    {
      policy.router.AddWorker(a);
    }

    method RemoveInstanceFromPolicy(role: Role, a: Address, index: nat)
      requires Wired() && !role.Aggregated? && IndexOk(Seen(), role, index) && EvenPool(role)
      modifies PolicyParts()
      ensures Wired() && Seen() == PolicyRemove(old(Seen()), role, a, index)
    {
      match policy
      case Cycling(_) =>
      case LeastLoaded(_) => ShrinkBalancer(role, index);
      case Routes(_) => DismissWorker(a);
    }

    // The load balancer's arrays of the role are equally long.
    ghost predicate EvenPool(role: Role)
      requires !role.Aggregated?
      reads Parts()
    {
      policy.LeastLoaded? ==> var p := RosterOf(Sys(), role).pool; |p.batch| == |p.tokens| == |p.limits|
    }

    method ShrinkBalancer(role: Role, index: nat)
      requires Wired() && policy.LeastLoaded? && !role.Aggregated? && IndexOk(Seen(), role, index) && EvenPool(role)
      modifies if policy.LeastLoaded? then {policy.balancer} else {}
      ensures Wired()
      ensures var r := RosterOf(old(Sys()), role);
              Seen() == WithRoster(old(Seen()), role, r.(pool := Shrink(r.pool, index)))
    {
      policy.balancer.RemoveInstanceState(role, index);
    }

    method DismissWorker(a: Address)
      requires Wired() && policy.Routes?
      modifies PolicyParts()
      ensures Wired() && Seen() == old(Seen()).(workforce := Some(Parted(old(Seen()).workforce.value, a)))
    {
      policy.router.RemoveWorker(a);
    }

    // The cycler follows the role's list.
    method NewCycler(role: Role)
      requires Wired() && !role.Aggregated?
      modifies this`prefillCycler, this`decodeCycler
      ensures Wired() && Seen() == old(Seen())
      ensures old(CurrentBut(role)) ==> Current()
    {
      if role == Prefill {
        prefillCycler := new Cycler(prefillInstances.items);
      } else {
        decodeCycler := new Cycler(decodeInstances.items);
      }
    }

    method AppendTo(role: Role, a: Address)
      requires Wired() && !role.Aggregated?
      modifies ListOf(role)
      ensures Wired() && Seen() == WithAddresses(old(Seen()), role, RosterOf(old(Sys()), role).addresses + [a])
      ensures old(CurrentBut(role)) ==> CurrentBut(role)
    {
      ListOf(role).Append(a);
    }

    method DropFrom(role: Role, a: Address)
      requires Wired() && !role.Aggregated?
      modifies ListOf(role)
      ensures Wired() && Seen() == WithAddresses(old(Seen()), role, Without(RosterOf(old(Sys()), role).addresses, a))
      ensures old(CurrentBut(role)) ==> CurrentBut(role)
    {
      if a in ListOf(role).items {
        ListOf(role).Remove(a);
      }
    }

    method AppendInstance(role: Role, a: Address, model: string)
      requires Wired()
      modifies this, prefillInstances, decodeInstances
      ensures Wired() && Seen() == ListAdd(old(Seen()), role, a, model)
      ensures old(CurrentBut(role)) ==> Current()
    {
      if role == Aggregated {
        AppendAggregated(a, model);
      } else {
        AppendTo(role, a);
        NewCycler(role);
      }
    }

    // Also makes the cyclers follow whatever happened to the lists before.
    method DropInstance(role: Role, a: Address, model: string)
      requires Wired()
      modifies this, prefillInstances, decodeInstances
      ensures Wired() && Seen() == ListRemove(old(Seen()), role, a, model)
      ensures old(CurrentBut(role)) ==> Current()
    {
      if role == Aggregated {
        DropAggregated(a, model);
      } else {
        DropFrom(role, a);
        NewCycler(role);
      }
    }

    method AppendAggregated(a: Address, model: string)
      requires Wired()
      modifies this`aggregatedInstances
      ensures Wired() && Seen() == ListAdd(old(Seen()), Aggregated, a, model)
    {
      var before := if model in aggregatedInstances then aggregatedInstances[model] else [];
      aggregatedInstances := aggregatedInstances[model := before + [a]];
    }

    // A model without instances is forgotten.
    method DropAggregated(a: Address, model: string)
      requires Wired()
      modifies this`aggregatedInstances
      ensures Wired() && Seen() == ListRemove(old(Seen()), Aggregated, a, model)
    {
      var rest := Without(if model in aggregatedInstances then aggregatedInstances[model] else [], a);
      aggregatedInstances := if rest == [] then aggregatedInstances - {model} else aggregatedInstances[model := rest];
    }

    method AddToMonitor(a: Address)
      requires Wired()
      modifies if healthMonitor == null then {} else {healthMonitor}
      ensures Wired() && Seen() == MonitorAdd(old(Seen()), a)
    {
      if healthMonitor != null {
        healthMonitor.AddNode(a);
      }
    }

    method RemoveFromMonitor(a: Address)
      requires Wired()
      modifies if healthMonitor == null then {} else {healthMonitor}
      ensures Wired() && Seen() == MonitorRemove(old(Seen()), a)
    {
      if healthMonitor != null {
        healthMonitor.RemoveNode(a);
      }
    }

    method AddToDiscovery(role: Role, a: Address)
      requires Wired()
      modifies if discovery == null then {} else {discovery, discovery.ListOf(role)}
      ensures Wired() && Seen() == DiscoveryAdd(old(Seen()), role, a)
      ensures old(Current()) && (role.Aggregated? || old(a in ListOf(role).items)) ==> Current()
    {
      if discovery != null {
        discovery.AddInstance(role, a);
      }
    }

    method RemoveFromDiscovery(role: Role, a: Address)
      requires Wired()
      modifies if discovery == null then {} else {discovery, discovery.ListOf(role)}
      ensures Wired() && Seen() == DiscoveryRemove(old(Seen()), role, a)
      ensures old(CurrentBut(role)) ==> CurrentBut(role)
      ensures old(Current()) && (role.Aggregated? || old(a !in ListOf(role).items)) ==> Current()
    {
      if discovery != null {
        discovery.RemoveInstance(role, a);
      }
    }

    // ---------------------------------------------------------------- adding an instance

    // Registry, policy and list; `fault` says where the addition raises.
    method Enlist(role: Role, a: Address, model: string, limit: int, fault: Fault) returns (raised: bool, policyAdded: bool)
      requires Wired() && Current() && a !in registry.instances
      modifies Parts()
      ensures Wired() && Current()
      ensures Attempt(Seen(), policyAdded, raised) == Membership.Enlist(old(Seen()), role, a, model, limit, fault)
      ensures !raised && !role.Aggregated? ==> a in ListOf(role).items
    {
      Register(role, a, model);
      if role == Aggregated {
        AppendInstance(role, a, model);
        return false, false;
      }
      raised, policyAdded := EnlistSplit(role, a, model, limit, fault);
    }

    // The registry has the instance already.
    method EnlistSplit(role: Role, a: Address, model: string, limit: int, fault: Fault) returns (raised: bool, policyAdded: bool)
      requires Wired() && Current() && !role.Aggregated?
      modifies Parts() - {registry}
      ensures Wired() && Current()
      ensures (raised, policyAdded) == if fault.PolicyRaises? then (true, false) else (false, true)
      ensures Seen() ==
              if !fault.PolicyRaises? then ListAdd(PolicyAdd(old(Seen()), role, a, limit), role, a, model)
              else PolicyStopped(old(Seen()), role, a, limit, fault.points)
      ensures !raised ==> a in ListOf(role).items
    {
      if fault.PolicyRaises? {
        StopInPolicy(role, a, limit, fault.points);
        return true, false;
      }
      JoinPolicyAndList(role, a, model, limit);
      return false, true;
    }

    method JoinPolicyAndList(role: Role, a: Address, model: string, limit: int)
      requires Wired() && Current() && !role.Aggregated?
      modifies Parts() - {registry}
      ensures Wired() && Current() && a in ListOf(role).items
      ensures Seen() == ListAdd(PolicyAdd(old(Seen()), role, a, limit), role, a, model)
    {
      AddInstanceToPolicy(role, a, limit);
      AppendInstance(role, a, model);
    }

    // Health monitor and discovery.
    method Announce(role: Role, a: Address, fault: Fault) returns (raised: bool)
      requires Wired()
      modifies if healthMonitor == null then {} else {healthMonitor}, if discovery == null then {} else {discovery, discovery.ListOf(role)}
      ensures Wired() && (Seen(), raised) == Membership.Announce(old(Seen()), role, a, fault)
      ensures old(Current()) && (role.Aggregated? || old(a in ListOf(role).items)) ==> Current()
    {
      if healthMonitor != null && fault.MonitorRaises? {
        if fault.applied {
          AddToMonitor(a);
        }
        return true;
      }
      AddToMonitor(a);
      if discovery != null && fault.DiscoveryRaises? {
        if fault.applied {
          AddToDiscovery(role, a);
        }
        return true;
      }
      AddToDiscovery(role, a);
      return false;
    }

    // The guarded part of an addition.
    method AttemptAdd(role: Role, a: Address, model: string, limit: int, fault: Fault)
      returns (raised: bool, policyAdded: bool)
      requires Wired() && Current() && a !in registry.instances
      modifies Parts()
      ensures Wired() && Current()
      ensures Attempt(Seen(), policyAdded, raised) == Attach(old(Seen()), role, a, model, limit, fault)
    {
      raised, policyAdded := Enlist(role, a, model, limit, fault);
      if !raised {
        raised := Announce(role, a, fault);
      }
    }

    // Discovery, health monitor and list let go of the instance.
    method Withdraw(role: Role, a: Address, model: string)
      requires Wired() && CurrentBut(role)
      modifies Parts() - {registry} - PolicyParts()
      ensures Wired() && Current()
      ensures Seen() == ListRemove(MonitorRemove(DiscoveryRemove(old(Seen()), role, a), a), role, a, model)
    {
      Retract(role, a);
      DropInstance(role, a, model);
    }

    method Retract(role: Role, a: Address)
      requires Wired() && CurrentBut(role)
      modifies if healthMonitor == null then {} else {healthMonitor}, if discovery == null then {} else {discovery, discovery.ListOf(role)}
      ensures Wired() && CurrentBut(role)
      ensures Seen() == MonitorRemove(DiscoveryRemove(old(Seen()), role, a), a)
    {
      RemoveFromDiscovery(role, a);
      RemoveFromMonitor(a);
    }

    // So does the policy if it is known to have recorded the instance, and the registry.
    method Strike(role: Role, a: Address, index: nat, policyAdded: bool)
      requires Wired() && Current() && a in registry.instances
      requires policyAdded ==> !role.Aggregated? && IndexOk(Seen(), role, index) && EvenPool(role)
      modifies {registry} + PolicyParts()
      ensures Wired() && Current()
      ensures Seen() == Membership.Unregister(if policyAdded then PolicyRemove(old(Seen()), role, a, index) else old(Seen()), a)
    {
      if policyAdded {
        RemoveInstanceFromPolicy(role, a, index);
      }
      Unregister(a);
    }

    // The exception handler of an addition.
    method UndoAdd(role: Role, a: Address, model: string, index: nat, policyAdded: bool)
      requires Wired() && CurrentBut(role) && a in registry.instances
      requires policyAdded ==> !role.Aggregated? && IndexOk(Seen(), role, index) && EvenPool(role)
      modifies Parts()
      ensures Wired() && Current() && Seen() == Rollback(old(Seen()), role, a, model, index, policyAdded)
    {
      Withdraw(role, a, model);
      Strike(role, a, index, policyAdded);
    }

    /** Adds a validated instance; `details` is what its validation reported.  A failure
        part-way leaves every record as it was, unless the policy raised after it had begun to
        record the instance: then the policy, and only it, keeps what it recorded. */
    method AddInstance(role: Role, a: Address, details: Option<(string, int)>, fault: Fault, now: real) returns (r: AddResult)
      requires Valid() && draining.None?
      modifies Parts()
      ensures Wired() && Current()
      ensures Valid() <==> !(r.RolledBack? && LeavesPolicy(old(Seen()), role, fault))
      ensures r.Invalid? <==> details.None?
      ensures r.AlreadyExists? <==> details.Some? && a in old(Sys()).records
      ensures r.Invalid? ==> Seen() == old(Seen())
      ensures r.RolledBack? ==> LeftAfter(old(Seen()), role, a, details.value.1, fault, Seen())
      ensures r.AlreadyExists? ==>
                SameButBreakers(old(Sys()).records, Sys().records) && Seen() == old(Seen()).(sys := old(Sys()).(records := Sys().records))
      ensures r.AddedNow? ==>
                && Seen() == Attach(old(Seen()), role, a, details.value.0, details.value.1, fault).view
                && Step(TheEnv(), old(Sys()), Adds(role, a, details.value.0, details.value.1), Sys())
      ensures details.Some? && fault.NoFault? && a !in old(Sys()).records ==> r.AddedNow?
    {
      if details.None? {
        return Invalid;
      }
      r := AddDetailed(role, a, details.value.0, details.value.1, fault, now);
    }

    method AddDetailed(role: Role, a: Address, model: string, limit: int, fault: Fault, now: real) returns (r: AddResult)
      requires Valid() && draining.None?
      modifies Parts()
      ensures Wired() && Current() && !r.Invalid?
      ensures Valid() <==> !(r.RolledBack? && LeavesPolicy(old(Seen()), role, fault))
      ensures r.AlreadyExists? <==> a in old(Sys()).records
      ensures r.RolledBack? ==> LeftAfter(old(Seen()), role, a, limit, fault, Seen())
      ensures r.AlreadyExists? ==>
                SameButBreakers(old(Sys()).records, Sys().records) && Seen() == old(Seen()).(sys := old(Sys()).(records := Sys().records))
      ensures r.AddedNow? ==>
                && Seen() == Attach(old(Seen()), role, a, model, limit, fault).view
                && Sys() == Added(old(Sys()), role, a, model, limit)
      ensures fault.NoFault? && a !in old(Sys()).records ==> r.AddedNow?
    {
      var known, _ := Snapshot(a, now);
      if known == Fine {
        return AlreadyExists;
      }
      var raised := AddNew(role, a, model, limit, fault);
      return if raised then RolledBack else AddedNow;
    }

    method AddNew(role: Role, a: Address, model: string, limit: int, fault: Fault) returns (raised: bool)
      requires Valid() && draining.None? && a !in registry.instances
      modifies Parts()
      ensures Wired() && Current() && raised == Attach(old(Seen()), role, a, model, limit, fault).raised
      ensures ViewValid(Seen(), fallback) <==> !(raised && LeavesPolicy(old(Seen()), role, fault))
      ensures raised ==> LeftAfter(old(Seen()), role, a, limit, fault, Seen())
      ensures !raised ==> Seen() == Attach(old(Seen()), role, a, model, limit, fault).view
      ensures !raised ==> Sys() == Added(old(Sys()), role, a, model, limit)
    {
      ghost var v := Seen();
      var index := Length(role, model);
      var policyAdded;
      raised, policyAdded := AttemptAdd(role, a, model, limit, fault);
      Conclude(v, role, a, model, limit, fault, index, policyAdded, raised);
    }

    // An addition of what was recorded nowhere in `v` is taken back if it failed.
    method Conclude(
      ghost v: View, role: Role, a: Address, model: string, ghost limit: int, ghost fault: Fault, index: nat, policyAdded: bool,
      raised: bool)
      requires Wired() && Current() && ViewValid(v, fallback) && a !in v.sys.records
      requires Attempt(Seen(), policyAdded, raised) == Attach(v, role, a, model, limit, fault)
      requires index == |Instances(v, role, model)| && v.sys.balanced == policy.LeastLoaded?
      modifies Parts()
      ensures Wired() && Current()
      ensures ViewValid(Seen(), fallback) <==> !(raised && LeavesPolicy(v, role, fault))
      ensures raised ==> LeftAfter(v, role, a, limit, fault, Seen())
      ensures !raised ==> Seen() == Attach(v, role, a, model, limit, fault).view && Sys() == Added(v.sys, role, a, model, limit)
    {
      AttachedFacts(v, fallback, role, a, model, limit, fault);
      if raised {
        FailedAddRestores(v, fallback, role, a, model, limit, fault);
        UndoAdd(role, a, model, index, policyAdded);
      } else {
        AddSucceeds(v, fallback, role, a, model, limit, fault);
      }
    }

    function Length(role: Role, model: string): (n: nat)
      reads Parts()
      ensures n == |Instances(Seen(), role, model)|
    {
      if role == Aggregated then if model in aggregatedInstances then |aggregatedInstances[model]| else 0
      else |ListOf(role).items|
    }

    // ---------------------------------------------------------------- draining

    // The lock is taken and the instance is marked.
    method BeginDrain(role: Role, a: Address, now: real) returns (r: Raised)
      requires Valid() && draining.None?
      modifies registry, this`draining
      ensures Valid() && Seen() == old(Seen()).(sys := Sys(), drainModel := Seen().drainModel)
      ensures r == if a !in old(Sys()).records then KeyError
                   else if old(Sys()).records[a].role != role then ValueError else Fine
      ensures var t := DrainBegun(old(Sys()), role, a);
              && Step(TheEnv(), old(Sys()), BeginsDrain(role, a), t)
              && SameButBreakers(t.records, Sys().records) && Sys() == t.(records := Sys().records)
      ensures r.Fine? ==> draining == Some(DrainTask(Drain(role, a), old(Sys()).records[a].model))
    {
      ghost var s := Sys();
      var model;
      r, model := Snapshot(a, now);
      DrainBegunAfterLook(s, Sys().records, role, a);
      if r == Fine {
        r := MarkDraining(role, a, model);
      }
    }

    method Snapshot(a: Address, now: real) returns (r: Raised, model: string)
      requires Valid()
      modifies registry
      ensures Valid() && Seen() == old(Seen()).(sys := Sys())
      ensures r == if a in old(Sys()).records then Fine else KeyError
      ensures SameButBreakers(old(Sys()).records, Sys().records) && Sys() == old(Sys()).(records := Sys().records)
      ensures r.Fine? ==> model == old(Sys()).records[a].model
      ensures !r.Fine? ==> Sys() == old(Sys())
    {
      ghost var v := Seen();
      r, model := ModelOf(a, now);
      BreakersView(v, fallback, v.sys, Sys().records);
    }

    method ModelOf(a: Address, now: real) returns (r: Raised, model: string)
      requires Wired() && Current()
      modifies registry
      ensures Wired() && Current() && Seen() == old(Seen()).(sys := Sys())
      ensures r == if a in old(Sys()).records then Fine else KeyError
      ensures SameButBreakers(old(Sys()).records, Sys().records) && Sys() == old(Sys()).(records := Sys().records)
      ensures r.Fine? ==> model == old(Sys()).records[a].model
      ensures !r.Fine? ==> Sys() == old(Sys())
    {
      r, model := registry.GetInstanceModel(a, now);
    }

    method MarkDraining(role: Role, a: Address, model: string) returns (r: Raised)
      requires Valid() && draining.None? && a in Sys().records && model == Sys().records[a].model
      modifies registry, this`draining
      ensures Valid() && Seen() == old(Seen()).(sys := Sys(), drainModel := Seen().drainModel)
      ensures r == if old(Sys()).records[a].role == role then Fine else ValueError
      ensures Sys() == DrainBegun(old(Sys()), role, a)
      ensures draining == if r.Fine? then Some(DrainTask(Drain(role, a), model)) else None
    {
      ghost var v := Seen();
      r := SetDraining(role, a, model);
      if r == Fine {
        DrainBegunView(v, fallback, role, a);
      }
    }

    method SetDraining(role: Role, a: Address, model: string) returns (r: Raised)
      requires Wired() && Current() && draining.None? && a in Sys().records
      modifies registry, this`draining
      ensures Wired() && Current()
      ensures r == if old(Sys()).records[a].role == role then Fine else ValueError
      ensures Seen() == old(Seen()).(sys := DrainBegun(old(Sys()), role, a), drainModel := if r.Fine? then model else "")
      ensures draining == if r.Fine? then Some(DrainTask(Drain(role, a), model)) else None
    {
      r := BeginDraining(role, a);
      if r == Fine {
        draining := Some(DrainTask(Drain(role, a), model));
      }
    }

    method BeginDraining(role: Role, a: Address) returns (r: Raised)
      requires Wired() && Current() && a in Sys().records
      modifies registry
      ensures Wired() && Current() && Seen() == old(Seen()).(sys := Sys())
      ensures r == if old(Sys()).records[a].role == role then Fine else ValueError
      ensures var rs := old(Sys()).records;
              Sys() == if r.Fine? then old(Sys()).(records := rs[a := rs[a].(status := Draining)]) else old(Sys())
    {
      r := registry.BeginDraining(role, a);
    }

    /** One turn of the drain loop: it waits while requests are active and time is left, gives
        up when time is out, and otherwise removes the instance. */
    method PollDrain(expired: bool) returns (r: DrainResult)
      requires Valid() && draining.Some?
      modifies Parts()
      ensures Valid()
      ensures var d := old(draining).value;
              var active := ActiveOf(old(Sys()), d.drain.address);
              && r == (if active > 0 then if expired then TimedOut else Waiting else RemovedNow)
              && (r.Waiting? ==> Seen() == old(Seen()))
              && (r.TimedOut? ==>
                    Step(TheEnv(), old(Sys()), DrainTimesOut, Sys()) && Seen() == old(Seen()).(sys := Sys(), drainModel := ""))
              && (r.RemovedNow? ==>
                    && Step(TheEnv(), old(Sys()), DrainRemoves, Sys())
                    && Unleased(old(Sys()).leases, d.drain.address)
                    && CanDetach(old(Seen()), d.drain.role, d.drain.address)
                    && Seen() == Detach(old(Seen()), d.drain.role, d.drain.address, d.model).(sys := Sys(), drainModel := ""))
    {
      ghost var v := Seen();
      var task := draining.value;
      if registry.GetActiveRequests(task.drain.address) > 0 {
        if !expired {
          return Waiting;
        }
        Unlock();
        DrainEndedView(v, fallback, "");
        return TimedOut;
      }
      FinishDrain(task);
      return RemovedNow;
    }

    // No request is left: the instance goes, and with it the lock.
    method FinishDrain(task: DrainTask)
      requires Valid() && draining == Some(task)
      requires Sys().records[task.drain.address].active <= 0
      modifies Parts()
      ensures Valid() && draining.None?
      ensures var role, a := task.drain.role, task.drain.address;
              && CanRemove(old(Sys()), role, a) && Sys() == Removed(old(Sys()), role, a)
              && CanDetach(old(Seen()), role, a)
              && Seen() == Detach(old(Seen()), role, a, task.model).(sys := Sys(), drainModel := "")
              && Unleased(old(Sys()).leases, a)
    {
      var role, a := task.drain.role, task.drain.address;
      ghost var v := Seen();
      DetachKeeps(v, fallback);
      DetachInstance(role, a, task.model);
      Unlock();
    }

    // The mutation lock is given up.
    method Unlock()
      requires Wired() && Current()
      modifies this`draining
      ensures Wired() && Current() && draining.None?
      ensures Seen() == old(Seen()).(sys := old(Sys()).(lock := None), drainModel := "")
    {
      draining := None;
    }

    method DetachInstance(role: Role, a: Address, model: string)
      requires Wired() && Current() && CanDetach(Seen(), role, a) && (!role.Aggregated? ==> Distinct(ListOf(role).items))
      requires !role.Aggregated? ==> EvenPool(role)
      modifies Parts()
      ensures Wired() && Current() && Seen() == Detach(old(Seen()), role, a, model)
    {
      Delist(role, a, model);
      Forget(role, a);
    }

    // Policy and list; the list no longer holds the address.
    method Delist(role: Role, a: Address, model: string)
      requires Wired() && Current() && CanDetach(Seen(), role, a) && (!role.Aggregated? ==> Distinct(ListOf(role).items))
      requires !role.Aggregated? ==> EvenPool(role)
      modifies Parts()
      ensures Wired() && Current() && a in Sys().records
      ensures !role.Aggregated? ==> a !in ListOf(role).items
      ensures var index := if role.Aggregated? then 0 else IndexOf(RosterOf(old(Sys()), role).addresses, a);
              Seen() == ListRemove(PolicyRemove(old(Seen()), role, a, index), role, a, model)
    {
      LeavePolicy(role, a);
      if role != Aggregated {
        WithoutFacts(ListOf(role).items, a);
      }
      DropInstance(role, a, model);
    }

    // The policy lets go of a prefill or decode instance.
    method LeavePolicy(role: Role, a: Address)
      requires Wired() && Current() && CanDetach(Seen(), role, a) && (!role.Aggregated? ==> EvenPool(role))
      modifies PolicyParts()
      ensures Wired() && Current()
      ensures var index := if role.Aggregated? then 0 else IndexOf(RosterOf(old(Sys()), role).addresses, a);
              Seen() == PolicyRemove(old(Seen()), role, a, index)
    {
      if role != Aggregated {
        var index := IndexOf(ListOf(role).items, a);
        RemoveInstanceFromPolicy(role, a, index);
      }
    }

    // Health monitor, discovery and registry.
    method Forget(role: Role, a: Address)
      requires Wired() && Current() && a in Sys().records && (!role.Aggregated? ==> a !in ListOf(role).items)
      modifies Parts()
      ensures Wired() && Current()
      ensures Seen() == Membership.Unregister(DiscoveryRemove(MonitorRemove(old(Seen()), a), role, a), a)
    {
      Unprobe(role, a);
      Unregister(a);
    }

    method Unprobe(role: Role, a: Address)
      requires Wired() && Current() && (!role.Aggregated? ==> a !in ListOf(role).items)
      modifies if healthMonitor == null then {} else {healthMonitor}, if discovery == null then {} else {discovery, discovery.ListOf(role)}
      ensures Wired() && Current() && registry.instances == old(registry.instances)
      ensures Seen() == DiscoveryRemove(MonitorRemove(old(Seen()), a), role, a)
    {
      RemoveFromMonitor(a);
      RemoveFromDiscovery(role, a);
    }

    // ---------------------------------------------------------------- aggregated instances

    /** Schedules a request on an aggregated instance.  `s` is the state once the breakers have
        been looked at, `available` who is available in it, as they were registered. */
    method ScheduleAggregated(model: string, strategy: Strategy, length: nat, now: real)
      returns (r: Option<Address>, ghost s: System, ghost available: seq<Address>)
      requires Valid()
      requires strategy.Routed? ==> strategy.router.Valid()
      modifies registry, this`leases, this`aggregatedTurns
      ensures Valid() && Seen() == old(Seen()).(sys := Sys()) && registry.order == old(registry.order)
      ensures s == LookedIn(old(Sys()), Aggregated, model, now)
      ensures available == InOrder(registry.order, AvailableSet(s.records, registry.cbEnabled, Aggregated, model))
      ensures if KnownAggregated(old(registry.instances), old(aggregatedInstances), model) then
                PickedAndCounted(s, Sys(), strategy, old(EntriesOf(strategy)), available, model, length, r, old(aggregatedTurns), aggregatedTurns)
              else
                r.None? && Sys() == old(Sys()) && aggregatedTurns == old(aggregatedTurns)
      ensures r.Some? ==> MayServe(s.records, registry.cbEnabled, Aggregated, model, r.value)
    {
      s := LookedIn(Sys(), Aggregated, model, now);
      available := InOrder(registry.order, AvailableSet(s.records, registry.cbEnabled, Aggregated, model));
      var known := IsAggregatedModel(model);
      if !known {
        return None, s, available;
      }
      r := ScheduleKnown(model, strategy, length, now, s, available);
      if r.Some? {
        ListedMayServe(registry.order, s.records, registry.cbEnabled, Aggregated, model, r.value);
      }
    }

    method ScheduleKnown(
      model: string, strategy: Strategy, length: nat, now: real, ghost s: System, ghost available: seq<Address>)
      returns (r: Option<Address>)
      requires Valid()
      requires strategy.Routed? ==> strategy.router.Valid()
      requires s == LookedIn(Sys(), Aggregated, model, now)
      requires available == InOrder(registry.order, AvailableSet(s.records, registry.cbEnabled, Aggregated, model))
      modifies registry, this`leases, this`aggregatedTurns
      ensures Valid() && Seen() == old(Seen()).(sys := Sys()) && registry.order == old(registry.order)
      ensures PickedAndCounted(s, Sys(), strategy, old(EntriesOf(strategy)), available, model, length, r, old(aggregatedTurns), aggregatedTurns)
    {
      ghost var v, turns, entries := Seen(), aggregatedTurns, EntriesOf(strategy);
      r := PickAndCount(model, strategy, length, now, s, available, entries);
      CountedStillValid(v, s, strategy, entries, available, model, length, now, r, turns);
    }

    method PickAndCount(
      model: string, strategy: Strategy, length: nat, now: real, ghost s: System, ghost available: seq<Address>, ghost entries: seq<HashRing.Entry>)
      returns (r: Option<Address>)
      requires Wired() && Current()
      requires strategy.Routed? ==> strategy.router.Valid()
      requires s == LookedIn(Sys(), Aggregated, model, now) && entries == EntriesOf(strategy)
      requires available == InOrder(registry.order, AvailableSet(s.records, registry.cbEnabled, Aggregated, model))
      modifies registry, this`leases, this`aggregatedTurns
      ensures Wired() && Current() && Seen() == old(Seen()).(sys := Sys()) && registry.order == old(registry.order)
      ensures PickedAndCounted(s, Sys(), strategy, entries, available, model, length, r, old(aggregatedTurns), aggregatedTurns)
    {
      LookingKeepsAvailability(
        registry.instances, registry.config, registry.cbEnabled, Aggregated, model, now, registry.instances.Keys);
      InOrderFacts(registry.order, AvailableSet(registry.instances, registry.cbEnabled, Aggregated, model));
      var eligible := AvailableInOrder(Aggregated, model, now);
      r := ScheduleAmong(model, strategy, eligible, length, entries);
    }

    // Counting an aggregated instance's request keeps every record in step.
    lemma CountedStillValid(
      v: View, s: System, strategy: Strategy, entries: seq<HashRing.Entry>, available: seq<Address>, model: string, length: nat, now: real,
      r: Option<Address>, turns: map<string, nat>)
      requires Wired() && Current() && ViewValid(v, fallback) && Seen() == v.(sys := Sys())
      requires s == LookedIn(v.sys, Aggregated, model, now)
      requires available == InOrder(registry.order, AvailableSet(s.records, registry.cbEnabled, Aggregated, model))
      requires PickedAndCounted(s, Sys(), strategy, entries, available, model, length, r, turns, aggregatedTurns)
      ensures Valid()
    {
      LookedView(v, fallback, registry.config, registry.cbEnabled, Aggregated, model, now);
      if r.Some? {
        CountedIsScheduled(TheEnv(), s, Sys(), strategy, entries, registry.order, model, length, length, r, turns, aggregatedTurns);
        ScheduledView(v, fallback, s, Aggregated, model, length, r.value);
      }
    }

    // One of the available instances, counted.
    method ScheduleAmong(
      model: string, strategy: Strategy, available: seq<Address>, length: nat, ghost entries: seq<HashRing.Entry>)
      returns (r: Option<Address>)
      requires Wired() && Current() && forall a :: a in available ==> a in registry.instances
      requires (strategy.Routed? ==> strategy.router.Valid()) && entries == EntriesOf(strategy)
      modifies registry, this`leases, this`aggregatedTurns
      ensures Wired() && Current() && Seen() == old(Seen()).(sys := Sys()) && registry.order == old(registry.order)
      ensures PickedAndCounted(old(Sys()), Sys(), strategy, entries, available, model, length, r, old(aggregatedTurns), aggregatedTurns)
    {
      if available == [] {
        return None;
      }
      r := PickAggregated(model, strategy, available, entries);
      if r.Some? {
        Count(Lease(Aggregated, r.value, length, false, false), r.value);
      }
    }

    ghost function EntriesOf(strategy: Strategy): seq<HashRing.Entry>
      requires strategy.Routed? ==> strategy.router.Valid()
      reads if strategy.Routed? then {strategy.router.Object()} else {}
    {
      if strategy.Routed? then strategy.router.Entries() else []
    }

    method PickAggregated(model: string, strategy: Strategy, available: seq<Address>, ghost entries: seq<HashRing.Entry>)
      returns (r: Option<Address>)
      requires available != [] && Wired() && Current() && (strategy.Routed? ==> strategy.router.Valid()) && entries == EntriesOf(strategy)
      modifies this`aggregatedTurns
      ensures Wired() && Current() && Seen() == old(Seen())
      ensures r.Some? ==> r.value in available
      ensures PickedBy(strategy, entries, registry.instances, available, TurnOf(old(aggregatedTurns), model), r)
      ensures aggregatedTurns == NextTurns(old(aggregatedTurns), strategy, model, |available|)
    {
      match strategy
      case LeastActive =>
        var a := LeastActiveOf(available);
        return Some(a);
      case InTurn =>
        var a := NextInTurn(model, available);
        return Some(a);
      case Routed(router, key) =>
        r := router.SelectFrom(registry, (set a | a in available), key);
    }

    method NextInTurn(model: string, available: seq<Address>) returns (a: Address)
      requires available != [] && Wired() && Current()
      modifies this`aggregatedTurns
      ensures Wired() && Current() && Seen() == old(Seen())
      ensures a == available[TurnOf(old(aggregatedTurns), model) % |available|]
      ensures aggregatedTurns == NextTurns(old(aggregatedTurns), InTurn, model, |available|)
    {
      var idx := TurnOf(aggregatedTurns, model) % |available|;
      aggregatedTurns := aggregatedTurns[model := idx + 1];
      return available[idx];
    }

    // The first of the instances with the least active requests.
    method LeastActiveOf(available: seq<Address>) returns (best: Address)
      requires available != []
      ensures best in available && LeastActiveIn(registry.instances, available, best)
      ensures forall a :: a in available ==> registry.GetActiveRequests(best) <= registry.GetActiveRequests(a)
    {
      best := available[0];
      ghost var at := 0;
      for k := 1 to |available|
        invariant 0 <= at < k && available[at] == best
        invariant forall j :: 0 <= j < k ==> registry.GetActiveRequests(best) <= registry.GetActiveRequests(available[j])
        invariant forall j :: 0 <= j < at ==> registry.GetActiveRequests(best) < registry.GetActiveRequests(available[j])
      {
        if registry.GetActiveRequests(available[k]) < registry.GetActiveRequests(best) {
          best := available[k];
          at := k;
        }
      }
      assert LeastAt(registry.instances, available, at);
    }

    predicate IsAggregatedModel(model: string): (known: bool)
      reads this, registry
      ensures known <==> KnownAggregated(registry.instances, aggregatedInstances, model)
      ensures known <==>
              || (model in aggregatedInstances && aggregatedInstances[model] != [])
              || exists a :: a in registry.instances && registry.instances[a].role == Aggregated && registry.instances[a].model == model
    {
      var listed := model in aggregatedInstances && aggregatedInstances[model] != [];
      var discovered := set a | a in registry.instances && registry.instances[a].role == Aggregated && registry.instances[a].model == model;
      DiscoveredSome(registry.instances, model);
      listed || discovered != {}
    }

    method CompleteAggregated(instance: Address, ghost k: nat) returns (r: Raised)
      requires Valid() && k < |leases| && IsLease(leases, k, Aggregated, instance, leases[k].length)
      modifies registry, this`leases
      ensures r.Fine? && Valid() && Seen() == old(Seen()).(sys := Sys())
      ensures CanRelease(old(Sys()), k) && Sys() == Released(old(Sys()), fallback, k)
      ensures Step(TheEnv(), old(Sys()), Releases(k), Sys())
    {
      ghost var v := Seen();
      ReleaseIsSafe(v.sys, fallback, k);
      StepKeeps(TheEnv(), v.sys, Releases(k), Released(v.sys, fallback, k));
      RestFollowsListing(v, fallback, Released(v.sys, fallback, k));
      r := Uncount(instance, k);
    }

    /** The completion recorded once more, as by a reply that turns out not to be renderable.
        The records stay in step exactly if no request is active on the instance. */
    method RepeatCompletion(instance: Address, ghost k: nat) returns (r: Raised)
      requires Valid() && k < |leases| && leases[k].address == instance && leases[k].role.Aggregated? && leases[k].released
      modifies registry
      ensures Wired() && Current() && Seen() == old(Seen()).(sys := Sys())
      ensures r == if instance in old(Sys()).records then Fine else KeyError
      ensures Sys() == Again(old(Sys()), k)
      ensures Valid() <==> instance !in old(Sys()).records || old(Sys()).records[instance].active == 0
    {
      ghost var v := Seen();
      AgainView(v, fallback, k);
      r := LowerCount(instance);
    }

    method LowerCount(a: Address) returns (r: Raised)
      requires Wired() && Current()
      modifies registry
      ensures Wired() && Current() && Seen() == old(Seen()).(sys := Sys())
      ensures r == if a in old(Sys()).records then Fine else KeyError
      ensures Sys() == if r.Fine? then old(Sys()).(records := Decremented(old(Sys()).records, a)) else old(Sys())
    {
      r := registry.DecrementActiveRequests(a);
    }

    ghost function LookedIn(s: System, role: Role, model: string, now: real): System {
      s.(records := Looked(s.records, registry.config, registry.cbEnabled, role, model, now, s.records.Keys))
    }
  }
}
