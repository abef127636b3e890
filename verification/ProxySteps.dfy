/** What the proxy's methods amount to, on values: steps of the protocol that keep every record
    in step. */
module ProxySteps {
  import opened Common
  import opened Registry
  import opened LoadBalancer
  import opened Leases
  import opened Protocol
  import opened ProtocolInvariant
  import opened ProtocolRuns
  import opened Membership
  import opened Routing
  import opened RoundRobin
  import CircuitBreakers
  import HashRing

  // How an aggregated instance is picked; `router` is the policy cached for the model.
  datatype Strategy = LeastActive | InTurn | Routed(router: Router, key: int)

  // Registry, lists, arrays, workers, monitor and discovery as they are first put together.
  ghost predicate Starts(v: View) {
    && Listed(v.sys) && v.sys.leases == [] && v.sys.lock.None?
    && (forall a :: a in v.sys.records ==> v.sys.records[a].active == 0)
    && (v.sys.balanced ==> Fresh(v.sys.prefill) && Fresh(v.sys.decode))
    && AggregatedOk(v.sys.records, v.aggregated) && NodesOk(v.sys.records, v.nodes)
    && ReadyOk(v.sys.records, v.ready) && WorkforceOk(v.sys.records, v.sys.balanced, v.workforce)
  }

  /** Where every part describes the registered instances, and nothing has been counted yet,
      the records are in step. */
  lemma StartIsValid(v: View, fallback: set<string>)
    requires Starts(v)
    ensures ViewValid(v, fallback)
  {
    StartSatisfiesInv(v.sys, fallback);
  }

  // What a failed addition leaves of `v`: `v` itself, unless the policy keeps the instance.
  ghost predicate LeftAfter(v: View, role: Role, a: Address, limit: int, fault: Fault, w: View) {
    && w == LeftOver(v, role, a, limit, fault)
    && (w == v <==> !LeavesPolicy(v, role, fault))
  }

  // The round-robin pick, and the cycler's next position.
  function TakeTurn(items: seq<Address>, position: nat, available: set<Address>): (Option<Address>, nat) {
    var (o, next) := Call(items, position, available);
    (if o.Picked? then Some(o.address) else None, next)
  }

  // Looking at the breakers changes nothing the protocol depends on.
  lemma LookingIsHarmless(
    s: System, fallback: set<string>, c: CircuitBreakers.Config, cbEnabled: bool, role: Role, model: string, now: real)
    requires Inv(s, fallback) && !role.Aggregated?
    ensures var rs := Looked(s.records, c, cbEnabled, role, model, now, s.records.Keys);
            && SameButBreakers(s.records, rs)
            && AvailableSet(rs, cbEnabled, role, model) == AvailableSet(s.records, cbEnabled, role, model)
    ensures forall a :: a in AvailableSet(s.records, cbEnabled, role, model) ==> a in s.records && a in RosterOf(s, role).addresses
    ensures Distinct(RosterOf(s, role).addresses)
    ensures Aligned(s)
  {
    LookingKeepsAvailability(s.records, c, cbEnabled, role, model, now, s.records.Keys);
    assert forall a :: a in AvailableSet(s.records, cbEnabled, role, model) ==> InRole(s.records, role, a);
  }

  lemma LookedView(v: View, fallback: set<string>, c: CircuitBreakers.Config, cbEnabled: bool, role: Role, model: string, now: real)
    requires ViewValid(v, fallback)
    ensures ViewValid(v.(sys := v.sys.(records := Looked(v.sys.records, c, cbEnabled, role, model, now, v.sys.records.Keys))), fallback)
  {
    LookingKeepsAvailability(v.sys.records, c, cbEnabled, role, model, now, v.sys.records.Keys);
    BreakersView(v, fallback, v.sys, Looked(v.sys.records, c, cbEnabled, role, model, now, v.sys.records.Keys));
  }

  /** Scheduling is two steps of the protocol, the breakers looked at and the instance
      counted, and every record stays in step, provided a request for a prefill or decode
      instance names its model as far as the fallback models are concerned. */
  lemma SchedulingSteps(
    env: Env, v: View, s: System, role: Role, model: string, requestLen: nat, maxTokens: nat, now: real, a: Address)
    requires ViewValid(v, env.fallback)
    requires s == v.sys.(records := Looked(v.sys.records, env.breakers, env.cbEnabled, role, model, now, v.sys.records.Keys))
    requires MayPick(env, s, role, model, requestLen + maxTokens, a) && a in s.records
    requires role.Aggregated? || (model in env.fallback <==> s.records[a].model in env.fallback)
    ensures Step(env, v.sys, Looks(role, model, now), s)
    ensures Aligned(s)
    ensures var t := Scheduled(s, role, a, requestLen, Tracks(s, env.fallback, role, model));
            Step(env, s, Schedules(role, model, requestLen, maxTokens, a), t) && ViewValid(v.(sys := t), env.fallback)
  {
    OnlyBreakersChange(env, v.sys.records, Looks(role, model, now));
    BreakersKeep(v.sys, env.fallback, s.records);
    ScheduledView(v, env.fallback, s, role, model, requestLen, a);
  }

  // Scheduling only counts.
  lemma ScheduledListing(s: System, role: Role, a: Address, length: int, tracked: bool)
    requires a in s.records
    requires tracked ==> s.balanced && !role.Aggregated? && a in RosterOf(s, role).addresses
    requires Aligned(s)
    ensures var t := Scheduled(s, role, a, length, tracked);
            SameListing(s.records, t.records) && t.balanced == s.balanced && t.lock == s.lock
  {
  }

  lemma ScheduledView(v: View, fallback: set<string>, s: System, role: Role, model: string, requestLen: nat, a: Address)
    requires ViewValid(v, fallback) && Inv(s, fallback) && SameListing(v.sys.records, s.records)
    requires s.balanced == v.sys.balanced && s.lock == v.sys.lock
    requires InRole(s.records, role, a) && (role.Aggregated? || (model in fallback <==> s.records[a].model in fallback))
    ensures Aligned(s)
    ensures ViewValid(v.(sys := Scheduled(s, role, a, requestLen, Tracks(s, fallback, role, model))), fallback)
  {
    ScheduledKeeps(s, fallback, role, model, a, requestLen);
    var t := Scheduled(s, role, a, requestLen, Tracks(s, fallback, role, model));
    ScheduledListing(s, role, a, requestLen, Tracks(s, fallback, role, model));
    RestFollowsListing(v, fallback, t);
  }

  predicate IsLease(ls: seq<Lease>, k: nat, role: Role, a: Address, length: int) {
    k < |ls| && !ls[k].released && ls[k].role == role && ls[k].address == a && ls[k].length == length
  }

  function CompletedAt(r: Roster, a: Address, length: int): Roster
    requires a in r.addresses && Sized(r.pool, |r.addresses|)
  {
    r.(pool := LoadBalancer.Complete(r.pool, IndexOf(r.addresses, a), length))
  }

  predicate CanReleaseThese(s: System, prefill: bool, decode: bool, p: nat, d: nat) {
    && (prefill ==> CanRelease(s, p) && s.leases[p].role.Prefill?)
    && (decode ==> CanRelease(s, d) && s.leases[d].role.Decode?)
    && (prefill && decode ==> p != d)
  }

  function ReleasedThese(s: System, fallback: set<string>, prefill: bool, decode: bool, p: nat, d: nat): System
    requires CanReleaseThese(s, prefill, decode, p, d)
  {
    if prefill && decode then ReleasedBoth(s, fallback, p, d)
    else if prefill then Released(s, fallback, p)
    else if decode then Released(s, fallback, d)
    else s
  }

  predicate Unreported(s: System, fallback: set<string>, prefill: Option<Address>, decode: Option<Address>)
    requires (prefill.Some? ==> prefill.value in s.records) && (decode.Some? ==> decode.value in s.records)
  {
    && (prefill.Some? || decode.Some?)
    && (prefill.Some? ==> s.records[prefill.value].model in fallback)
    && (decode.Some? ==> s.records[decode.value].model in fallback)
  }

  // The counts and leases of a completion.
  function UncountedThese(s: System, prefill: bool, decode: bool, p: nat, d: nat): System
    requires CanReleaseThese(s, prefill, decode, p, d)
  {
    var t := if prefill then s.(records := Decremented(s.records, s.leases[p].address), leases := MarkReleased(s.leases, p)) else s;
    if decode then t.(records := Decremented(t.records, s.leases[d].address), leases := MarkReleased(t.leases, d)) else t
  }

  // The policy is told of all the instances released, or of none.
  lemma ReleasedInParts(s: System, fallback: set<string>, prefill: bool, decode: bool, p: nat, d: nat)
    requires CanReleaseThese(s, prefill, decode, p, d)
    ensures var u := UncountedThese(s, prefill, decode, p, d);
            var a := if prefill then Some(s.leases[p].address) else None;
            var b := if decode then Some(s.leases[d].address) else None;
            ReleasedThese(s, fallback, prefill, decode, p, d) ==
            if !s.balanced || Unreported(s, fallback, a, b) then u
            else u.(prefill := if prefill then CompletedAt(s.prefill, s.leases[p].address, s.leases[p].length) else s.prefill,
                    decode := if decode then CompletedAt(s.decode, s.leases[d].address, s.leases[d].length) else s.decode)
  {
  }

  lemma ReleasesAreSafe(s: System, fallback: set<string>, prefill: bool, decode: bool, p: nat, d: nat)
    requires Inv(s, fallback)
    requires prefill ==> p < |s.leases| && !s.leases[p].released && s.leases[p].role.Prefill?
    requires decode ==> d < |s.leases| && !s.leases[d].released && s.leases[d].role.Decode?
    ensures CanReleaseThese(s, prefill, decode, p, d)
    ensures prefill && decode ==> s.leases[p].address != s.leases[d].address
    ensures Aligned(s)
  {
    if prefill {
      ReleaseIsSafe(s, fallback, p);
    }
    if decode {
      ReleaseIsSafe(s, fallback, d);
    }
  }

  // The instances a call names.
  function NamesOf(prefill: Option<Address>, decode: Option<Address>): set<Address> {
    (if prefill.Some? then {prefill.value} else {}) + (if decode.Some? then {decode.value} else {})
  }

  // One success after the other.
  lemma CreditedOneByOne(
    rs: Records, c: CircuitBreakers.Config, prefill: Option<Address>, decode: Option<Address>, now: real)
    requires prefill.Some? && decode.Some? ==> prefill != decode
    requires (prefill.Some? ==> prefill.value in rs) && (decode.Some? ==> decode.value in rs)
    ensures var rs1 := if prefill.Some? then CreditedOne(rs, c, prefill.value, now) else rs;
            (if decode.Some? then CreditedOne(rs1, c, decode.value, now) else rs1) == Credited(rs, c, NamesOf(prefill, decode), now)
  {
  }

  function CreditedOne(rs: Records, c: CircuitBreakers.Config, a: Address, now: real): Records
    requires a in rs
  {
    rs[a := rs[a].(breaker := CircuitBreakers.Succeed(c, rs[a].breaker, now))]
  }

  // Releases leave the registered addresses what they are.
  lemma ReleasedNames(s: System, fallback: set<string>, prefill: bool, decode: bool, p: nat, d: nat)
    requires CanReleaseThese(s, prefill, decode, p, d)
    ensures ReleasedThese(s, fallback, prefill, decode, p, d).records.Keys == s.records.Keys
  {
  }

  // After a failure recorded for the instance, if one is named.
  function AfterFailure(env: Env, s: System, o: Option<Address>, now: real, seen: real): System {
    if o.Some? then s.(records := BreakersAfter(env, s.records, RecordsFailure(o.value, now, seen))) else s
  }

  lemma BreakersView(v: View, fallback: set<string>, t: System, rs: Records)
    requires ViewValid(v.(sys := t), fallback) && SameButBreakers(t.records, rs)
    ensures ViewValid(v.(sys := t.(records := rs)), fallback)
  {
    BreakersKeep(t, fallback, rs);
    RestFollowsListing(v.(sys := t), fallback, t.(records := rs));
  }

  function Completion(prefill: bool, decode: bool, p: nat, d: nat): Event
    requires prefill || decode
  {
    if prefill && decode then ReleasesBoth(p, d) else if prefill then Releases(p) else Releases(d)
  }

  /** Releasing what a reservation still holds is one step of the protocol. */
  lemma CompletionSteps(env: Env, v: View, prefill: bool, decode: bool, p: nat, d: nat)
    requires ViewValid(v, env.fallback) && CanReleaseThese(v.sys, prefill, decode, p, d)
    requires prefill ==> !v.sys.leases[p].released
    requires decode ==> !v.sys.leases[d].released
    requires prefill && decode ==> v.sys.leases[p].tracked == v.sys.leases[d].tracked
    ensures var t := ReleasedThese(v.sys, env.fallback, prefill, decode, p, d);
            && (prefill || decode ==> Step(env, v.sys, Completion(prefill, decode, p, d), t))
            && SameListing(v.sys.records, t.records)
            && ViewValid(v.(sys := t), env.fallback)
  {
    var t := ReleasedThese(v.sys, env.fallback, prefill, decode, p, d);
    if prefill || decode {
      StepKeeps(env, v.sys, Completion(prefill, decode, p, d), t);
      ReleasesOnlyCount(env, v.sys, Completion(prefill, decode, p, d), t);
    }
    RestFollowsListing(v, env.fallback, t);
  }

  lemma HealthView(env: Env, v: View, a: Address, healthy: bool, t: System)
    requires ViewValid(v, env.fallback) && Effect(env, v.sys, HealthResult(a, healthy), t)
    ensures ViewValid(v.(sys := t), env.fallback)
  {
    StepKeeps(env, v.sys, HealthResult(a, healthy), t);
    RestFollowsListing(v, env.fallback, t);
  }

  lemma AgainView(v: View, fallback: set<string>, k: nat)
    requires ViewValid(v, fallback) && k < |v.sys.leases|
    ensures var a := v.sys.leases[k].address;
            ViewValid(v.(sys := Again(v.sys, k)), fallback) <==> a !in v.sys.records || v.sys.records[a].active == 0
  {
    if v.sys.leases[k].address in v.sys.records {
      RepeatedRelease(v.sys, fallback, k);
      if Inv(Again(v.sys, k), fallback) {
        RestFollowsListing(v, fallback, Again(v.sys, k));
      }
    }
  }

  // Only the aggregated lists are kept by model.
  lemma ModelView(v: View, fallback: set<string>, a: Address, model: string)
    requires ViewValid(v, fallback) && a in v.sys.records
    ensures !v.sys.records[a].role.Aggregated?
            && (v.sys.records[a].active == 0 || (model in fallback <==> v.sys.records[a].model in fallback)) ==>
              ViewValid(v.(sys := v.sys.(records := v.sys.records[a := v.sys.records[a].(model := model)])), fallback)
  {
    var r := v.sys.records[a].(model := model);
    if !r.role.Aggregated? && (r.active == 0 || (model in fallback <==> v.sys.records[a].model in fallback)) {
      RecordChangeKeeps(v.sys, fallback, a, r);
      assert forall role, b :: InRole(v.sys.records[a := r], role, b) <==> InRole(v.sys.records, role, b);
    }
  }

  // Looking at breakers first makes no difference to a drain's beginning.
  lemma DrainBegunAfterLook(s: System, rs: Records, role: Role, a: Address)
    requires SameButBreakers(s.records, rs)
    ensures var t, u := DrainBegun(s, role, a), DrainBegun(s.(records := rs), role, a);
            SameButBreakers(t.records, u.records) && u == t.(records := u.records)
  {
  }

  // The model has an aggregated instance, configured or discovered.
  ghost predicate KnownAggregated(rs: Records, lists: map<string, seq<Address>>, model: string) {
    || (model in lists && lists[model] != [])
    || exists a :: InRole(rs, Aggregated, a) && rs[a].model == model
  }

  lemma DiscoveredSome(rs: Records, model: string)
    ensures (set a | a in rs && rs[a].role == Aggregated && rs[a].model == model) != {} <==>
            exists a :: InRole(rs, Aggregated, a) && rs[a].model == model
  {
    var discovered := set a | a in rs && rs[a].role == Aggregated && rs[a].model == model;
    if a :| InRole(rs, Aggregated, a) && rs[a].model == model {
      assert a in discovered;
    }
    if a :| a in discovered {
      assert InRole(rs, Aggregated, a);
    }
  }

  function TurnOf(turns: map<string, nat>, model: string): nat {
    if model in turns then turns[model] else 0
  }

  function NextTurns(turns: map<string, nat>, strategy: Strategy, model: string, size: nat): map<string, nat>
    requires size > 0
  {
    if strategy.InTurn? then turns[model := TurnOf(turns, model) % size + 1] else turns
  }

  // Position `i` is the first of least active requests.
  ghost predicate LeastAt(rs: Records, available: seq<Address>, i: nat) {
    && i < |available|
    && (forall j :: 0 <= j < |available| ==> ActiveIn(rs, available[i]) <= ActiveIn(rs, available[j]))
    && (forall j :: 0 <= j < i ==> ActiveIn(rs, available[i]) < ActiveIn(rs, available[j]))
  }

  ghost predicate LeastActiveIn(rs: Records, available: seq<Address>, a: Address) {
    exists i: nat :: LeastAt(rs, available, i) && available[i] == a
  }

  // `entries` are those of the router's ring.
  ghost predicate PickedBy(
    strategy: Strategy, entries: seq<HashRing.Entry>, rs: Records, available: seq<Address>, turn: nat, r: Option<Address>)
  {
    match strategy
    case LeastActive => r.Some? && LeastActiveIn(rs, available, r.value)
    case InTurn => available != [] && r == Some(available[turn % |available|])
    case Routed(router, key) => router.Picks(entries, rs, (set a | a in available), key, r)
  }

  // Nothing, without an available instance; otherwise the strategy's pick gets one more
  // untracked lease.
  ghost predicate PickedAndCounted(
    s: System, t: System, strategy: Strategy, entries: seq<HashRing.Entry>, available: seq<Address>, model: string, length: int,
    r: Option<Address>, turns: map<string, nat>, turns': map<string, nat>)
  {
    if available == [] then r.None? && t == s && turns' == turns
    else
      && PickedBy(strategy, entries, s.records, available, TurnOf(turns, model), r)
      && turns' == NextTurns(turns, strategy, model, |available|)
      && (r.None? ==> t == s)
      && (r.Some? ==>
            && r.value in available && r.value in s.records
            && t == s.(records := Incremented(s.records, r.value),
                       leases := s.leases + [Lease(Aggregated, r.value, length, false, false)]))
  }

  // That is the protocol's step.
  lemma CountedIsScheduled(
    env: Env, s: System, t: System, strategy: Strategy, entries: seq<HashRing.Entry>, order: seq<Address>, model: string,
    length: int, need: int, r: Option<Address>, turns: map<string, nat>, turns': map<string, nat>)
    requires Distinct(order) && Aligned(s)
    requires PickedAndCounted(s, t, strategy, entries, InOrder(order, AvailableSet(s.records, env.cbEnabled, Aggregated, model)), model, length, r, turns, turns')
    requires r.Some?
    ensures MayPick(env, s, Aggregated, model, need, r.value) && t == Scheduled(s, Aggregated, r.value, length, false)
  {
    InOrderFacts(order, AvailableSet(s.records, env.cbEnabled, Aggregated, model));
  }

  // One pick for a model, with the turn counters before and after it.
  datatype Pick = Pick(
    before: System, after: System, entries: seq<HashRing.Entry>, length: int, r: Option<Address>,
    turns: map<string, nat>, turnsAfter: map<string, nat>)

  // Pick `k` is in turn among the available; since the pick before, nobody moved the counter.
  ghost predicate InTurnAt(ps: seq<Pick>, available: seq<Address>, model: string, k: nat)
    requires k < |ps|
  {
    var p := ps[k];
    && PickedAndCounted(p.before, p.after, InTurn, p.entries, available, model, p.length, p.r, p.turns, p.turnsAfter)
    && (k > 0 ==> TurnOf(p.turns, model) == TurnOf(ps[k - 1].turnsAfter, model))
  }

  // Consecutive picks for the model while the available instances stay the same.
  ghost predicate PicksInTurn(ps: seq<Pick>, available: seq<Address>, model: string) {
    forall k :: 0 <= k < |ps| ==> InTurnAt(ps, available, model, k)
  }

  lemma {:induction false} PickAt(ps: seq<Pick>, available: seq<Address>, model: string, k: nat)
    requires PicksInTurn(ps, available, model) && available != [] && k < |ps|
    ensures var turn := TurnOf(ps[0].turns, model);
            && TurnOf(ps[k].turns, model) % |available| == (turn + k) % |available|
            && ps[k].r == Some(At(available, turn + k))
  {
    assert InTurnAt(ps, available, model, k);
    if k > 0 {
      PickAt(ps, available, model, k - 1);
      assert InTurnAt(ps, available, model, k - 1);
      NextTurn(TurnOf(ps[k - 1].turns, model), TurnOf(ps[0].turns, model) + k - 1, |available|);
    }
  }

  // The answers go round the available instances.
  ghost predicate GoesRound(ps: seq<Pick>, available: seq<Address>, turn: nat)
    requires available != []
  {
    forall k :: 0 <= k < |ps| ==> ps[k].r == Some(At(available, turn + k))
  }

  lemma PicksGoRound(ps: seq<Pick>, available: seq<Address>, model: string)
    requires PicksInTurn(ps, available, model) && available != [] && ps != []
    ensures GoesRound(ps, available, TurnOf(ps[0].turns, model))
  {
    forall k | 0 <= k < |ps| ensures ps[k].r == Some(At(available, TurnOf(ps[0].turns, model) + k)) {
      PickAt(ps, available, model, k);
    }
  }

  lemma EachTaken(ps: seq<Pick>, available: seq<Address>, turn: nat, i: nat, a: Address)
    requires available != [] && GoesRound(ps, available, turn) && i + |available| <= |ps| && a in available
    ensures exists k :: i <= k < i + |available| && ps[k].r == Some(a)
  {
    var q := EveryItemShown(available, turn + i, a);
    assert ps[q - turn].r == Some(a);
  }

  lemma NoneTwice(ps: seq<Pick>, available: seq<Address>, turn: nat, j: nat, k: nat)
    requires available != [] && GoesRound(ps, available, turn) && Distinct(available)
    requires j < k < j + |available| && k < |ps|
    ensures ps[j].r != ps[k].r
  {
    ItemsDiffer(available, turn + j, turn + k);
  }

  /** While the available instances stay the same, as many consecutive picks as there are take
      each of them, and none twice; they go round in order from the turn they find. */
  lemma TurnsAreFair(ps: seq<Pick>, available: seq<Address>, model: string, i: nat)
    requires PicksInTurn(ps, available, model) && available != [] && i + |available| <= |ps|
    ensures GoesRound(ps, available, TurnOf(ps[0].turns, model))
    ensures forall a :: a in available ==> exists k :: i <= k < i + |available| && ps[k].r == Some(a)
    ensures Distinct(available) ==> forall j, k :: i <= j < k < i + |available| ==> ps[j].r != ps[k].r
  {
    var turn := TurnOf(ps[0].turns, model);
    PicksGoRound(ps, available, model);
    forall a | a in available ensures exists k :: i <= k < i + |available| && ps[k].r == Some(a) {
      EachTaken(ps, available, turn, i, a);
    }
    if Distinct(available) {
      forall j, k | i <= j < k < i + |available| ensures ps[j].r != ps[k].r {
        NoneTwice(ps, available, turn, j, k);
      }
    }
  }

  lemma NextTurn(t: nat, u: nat, size: nat)
    requires size > 0 && t % size == u % size
    ensures (t % size + 1) % size == (u + 1) % size
  {
    var r, q := u % size, u / size;
    if r + 1 < size {
      Remainder(u + 1, size, q, r + 1);
      Remainder(r + 1, size, 0, r + 1);
    } else {
      Remainder(u + 1, size, q + 1, 0);
      Remainder(r + 1, size, 1, 0);
    }
  }

  lemma Remainder(x: nat, size: nat, q: nat, r: nat)
    requires r < size && x == size * q + r
    ensures x % size == r
  {
    MulDiv(size, q, r);
  }

  // The load balancer's choice, counted, for the models it serves; otherwise some available
  // instance, not counted by it.
  ghost predicate ChosenFrom(
    s: System, t: System, fallback: set<string>, role: Role, model: string, requestLen: int, maxTokens: int,
    available: set<Address>, r: Option<Address>)
    requires !role.Aggregated?
  {
    && (r.Some? ==> r.value in available)
    && if Tracks(s, fallback, role, model) then
         var l := RosterOf(s, role);
         && (r.Some? ==>
               && BalancerPicks(l, role, requestLen + maxTokens, available, r.value)
               && t == Bumped(s, role, r.value, requestLen))
         && (r.None? ==> t == s && NoneEligible(l.pool, l.addresses, requestLen + maxTokens, available))
       else t == s
  }

  // Such a choice among all the available instances is one that the protocol allows.
  lemma ChosenMayBePicked(
    env: Env, s: System, t: System, role: Role, model: string, requestLen: int, maxTokens: int, r: Option<Address>)
    requires !role.Aggregated?
    requires ChosenFrom(s, t, env.fallback, role, model, requestLen, maxTokens, AvailableSet(s.records, env.cbEnabled, role, model), r)
    ensures r.Some? ==> MayPick(env, s, role, model, requestLen + maxTokens, r.value)
    ensures r.None? && Tracks(s, env.fallback, role, model) ==> NobodyToPick(env, s, role, model, requestLen + maxTokens)
    ensures AvailableSet(s.records, env.cbEnabled, role, model) == {} ==> NobodyToPick(env, s, role, model, requestLen + maxTokens)
  {
  }

  // The policy has picked, and counted what it counts: an instance that it may pick; or nobody,
  // and then there is nobody to pick, unless a policy with workers of its own was asked.
  ghost predicate PickMade(
    env: Env, s: System, t: System, routes: bool, role: Role, model: string, requestLen: int, maxTokens: int, r: Option<Address>)
    requires !role.Aggregated?
  {
    && (r.Some? ==>
          && MayPick(env, s, role, model, requestLen + maxTokens, r.value)
          && t == if Tracks(s, env.fallback, role, model) then Bumped(s, role, r.value, requestLen) else s)
    && (r.None? ==> t == s)
    && (r.None? && (!routes || model in env.fallback) ==> NobodyToPick(env, s, role, model, requestLen + maxTokens))
  }

  ghost predicate NobodyToPick(env: Env, s: System, role: Role, model: string, need: int) {
    forall a :: !MayPick(env, s, role, model, need, a)
  }

  // The load balancer's part of scheduling.
  function Bumped(s: System, role: Role, a: Address, length: int): System
    requires !role.Aggregated? && a in RosterOf(s, role).addresses
    requires Sized(RosterOf(s, role).pool, |RosterOf(s, role).addresses|)
  {
    var r := RosterOf(s, role);
    var q := r.(pool := Bump(r.pool, IndexOf(r.addresses, a), length));
    if role.Prefill? then s.(prefill := q) else s.(decode := q)
  }
}
