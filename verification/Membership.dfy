/** Adding and removing an instance at run time, over everything that records it: the
    registry, the shared address list, the policy, the health monitor and discovery.

    Discovery edits the very list the proxy and the load balancer use, so there is one
    list here, and discovery's edits find it already edited. */
module Membership {
  import opened Common
  import opened CircuitBreakers
  import opened Registry
  import opened LoadBalancer
  import opened Leases
  import opened Protocol
  import opened ProtocolInvariant
  import opened Workers

  // Discovery's healthy sets, and its own list of aggregated instances.
  datatype Readiness = Readiness(prefill: set<Address>, decode: set<Address>, aggregated: set<Address>, list: seq<Address>)

  datatype View = View(
    sys: System,
    aggregated: map<string, seq<Address>>,
    workforce: Option<Workforce>,     // the workers of a policy that keeps its own
    nodes: Option<seq<Address>>,      // the health monitor's nodes
    ready: Option<Readiness>,         // discovery
    drainModel: string)               // the model read when the drain in progress began

  // ---------------------------------------------------------------- validity

  ghost predicate AggregatedOk(rs: Records, lists: map<string, seq<Address>>) {
    && (forall m :: m in lists ==> lists[m] != [] && Distinct(lists[m]))
    && (forall m, a :: m in lists && a in lists[m] ==> InRole(rs, Aggregated, a) && rs[a].model == m)
    && (forall a :: InRole(rs, Aggregated, a) ==> rs[a].model in lists && a in lists[rs[a].model])
  }

  ghost predicate NodesOk(rs: Records, nodes: Option<seq<Address>>) {
    nodes.Some? ==> Distinct(nodes.value) && forall a :: a in nodes.value ==> a in rs
  }

  ghost predicate ReadyOk(rs: Records, ready: Option<Readiness>) {
    ready.Some? ==>
      var r := ready.value;
      && (forall a :: a in r.prefill ==> InRole(rs, Prefill, a))
      && (forall a :: a in r.decode ==> InRole(rs, Decode, a))
      && (forall a :: a in r.aggregated ==> a in r.list)
      && Distinct(r.list) && (forall a :: a in r.list <==> InRole(rs, Aggregated, a))
  }

  ghost predicate WorkforceOk(rs: Records, balanced: bool, workforce: Option<Workforce>) {
    workforce.Some? ==>
      && !balanced && Sound(workforce.value)
      && forall a :: a in Members(workforce.value) <==> a in rs && !rs[a].role.Aggregated?
  }

  // An aggregated instance is still listed under the model its drain began with.
  predicate DrainOk(v: View) {
    v.sys.lock.Some? && v.sys.lock.value.role.Aggregated? ==>
      var a := v.sys.lock.value.address;
      a in v.sys.records && v.sys.records[a].model == v.drainModel
  }

  ghost predicate ViewValid(v: View, fallback: set<string>) {
    && Inv(v.sys, fallback)
    && DrainOk(v)
    && AggregatedOk(v.sys.records, v.aggregated)
    && NodesOk(v.sys.records, v.nodes)
    && ReadyOk(v.sys.records, v.ready)
    && WorkforceOk(v.sys.records, v.sys.balanced, v.workforce)
  }

  // Same addresses, roles and models.
  ghost predicate SameListing(rs: Records, rs': Records) {
    rs.Keys == rs'.Keys && forall a :: a in rs ==> rs'[a].role == rs[a].role && rs'[a].model == rs[a].model
  }

  // The other records follow the registry's addresses, roles and models only.
  lemma RestFollowsListing(v: View, fallback: set<string>, t: System)
    requires ViewValid(v, fallback) && Inv(t, fallback)
    requires SameListing(v.sys.records, t.records) && t.balanced == v.sys.balanced && t.lock == v.sys.lock
    ensures ViewValid(v.(sys := t), fallback)
  {
    var rs, rs' := v.sys.records, t.records;
    assert forall role, a :: InRole(rs', role, a) <==> InRole(rs, role, a);
  }

  // ---------------------------------------------------------------- the single edits

  function WithRoster(v: View, role: Role, r: Roster): View
    requires !role.Aggregated?
  {
    if role.Prefill? then v.(sys := v.sys.(prefill := r)) else v.(sys := v.sys.(decode := r))
  }

  function WithAddresses(v: View, role: Role, addresses: seq<Address>): View
    requires !role.Aggregated?
  {
    WithRoster(v, role, RosterOf(v.sys, role).(addresses := addresses))
  }

  function Register(v: View, role: Role, a: Address, model: string): View {
    v.(sys := v.sys.(records := v.sys.records[a := Record(role, model, Healthy, 0, Initial)]))
  }

  function Unregister(v: View, a: Address): View {
    v.(sys := v.sys.(records := v.sys.records - {a}))
  }

  ghost function PolicyAdd(v: View, role: Role, a: Address, limit: int): View {
    if role.Aggregated? then v
    else if v.sys.balanced then
      WithRoster(v, role, RosterOf(v.sys, role).(pool := Extend(RosterOf(v.sys, role).pool, limit)))
    else if v.workforce.Some? then v.(workforce := Some(Joined(v.workforce.value, a)))
    else v
  }

  // As far as the policy got when it raised.
  ghost function PolicyStopped(v: View, role: Role, a: Address, limit: int, points: Option<nat>): View {
    if role.Aggregated? || points.None? then v
    else if v.sys.balanced then
      WithRoster(v, role, RosterOf(v.sys, role).(pool := Extend(RosterOf(v.sys, role).pool, limit)))
    else if v.workforce.Some? then v.(workforce := Some(PartlyJoined(v.workforce.value, a, points.value)))
    else v
  }

  predicate IndexOk(v: View, role: Role, index: nat) {
    !role.Aggregated? && v.sys.balanced ==>
      var p := RosterOf(v.sys, role).pool;
      index < |p.batch| && index < |p.tokens| && index < |p.limits|
  }

  ghost function PolicyRemove(v: View, role: Role, a: Address, index: nat): View
    requires IndexOk(v, role, index)
  {
    if role.Aggregated? then v
    else if v.sys.balanced then
      WithRoster(v, role, RosterOf(v.sys, role).(pool := Shrink(RosterOf(v.sys, role).pool, index)))
    else if v.workforce.Some? then v.(workforce := Some(Parted(v.workforce.value, a)))
    else v
  }

  function Instances(v: View, role: Role, model: string): seq<Address> {
    if role.Aggregated? then (if model in v.aggregated then v.aggregated[model] else [])
    else RosterOf(v.sys, role).addresses
  }

  function ListAdd(v: View, role: Role, a: Address, model: string): View {
    if role.Aggregated? then v.(aggregated := v.aggregated[model := Instances(v, role, model) + [a]])
    else WithAddresses(v, role, RosterOf(v.sys, role).addresses + [a])
  }

  // Removing from a model's list drops the model once the list is empty.
  function ListRemove(v: View, role: Role, a: Address, model: string): View {
    if role.Aggregated? then
      var rest := Without(Instances(v, role, model), a);
      v.(aggregated := if rest == [] then v.aggregated - {model} else v.aggregated[model := rest])
    else WithAddresses(v, role, Without(RosterOf(v.sys, role).addresses, a))
  }

  function MonitorAdd(v: View, a: Address): View {
    if v.nodes.Some? && a !in v.nodes.value then v.(nodes := Some(v.nodes.value + [a])) else v
  }

  function MonitorRemove(v: View, a: Address): View {
    if v.nodes.Some? then v.(nodes := Some(Without(v.nodes.value, a))) else v
  }

  // Discovery appends to its list only what is not there yet.
  function DiscoveryAdd(v: View, role: Role, a: Address): View {
    if v.ready.None? then v
    else
      var r := v.ready.value;
      match role
      case Prefill =>
        var w := if a in v.sys.prefill.addresses then v else WithAddresses(v, role, v.sys.prefill.addresses + [a]);
        w.(ready := Some(r.(prefill := r.prefill + {a})))
      case Decode =>
        var w := if a in v.sys.decode.addresses then v else WithAddresses(v, role, v.sys.decode.addresses + [a]);
        w.(ready := Some(r.(decode := r.decode + {a})))
      case Aggregated =>
        v.(ready := Some(r.(list := if a in r.list then r.list else r.list + [a], aggregated := r.aggregated + {a})))
  }

  function DiscoveryRemove(v: View, role: Role, a: Address): View {
    if v.ready.None? then v
    else
      var r := v.ready.value;
      match role
      case Prefill => WithAddresses(v, role, Without(v.sys.prefill.addresses, a)).(ready := Some(r.(prefill := r.prefill - {a})))
      case Decode => WithAddresses(v, role, Without(v.sys.decode.addresses, a)).(ready := Some(r.(decode := r.decode - {a})))
      case Aggregated => v.(ready := Some(r.(list := Without(r.list, a), aggregated := r.aggregated - {a})))
  }

  // ---------------------------------------------------------------- adding

  // Where adding fails, if it does, and whether the failing step had its effect first.  The
  // policy may have recorded the instance with some of its ring points.
  datatype Fault = NoFault | PolicyRaises(points: Option<nat>) | MonitorRaises(applied: bool) | DiscoveryRaises(applied: bool)

  datatype Attempt = Attempt(view: View, policyAdded: bool, raised: bool)

  // Registry, policy and list.
  ghost function Enlist(v: View, role: Role, a: Address, model: string, limit: int, fault: Fault): Attempt {
    var v0 := Register(v, role, a, model);
    if fault.PolicyRaises? && !role.Aggregated? then Attempt(PolicyStopped(v0, role, a, limit, fault.points), false, true)
    else Attempt(ListAdd(PolicyAdd(v0, role, a, limit), role, a, model), !role.Aggregated?, false)
  }

  // Health monitor and discovery.
  function Announce(v: View, role: Role, a: Address, fault: Fault): (View, bool) {
    if fault.MonitorRaises? && v.nodes.Some? then (if fault.applied then MonitorAdd(v, a) else v, true)
    else
      var w := MonitorAdd(v, a);
      if fault.DiscoveryRaises? && v.ready.Some? then (if fault.applied then DiscoveryAdd(w, role, a) else w, true)
      else (DiscoveryAdd(w, role, a), false)
  }

  // An addition, up to its failure if it fails.
  ghost function Attach(v: View, role: Role, a: Address, model: string, limit: int, fault: Fault): Attempt {
    var e := Enlist(v, role, a, model, limit, fault);
    if e.raised then e
    else
      var (w, raised) := Announce(e.view, role, a, fault);
      Attempt(w, e.policyAdded, raised)
  }

  // What the exception handler undoes; `index` is the list's length before the addition.
  ghost function Rollback(v: View, role: Role, a: Address, model: string, index: nat, policyAdded: bool): View
    requires policyAdded ==> IndexOk(v, role, index)
  {
    var v1 := ListRemove(MonitorRemove(DiscoveryRemove(v, role, a), a), role, a, model);
    var v2 := if policyAdded then PolicyRemove(v1, role, a, index) else v1;
    Unregister(v2, a)
  }

  lemma AppendedGone(s: seq<Address>, a: Address)
    requires a !in s
    ensures Without(s + [a], a) == s && Without(s, a) == s
  {
    WithoutAppended(s, a);
  }

  // A new address is recorded nowhere.
  lemma NewIsUnknown(v: View, fallback: set<string>, a: Address)
    requires ViewValid(v, fallback) && a !in v.sys.records
    ensures a !in v.sys.prefill.addresses && a !in v.sys.decode.addresses
    ensures forall m :: m in v.aggregated ==> a !in v.aggregated[m]
    ensures v.nodes.Some? ==> a !in v.nodes.value
    ensures v.ready.Some? ==> Unready(v.ready.value, a)
    ensures v.workforce.Some? ==> a !in Members(v.workforce.value)
  {
    assert !InRole(v.sys.records, Prefill, a) && !InRole(v.sys.records, Decode, a) && !InRole(v.sys.records, Aggregated, a);
  }

  predicate Unready(r: Readiness, a: Address) {
    a !in r.prefill && a !in r.decode && a !in r.aggregated && a !in r.list
  }

  function ReadyWith(r: Readiness, role: Role, a: Address): Readiness {
    match role
    case Prefill => r.(prefill := r.prefill + {a})
    case Decode => r.(decode := r.decode + {a})
    case Aggregated => r.(aggregated := r.aggregated + {a}, list := r.list + [a])
  }

  // The address is at the end of a list, or not in it at all.
  predicate AtEnd(s: seq<Address>, base: seq<Address>, a: Address) {
    a !in base && (s == base || s == base + [a])
  }

  // Monitor and discovery may or may not have recorded the new address.
  predicate PartlyRecorded(x: View, v: View, role: Role, a: Address) {
    && (v.nodes.Some? <==> x.nodes.Some?)
    && (v.nodes.Some? ==> AtEnd(x.nodes.value, v.nodes.value, a))
    && (v.ready.Some? <==> x.ready.Some?)
    && (v.ready.Some? ==> Unready(v.ready.value, a) &&
                          (x.ready == v.ready || x.ready == Some(ReadyWith(v.ready.value, role, a))))
  }

  lemma ReadyUndone(r: Readiness, a: Address)
    requires Unready(r, a)
    ensures r.prefill - {a} == r.prefill && r.prefill + {a} - {a} == r.prefill
    ensures r.decode - {a} == r.decode && r.decode + {a} - {a} == r.decode
    ensures r.aggregated - {a} == r.aggregated && r.aggregated + {a} - {a} == r.aggregated
    ensures Without(r.list, a) == r.list && Without(r.list + [a], a) == r.list
  {
    AppendedGone(r.list, a);
  }

  // The edits of discovery, monitor and list are undone, each finding what the others left.
  lemma RecordsUndone(x: View, v: View, role: Role, a: Address, base: seq<Address>, model: string)
    requires !role.Aggregated? && AtEnd(RosterOf(x.sys, role).addresses, base, a) && PartlyRecorded(x, v, role, a)
    ensures ListRemove(MonitorRemove(DiscoveryRemove(x, role, a), a), role, a, model) ==
            WithAddresses(x, role, base).(nodes := v.nodes, ready := v.ready)
  {
    DiscoveryUndone(x, v, role, a, base);
    var y := DiscoveryRemove(x, role, a);
    MonitorUndone(y, v.nodes, a);
    ListUndone(MonitorRemove(y, a), role, a, base, model);
  }

  lemma DiscoveryUndone(x: View, v: View, role: Role, a: Address, base: seq<Address>)
    requires !role.Aggregated? && AtEnd(RosterOf(x.sys, role).addresses, base, a) && PartlyRecorded(x, v, role, a)
    ensures var y := DiscoveryRemove(x, role, a);
            && AtEnd(RosterOf(y.sys, role).addresses, base, a)
            && y == WithAddresses(x, role, RosterOf(y.sys, role).addresses).(ready := v.ready)
  {
    AppendedGone(base, a);
    if v.ready.Some? {
      ReadyUndone(v.ready.value, a);
    }
  }

  lemma MonitorUndone(x: View, nodes: Option<seq<Address>>, a: Address)
    requires (x.nodes.Some? <==> nodes.Some?) && (nodes.Some? ==> AtEnd(x.nodes.value, nodes.value, a))
    ensures MonitorRemove(x, a) == x.(nodes := nodes)
  {
    if nodes.Some? {
      AppendedGone(nodes.value, a);
    }
  }

  lemma ListUndone(x: View, role: Role, a: Address, base: seq<Address>, model: string)
    requires !role.Aggregated? && AtEnd(RosterOf(x.sys, role).addresses, base, a)
    ensures ListRemove(x, role, a, model) == WithAddresses(x, role, base)
  {
    AppendedGone(base, a);
  }

  lemma PolicyUndone(v: View, fallback: set<string>, role: Role, a: Address, limit: int)
    requires ViewValid(v, fallback) && a !in v.sys.records && !role.Aggregated?
    ensures var index := |RosterOf(v.sys, role).addresses|;
            var w := PolicyAdd(v, role, a, limit);
            IndexOk(w, role, index) && PolicyRemove(w, role, a, index) == v
  {
    if v.sys.balanced {
      ExtendThenShrink(RosterOf(v.sys, role).pool, limit);
    } else if v.workforce.Some? {
      NewIsUnknown(v, fallback, a);
      JoinedThenParted(v.workforce.value, a);
    }
  }

  // The policy after an addition that may have failed anywhere.
  ghost function PolicyAfter(v: View, role: Role, a: Address, limit: int, fault: Fault): View {
    if fault.PolicyRaises? then PolicyStopped(v, role, a, limit, fault.points) else PolicyAdd(v, role, a, limit)
  }

  // It had begun to record the instance, and nobody notes that it had: the handler will not
  // take it back.
  predicate LeavesPolicy(v: View, role: Role, fault: Fault) {
    !role.Aggregated? && fault.PolicyRaises? && fault.points.Some? && (v.sys.balanced || v.workforce.Some?)
  }

  // What the rollback leaves of `v`.
  ghost function LeftOver(v: View, role: Role, a: Address, limit: int, fault: Fault): View {
    if fault.PolicyRaises? then PolicyStopped(v, role, a, limit, fault.points) else v
  }

  // What the attempt left, apart from what monitor and discovery recorded.
  lemma AttemptLeft(v: View, role: Role, a: Address, model: string, limit: int, fault: Fault)
    requires !role.Aggregated? && a !in RosterOf(v.sys, role).addresses
    requires v.nodes.Some? ==> a !in v.nodes.value
    requires v.ready.Some? ==> Unready(v.ready.value, a)
    ensures var t := Attach(v, role, a, model, limit, fault);
            var w := Register(PolicyAfter(v, role, a, limit, fault), role, a, model);
            && AtEnd(RosterOf(t.view.sys, role).addresses, RosterOf(v.sys, role).addresses, a)
            && PartlyRecorded(t.view, v, role, a)
            && WithAddresses(t.view, role, RosterOf(v.sys, role).addresses).(nodes := v.nodes, ready := v.ready) == w
  {
    var base := RosterOf(v.sys, role).addresses;
    var v1 := PolicyAdd(Register(v, role, a, model), role, a, limit);
    var v2 := ListAdd(v1, role, a, model);
    if fault.PolicyRaises? {
      StoppedLeft(v, role, a, model, limit, fault.points);
      return;
    }
    ListedLeft(v, role, a, model, limit);
    var v3 := MonitorAdd(v2, a);
    RecordedLeft(v2, v, role, a, base);
    RecordedLeft(v3, v, role, a, base);
  }

  lemma StoppedLeft(v: View, role: Role, a: Address, model: string, limit: int, points: Option<nat>)
    requires !role.Aggregated?
    ensures var w := PolicyStopped(Register(v, role, a, model), role, a, limit, points);
            && w == Register(PolicyStopped(v, role, a, limit, points), role, a, model)
            && WithAddresses(w, role, RosterOf(v.sys, role).addresses) == w
            && RosterOf(w.sys, role).addresses == RosterOf(v.sys, role).addresses && w.nodes == v.nodes && w.ready == v.ready
  {
  }

  lemma ListedLeft(v: View, role: Role, a: Address, model: string, limit: int)
    requires !role.Aggregated?
    ensures var base := RosterOf(v.sys, role).addresses;
            var v1 := PolicyAdd(Register(v, role, a, model), role, a, limit);
            var v2 := ListAdd(v1, role, a, model);
            && v1 == Register(PolicyAdd(v, role, a, limit), role, a, model)
            && RosterOf(v2.sys, role).addresses == base + [a]
            && WithAddresses(v2, role, base) == v1 && v2.nodes == v.nodes && v2.ready == v.ready
            && WithAddresses(Register(v, role, a, model), role, base) == Register(v, role, a, model)
  {
  }

  // Monitor and discovery record the address without touching anything else.
  lemma RecordedLeft(x: View, v: View, role: Role, a: Address, base: seq<Address>)
    requires !role.Aggregated? && RosterOf(x.sys, role).addresses == base + [a]
    requires x.ready == v.ready && (v.nodes.Some? <==> x.nodes.Some?)
    requires v.nodes.Some? ==> a !in v.nodes.value && AtEnd(x.nodes.value, v.nodes.value, a)
    requires v.ready.Some? ==> Unready(v.ready.value, a)
    ensures var y := MonitorAdd(x, a);
            && y == x.(nodes := y.nodes) && (v.nodes.Some? <==> y.nodes.Some?)
            && (v.nodes.Some? ==> AtEnd(y.nodes.value, v.nodes.value, a))
    ensures var y := DiscoveryAdd(x, role, a);
            y == x.(ready := if v.ready.Some? then Some(ReadyWith(v.ready.value, role, a)) else None)
  {
    assert (base + [a])[|base|] == a;
  }

  lemma UnregisterUndone(v: View, role: Role, a: Address, model: string)
    requires a !in v.sys.records
    ensures Unregister(Register(v, role, a, model), a) == v
  {
    assert v.sys.records[a := Record(role, model, Healthy, 0, Initial)] - {a} == v.sys.records;
  }

  /** An addition that fails part-way is undone completely, so that lists, arrays, workers,
      health nodes, readiness and registry are what they were, unless it is the policy that
      raised after it had begun to record the instance; then just what it recorded stays. */
  lemma FailedAddRestores(v: View, fallback: set<string>, role: Role, a: Address, model: string, limit: int, fault: Fault)
    requires ViewValid(v, fallback) && a !in v.sys.records
    requires Attach(v, role, a, model, limit, fault).raised
    ensures var t := Attach(v, role, a, model, limit, fault);
            var index := |Instances(v, role, model)|;
            && (t.policyAdded ==> IndexOk(t.view, role, index))
            && var w := Rollback(t.view, role, a, model, index, t.policyAdded);
               && w == LeftOver(v, role, a, limit, fault)
               && (w == v <==> !LeavesPolicy(v, role, fault))
               && (ViewValid(w, fallback) <==> !LeavesPolicy(v, role, fault))
  {
    NewIsUnknown(v, fallback, a);
    if role.Aggregated? {
      FailedAggregated(v, a, model, limit, fault);
    } else {
      FailedSplit(v, fallback, role, a, model, limit, fault);
      if LeavesPolicy(v, role, fault) {
        LeftBehind(v, fallback, role, a, limit, fault.points.value);
      }
    }
  }

  // After list, monitor and discovery are undone.
  lemma EditsUndone(v: View, role: Role, a: Address, model: string, limit: int, fault: Fault)
    requires !role.Aggregated? && a !in RosterOf(v.sys, role).addresses
    requires v.nodes.Some? ==> a !in v.nodes.value
    requires v.ready.Some? ==> Unready(v.ready.value, a)
    ensures var x := Attach(v, role, a, model, limit, fault).view;
            var w := Register(PolicyAfter(v, role, a, limit, fault), role, a, model);
            && ListRemove(MonitorRemove(DiscoveryRemove(x, role, a), a), role, a, model) == w
            && RosterOf(x.sys, role).pool == RosterOf(w.sys, role).pool && x.sys.balanced == w.sys.balanced
  {
    AttemptLeft(v, role, a, model, limit, fault);
    RecordsUndone(Attach(v, role, a, model, limit, fault).view, v, role, a, RosterOf(v.sys, role).addresses, model);
  }

  // What is left of the policy and the registry's entry.
  lemma PolicyAndRegistryUndone(v: View, fallback: set<string>, role: Role, a: Address, model: string, limit: int)
    requires ViewValid(v, fallback) && a !in v.sys.records && !role.Aggregated?
    ensures var w, index := Register(PolicyAdd(v, role, a, limit), role, a, model), |RosterOf(v.sys, role).addresses|;
            IndexOk(w, role, index) && Unregister(PolicyRemove(w, role, a, index), a) == v
            && Unregister(w, a) == PolicyAdd(v, role, a, limit)
    ensures Unregister(Register(v, role, a, model), a) == v
  {
    PolicyUndone(v, fallback, role, a, limit);
    UnregisterUndone(v, role, a, model);
    UnregisterUndone(PolicyAdd(v, role, a, limit), role, a, model);
    PolicyAndRegistry(v, role, a, model, limit, |RosterOf(v.sys, role).addresses|);
  }

  lemma FailedSplit(v: View, fallback: set<string>, role: Role, a: Address, model: string, limit: int, fault: Fault)
    requires ViewValid(v, fallback) && a !in v.sys.records && !role.Aggregated?
    requires Attach(v, role, a, model, limit, fault).raised
    ensures var t := Attach(v, role, a, model, limit, fault);
            var index := |RosterOf(v.sys, role).addresses|;
            && (t.policyAdded ==> IndexOk(t.view, role, index))
            && Rollback(t.view, role, a, model, index, t.policyAdded) ==
               LeftOver(v, role, a, limit, fault)
  {
    NewIsUnknown(v, fallback, a);
    EditsUndone(v, role, a, model, limit, fault);
    if fault.PolicyRaises? {
      UnregisterUndone(PolicyStopped(v, role, a, limit, fault.points), role, a, model);
    } else {
      PolicyAndRegistryUndone(v, fallback, role, a, model, limit);
    }
  }

  // A policy that keeps an unregistered instance is out of step.
  lemma LeftBehind(v: View, fallback: set<string>, role: Role, a: Address, limit: int, n: nat)
    requires ViewValid(v, fallback) && a !in v.sys.records && !role.Aggregated? && (v.sys.balanced || v.workforce.Some?)
    ensures var w := PolicyStopped(v, role, a, limit, Some(n)); w != v && !ViewValid(w, fallback)
  {
    var w := PolicyStopped(v, role, a, limit, Some(n));
    if v.sys.balanced {
      assert !Aligned(w.sys);
    } else {
      NewIsUnknown(v, fallback, a);
      PartlyJoinedMembers(v.workforce.value, a, n);
      assert a in Members(w.workforce.value);
    }
  }

  // Policy and registry are edited independently.
  lemma PolicyAndRegistry(v: View, role: Role, a: Address, model: string, limit: int, index: nat)
    requires !role.Aggregated? && a !in v.sys.records && IndexOk(PolicyAdd(v, role, a, limit), role, index)
    ensures var w := PolicyAdd(v, role, a, limit);
            && IndexOk(Register(w, role, a, model), role, index)
            && Unregister(PolicyRemove(Register(w, role, a, model), role, a, index), a) == PolicyRemove(w, role, a, index)
  {
    UnregisterUndone(PolicyRemove(PolicyAdd(v, role, a, limit), role, a, index), role, a, model);
  }

  // What the undoing relies on.
  lemma AttachedFacts(v: View, fallback: set<string>, role: Role, a: Address, model: string, limit: int, fault: Fault)
    requires ViewValid(v, fallback) && a !in v.sys.records
    ensures var t := Attach(v, role, a, model, limit, fault);
            && a in t.view.sys.records
            && (t.policyAdded ==> !role.Aggregated?)
            && (t.policyAdded && v.sys.balanced ==>
                  t.view.sys.balanced && var p := RosterOf(t.view.sys, role).pool; |p.batch| == |p.tokens| == |p.limits|)
  {
    AttachedRecords(v, role, a, model, limit, fault);
    NewIsUnknown(v, fallback, a);
    if !role.Aggregated? {
      EditsUndone(v, role, a, model, limit, fault);
    }
  }

  lemma AttachedRecords(v: View, role: Role, a: Address, model: string, limit: int, fault: Fault)
    ensures var t := Attach(v, role, a, model, limit, fault);
            && t.view.sys.records == Register(v, role, a, model).sys.records
            && (t.policyAdded <==> !role.Aggregated? && !fault.PolicyRaises?)
  {
  }

  lemma AggregatedUndone(m: map<string, seq<Address>>, model: string, a: Address)
    requires forall k :: k in m ==> m[k] != [] && a !in m[k]
    ensures var before := if model in m then m[model] else [];
            var after := m[model := before + [a]];
            var rest := Without(after[model], a);
            (if rest == [] then after - {model} else after[model := rest]) == m
  {
    var before := if model in m then m[model] else [];
    AppendedGone(before, a);
  }

  lemma FailedAggregated(v: View, a: Address, model: string, limit: int, fault: Fault)
    requires a !in v.sys.records && (forall m :: m in v.aggregated ==> v.aggregated[m] != [] && a !in v.aggregated[m])
    requires v.nodes.Some? ==> a !in v.nodes.value
    requires v.ready.Some? ==> Unready(v.ready.value, a)
    requires Attach(v, Aggregated, a, model, limit, fault).raised
    ensures var t := Attach(v, Aggregated, a, model, limit, fault);
            Rollback(t.view, Aggregated, a, model, |Instances(v, Aggregated, model)|, t.policyAdded) == v
  {
    var t := Attach(v, Aggregated, a, model, limit, fault).view;
    var listed := ListAdd(Register(v, Aggregated, a, model), Aggregated, a, model);
    AttachedAggregated(v, a, model, limit, fault);
    AggregatedDiscoveryUndone(t, v, a);
    MonitorUndone(DiscoveryRemove(t, Aggregated, a), v.nodes, a);
    assert MonitorRemove(DiscoveryRemove(t, Aggregated, a), a) == listed;
    AggregatedListUndone(v, a, model);
    UnregisterUndone(v, Aggregated, a, model);
  }

  lemma AttachedAggregated(v: View, a: Address, model: string, limit: int, fault: Fault)
    requires v.nodes.Some? ==> a !in v.nodes.value
    requires v.ready.Some? ==> Unready(v.ready.value, a)
    ensures var t := Attach(v, Aggregated, a, model, limit, fault);
            && !t.policyAdded && PartlyRecorded(t.view, v, Aggregated, a)
            && t.view == ListAdd(Register(v, Aggregated, a, model), Aggregated, a, model).(nodes := t.view.nodes, ready := t.view.ready)
  {
  }

  lemma AggregatedDiscoveryUndone(x: View, v: View, a: Address)
    requires PartlyRecorded(x, v, Aggregated, a)
    ensures DiscoveryRemove(x, Aggregated, a) == x.(ready := v.ready)
  {
    if v.ready.Some? {
      ReadyUndone(v.ready.value, a);
    }
  }

  lemma AggregatedListUndone(v: View, a: Address, model: string)
    requires forall m :: m in v.aggregated ==> v.aggregated[m] != [] && a !in v.aggregated[m]
    ensures var r := Register(v, Aggregated, a, model);
            ListRemove(ListAdd(r, Aggregated, a, model), Aggregated, a, model) == r
  {
    AggregatedUndone(v.aggregated, model, a);
  }

  // ---------------------------------------------------------------- successful changes

  lemma AddedSystem(v: View, fallback: set<string>, role: Role, a: Address, model: string, limit: int, fault: Fault)
    requires ViewValid(v, fallback) && a !in v.sys.records && !Attach(v, role, a, model, limit, fault).raised
    ensures Attach(v, role, a, model, limit, fault).view.sys == Added(v.sys, role, a, model, limit)
  {
    if !role.Aggregated? {
      var base := RosterOf(v.sys, role).addresses;
      var v2 := ListAdd(PolicyAdd(Register(v, role, a, model), role, a, limit), role, a, model);
      NewIsUnknown(v, fallback, a);
      ListedLeft(v, role, a, model, limit);
      RecordedLeft(v2, v, role, a, base);
      RecordedLeft(MonitorAdd(v2, a), v, role, a, base);
    }
  }

  // The other records of a successful addition.
  lemma AddedRest(v: View, fallback: set<string>, role: Role, a: Address, model: string, limit: int, fault: Fault)
    requires ViewValid(v, fallback) && a !in v.sys.records && !Attach(v, role, a, model, limit, fault).raised
    ensures var w := Attach(v, role, a, model, limit, fault).view;
            && w.aggregated == (if role.Aggregated? then v.aggregated[model := Instances(v, role, model) + [a]] else v.aggregated)
            && w.workforce == PolicyAdd(v, role, a, limit).workforce && w.drainModel == v.drainModel
            && w.nodes == (if v.nodes.Some? then Some(v.nodes.value + [a]) else None)
            && w.ready == (if v.ready.Some? then Some(ReadyWith(v.ready.value, role, a)) else None)
  {
    NewIsUnknown(v, fallback, a);
    if !role.Aggregated? {
      var base := RosterOf(v.sys, role).addresses;
      var v2 := ListAdd(PolicyAdd(Register(v, role, a, model), role, a, limit), role, a, model);
      ListedLeft(v, role, a, model, limit);
      RecordedLeft(v2, v, role, a, base);
      RecordedLeft(MonitorAdd(v2, a), v, role, a, base);
    }
  }

  function WithRecord(rs: Records, role: Role, a: Address, model: string): Records {
    rs[a := Record(role, model, Healthy, 0, Initial)]
  }

  lemma AddedListsOk(v: View, fallback: set<string>, role: Role, a: Address, model: string)
    requires ViewValid(v, fallback) && a !in v.sys.records
    ensures AggregatedOk(WithRecord(v.sys.records, role, a, model),
                         if role.Aggregated? then v.aggregated[model := Instances(v, role, model) + [a]] else v.aggregated)
  {
    NewIsUnknown(v, fallback, a);
    if role.Aggregated? {
      AggregatedWith(v.sys.records, v.aggregated, a, model);
    } else {
      AggregatedBeside(v.sys.records, v.aggregated, role, a, model);
    }
  }

  lemma AggregatedBeside(rs: Records, lists: map<string, seq<Address>>, role: Role, a: Address, model: string)
    requires AggregatedOk(rs, lists) && a !in rs && !role.Aggregated?
    ensures AggregatedOk(WithRecord(rs, role, a, model), lists)
  {
    var rs' := WithRecord(rs, role, a, model);
    forall m, b | m in lists && b in lists[m] ensures InRole(rs', Aggregated, b) && rs'[b].model == m {
      assert InRole(rs, Aggregated, b);
    }
    forall b | InRole(rs', Aggregated, b) ensures rs'[b].model in lists && b in lists[rs'[b].model] {
      assert InRole(rs, Aggregated, b);
    }
  }

  lemma AggregatedWith(rs: Records, lists: map<string, seq<Address>>, a: Address, model: string)
    requires AggregatedOk(rs, lists) && a !in rs && forall m :: m in lists ==> a !in lists[m]
    ensures AggregatedOk(WithRecord(rs, Aggregated, a, model), lists[model := (if model in lists then lists[model] else []) + [a]])
  {
    var rs' := WithRecord(rs, Aggregated, a, model);
    assert forall b :: InRole(rs', Aggregated, b) <==> InRole(rs, Aggregated, b) || b == a;
  }

  lemma AddedNodesOk(v: View, fallback: set<string>, role: Role, a: Address, model: string)
    requires ViewValid(v, fallback) && a !in v.sys.records
    ensures NodesOk(WithRecord(v.sys.records, role, a, model), if v.nodes.Some? then Some(v.nodes.value + [a]) else None)
  {
    NewIsUnknown(v, fallback, a);
  }

  lemma AddedReadyOk(v: View, fallback: set<string>, role: Role, a: Address, model: string)
    requires ViewValid(v, fallback) && a !in v.sys.records
    ensures ReadyOk(WithRecord(v.sys.records, role, a, model),
                    if v.ready.Some? then Some(ReadyWith(v.ready.value, role, a)) else None)
  {
    NewIsUnknown(v, fallback, a);
  }

  lemma AddedWorkforceOk(v: View, fallback: set<string>, role: Role, a: Address, model: string, limit: int)
    requires ViewValid(v, fallback) && a !in v.sys.records
    ensures WorkforceOk(WithRecord(v.sys.records, role, a, model), v.sys.balanced, PolicyAdd(v, role, a, limit).workforce)
  {
    if v.workforce.Some? {
      NewIsUnknown(v, fallback, a);
      JoinedThenParted(v.workforce.value, a);
    }
  }

  /** A successful addition does what the protocol's step does and keeps every record in
      step with the others. */
  lemma AddSucceeds(v: View, fallback: set<string>, role: Role, a: Address, model: string, limit: int, fault: Fault)
    requires ViewValid(v, fallback) && a !in v.sys.records && !Attach(v, role, a, model, limit, fault).raised
    ensures var w := Attach(v, role, a, model, limit, fault).view;
            ViewValid(w, fallback) && w.sys == Added(v.sys, role, a, model, limit)
  {
    AddedSystem(v, fallback, role, a, model, limit, fault);
    AddedRest(v, fallback, role, a, model, limit, fault);
    AddedKeeps(v.sys, fallback, role, a, model, limit);
    AddedListsOk(v, fallback, role, a, model);
    AddedNodesOk(v, fallback, role, a, model);
    AddedReadyOk(v, fallback, role, a, model);
    AddedWorkforceOk(v, fallback, role, a, model, limit);
    assert Added(v.sys, role, a, model, limit).records == WithRecord(v.sys.records, role, a, model);
  }

  predicate CanDetach(v: View, role: Role, a: Address) {
    && a in v.sys.records
    && (!role.Aggregated? ==>
          a in RosterOf(v.sys, role).addresses && IndexOk(v, role, IndexOf(RosterOf(v.sys, role).addresses, a)))
  }

  // What a finished drain does, in order; `model` was read when the drain began.
  ghost function Detach(v: View, role: Role, a: Address, model: string): View
    requires CanDetach(v, role, a)
  {
    var index := if role.Aggregated? then 0 else IndexOf(RosterOf(v.sys, role).addresses, a);
    var v1 := ListRemove(PolicyRemove(v, role, a, index), role, a, model);
    Unregister(DiscoveryRemove(MonitorRemove(v1, a), role, a), a)
  }

  // The list edit leaves discovery nothing to remove from the shared list.
  lemma DetachedSystem(v: View, fallback: set<string>, role: Role, a: Address, model: string)
    requires ViewValid(v, fallback) && InRole(v.sys.records, role, a)
    ensures CanDetach(v, role, a) && CanRemove(v.sys, role, a)
    ensures Detach(v, role, a, model).sys.(lock := None) == Removed(v.sys, role, a)
  {
    if !role.Aggregated? {
      WithoutFacts(RosterOf(v.sys, role).addresses, a);
    }
  }

  lemma DetachedRest(v: View, role: Role, a: Address, model: string)
    requires CanDetach(v, role, a) && (v.sys.balanced ==> v.workforce.None?)
    ensures var w := Detach(v, role, a, model);
            && w.aggregated == ListRemove(v, role, a, model).aggregated
            && w.nodes == MonitorRemove(v, a).nodes
            && w.ready == DiscoveryRemove(v, role, a).ready
            && w.workforce == WorkforceWithout(v, role, a) && w.drainModel == v.drainModel
  {
    var index := if role.Aggregated? then 0 else IndexOf(RosterOf(v.sys, role).addresses, a);
    var v1 := PolicyRemove(v, role, a, index);
    var v2 := ListRemove(v1, role, a, model);
    PolicyRemoveOnly(v, role, a, index);
    ListRemoveOnly(v1, role, a, model);
    DiscoveryRemoveOnly(MonitorRemove(v2, a), role, a);
  }

  // Each edit touches its own record only.
  lemma PolicyRemoveOnly(v: View, role: Role, a: Address, index: nat)
    requires IndexOk(v, role, index) && (v.sys.balanced ==> v.workforce.None?)
    ensures var w := PolicyRemove(v, role, a, index);
            && w.aggregated == v.aggregated && w.nodes == v.nodes && w.ready == v.ready && w.drainModel == v.drainModel
            && w.workforce == WorkforceWithout(v, role, a)
  {
  }

  lemma ListRemoveOnly(v: View, role: Role, a: Address, model: string)
    ensures var w := ListRemove(v, role, a, model);
            w.nodes == v.nodes && w.ready == v.ready && w.workforce == v.workforce && w.drainModel == v.drainModel
  {
  }

  lemma DiscoveryRemoveOnly(v: View, role: Role, a: Address)
    ensures var w := DiscoveryRemove(v, role, a);
            w.aggregated == v.aggregated && w.nodes == v.nodes && w.workforce == v.workforce && w.drainModel == v.drainModel
  {
  }

  lemma DetachedNodesOk(v: View, fallback: set<string>, a: Address)
    requires ViewValid(v, fallback)
    ensures NodesOk(v.sys.records - {a}, MonitorRemove(v, a).nodes)
  {
    if v.nodes.Some? {
      WithoutFacts(v.nodes.value, a);
    }
  }

  lemma DetachedReadyOk(v: View, fallback: set<string>, role: Role, a: Address)
    requires ViewValid(v, fallback) && InRole(v.sys.records, role, a)
    ensures ReadyOk(v.sys.records - {a}, DiscoveryRemove(v, role, a).ready)
  {
    if v.ready.Some? {
      WithoutFacts(v.ready.value.list, a);
    }
  }

  ghost function WorkforceWithout(v: View, role: Role, a: Address): Option<Workforce> {
    if role.Aggregated? || v.workforce.None? then v.workforce else Some(Parted(v.workforce.value, a))
  }

  lemma DetachedWorkforceOk(v: View, fallback: set<string>, role: Role, a: Address)
    requires ViewValid(v, fallback) && InRole(v.sys.records, role, a)
    ensures WorkforceOk(v.sys.records - {a}, v.sys.balanced, WorkforceWithout(v, role, a))
  {
    if v.workforce.Some? {
      PartedSound(v.workforce.value, a);
    }
  }

  // The model's list loses the address, and the model goes with its last instance.
  lemma DetachedAggregatedOk(v: View, fallback: set<string>, role: Role, a: Address, model: string)
    requires ViewValid(v, fallback) && InRole(v.sys.records, role, a)
    requires role.Aggregated? ==> v.sys.records[a].model == model
    ensures AggregatedOk(v.sys.records - {a}, ListRemove(v, role, a, model).aggregated)
  {
    var rs, m := v.sys.records - {a}, ListRemove(v, role, a, model).aggregated;
    if role.Aggregated? {
      WithoutFacts(v.aggregated[model], a);
      assert forall k :: k in m && k != model ==> m[k] == v.aggregated[k];
      assert model in m ==> m[model] == Without(v.aggregated[model], a);
    }
    forall k, b | k in m && b in m[k] ensures InRole(rs, Aggregated, b) && rs[b].model == k {
      assert k in v.aggregated && b in v.aggregated[k] && b != a;
      assert InRole(v.sys.records, Aggregated, b);
    }
    forall b | InRole(rs, Aggregated, b) ensures rs[b].model in m && b in m[rs[b].model] {
      assert InRole(v.sys.records, Aggregated, b);
    }
  }

  /** Finishing a drain does what the protocol's step does and keeps every record in step. */
  lemma DetachKeeps(v: View, fallback: set<string>)
    requires ViewValid(v, fallback) && v.sys.lock.Some? && v.sys.records[v.sys.lock.value.address].active <= 0
    ensures var role, a := v.sys.lock.value.role, v.sys.lock.value.address;
            && CanDetach(v, role, a) && CanRemove(v.sys, role, a) && Unleased(v.sys.leases, a)
            && var w := Detach(v, role, a, v.drainModel);
               w.sys.(lock := None) == Removed(v.sys, role, a) && ViewValid(w.(sys := Removed(v.sys, role, a)), fallback)
  {
    var role, a := v.sys.lock.value.role, v.sys.lock.value.address;
    RemovedKeeps(v.sys, fallback, role, a);
    assert InRole(v.sys.records, role, a);
    DetachedSystem(v, fallback, role, a, v.drainModel);
    DetachedRest(v, role, a, v.drainModel);
    DetachedNodesOk(v, fallback, a);
    DetachedReadyOk(v, fallback, role, a);
    DetachedAggregatedOk(v, fallback, role, a, v.drainModel);
    DetachedWorkforceOk(v, fallback, role, a);
    assert Removed(v.sys, role, a).records == v.sys.records - {a};
  }

  // Starting a drain, or giving one up, concerns only the instance's status and the lock.
  lemma DrainBegunView(v: View, fallback: set<string>, role: Role, a: Address)
    requires ViewValid(v, fallback) && v.sys.lock.None? && InRole(v.sys.records, role, a)
    ensures ViewValid(v.(sys := DrainBegun(v.sys, role, a), drainModel := v.sys.records[a].model), fallback)
  {
    var r := v.sys.records[a].(status := Draining);
    var t := v.sys.(records := v.sys.records[a := r]);
    RecordChangeKeeps(v.sys, fallback, a, r);
    RestFollowsListing(v, fallback, t);
    LockChangeKeeps(t, fallback, Some(Drain(role, a)));
  }

  lemma DrainEndedView(v: View, fallback: set<string>, model: string)
    requires ViewValid(v, fallback)
    ensures ViewValid(v.(sys := v.sys.(lock := None), drainModel := model), fallback)
  {
    LockChangeKeeps(v.sys, fallback, None);
  }
}
