/** Discovery and health monitoring: which instances are probed, and which are ready.
    Discovery holds the very prefill and decode lists the proxy schedules from. */
module Discovery {
  import opened Common
  import opened Registry
  import opened LoadBalancer
  import opened Membership

  // What a health probe brought: a status code, or no answer; or, after an answer, the model
  // probe that follows it raised.
  datatype Reply = Failed | Answered(status: int)

  // The healthy sets hold only listed instances.
  ghost predicate Listing(prefill: seq<Address>, decode: seq<Address>, r: Readiness) {
    && (forall a :: a in r.prefill ==> a in prefill)
    && (forall a :: a in r.decode ==> a in decode)
    && (forall a :: a in r.aggregated ==> a in r.list)
  }

  function WithHealthy(r: Readiness, role: Role, s: set<Address>): Readiness {
    match role
    case Prefill => r.(prefill := s)
    case Decode => r.(decode := s)
    case Aggregated => r.(aggregated := s)
  }

  function HealthyOf(r: Readiness, role: Role): set<Address> {
    match role
    case Prefill => r.prefill
    case Decode => r.decode
    case Aggregated => r.aggregated
  }

  lemma SomeCommon(items: seq<Address>, healthy: set<Address>)
    ensures (set a | a in items && a in healthy) != {} <==> exists a :: a in items && a in healthy
  {
    var common := set a | a in items && a in healthy;
    if common != {} {
      var a :| a in common;
      assert a in items && a in healthy;
    } else {
      assert forall a :: a in items && a in healthy ==> a in common;
    }
  }

  class NodeDiscovery {
    const prefillInstances: AddressList
    const decodeInstances: AddressList
    const aggregatedInstances: AddressList
    var healthyPrefill: set<Address>
    var healthyDecode: set<Address>
    var healthyAggregated: set<Address>

    constructor (prefillInstances: AddressList, decodeInstances: AddressList, aggregatedInstances: AddressList)
      ensures this.prefillInstances == prefillInstances && this.decodeInstances == decodeInstances
      ensures this.aggregatedInstances == aggregatedInstances
      ensures Abs() == Readiness({}, {}, {}, aggregatedInstances.items)
    {
      this.prefillInstances, this.decodeInstances := prefillInstances, decodeInstances;
      this.aggregatedInstances := aggregatedInstances;
      healthyPrefill, healthyDecode, healthyAggregated := {}, {}, {};
    }

    ghost function Abs(): Readiness
      reads this, aggregatedInstances
    {
      Readiness(healthyPrefill, healthyDecode, healthyAggregated, aggregatedInstances.items)
    }

    function ListOf(role: Role): AddressList {
      match role
      case Prefill => prefillInstances
      case Decode => decodeInstances
      case Aggregated => aggregatedInstances
    }

    predicate Separate() {
      prefillInstances != decodeInstances && aggregatedInstances != prefillInstances && aggregatedInstances != decodeInstances
    }

    method AddInstance(role: Role, address: Address)
      requires Separate()
      modifies this, ListOf(role)
      ensures ListOf(role).items == if address in old(ListOf(role).items) then old(ListOf(role).items)
                                    else old(ListOf(role).items) + [address]
      ensures Abs() == WithHealthy(old(Abs()), role, HealthyOf(old(Abs()), role) + {address}).(list := aggregatedInstances.items)
    {
      if address !in ListOf(role).items {
        ListOf(role).Append(address);
      }
      match role
      case Prefill => healthyPrefill := healthyPrefill + {address};
      case Decode => healthyDecode := healthyDecode + {address};
      case Aggregated => healthyAggregated := healthyAggregated + {address};
    }

    method RemoveInstance(role: Role, address: Address)
      requires Separate()
      modifies this, ListOf(role)
      ensures ListOf(role).items == Without(old(ListOf(role).items), address)
      ensures Abs() == WithHealthy(old(Abs()), role, HealthyOf(old(Abs()), role) - {address}).(list := aggregatedInstances.items)
    {
      if address in ListOf(role).items {
        ListOf(role).Remove(address);
      }
      match role
      case Prefill => healthyPrefill := healthyPrefill - {address};
      case Decode => healthyDecode := healthyDecode - {address};
      case Aggregated => healthyAggregated := healthyAggregated - {address};
    }

    // A probe's result arrives; the instance may have been removed while it was awaited.
    method ProbeResult(role: Role, instance: Address, reply: Reply)
      requires Listing(prefillInstances.items, decodeInstances.items, Abs())
      modifies this
      ensures Listing(prefillInstances.items, decodeInstances.items, Abs())
      ensures var ok := instance in ListOf(role).items && reply == Answered(200);
              Abs() == WithHealthy(old(Abs()), role, if ok then HealthyOf(old(Abs()), role) + {instance}
                                                     else HealthyOf(old(Abs()), role) - {instance})
    {
      if reply.Failed? || instance !in ListOf(role).items || reply.status != 200 {
        Discard(role, instance);
        return;
      }
      match role
      case Prefill => healthyPrefill := healthyPrefill + {instance};
      case Decode => healthyDecode := healthyDecode + {instance};
      case Aggregated => healthyAggregated := healthyAggregated + {instance};
    }

    method Discard(role: Role, instance: Address)
      modifies this
      ensures Abs() == WithHealthy(old(Abs()), role, HealthyOf(old(Abs()), role) - {instance})
    {
      match role
      case Prefill => healthyPrefill := healthyPrefill - {instance};
      case Decode => healthyDecode := healthyDecode - {instance};
      case Aggregated => healthyAggregated := healthyAggregated - {instance};
    }

    // Enough healthy instances: a decode instance, and a prefill instance if any is listed;
    // or an aggregated instance.
    method IsReady() returns (ready: bool)
      ensures ready <==>
              || (&& (exists a :: a in decodeInstances.items && a in healthyDecode)
                  && (prefillInstances.items == [] || exists a :: a in prefillInstances.items && a in healthyPrefill))
              || (exists a :: a in aggregatedInstances.items && a in healthyAggregated)
    {
      var prefill := set a | a in prefillInstances.items && a in healthyPrefill;
      var decode := set a | a in decodeInstances.items && a in healthyDecode;
      var aggregated := set a | a in aggregatedInstances.items && a in healthyAggregated;
      var disaggregated := decodeInstances.items != [] && decode != {} && (prefillInstances.items == [] || prefill != {});
      ready := disaggregated || aggregated != {};
      SomeCommon(prefillInstances.items, healthyPrefill);
      SomeCommon(decodeInstances.items, healthyDecode);
      SomeCommon(aggregatedInstances.items, healthyAggregated);
    }
  }

  class HealthMonitor {
    var nodes: seq<Address>

    constructor (nodes: seq<Address>)
      ensures this.nodes == nodes
    {
      this.nodes := nodes;
    }

    method AddNode(address: Address)
      modifies this
      ensures nodes == if address in old(nodes) then old(nodes) else old(nodes) + [address]
    {
      if address !in nodes {
        nodes := nodes + [address];
      }
    }

    method RemoveNode(address: Address)
      modifies this
      ensures nodes == Without(old(nodes), address)
    {
      if address in nodes {
        nodes := Without(nodes, address);
      }
    }
  }
}
