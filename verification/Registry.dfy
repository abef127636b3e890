/** The registry of instances: role, model, health status, active request count and
    circuit breaker of every address. */
module Registry {
  import opened Common
  import opened CircuitBreakers

  datatype Role = Prefill | Decode | Aggregated

  datatype Status = Unknown | Healthy | Unhealthy | Draining

  datatype Record = Record(role: Role, model: string, status: Status, active: int, breaker: Breaker)

  type Records = map<Address, Record>

  datatype Raised = Fine | KeyError | ValueError

  // ---------------------------------------------------------------- what the operations compute

  function WithActive(rs: Records, a: Address, n: int): Records
    requires a in rs
  {
    rs[a := rs[a].(active := n)]
  }

  function Incremented(rs: Records, a: Address): Records
    requires a in rs
  {
    WithActive(rs, a, rs[a].active + 1)
  }

  // The count is clamped at zero.
  function Decremented(rs: Records, a: Address): Records
    requires a in rs
  {
    WithActive(rs, a, if rs[a].active - 1 > 0 then rs[a].active - 1 else 0)
  }

  // A health result changes the status unless the instance is draining.
  function Marked(rs: Records, a: Address, healthy: bool): Records
    requires a in rs
  {
    if rs[a].status.Draining? then rs
    else rs[a := rs[a].(status := if healthy then Healthy else Unhealthy)]
  }

  // The two tables differ at most in the status of `a`.
  ghost predicate SameButStatus(rs: Records, rs': Records, a: Address) {
    && a in rs && rs'.Keys == rs.Keys
    && forall b :: b in rs ==> rs'[b] == if b == a then rs[b].(status := rs'[b].status) else rs[b]
  }

  lemma MarkedMeans(rs: Records, a: Address, healthy: bool)
    requires a in rs
    ensures SameButStatus(rs, Marked(rs, a, healthy), a)
    ensures Marked(rs, a, healthy)[a].status ==
            if rs[a].status == Draining then Draining else if healthy then Healthy else Unhealthy
  {
  }

  // The tests the availability filter makes before it looks at the breaker.
  predicate Matches(r: Record, role: Role, model: string) {
    r.role == role && (model == "" || r.model == model) && r.status.Healthy?
  }

  function AvailableSet(rs: Records, cbEnabled: bool, role: Role, model: string): set<Address> {
    set a | a in rs && Passes(rs[a], cbEnabled, role, model)
  }

  predicate Passes(r: Record, cbEnabled: bool, role: Role, model: string) {
    Matches(r, role, model) && (cbEnabled ==> r.breaker.phase.Closed?)
  }

  // Looking at an instance's breaker moves an expired one to half-open.
  function LookedAt(r: Record, c: Config, cbEnabled: bool, role: Role, model: string, now: real): Record {
    if cbEnabled && Matches(r, role, model) then r.(breaker := Observe(c, r.breaker, now)) else r
  }

  // The table once the instances in `seen` have been looked at.
  function Looked(rs: Records, c: Config, cbEnabled: bool, role: Role, model: string, now: real, seen: set<Address>): Records {
    map a | a in rs :: if a in seen then LookedAt(rs[a], c, cbEnabled, role, model, now) else rs[a]
  }

  // The two tables differ at most in the breakers.
  ghost predicate SameButBreakers(rs: Records, rs': Records) {
    && rs.Keys == rs'.Keys
    && forall a :: a in rs ==> rs'[a] == rs[a].(breaker := rs'[a].breaker)
  }

  // Who may be scheduled: the healthy instances of the role, serving the model if one is named,
  // with a closed breaker if breakers are enabled.
  predicate MayServe(rs: Records, cbEnabled: bool, role: Role, model: string, a: Address) {
    && a in rs
    && rs[a].role == role
    && rs[a].status == Healthy
    && (model != "" ==> rs[a].model == model)
    && (cbEnabled ==> rs[a].breaker.phase == Closed)
  }

  /** The filter lets exactly those through. */
  lemma AvailableExactly(rs: Records, cbEnabled: bool, role: Role, model: string, a: Address)
    ensures a in AvailableSet(rs, cbEnabled, role, model) <==> MayServe(rs, cbEnabled, role, model, a)
  {
  }

  // What looking at `now` makes of the breakers: an open one whose timeout has passed becomes
  // half-open if its instance is healthy, of the role and of the model named.
  ghost predicate LooksTo(c: Config, cbEnabled: bool, role: Role, model: string, now: real, rs: Records, rs': Records) {
    && SameButBreakers(rs, rs')
    && forall a :: a in rs ==>
         var b := rs[a].breaker;
         var due := cbEnabled && rs[a].role == role && rs[a].status == Healthy && (model != "" ==> rs[a].model == model)
                    && b.phase == Open && now >= b.openedAt + c.timeout;
         rs'[a].breaker == if due then Breaker(HalfOpen, b.failures, b.openedAt, 0, b.pending) else b
  }

  lemma LookedExactly(rs: Records, c: Config, cbEnabled: bool, role: Role, model: string, now: real)
    ensures LooksTo(c, cbEnabled, role, model, now, rs, Looked(rs, c, cbEnabled, role, model, now, rs.Keys))
  {
  }

  /** An open or half-open instance is never available, and looking never makes one so. */
  lemma LookingKeepsAvailability(rs: Records, c: Config, cbEnabled: bool, role: Role, model: string, now: real, seen: set<Address>)
    ensures var rs' := Looked(rs, c, cbEnabled, role, model, now, seen);
            SameButBreakers(rs, rs') && AvailableSet(rs', cbEnabled, role, model) == AvailableSet(rs, cbEnabled, role, model)
  {
  }

  // The elements of `s` in the order of `order`.
  function InOrder(order: seq<Address>, s: set<Address>): seq<Address> {
    if order == [] then []
    else InOrder(order[..|order| - 1], s) + if order[|order| - 1] in s then [order[|order| - 1]] else []
  }

  lemma {:induction false} InOrderFacts(order: seq<Address>, s: set<Address>)
    requires Distinct(order)
    ensures forall a :: a in InOrder(order, s) <==> a in order && a in s
    ensures Distinct(InOrder(order, s))
  {
    if order != [] {
      InOrderFacts(order[..|order| - 1], s);
    }
  }

  // Nor is anybody moved.
  ghost predicate FollowsOrder(order: seq<Address>, s: seq<Address>) {
    forall i, j :: 0 <= i < j < |s| ==> ComesBefore(order, s[i], s[j])
  }

  ghost predicate ComesBefore(order: seq<Address>, a: Address, b: Address) {
    exists p, q :: 0 <= p < q < |order| && order[p] == a && order[q] == b
  }

  lemma {:induction false} InOrderAscends(order: seq<Address>, s: set<Address>)
    ensures FollowsOrder(order, InOrder(order, s))
    ensures forall a :: a in InOrder(order, s) ==> a in order
  {
    if order != [] {
      var front, last := order[..|order| - 1], order[|order| - 1];
      InOrderAscends(front, s);
      var before, out := InOrder(front, s), InOrder(order, s);
      forall i, j | 0 <= i < j < |out| ensures ComesBefore(order, out[i], out[j]) {
        if j < |before| {
          assert ComesBefore(front, before[i], before[j]);
          var p, q :| 0 <= p < q < |front| && front[p] == before[i] && front[q] == before[j];
          assert order[p] == out[i] && order[q] == out[j];
        } else {
          assert before[i] in front;
          var p :| 0 <= p < |front| && front[p] == before[i];
          assert order[p] == out[i] && order[|order| - 1] == out[j];
        }
      }
    }
  }

  lemma InOrderStep(order: seq<Address>, n: nat, s: set<Address>)
    requires n < |order|
    ensures InOrder(order[..n + 1], s) == InOrder(order[..n], s) + if order[n] in s then [order[n]] else []
  {
    assert order[..n + 1][..n] == order[..n];
  }

  function Firsts(order: seq<Address>, n: nat): set<Address>
    requires n <= |order|
  {
    set i | 0 <= i < n :: order[i]
  }

  lemma FirstsNone(order: seq<Address>)
    ensures Firsts(order, 0) == {} && order[..0] == []
  {
  }

  lemma FirstsAll(order: seq<Address>, rs: Records)
    requires forall a :: a in order <==> a in rs
    ensures Firsts(order, |order|) == rs.Keys && order[..|order|] == order
  {
  }

  lemma LookedNone(rs: Records, c: Config, cbEnabled: bool, role: Role, model: string, now: real)
    ensures Looked(rs, c, cbEnabled, role, model, now, {}) == rs
  {
  }

  lemma LookedStep(
    rs: Records, c: Config, cbEnabled: bool, role: Role, model: string, now: real, order: seq<Address>, n: nat)
    requires n < |order| && Distinct(order) && order[n] in rs
    ensures var seen, a := Firsts(order, n), order[n];
            && Firsts(order, n + 1) == seen + {a}
            && Looked(rs, c, cbEnabled, role, model, now, seen + {a}) ==
               Looked(rs, c, cbEnabled, role, model, now, seen)[a := LookedAt(rs[a], c, cbEnabled, role, model, now)]
            && Looked(rs, c, cbEnabled, role, model, now, seen)[a] == rs[a]
  {
  }

  // The answer in terms of the records before and after.
  lemma AnswerMeans(
    rs: Records, order: seq<Address>, c: Config, cbEnabled: bool, role: Role, model: string, now: real, out: seq<Address>)
    requires Distinct(order) && (forall a :: a in order <==> a in rs)
    requires out == InOrder(order, AvailableSet(rs, cbEnabled, role, model))
    ensures var rs' := Looked(rs, c, cbEnabled, role, model, now, rs.Keys);
            && (forall a :: a in out <==> MayServe(rs, cbEnabled, role, model, a))
            && (forall a :: a in out <==> MayServe(rs', cbEnabled, role, model, a))
            && Distinct(out) && FollowsOrder(order, out)
            && LooksTo(c, cbEnabled, role, model, now, rs, rs')
  {
    InOrderFacts(order, AvailableSet(rs, cbEnabled, role, model));
    InOrderAscends(order, AvailableSet(rs, cbEnabled, role, model));
    LookedExactly(rs, c, cbEnabled, role, model, now);
    forall a ensures a in AvailableSet(rs, cbEnabled, role, model) <==> MayServe(rs, cbEnabled, role, model, a) {
      AvailableExactly(rs, cbEnabled, role, model, a);
    }
  }

  lemma ListedMayServe(order: seq<Address>, rs: Records, cbEnabled: bool, role: Role, model: string, a: Address)
    requires Distinct(order) && a in InOrder(order, AvailableSet(rs, cbEnabled, role, model))
    ensures MayServe(rs, cbEnabled, role, model, a)
  {
    InOrderFacts(order, AvailableSet(rs, cbEnabled, role, model));
    AvailableExactly(rs, cbEnabled, role, model, a);
  }

  // The breakers of the instances in `names` have seen a success.
  function Credited(rs: Records, c: Config, names: set<Address>, now: real): Records {
    map a | a in rs :: if a in names then rs[a].(breaker := Succeed(c, rs[a].breaker, now)) else rs[a]
  }

  // At most the breakers in `names` have been looked at.
  ghost predicate OnlyInspected(c: Config, now: real, names: set<Address>, rs: Records, rs': Records) {
    && SameButBreakers(rs, rs')
    && forall a :: a in rs ==>
         rs'[a].breaker == rs[a].breaker || (a in names && rs'[a].breaker == Observe(c, rs[a].breaker, now))
  }

  lemma InspectedNone(c: Config, now: real, rs: Records)
    ensures OnlyInspected(c, now, {}, rs, rs)
  {
  }

  // Looking twice at the same time is looking once.
  lemma InspectedThen(c: Config, now: real, m: set<Address>, n: set<Address>, rs: Records, rs': Records, rs'': Records)
    requires OnlyInspected(c, now, m, rs, rs') && OnlyInspected(c, now, n, rs', rs'')
    ensures OnlyInspected(c, now, m + n, rs, rs'')
  {
    forall a | a in rs
      ensures rs''[a].breaker == rs[a].breaker || (a in m + n && rs''[a].breaker == Observe(c, rs[a].breaker, now))
    {
      assert Observe(c, Observe(c, rs[a].breaker, now), now) == Observe(c, rs[a].breaker, now);
    }
  }

  // What a release's successes make of the breakers: each in `names` sees one success, the
  // others nothing.
  ghost predicate CreditsJust(c: Config, now: real, names: set<Address>, rs: Records, rs': Records) {
    && SameButBreakers(rs, rs')
    && forall a :: a in rs ==>
         if a in names then SucceedsTo(c, rs[a].breaker, now, rs'[a].breaker) else rs'[a] == rs[a]
  }

  lemma CreditedAfterLook(c: Config, now: real, names: set<Address>, rs: Records, rs': Records)
    requires OnlyInspected(c, now, names, rs, rs')
    ensures Credited(rs', c, names, now) == Credited(rs, c, names, now)
    ensures CreditsJust(c, now, names, rs, Credited(rs, c, names, now))
  {
    forall a | a in rs ensures SucceedsTo(c, rs[a].breaker, now, Succeed(c, rs[a].breaker, now)) {
      SuccessMeans(c, rs[a].breaker, now);
    }
  }

  // ---------------------------------------------------------------- the object

  class InstanceRegistry {
    const cbEnabled: bool
    const config: Config
    var instances: Records
    var order: seq<Address>            // the addresses as they were registered

    ghost predicate Valid()
      reads this
    {
      Distinct(order) && forall a :: a in order <==> a in instances
    }

    constructor (cbEnabled: bool, config: Config)
      ensures Valid() && this.cbEnabled == cbEnabled && this.config == config && instances == map[]
    {
      this.cbEnabled, this.config, instances, order := cbEnabled, config, map[], [];
    }

    method Add(role: Role, address: Address, model: string) returns (r: Raised)
      requires Valid()
      modifies this
      ensures Valid()
      ensures r == if address in old(instances) then ValueError else Fine
      ensures instances == if r.Fine? then old(instances)[address := Record(role, model, Unknown, 0, Initial)] else old(instances)
      ensures order == if r.Fine? then old(order) + [address] else old(order)
    {
      if address in instances {
        return ValueError;
      }
      instances := instances[address := Record(role, model, Unknown, 0, Initial)];
      order := order + [address];
      return Fine;
    }

    method Remove(address: Address) returns (r: Raised)
      requires Valid()
      modifies this
      ensures Valid()
      ensures r == if address in old(instances) then Fine else KeyError
      ensures instances == old(instances) - {address} && order == Without(old(order), address)
    {
      if address !in instances {
        return KeyError;
      }
      WithoutFacts(order, address);
      instances := instances - {address};
      order := Without(order, address);
      return Fine;
    }

    method BeginDraining(role: Role, address: Address) returns (r: Raised)
      requires Valid()
      modifies this
      ensures Valid() && order == old(order)
      ensures r == if address !in old(instances) then KeyError
                   else if old(instances)[address].role != role then ValueError else Fine
      ensures instances == if r.Fine? then old(instances)[address := old(instances)[address].(status := Draining)]
                           else old(instances)
    {
      if address !in instances {
        return KeyError;
      }
      if instances[address].role != role {
        return ValueError;
      }
      instances := instances[address := instances[address].(status := Draining)];
      return Fine;
    }

    // The addresses the filter lets through, as they were registered; the same loop serves
    // every role.
    method GetAvailableInstances(role: Role, model: string, now: real) returns (out: seq<Address>)
      requires Valid()
      modifies this
      ensures Valid() && order == old(order)
      ensures out == InOrder(order, AvailableSet(old(instances), cbEnabled, role, model))
      ensures instances == Looked(old(instances), config, cbEnabled, role, model, now, old(instances).Keys)
      ensures forall a :: a in out <==> MayServe(old(instances), cbEnabled, role, model, a)
      ensures forall a :: a in out <==> MayServe(instances, cbEnabled, role, model, a)
      ensures Distinct(out) && FollowsOrder(order, out)
      ensures LooksTo(config, cbEnabled, role, model, now, old(instances), instances)
    {
      out := [];
      ghost var before, all := instances, order;
      LookedNone(before, config, cbEnabled, role, model, now);
      FirstsNone(all);
      for n := 0 to |order|
        invariant Valid() && order == all
        invariant instances == Looked(before, config, cbEnabled, role, model, now, Firsts(all, n))
        invariant out == InOrder(all[..n], AvailableSet(before, cbEnabled, role, model))
      {
        out := CheckNext(before, n, out, role, model, now);
      }
      FirstsAll(all, before);
      AnswerMeans(before, all, config, cbEnabled, role, model, now, out);
    }

    // One turn of the loop.
    method CheckNext(ghost before: Records, n: nat, sofar: seq<Address>, role: Role, model: string, now: real)
      returns (out: seq<Address>)
      requires Valid() && n < |order|
      requires instances == Looked(before, config, cbEnabled, role, model, now, Firsts(order, n))
      requires sofar == InOrder(order[..n], AvailableSet(before, cbEnabled, role, model))
      modifies this
      ensures Valid() && order == old(order)
      ensures instances == Looked(before, config, cbEnabled, role, model, now, Firsts(order, n + 1))
      ensures out == InOrder(order[..n + 1], AvailableSet(before, cbEnabled, role, model))
    {
      assert order[n] in order && before.Keys == instances.Keys;
      LookedStep(before, config, cbEnabled, role, model, now, order, n);
      InOrderStep(order, n, AvailableSet(before, cbEnabled, role, model));
      var ok := Check(order[n], role, model, now);
      out := if ok then sofar + [order[n]] else sofar;
    }

    method Check(a: Address, role: Role, model: string, now: real) returns (ok: bool)
      requires a in instances
      requires Valid()
      modifies this
      ensures Valid() && order == old(order)
      ensures ok <==> Passes(old(instances)[a], cbEnabled, role, model)
      ensures instances == old(instances)[a := LookedAt(old(instances)[a], config, cbEnabled, role, model, now)]
    {
      var r := instances[a];
      if r.role != role {
        return false;
      }
      if model != "" && r.model != model {
        return false;
      }
      if r.status != Healthy {
        return false;
      }
      if cbEnabled {
        var b := Observe(config, r.breaker, now);
        instances := instances[a := r.(breaker := b)];
        if b.phase != Closed {
          return false;
        }
      }
      return true;
    }

    method MarkHealthy(address: Address) returns (r: Raised)
      requires Valid()
      modifies this
      ensures Valid() && order == old(order)
      ensures r == if address in old(instances) then Fine else KeyError
      ensures instances == if r.Fine? then Marked(old(instances), address, true) else old(instances)
      ensures r.Fine? ==>
                && SameButStatus(old(instances), instances, address)
                && instances[address].status == if old(instances)[address].status == Draining then Draining else Healthy
    {
      if address !in instances {
        return KeyError;
      }
      if instances[address].status != Draining {
        instances := instances[address := instances[address].(status := Healthy)];
      }
      return Fine;
    }

    method MarkUnhealthy(address: Address) returns (r: Raised)
      requires Valid()
      modifies this
      ensures Valid() && order == old(order)
      ensures r == if address in old(instances) then Fine else KeyError
      ensures instances == if r.Fine? then Marked(old(instances), address, false) else old(instances)
      ensures r.Fine? ==>
                && SameButStatus(old(instances), instances, address)
                && instances[address].status == if old(instances)[address].status == Draining then Draining else Unhealthy
    {
      if address !in instances {
        return KeyError;
      }
      if instances[address].status != Draining {
        instances := instances[address := instances[address].(status := Unhealthy)];
      }
      return Fine;
    }

    // A validated instance: added, and healthy at once.
    method AddHealthy(role: Role, address: Address, model: string)
      requires Valid() && address !in instances
      modifies this
      ensures Valid() && instances == old(instances)[address := Record(role, model, Healthy, 0, Initial)]
    {
      ghost var before := instances;
      var r := Add(role, address, model);
      r := MarkHealthy(address);
      assert instances == before[address := Record(role, model, Healthy, 0, Initial)];
    }

    // An instance known to be registered goes.
    method Drop(address: Address)
      requires Valid() && address in instances
      modifies this
      ensures Valid() && instances == old(instances) - {address}
    {
      var r := Remove(address);
    }

    method UpdateModel(address: Address, model: string) returns (r: Raised)
      requires Valid()
      modifies this
      ensures Valid() && order == old(order)
      ensures r == if address in old(instances) then Fine else KeyError
      ensures instances == if r.Fine? then old(instances)[address := old(instances)[address].(model := model)] else old(instances)
    {
      if address !in instances {
        return KeyError;
      }
      instances := instances[address := instances[address].(model := model)];
      return Fine;
    }

    method RecordSuccess(address: Address, now: real) returns (r: Raised)
      requires Valid()
      modifies this
      ensures Valid() && order == old(order)
      ensures r == if address in old(instances) then Fine else KeyError
      ensures instances == if r.Fine?
                           then var rec := old(instances)[address];
                                old(instances)[address := rec.(breaker := Succeed(config, rec.breaker, now))]
                           else old(instances)
    {
      if address !in instances {
        return KeyError;
      }
      var rec := instances[address];
      instances := instances[address := rec.(breaker := Succeed(config, rec.breaker, now))];
      return Fine;
    }

    method RecordFailure(address: Address, now: real, seen: real) returns (r: Raised)
      requires Valid()
      modifies this
      ensures Valid() && order == old(order)
      ensures r == if address in old(instances) then Fine else KeyError
      ensures instances == if r.Fine?
                           then var rec := old(instances)[address];
                                old(instances)[address := rec.(breaker := Fail(config, rec.breaker, now, seen))]
                           else old(instances)
    {
      if address !in instances {
        return KeyError;
      }
      var rec := instances[address];
      instances := instances[address := rec.(breaker := Fail(config, rec.breaker, now, seen))];
      return Fine;
    }

    method IncrementActiveRequests(address: Address) returns (r: Raised)
      requires Valid()
      modifies this
      ensures Valid() && order == old(order)
      ensures r == if address in old(instances) then Fine else KeyError
      ensures instances == if r.Fine? then Incremented(old(instances), address) else old(instances)
    {
      if address !in instances {
        return KeyError;
      }
      instances := instances[address := instances[address].(active := instances[address].active + 1)];
      return Fine;
    }

    method DecrementActiveRequests(address: Address) returns (r: Raised)
      requires Valid()
      modifies this
      ensures Valid() && order == old(order)
      ensures r == if address in old(instances) then Fine else KeyError
      ensures instances == if r.Fine? then Decremented(old(instances), address) else old(instances)
    {
      if address !in instances {
        return KeyError;
      }
      var n := instances[address].active - 1;
      instances := instances[address := instances[address].(active := if n > 0 then n else 0)];
      return Fine;
    }

    // A snapshot's model; taking one looks at the breaker.
    method GetInstanceModel(address: Address, now: real) returns (r: Raised, model: string)
      requires Valid()
      modifies this
      ensures Valid() && order == old(order)
      ensures r == if address in old(instances) then Fine else KeyError
      ensures !r.Fine? ==> instances == old(instances)
      ensures r.Fine? ==>
                var rec := old(instances)[address];
                model == rec.model && instances == old(instances)[address := rec.(breaker := Observe(config, rec.breaker, now))]
    {
      if address !in instances {
        return KeyError, "";
      }
      var rec := instances[address];
      instances := instances[address := rec.(breaker := Observe(config, rec.breaker, now))];
      return Fine, rec.model;
    }

    function GetActiveRequests(address: Address): int
      reads this
    {
      if address in instances then instances[address].active else 0
    }
  }
}
