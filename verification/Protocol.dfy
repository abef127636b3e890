/** The reservation, load-accounting and drain protocol as atomic steps between awaits:
    requests, health results, discovery, additions and drains interleave freely.

    `fallback` is the fixed set of models whose tokenizer could not be loaded; requests
    for them are scheduled round-robin, past the load balancer. */
module Protocol {
  import opened Common
  import opened CircuitBreakers
  import opened Registry
  import opened LoadBalancer
  import opened Leases

  // The drain in progress; whoever adds or drains holds the mutation lock.
  datatype Drain = Drain(role: Role, address: Address)

  datatype System = System(
    records: Records,
    prefill: Roster,
    decode: Roster,
    balanced: bool,            // the load-balanced policy is installed
    lock: Option<Drain>,
    leases: seq<Lease>)

  // The role's list and arrays.
  function RosterOf(s: System, role: Role): Roster
    requires !role.Aggregated?
  {
    if role.Prefill? then s.prefill else s.decode
  }

  predicate InRole(rs: Records, role: Role, a: Address) {
    a in rs && rs[a].role == role
  }

  // ---------------------------------------------------------------- the invariant

  ghost predicate Listed(s: System) {
    && Distinct(s.prefill.addresses) && Distinct(s.decode.addresses)
    && (forall a :: a in s.prefill.addresses <==> InRole(s.records, Prefill, a))
    && (forall a :: a in s.decode.addresses <==> InRole(s.records, Decode, a))
  }

  // The load balancer's arrays are as long as the lists.
  predicate Aligned(s: System) {
    s.balanced ==> Sized(s.prefill.pool, |s.prefill.addresses|) && Sized(s.decode.pool, |s.decode.addresses|)
  }

  ghost predicate Locked(s: System) {
    s.lock.Some? ==>
      var d := s.lock.value;
      d.address in s.records && s.records[d.address].role == d.role && s.records[d.address].status.Draining?
  }

  // What no step endangers: lists follow roles, arrays follow lists, the lock its instance.
  ghost predicate Shaped(s: System) {
    Listed(s) && Aligned(s) && Locked(s)
  }

  predicate Tracks(s: System, fallback: set<string>, role: Role, model: string) {
    s.balanced && !role.Aggregated? && model !in fallback
  }

  // The registry's count of `a` is its number of unreleased leases.
  ghost predicate CountOn(rs: Records, ls: seq<Lease>, a: Address) {
    a in rs ==> rs[a].active == Total(ls, Held(a))
  }

  // So are its array entries.
  ghost predicate BalancedOn(s: System, a: Address)
    requires Aligned(s)
  {
    s.balanced ==> AgreesOn(s.prefill, s.leases, a) && AgreesOn(s.decode, s.leases, a)
  }

  // Count and array entries of `a` are right, whatever its leases' models.
  ghost predicate Tallied(s: System, a: Address)
    requires Aligned(s)
  {
    CountOn(s.records, s.leases, a) && BalancedOn(s, a)
  }

  // The lease is on a registered instance of its role, and was counted by the load balancer
  // exactly when its completion will be reported to it.
  ghost predicate Backed(s: System, fallback: set<string>, l: Lease) {
    && l.address in s.records
    && l.role == s.records[l.address].role
    && (l.tracked <==> Tracks(s, fallback, l.role, s.records[l.address].model))
  }

  ghost predicate BackedOn(s: System, fallback: set<string>, a: Address) {
    forall k :: 0 <= k < |s.leases| && !s.leases[k].released && s.leases[k].address == a ==> Backed(s, fallback, s.leases[k])
  }

  // Registry, arrays and leases agree about `a`.
  ghost predicate InStep(s: System, fallback: set<string>, a: Address)
    requires Aligned(s)
  {
    Tallied(s, a) && BackedOn(s, fallback, a)
  }

  // They agree about every address.
  ghost predicate Inv(s: System, fallback: set<string>) {
    Shaped(s) && forall a :: InStep(s, fallback, a)
  }

  // ---------------------------------------------------------------- steps

  // An instance has been chosen: the policy's counters, then the registry's.
  function Scheduled(s: System, role: Role, a: Address, length: int, tracked: bool): System
    requires a in s.records && Aligned(s)
    requires tracked ==> s.balanced && !role.Aggregated? && a in RosterOf(s, role).addresses
  {
    var t := s.(records := Incremented(s.records, a), leases := s.leases + [Lease(role, a, length, tracked, false)]);
    if !tracked then t
    else if role.Prefill? then t.(prefill := s.prefill.(pool := Bump(s.prefill.pool, IndexOf(s.prefill.addresses, a), length)))
    else t.(decode := s.decode.(pool := Bump(s.decode.pool, IndexOf(s.decode.addresses, a), length)))
  }

  // Neither the registry nor a list raises when the lease is released.
  predicate CanRelease(s: System, k: nat) {
    && k < |s.leases| && s.leases[k].address in s.records && Aligned(s)
    && (!s.leases[k].role.Aggregated? ==> s.leases[k].address in RosterOf(s, s.leases[k].role).addresses)
  }

  // A release that the registry hears of, and the policy does not.
  function Quiet(s: System, k: nat): System
    requires k < |s.leases| && s.leases[k].address in s.records
  {
    s.(records := Decremented(s.records, s.leases[k].address), leases := MarkReleased(s.leases, k))
  }

  // The load balancer's part of a completion.
  function CompletedIn(s: System, k: nat): System
    requires CanRelease(s, k) && s.balanced && !s.leases[k].role.Aggregated?
  {
    var l := s.leases[k];
    if l.role.Prefill? then
      s.(prefill := s.prefill.(pool := Complete(s.prefill.pool, IndexOf(s.prefill.addresses, l.address), l.length)))
    else
      s.(decode := s.decode.(pool := Complete(s.decode.pool, IndexOf(s.decode.addresses, l.address), l.length)))
  }

  // A release that both hear of.
  function Told(s: System, k: nat): System
    requires CanRelease(s, k) && s.balanced && !s.leases[k].role.Aggregated?
  {
    Quiet(CompletedIn(s, k), k)
  }

  // Releasing one lease: the registry's count, then the policy unless the instance's
  // model is one of the fallback models.  Whatever raises ends it there.
  function Released(s: System, fallback: set<string>, k: nat): System
    requires k < |s.leases|
  {
    var l := s.leases[k];
    if l.address !in s.records then s
    else if Tracks(s, fallback, l.role, s.records[l.address].model) && CanRelease(s, k) then Told(s, k)
    else Quiet(s, k)
  }

  // Both instances' models are fallback models.
  predicate Silent(s: System, fallback: set<string>, a: Address, b: Address)
    requires a in s.records && b in s.records
  {
    s.records[a].model in fallback && s.records[b].model in fallback
  }

  // Releasing a request's prefill and decode leases in one call: both counts, then the
  // policy is told of both unless both instances' models are fallback models.
  function ReleasedBoth(s: System, fallback: set<string>, p: nat, d: nat): System
    requires p < |s.leases| && d < |s.leases| && p != d && Aligned(s)
    requires s.leases[p].role.Prefill? && s.leases[d].role.Decode?
  {
    var a, b := s.leases[p].address, s.leases[d].address;
    if a !in s.records then s
    else if b !in s.records then Quiet(s, p)
    else if !s.balanced || Silent(s, fallback, a, b) || !CanRelease(s, p) then Quiet(Quiet(s, p), d)
    else if !CanRelease(s, d) then Quiet(Told(s, p), d)
    else Told(Told(s, p), d)
  }

  // Completing an aggregated request, and completing it again at once.
  function ReleasedTwice(s: System, fallback: set<string>, k: nat): System
    requires k < |s.leases|
  {
    var t := Released(s, fallback, k);
    Again(t, k)
  }

  // The registry's count is lowered once more.
  function Again(s: System, k: nat): System
    requires k < |s.leases|
  {
    var a := s.leases[k].address;
    if a in s.records then s.(records := Decremented(s.records, a)) else s
  }

  function Added(s: System, role: Role, a: Address, model: string, limit: int): System
    requires Aligned(s)
  {
    var t := s.(records := s.records[a := Record(role, model, Healthy, 0, Initial)]);
    match role
    case Prefill => t.(prefill := Roster(s.prefill.addresses + [a], if s.balanced then Extend(s.prefill.pool, limit) else s.prefill.pool))
    case Decode => t.(decode := Roster(s.decode.addresses + [a], if s.balanced then Extend(s.decode.pool, limit) else s.decode.pool))
    case Aggregated => t
  }

  function DrainBegun(s: System, role: Role, a: Address): System {
    if InRole(s.records, role, a) then
      s.(records := s.records[a := s.records[a].(status := Draining)], lock := Some(Drain(role, a)))
    else s
  }

  predicate CanRemove(s: System, role: Role, a: Address) {
    && InRole(s.records, role, a)
    && (!role.Aggregated? ==> a in RosterOf(s, role).addresses)
    && Aligned(s)
  }

  function Removed(s: System, role: Role, a: Address): System
    requires CanRemove(s, role, a)
  {
    var t := s.(records := s.records - {a}, lock := None);
    match role
    case Prefill =>
      t.(prefill := Roster(Without(s.prefill.addresses, a),
                           if s.balanced then Shrink(s.prefill.pool, IndexOf(s.prefill.addresses, a)) else s.prefill.pool))
    case Decode =>
      t.(decode := Roster(Without(s.decode.addresses, a),
                          if s.balanced then Shrink(s.decode.pool, IndexOf(s.decode.addresses, a)) else s.decode.pool))
    case Aggregated => t
  }

  // ---------------------------------------------------------------- the shape

  // Neither lists nor lock depend on counts, breakers or leases.
  lemma ShapeKept(s: System, t: System)
    requires Shaped(s) && Aligned(t) && t.records.Keys == s.records.Keys
    requires forall a :: a in s.records ==>
               t.records[a].role == s.records[a].role && (s.records[a].status.Draining? ==> t.records[a].status.Draining?)
    requires t.prefill.addresses == s.prefill.addresses && t.decode.addresses == s.decode.addresses
    requires t.lock == s.lock
    ensures Shaped(t)
  {
    assert forall r, b :: InRole(t.records, r, b) <==> InRole(s.records, r, b);
  }

  lemma ListedIn(s: System, role: Role, a: Address)
    requires Listed(s) && InRole(s.records, role, a)
    ensures !role.Aggregated? ==> a in RosterOf(s, role).addresses
    ensures !role.Prefill? ==> a !in s.prefill.addresses
    ensures !role.Decode? ==> a !in s.decode.addresses
  {
    assert !role.Prefill? ==> !InRole(s.records, Prefill, a);
    assert !role.Decode? ==> !InRole(s.records, Decode, a);
  }

  lemma ScheduledShape(s: System, role: Role, a: Address, length: int, tracked: bool)
    requires Shaped(s) && InRole(s.records, role, a) && (tracked ==> s.balanced && !role.Aggregated?)
    ensures tracked ==> a in RosterOf(s, role).addresses
    ensures Shaped(Scheduled(s, role, a, length, tracked))
  {
    ListedIn(s, role, a);
    ShapeKept(s, Scheduled(s, role, a, length, tracked));
  }

  lemma QuietShape(s: System, k: nat)
    requires Shaped(s) && k < |s.leases| && s.leases[k].address in s.records
    ensures Shaped(Quiet(s, k))
  {
    ShapeKept(s, Quiet(s, k));
  }

  lemma ToldShape(s: System, k: nat)
    requires Shaped(s) && CanRelease(s, k) && s.balanced && !s.leases[k].role.Aggregated?
    ensures Shaped(Told(s, k))
  {
    ShapeKept(s, Told(s, k));
  }

  lemma ReleasedShape(s: System, fallback: set<string>, k: nat)
    requires Shaped(s) && k < |s.leases|
    ensures Shaped(Released(s, fallback, k))
  {
    if s.leases[k].address in s.records {
      QuietShape(s, k);
      if CanRelease(s, k) && s.balanced && !s.leases[k].role.Aggregated? {
        ToldShape(s, k);
      }
    }
  }

  lemma AgainShape(s: System, k: nat)
    requires Shaped(s) && k < |s.leases|
    ensures Shaped(Again(s, k))
  {
    ShapeKept(s, Again(s, k));
  }

  lemma ReleasedBothShape(s: System, fallback: set<string>, p: nat, d: nat)
    requires Shaped(s) && p < |s.leases| && d < |s.leases| && p != d
    requires s.leases[p].role.Prefill? && s.leases[d].role.Decode?
    ensures Shaped(ReleasedBoth(s, fallback, p, d))
  {
    var a, b := s.leases[p].address, s.leases[d].address;
    if a in s.records {
      QuietShape(s, p);
      if b in s.records {
        QuietShape(Quiet(s, p), d);
        if s.balanced && CanRelease(s, p) {
          ToldShape(s, p);
          QuietShape(Told(s, p), d);
          if CanRelease(s, d) {
            ToldShape(Told(s, p), d);
          }
        }
      }
    }
  }

  lemma AddedShape(s: System, role: Role, a: Address, model: string, limit: int)
    requires Shaped(s) && a !in s.records
    ensures a !in s.prefill.addresses && a !in s.decode.addresses
    ensures Shaped(Added(s, role, a, model, limit))
  {
    assert !InRole(s.records, Prefill, a) && !InRole(s.records, Decode, a);
    var t := Added(s, role, a, model, limit);
    assert forall r, b :: InRole(t.records, r, b) <==> InRole(s.records, r, b) || (r == role && b == a);
  }

  lemma RemovedShape(s: System, role: Role, a: Address)
    requires Shaped(s) && InRole(s.records, role, a)
    ensures CanRemove(s, role, a) && Shaped(Removed(s, role, a))
  {
    ListedIn(s, role, a);
    WithoutFacts(s.prefill.addresses, a);
    WithoutFacts(s.decode.addresses, a);
    WithoutIsDeleteAtIn(s, role, a);
    assert forall r, b :: InRole(Removed(s, role, a).records, r, b) <==> InRole(s.records, r, b) && b != a;
  }

  lemma WithoutIsDeleteAtIn(s: System, role: Role, a: Address)
    requires !role.Aggregated? ==> a in RosterOf(s, role).addresses
    ensures !role.Aggregated? ==> |Without(RosterOf(s, role).addresses, a)| == |RosterOf(s, role).addresses| - 1
  {
    if !role.Aggregated? {
      WithoutIsDeleteAt(RosterOf(s, role).addresses, a);
    }
  }
}
