/** The policies that keep workers of their own: consistent hashing, cache-aware routing and
    power of two choices. */
module Routing {
  import opened Common
  import opened Registry
  import opened Workers
  import HashRing
  import CH = ConsistentHash
  import CA = CacheAware
  import P2 = PowerOfTwo

  function ActiveIn(rs: Records, a: Address): int {
    if a in rs then rs[a].active else 0
  }

  // Unless it is the only one, another available instance has as many active requests.
  ghost predicate NotBusiest(rs: Records, available: set<Address>, a: Address) {
    available != {a} ==> exists b :: b in available && b != a && ActiveIn(rs, a) <= ActiveIn(rs, b)
  }

  // The answer of the ring reduced to the available instances.
  function RingPick(entries: seq<HashRing.Entry>, available: set<Address>, key: int): Option<Address> {
    HashRing.Lookup(HashRing.Keep(entries, HashRing.Among(available)), key)
  }

  datatype Router =
    | Hashing(ring: CH.ConsistentHashPolicy)
    | Caching(cache: CA.CacheAwarePolicy)
    | Sampling(sampler: P2.PowerOfTwoPolicy)
  {
    ghost function Object(): object {
      match this
      case Hashing(r) => r
      case Caching(c) => c.ring
      case Sampling(p) => p
    }

    ghost predicate Valid()
      reads Object()
    {
      match this
      case Hashing(r) => r.Valid()
      case Caching(c) => c.ring.Valid()
      case Sampling(p) => p.Valid()
    }

    ghost function Force(): Workforce
      reads Object()
    {
      match this
      case Hashing(r) => Skipping(r.hash, r.virtualNodes, r.Abs())
      case Caching(c) => Stacking(c.ring.hash, c.ring.vnodes, c.ring.Abs())
      case Sampling(p) => Pooled(p.workers)
    }

    ghost function Entries(): seq<HashRing.Entry>
      requires Valid()
      reads Object()
    {
      match this
      case Hashing(r) => r.Entries()
      case Caching(c) => c.ring.Entries()
      case Sampling(_) => []
    }

    method AddWorker(a: Address)
      requires Valid()
      modifies Object()
      ensures Valid() && Force() == Joined(old(Force()), a)
    {
      match this
      case Hashing(r) => r.AddWorker(a);
      case Caching(c) => c.AddWorker(a);
      case Sampling(p) => p.AddWorker(a);
    }

    // The addition, when it raises after `n` of the points.
    method AddPartly(a: Address, n: nat)
      requires Valid()
      modifies Object()
      ensures Valid() && Force() == PartlyJoined(old(Force()), a, n)
    {
      match this
      case Hashing(r) => r.AddFirst(a, HashRing.UpTo(n, r.virtualNodes));
      case Caching(c) => c.AddFirst(a, HashRing.UpTo(n, c.ring.vnodes));
      case Sampling(p) => p.AddWorker(a);
    }

    method RemoveWorker(a: Address)
      requires Valid()
      modifies Object()
      ensures Valid() && Force() == Parted(old(Force()), a)
    {
      match this
      case Hashing(r) => r.RemoveWorker(a);
      case Caching(c) => c.RemoveWorker(a);
      case Sampling(p) => p.RemoveWorker(a);
    }

    // Where the ring, or the sample, leads among the available instances.
    ghost predicate Picks(entries: seq<HashRing.Entry>, rs: Records, available: set<Address>, key: int, r: Option<Address>) {
      && (r.Some? ==> r.value in available)
      && (!Sampling? ==> r == RingPick(entries, available, key))
      && (!Sampling? ==> (r.None? <==> forall e :: e in entries ==> e.worker !in available))
      && (Sampling? ==> (r.None? <==> available == {}) && (r.Some? ==> NotBusiest(rs, available, r.value)))
    }

    method SelectFrom(registry: InstanceRegistry, available: set<Address>, key: int) returns (r: Option<Address>)
      requires Valid()
      ensures Picks(Entries(), registry.instances, available, key, r)
    {
      match this
      case Hashing(ring) =>
        HashRing.FilteredIsPlainAfterRemoval(ring.Entries(), key, HashRing.Among(available));
        r := ring.SelectFrom(available, key);
      case Caching(cache) =>
        r := cache.SelectFrom(available, key);
      case Sampling(sampler) =>
        r := SelectSampled(registry, sampler, available);
    }

    // The policy's own count of completed requests.
    method Completed(prefill: Option<Address>, decode: Option<Address>)
      requires Valid()
      modifies Object()
      ensures Valid() && Force() == old(Force())
    {
      if Sampling? {
        sampler.ScheduleCompletion(prefill, decode);
      }
    }
  }

  // One of two sampled instances, the one with fewer active requests.
  method SelectSampled(registry: InstanceRegistry, sampler: P2.PowerOfTwoPolicy, available: set<Address>)
    returns (r: Option<Address>)
    ensures r.None? <==> available == {}
    ensures r.Some? ==> r.value in available && NotBusiest(registry.instances, available, r.value)
  {
    if available == {} {
      return None;
    }
    var loads := map a | a in available :: registry.GetActiveRequests(a);
    var first :| first in available;
    var second := first;
    if available - {first} != {} {
      second :| second in available - {first};
    } else {
      assert available == {first};
    }
    r := sampler.SelectFrom(available, loads, first, second);
    P2.NeverTheBusiest(available, loads, first, second, r.value);
  }

  /** On the ring that stacks points, somebody is picked whenever somebody is available. */
  lemma StackedRingServesAll(hash: (Address, nat) -> int, vnodes: nat, r: CA.Ring, available: set<Address>)
    requires CA.RingValid(hash, vnodes, r) && vnodes > 0 && available <= r.workers && available != {}
    ensures !forall e :: e in r.entries ==> e.worker !in available
  {
    var a :| a in available;
    CA.EveryWorkerOwns(hash, vnodes, r, a);
  }
}
