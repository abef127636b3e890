/** The workers that a routing policy keeps beside the shared address lists: on a ring that
    skips taken points, on a ring that stacks them, or in a plain pool. */
module Workers {
  import opened Common
  import CH = ConsistentHash
  import CA = CacheAware
  import HashRing

  datatype Workforce =
    | Skipping(hash: (Address, nat) -> int, vnodes: nat, points: CH.Ring)
    | Stacking(hash: (Address, nat) -> int, vnodes: nat, stack: CA.Ring)
    | Pooled(pool: seq<Address>)

  function Members(f: Workforce): set<Address> {
    match f
    case Skipping(_, _, r) => r.workers
    case Stacking(_, _, r) => r.workers
    case Pooled(pool) => set a | a in pool
  }

  ghost predicate Sound(f: Workforce) {
    match f
    case Skipping(hash, vnodes, r) => CH.RingValid(hash, vnodes, r)
    case Stacking(hash, vnodes, r) => CA.RingValid(hash, vnodes, r)
    case Pooled(pool) => Distinct(pool)
  }

  ghost function Joined(f: Workforce, a: Address): Workforce {
    match f
    case Skipping(hash, vnodes, r) => Skipping(hash, vnodes, CH.AddTo(hash, vnodes, r, a))
    case Stacking(hash, vnodes, r) => Stacking(hash, vnodes, CA.AddTo(hash, vnodes, r, a))
    case Pooled(pool) => Pooled(if a in pool then pool else pool + [a])
  }

  // Joining, as far as it got when it raised: the worker and its first `n` points.
  ghost function PartlyJoined(f: Workforce, a: Address, n: nat): Workforce {
    match f
    case Skipping(hash, vnodes, r) => Skipping(hash, vnodes, CH.AddTo(hash, HashRing.UpTo(n, vnodes), r, a))
    case Stacking(hash, vnodes, r) => Stacking(hash, vnodes, CA.AddTo(hash, HashRing.UpTo(n, vnodes), r, a))
    case Pooled(_) => Joined(f, a)
  }

  ghost function Parted(f: Workforce, a: Address): Workforce {
    match f
    case Skipping(hash, vnodes, r) => Skipping(hash, vnodes, CH.RemoveFrom(r, a))
    case Stacking(hash, vnodes, r) => Stacking(hash, vnodes, CA.RemoveFrom(r, a))
    case Pooled(pool) => Pooled(Common.Without(pool, a))
  }

  /** Whatever the policy, a worker that joins and parts again leaves no trace. */
  lemma JoinedThenParted(f: Workforce, a: Address)
    requires Sound(f) && a !in Members(f)
    ensures Parted(Joined(f, a), a) == f
    ensures Sound(Joined(f, a)) && Members(Joined(f, a)) == Members(f) + {a}
  {
    match f
    case Skipping(hash, vnodes, r) => CH.AddThenRemove(hash, vnodes, r, a);
    case Stacking(hash, vnodes, r) =>
      CA.AddThenRemove(hash, vnodes, r, a);
      CA.AddKeepsValid(hash, vnodes, r, a);
    case Pooled(pool) => WithoutAppended(pool, a);
  }

  // The worker owns the point.
  ghost predicate OwnsPoint(f: Workforce, a: Address, key: int) {
    match f
    case Skipping(_, _, r) => key in r.owner && r.owner[key] == a
    case Stacking(_, _, r) => HashRing.Entry(key, a) in r.entries
    case Pooled(_) => false
  }

  ghost predicate IsTaken(f: Workforce, key: int) {
    f.Skipping? && key in f.points.owner
  }

  /** However far joining got, the worker owns just its first points, but for those that the
      ring that skips taken points had given away. */
  lemma PartlyJoinedOwns(f: Workforce, a: Address, n: nat, key: int)
    requires Sound(f) && a !in Members(f) && !f.Pooled?
    ensures OwnsPoint(PartlyJoined(f, a, n), a, key) <==>
            !IsTaken(f, key) && exists i: nat :: i < n && i < f.vnodes && f.hash(a, i) == key
  {
    var m := HashRing.UpTo(n, f.vnodes);
    assert key in HashRing.Points(f.hash, m, a) <==> exists i: nat :: i < n && i < f.vnodes && f.hash(a, i) == key;
    match f
    case Skipping(hash, vnodes, r) =>
    case Stacking(hash, vnodes, r) =>
      CA.OccursMeansPoint(hash, m, a, key);
      CA.InsertPointsCount(hash, m, r.entries, a, HashRing.Entry(key, a));
      CA.OwnersAreWorkers(hash, vnodes, r);
      assert multiset(CA.AddTo(hash, m, r, a).entries)[HashRing.Entry(key, a)] == CA.Occurrences(hash, m, a, key);
  }

  lemma PartlyJoinedMembers(f: Workforce, a: Address, n: nat)
    ensures Members(PartlyJoined(f, a, n)) == Members(f) + {a}
  {
  }

  /** However far joining got, parting leaves no trace of it either. */
  lemma PartlyJoinedThenParted(f: Workforce, a: Address, n: nat)
    requires Sound(f) && a !in Members(f)
    ensures Parted(PartlyJoined(f, a, n), a) == f
  {
    match f
    case Skipping(hash, vnodes, r) => CH.PartlyAddedThenRemoved(hash, vnodes, HashRing.UpTo(n, vnodes), r, a);
    case Stacking(hash, vnodes, r) =>
      CA.ValidIsTidy(hash, vnodes, r);
      CA.PartlyAddedThenRemoved(hash, HashRing.UpTo(n, vnodes), r, a);
    case Pooled(pool) => WithoutAppended(pool, a);
  }

  lemma PartedSound(f: Workforce, a: Address)
    requires Sound(f)
    ensures Sound(Parted(f, a)) && Members(Parted(f, a)) == Members(f) - {a}
  {
    match f
    case Skipping(_, _, _) =>
    case Stacking(hash, vnodes, r) => CA.RemoveKeepsValid(hash, vnodes, r, a);
    case Pooled(pool) => WithoutFacts(pool, a);
  }
}
