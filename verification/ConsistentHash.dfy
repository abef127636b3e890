/** The consistent-hash policy's ring: strictly sorted points plus a map from point to
    owner.  A point already taken is skipped when a worker is added. */
module ConsistentHash {
  import opened Common
  import opened HashRing

  datatype Ring = Ring(owner: map<int, Address>, workers: set<Address>)

  const EmptyRing := Ring(map[], {})

  // `w` takes those of the points that nobody has yet.
  function Claim(owner: map<int, Address>, points: set<int>, w: Address): map<int, Address> {
    owner + (map h | h in points && h !in owner :: w)
  }

  // `w` gives up those of the points that are its own.
  function Yield(owner: map<int, Address>, points: set<int>, w: Address): map<int, Address> {
    map h | h in owner && (owner[h] != w || h !in points) :: owner[h]
  }

  function AddTo(hash: (Address, nat) -> int, vnodes: nat, r: Ring, w: Address): Ring {
    if w in r.workers then r
    else Ring(Claim(r.owner, Points(hash, vnodes, w), w), r.workers + {w})
  }

  function RemoveFrom(r: Ring, w: Address): Ring {
    if w !in r.workers then r
    else Ring(map h | h in r.owner && r.owner[h] != w :: r.owner[h], r.workers - {w})
  }

  ghost predicate RingValid(hash: (Address, nat) -> int, vnodes: nat, r: Ring) {
    forall h :: h in r.owner ==> r.owner[h] in r.workers && h in Points(hash, vnodes, r.owner[h])
  }

  // The sorted entries of a point map.
  ghost predicate Represents(es: seq<Entry>, owner: map<int, Address>) {
    && StrictlySorted(es)
    && forall e :: e in es <==> e.key in owner && owner[e.key] == e.worker
  }

  /** Adding a worker that is absent and then removing it is the identity, whatever
      collisions there are. */
  lemma AddThenRemove(hash: (Address, nat) -> int, vnodes: nat, r: Ring, w: Address)
    requires RingValid(hash, vnodes, r) && w !in r.workers
    ensures RemoveFrom(AddTo(hash, vnodes, r, w), w) == r
    ensures RingValid(hash, vnodes, AddTo(hash, vnodes, r, w))
  {
    PartlyAddedThenRemoved(hash, vnodes, vnodes, r, w);
  }

  // So is adding some of its points only.
  lemma PartlyAddedThenRemoved(hash: (Address, nat) -> int, vnodes: nat, n: nat, r: Ring, w: Address)
    requires RingValid(hash, vnodes, r) && w !in r.workers
    ensures RemoveFrom(AddTo(hash, n, r, w), w) == r
  {
    var added := AddTo(hash, n, r, w);
    var back := RemoveFrom(added, w);
    assert back.workers == r.workers;
    assert forall h :: h in r.owner ==> h in added.owner && added.owner[h] == r.owner[h] != w;
    assert forall h :: h in added.owner && h !in r.owner ==> added.owner[h] == w;
    assert back.owner == r.owner;
  }

  lemma RemovalKeeps(r: Ring, w: Address, es: seq<Entry>, es': seq<Entry>)
    requires Represents(es, r.owner) && Represents(es', RemoveFrom(r, w).owner)
    requires w in r.workers
    ensures es' == Keep(es, Outside(w))
  {
    KeepStrict(es, Outside(w));
    KeepMembers(es, Outside(w));
    StrictUnique(es', Keep(es, Outside(w)));
  }

  /** Removing a worker changes the answer only of keys it owned. */
  lemma RemovalDisruption(r: Ring, w: Address, es: seq<Entry>, es': seq<Entry>, key: int)
    requires Represents(es, r.owner) && Represents(es', RemoveFrom(r, w).owner)
    ensures Lookup(es, key) != Some(w) ==> Lookup(es', key) == Lookup(es, key)
  {
    if w in r.workers {
      RemovalKeeps(r, w, es, es');
      MinimalDisruption(es, w, key);
    } else {
      StrictUnique(es, es');
    }
  }

  /** Adding a worker changes an answer only to that worker. */
  lemma AdditionDisruption(
    hash: (Address, nat) -> int, vnodes: nat, r: Ring, w: Address, es: seq<Entry>, es': seq<Entry>, key: int)
    requires RingValid(hash, vnodes, r) && Represents(es, r.owner)
    requires Represents(es', AddTo(hash, vnodes, r, w).owner)
    ensures Lookup(es', key) == Some(w) || Lookup(es', key) == Lookup(es, key)
  {
    if w in r.workers {
      StrictUnique(es, es');
    } else {
      AddThenRemove(hash, vnodes, r, w);
      RemovalKeeps(AddTo(hash, vnodes, r, w), w, es', es);
      MinimalDisruption(es', w, key);
    }
  }

  // ---------------------------------------------------------------- histories

  function RunOps(hash: (Address, nat) -> int, vnodes: nat, ops: seq<Op>): Ring {
    if ops == [] then EmptyRing
    else
      var r := RunOps(hash, vnodes, ops[..|ops| - 1]);
      match ops[|ops| - 1]
      case Add(w) => AddTo(hash, vnodes, r, w)
      case Remove(w) => RemoveFrom(r, w)
  }

  // The current workers own exactly their points.
  ghost predicate OwnsAll(hash: (Address, nat) -> int, vnodes: nat, r: Ring) {
    && RingValid(hash, vnodes, r)
    && forall w, h :: w in r.workers && h in Points(hash, vnodes, w) ==> h in r.owner && r.owner[h] == w
  }

  lemma AddOwnsAll(hash: (Address, nat) -> int, vnodes: nat, r: Ring, w: Address)
    requires OwnsAll(hash, vnodes, r) && NoCrossCollision(hash, vnodes, r.workers + {w})
    ensures OwnsAll(hash, vnodes, AddTo(hash, vnodes, r, w))
  {
    if w !in r.workers {
      var all := r.workers + {w};
      forall h | h in Points(hash, vnodes, w) ensures h !in r.owner {
        forall v | v in r.workers ensures h !in Points(hash, vnodes, v) {
          assert Points(hash, vnodes, v) !! Points(hash, vnodes, w);
        }
      }
    }
  }

  lemma RemoveOwnsAll(hash: (Address, nat) -> int, vnodes: nat, r: Ring, w: Address)
    requires OwnsAll(hash, vnodes, r)
    ensures OwnsAll(hash, vnodes, RemoveFrom(r, w))
  {
  }

  /** As long as no two workers of the history share a point, the point map is exactly
      the points of the current workers. */
  lemma {:induction false} StateIsWorkersPoints(hash: (Address, nat) -> int, vnodes: nat, ops: seq<Op>, all: set<Address>)
    requires NoCrossCollision(hash, vnodes, all) && forall op :: op in ops ==> op.worker in all
    ensures RunOps(hash, vnodes, ops).workers <= all
    ensures OwnsAll(hash, vnodes, RunOps(hash, vnodes, ops))
  {
    if ops != [] {
      var front, op := ops[..|ops| - 1], ops[|ops| - 1];
      StateIsWorkersPoints(hash, vnodes, front, all);
      assert op in ops;
      if op.Add? {
        AddOwnsAll(hash, vnodes, RunOps(hash, vnodes, front), op.worker);
      } else {
        RemoveOwnsAll(hash, vnodes, RunOps(hash, vnodes, front), op.worker);
      }
    }
  }

  /** Without cross-worker collisions the state depends only on the worker set. */
  lemma StateDependsOnlyOnWorkers(
    hash: (Address, nat) -> int, vnodes: nat, ops1: seq<Op>, ops2: seq<Op>, all: set<Address>)
    requires NoCrossCollision(hash, vnodes, all)
    requires forall op :: op in ops1 || op in ops2 ==> op.worker in all
    requires RunOps(hash, vnodes, ops1).workers == RunOps(hash, vnodes, ops2).workers
    ensures RunOps(hash, vnodes, ops1) == RunOps(hash, vnodes, ops2)
  {
    StateIsWorkersPoints(hash, vnodes, ops1, all);
    StateIsWorkersPoints(hash, vnodes, ops2, all);
    SameRing(hash, vnodes, RunOps(hash, vnodes, ops1), RunOps(hash, vnodes, ops2));
  }

  lemma SameRing(hash: (Address, nat) -> int, vnodes: nat, r: Ring, s: Ring)
    requires OwnsAll(hash, vnodes, r) && OwnsAll(hash, vnodes, s) && r.workers == s.workers
    ensures r == s
  {
    OwnerFollows(hash, vnodes, r, s);
    OwnerFollows(hash, vnodes, s, r);
    assert r.owner.Keys == s.owner.Keys;
    assert forall h :: h in r.owner ==> r.owner[h] == s.owner[h];
  }

  lemma OwnerFollows(hash: (Address, nat) -> int, vnodes: nat, r: Ring, s: Ring)
    requires OwnsAll(hash, vnodes, r) && OwnsAll(hash, vnodes, s) && r.workers == s.workers
    ensures r.owner.Keys <= s.owner.Keys
    ensures forall h :: h in r.owner && h in s.owner ==> s.owner[h] == r.owner[h]
  {
    forall h | h in r.owner ensures h in s.owner && s.owner[h] == r.owner[h] {
      assert r.owner[h] in s.workers && h in Points(hash, vnodes, r.owner[h]);
    }
  }

  /** With a collision the history matters: the loser of a point does not get it back
      when the winner leaves. */
  lemma CollisionLosesPoint(hash: (Address, nat) -> int, v: Address, w: Address)
    requires v != w && hash(v, 0) == hash(w, 0)
    ensures var alone := AddTo(hash, 1, EmptyRing, w);
            var left := RemoveFrom(AddTo(hash, 1, AddTo(hash, 1, EmptyRing, v), w), v);
            left.workers == alone.workers && left.owner == map[] && alone.owner == map[hash(w, 0) := w]
  {
    var h := hash(w, 0);
    assert Points(hash, 1, v) == {h} && Points(hash, 1, w) == {h};
    assert AddTo(hash, 1, EmptyRing, v).owner == map[h := v];
    assert AddTo(hash, 1, EmptyRing, w).owner == map[h := w];
  }

  // ---------------------------------------------------------------- one virtual node at a time

  lemma PointsStep(hash: (Address, nat) -> int, n: nat, w: Address)
    ensures Points(hash, 0, w) == {}
    ensures Points(hash, n + 1, w) == Points(hash, n, w) + {hash(w, n)}
  {
  }

  lemma ClaimStep(owner: map<int, Address>, points: set<int>, h: int, w: Address)
    ensures Claim(owner, {}, w) == owner
    ensures var m := Claim(owner, points, w);
            Claim(owner, points + {h}, w) == if h in m then m else m[h := w]
  {
  }

  lemma YieldStep(owner: map<int, Address>, points: set<int>, h: int, w: Address)
    ensures Yield(owner, {}, w) == owner
    ensures var m := Yield(owner, points, w);
            Yield(owner, points + {h}, w) == if h in m && m[h] == w then map k | k in m && k != h :: m[k] else m
  {
  }

  lemma YieldAll(hash: (Address, nat) -> int, vnodes: nat, r: Ring, w: Address)
    requires RingValid(hash, vnodes, r) && w in r.workers
    ensures Yield(r.owner, Points(hash, vnodes, w), w) == RemoveFrom(r, w).owner
    ensures RingValid(hash, vnodes, RemoveFrom(r, w))
  {
    forall h | h in r.owner && r.owner[h] == w ensures h in Points(hash, vnodes, w) {
    }
  }

  // ---------------------------------------------------------------- sorted points

  // The sorted points are the domain of the map.
  ghost predicate KeysMatch(keys: seq<int>, owner: map<int, Address>) {
    && (forall i, j :: 0 <= i < j < |keys| ==> keys[i] < keys[j])
    && (forall i :: 0 <= i < |keys| ==> keys[i] in owner)
    && (forall h :: h in owner ==> h in keys)
  }

  function Zip(keys: seq<int>, owner: map<int, Address>): seq<Entry>
    requires forall i :: 0 <= i < |keys| ==> keys[i] in owner
  {
    seq(|keys|, i requires 0 <= i < |keys| => Entry(keys[i], owner[keys[i]]))
  }

  lemma ZipRepresents(keys: seq<int>, owner: map<int, Address>)
    requires KeysMatch(keys, owner)
    ensures Represents(Zip(keys, owner), owner) && Sorted(Zip(keys, owner))
  {
    var es := Zip(keys, owner);
    forall e: Entry | e.key in owner && owner[e.key] == e.worker ensures e in es {
      var i :| 0 <= i < |keys| && keys[i] == e.key;
      assert es[i] == e;
    }
  }

  lemma InsertPoint(keys: seq<int>, owner: map<int, Address>, idx: nat, h: int, w: Address)
    requires KeysMatch(keys, owner) && h !in owner && idx <= |keys|
    requires forall i :: 0 <= i < idx ==> keys[i] <= h
    requires forall i :: idx <= i < |keys| ==> keys[i] > h
    ensures KeysMatch(InsertAt(keys, idx, h), owner[h := w])
  {
    InsertedAscending(keys, idx, h);
    InsertedKeys(keys, idx, h);
  }

  lemma InsertedKeys(keys: seq<int>, idx: nat, h: int)
    requires idx <= |keys|
    ensures forall k :: k in InsertAt(keys, idx, h) <==> k in keys || k == h
  {
    forall k ensures k in InsertAt(keys, idx, h) <==> k in keys || k == h {
      InsertAtCounts(keys, idx, h);
      assert k in InsertAt(keys, idx, h) <==> multiset(InsertAt(keys, idx, h))[k] > 0;
      assert k in keys <==> multiset(keys)[k] > 0;
    }
  }

  // A key that is not there goes between the smaller and the greater ones.
  lemma InsertedAscending(keys: seq<int>, idx: nat, h: int)
    requires forall i, j :: 0 <= i < j < |keys| ==> keys[i] < keys[j]
    requires idx <= |keys| && h !in keys
    requires forall i :: 0 <= i < idx ==> keys[i] <= h
    requires forall i :: idx <= i < |keys| ==> keys[i] > h
    ensures var after := InsertAt(keys, idx, h);
            forall i, j :: 0 <= i < j < |after| ==> after[i] < after[j]
  {
  }

  lemma DeletePoint(keys: seq<int>, owner: map<int, Address>, idx: nat, h: int)
    requires KeysMatch(keys, owner) && idx < |keys| && keys[idx] == h
    ensures KeysMatch(DeleteAt(keys, idx), map k | k in owner && k != h :: owner[k])
  {
    DeletedAscending(keys, idx);
    assert keys == keys[..idx] + [h] + keys[idx + 1..];
    forall k | k in owner && k != h ensures k in DeleteAt(keys, idx) {
      assert k in keys;
    }
  }

  lemma DeletedAscending(keys: seq<int>, idx: nat)
    requires idx < |keys| && forall i, j :: 0 <= i < j < |keys| ==> keys[i] < keys[j]
    ensures var after := DeleteAt(keys, idx);
            && (forall i, j :: 0 <= i < j < |after| ==> after[i] < after[j])
            && (forall i :: 0 <= i < |after| ==> after[i] in keys && after[i] != keys[idx])
  {
  }

  lemma BisectFinds(keys: seq<int>, h: int, idx: nat)
    requires h in keys && idx <= |keys|
    requires forall i :: 0 <= i < idx ==> keys[i] < h
    requires forall i, j :: 0 <= i < j < |keys| ==> keys[i] < keys[j]
    requires forall i :: idx <= i < |keys| ==> keys[i] >= h
    ensures idx < |keys| && keys[idx] == h
  {
    var j :| 0 <= j < |keys| && keys[j] == h;
    assert idx <= j;
  }

  // ---------------------------------------------------------------- the object

  class ConsistentHashPolicy {
    const virtualNodes: nat
    const hash: (Address, nat) -> int
    var ringKeys: seq<int>
    var ringMap: map<int, Address>
    var workers: set<Address>

    ghost function Abs(): Ring
      reads this
    {
      Ring(ringMap, workers)
    }

    ghost predicate Valid()
      reads this
    {
      KeysMatch(ringKeys, ringMap) && RingValid(hash, virtualNodes, Abs())
    }

    function Entries(): seq<Entry>
      requires KeysMatch(ringKeys, ringMap)
      reads this
    {
      Zip(ringKeys, ringMap)
    }

    constructor (hash: (Address, nat) -> int, virtualNodes: nat)
      ensures this.hash == hash && this.virtualNodes == virtualNodes
      ensures Valid() && Abs() == EmptyRing
    {
      this.hash := hash;
      this.virtualNodes := virtualNodes;
      ringKeys, ringMap, workers := [], map[], {};
    }

    method AddWorker(addr: Address)
      requires Valid()
      modifies this
      ensures Valid() && Abs() == AddTo(hash, virtualNodes, old(Abs()), addr)
    {
      AddFirst(addr, virtualNodes);
    }

    // The addition, when it raises after `count` of the points.
    method AddFirst(addr: Address, count: nat)
      requires Valid() && count <= virtualNodes
      modifies this
      ensures Valid() && Abs() == AddTo(hash, count, old(Abs()), addr)
    {
      if addr in workers {
        return;
      }
      workers := workers + {addr};
      ClaimPoints(addr, count);
    }

    // The virtual nodes, one after the other.
    method ClaimPoints(addr: Address, count: nat)
      requires KeysMatch(ringKeys, ringMap)
      modifies `ringKeys, `ringMap
      ensures KeysMatch(ringKeys, ringMap)
      ensures ringMap == Claim(old(ringMap), Points(hash, count, addr), addr)
    {
      ghost var before := ringMap;
      PointsStep(hash, 0, addr);
      ClaimStep(before, {}, 0, addr);
      for n := 0 to count
        invariant KeysMatch(ringKeys, ringMap)
        invariant ringMap == Claim(before, Points(hash, n, addr), addr)
      {
        var h := hash(addr, n);
        PointsStep(hash, n, addr);
        ClaimStep(before, Points(hash, n, addr), h, addr);
        InsertUnclaimed(h, addr);
      }
    }

    method InsertUnclaimed(h: int, addr: Address)
      requires KeysMatch(ringKeys, ringMap)
      modifies `ringKeys, `ringMap
      ensures KeysMatch(ringKeys, ringMap)
      ensures ringMap == if h in old(ringMap) then old(ringMap) else old(ringMap)[h := addr]
    {
      if h !in ringMap {
        var idx := BisectRight(ringKeys, h);
        InsertPoint(ringKeys, ringMap, idx, h, addr);
        ringMap := ringMap[h := addr];
        ringKeys := InsertAt(ringKeys, idx, h);
      }
    }

    method RemoveWorker(addr: Address)
      requires Valid()
      modifies this
      ensures Valid() && Abs() == RemoveFrom(old(Abs()), addr)
    {
      if addr !in workers {
        return;
      }
      workers := workers - {addr};
      YieldAll(hash, virtualNodes, Ring(ringMap, old(workers)), addr);
      YieldPoints(addr);
    }

    method YieldPoints(addr: Address)
      requires KeysMatch(ringKeys, ringMap)
      modifies `ringKeys, `ringMap
      ensures KeysMatch(ringKeys, ringMap)
      ensures ringMap == Yield(old(ringMap), Points(hash, virtualNodes, addr), addr)
    {
      ghost var before := ringMap;
      PointsStep(hash, 0, addr);
      YieldStep(before, {}, 0, addr);
      for n := 0 to virtualNodes
        invariant KeysMatch(ringKeys, ringMap)
        invariant ringMap == Yield(before, Points(hash, n, addr), addr)
      {
        var h := hash(addr, n);
        PointsStep(hash, n, addr);
        YieldStep(before, Points(hash, n, addr), h, addr);
        if h in ringMap && ringMap[h] == addr {
          DeleteOwned(h);
        }
      }
    }

    method DeleteOwned(h: int)
      requires KeysMatch(ringKeys, ringMap) && h in ringMap
      modifies `ringKeys, `ringMap
      ensures KeysMatch(ringKeys, ringMap)
      ensures ringMap == map k | k in old(ringMap) && k != h :: old(ringMap)[k]
    {
      var idx := BisectLeft(ringKeys, h);
      BisectFinds(ringKeys, h, idx);
      DeletePoint(ringKeys, ringMap, idx, h);
      ringMap := map k | k in ringMap && k != h :: ringMap[k];
      if idx < |ringKeys| && ringKeys[idx] == h {
        ringKeys := DeleteAt(ringKeys, idx);
      }
    }

    // `key` is the hash of the routing key.
    method Select(key: int) returns (r: Option<Address>)
      requires Valid()
      ensures r == Lookup(Entries(), key)
    {
      if ringKeys == [] {
        return None;
      }
      ZipRepresents(ringKeys, ringMap);
      var above := BisectRight(ringKeys, key);
      AboveUnique(Entries(), key, above);
      Wrap(above, |ringKeys|);
      var idx := above % |ringKeys|;
      return Some(ringMap[ringKeys[idx]]);
    }

    method SelectFrom(candidates: set<Address>, key: int) returns (r: Option<Address>)
      requires Valid()
      ensures r == NextKept(Entries(), key, Among(candidates))
      ensures r == Lookup(Keep(Entries(), Among(candidates)), key)
      ensures r.Some? ==> r.value in candidates
    {
      ZipRepresents(ringKeys, ringMap);
      FilteredIsPlainAfterRemoval(Entries(), key, Among(candidates));
      if ringKeys == [] || candidates == {} {
        return None;
      }
      var above := BisectRight(ringKeys, key);
      AboveUnique(Entries(), key, above);
      WrapStart(Entries(), above, Among(candidates));
      Wrap(above, |ringKeys|);
      var start := above % |ringKeys|;
      r := WalkFrom(Entries(), start, candidates);
    }
  }
}
