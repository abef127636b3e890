/** The cache-aware policy's ring: parallel sorted lists of points and workers, in which
    a point may occur more than once. */
module CacheAware {
  import opened Common
  import opened HashRing
  import CH = ConsistentHash

  datatype Ring = Ring(entries: seq<Entry>, workers: set<Address>)

  const EmptyRing := Ring([], {})

  function FirstAtLeast(es: seq<Entry>, key: int): (n: nat)
    ensures n <= |es|
    ensures forall i :: 0 <= i < n ==> es[i].key < key
    ensures n < |es| ==> es[n].key >= key
  {
    if es == [] || es[0].key >= key then 0 else 1 + FirstAtLeast(es[1..], key)
  }

  // A new entry goes before those of the same point.
  function InsertLeft(es: seq<Entry>, e: Entry): seq<Entry> {
    if es == [] || es[0].key >= e.key then [e] + es else [es[0]] + InsertLeft(es[1..], e)
  }

  // That is Python's insertion at the left boundary.
  lemma {:induction false} InsertLeftIsInsertAt(es: seq<Entry>, e: Entry)
    ensures InsertLeft(es, e) == InsertAt(es, FirstAtLeast(es, e.key), e)
  {
    if es != [] && es[0].key < e.key {
      InsertLeftIsInsertAt(es[1..], e);
      InsertLater(es, FirstAtLeast(es[1..], e.key), e);
    }
  }

  function InsertPoints(hash: (Address, nat) -> int, n: nat, es: seq<Entry>, w: Address): seq<Entry> {
    if n == 0 then es else InsertLeft(InsertPoints(hash, n - 1, es, w), Entry(hash(w, n - 1), w))
  }

  function AddTo(hash: (Address, nat) -> int, vnodes: nat, r: Ring, w: Address): Ring {
    if w in r.workers then r else Ring(InsertPoints(hash, vnodes, r.entries, w), r.workers + {w})
  }

  function RemoveFrom(r: Ring, w: Address): Ring {
    if w !in r.workers then r else Ring(Keep(r.entries, Outside(w)), r.workers - {w})
  }

  // How many of worker `w`'s first `n` virtual nodes hash to `key`.
  function Occurrences(hash: (Address, nat) -> int, n: nat, w: Address, key: int): nat {
    if n == 0 then 0 else Occurrences(hash, n - 1, w, key) + if hash(w, n - 1) == key then 1 else 0
  }

  /** Collisions or not, a ring is the sorted list of its workers' points, each as often
      as it is hashed to. */
  ghost predicate RingValid(hash: (Address, nat) -> int, vnodes: nat, r: Ring) {
    && Sorted(r.entries)
    && forall e: Entry :: multiset(r.entries)[e] == if e.worker in r.workers then Occurrences(hash, vnodes, e.worker, e.key) else 0
  }

  // ---------------------------------------------------------------- insertion

  lemma InsertLeftSorted(es: seq<Entry>, e: Entry)
    requires Sorted(es)
    ensures Sorted(InsertLeft(es, e))
  {
    InsertLeftIsInsertAt(es, e);
  }

  lemma InsertLeftKeep(es: seq<Entry>, e: Entry, keep: Address -> bool)
    requires !keep(e.worker)
    ensures Keep(InsertLeft(es, e), keep) == Keep(es, keep)
  {
    var n := FirstAtLeast(es, e.key);
    InsertLeftIsInsertAt(es, e);
    InsertKeep(es[..n], e, es[n..], keep);
    assert es == es[..n] + es[n..];
  }

  lemma InsertKeep(low: seq<Entry>, e: Entry, high: seq<Entry>, keep: Address -> bool)
    requires !keep(e.worker)
    ensures Keep(low + [e] + high, keep) == Keep(low + high, keep)
  {
    KeepConcat(low + [e], high, keep);
    KeepLast(low, e, keep);
    KeepConcat(low, high, keep);
  }

  lemma KeepLast(es: seq<Entry>, e: Entry, keep: Address -> bool)
    ensures Keep(es + [e], keep) == Keep(es, keep) + if keep(e.worker) then [e] else []
  {
    assert (es + [e])[..|es|] == es;
  }

  lemma {:induction false} InsertPointsSorted(hash: (Address, nat) -> int, n: nat, es: seq<Entry>, w: Address)
    requires Sorted(es)
    ensures Sorted(InsertPoints(hash, n, es, w))
  {
    if n > 0 {
      InsertPointsSorted(hash, n - 1, es, w);
      InsertLeftSorted(InsertPoints(hash, n - 1, es, w), Entry(hash(w, n - 1), w));
    }
  }

  lemma {:induction false} InsertPointsKeep(hash: (Address, nat) -> int, n: nat, es: seq<Entry>, w: Address)
    ensures Keep(InsertPoints(hash, n, es, w), Outside(w)) == Keep(es, Outside(w))
  {
    if n > 0 {
      InsertPointsKeep(hash, n - 1, es, w);
      InsertLeftKeep(InsertPoints(hash, n - 1, es, w), Entry(hash(w, n - 1), w), Outside(w));
    }
  }

  function Count(es: seq<Entry>, e: Entry): nat {
    if es == [] then 0 else (if es[0] == e then 1 else 0) + Count(es[1..], e)
  }

  lemma {:induction false} CountIsMultiplicity(es: seq<Entry>, e: Entry)
    ensures Count(es, e) == multiset(es)[e]
  {
    if es != [] {
      CountIsMultiplicity(es[1..], e);
      assert es == [es[0]] + es[1..];
    }
  }

  lemma {:induction false} InsertLeftCount(es: seq<Entry>, x: Entry, e: Entry)
    ensures Count(InsertLeft(es, x), e) == Count(es, e) + if e == x then 1 else 0
  {
    if es != [] && es[0].key < x.key {
      InsertLeftCount(es[1..], x, e);
      assert ([es[0]] + InsertLeft(es[1..], x))[1..] == InsertLeft(es[1..], x);
    } else {
      assert ([x] + es)[1..] == es;
    }
  }

  lemma {:induction false} CountInserted(hash: (Address, nat) -> int, n: nat, es: seq<Entry>, w: Address, e: Entry)
    ensures Count(InsertPoints(hash, n, es, w), e) ==
            Count(es, e) + if e.worker == w then Occurrences(hash, n, w, e.key) else 0
  {
    if n > 0 {
      CountInserted(hash, n - 1, es, w, e);
      InsertLeftCount(InsertPoints(hash, n - 1, es, w), Entry(hash(w, n - 1), w), e);
    }
  }

  // Worker `w`'s first `n` points are inserted, each as often as it is hashed to.
  lemma InsertPointsCount(hash: (Address, nat) -> int, n: nat, es: seq<Entry>, w: Address, e: Entry)
    ensures multiset(InsertPoints(hash, n, es, w))[e] ==
            multiset(es)[e] + if e.worker == w then Occurrences(hash, n, w, e.key) else 0
  {
    CountInserted(hash, n, es, w, e);
    CountIsMultiplicity(es, e);
    CountIsMultiplicity(InsertPoints(hash, n, es, w), e);
  }

  lemma {:induction false} KeepAll(es: seq<Entry>, keep: Address -> bool)
    requires forall i :: 0 <= i < |es| ==> keep(es[i].worker)
    ensures Keep(es, keep) == es
  {
    if es != [] {
      KeepAll(es[..|es| - 1], keep);
      assert es == es[..|es| - 1] + [es[|es| - 1]];
    }
  }

  // Sorted, and of its workers: what holds even when an addition has raised half-way.
  ghost predicate Tidy(r: Ring) {
    Sorted(r.entries) && forall e :: e in r.entries ==> e.worker in r.workers
  }

  lemma ValidIsTidy(hash: (Address, nat) -> int, vnodes: nat, r: Ring)
    requires RingValid(hash, vnodes, r)
    ensures Tidy(r)
  {
    OwnersAreWorkers(hash, vnodes, r);
  }

  lemma InsertPointsOwners(hash: (Address, nat) -> int, n: nat, es: seq<Entry>, w: Address)
    ensures forall e :: e in InsertPoints(hash, n, es, w) ==> e in es || e.worker == w
  {
    forall e | e in InsertPoints(hash, n, es, w) ensures e in es || e.worker == w {
      InsertPointsCount(hash, n, es, w, e);
      assert multiset(InsertPoints(hash, n, es, w))[e] > 0;
    }
  }

  lemma AddKeepsTidy(hash: (Address, nat) -> int, n: nat, r: Ring, w: Address)
    requires Tidy(r)
    ensures Tidy(AddTo(hash, n, r, w))
  {
    InsertPointsSorted(hash, n, r.entries, w);
    InsertPointsOwners(hash, n, r.entries, w);
  }

  lemma RemoveKeepsTidy(r: Ring, w: Address)
    requires Tidy(r)
    ensures Tidy(RemoveFrom(r, w))
  {
    KeepSorted(r.entries, Outside(w));
    forall e | e in Keep(r.entries, Outside(w)) ensures e in r.entries && e.worker != w {
      KeptWere(r.entries, Outside(w), e);
    }
  }

  lemma {:induction false} KeptWere(es: seq<Entry>, keep: Address -> bool, e: Entry)
    requires e in Keep(es, keep)
    ensures e in es && keep(e.worker)
  {
    if es != [] && e in Keep(es[..|es| - 1], keep) {
      KeptWere(es[..|es| - 1], keep, e);
    }
  }

  lemma OwnersAreWorkers(hash: (Address, nat) -> int, vnodes: nat, r: Ring)
    requires RingValid(hash, vnodes, r)
    ensures forall e :: e in r.entries ==> e.worker in r.workers
  {
    forall e | e in r.entries ensures e.worker in r.workers {
      assert multiset(r.entries)[e] > 0;
    }
  }

  lemma AddKeepsValid(hash: (Address, nat) -> int, vnodes: nat, r: Ring, w: Address)
    requires RingValid(hash, vnodes, r)
    ensures RingValid(hash, vnodes, AddTo(hash, vnodes, r, w))
  {
    if w !in r.workers {
      InsertPointsSorted(hash, vnodes, r.entries, w);
      var after := AddTo(hash, vnodes, r, w);
      forall e: Entry
        ensures multiset(after.entries)[e] == if e.worker in after.workers then Occurrences(hash, vnodes, e.worker, e.key) else 0
      {
        InsertPointsCount(hash, vnodes, r.entries, w, e);
      }
    }
  }

  lemma RemoveKeepsValid(hash: (Address, nat) -> int, vnodes: nat, r: Ring, w: Address)
    requires RingValid(hash, vnodes, r)
    ensures RingValid(hash, vnodes, RemoveFrom(r, w))
  {
    if w in r.workers {
      KeepSorted(r.entries, Outside(w));
      forall e: Entry ensures multiset(Keep(r.entries, Outside(w)))[e] == if e.worker == w then 0 else multiset(r.entries)[e] {
        KeepCounts(r.entries, Outside(w), e);
      }
    }
  }

  /** Adding a worker that is absent and then removing it is the identity, whatever
      collisions there are. */
  lemma AddThenRemove(hash: (Address, nat) -> int, vnodes: nat, r: Ring, w: Address)
    requires RingValid(hash, vnodes, r) && w !in r.workers
    ensures RemoveFrom(AddTo(hash, vnodes, r, w), w) == r
  {
    ValidIsTidy(hash, vnodes, r);
    PartlyAddedThenRemoved(hash, vnodes, r, w);
  }

  // So is adding some of its points only.
  lemma PartlyAddedThenRemoved(hash: (Address, nat) -> int, n: nat, r: Ring, w: Address)
    requires Tidy(r) && w !in r.workers
    ensures RemoveFrom(AddTo(hash, n, r, w), w) == r
  {
    forall i | 0 <= i < |r.entries| ensures r.entries[i].worker != w {
      assert r.entries[i] in r.entries;
    }
    PointsInsertedThenKept(hash, n, r.entries, w);
    assert r.workers + {w} - {w} == r.workers;
  }

  lemma PointsInsertedThenKept(hash: (Address, nat) -> int, n: nat, es: seq<Entry>, w: Address)
    requires forall i :: 0 <= i < |es| ==> es[i].worker != w
    ensures Keep(InsertPoints(hash, n, es, w), Outside(w)) == es
  {
    InsertPointsKeep(hash, n, es, w);
    KeepAll(es, Outside(w));
  }

  /** Removing a worker changes the answer only of keys it owned. */
  lemma RemovalDisruption(hash: (Address, nat) -> int, vnodes: nat, r: Ring, w: Address, key: int)
    requires RingValid(hash, vnodes, r)
    ensures Lookup(r.entries, key) != Some(w) ==> Lookup(RemoveFrom(r, w).entries, key) == Lookup(r.entries, key)
  {
    MinimalDisruption(r.entries, w, key);
  }

  /** Adding a worker changes an answer only to that worker. */
  lemma AdditionDisruption(hash: (Address, nat) -> int, vnodes: nat, r: Ring, w: Address, key: int)
    requires RingValid(hash, vnodes, r)
    ensures var after := Lookup(AddTo(hash, vnodes, r, w).entries, key);
            after == Some(w) || after == Lookup(r.entries, key)
  {
    if w !in r.workers {
      AddKeepsValid(hash, vnodes, r, w);
      AddThenRemove(hash, vnodes, r, w);
      MinimalDisruption(AddTo(hash, vnodes, r, w).entries, w, key);
    }
  }

  // Among the entries of one point those of `w` come first.
  ghost predicate Leads(es: seq<Entry>, w: Address) {
    forall i, j :: 0 <= i < j < |es| && es[i].key == es[j].key && es[j].worker == w ==> es[i].worker == w
  }

  lemma InsertLeads(es: seq<Entry>, e: Entry)
    requires Sorted(es) && Leads(es, e.worker)
    ensures Leads(InsertLeft(es, e), e.worker)
  {
    var n, out := FirstAtLeast(es, e.key), InsertLeft(es, e);
    InsertLeftIsInsertAt(es, e);
    forall i, j | 0 <= i < j < |out| && out[i].key == out[j].key && out[j].worker == e.worker ensures out[i].worker == e.worker {
      InsertedAt(es, n, e, i);
      InsertedAt(es, n, e, j);
      if i != n && j != n {
        var k, l := if i < n then i else i - 1, if j < n then j else j - 1;
        assert out[i] == es[k] && k < l && out[j] == es[l];
      }
    }
  }

  lemma {:induction false} PointsLead(hash: (Address, nat) -> int, n: nat, es: seq<Entry>, w: Address)
    requires Sorted(es) && forall i :: 0 <= i < |es| ==> es[i].worker != w
    ensures Leads(InsertPoints(hash, n, es, w), w)
  {
    if n > 0 {
      PointsLead(hash, n - 1, es, w);
      InsertPointsSorted(hash, n - 1, es, w);
      InsertLeads(InsertPoints(hash, n - 1, es, w), Entry(hash(w, n - 1), w));
    }
  }

  /** A new worker answers every key whose next point is its own, be that point shared. */
  lemma NewcomerTakesItsPoints(hash: (Address, nat) -> int, vnodes: nat, r: Ring, w: Address, key: int, i: nat)
    requires RingValid(hash, vnodes, r) && w !in r.workers && i < vnodes && key < hash(w, i)
    requires forall e :: e in r.entries && key < e.key ==> hash(w, i) <= e.key
    ensures Lookup(AddTo(hash, vnodes, r, w).entries, key) == Some(w)
  {
    var es, own := AddTo(hash, vnodes, r, w).entries, Entry(hash(w, i), w);
    AddKeepsValid(hash, vnodes, r, w);
    OwnersAreWorkers(hash, vnodes, r);
    forall k | 0 <= k < |r.entries| ensures r.entries[k].worker != w {
      assert r.entries[k] in r.entries;
    }
    PointsLead(hash, vnodes, r.entries, w);
    InsertPointsOwners(hash, vnodes, r.entries, w);
    OccursMeansPoint(hash, vnodes, w, own.key);
    assert multiset(es)[own] > 0;
    NextIsLeast(es, key, own);
    var n := FirstAbove(es, key);
    var j :| 0 <= j < |es| && es[j] == own;
    assert es[n] in es;
  }

  // ---------------------------------------------------------------- histories

  function RunOps(hash: (Address, nat) -> int, vnodes: nat, ops: seq<Op>): Ring {
    if ops == [] then EmptyRing
    else
      var r := RunOps(hash, vnodes, ops[..|ops| - 1]);
      match ops[|ops| - 1]
      case Add(w) => AddTo(hash, vnodes, r, w)
      case Remove(w) => RemoveFrom(r, w)
  }

  lemma {:induction false} HistoryValid(hash: (Address, nat) -> int, vnodes: nat, ops: seq<Op>)
    ensures RingValid(hash, vnodes, RunOps(hash, vnodes, ops))
  {
    if ops != [] {
      var front := ops[..|ops| - 1];
      HistoryValid(hash, vnodes, front);
      AddKeepsValid(hash, vnodes, RunOps(hash, vnodes, front), ops[|ops| - 1].worker);
      RemoveKeepsValid(hash, vnodes, RunOps(hash, vnodes, front), ops[|ops| - 1].worker);
    }
  }

  lemma {:induction false} OccursMeansPoint(hash: (Address, nat) -> int, n: nat, w: Address, key: int)
    ensures Occurrences(hash, n, w, key) > 0 <==> key in Points(hash, n, w)
  {
    CH.PointsStep(hash, if n == 0 then 0 else n - 1, w);
    if n > 0 {
      OccursMeansPoint(hash, n - 1, w, key);
    }
  }

  // The entries of a ring, as a set.
  lemma EntriesArePoints(hash: (Address, nat) -> int, vnodes: nat, r: Ring)
    requires RingValid(hash, vnodes, r)
    ensures forall e: Entry :: e in r.entries <==> e.worker in r.workers && e.key in Points(hash, vnodes, e.worker)
  {
    forall e: Entry ensures e in r.entries <==> e.worker in r.workers && e.key in Points(hash, vnodes, e.worker) {
      OccursMeansPoint(hash, vnodes, e.worker, e.key);
      assert e in r.entries <==> multiset(r.entries)[e] > 0;
    }
  }

  // Every worker owns an entry.
  lemma EveryWorkerOwns(hash: (Address, nat) -> int, vnodes: nat, r: Ring, w: Address)
    requires RingValid(hash, vnodes, r) && vnodes > 0 && w in r.workers
    ensures exists e :: e in r.entries && e.worker == w
  {
    EntriesArePoints(hash, vnodes, r);
    CH.PointsStep(hash, vnodes - 1, w);
    assert Entry(hash(w, vnodes - 1), w) in r.entries;
  }

  lemma NoConflicts(hash: (Address, nat) -> int, vnodes: nat, r: Ring)
    requires RingValid(hash, vnodes, r) && NoCrossCollision(hash, vnodes, r.workers)
    ensures ConflictFree(r.entries)
  {
    EntriesArePoints(hash, vnodes, r);
    forall d, e | d in r.entries && e in r.entries && d.key == e.key ensures d == e {
      assert d.worker != e.worker ==> Points(hash, vnodes, d.worker) !! Points(hash, vnodes, e.worker);
    }
  }

  /** Without collisions between the current workers, the state depends only on the
      worker set, whatever the history. */
  lemma StateDependsOnlyOnWorkers(hash: (Address, nat) -> int, vnodes: nat, ops1: seq<Op>, ops2: seq<Op>)
    requires RunOps(hash, vnodes, ops1).workers == RunOps(hash, vnodes, ops2).workers
    requires NoCrossCollision(hash, vnodes, RunOps(hash, vnodes, ops1).workers)
    ensures RunOps(hash, vnodes, ops1) == RunOps(hash, vnodes, ops2)
  {
    var a, b := RunOps(hash, vnodes, ops1), RunOps(hash, vnodes, ops2);
    HistoryValid(hash, vnodes, ops1);
    HistoryValid(hash, vnodes, ops2);
    NoConflicts(hash, vnodes, a);
    assert multiset(a.entries) == multiset(b.entries);
    SortedUnique(a.entries, b.entries);
  }

  /** If no two workers of a history share a point, both ring implementations answer
      every key alike after it. */
  lemma RingsAnswerAlike(
    hash: (Address, nat) -> int, vnodes: nat, ops: seq<Op>, all: set<Address>, es: seq<Entry>, key: int)
    requires NoCrossCollision(hash, vnodes, all) && forall op :: op in ops ==> op.worker in all
    requires CH.Represents(es, CH.RunOps(hash, vnodes, ops).owner)
    ensures CH.RunOps(hash, vnodes, ops).workers == RunOps(hash, vnodes, ops).workers
    ensures Lookup(es, key) == Lookup(RunOps(hash, vnodes, ops).entries, key)
  {
    SameWorkers(hash, vnodes, ops);
    CH.StateIsWorkersPoints(hash, vnodes, ops, all);
    HistoryValid(hash, vnodes, ops);
    var r := RunOps(hash, vnodes, ops);
    SameEntrySet(hash, vnodes, r, CH.RunOps(hash, vnodes, ops), es);
    NoConflicts(hash, vnodes, r);
    LookupBySet(r.entries, es, key);
  }

  lemma SameEntrySet(hash: (Address, nat) -> int, vnodes: nat, r: Ring, s: CH.Ring, es: seq<Entry>)
    requires RingValid(hash, vnodes, r) && CH.OwnsAll(hash, vnodes, s) && r.workers == s.workers
    requires CH.Represents(es, s.owner)
    ensures SameEntries(r.entries, es)
  {
    EntriesArePoints(hash, vnodes, r);
    forall e: Entry ensures e in r.entries <==> e in es {
      assert e in es <==> e.key in s.owner && s.owner[e.key] == e.worker;
    }
  }

  lemma {:induction false} SameWorkers(hash: (Address, nat) -> int, vnodes: nat, ops: seq<Op>)
    ensures CH.RunOps(hash, vnodes, ops).workers == RunOps(hash, vnodes, ops).workers
  {
    if ops != [] {
      SameWorkers(hash, vnodes, ops[..|ops| - 1]);
    }
  }

  // ---------------------------------------------------------------- the object

  class ConsistentHashRing {
    const vnodes: nat
    const hash: (Address, nat) -> int
    var ringKeys: seq<int>
    var ringWorkers: seq<Address>
    var workers: set<Address>

    ghost predicate Valid()
      reads this
    {
      |ringKeys| == |ringWorkers| && Tidy(Abs())
    }

    function Entries(): (es: seq<Entry>)
      requires |ringKeys| == |ringWorkers|
      reads this
    {
      Zip(ringKeys, ringWorkers)
    }

    ghost function Abs(): Ring
      reads this
    {
      Ring(if |ringKeys| == |ringWorkers| then Entries() else [], workers)
    }

    constructor (hash: (Address, nat) -> int, vnodes: nat)
      ensures this.hash == hash && this.vnodes == vnodes
      ensures Valid() && Abs() == EmptyRing
    {
      this.hash := hash;
      this.vnodes := vnodes;
      ringKeys, ringWorkers, workers := [], [], {};
    }

    method AddWorker(addr: Address)
      requires Valid()
      modifies this
      ensures Valid() && Abs() == AddTo(hash, vnodes, old(Abs()), addr)
    {
      AddFirst(addr, vnodes);
    }

    // The addition, when it raises after `count` of the points.
    method AddFirst(addr: Address, count: nat)
      requires Valid()
      modifies this
      ensures Valid() && Abs() == AddTo(hash, count, old(Abs()), addr)
    {
      if addr in workers {
        return;
      }
      AddKeepsTidy(hash, count, Abs(), addr);
      workers := workers + {addr};
      ghost var before := Entries();
      for n := 0 to count
        invariant |ringKeys| == |ringWorkers| && workers == old(workers) + {addr}
        invariant Sorted(before)
        invariant Entries() == InsertPoints(hash, n, before, addr)
      {
        InsertPointsSorted(hash, n, before, addr);
        InsertPoint(hash(addr, n), addr);
      }
    }

    method InsertPoint(h: int, addr: Address)
      requires |ringKeys| == |ringWorkers| && Sorted(Entries())
      modifies `ringKeys, `ringWorkers
      ensures |ringKeys| == |ringWorkers| && Entries() == InsertLeft(old(Entries()), Entry(h, addr))
    {
      SortedKeys(ringKeys, ringWorkers);
      var idx := BisectLeft(ringKeys, h);
      ZipInsert(ringKeys, ringWorkers, idx, h, addr);
      ringKeys := InsertAt(ringKeys, idx, h);
      ringWorkers := InsertAt(ringWorkers, idx, addr);
    }

    method RemoveWorker(addr: Address)
      requires Valid()
      modifies this
      ensures Valid() && Abs() == RemoveFrom(old(Abs()), addr)
    {
      if addr !in workers {
        return;
      }
      RemoveKeepsTidy(Abs(), addr);
      workers := workers - {addr};
      var newKeys, newWorkers := Filtered(ringKeys, ringWorkers, addr);
      ringKeys := newKeys;
      ringWorkers := newWorkers;
    }

    method Get(key: int) returns (r: Option<Address>)
      requires Valid()
      ensures r == Lookup(Entries(), key)
    {
      if ringKeys == [] {
        return None;
      }
      SortedKeys(ringKeys, ringWorkers);
      var idx := BisectRight(ringKeys, key);
      AboveUnique(Entries(), key, idx);
      if idx == |ringKeys| {
        idx := 0;
      }
      return Some(ringWorkers[idx]);
    }

    method LookupFrom(key: int, candidates: set<Address>) returns (r: Option<Address>)
      requires Valid()
      ensures r == NextKept(Entries(), key, Among(candidates))
      ensures r == Lookup(Keep(Entries(), Among(candidates)), key)
      ensures r.Some? ==> r.value in candidates
    {
      FilteredIsPlainAfterRemoval(Entries(), key, Among(candidates));
      if ringKeys == [] || candidates == {} {
        return None;
      }
      SortedKeys(ringKeys, ringWorkers);
      var start := BisectRight(ringKeys, key);
      AboveUnique(Entries(), key, start);
      r := WalkFrom(Entries(), start, candidates);
    }
  }

  // The scheduling policy in front of the ring; `key` is the hash of the prompt prefix.
  class CacheAwarePolicy {
    const ring: ConsistentHashRing

    constructor (ring: ConsistentHashRing)
      ensures this.ring == ring
    {
      this.ring := ring;
    }

    method AddWorker(addr: Address)
      requires ring.Valid()
      modifies ring
      ensures ring.Valid() && ring.Abs() == AddTo(ring.hash, ring.vnodes, old(ring.Abs()), addr)
    {
      ring.AddWorker(addr);
    }

    method AddFirst(addr: Address, count: nat)
      requires ring.Valid()
      modifies ring
      ensures ring.Valid() && ring.Abs() == AddTo(ring.hash, count, old(ring.Abs()), addr)
    {
      ring.AddFirst(addr, count);
    }

    method RemoveWorker(addr: Address)
      requires ring.Valid()
      modifies ring
      ensures ring.Valid() && ring.Abs() == RemoveFrom(old(ring.Abs()), addr)
    {
      ring.RemoveWorker(addr);
    }

    method SelectFrom(candidates: set<Address>, key: int) returns (r: Option<Address>)
      requires ring.Valid()
      ensures r == Lookup(Keep(ring.Entries(), Among(candidates)), key)
      ensures r.Some? ==> r.value in candidates
      ensures r.None? <==> forall e :: e in ring.Entries() ==> e.worker !in candidates
    {
      FilteredIsPlainAfterRemoval(ring.Entries(), key, Among(candidates));
      if |ring.workers| == 0 || candidates == {} {
        return None;
      }
      r := ring.LookupFrom(key, candidates);
    }
  }

  // ---------------------------------------------------------------- parallel lists

  function Zip(keys: seq<int>, owners: seq<Address>): (es: seq<Entry>)
    requires |keys| == |owners|
    ensures |es| == |keys| && forall i :: 0 <= i < |es| ==> es[i] == Entry(keys[i], owners[i])
  {
    seq(|keys|, i requires 0 <= i < |keys| => Entry(keys[i], owners[i]))
  }

  lemma SortedKeys(keys: seq<int>, owners: seq<Address>)
    requires |keys| == |owners| && Sorted(Zip(keys, owners))
    ensures Ascending(keys)
  {
    var es := Zip(keys, owners);
    forall i, j | 0 <= i < j < |keys| ensures keys[i] <= keys[j] {
      assert es[i].key <= es[j].key;
    }
  }

  lemma ZipSnoc(keys: seq<int>, owners: seq<Address>, k: int, w: Address)
    requires |keys| == |owners|
    ensures Zip(keys + [k], owners + [w]) == Zip(keys, owners) + [Entry(k, w)]
  {
  }

  lemma KeepUpTo(es: seq<Entry>, n: nat, keep: Address -> bool)
    requires n < |es|
    ensures Keep(es[..n + 1], keep) == Keep(es[..n], keep) + if keep(es[n].worker) then [es[n]] else []
  {
    assert es[..n + 1][..n] == es[..n];
  }

  // Both lists without the positions of `addr`.
  method Filtered(keys: seq<int>, owners: seq<Address>, addr: Address) returns (newKeys: seq<int>, newOwners: seq<Address>)
    requires |keys| == |owners|
    ensures |newKeys| == |newOwners| && Zip(newKeys, newOwners) == Keep(Zip(keys, owners), Outside(addr))
  {
    newKeys, newOwners := [], [];
    ghost var es := Zip(keys, owners);
    for n := 0 to |keys|
      invariant |newKeys| == |newOwners| && Zip(newKeys, newOwners) == Keep(es[..n], Outside(addr))
    {
      KeepUpTo(es, n, Outside(addr));
      if owners[n] != addr {
        ZipSnoc(newKeys, newOwners, keys[n], owners[n]);
        newKeys := newKeys + [keys[n]];
        newOwners := newOwners + [owners[n]];
      }
    }
    assert es[..|keys|] == es;
  }

  lemma ZipInsert(keys: seq<int>, owners: seq<Address>, idx: nat, h: int, w: Address)
    requires |keys| == |owners| && idx <= |keys|
    requires forall i :: 0 <= i < idx ==> keys[i] < h
    requires forall i :: idx <= i < |keys| ==> keys[i] >= h
    ensures Zip(InsertAt(keys, idx, h), InsertAt(owners, idx, w)) ==
            InsertLeft(Zip(keys, owners), Entry(h, w))
  {
    var es := Zip(keys, owners);
    var n := FirstAtLeast(es, h);
    InsertLeftIsInsertAt(es, Entry(h, w));
    assert n == idx by {
      assert idx < |es| ==> es[idx].key >= h;
    }
  }
}
