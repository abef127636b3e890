/** What both consistent-hash rings mean: a sorted list of (point, worker) entries,
    a key being answered by the next entry clockwise. */
module HashRing {
  import opened Common

  datatype Entry = Entry(key: int, worker: Address)

  ghost predicate Sorted(es: seq<Entry>) {
    forall i, j :: 0 <= i < j < |es| ==> es[i].key <= es[j].key
  }

  // How many entries come at or before the key.
  function FirstAbove(es: seq<Entry>, key: int): (n: nat)
    ensures n <= |es|
    ensures forall i :: 0 <= i < n ==> es[i].key <= key
    ensures n < |es| ==> es[n].key > key
  {
    if es == [] || es[0].key > key then 0 else 1 + FirstAbove(es[1..], key)
  }

  /** Plain lookup: the owner of the next entry clockwise, wrapping to the first. */
  function Lookup(es: seq<Entry>, key: int): Option<Address> {
    var n := FirstAbove(es, key);
    if es == [] then None else Some(es[if n == |es| then 0 else n].worker)
  }

  // The ring without the workers outside `keep`.
  function Keep(es: seq<Entry>, keep: Address -> bool): seq<Entry> {
    if es == [] then []
    else Keep(es[..|es| - 1], keep) + if keep(es[|es| - 1].worker) then [es[|es| - 1]] else []
  }

  function Outside(worker: Address): Address -> bool {
    w => w != worker
  }

  function Among(candidates: set<Address>): Address -> bool {
    w => w in candidates
  }

  // The first entry, in list order, of a worker satisfying `keep`.
  function FirstKept(es: seq<Entry>, keep: Address -> bool): (r: Option<Address>)
    ensures r.Some? ==> keep(r.value)
  {
    if es == [] then None
    else if keep(es[0].worker) then Some(es[0].worker)
    else FirstKept(es[1..], keep)
  }

  // The answer of one trip around the ring from position `start`.
  function Around(es: seq<Entry>, start: nat, keep: Address -> bool): Option<Address>
    requires start <= |es|
  {
    match FirstKept(es[start..], keep)
    case Some(w) => Some(w)
    case None => FirstKept(es[..start], keep)
  }

  // The filtered walk: clockwise from the key, around the ring once.
  function NextKept(es: seq<Entry>, key: int, keep: Address -> bool): Option<Address> {
    Around(es, FirstAbove(es, key), keep)
  }

  // Walking from one past the last entry is walking from the first.
  lemma WrapStart(es: seq<Entry>, start: nat, keep: Address -> bool)
    requires es != [] && start <= |es|
    ensures Around(es, start % |es|, keep) == Around(es, start, keep)
  {
    Wrap(start, |es|);
    if start == |es| {
      assert es[start..] == [] && es[..start] == es && es[0..] == es && es[..0] == [];
    }
  }

  // ---------------------------------------------------------------- lists of entries

  lemma AboveUnique(es: seq<Entry>, key: int, n: nat)
    requires n <= |es|
    requires forall i :: 0 <= i < n ==> es[i].key <= key
    requires forall i :: n <= i < |es| ==> es[i].key > key
    ensures FirstAbove(es, key) == n
  {
    var m := FirstAbove(es, key);
    assert n < |es| ==> es[n].key > key;
  }

  lemma {:induction false} KeepMembers(es: seq<Entry>, keep: Address -> bool)
    ensures forall e :: e in Keep(es, keep) <==> e in es && keep(e.worker)
  {
    if es != [] {
      KeepMembers(es[..|es| - 1], keep);
    }
  }

  lemma {:induction false} KeepConcat(a: seq<Entry>, b: seq<Entry>, keep: Address -> bool)
    ensures Keep(a + b, keep) == Keep(a, keep) + Keep(b, keep)
  {
    if b == [] {
      assert a + b == a;
    } else {
      var front := b[..|b| - 1];
      KeepConcat(a, front, keep);
      assert (a + b)[..|a + b| - 1] == a + front;
    }
  }

  lemma {:induction false} KeepSorted(es: seq<Entry>, keep: Address -> bool)
    requires Sorted(es)
    ensures Sorted(Keep(es, keep))
  {
    if es != [] {
      var front, last := es[..|es| - 1], es[|es| - 1];
      KeepSorted(front, keep);
      KeepMembers(front, keep);
      var kept := Keep(front, keep);
      forall i | 0 <= i < |kept| ensures kept[i].key <= last.key {
        assert kept[i] in front;
      }
    }
  }

  lemma {:induction false} KeepFirst(es: seq<Entry>, keep: Address -> bool)
    ensures FirstKept(es, keep) == if Keep(es, keep) == [] then None else Some(Keep(es, keep)[0].worker)
  {
    if es != [] {
      KeepFirst(es[1..], keep);
      assert [es[0]] + es[1..] == es;
      KeepConcat([es[0]], es[1..], keep);
      assert Keep([es[0]], keep) == if keep(es[0].worker) then [es[0]] else [] by {
        assert [es[0]][..0] == [];
      }
    }
  }

  lemma {:induction false} FirstKeptConcat(a: seq<Entry>, b: seq<Entry>, keep: Address -> bool)
    ensures FirstKept(a + b, keep) == match FirstKept(a, keep) case Some(w) => Some(w) case None => FirstKept(b, keep)
  {
    if a == [] {
      assert a + b == b;
    } else {
      FirstKeptConcat(a[1..], b, keep);
      assert (a + b)[1..] == a[1..] + b;
    }
  }

  // What holds of every key still holds of the kept ones.
  lemma {:induction false} KeepPreserves(es: seq<Entry>, keep: Address -> bool, p: int -> bool)
    requires forall i :: 0 <= i < |es| ==> p(es[i].key)
    ensures forall i :: 0 <= i < |Keep(es, keep)| ==> p(Keep(es, keep)[i].key)
  {
    if es != [] {
      KeepPreserves(es[..|es| - 1], keep, p);
    }
  }

  // The kept entries below and above the key keep their places.
  lemma KeepSplits(es: seq<Entry>, key: int, keep: Address -> bool)
    requires Sorted(es)
    ensures var n := FirstAbove(es, key);
            && Keep(es, keep) == Keep(es[..n], keep) + Keep(es[n..], keep)
            && FirstAbove(Keep(es, keep), key) == |Keep(es[..n], keep)|
  {
    var n := FirstAbove(es, key);
    assert es[..n] + es[n..] == es;
    KeepConcat(es[..n], es[n..], keep);
    KeepPreserves(es[..n], keep, k => k <= key);
    KeepPreserves(es[n..], keep, k => k > key);
    var kl, kh := Keep(es[..n], keep), Keep(es[n..], keep);
    BoundaryBetween(kl, kh, key);
  }

  lemma BoundaryBetween(low: seq<Entry>, high: seq<Entry>, key: int)
    requires forall i :: 0 <= i < |low| ==> low[i].key <= key
    requires forall i :: 0 <= i < |high| ==> high[i].key > key
    ensures FirstAbove(low + high, key) == |low|
  {
    var all := low + high;
    forall i | 0 <= i < |all| ensures i < |low| <==> all[i].key <= key {
      assert all[i] == if i < |low| then low[i] else high[i - |low|];
    }
    AboveUnique(all, key, |low|);
  }

  /** Filtered lookup answers what plain lookup answers once every worker outside
      the candidates has been taken off the ring; it answers None exactly when no
      candidate owns an entry. */
  lemma FilteredIsPlainAfterRemoval(es: seq<Entry>, key: int, keep: Address -> bool)
    requires Sorted(es)
    ensures NextKept(es, key, keep) == Lookup(Keep(es, keep), key)
    ensures NextKept(es, key, keep).None? <==> forall e :: e in es ==> !keep(e.worker)
  {
    var n := FirstAbove(es, key);
    KeepSplits(es, key, keep);
    KeepFirst(es[..n], keep);
    KeepFirst(es[n..], keep);
    KeepMembers(es, keep);
    var kept := Keep(es, keep);
    if kept != [] {
      assert kept[0] in es && keep(kept[0].worker);
    } else {
      forall e | e in es ensures !keep(e.worker) {
        assert e !in kept;
      }
    }
  }

  // Taking workers away keeps the answer of every key whose owner stays.
  lemma AnswerKept(es: seq<Entry>, key: int, keep: Address -> bool)
    requires Sorted(es) && Lookup(es, key).Some? && keep(Lookup(es, key).value)
    ensures Lookup(Keep(es, keep), key) == Lookup(es, key)
  {
    FilteredIsPlainAfterRemoval(es, key, keep);
    var n := FirstAbove(es, key);
    if n == |es| {
      assert es[..n] == es && es[n..] == [];
    }
  }

  /** Removing a worker changes the answer only of the keys it owned; adding one,
      by any change that removing it undoes, changes an answer only to the new worker. */
  lemma MinimalDisruption(es: seq<Entry>, worker: Address, key: int)
    requires Sorted(es)
    ensures var without := Keep(es, Outside(worker));
            Lookup(es, key) != Some(worker) ==> Lookup(without, key) == Lookup(es, key)
    ensures Lookup(Keep(es, Outside(worker)), key) != Some(worker)
  {
    if Lookup(es, key) != Some(worker) && es != [] {
      AnswerKept(es, key, Outside(worker));
    }
    KeepMembers(es, Outside(worker));
    var without := Keep(es, Outside(worker));
    if without != [] {
      var n := FirstAbove(without, key);
      assert without[if n == |without| then 0 else n] in without;
    }
  }

  ghost predicate SameEntries(a: seq<Entry>, b: seq<Entry>) {
    forall e :: e in a <==> e in b
  }

  // No point belongs to two workers.
  ghost predicate ConflictFree(es: seq<Entry>) {
    forall d, e :: d in es && e in es && d.key == e.key ==> d == e
  }

  lemma NextIsLeast(es: seq<Entry>, key: int, e: Entry)
    requires Sorted(es) && e in es
    ensures var n := FirstAbove(es, key);
            && (e.key > key ==> n < |es| && es[n].key <= e.key)
            && (n == |es| ==> es[0].key <= e.key)
  {
    var n := FirstAbove(es, key);
    var j :| 0 <= j < |es| && es[j] == e;
    if e.key > key {
      assert n <= j;
    }
  }

  // Plain lookup depends only on which entries there are.
  lemma LookupBySet(a: seq<Entry>, b: seq<Entry>, key: int)
    requires Sorted(a) && Sorted(b) && SameEntries(a, b) && ConflictFree(a)
    ensures Lookup(a, key) == Lookup(b, key)
  {
    if a != [] { assert a[0] in a; }
    if b != [] { assert b[0] in b; }
    if a != [] && b != [] {
      var m, n := FirstAbove(a, key), FirstAbove(b, key);
      var d := a[if m == |a| then 0 else m];
      var e := b[if n == |b| then 0 else n];
      assert d in a && e in b;
      assert d in b && e in a;
      NextIsLeast(a, key, e);
      NextIsLeast(b, key, d);
      assert d.key == e.key;
    }
  }

  // ---------------------------------------------------------------- uniqueness

  ghost predicate StrictlySorted(es: seq<Entry>) {
    forall i, j :: 0 <= i < j < |es| ==> es[i].key < es[j].key
  }

  lemma {:induction false} KeepStrict(es: seq<Entry>, keep: Address -> bool)
    requires StrictlySorted(es)
    ensures StrictlySorted(Keep(es, keep))
  {
    if es != [] {
      var front, last := es[..|es| - 1], es[|es| - 1];
      KeepStrict(front, keep);
      KeepMembers(front, keep);
      var kept := Keep(front, keep);
      forall i | 0 <= i < |kept| ensures kept[i].key < last.key {
        assert kept[i] in front;
      }
    }
  }

  lemma FirstIsLeast(es: seq<Entry>, e: Entry)
    requires Sorted(es) && e in es
    ensures es[0].key <= e.key
  {
  }

  // A sorted list without conflicts is determined by how often each entry occurs.
  lemma {:induction false} SortedUnique(a: seq<Entry>, b: seq<Entry>)
    requires Sorted(a) && Sorted(b) && ConflictFree(a) && multiset(a) == multiset(b)
    ensures a == b
  {
    if a == [] || b == [] {
      assert |a| == |multiset(a)| == |multiset(b)| == |b|;
    } else {
      HeadsAgree(a, b);
      WithoutHead(a);
      WithoutHead(b);
      SortedUnique(a[1..], b[1..]);
    }
  }

  lemma HeadsAgree(a: seq<Entry>, b: seq<Entry>)
    requires Sorted(a) && Sorted(b) && ConflictFree(a) && multiset(a) == multiset(b) && a != [] && b != []
    ensures a[0] == b[0]
  {
    assert a[0] in multiset(a) && b[0] in multiset(b);
    assert b[0] in a && a[0] in b;
    FirstIsLeast(a, b[0]);
    FirstIsLeast(b, a[0]);
  }

  lemma WithoutHead(a: seq<Entry>)
    requires a != []
    ensures multiset(a[1..]) == multiset(a) - multiset{a[0]}
    ensures Sorted(a) ==> Sorted(a[1..])
    ensures ConflictFree(a) ==> ConflictFree(a[1..])
  {
    assert a == [a[0]] + a[1..];
  }

  lemma StrictMultiset(es: seq<Entry>, e: Entry)
    requires StrictlySorted(es)
    ensures multiset(es)[e] == if e in es then 1 else 0
  {
    if e in es {
      var i :| 0 <= i < |es| && es[i] == e;
      assert es == es[..i] + [e] + es[i + 1..];
      assert e !in es[..i] && e !in es[i + 1..];
    }
  }

  // A strictly sorted list is determined by its set of entries.
  lemma StrictUnique(a: seq<Entry>, b: seq<Entry>)
    requires StrictlySorted(a) && StrictlySorted(b) && SameEntries(a, b)
    ensures a == b
  {
    forall e ensures multiset(a)[e] == multiset(b)[e] {
      StrictMultiset(a, e);
      StrictMultiset(b, e);
    }
    assert multiset(a) == multiset(b);
    SortedUnique(a, b);
  }

  lemma {:induction false} KeepCounts(es: seq<Entry>, keep: Address -> bool, e: Entry)
    ensures multiset(Keep(es, keep))[e] == if keep(e.worker) then multiset(es)[e] else 0
  {
    if es != [] {
      KeepCounts(es[..|es| - 1], keep, e);
      assert es == es[..|es| - 1] + [es[|es| - 1]];
    }
  }

  // ---------------------------------------------------------------- hashes

  // Worker `w`'s points: the hash of its `i`-th virtual node, for each `i`.
  function Points(hash: (Address, nat) -> int, vnodes: nat, w: Address): (s: set<int>)
    ensures forall i: nat :: i < vnodes ==> hash(w, i) in s
    ensures forall h :: h in s ==> exists i: nat :: i < vnodes && h == hash(w, i)
  {
    set i: nat | i < vnodes :: hash(w, i)
  }

  // At most all of the `vnodes` points.
  function UpTo(n: nat, vnodes: nat): (m: nat)
    ensures m <= vnodes && (n >= vnodes ==> m == vnodes)
  {
    if n < vnodes then n else vnodes
  }

  ghost predicate NoCrossCollision(hash: (Address, nat) -> int, vnodes: nat, ws: set<Address>) {
    forall v, w :: v in ws && w in ws && v != w ==> Points(hash, vnodes, v) !! Points(hash, vnodes, w)
  }

  datatype Op = Add(worker: Address) | Remove(worker: Address)

  // ---------------------------------------------------------------- binary search

  ghost predicate Ascending(keys: seq<int>) {
    forall i, j :: 0 <= i < j < |keys| ==> keys[i] <= keys[j]
  }

  // Python's bisect.bisect_right.
  method BisectRight(keys: seq<int>, x: int) returns (lo: nat)
    requires Ascending(keys)
    ensures lo <= |keys|
    ensures forall i :: 0 <= i < lo ==> keys[i] <= x
    ensures forall i :: lo <= i < |keys| ==> keys[i] > x
  {
    lo := 0;
    var hi := |keys|;
    while lo < hi
      invariant lo <= hi <= |keys|
      invariant forall i :: 0 <= i < lo ==> keys[i] <= x
      invariant forall i :: hi <= i < |keys| ==> keys[i] > x
    {
      var mid := (lo + hi) / 2;
      if x < keys[mid] {
        hi := mid;
      } else {
        lo := mid + 1;
      }
    }
  }

  // Python's bisect.bisect_left.
  method BisectLeft(keys: seq<int>, x: int) returns (lo: nat)
    requires Ascending(keys)
    ensures lo <= |keys|
    ensures forall i :: 0 <= i < lo ==> keys[i] < x
    ensures forall i :: lo <= i < |keys| ==> keys[i] >= x
  {
    lo := 0;
    var hi := |keys|;
    while lo < hi
      invariant lo <= hi <= |keys|
      invariant forall i :: 0 <= i < lo ==> keys[i] < x
      invariant forall i :: hi <= i < |keys| ==> keys[i] >= x
    {
      var mid := (lo + hi) / 2;
      if keys[mid] < x {
        lo := mid + 1;
      } else {
        hi := mid;
      }
    }
  }

  lemma Wrap(x: nat, n: nat)
    requires x < 2 * n
    ensures x % n == if x < n then x else x - n
  {
  }

  // Turn `i` of the walk looks at entry `i` of the rotated ring.
  lemma WalkStep(es: seq<Entry>, start: nat, i: nat, keep: Address -> bool)
    requires start <= |es| && i < |es|
    ensures var idx, rotated := (start + i) % |es|, es[start..] + es[..start];
            && |rotated| == |es| && 0 <= idx < |es|
            && FirstKept(rotated[i..], keep) ==
               if keep(es[idx].worker) then Some(es[idx].worker) else FirstKept(rotated[i + 1..], keep)
  {
    var rotated := es[start..] + es[..start];
    Wrap(start + i, |es|);
    assert rotated[i..][0] == es[(start + i) % |es|] && rotated[i..][1..] == rotated[i + 1..];
  }

  // The walk both rings run: from `start`, all the way around, to a candidate.
  method WalkFrom(es: seq<Entry>, start: nat, candidates: set<Address>) returns (r: Option<Address>)
    requires es != [] && start <= |es|
    ensures r == Around(es, start, Among(candidates))
  {
    var n := |es|;
    ghost var keep, rotated := Among(candidates), es[start..] + es[..start];
    FirstKeptConcat(es[start..], es[..start], keep);
    for i := 0 to n
      invariant FirstKept(rotated, keep) == FirstKept(rotated[i..], keep)
    {
      WalkStep(es, start, i, keep);
      var idx := (start + i) % n;
      var worker := es[idx].worker;
      if worker in candidates {
        return Some(worker);
      }
    }
    return None;
  }
}
