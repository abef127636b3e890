/** The round-robin policy: a shared endless cycler, advanced until it yields an
    available instance. */
module RoundRobin {
  import opened Common

  datatype Outcome = Picked(address: Address) | Nobody | StopIteration

  // `itertools.cycle` over a list, by absolute position: draw `p` yields item `p` modulo the length.
  function At(items: seq<Address>, p: nat): (a: Address)
    requires items != []
    ensures a in items
  {
    items[p % |items|]
  }

  // The first position from `p` on whose item is available, within one trip round the cycle.
  function NextAvailable(items: seq<Address>, p: nat, available: set<Address>, fuel: nat): Option<nat>
    requires items != []
    decreases fuel
  {
    if fuel == 0 then None
    else if At(items, p) in available then Some(p)
    else NextAvailable(items, p + 1, available, fuel - 1)
  }

  // The available items at positions lo, ..., hi - 1, in that order.
  function AvailableBetween(items: seq<Address>, lo: nat, hi: nat, available: set<Address>): seq<Address>
    requires items != [] && lo <= hi
    decreases hi - lo
  {
    if lo == hi then []
    else (if At(items, lo) in available then [At(items, lo)] else []) + AvailableBetween(items, lo + 1, hi, available)
  }

  lemma WrapsAround(items: seq<Address>, p: nat)
    requires items != []
    ensures At(items, p + |items|) == At(items, p)
  {
    var n := |items|;
    MulDiv(n, p / n + 1, p % n);
    assert p == n * (p / n) + p % n && n * (p / n + 1) == n * (p / n) + n;
  }

  // ---------------------------------------------------------------- any list

  // The item at position `q` has been drawn since `p`.
  ghost predicate DrawnSince(items: seq<Address>, p: nat, q: nat)
    requires items != []
  {
    exists i: nat :: p <= i < q && At(items, i) == At(items, q)
  }

  // A call begun at `p` goes on from `q` until an item is available or drawn again.
  ghost function Draw(items: seq<Address>, p: nat, q: nat, available: set<Address>): (Outcome, nat)
    requires items != [] && p <= q <= p + |items|
    decreases p + |items| - q
  {
    if At(items, q) in available then (Picked(At(items, q)), q + 1)
    else if q == p + |items| || DrawnSince(items, p, q) then (Nobody, q + 1)
    else Draw(items, p, q + 1, available)
  }

  /** One call of the policy, on whatever list: what it picks and where it leaves the cycler. */
  ghost function Drawn(items: seq<Address>, p: nat, available: set<Address>): (Outcome, nat) {
    if available == {} then (Nobody, p)
    else if items == [] then (StopIteration, p)
    else Draw(items, p, p, available)
  }

  // The positions p, ..., q - 1 show different items, none of them available.
  ghost predicate AllNew(items: seq<Address>, p: nat, q: nat, available: set<Address>)
    requires items != []
  {
    forall i: nat :: p <= i < q ==> !DrawnSince(items, p, i) && At(items, i) !in available
  }

  lemma OnceAround(items: seq<Address>, p: nat)
    requires items != []
    ensures DrawnSince(items, p, p + |items|)
  {
    WrapsAround(items, p);
  }

  lemma {:induction false} DrawFacts(items: seq<Address>, p: nat, q: nat, available: set<Address>)
    requires items != [] && p <= q <= p + |items| && AllNew(items, p, q, available)
    ensures var (out, after) := Draw(items, p, q, available);
            && p < after <= p + |items| + 1 && AllNew(items, p, after - 1, available)
            && (out.Picked? ==> out.address == At(items, after - 1) && out.address in available)
            && (!out.Picked? ==> out.Nobody? && DrawnSince(items, p, after - 1) && At(items, after - 1) !in available)
    decreases p + |items| - q
  {
    if At(items, q) !in available {
      if q == p + |items| {
        OnceAround(items, p);
      } else if !DrawnSince(items, p, q) {
        DrawFacts(items, p, q + 1, available);
      }
    }
  }

  /** On any list a call stops within |items| + 1 draws.  It picks the first available item,
      unless an item comes round again before: exactly then it answers nobody. */
  lemma DrawnStops(items: seq<Address>, p: nat, available: set<Address>)
    requires items != [] && available != {}
    ensures var (out, after) := Drawn(items, p, available);
            && p < after <= p + |items| + 1 && AllNew(items, p, after - 1, available) && !out.StopIteration?
            && (out.Picked? ==> out.address == At(items, after - 1) && out.address in available)
            && (out.Nobody? <==> DrawnSince(items, p, after - 1) && At(items, after - 1) !in available)
  {
    DrawFacts(items, p, p, available);
  }

  /** So a list that names an address twice can hide an available one. */
  lemma DuplicateHidesInstance(a: Address, b: Address)
    requires a != b
    ensures Drawn([a, a, b], 0, {b}).0 == Nobody
  {
    var items := [a, a, b];
    assert !DrawnSince(items, 0, 0) && At(items, 0) == a;
    assert At(items, 0) == At(items, 1) && DrawnSince(items, 0, 1);
    assert Draw(items, 0, 0, {b}) == Draw(items, 0, 1, {b});
  }

  /** Where addresses are distinct, a call is the one described next. */
  lemma DistinctCalls(items: seq<Address>, p: nat, available: set<Address>)
    requires Distinct(items)
    ensures Drawn(items, p, available) == Call(items, p, available)
  {
    if items != [] && available != {} {
      DistinctDraws(items, p, p, available);
    }
  }

  lemma {:induction false} DistinctDraws(items: seq<Address>, p: nat, q: nat, available: set<Address>)
    requires items != [] && Distinct(items) && p <= q <= p + |items| && AllNew(items, p, q, available)
    ensures Draw(items, p, q, available) ==
            match NextAvailable(items, q, available, p + |items| - q)
            case Some(r) => (Picked(At(items, r)), r + 1)
            case None => (Nobody, p + |items| + 1)
    decreases p + |items| - q
  {
    if q == p + |items| {
      WrapsAround(items, p);
      assert At(items, p) !in available;
    } else if At(items, q) !in available {
      forall i: nat | p <= i < q ensures At(items, i) != At(items, q) {
        ItemsDiffer(items, i, q);
      }
      DistinctDraws(items, p, q + 1, available);
    }
  }

  // ---------------------------------------------------------------- distinct addresses

  /** One call where addresses are distinct.  A trip without an available item draws one item
      more than the cycle has. */
  function Call(items: seq<Address>, p: nat, available: set<Address>): (Outcome, nat)
  {
    if available == {} then (Nobody, p)
    else if items == [] then (StopIteration, p)
    else
      match NextAvailable(items, p, available, |items|)
      case Some(q) => (Picked(At(items, q)), q + 1)
      case None => (Nobody, p + |items| + 1)
  }

  lemma {:induction false} NextAvailableFacts(items: seq<Address>, p: nat, available: set<Address>, fuel: nat)
    requires items != []
    ensures var r := NextAvailable(items, p, available, fuel);
            && (r.Some? ==> p <= r.value < p + fuel && At(items, r.value) in available)
            && (forall q :: p <= q < (if r.Some? then r.value else p + fuel) ==> At(items, q) !in available)
    decreases fuel
  {
    if fuel > 0 && At(items, p) !in available {
      NextAvailableFacts(items, p + 1, available, fuel - 1);
    }
  }

  // |items| consecutive positions show every item.
  lemma EveryItemShown(items: seq<Address>, p: nat, a: Address) returns (q: nat)
    requires a in items
    ensures p <= q < p + |items| && At(items, q) == a
  {
    var i :| 0 <= i < |items| && items[i] == a;
    var n := |items|;
    var r := p % n;
    q := if r <= i then p - r + i else p - r + n + i;
    MulDiv(n, p / n, i);
    MulDiv(n, p / n + 1, i);
    assert p == n * (p / n) + r && n * (p / n + 1) == n * (p / n) + n;
  }

  // Distinct items at nearby positions are different items.
  lemma ItemsDiffer(items: seq<Address>, p: nat, q: nat)
    requires items != [] && Distinct(items) && p < q < p + |items|
    ensures At(items, p) != At(items, q)
  {
    NearbyRemainders(|items|, p, q);
  }

  /** A call stops within |items| + 1 draws; with some instance available, it answers
      Nobody exactly when no address of the cycle is available. */
  lemma CallStops(items: seq<Address>, p: nat, available: set<Address>)
    requires items != [] && available != {}
    ensures var (out, after) := Call(items, p, available);
            && p < after <= p + |items| + 1
            && !out.StopIteration?
            && (out.Nobody? <==> forall a :: a in items ==> a !in available)
            && (out.Picked? ==> out.address in available && out.address in items)
  {
    NextAvailableFacts(items, p, available, |items|);
    if NextAvailable(items, p, available, |items|).None? {
      forall a | a in items ensures a !in available {
        var q := EveryItemShown(items, p, a);
      }
    }
  }

  // ---------------------------------------------------------------- fairness

  // `k` consecutive calls under a fixed availability set.
  function Calls(items: seq<Address>, p: nat, available: set<Address>, k: nat): seq<Outcome>
    decreases k
  {
    if k == 0 then []
    else [Call(items, p, available).0] + Calls(items, Call(items, p, available).1, available, k - 1)
  }

  function AllPicked(s: seq<Address>): seq<Outcome> {
    seq(|s|, i requires 0 <= i < |s| => Picked(s[i]))
  }

  // The calls follow the available positions in order, as long as the interval holds enough of them.
  lemma {:induction false} CallsFollow(items: seq<Address>, p: nat, hi: nat, available: set<Address>)
    requires items != [] && p <= hi <= p + |items|
    ensures Calls(items, p, available, |AvailableBetween(items, p, hi, available)|) ==
            AllPicked(AvailableBetween(items, p, hi, available))
    decreases hi - p
  {
    var picks := AvailableBetween(items, p, hi, available);
    if picks != [] {
      var q := SkipToFirst(items, p, hi, available);
      CallsFollow(items, q + 1, hi, available);
      var rest := AvailableBetween(items, q + 1, hi, available);
      assert AllPicked([At(items, q)] + rest) == [Picked(At(items, q))] + AllPicked(rest);
    }
  }

  lemma {:induction false} SkipToFirst(items: seq<Address>, p: nat, hi: nat, available: set<Address>) returns (q: nat)
    requires items != [] && p <= hi <= p + |items|
    requires AvailableBetween(items, p, hi, available) != []
    ensures p <= q < hi && available != {} && Call(items, p, available) == (Picked(At(items, q)), q + 1)
    ensures AvailableBetween(items, p, hi, available) == [At(items, q)] + AvailableBetween(items, q + 1, hi, available)
    decreases hi - p
  {
    q := FirstIn(items, p, hi, available, |items|);
  }

  lemma {:induction false} FirstIn(items: seq<Address>, p: nat, hi: nat, available: set<Address>, fuel: nat) returns (q: nat)
    requires items != [] && p <= hi <= p + fuel
    requires AvailableBetween(items, p, hi, available) != []
    ensures p <= q < hi && At(items, q) in available && NextAvailable(items, p, available, fuel) == Some(q)
    ensures AvailableBetween(items, p, hi, available) == [At(items, q)] + AvailableBetween(items, q + 1, hi, available)
    decreases hi - p
  {
    if At(items, p) in available {
      q := p;
    } else {
      q := FirstIn(items, p + 1, hi, available, fuel - 1);
    }
  }

  lemma BetweenMembers(items: seq<Address>, lo: nat, hi: nat, available: set<Address>)
    requires items != [] && lo <= hi
    ensures forall a :: a in AvailableBetween(items, lo, hi, available) <==>
                        a in available && exists q :: lo <= q < hi && At(items, q) == a
  {
    forall a
      ensures a in AvailableBetween(items, lo, hi, available) <==>
              a in available && exists q :: lo <= q < hi && At(items, q) == a
    {
      BetweenMember(items, lo, hi, available, a);
    }
  }

  lemma {:induction false} BetweenMember(items: seq<Address>, lo: nat, hi: nat, available: set<Address>, a: Address)
    requires items != [] && lo <= hi
    ensures a in AvailableBetween(items, lo, hi, available) <==>
            a in available && exists q :: lo <= q < hi && At(items, q) == a
    decreases hi - lo
  {
    if lo < hi {
      BetweenMember(items, lo + 1, hi, available, a);
      if At(items, lo) != a && exists q :: lo <= q < hi && At(items, q) == a {
        var q :| lo <= q < hi && At(items, q) == a;
        assert lo + 1 <= q < hi && At(items, q) == a;
      }
    }
  }

  lemma {:induction false} BetweenDistinct(items: seq<Address>, lo: nat, hi: nat, available: set<Address>)
    requires items != [] && Distinct(items) && lo <= hi <= lo + |items|
    ensures Distinct(AvailableBetween(items, lo, hi, available))
    decreases hi - lo
  {
    if lo < hi {
      BetweenDistinct(items, lo + 1, hi, available);
      BetweenMembers(items, lo + 1, hi, available);
      forall q | lo + 1 <= q < hi ensures At(items, q) != At(items, lo) {
        ItemsDiffer(items, lo, q);
      }
    }
  }

  /** Fairness: under a fixed availability set, as many consecutive calls as there are
      available addresses in the cycle pick each of them exactly once, in cycle order. */
  lemma EachOnceInCycleOrder(items: seq<Address>, p: nat, available: set<Address>)
    requires items != [] && Distinct(items)
    ensures var round := AvailableBetween(items, p, p + |items|, available);
            && Calls(items, p, available, |round|) == AllPicked(round)
            && Distinct(round)
            && (forall a :: a in round <==> a in items && a in available)
  {
    var round := AvailableBetween(items, p, p + |items|, available);
    CallsFollow(items, p, p + |items|, available);
    BetweenDistinct(items, p, p + |items|, available);
    BetweenMembers(items, p, p + |items|, available);
    forall a | a in items && a in available ensures a in round {
      var q := EveryItemShown(items, p, a);
    }
  }

  // ---------------------------------------------------------------- the objects

  class Cycler {
    const items: seq<Address>
    var position: nat

    constructor (items: seq<Address>)
      ensures this.items == items && position == 0
    {
      this.items := items;
      position := 0;
    }

    // Python's `next` on the cycler; it stops iteration on an empty list.
    method Next() returns (r: Option<Address>)
      modifies this
      ensures items == [] ==> r.None? && position == old(position)
      ensures items != [] ==> r == Some(At(items, old(position))) && position == old(position) + 1
    {
      if items == [] {
        return None;
      }
      r := Some(items[position % |items|]);
      position := position + 1;
    }
  }

  class RoundRobinSchedulingPolicy {
    constructor () {}

    // `available` is what the registry reports for the role and model.
    method Schedule(cycler: Cycler, available: set<Address>) returns (r: Outcome)
      modifies cycler
      ensures (r, cycler.position) == Drawn(cycler.items, old(cycler.position), available)
    {
      if available == {} {
        return Nobody;
      }
      var seen: set<Address> := {};
      ghost var p, q, items := cycler.position, cycler.position, cycler.items;
      while true
        invariant p <= q <= p + |items| && cycler.position == q && (items == [] ==> q == p)
        invariant items != [] ==> Shows(items, p, q, seen)
        invariant items != [] ==> Draw(items, p, p, available) == Draw(items, p, q, available)
        decreases p + |items| - q
      {
        var next := cycler.Next();
        if next.None? {
          return StopIteration;
        }
        var instance := next.value;
        if instance in available {
          return Picked(instance);
        }
        ShowsMore(items, p, q, seen);
        if q == p + |items| {
          OnceAround(items, p);
        }
        if instance in seen {
          return Nobody;
        }
        seen := seen + {instance};
        q := q + 1;
      }
    }
  }

  // The items at positions p, ..., q - 1.
  ghost predicate Shows(items: seq<Address>, p: nat, q: nat, seen: set<Address>)
    requires items != []
  {
    forall a :: a in seen <==> exists i: nat :: p <= i < q && At(items, i) == a
  }

  lemma ShowsMore(items: seq<Address>, p: nat, q: nat, seen: set<Address>)
    requires items != [] && p <= q && Shows(items, p, q, seen)
    ensures Shows(items, p, q + 1, seen + {At(items, q)})
    ensures At(items, q) in seen <==> DrawnSince(items, p, q)
  {
    forall a ensures a in seen + {At(items, q)} <==> exists i: nat :: p <= i < q + 1 && At(items, i) == a {
      if exists i: nat :: p <= i < q + 1 && At(items, i) == a {
        var i: nat :| p <= i < q + 1 && At(items, i) == a;
        assert i == q || i < q;
      }
    }
  }
}
