/** The power-of-two-choices policy: of two sampled instances the less loaded one. */
module PowerOfTwo {
  import opened Common

  // The loads a caller reports; an instance it does not report counts as idle.
  function LoadIn(loads: map<Address, int>, a: Address): int {
    if a in loads then loads[a] else 0
  }

  // Two different candidates, if there are as many.
  ghost predicate IsSample(candidates: set<Address>, a: Address, b: Address) {
    a in candidates && b in candidates && (a == b ==> candidates == {a})
  }

  class PowerOfTwoPolicy {
    var workers: seq<Address>
    var load: map<Address, int>

    ghost predicate Valid()
      reads this
    {
      && Distinct(workers)
      && (forall a :: a in load <==> a in workers)
      && forall a :: a in load ==> load[a] >= 0
    }

    constructor ()
      ensures Valid() && workers == []
    {
      workers, load := [], map[];
    }

    method AddWorker(addr: Address)
      requires Valid()
      modifies this
      ensures Valid()
      ensures workers == if addr in old(workers) then old(workers) else old(workers) + [addr]
    {
      if addr !in load {
        workers := workers + [addr];
        load := load[addr := 0];
      }
    }

    method RemoveWorker(addr: Address)
      requires Valid()
      modifies this
      ensures Valid() && workers == Without(old(workers), addr)
    {
      if addr in load {
        WithoutFacts(workers, addr);
        workers := Without(workers, addr);
        load := load - {addr};
      }
    }

    // `first` and `second` are the sample.
    method SelectFrom(candidates: set<Address>, loads: map<Address, int>, first: Address, second: Address)
      returns (r: Option<Address>)
      requires candidates != {} ==> IsSample(candidates, first, second)
      ensures r.None? <==> candidates == {}
      ensures r.Some? ==> r.value in {first, second} && r.value in candidates
      ensures r.Some? ==> LoadIn(loads, r.value) <= LoadIn(loads, first) && LoadIn(loads, r.value) <= LoadIn(loads, second)
    {
      if candidates == {} {
        return None;
      }
      return Some(if LoadIn(loads, first) <= LoadIn(loads, second) then first else second);
    }

    // A completion lowers a positive load of its own table.
    method ScheduleCompletion(prefill: Option<Address>, decode: Option<Address>)
      requires Valid()
      modifies this
      ensures Valid() && workers == old(workers)
      ensures forall a :: a in load ==>
                load[a] == if Some(a) == (if decode.Some? then decode else prefill) && old(load)[a] > 0 then old(load)[a] - 1
                           else old(load)[a]
    {
      var o := if decode.Some? then decode else prefill;
      if o.Some? && o.value in load && load[o.value] > 0 {
        load := load[o.value := load[o.value] - 1];
      }
    }
  }

  /** Whatever two instances are sampled, the pick is never the one instance busier than all
      the others. */
  lemma NeverTheBusiest(candidates: set<Address>, loads: map<Address, int>, a: Address, b: Address, pick: Address)
    requires IsSample(candidates, a, b) && pick in {a, b}
    requires LoadIn(loads, pick) <= LoadIn(loads, a) && LoadIn(loads, pick) <= LoadIn(loads, b)
    ensures candidates != {pick} ==> exists c :: c in candidates && c != pick && LoadIn(loads, pick) <= LoadIn(loads, c)
  {
    assert a in candidates && b in candidates;
    if candidates != {pick} {
      var c := if pick == a then b else a;
      assert c in candidates && LoadIn(loads, pick) <= LoadIn(loads, c);
    }
  }
}
