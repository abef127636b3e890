/** Which limit belongs to which instance: the load balancer finds an instance's model
    length by its position in a list that grows and shrinks meanwhile. */
module Limits {
  import opened Common
  import opened Registry
  import opened LoadBalancer
  import opened Leases
  import opened Protocol
  import opened ProtocolRuns
  import opened Draining

  // The array entries of an address, found by its position.
  datatype Place = Place(batch: int, tokens: int, limit: int)

  function PlaceOf(r: Roster, a: Address): Place
    requires a in r.addresses && Sized(r.pool, |r.addresses|)
  {
    var i := IndexOf(r.addresses, a);
    Place(r.pool.batch[i], r.pool.tokens[i], r.pool.limits[i])
  }

  lemma IndexIs(s: seq<Address>, i: nat)
    requires Distinct(s) && i < |s|
    ensures s[i] in s && IndexOf(s, s[i]) == i
  {
    PositionOf(s, i);
  }

  /** Extending the arrays with the list leaves every instance its entries and gives the new
      one none but its limit. */
  lemma ExtensionKeepsPlaces(r: Roster, a: Address, limit: int, b: Address)
    requires Sized(r.pool, |r.addresses|) && Distinct(r.addresses) && a !in r.addresses && (b in r.addresses || b == a)
    ensures var q := Roster(r.addresses + [a], Extend(r.pool, limit));
            && Sized(q.pool, |q.addresses|) && b in q.addresses
            && PlaceOf(q, b) == if b == a then Place(0, 0, limit) else PlaceOf(r, b)
  {
    var q := Roster(r.addresses + [a], Extend(r.pool, limit));
    if b == a {
      IndexIs(q.addresses, |r.addresses|);
    } else {
      var i := IndexOf(r.addresses, b);
      assert q.addresses[i] == b;
      IndexIs(q.addresses, i);
    }
  }

  /** Deleting an instance's entries leaves every other instance its own. */
  lemma RemovalKeepsPlaces(r: Roster, a: Address, b: Address)
    requires Sized(r.pool, |r.addresses|) && Distinct(r.addresses) && a in r.addresses && b in r.addresses && b != a
    ensures var q := Roster(Without(r.addresses, a), Shrink(r.pool, IndexOf(r.addresses, a)));
            && Sized(q.pool, |q.addresses|) && b in q.addresses && PlaceOf(q, b) == PlaceOf(r, b)
  {
    WithoutIsDeleteAt(r.addresses, a);
    DeletionKeepsPlaces(r, IndexOf(r.addresses, a), b);
  }

  lemma DeletionKeepsPlaces(r: Roster, i: nat, b: Address)
    requires Sized(r.pool, |r.addresses|) && Distinct(r.addresses) && i < |r.addresses|
    requires b in r.addresses && b != r.addresses[i]
    ensures var q := Roster(DeleteAt(r.addresses, i), Shrink(r.pool, i));
            && Sized(q.pool, |q.addresses|) && b in q.addresses && PlaceOf(q, b) == PlaceOf(r, b)
  {
    var k := IndexOf(r.addresses, b);
    var j := if k < i then k else k - 1;
    IndexAfterDeletion(r.addresses, i, b);
    ShrunkAt(r, i, j);
  }

  lemma IndexAfterDeletion(s: seq<Address>, i: nat, b: Address)
    requires Distinct(s) && i < |s| && b in s && b != s[i]
    ensures var k := IndexOf(s, b);
            b in DeleteAt(s, i) && IndexOf(DeleteAt(s, i), b) == if k < i then k else k - 1
  {
    var k := IndexOf(s, b);
    var j := if k < i then k else k - 1;
    DeletedDistinct(s, i);
    assert DeleteAt(s, i)[j] == b;
    IndexIs(DeleteAt(s, i), j);
  }

  // ---------------------------------------------------------------- steps

  // The role's arrays describe `b`, with this limit.
  ghost predicate HasLimit(s: System, role: Role, b: Address, limit: int)
    requires !role.Aggregated?
  {
    var r := RosterOf(s, role);
    Sized(r.pool, |r.addresses|) && b in r.addresses && PlaceOf(r, b).limit == limit
  }

  lemma CountsKeepLimits(s: System, t: System, role: Role, b: Address, limit: int)
    requires !role.Aggregated? && HasLimit(s, role, b, limit)
    requires RosterOf(t, role).addresses == RosterOf(s, role).addresses
    requires RosterOf(t, role).pool.limits == RosterOf(s, role).pool.limits
    requires Sized(RosterOf(t, role).pool, |RosterOf(s, role).addresses|)
    ensures HasLimit(t, role, b, limit)
  {
  }

  ghost predicate SameLists(s: System, t: System) {
    && t.prefill.addresses == s.prefill.addresses && t.prefill.pool.limits == s.prefill.pool.limits
    && t.decode.addresses == s.decode.addresses && t.decode.pool.limits == s.decode.pool.limits
  }

  // Only additions and removals touch the lists and the limits.
  lemma OtherStepsKeepLists(env: Env, s: System, e: Event, t: System)
    requires Step(env, s, e, t) && !e.Adds? && !e.DrainRemoves?
    ensures SameLists(s, t)
  {
    if IsRelease(e) {
      ReleasesOnlyCount(env, s, e, t);
    }
  }

  lemma StepKeepsLimit(env: Env, s: System, e: Event, t: System, role: Role, b: Address, limit: int)
    requires Shaped(s) && s.balanced && Step(env, s, e, t) && !role.Aggregated?
    requires HasLimit(s, role, b, limit) && !RemovesAddress(s, e, b)
    ensures HasLimit(t, role, b, limit) && t.balanced
  {
    StepShape(env, s, e, t);
    StaysBalanced(env, s, e, t);
    var r := RosterOf(s, role);
    if e.Adds? && e.address !in s.records && e.role == role {
      AddedShape(s, role, e.address, e.model, e.limit);
      ExtensionKeepsPlaces(r, e.address, e.limit, b);
    } else if e.DrainRemoves? && s.lock.value.role == role {
      assert InRole(s.records, role, s.lock.value.address);
      RemovalKeepsPlaces(r, s.lock.value.address, b);
    } else if !e.Adds? && !e.DrainRemoves? {
      OtherStepsKeepLists(env, s, e, t);
      CountsKeepLimits(s, t, role, b, limit);
    }
  }

  lemma StaysBalanced(env: Env, s: System, e: Event, t: System)
    requires Step(env, s, e, t)
    ensures t.balanced == s.balanced
  {
    if IsRelease(e) {
      ReleasesOnlyCount(env, s, e, t);
    }
  }

  lemma AdditionSetsLimit(env: Env, s: System, e: Event, t: System)
    requires Shaped(s) && s.balanced && Step(env, s, e, t)
    requires e.Adds? && !e.role.Aggregated? && e.address !in s.records
    ensures HasLimit(t, e.role, e.address, e.limit) && t.balanced
  {
    AddedShape(s, e.role, e.address, e.model, e.limit);
    ExtensionKeepsPlaces(RosterOf(s, e.role), e.address, e.limit, e.address);
  }

  // ---------------------------------------------------------------- runs

  // The address is not removed in steps i, ..., j - 1.
  ghost predicate StaysFor(states: seq<System>, es: seq<Event>, a: Address, i: nat, j: nat)
    requires i <= j <= |es| && |states| == |es| + 1
  {
    forall k :: i <= k < j ==> !RemovesAddress(states[k], es[k], a)
  }

  /** Through all the additions, removals and requests of a run, an instance keeps the limit
      it was added with. */
  lemma {:induction false} LimitFollowsInstance(
    env: Env, states: seq<System>, es: seq<Event>, role: Role, b: Address, limit: int, i: nat, j: nat)
    requires Run(env, states, es) && Shaped(states[0]) && |states| == |es| + 1 && i <= j <= |es| && !role.Aggregated?
    requires states[i].balanced && HasLimit(states[i], role, b, limit) && StaysFor(states, es, b, i, j)
    ensures states[j].balanced && HasLimit(states[j], role, b, limit)
    decreases j
  {
    if i < j {
      LimitFollowsInstance(env, states, es, role, b, limit, i, j - 1);
      AlwaysShaped(env, states, es, j - 1);
      assert StepsAt(env, states, es, j - 1);
      StepKeepsLimit(env, states[j - 1], es[j - 1], states[j], role, b, limit);
    }
  }

  /** A request the load balancer places on an instance fits the model length that the
      instance reported when it was added, however many instances came and went between. */
  lemma RequestsFit(env: Env, states: seq<System>, es: seq<Event>, i: nat, j: nat)
    requires Run(env, states, es) && Shaped(states[0]) && |states| == |es| + 1 && i < j < |es|
    requires es[i].Adds? && !es[i].role.Aggregated? && es[i].address !in states[i].records && states[i].balanced
    requires StaysFor(states, es, es[i].address, i + 1, j)
    requires es[j].Schedules? && es[j].role == es[i].role && es[j].address == es[i].address && es[j].model !in env.fallback
    ensures es[j].length + es[j].maxTokens <= es[i].limit
  {
    AlwaysShaped(env, states, es, i);
    assert StepsAt(env, states, es, i) && StepsAt(env, states, es, j);
    AdditionSetsLimit(env, states[i], es[i], states[i + 1]);
    LimitFollowsInstance(env, states, es, es[i].role, es[i].address, es[i].limit, i + 1, j);
    ScheduledFits(env, states[j], es[j], states[j + 1], es[i].limit);
  }

  lemma ScheduledFits(env: Env, s: System, e: Event, t: System, limit: int)
    requires Step(env, s, e, t) && e.Schedules? && !e.role.Aggregated? && e.model !in env.fallback && s.balanced
    requires HasLimit(s, e.role, e.address, limit)
    ensures e.length + e.maxTokens <= limit
  {
  }
}
