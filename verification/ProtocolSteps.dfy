/** What each step of the protocol does to one address, whatever state the others are in. */
module ProtocolSteps {
  import opened Common
  import opened Registry
  import opened LoadBalancer
  import opened Leases
  import opened Protocol

  lemma ScheduledTallied(s: System, role: Role, a: Address, length: int, tracked: bool, x: Address)
    requires Shaped(s) && InRole(s.records, role, a) && (tracked ==> s.balanced && !role.Aggregated?) && Tallied(s, x)
    ensures tracked ==> a in RosterOf(s, role).addresses
    ensures Tallied(Scheduled(s, role, a, length, tracked), x)
  {
    ListedIn(s, role, a);
    ScheduledCount(s.records, s.leases, Lease(role, a, length, tracked, false), x);
    if tracked {
      TrackedArrays(s, Lease(role, a, length, tracked, false), x);
    } else if s.balanced {
      LeaseElsewhere(s.prefill, s.leases, Lease(role, a, length, tracked, false), x);
      LeaseElsewhere(s.decode, s.leases, Lease(role, a, length, tracked, false), x);
    }
  }

  lemma ScheduledCount(rs: Records, ls: seq<Lease>, l: Lease, x: Address)
    requires l.address in rs && !l.released && CountOn(rs, ls, x)
    ensures CountOn(Incremented(rs, l.address), ls + [l], x)
  {
    TotalAppend(ls, l, Held(x));
  }

  lemma TrackedArrays(s: System, l: Lease, x: Address)
    requires Listed(s) && Aligned(s) && s.balanced && BalancedOn(s, x)
    requires l.tracked && !l.released && !l.role.Aggregated? && InRole(s.records, l.role, l.address)
    ensures l.address in RosterOf(s, l.role).addresses
    ensures BalancedOn(Scheduled(s, l.role, l.address, l.length, true), x)
  {
    ListedIn(s, l.role, l.address);
    LeaseOn(RosterOf(s, l.role), s.leases, l, x);
    LeaseElsewhere(if l.role.Prefill? then s.decode else s.prefill, s.leases, l, x);
  }

  lemma QuietCount(s: System, k: nat, x: Address)
    requires k < |s.leases| && s.leases[k].address in s.records && !s.leases[k].released
    requires CountOn(s.records, s.leases, x)
    ensures CountOn(Quiet(s, k).records, Quiet(s, k).leases, x)
  {
    TotalUpdate(s.leases, k, s.leases[k].(released := true), Held(x));
    TotalAtLeast(s.leases, k, Held(x));
    TotalNonNegative(MarkReleased(s.leases, k), Held(x));
  }

  // A quiet release is right everywhere but where the load balancer had counted the lease.
  lemma QuietTallied(s: System, k: nat, x: Address)
    requires Shaped(s) && k < |s.leases| && s.leases[k].address in s.records && !s.leases[k].released && Tallied(s, x)
    requires s.leases[k].address == x ==> !s.leases[k].tracked
    ensures Tallied(Quiet(s, k), x)
  {
    QuietCount(s, k, x);
    if s.balanced {
      ReleaseElsewhere(s.prefill, s.leases, k, x);
      ReleaseElsewhere(s.decode, s.leases, k, x);
    }
  }

  // There the batch counter stays one too high.
  lemma QuietLeavesBatch(s: System, k: nat)
    requires Shaped(s) && CanRelease(s, k) && !s.leases[k].released
    requires s.balanced && s.leases[k].tracked && !s.leases[k].role.Aggregated?
    requires BalancedOn(s, s.leases[k].address)
    ensures !BalancedOn(Quiet(s, k), s.leases[k].address)
  {
    var l := s.leases[k];
    var r := RosterOf(s, l.role);
    var i := IndexOf(r.addresses, l.address);
    TotalUpdate(s.leases, k, l.(released := true), Batched(l.address));
    assert r.pool.batch[i] == Total(s.leases, Batched(l.address));
  }

  // A release that both hear of is right where the load balancer had counted the lease, and
  // where it counts no request.
  lemma ToldTallied(s: System, k: nat, x: Address)
    requires Shaped(s) && CanRelease(s, k) && s.balanced && !s.leases[k].role.Aggregated? && !s.leases[k].released
    requires Tallied(s, x)
    requires s.leases[k].address == x ==> s.leases[k].tracked || Total(s.leases, Batched(x)) == 0
    requires s.leases[k].tracked ==> InRole(s.records, s.leases[k].role, s.leases[k].address)
    ensures Tallied(Told(s, k), x)
  {
    var l := s.leases[k];
    QuietCount(s, k, x);
    if l.tracked {
      ListedIn(s, l.role, l.address);
      if l.role.Prefill? {
        CompletionOn(s.prefill, s.leases, k, x);
        ReleaseElsewhere(s.decode, s.leases, k, x);
      } else {
        CompletionOn(s.decode, s.leases, k, x);
        ReleaseElsewhere(s.prefill, s.leases, k, x);
      }
    } else {
      var r := RosterOf(s, l.role);
      CompletionElsewhere(r, s.leases, IndexOf(r.addresses, l.address), l.length, x);
      var t := CompletedIn(s, k);
      ReleaseElsewhere(t.prefill, s.leases, k, x);
      ReleaseElsewhere(t.decode, s.leases, k, x);
    }
  }

  // The leases on `a` stay backed while roles, fallback models and older leases stay.
  lemma BackedKept(s: System, t: System, fallback: set<string>, a: Address)
    requires BackedOn(s, fallback, a) && t.balanced == s.balanced
    requires a in s.records ==>
               a in t.records && t.records[a].role == s.records[a].role
               && (t.records[a].model in fallback <==> s.records[a].model in fallback)
    requires forall k :: 0 <= k < |t.leases| && !t.leases[k].released && t.leases[k].address == a ==>
               k < |s.leases| && s.leases[k] == t.leases[k]
    ensures BackedOn(t, fallback, a)
  {
    forall k | 0 <= k < |t.leases| && !t.leases[k].released && t.leases[k].address == a
      ensures Backed(t, fallback, t.leases[k])
    {
      assert Backed(s, fallback, s.leases[k]);
    }
  }

  // ---------------------------------------------------------------- each step, one address

  lemma ScheduledInStep(s: System, fallback: set<string>, role: Role, model: string, a: Address, length: int, x: Address)
    requires Shaped(s) && InStep(s, fallback, x) && InRole(s.records, role, a)
    requires role.Aggregated? || (model in fallback <==> s.records[a].model in fallback)
    ensures var tracked := Tracks(s, fallback, role, model);
            (tracked ==> a in RosterOf(s, role).addresses) && InStep(Scheduled(s, role, a, length, tracked), fallback, x)
  {
    var tracked := Tracks(s, fallback, role, model);
    ScheduledTallied(s, role, a, length, tracked, x);
    var t := Scheduled(s, role, a, length, tracked);
    forall k | 0 <= k < |t.leases| && !t.leases[k].released && t.leases[k].address == x
      ensures Backed(t, fallback, t.leases[k])
    {
      if k < |s.leases| {
        assert t.leases[k] == s.leases[k] && Backed(s, fallback, s.leases[k]);
      }
    }
  }

  lemma QuietInStep(s: System, fallback: set<string>, k: nat, x: Address)
    requires Shaped(s) && k < |s.leases| && s.leases[k].address in s.records && !s.leases[k].released
    requires InStep(s, fallback, x) && (s.leases[k].address == x ==> !s.leases[k].tracked)
    ensures InStep(Quiet(s, k), fallback, x)
  {
    QuietTallied(s, k, x);
    BackedKept(s, Quiet(s, k), fallback, x);
  }

  // The instance of an unreleased lease, when its records agree.
  lemma Holder(s: System, fallback: set<string>, k: nat)
    requires Shaped(s) && k < |s.leases| && !s.leases[k].released && InStep(s, fallback, s.leases[k].address)
    ensures CanRelease(s, k) && InRole(s.records, s.leases[k].role, s.leases[k].address)
    ensures s.leases[k].tracked <==> Tracks(s, fallback, s.leases[k].role, s.records[s.leases[k].address].model)
    ensures s.records[s.leases[k].address].active > 0
  {
    assert Backed(s, fallback, s.leases[k]);
    ListedIn(s, s.leases[k].role, s.leases[k].address);
    TotalAtLeast(s.leases, k, Held(s.leases[k].address));
  }

  lemma {:induction false} NoneTracked(ls: seq<Lease>, a: Address)
    requires forall k :: 0 <= k < |ls| && !ls[k].released && ls[k].address == a ==> !ls[k].tracked
    ensures Total(ls, Batched(a)) == 0
  {
    if ls != [] {
      NoneTracked(ls[..|ls| - 1], a);
    }
  }

  // Of two requests on one instance the load balancer counts both or none.
  lemma UntrackedAll(s: System, fallback: set<string>, k: nat)
    requires Shaped(s) && k < |s.leases| && !s.leases[k].released && InStep(s, fallback, s.leases[k].address)
    requires !s.leases[k].tracked
    ensures Total(s.leases, Batched(s.leases[k].address)) == 0
  {
    var a := s.leases[k].address;
    assert Backed(s, fallback, s.leases[k]);
    forall j | 0 <= j < |s.leases| && !s.leases[j].released && s.leases[j].address == a ensures !s.leases[j].tracked {
      assert Backed(s, fallback, s.leases[j]);
    }
    NoneTracked(s.leases, a);
  }

  // A told release keeps every address in step that was; its own may be out of step.
  lemma ToldInStep(s: System, fallback: set<string>, k: nat, x: Address)
    requires Shaped(s) && CanRelease(s, k) && s.balanced && !s.leases[k].role.Aggregated? && !s.leases[k].released
    requires InStep(s, fallback, x)
    ensures InStep(Told(s, k), fallback, x)
  {
    var l := s.leases[k];
    if l.address == x {
      Holder(s, fallback, k);
      if !l.tracked {
        UntrackedAll(s, fallback, k);
      }
      ToldTallied(s, k, x);
    } else {
      ToldElsewhere(s, k, x);
    }
    BackedKept(s, Told(s, k), fallback, x);
  }

  lemma ToldElsewhere(s: System, k: nat, x: Address)
    requires Shaped(s) && CanRelease(s, k) && s.balanced && !s.leases[k].role.Aggregated? && !s.leases[k].released
    requires Tallied(s, x) && s.leases[k].address != x
    ensures Tallied(Told(s, k), x)
  {
    var r := RosterOf(s, s.leases[k].role);
    var t := CompletedIn(s, k);
    QuietCount(s, k, x);
    CompletionElsewhere(r, s.leases, IndexOf(r.addresses, s.leases[k].address), s.leases[k].length, x);
    ReleaseElsewhere(t.prefill, s.leases, k, x);
    ReleaseElsewhere(t.decode, s.leases, k, x);
  }

  lemma ReleasedInStep(s: System, fallback: set<string>, k: nat, x: Address)
    requires Shaped(s) && k < |s.leases| && !s.leases[k].released && InStep(s, fallback, x)
    ensures Aligned(Released(s, fallback, k)) && InStep(Released(s, fallback, k), fallback, x)
  {
    ReleasedShape(s, fallback, k);
    var l := s.leases[k];
    if l.address == x {
      Holder(s, fallback, k);
    }
    if l.address in s.records {
      if Tracks(s, fallback, l.role, s.records[l.address].model) && CanRelease(s, k) {
        ToldInStep(s, fallback, k, x);
      } else {
        QuietInStep(s, fallback, k, x);
      }
    }
  }

  /** A further release of a lease already released keeps the count right exactly when no
      unreleased lease is left on the instance: then the clamp fires. */
  lemma AgainInStep(s: System, fallback: set<string>, k: nat, x: Address)
    requires Shaped(s) && k < |s.leases| && InStep(s, fallback, x)
    ensures Aligned(Again(s, k))
    ensures InStep(Again(s, k), fallback, x) <==>
            !(s.leases[k].address == x && x in s.records && s.records[x].active > 0)
  {
    TotalNonNegative(s.leases, Held(x));
    BackedKept(s, Again(s, k), fallback, x);
  }

  lemma AddedInStep(s: System, fallback: set<string>, role: Role, a: Address, model: string, limit: int, x: Address)
    requires Shaped(s) && a !in s.records && InStep(s, fallback, x)
    ensures Aligned(Added(s, role, a, model, limit)) && InStep(Added(s, role, a, model, limit), fallback, x)
  {
    AddedShape(s, role, a, model, limit);
    var t := Added(s, role, a, model, limit);
    if x == a {
      forall k | 0 <= k < |s.leases| ensures s.leases[k].released || s.leases[k].address != a {
        assert !s.leases[k].released && s.leases[k].address == a ==> Backed(s, fallback, s.leases[k]);
      }
      assert Unleased(s.leases, a);
    }
    UnleasedTotals(s.leases, a);
    if s.balanced {
      ExtensionOn(s.prefill, s.leases, a, limit, x);
      ExtensionOn(s.decode, s.leases, a, limit, x);
    }
    BackedKept(s, t, fallback, x);
  }

  lemma RemovedInStep(s: System, fallback: set<string>, role: Role, a: Address, x: Address)
    requires Shaped(s) && InRole(s.records, role, a) && s.records[a].active <= 0 && InStep(s, fallback, x)
    ensures CanRemove(s, role, a) && Aligned(Removed(s, role, a)) && InStep(Removed(s, role, a), fallback, x)
    ensures x == a ==> Unleased(s.leases, a)
  {
    RemovedShape(s, role, a);
    UnleasedTotals(s.leases, a);
    if s.balanced && role.Prefill? {
      ShrinkOn(s.prefill, s.leases, a, x);
    }
    if s.balanced && role.Decode? {
      ShrinkOn(s.decode, s.leases, a, x);
    }
    if x != a {
      BackedKept(s, Removed(s, role, a), fallback, x);
    }
  }

  // Only one record changes, keeping its role, count and, while leased, its fallback status.
  lemma RecordChangeInStep(s: System, fallback: set<string>, a: Address, r: Record, x: Address)
    requires Shaped(s) && a in s.records && InStep(s, fallback, x)
    requires r.role == s.records[a].role && r.active == s.records[a].active
    requires s.records[a].active == 0 || (r.model in fallback <==> s.records[a].model in fallback)
    ensures InStep(s.(records := s.records[a := r]), fallback, x)
  {
    UnleasedTotals(s.leases, a);
    if x != a || s.records[a].active != 0 {
      BackedKept(s, s.(records := s.records[a := r]), fallback, x);
    }
  }
}
