/** The invariant: every address is in step.  Each step keeps it, and it says that the three
    records agree. */
module ProtocolInvariant {
  import opened Common
  import opened Registry
  import opened LoadBalancer
  import opened Leases
  import opened Protocol
  import opened ProtocolSteps

  lemma ScheduledKeeps(s: System, fallback: set<string>, role: Role, model: string, a: Address, length: int)
    requires Inv(s, fallback) && a in s.records && s.records[a].role == role
    requires role.Aggregated? || (model in fallback <==> s.records[a].model in fallback)
    ensures var tracked := Tracks(s, fallback, role, model);
            (tracked ==> a in RosterOf(s, role).addresses) && Inv(Scheduled(s, role, a, length, tracked), fallback)
  {
    var tracked := Tracks(s, fallback, role, model);
    assert InRole(s.records, role, a);
    ScheduledShape(s, role, a, length, tracked);
    forall x ensures InStep(Scheduled(s, role, a, length, tracked), fallback, x) {
      assert InStep(s, fallback, x);
      ScheduledInStep(s, fallback, role, model, a, length, x);
    }
  }

  /** In every state satisfying the invariant, releasing an unreleased lease reaches a
      registered instance that is in its role's list, and neither the clamp of the active
      count nor the zero-count guard of the batch counter fires. */
  lemma ReleaseIsSafe(s: System, fallback: set<string>, k: nat)
    requires Inv(s, fallback) && k < |s.leases| && !s.leases[k].released
    ensures CanRelease(s, k)
    ensures s.records[s.leases[k].address].active > 0
    ensures s.leases[k].tracked ==>
              var r := if s.leases[k].role.Prefill? then s.prefill else s.decode;
              s.balanced && s.leases[k].address in r.addresses && r.pool.batch[IndexOf(r.addresses, s.leases[k].address)] > 0
  {
    var l := s.leases[k];
    assert InStep(s, fallback, l.address);
    Holder(s, fallback, k);
    if l.tracked {
      CompletionOn(RosterOf(s, l.role), s.leases, k, l.address);
    }
  }

  lemma ReleasedKeeps(s: System, fallback: set<string>, k: nat)
    requires Inv(s, fallback) && k < |s.leases| && !s.leases[k].released
    ensures CanRelease(s, k) && Inv(Released(s, fallback, k), fallback)
  {
    ReleaseIsSafe(s, fallback, k);
    ReleasedShape(s, fallback, k);
    forall x ensures InStep(Released(s, fallback, k), fallback, x) {
      assert InStep(s, fallback, x);
      ReleasedInStep(s, fallback, k, x);
    }
  }

  /** Lowering an aggregated instance's count again for a lease already released keeps the
      records in agreement if and only if no request is active on it. */
  lemma RepeatedRelease(s: System, fallback: set<string>, k: nat)
    requires Inv(s, fallback) && k < |s.leases| && s.leases[k].address in s.records
    ensures Inv(Again(s, k), fallback) <==> s.records[s.leases[k].address].active == 0
  {
    var a := s.leases[k].address;
    ShapeKept(s, Again(s, k));
    assert InStep(s, fallback, a);
    UnleasedTotals(s.leases, a);
    AgainInStep(s, fallback, k, a);
    if s.records[a].active == 0 {
      assert Again(s, k).records == s.records;
    }
  }

  /** Releasing both leases of one reservation in a single call is releasing one after the
      other. */
  lemma BothIsOneByOne(s: System, fallback: set<string>, p: nat, d: nat)
    requires Inv(s, fallback) && p < |s.leases| && d < |s.leases|
    requires !s.leases[p].released && !s.leases[d].released
    requires s.leases[p].role.Prefill? && s.leases[d].role.Decode? && s.leases[p].tracked == s.leases[d].tracked
    ensures CanRelease(s, p) && CanRelease(s, d) && CanRelease(Released(s, fallback, p), d)
    ensures ReleasedBoth(s, fallback, p, d) == Released(Released(s, fallback, p), fallback, d)
    ensures Inv(ReleasedBoth(s, fallback, p, d), fallback)
  {
    assert InStep(s, fallback, s.leases[p].address) && InStep(s, fallback, s.leases[d].address);
    Holder(s, fallback, p);
    Holder(s, fallback, d);
    ReleasedKeeps(s, fallback, p);
    var t := Released(s, fallback, p);
    assert t.leases[d] == s.leases[d];
    ReleasedKeeps(t, fallback, d);
    assert s.leases[p].address != s.leases[d].address;
  }

  lemma AddedKeeps(s: System, fallback: set<string>, role: Role, a: Address, model: string, limit: int)
    requires Inv(s, fallback) && a !in s.records
    ensures Inv(Added(s, role, a, model, limit), fallback)
  {
    AddedShape(s, role, a, model, limit);
    forall x ensures InStep(Added(s, role, a, model, limit), fallback, x) {
      assert InStep(s, fallback, x);
      AddedInStep(s, fallback, role, a, model, limit, x);
    }
  }

  lemma RemovedKeeps(s: System, fallback: set<string>, role: Role, a: Address)
    requires Inv(s, fallback) && a in s.records && s.records[a].role == role && s.records[a].active <= 0
    ensures CanRemove(s, role, a) && Unleased(s.leases, a)
    ensures Inv(Removed(s, role, a), fallback)
  {
    assert InRole(s.records, role, a);
    RemovedShape(s, role, a);
    assert InStep(s, fallback, a);
    RemovedInStep(s, fallback, role, a, a);
    forall x ensures InStep(Removed(s, role, a), fallback, x) {
      assert InStep(s, fallback, x);
      RemovedInStep(s, fallback, role, a, x);
    }
  }

  // A change to one record that keeps its role, count and, while leased, its fallback status.
  lemma RecordChangeKeeps(s: System, fallback: set<string>, a: Address, r: Record)
    requires Inv(s, fallback) && a in s.records
    requires r.role == s.records[a].role && r.active == s.records[a].active
    requires s.records[a].status.Draining? ==> r.status.Draining?
    requires s.records[a].active == 0 || (r.model in fallback <==> s.records[a].model in fallback)
    ensures Inv(s.(records := s.records[a := r]), fallback)
  {
    var t := s.(records := s.records[a := r]);
    ShapeKept(s, t);
    forall x ensures InStep(t, fallback, x) {
      assert InStep(s, fallback, x);
      RecordChangeInStep(s, fallback, a, r, x);
    }
  }

  lemma BreakersInStep(s: System, fallback: set<string>, rs: Records, x: Address)
    requires Shaped(s) && SameButBreakers(s.records, rs) && InStep(s, fallback, x)
    ensures InStep(s.(records := rs), fallback, x)
  {
    BackedKept(s, s.(records := rs), fallback, x);
  }

  lemma BreakersKeep(s: System, fallback: set<string>, rs: Records)
    requires Inv(s, fallback) && SameButBreakers(s.records, rs)
    ensures Inv(s.(records := rs), fallback)
  {
    var t := s.(records := rs);
    ShapeKept(s, t);
    forall x ensures InStep(t, fallback, x) {
      assert InStep(s, fallback, x);
      BreakersInStep(s, fallback, rs, x);
    }
  }

  lemma LockChangeKeeps(s: System, fallback: set<string>, lock: Option<Drain>)
    requires Inv(s, fallback) && Locked(s.(lock := lock))
    ensures Inv(s.(lock := lock), fallback)
  {
    var t := s.(lock := lock);
    forall x ensures InStep(t, fallback, x) {
      assert InStep(s, fallback, x);
      BackedKept(s, t, fallback, x);
    }
  }

  // ---------------------------------------------------------------- what the invariant says

  lemma InvBalances(s: System, fallback: set<string>)
    requires Inv(s, fallback) && s.balanced
    ensures Agrees(s.prefill, s.leases) && Agrees(s.decode, s.leases)
  {
    forall a ensures AgreesOn(s.prefill, s.leases, a) && AgreesOn(s.decode, s.leases, a) {
      assert InStep(s, fallback, a);
    }
  }

  lemma {:induction false} AllTracked(ls: seq<Lease>, a: Address)
    requires forall k :: 0 <= k < |ls| && !ls[k].released && ls[k].address == a ==> ls[k].tracked
    ensures Total(ls, Batched(a)) == Total(ls, Held(a))
  {
    if ls != [] {
      AllTracked(ls[..|ls| - 1], a);
    }
  }

  /** The three records agree: for the instance at every position of a role's list, the
      registry's active count is its number of unreleased reservations; unless its model is
      a fallback model, that is also its batch counter.  The token counter is the sum of the
      lengths of the reservations counted. */
  lemma ThreeRecordsAgree(s: System, fallback: set<string>, role: Role, i: nat)
    requires Inv(s, fallback) && s.balanced && !role.Aggregated? && i < |RosterOf(s, role).addresses|
    ensures var a := RosterOf(s, role).addresses[i];
            && a in s.records
            && Sized(RosterOf(s, role).pool, |RosterOf(s, role).addresses|)
            && s.records[a].active == Total(s.leases, Held(a))
            && (s.records[a].model !in fallback ==> RosterOf(s, role).pool.batch[i] == s.records[a].active)
            && RosterOf(s, role).pool.tokens[i] == Total(s.leases, Lengths(a))
  {
    var a := RosterOf(s, role).addresses[i];
    assert a in RosterOf(s, role).addresses && InStep(s, fallback, a);
    if s.records[a].model !in fallback {
      forall k | 0 <= k < |s.leases| && !s.leases[k].released && s.leases[k].address == a ensures s.leases[k].tracked {
        assert Backed(s, fallback, s.leases[k]);
      }
      AllTracked(s.leases, a);
    }
  }

  /** In every such state the decode choice is the lexicographic minimum of batch, token
      load and index: the zero-batch shortcut agrees with the general branch. */
  lemma DecodeChoiceIsLexicographic(s: System, fallback: set<string>, need: int, available: set<Address>, i: nat)
    requires Inv(s, fallback) && s.balanced
    ensures Sized(s.decode.pool, |s.decode.addresses|)
    ensures DecodeChoice(s.decode.pool, s.decode.addresses, need, available, i) <==>
            LexicographicChoice(s.decode.pool, s.decode.addresses, need, available, i)
  {
    InvBalances(s, fallback);
    forall j | 0 <= j < |s.decode.addresses| && s.decode.pool.batch[j] == 0 ensures s.decode.pool.tokens[j] == 0 {
      assert AgreesOn(s.decode, s.leases, s.decode.addresses[j]);
      NoBatchNoTokens(s.leases, s.decode.addresses[j]);
    }
    ShortcutAgrees(s.decode.pool, s.decode.addresses, need, available, i);
  }
}
