/** When a request and its completion leave registry, arrays and leases in agreement.

    The load balancer counts a request by the model the request names, and hears of its
    completion by the models of the instances it was given. */
module Agreement {
  import opened Common
  import opened Registry
  import opened LoadBalancer
  import opened Leases
  import opened Protocol
  import opened ProtocolSteps

  // Every count and array entry is right.
  ghost predicate AllTallied(s: System) {
    Shaped(s) && forall x :: Tallied(s, x)
  }

  // Everything recorded for the leases of `s` is right in `u`, and all later leases are released.
  lemma SettledAgrees(s: System, u: System, fallback: set<string>)
    requires Inv(s, fallback) && AllTallied(u) && u.balanced == s.balanced
    requires forall x :: x in s.records ==>
               x in u.records && u.records[x].role == s.records[x].role && u.records[x].model == s.records[x].model
    requires |s.leases| <= |u.leases| && u.leases[..|s.leases|] == s.leases
    requires forall k :: |s.leases| <= k < |u.leases| ==> u.leases[k].released
    ensures Inv(u, fallback)
  {
    forall x ensures InStep(u, fallback, x) {
      assert InStep(s, fallback, x) && Tallied(u, x);
      forall k | 0 <= k < |s.leases| ensures u.leases[k] == s.leases[k] {
        assert u.leases[..|s.leases|][k] == s.leases[k];
      }
      BackedKept(s, u, fallback, x);
    }
  }

  // Balances at `x` concern only the leases on `x`.
  lemma StillUnbalanced(r: Roster, ls: seq<Lease>, k: nat, x: Address)
    requires Sized(r.pool, |r.addresses|) && k < |ls| && ls[k].address != x && !AgreesOn(r, ls, x)
    ensures !AgreesOn(r, MarkReleased(ls, k), x)
  {
    TotalUpdate(ls, k, ls[k].(released := true), Batched(x));
    TotalUpdate(ls, k, ls[k].(released := true), Lengths(x));
  }

  // ---------------------------------------------------------------- one instance

  // One instance scheduled for a request that names `model`.
  function Placed(s: System, fallback: set<string>, role: Role, model: string, a: Address, length: int): System
    requires InRole(s.records, role, a) && Aligned(s) && !role.Aggregated? && a in RosterOf(s, role).addresses
  {
    Scheduled(s, role, a, length, Tracks(s, fallback, role, model))
  }

  lemma PlacedTallied(s: System, fallback: set<string>, role: Role, model: string, a: Address, length: int)
    requires AllTallied(s) && InRole(s.records, role, a) && !role.Aggregated?
    ensures a in RosterOf(s, role).addresses
    ensures var t := Placed(s, fallback, role, model, a, length);
            AllTallied(t) && CanRelease(t, |s.leases|)
  {
    var tracked := Tracks(s, fallback, role, model);
    ListedIn(s, role, a);
    ScheduledShape(s, role, a, length, tracked);
    forall x ensures Tallied(Scheduled(s, role, a, length, tracked), x) {
      assert Tallied(s, x);
      ScheduledTallied(s, role, a, length, tracked, x);
    }
  }

  lemma InvTallies(s: System, fallback: set<string>)
    requires Inv(s, fallback)
    ensures AllTallied(s)
  {
    forall x ensures Tallied(s, x) {
      assert InStep(s, fallback, x);
    }
  }

  // The policy is told of the release exactly if it counted the lease.
  function Matched(s: System, k: nat): System
    requires CanRelease(s, k) && s.balanced && !s.leases[k].role.Aggregated?
  {
    if s.leases[k].tracked then Told(s, k) else Quiet(s, k)
  }

  // Such a release leaves every count and array entry right.
  lemma MatchedTallied(s: System, k: nat)
    requires AllTallied(s) && CanRelease(s, k) && s.balanced && !s.leases[k].role.Aggregated? && !s.leases[k].released
    requires InRole(s.records, s.leases[k].role, s.leases[k].address)
    ensures AllTallied(Matched(s, k))
  {
    if s.leases[k].tracked {
      ToldShape(s, k);
    } else {
      QuietShape(s, k);
    }
    forall x ensures Tallied(Matched(s, k), x) {
      assert Tallied(s, x);
      if s.leases[k].tracked {
        ToldTallied(s, k, x);
      } else {
        QuietTallied(s, k, x);
      }
    }
  }

  // A lease that was counted, and whose release is not reported.
  lemma Forgotten(u: System, fallback: set<string>, k: nat)
    requires Shaped(u) && CanRelease(u, k) && u.balanced && Tallied(u, u.leases[k].address)
    requires !u.leases[k].released && u.leases[k].tracked && !u.leases[k].role.Aggregated?
    ensures !Inv(Quiet(u, k), fallback)
  {
    QuietLeavesBatch(u, k);
    assert !InStep(Quiet(u, k), fallback, u.leases[k].address);
  }

  // Counted by the model the request names, never reported by the model the instance serves.
  predicate CountedForGood(fallback: set<string>, model: string, served: string) {
    model == "" && served in fallback
  }

  // A release the policy hears of exactly if it counted the lease: the records agree.
  lemma OneMatched(s: System, fallback: set<string>, t: System)
    requires Inv(s, fallback) && s.balanced && AllTallied(t) && t.balanced
    requires |t.leases| == |s.leases| + 1 && t.leases[..|s.leases|] == s.leases && CanRelease(t, |s.leases|)
    requires var l := t.leases[|s.leases|]; !l.released && !l.role.Aggregated? && InRole(t.records, l.role, l.address)
    requires forall x :: x in s.records ==>
               x in t.records && t.records[x].role == s.records[x].role && t.records[x].model == s.records[x].model
    ensures Inv(Matched(t, |s.leases|), fallback)
  {
    var n := |s.leases|;
    MatchedTallied(t, n);
    assert Matched(t, n).leases[..n] == s.leases;
    SettledAgrees(s, Matched(t, n), fallback);
  }

  /** One instance, scheduled and released alone: the records agree afterwards exactly when
      not a request without a model met an instance of a fallback model. */
  lemma AgreementNeedsTheModel(s: System, fallback: set<string>, role: Role, model: string, a: Address, length: nat)
    requires Inv(s, fallback) && s.balanced && !role.Aggregated? && "" !in fallback
    requires a in s.records && Matches(s.records[a], role, model)
    ensures a in RosterOf(s, role).addresses
    ensures var t := Placed(s, fallback, role, model, a, length);
            Inv(Released(t, fallback, |s.leases|), fallback) <==> !CountedForGood(fallback, model, s.records[a].model)
  {
    InvTallies(s, fallback);
    PlacedTallied(s, fallback, role, model, a, length);
    var t, k := Placed(s, fallback, role, model, a, length), |s.leases|;
    assert Tallied(t, a) && t.leases[..k] == s.leases;
    if CountedForGood(fallback, model, s.records[a].model) {
      Forgotten(t, fallback, k);
    } else {
      OneMatched(s, fallback, t);
    }
  }

  // ---------------------------------------------------------------- a whole request

  // Both instances of a request that names `model`, or none.
  ghost predicate Serves(s: System, model: string, a: Address, b: Address) {
    && a in s.records && Matches(s.records[a], Prefill, model)
    && b in s.records && Matches(s.records[b], Decode, model)
  }

  function Requested(s: System, fallback: set<string>, model: string, a: Address, b: Address, length: int): System
    requires InRole(s.records, Prefill, a) && InRole(s.records, Decode, b) && Aligned(s)
    requires a in s.prefill.addresses && b in s.decode.addresses
  {
    Placed(Placed(s, fallback, Prefill, model, a, length), fallback, Decode, model, b, length)
  }

  // The request's leases are the last two; registry, arrays and leases count them.
  ghost predicate Holds(t: System, s: System, a: Address, b: Address) {
    var n := |s.leases|;
    && AllTallied(t) && t.balanced && |t.leases| == n + 2 && t.leases[..n] == s.leases
    && CanRelease(t, n) && t.leases[n].role == Prefill && t.leases[n].address == a
    && CanRelease(t, n + 1) && t.leases[n + 1].role == Decode && t.leases[n + 1].address == b
    && InRole(t.records, Prefill, a) && InRole(t.records, Decode, b)
    && forall x :: x in s.records ==>
         x in t.records && t.records[x].role == s.records[x].role && t.records[x].model == s.records[x].model
  }

  lemma RequestedHolds(s: System, fallback: set<string>, model: string, a: Address, b: Address, length: int)
    requires Inv(s, fallback) && s.balanced && Serves(s, model, a, b)
    ensures a in s.prefill.addresses && b in s.decode.addresses && a != b
    ensures var t, n := Requested(s, fallback, model, a, b, length), |s.leases|;
            && Holds(t, s, a, b) && !t.leases[n].released && !t.leases[n + 1].released
            && (t.leases[n].tracked <==> model !in fallback) && (t.leases[n + 1].tracked <==> model !in fallback)
  {
    InvTallies(s, fallback);
    PlacedTallied(s, fallback, Prefill, model, a, length);
    var t := Placed(s, fallback, Prefill, model, a, length);
    ListedIn(s, Decode, b);
    PlacedTallied(t, fallback, Decode, model, b, length);
    assert Requested(s, fallback, model, a, b, length).leases ==
           s.leases + [t.leases[|s.leases|], Lease(Decode, b, length, Tracks(s, fallback, Decode, model), false)];
  }

  // One more of the two leases is released.
  lemma QuietHolds(t: System, s: System, a: Address, b: Address)
    requires Holds(t, s, a, b) && !t.leases[|s.leases|].released && a != b
    ensures var n := |s.leases|;
            Shaped(Quiet(t, n)) && Tallied(Quiet(t, n), b) && CanRelease(Quiet(t, n), n + 1)
  {
    QuietShape(t, |s.leases|);
    assert Tallied(t, b);
    QuietTallied(t, |s.leases|, b);
  }

  lemma MatchedHolds(t: System, s: System, a: Address, b: Address)
    requires Holds(t, s, a, b) && !t.leases[|s.leases|].released && a != b
    ensures Holds(Matched(t, |s.leases|), s, a, b)
    ensures Matched(t, |s.leases|).leases == MarkReleased(t.leases, |s.leases|)
  {
    var n := |s.leases|;
    MatchedTallied(t, n);
    assert MarkReleased(t.leases, n)[..n] == s.leases;
  }

  // Both releases reach the policy exactly if the request was counted: the records agree.
  lemma BothMatched(s: System, fallback: set<string>, t: System, a: Address, b: Address)
    requires Inv(s, fallback) && s.balanced && Holds(t, s, a, b) && a != b
    requires !t.leases[|s.leases|].released && !t.leases[|s.leases| + 1].released
    ensures var n := |s.leases|;
            CanRelease(Matched(t, n), n + 1) && Inv(Matched(Matched(t, n), n + 1), fallback)
  {
    var n := |s.leases|;
    MatchedHolds(t, s, a, b);
    var u := Matched(t, n);
    MatchedTallied(u, n + 1);
    var v := Matched(u, n + 1);
    assert v.leases[..n] == s.leases;
    SettledAgrees(s, v, fallback);
  }

  // The prefill lease's release is not reported, whatever becomes of the decode lease.
  lemma PrefillForgotten(s: System, fallback: set<string>, t: System, a: Address, b: Address)
    requires Holds(t, s, a, b) && a != b && !t.leases[|s.leases|].released && t.leases[|s.leases|].tracked
    ensures var n := |s.leases|; CanRelease(Quiet(t, n), n + 1) && !Inv(Told(Quiet(t, n), n + 1), fallback)
  {
    var n := |s.leases|;
    var u := Quiet(t, n);
    assert Tallied(t, a);
    QuietLeavesBatch(t, n);
    ListedIn(t, Prefill, a);
    StillUnbalanced(u.prefill, u.leases, n + 1, a);
    assert !InStep(Told(u, n + 1), fallback, a);
  }

  /** Both instances released in one call, as when a request ends at once: the policy is told
      of both unless both serve fallback models.  So the records agree afterwards exactly
      when not a request without a model met two such instances. */
  lemma TogetherAgrees(s: System, fallback: set<string>, model: string, a: Address, b: Address, length: nat)
    requires Inv(s, fallback) && s.balanced && "" !in fallback && Serves(s, model, a, b)
    ensures a in s.prefill.addresses && b in s.decode.addresses
    ensures var t, n := Requested(s, fallback, model, a, b, length), |s.leases|;
            && |t.leases| == n + 2 && t.leases[n].role.Prefill? && t.leases[n + 1].role.Decode? && Aligned(t)
            && (Inv(ReleasedBoth(t, fallback, n, n + 1), fallback) <==> !(model == "" && Silent(s, fallback, a, b)))
  {
    RequestedHolds(s, fallback, model, a, b, length);
    var t, n := Requested(s, fallback, model, a, b, length), |s.leases|;
    if model == "" && Silent(s, fallback, a, b) {
      QuietHolds(t, s, a, b);
      Forgotten(Quiet(t, n), fallback, n + 1);
    } else {
      assert Silent(t, fallback, a, b) <==> model in fallback;
      BothMatched(s, fallback, t, a, b);
    }
  }

  /** The same request with its prefill instance released early, on its own: now each
      instance decides for itself, and one of a fallback model is enough to go wrong. */
  lemma OneByOneAgrees(s: System, fallback: set<string>, model: string, a: Address, b: Address, length: nat)
    requires Inv(s, fallback) && s.balanced && "" !in fallback && Serves(s, model, a, b)
    ensures a in s.prefill.addresses && b in s.decode.addresses
    ensures var t, n := Requested(s, fallback, model, a, b, length), |s.leases|;
            && |t.leases| == n + 2
            && (Inv(Released(Released(t, fallback, n), fallback, n + 1), fallback) <==>
                !CountedForGood(fallback, model, s.records[a].model) && !CountedForGood(fallback, model, s.records[b].model))
  {
    RequestedHolds(s, fallback, model, a, b, length);
    var t := Requested(s, fallback, model, a, b, length);
    if CountedForGood(fallback, model, s.records[b].model) {
      DecodeForgotten(s, fallback, t, a, b);
    } else {
      ReleasedInTurn(s, fallback, t, a, b);
      if CountedForGood(fallback, model, s.records[a].model) {
        PrefillForgotten(s, fallback, t, a, b);
      } else {
        BothMatched(s, fallback, t, a, b);
      }
    }
  }

  // The decode lease's release is not reported, whether the prefill lease's is or not.
  lemma DecodeForgotten(s: System, fallback: set<string>, t: System, a: Address, b: Address)
    requires Holds(t, s, a, b) && a != b && a in s.records && b in s.records && s.records[b].model in fallback
    requires var n := |s.leases|;
             !t.leases[n].released && t.leases[n].tracked && !t.leases[n + 1].released && t.leases[n + 1].tracked
    ensures var n := |s.leases|; !Inv(Released(Released(t, fallback, n), fallback, n + 1), fallback)
  {
    var n := |s.leases|;
    ReleasedInTurn(s, fallback, t, a, b);
    if s.records[a].model in fallback {
      QuietHolds(t, s, a, b);
      Forgotten(Quiet(t, n), fallback, n + 1);
    } else {
      MatchedHolds(t, s, a, b);
      assert Tallied(Matched(t, n), b);
      Forgotten(Told(t, n), fallback, n + 1);
    }
  }

  // Which of the two releases the policy hears of depends on the instances' models.
  lemma ReleasedInTurn(s: System, fallback: set<string>, t: System, a: Address, b: Address)
    requires Holds(t, s, a, b) && a != b && a in s.records && b in s.records
    ensures var n := |s.leases|;
            var u := if s.records[a].model in fallback then Quiet(t, n) else Told(t, n);
            && Released(t, fallback, n) == u && CanRelease(u, n + 1)
            && Released(u, fallback, n + 1) == if s.records[b].model in fallback then Quiet(u, n + 1) else Told(u, n + 1)
  {
  }
}
