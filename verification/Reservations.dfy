/** Reservations over the whole protocol: any calls of their handlers, however often and
    from wherever they come, amount to releases the protocol allows. */
module Reservations {
  import opened Common
  import opened Registry
  import opened Leases
  import opened Protocol
  import opened ProtocolSteps
  import opened ProtocolRuns

  // What a reservation holds, with its flags.
  datatype Held<K> = Held(prefill: Option<K>, decode: Option<K>, prefillReleased: bool, decodeReleased: bool)

  datatype World = World(sys: System, held: seq<Held<nat>>)

  datatype Act =
    | Does(e: Event)                                       // anything but releasing a prefill or decode lease
    | Reserves(prefill: Option<nat>, decode: Option<nat>)  // a request takes charge of its leases
    | Calls(i: nat, namesPrefill: bool, namesDecode: bool)// an exception handler, naming instances

  predicate Owns(s: System, k: Option<nat>, role: Role, released: bool) {
    if k.None? then released
    else k.value < |s.leases| && s.leases[k.value].role == role && s.leases[k.value].released == released
  }

  predicate OwnsBoth(s: System, h: Held<nat>) {
    && Owns(s, h.prefill, Prefill, h.prefillReleased)
    && Owns(s, h.decode, Decode, h.decodeReleased)
    && (h.prefill.Some? && h.decode.Some? ==> s.leases[h.prefill.value].tracked == s.leases[h.decode.value].tracked)
  }

  predicate Holding(h: Held<nat>, k: nat) {
    h.prefill == Some(k) || h.decode == Some(k)
  }

  ghost predicate Apart(g: Held<nat>, h: Held<nat>) {
    forall k :: !(Holding(g, k) && Holding(h, k))
  }

  // The instances held are among the good ones.
  predicate HeldOn(s: System, h: Held<nat>, good: Address -> bool) {
    && (h.prefill.Some? && h.prefill.value < |s.leases| ==> good(s.leases[h.prefill.value].address))
    && (h.decode.Some? && h.decode.value < |s.leases| ==> good(s.leases[h.decode.value].address))
  }

  // Registry, arrays and leases agree about the good addresses, on which all reservations are.
  ghost predicate GoodAgree(env: Env, s: System, good: Address -> bool) {
    Shaped(s) && forall x :: good(x) ==> InStep(s, env.fallback, x)
  }

  ghost predicate WorldInv(env: Env, w: World, good: Address -> bool) {
    && GoodAgree(env, w.sys, good)
    && (forall i :: 0 <= i < |w.held| ==> OwnsBoth(w.sys, w.held[i]) && HeldOn(w.sys, w.held[i], good))
    && (forall i, j :: 0 <= i < j < |w.held| ==> Apart(w.held[i], w.held[j]))
  }

  // What a call still has to release: what it names and the flags do not show released.
  predicate ReleasesPrefill<K>(h: Held<K>, prefill: bool) {
    prefill && !h.prefillReleased && h.prefill.Some?
  }

  predicate ReleasesDecode<K>(h: Held<K>, decode: bool) {
    decode && !h.decodeReleased && h.decode.Some?
  }

  function EventOf(h: Held<nat>, prefill: bool, decode: bool): Option<Event> {
    if ReleasesPrefill(h, prefill) && ReleasesDecode(h, decode) then Some(ReleasesBoth(h.prefill.value, h.decode.value))
    else if ReleasesPrefill(h, prefill) then Some(Releases(h.prefill.value))
    else if ReleasesDecode(h, decode) then Some(Releases(h.decode.value))
    else None
  }

  function Flagged<K>(h: Held<K>, prefill: bool, decode: bool): Held<K> {
    h.(prefillReleased := h.prefillReleased || prefill, decodeReleased := h.decodeReleased || decode)
  }

  ghost predicate Performs(env: Env, w: World, act: Act, w': World) {
    match act
    case Does(e) =>
      && Step(env, w.sys, e, w'.sys) && w'.held == w.held
      && (e.Releases? ==> w.sys.leases[e.k].role.Aggregated?) && !e.ReleasesBoth?
    case Reserves(p, d) =>
      var h := Held(p, d, p.None?, d.None?);
      && OwnsBoth(w.sys, h) && (forall i :: 0 <= i < |w.held| ==> Apart(w.held[i], h))
      && w' == World(w.sys, w.held + [h])
    case Calls(i, prefill, decode) =>
      && i < |w.held|
      && w'.held == w.held[i := Flagged(w.held[i], prefill, decode)]
      && (match EventOf(w.held[i], prefill, decode)
          case Some(e) => Effect(env, w.sys, e, w'.sys)
          case None => w'.sys == w.sys)
  }

  // The act spoils no good address, and takes charge of good ones only.
  ghost predicate Spares(env: Env, w: World, act: Act, good: Address -> bool) {
    match act
    case Does(e) => forall x :: good(x) ==> x !in Spoils(env, w.sys, e)
    case Reserves(p, d) => HeldOn(w.sys, Held(p, d, p.None?, d.None?), good)
    case Calls(_, _, _) => true
  }

  // ---------------------------------------------------------------- one act

  /** Whatever a handler call releases, the protocol allows: it is unreleased, and neither
      the registry nor a list raises. */
  lemma CallIsAllowed(env: Env, w: World, i: nat, prefill: bool, decode: bool, e: Event, good: Address -> bool)
    requires WorldInv(env, w, good) && i < |w.held| && EventOf(w.held[i], prefill, decode) == Some(e)
    ensures Allowed(env, w.sys, e) && !Raises(w.sys, e) && Spoils(env, w.sys, e) == {}
  {
    var h := w.held[i];
    assert OwnsBoth(w.sys, h) && HeldOn(w.sys, h, good);
    if ReleasesPrefill(h, prefill) {
      Holder(w.sys, env.fallback, h.prefill.value);
    }
    if ReleasesDecode(h, decode) {
      Holder(w.sys, env.fallback, h.decode.value);
    }
  }

  // The leases of `s`, with exactly those of the event released in addition.
  ghost predicate ReleasesJust(s: System, t: System, e: Event) {
    && |t.leases| == |s.leases|
    && forall k :: 0 <= k < |s.leases| ==>
         t.leases[k] == if (e.Releases? && e.k == k) || (e.ReleasesBoth? && (e.p == k || e.d == k)) then s.leases[k].(released := true)
                        else s.leases[k]
  }

  // Releases that do not raise mark just their leases.
  lemma ReleasesMark(env: Env, s: System, e: Event, t: System)
    requires (e.Releases? || e.ReleasesBoth?) && Allowed(env, s, e) && Effect(env, s, e, t) && !Raises(s, e)
    ensures ReleasesJust(s, t, e)
  {
  }

  lemma StepAgrees(env: Env, s: System, e: Event, t: System, good: Address -> bool)
    requires GoodAgree(env, s, good) && Step(env, s, e, t) && forall x :: good(x) ==> x !in Spoils(env, s, e)
    ensures GoodAgree(env, t, good)
  {
    StepShape(env, s, e, t);
    forall x | good(x) ensures InStep(t, env.fallback, x) {
      StepInStep(env, s, e, t, x);
    }
  }

  lemma CallLeases(env: Env, w: World, i: nat, prefill: bool, decode: bool, e: Event, t: System, good: Address -> bool)
    requires WorldInv(env, w, good) && i < |w.held| && EventOf(w.held[i], prefill, decode) == Some(e) && Effect(env, w.sys, e, t)
    ensures GoodAgree(env, t, good) && ReleasesJust(w.sys, t, e)
  {
    CallIsAllowed(env, w, i, prefill, decode, e, good);
    StepAgrees(env, w.sys, e, t, good);
    ReleasesMark(env, w.sys, e, t);
  }

  lemma CallOwnership(env: Env, w: World, i: nat, prefill: bool, decode: bool, w': World, good: Address -> bool)
    requires WorldInv(env, w, good) && Performs(env, w, Calls(i, prefill, decode), w')
    ensures GoodAgree(env, w'.sys, good)
    ensures forall j :: 0 <= j < |w'.held| ==> OwnsBoth(w'.sys, w'.held[j]) && HeldOn(w'.sys, w'.held[j], good)
  {
    var h := w.held[i];
    var o := EventOf(h, prefill, decode);
    assert OwnsBoth(w.sys, h);
    if o.Some? {
      CallLeases(env, w, i, prefill, decode, o.value, w'.sys, good);
    }
    forall j | 0 <= j < |w'.held| ensures OwnsBoth(w'.sys, w'.held[j]) && HeldOn(w'.sys, w'.held[j], good) {
      assert OwnsBoth(w.sys, w.held[j]) && HeldOn(w.sys, w.held[j], good);
      StillHeldOn(w.sys, o, w'.sys, w.held[j], good);
      if j == i {
        OwnAfterCall(w.sys, h, prefill, decode, w'.sys);
      } else {
        ApartKeeps(w, i, j, prefill, decode, w'.sys);
      }
    }
  }

  lemma StillHeldOn(s: System, o: Option<Event>, t: System, h: Held<nat>, good: Address -> bool)
    requires HeldOn(s, h, good) && match o case Some(e) => ReleasesJust(s, t, e) case None => t == s
    ensures HeldOn(t, h, good)
  {
  }

  // The caller's own leases and flags change together.
  lemma OwnAfterCall(s: System, h: Held<nat>, prefill: bool, decode: bool, t: System)
    requires OwnsBoth(s, h)
    requires match EventOf(h, prefill, decode) case Some(e) => ReleasesJust(s, t, e) case None => t == s
    ensures OwnsBoth(t, Flagged(h, prefill, decode))
  {
  }

  lemma CallKeeps(env: Env, w: World, i: nat, prefill: bool, decode: bool, w': World, good: Address -> bool)
    requires WorldInv(env, w, good) && Performs(env, w, Calls(i, prefill, decode), w')
    ensures WorldInv(env, w', good)
  {
    CallOwnership(env, w, i, prefill, decode, w', good);
    forall j, k | 0 <= j < k < |w'.held| ensures Apart(w'.held[j], w'.held[k]) {
      assert Apart(w.held[j], w.held[k]);
      SameLeases(w.held[j], w.held[k], w'.held[j], w'.held[k]);
    }
  }

  lemma SameLeases(g: Held<nat>, h: Held<nat>, g': Held<nat>, h': Held<nat>)
    requires Apart(g, h) && g'.prefill == g.prefill && g'.decode == g.decode && h'.prefill == h.prefill && h'.decode == h.decode
    ensures Apart(g', h')
  {
    forall k ensures !(Holding(g', k) && Holding(h', k)) {
      assert !(Holding(g, k) && Holding(h, k));
    }
  }

  // Another reservation's leases are not touched.
  lemma ApartKeeps(w: World, i: nat, j: nat, prefill: bool, decode: bool, t: System)
    requires i < |w.held| && j < |w.held| && i != j && OwnsBoth(w.sys, w.held[j])
    requires forall a, b :: 0 <= a < b < |w.held| ==> Apart(w.held[a], w.held[b])
    requires match EventOf(w.held[i], prefill, decode) case Some(e) => ReleasesJust(w.sys, t, e) case None => t == w.sys
    ensures OwnsBoth(t, w.held[j])
  {
    var g, h := w.held[i], w.held[j];
    assert if i < j then Apart(g, h) else Apart(h, g);
    assert forall k: nat :: Holding(g, k) ==> !Holding(h, k);
    assert h.prefill.Some? ==> Holding(h, h.prefill.value);
    assert h.decode.Some? ==> Holding(h, h.decode.value);
    assert g.prefill.Some? ==> Holding(g, g.prefill.value);
    assert g.decode.Some? ==> Holding(g, g.decode.value);
  }

  lemma DoesKeeps(env: Env, w: World, e: Event, w': World, good: Address -> bool)
    requires WorldInv(env, w, good) && Performs(env, w, Does(e), w') && Spares(env, w, Does(e), good)
    ensures WorldInv(env, w', good)
  {
    StepAgrees(env, w.sys, e, w'.sys, good);
    OtherLeasesStay(env, w.sys, e, w'.sys);
    forall i | 0 <= i < |w.held| ensures OwnsBoth(w'.sys, w.held[i]) && HeldOn(w'.sys, w.held[i], good) {
      assert OwnsBoth(w.sys, w.held[i]) && HeldOn(w.sys, w.held[i], good);
      HeldStays(w.sys, w'.sys, w.held[i], good);
    }
  }

  lemma HeldStays(s: System, t: System, h: Held<nat>, good: Address -> bool)
    requires OwnsBoth(s, h) && HeldOn(s, h, good) && |s.leases| <= |t.leases|
    requires forall k :: 0 <= k < |s.leases| && !s.leases[k].role.Aggregated? ==> t.leases[k] == s.leases[k]
    ensures OwnsBoth(t, h) && HeldOn(t, h, good)
  {
  }

  // Prefill and decode leases stay as they are.
  lemma OtherLeasesStay(env: Env, s: System, e: Event, t: System)
    requires Step(env, s, e, t) && !e.ReleasesBoth? && (e.Releases? ==> s.leases[e.k].role.Aggregated?)
    ensures |s.leases| <= |t.leases|
    ensures forall k :: 0 <= k < |s.leases| && !s.leases[k].role.Aggregated? ==> t.leases[k] == s.leases[k]
    ensures forall k :: 0 <= k < |s.leases| ==> t.leases[k] == s.leases[k].(released := t.leases[k].released)
  {
    if e.Schedules? {
      ScheduledLeases(env, s, e, t);
    } else {
      StepMarks(env, s, e, t);
    }
  }

  lemma ActKeeps(env: Env, w: World, act: Act, w': World, good: Address -> bool)
    requires WorldInv(env, w, good) && Performs(env, w, act, w') && Spares(env, w, act, good)
    ensures WorldInv(env, w', good)
  {
    match act
    case Does(e) => DoesKeeps(env, w, e, w', good);
    case Reserves(_, _) =>
    case Calls(i, prefill, decode) => CallKeeps(env, w, i, prefill, decode, w', good);
  }

  // ---------------------------------------------------------------- runs

  ghost predicate PerformsAt(env: Env, worlds: seq<World>, acts: seq<Act>, i: nat)
    requires i < |acts| && |worlds| == |acts| + 1
  {
    Performs(env, worlds[i], acts[i], worlds[i + 1])
  }

  ghost predicate WorldRun(env: Env, worlds: seq<World>, acts: seq<Act>) {
    && |worlds| == |acts| + 1
    && forall i :: 0 <= i < |acts| ==> PerformsAt(env, worlds, acts, i)
  }

  ghost predicate SafeCall(env: Env, w: World, act: Act) {
    act.Calls? ==>
      && act.i < |w.held|
      && var o := EventOf(w.held[act.i], act.namesPrefill, act.namesDecode);
         o.Some? ==> Allowed(env, w.sys, o.value) && !Raises(w.sys, o.value)
  }

  ghost predicate SparesAt(env: Env, worlds: seq<World>, acts: seq<Act>, good: Address -> bool, i: nat)
    requires i < |acts| && |worlds| == |acts| + 1
  {
    Spares(env, worlds[i], acts[i], good)
  }

  lemma {:induction false} WorldUntil(env: Env, worlds: seq<World>, acts: seq<Act>, good: Address -> bool, n: nat)
    requires WorldRun(env, worlds, acts) && WorldInv(env, worlds[0], good) && n <= |acts|
    requires forall i :: 0 <= i < n ==> SparesAt(env, worlds, acts, good, i)
    ensures WorldInv(env, worlds[n], good)
    decreases n
  {
    if n > 0 {
      WorldUntil(env, worlds, acts, good, n - 1);
      assert PerformsAt(env, worlds, acts, n - 1) && SparesAt(env, worlds, acts, good, n - 1);
      ActKeeps(env, worlds[n - 1], acts[n - 1], worlds[n], good);
    }
  }

  /** In every run, whatever handler calls it contains, repeated, late or overlapping, and for
      whatever set of addresses no step spoils: every release of a reservation on these
      addresses is of an unreleased lease on a registered instance in its list, and the
      records go on agreeing about them. */
  lemma EveryHandlerCallIsSafe(env: Env, worlds: seq<World>, acts: seq<Act>, good: Address -> bool)
    requires WorldRun(env, worlds, acts) && WorldInv(env, worlds[0], good)
    requires forall i :: 0 <= i < |acts| ==> SparesAt(env, worlds, acts, good, i)
    ensures forall i :: 0 <= i < |worlds| ==> WorldInv(env, worlds[i], good)
    ensures forall i :: 0 <= i < |acts| ==> SafeCall(env, worlds[i], acts[i])
  {
    forall i | 0 <= i < |worlds| ensures WorldInv(env, worlds[i], good) {
      WorldUntil(env, worlds, acts, good, i);
    }
    forall i | 0 <= i < |acts| ensures SafeCall(env, worlds[i], acts[i]) {
      assert PerformsAt(env, worlds, acts, i) && WorldInv(env, worlds[i], good);
      SafeAt(env, worlds[i], acts[i], worlds[i + 1], good);
    }
  }

  lemma SafeAt(env: Env, w: World, act: Act, w': World, good: Address -> bool)
    requires WorldInv(env, w, good) && Performs(env, w, act, w')
    ensures SafeCall(env, w, act)
  {
    if act.Calls? {
      var o := EventOf(w.held[act.i], act.namesPrefill, act.namesDecode);
      if o.Some? {
        CallIsAllowed(env, w, act.i, act.namesPrefill, act.namesDecode, o.value, good);
      }
    }
  }

  /** Where no aggregated request is completed twice beside another, that is so for all
      addresses. */
  lemma WithoutOverlapAllIsSafe(env: Env, worlds: seq<World>, acts: seq<Act>)
    requires WorldRun(env, worlds, acts) && WorldInv(env, worlds[0], _ => true)
    requires forall i :: 0 <= i < |acts| && acts[i].Does? ==> !Overlaps(worlds[i].sys, acts[i].e)
    ensures forall i :: 0 <= i < |worlds| ==> WorldInv(env, worlds[i], _ => true) && Inv(worlds[i].sys, env.fallback)
    ensures forall i :: 0 <= i < |acts| ==> SafeCall(env, worlds[i], acts[i])
  {
    var good: Address -> bool := _ => true;
    forall i | 0 <= i < |acts| ensures SparesAt(env, worlds, acts, good, i) {
      assert PerformsAt(env, worlds, acts, i);
    }
    EveryHandlerCallIsSafe(env, worlds, acts, good);
  }

  predicate Split(roleOf: Address -> Role, a: Address) {
    !roleOf(a).Aggregated?
  }

  ghost predicate ActsInRole(acts: seq<Act>, roleOf: Address -> Role) {
    forall i :: 0 <= i < |acts| && acts[i].Does? ==> AddsInRole(acts[i].e, roleOf)
  }

  // Only aggregated instances are spoiled, and reservations are of prefill and decode instances.
  lemma RolesSpare(env: Env, w: World, act: Act, w': World, roleOf: Address -> Role)
    requires InRoles(w.sys, roleOf) && Performs(env, w, act, w')
    ensures Spares(env, w, act, a => Split(roleOf, a))
  {
  }

  lemma RolesKept(env: Env, w: World, act: Act, w': World, good: Address -> bool, roleOf: Address -> Role)
    requires WorldInv(env, w, good) && InRoles(w.sys, roleOf) && Performs(env, w, act, w')
    requires act.Does? ==> AddsInRole(act.e, roleOf)
    ensures InRoles(w'.sys, roleOf)
  {
    match act
    case Does(e) => StepRoles(env, w.sys, e, w'.sys, roleOf);
    case Reserves(_, _) =>
    case Calls(i, prefill, decode) =>
      match EventOf(w.held[i], prefill, decode)
      case None =>
      case Some(e) =>
        CallIsAllowed(env, w, i, prefill, decode, e, good);
        StepRoles(env, w.sys, e, w'.sys, roleOf);
  }

  lemma {:induction false} SplitWorldUntil(env: Env, worlds: seq<World>, acts: seq<Act>, roleOf: Address -> Role, n: nat)
    requires WorldRun(env, worlds, acts) && WorldInv(env, worlds[0], a => Split(roleOf, a)) && n <= |acts|
    requires InRoles(worlds[0].sys, roleOf) && ActsInRole(acts, roleOf)
    ensures WorldInv(env, worlds[n], a => Split(roleOf, a)) && InRoles(worlds[n].sys, roleOf)
    decreases n
  {
    if n > 0 {
      var good: Address -> bool := a => Split(roleOf, a);
      SplitWorldUntil(env, worlds, acts, roleOf, n - 1);
      assert PerformsAt(env, worlds, acts, n - 1);
      RolesSpare(env, worlds[n - 1], acts[n - 1], worlds[n], roleOf);
      ActKeeps(env, worlds[n - 1], acts[n - 1], worlds[n], good);
      RolesKept(env, worlds[n - 1], acts[n - 1], worlds[n], good, roleOf);
    }
  }

  /** And where no address changes its role, every handler call of every reservation is safe,
      whatever aggregated requests do. */
  lemma InOneRoleAllIsSafe(env: Env, worlds: seq<World>, acts: seq<Act>, roleOf: Address -> Role)
    requires WorldRun(env, worlds, acts) && WorldInv(env, worlds[0], a => Split(roleOf, a))
    requires InRoles(worlds[0].sys, roleOf) && ActsInRole(acts, roleOf)
    ensures forall i :: 0 <= i < |worlds| ==> WorldInv(env, worlds[i], a => Split(roleOf, a))
    ensures forall i :: 0 <= i < |acts| ==> SafeCall(env, worlds[i], acts[i])
  {
    var good: Address -> bool := a => Split(roleOf, a);
    forall i | 0 <= i < |acts| ensures SparesAt(env, worlds, acts, good, i) {
      SplitWorldUntil(env, worlds, acts, roleOf, i);
      assert PerformsAt(env, worlds, acts, i);
      RolesSpare(env, worlds[i], acts[i], worlds[i + 1], roleOf);
    }
    EveryHandlerCallIsSafe(env, worlds, acts, good);
  }

  /** After a call that names both instances, both leases are released, and any later call is
      without effect. */
  lemma ReleasedForGood(
    env: Env, w: World, i: nat, w': World, good: Address -> bool, prefill: bool, decode: bool)
    requires WorldInv(env, w, good) && Performs(env, w, Calls(i, true, true), w')
    ensures var h := w'.held[i];
            && (h.prefill.Some? ==> h.prefill.value < |w'.sys.leases| && w'.sys.leases[h.prefill.value].released)
            && (h.decode.Some? ==> h.decode.value < |w'.sys.leases| && w'.sys.leases[h.decode.value].released)
            && EventOf(h, prefill, decode).None?
  {
    CallKeeps(env, w, i, true, true, w', good);
    assert OwnsBoth(w'.sys, w'.held[i]);
  }
}
