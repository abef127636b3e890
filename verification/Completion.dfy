/** One completion request from its arrival to the end of its stream: what it reserves,
    releases and counts, over every way the calls it awaits can turn out. */
module Completion {
  import opened Common
  import opened Registry
  import Protocol
  import ProtocolRuns
  import R = Reservations

  // An instance scheduled for the request.
  datatype Grant = Grant(role: Role, address: Address)

  // The request's marks: schedules and releases, and its part of the request metric and gauges.
  datatype Account = Account(
    granted: multiset<Grant>,
    released: multiset<Grant>,
    active: int,
    ended: nat,
    prefillActive: int,
    decodeActive: int)

  const Untouched := Account(multiset{}, multiset{}, 0, 0, 0, 0)

  // Every scheduled instance released exactly once and nothing else released; the request
  // metric ended exactly once; every gauge back where it was.
  predicate Settled(a: Account) {
    a.released == a.granted && a.active == 0 && a.ended == 1 && a.prefillActive == 0 && a.decodeActive == 0
  }

  // ---------------------------------------------------------------- the ways a run can go

  // `HttpError` is the framework's HTTP exception, `OtherError` any other exception a
  // handler catches; a cancellation passes both.
  datatype Failure = HttpError | OtherError | Cancellation

  // Between awaits nothing is cancelled.
  type Error = f: Failure | !f.Cancellation? witness HttpError

  datatype Run =
    | MalformedBody                                     // the body is not JSON
    | BodyFails(f: Failure)                             // reading it fails otherwise
    | RequestRejected
    | ValidationFails(e: Error)                         // the body is JSON on which validation raises
    | PromptFails(e: Error)
    | ToAggregated(aggregated: AggregatedRun)
    | PreparationFails(f: Failure)                      // tokenizing may be awaited
    | PrefillSchedulingFails(e: Error)
    | DecodeSchedulingFails(prefill: Option<Address>, e: Error)
    | Unavailable(prefill: Option<Address>, decode: Option<Address>)
    | Reserved(prefillInstance: Address, decodeInstance: Address, next: ReservedRun)

  datatype ReservedRun =
    | RegistrationFails(f: Failure)                     // the notification barrier
    | PrefillFails(f: Failure, discarding: Option<Failure>)
    | HandoverFails(f: Failure)                         // after prefill, before the stream
    | Streams(relay: Relay, stream: StreamRun)

  // The generators: prefill then decode, each releasing its instance; or one that sends a
  // head first and then releases both instances at its end.
  datatype Relay = TwoPhases | HeadThenBoth

  datatype StreamRun =
    | NeverStarted
    | StopsInFirstPart(how: Interruption)
    | StopsInSecondPart(how: Interruption)
    | Completes

  // The generator raises; or the consumer closes the stream while the generator is
  // suspended, which may then be finalized later.
  datatype Interruption = Fails(f: Failure) | Closed(finalizedLater: bool)

  datatype AggregatedRun =
    | AggregatedSchedulingFails(e: Error)
    | NoneAvailable
    | AggregatedStream(instance: Address, started: bool, how: Option<Interruption>)
    | Forwarded(instance: Address, answer: Answer)

  datatype Answer =
    | ForwardingFails(f: Failure)
    | Unreadable                                        // not the JSON expected
    | Answered(rendered: bool)

  // ---------------------------------------------------------------- which runs are clean

  predicate CleanStream(s: StreamRun) {
    !s.NeverStarted?
  }

  predicate CleanReserved(r: ReservedRun) {
    match r
    case RegistrationFails(f) => !f.Cancellation?
    case PrefillFails(f, discarding) => f.HttpError? && discarding.None?
    case HandoverFails(f) => !f.Cancellation?
    case Streams(_, s) => CleanStream(s)
  }

  predicate CleanAggregated(r: AggregatedRun) {
    match r
    case AggregatedSchedulingFails(_) => true
    case NoneAvailable => true
    case AggregatedStream(_, started, _) => started
    case Forwarded(_, answer) =>
      match answer
      case ForwardingFails(f) => !f.Cancellation?
      case Unreadable => true
      case Answered(rendered) => rendered
  }

  predicate CleanRun(r: Run) {
    match r
    case MalformedBody => true
    case BodyFails(_) => false
    case RequestRejected => true
    case ValidationFails(_) => false
    case PromptFails(_) => true
    case ToAggregated(a) => CleanAggregated(a)
    case PreparationFails(f) => !f.Cancellation?
    case PrefillSchedulingFails(_) => true
    case DecodeSchedulingFails(p, _) => p.None?
    case Unavailable(_, _) => true
    case Reserved(_, _, next) => CleanReserved(next)
  }

  predicate WellFormed(r: Run) {
    r.Unavailable? ==> r.prefill.None? || r.decode.None?
  }

  // ---------------------------------------------------------------- the marks

  class Ledger {
    var account: Account

    constructor ()
      ensures account == Untouched
    {
      account := Untouched;
    }

    method Start()
      modifies this
      ensures account == old(account).(active := old(account).active + 1)
    {
      account := account.(active := account.active + 1);
    }

    method End()
      modifies this
      ensures account == old(account).(active := old(account).active - 1, ended := old(account).ended + 1)
    {
      account := account.(active := account.active - 1, ended := account.ended + 1);
    }

    method MoveGauges(prefill: int, decode: int)
      modifies this
      ensures account == old(account).(prefillActive := old(account).prefillActive + prefill,
                                       decodeActive := old(account).decodeActive + decode)
    {
      account := account.(prefillActive := account.prefillActive + prefill, decodeActive := account.decodeActive + decode);
    }

    method Schedule(role: Role, a: Address)
      modifies this
      ensures account == old(account).(granted := old(account).granted + multiset{Grant(role, a)})
    {
      account := account.(granted := account.granted + multiset{Grant(role, a)});
    }

    // The server's exception handler.
    method ExceptionHandler(prefill: Option<Address>, decode: Option<Address>)
      modifies this
      ensures account == old(account).(released := old(account).released + Grants(prefill, decode))
    {
      var released := account.released;
      if prefill.Some? {
        released := released + multiset{Grant(Prefill, prefill.value)};
      }
      if decode.Some? {
        released := released + multiset{Grant(Decode, decode.value)};
      }
      account := account.(released := released);
    }

    method CompleteAggregated(a: Address)
      modifies this
      ensures account == old(account).(released := old(account).released + multiset{Grant(Aggregated, a)})
    {
      account := account.(released := account.released + multiset{Grant(Aggregated, a)});
    }
  }

  function Grants(prefill: Option<Address>, decode: Option<Address>): multiset<Grant> {
    (if prefill.Some? then multiset{Grant(Prefill, prefill.value)} else multiset{})
    + (if decode.Some? then multiset{Grant(Decode, decode.value)} else multiset{})
  }

  // ---------------------------------------------------------------- the reservation

  // What a reservation has not released, and what a call naming instances releases of it.
  function Left(h: R.Held<Address>): multiset<Grant> {
    Grants(if h.prefillReleased then None else h.prefill, if h.decodeReleased then None else h.decode)
  }

  function ReleasedBy(h: R.Held<Address>, prefill: bool, decode: bool): multiset<Grant> {
    Grants(if R.ReleasesPrefill(h, prefill) then h.prefill else None, if R.ReleasesDecode(h, decode) then h.decode else None)
  }

  // What is left once it has let go of the prefill instance, the decode instance, or both.
  function LeftBy(h: R.Held<Address>, prefill: bool, decode: bool): multiset<Grant> {
    Grants(if h.prefillReleased || prefill then None else h.prefill, if h.decodeReleased || decode then None else h.decode)
  }

  lemma LeftByFlags(h: R.Held<Address>)
    ensures forall p, d :: LeftBy(h, p, d) == Left(R.Flagged(h, p && h.prefill.Some?, d && h.decode.Some?))
    ensures forall p, d :: R.Flagged(R.Flagged(h, p, false), false, d) == R.Flagged(h, p, d)
    ensures R.Flagged(h, false, false) == h
  {
  }

  lemma LeftAtFirst(prefill: Option<Address>, decode: Option<Address>)
    ensures Left(R.Held(prefill, decode, prefill.None?, decode.None?)) == Grants(prefill, decode)
  {
  }

  // A call releases what it takes from what is left.
  lemma CallConserves(h: R.Held<Address>, prefill: bool, decode: bool)
    ensures Left(h) == ReleasedBy(h, prefill, decode) + Left(R.Flagged(h, prefill, decode))
  {
  }

  class RequestReservation {
    const server: Ledger
    const prefillInstance: Option<Address>
    const decodeInstance: Option<Address>
    var prefillReleased: bool
    var decodeReleased: bool

    ghost function Outstanding(): multiset<Grant>
      reads this
    {
      Left(Held())
    }

    ghost function Held(): R.Held<Address>
      reads this
    {
      R.Held(prefillInstance, decodeInstance, prefillReleased, decodeReleased)
    }

    // What is scheduled is released or outstanding: never both, never twice.
    ghost predicate Valid()
      reads this, server
    {
      server.account.granted == server.account.released + Outstanding()
    }

    constructor (server: Ledger, prefillInstance: Option<Address>, decodeInstance: Option<Address>)
      requires server.account.granted == server.account.released + Grants(prefillInstance, decodeInstance)
      ensures Valid() && this.server == server
      ensures this.prefillInstance == prefillInstance && this.decodeInstance == decodeInstance
      ensures Outstanding() == Grants(prefillInstance, decodeInstance)
    {
      this.server, this.prefillInstance, this.decodeInstance := server, prefillInstance, decodeInstance;
      prefillReleased, decodeReleased := prefillInstance.None?, decodeInstance.None?;
      new;
      LeftAtFirst(prefillInstance, decodeInstance);
    }

    // Releases the instances named, those not released before: the call that the protocol's
    // reservations make.
    method ExceptionHandler(prefill: Option<Address>, decode: Option<Address>)
      requires Valid()
      modifies this, server
      ensures Valid()
      ensures Held() == R.Flagged(old(Held()), prefill.Some?, decode.Some?)
      ensures server.account ==
              old(server.account).(released := old(server.account).released + ReleasedBy(old(Held()), prefill.Some?, decode.Some?))
    {
      ghost var h := Held();
      CallConserves(h, prefill.Some?, decode.Some?);
      var releasePrefill := prefill.Some? && !prefillReleased;
      var releaseDecode := decode.Some? && !decodeReleased;
      if !releasePrefill && !releaseDecode {
        assert ReleasedBy(h, prefill.Some?, decode.Some?) == multiset{};
        return;
      }
      prefillReleased := prefillReleased || releasePrefill;
      decodeReleased := decodeReleased || releaseDecode;
      assert Held() == R.Flagged(h, prefill.Some?, decode.Some?);
      Release(if releasePrefill then prefillInstance else None, if releaseDecode then decodeInstance else None);
    }

    method Release(prefill: Option<Address>, decode: Option<Address>)
      modifies server
      ensures server.account == old(server.account).(released := old(server.account).released + Grants(prefill, decode))
      ensures Held() == old(Held())
    {
      server.ExceptionHandler(prefill, decode);
    }

    predicate FullyReleased()
      reads this
    {
      && (prefillReleased || prefillInstance.None?)
      && (decodeReleased || decodeInstance.None?)
    }

    method ReleaseAll()
      requires Valid()
      modifies this, server
      ensures Valid() && Outstanding() == multiset{} && FullyReleased()
      ensures server.account == old(server.account).(released := old(server.account).granted)
    {
      ExceptionHandler(prefillInstance, decodeInstance);
    }
  }

  // The instances of a reservation that the protocol knows by its leases.
  function Named(s: Protocol.System, h: R.Held<nat>): R.Held<Address> {
    R.Held(AddressOf(s, h.prefill), AddressOf(s, h.decode), h.prefillReleased, h.decodeReleased)
  }

  function AddressOf(s: Protocol.System, k: Option<nat>): Option<Address> {
    if k.Some? && k.value < |s.leases| then Some(s.leases[k.value].address) else None
  }

  // The address of the lease if it has just been marked.
  function NewlyReleased(s: Protocol.System, t: Protocol.System, k: Option<nat>): Option<Address> {
    if k.Some? && k.value < |s.leases| && k.value < |t.leases| && !s.leases[k.value].released && t.leases[k.value].released then
      Some(s.leases[k.value].address)
    else None
  }

  /** A reservation's call, as the object makes it, is the act that the protocol's runs
      consist of: it leaves the same flags and marks just the leases of what it releases. */
  lemma CallIsAct(
    env: ProtocolRuns.Env, w: R.World, i: nat, prefill: bool, decode: bool, w': R.World, good: Address -> bool)
    requires R.WorldInv(env, w, good) && R.Performs(env, w, R.Calls(i, prefill, decode), w')
    ensures var h := w.held[i];
            && Named(w'.sys, w'.held[i]) == R.Flagged(Named(w.sys, h), prefill, decode)
            && Grants(NewlyReleased(w.sys, w'.sys, h.prefill), NewlyReleased(w.sys, w'.sys, h.decode)) ==
               ReleasedBy(Named(w.sys, h), prefill, decode)
  {
    var h := w.held[i];
    var o := R.EventOf(h, prefill, decode);
    assert R.OwnsBoth(w.sys, h);
    if o.Some? {
      R.CallLeases(env, w, i, prefill, decode, o.value, w'.sys, good);
    }
    CallMarks(w.sys, h, prefill, decode, w'.sys);
  }

  lemma CallMarks(s: Protocol.System, h: R.Held<nat>, prefill: bool, decode: bool, t: Protocol.System)
    requires R.OwnsBoth(s, h)
    requires match R.EventOf(h, prefill, decode) case Some(e) => R.ReleasesJust(s, t, e) case None => t == s
    ensures Named(t, h) == Named(s, h)
    ensures NewlyReleased(s, t, h.prefill) == if R.ReleasesPrefill(h, prefill) then AddressOf(s, h.prefill) else None
    ensures NewlyReleased(s, t, h.decode) == if R.ReleasesDecode(h, decode) then AddressOf(s, h.decode) else None
  {
  }

  // ---------------------------------------------------------------- the handler

  datatype Outcome = Returned(response: Response) | Raised(f: Failure)

  datatype Response = Reply | Stream | StreamOfAggregated

  // The handler's local variables that its `except` clauses read.
  class Locals {
    var bound: bool                       // the instance variables have been assigned
    var prefillInstance: Option<Address>
    var decodeInstance: Option<Address>
    var reservation: RequestReservation?
    var prefillDone: bool

    constructor ()
      ensures !bound && !prefillDone && reservation == null && prefillInstance.None? && decodeInstance.None?
    {
      bound, prefillDone, reservation, prefillInstance, decodeInstance := false, false, null, None, None;
    }
  }

  // A reservation of both instances, and the locals that hold it.
  ghost predicate Holds(x: Locals, r: RequestReservation, ledger: Ledger, prefill: Address, decode: Address)
    reads x, r, ledger
  {
    && x.reservation == r && r.server == ledger && r.Valid()
    && x.bound && x.prefillInstance == Some(prefill) && x.decodeInstance == Some(decode)
    && r.prefillInstance == Some(prefill) && r.decodeInstance == Some(decode)
  }

  // How a reserved run leaves the `try` block, from account `a` to account `b`.
  predicate LeavesReserved(a: Account, next: ReservedRun, out: Outcome, b: Account) {
    match next
    case RegistrationFails(f) => out == Raised(f) && b == a
    case PrefillFails(f, discarding) =>
      if f.HttpError? && discarding.None? then out == Raised(f) && b == a.(released := a.granted)
      else out == Raised(if f.HttpError? then discarding.value else f) && b == a.(prefillActive := a.prefillActive + 1)
    case HandoverFails(f) => out == Raised(f) && b == a.(decodeActive := a.decodeActive + 1)
    case Streams(_, _) => out == Returned(Stream) && b == a.(decodeActive := a.decodeActive + 1)
  }

  // The `except` clause around the forwarding to the prefill instance, which sees HTTP errors
  // alone and may fail as it discards the notifications.
  method FailPrefill(
    ledger: Ledger, x: Locals, r: RequestReservation, prefill: Address, decode: Address, f: Failure, discarding: Option<Failure>)
    returns (out: Outcome)
    requires Holds(x, r, ledger, prefill, decode)
    modifies ledger, r
    ensures Holds(x, r, ledger, prefill, decode)
    ensures var a := old(ledger.account);
            if f.HttpError? && discarding.None? then
              out == Raised(f) && ledger.account == a.(released := a.granted, prefillActive := a.prefillActive - 1)
            else out == Raised(if f.HttpError? then discarding.value else f) && ledger.account == a
  {
    if f != HttpError {
      return Raised(f);
    }
    if discarding.Some? {
      return Raised(discarding.value);
    }
    r.ReleaseAll();
    ledger.MoveGauges(-1, 0);
    return Raised(HttpError);
  }

  // From the reservation to the stream.
  method ServeReserved(ledger: Ledger, x: Locals, r: RequestReservation, prefill: Address, decode: Address, next: ReservedRun)
    returns (out: Outcome)
    requires Holds(x, r, ledger, prefill, decode) && !x.prefillDone
    modifies ledger, r, x`prefillDone
    ensures Holds(x, r, ledger, prefill, decode)
    ensures x.prefillDone <==> next.HandoverFails? || next.Streams?
    ensures LeavesReserved(old(ledger.account), next, out, ledger.account)
  {
    if next.RegistrationFails? {
      return Raised(next.f);
    }
    ledger.MoveGauges(1, 0);
    if next.PrefillFails? {
      out := FailPrefill(ledger, x, r, prefill, decode, next.f, next.discarding);
      return;
    }
    x.prefillDone := true;
    ledger.MoveGauges(-1, 1);
    if next.HandoverFails? {
      return Raised(next.f);
    }
    return Returned(Stream);
  }

  predicate LeavesAggregated(a: Account, run: AggregatedRun, out: Outcome, b: Account) {
    match run
    case AggregatedSchedulingFails(e) => out == Raised(e) && b == a
    case NoneAvailable => out == Returned(Reply) && b == a.(active := a.active - 1, ended := a.ended + 1)
    case AggregatedStream(i, _, _) =>
      out == Returned(StreamOfAggregated) && b == a.(granted := a.granted + multiset{Grant(Aggregated, i)})
    case Forwarded(i, answer) =>
      var g := multiset{Grant(Aggregated, i)};
      var c := a.(granted := a.granted + g);
      var done := c.(released := a.released + g, active := a.active - 1, ended := a.ended + 1);
      match answer
      case ForwardingFails(f) => if f.Cancellation? then out == Raised(f) && b == c else out == Returned(Reply) && b == done
      case Unreadable => out == Returned(Reply) && b == done
      case Answered(rendered) =>
        && out == Returned(Reply)
        && b == if rendered then done
                else done.(released := done.released + g, active := done.active - 1, ended := done.ended + 1)
  }

  // How the other runs leave the `try` block.
  predicate LeavesUnreserved(run: Run, out: Outcome, b: Account)
    requires Unreserved(run)
  {
    var a := Untouched.(active := 1);
    match run
    case MalformedBody => out == Returned(Reply) && b == Untouched.(ended := 1)
    case BodyFails(f) => out == Raised(f) && b == a
    case RequestRejected => out == Returned(Reply) && b == Untouched.(ended := 1)
    case ValidationFails(e) => out == Raised(e) && b == a
    case PromptFails(e) => out == Raised(e) && b == a
    case ToAggregated(g) => LeavesAggregated(a, g, out, b)
    case PreparationFails(f) => out == Raised(f) && b == a
    case PrefillSchedulingFails(e) => out == Raised(e) && b == a
    case DecodeSchedulingFails(p, e) => out == Raised(e) && b == a.(granted := Grants(p, None))
    case Unavailable(p, d) => out == Returned(Reply) && b == Untouched.(ended := 1, granted := Grants(p, d), released := Grants(p, d))
  }

  method ServeAggregated(ledger: Ledger, run: AggregatedRun) returns (out: Outcome)
    modifies ledger
    ensures LeavesAggregated(old(ledger.account), run, out, ledger.account)
  {
    match run
    case AggregatedSchedulingFails(e) => return Raised(e);
    case NoneAvailable =>
      ledger.End();
      return Returned(Reply);
    case AggregatedStream(i, _, _) =>
      ledger.Schedule(Aggregated, i);
      return Returned(StreamOfAggregated);
    case Forwarded(i, answer) =>
      ledger.Schedule(Aggregated, i);
      if answer.ForwardingFails? && answer.f == Cancellation {
        return Raised(Cancellation);
      }
      if answer.Answered? {
        ledger.CompleteAggregated(i);
        ledger.End();
        if answer.rendered {
          return Returned(Reply);
        }
      }
      // The `except` clauses.
      ledger.CompleteAggregated(i);
      ledger.End();
      return Returned(Reply);
  }

  // One schedule, which counts what it finds.
  method ScheduleFound(ledger: Ledger, role: Role, found: Option<Address>)
    modifies ledger
    ensures ledger.account == old(ledger.account).(granted :=
              old(ledger.account).granted + if found.Some? then multiset{Grant(role, found.value)} else multiset{})
  {
    if found.Some? {
      ledger.Schedule(role, found.value);
    }
  }

  // Both schedules and the reservation.
  method Reserve(ledger: Ledger, x: Locals, prefill: Option<Address>, decode: Option<Address>) returns (r: RequestReservation)
    requires ledger.account.granted == ledger.account.released
    modifies ledger, x`prefillInstance, x`decodeInstance, x`reservation
    ensures fresh(r) && r.Valid() && r.server == ledger && r.Outstanding() == Grants(prefill, decode)
    ensures r.prefillInstance == prefill && r.decodeInstance == decode
    ensures x.reservation == r && x.prefillInstance == prefill && x.decodeInstance == decode
    ensures ledger.account == old(ledger.account).(granted := old(ledger.account).granted + Grants(prefill, decode))
  {
    ghost var before := ledger.account.granted;
    x.prefillInstance := prefill;
    ScheduleFound(ledger, Prefill, prefill);
    x.decodeInstance := decode;
    ScheduleFound(ledger, Decode, decode);
    assert ledger.account.granted == before + Grants(prefill, decode);
    r := new RequestReservation(ledger, prefill, decode);
    x.reservation := r;
  }

  method ReserveBoth(ledger: Ledger, x: Locals, prefill: Address, decode: Address) returns (r: RequestReservation)
    requires ledger.account == Untouched.(active := 1) && x.bound
    modifies ledger, x`prefillInstance, x`decodeInstance, x`reservation
    ensures fresh(r) && Holds(x, r, ledger, prefill, decode) && ledger.account == JustReserved(prefill, decode)
  {
    r := Reserve(ledger, x, Some(prefill), Some(decode));
    assert ledger.account.granted == Grants(Some(prefill), Some(decode));
  }

  predicate Unreserved(run: Run) {
    !run.Reserved?
  }

  // The `try` block of the handler, short of a reservation of both instances.
  method ServeUnreserved(ledger: Ledger, x: Locals, run: Run) returns (out: Outcome)
    requires Unreserved(run) && WellFormed(run) && ledger.account == Untouched.(active := 1)
    requires !x.bound && !x.prefillDone && x.reservation == null && x.prefillInstance.None? && x.decodeInstance.None?
    modifies ledger, x
    ensures !x.prefillDone && (x.bound <==> Bound(run))
    ensures out.Raised? ==> x.reservation == null
    ensures x.reservation != null ==> fresh(x.reservation) && x.reservation.Valid() && x.reservation.server == ledger
    ensures LeavesUnreserved(run, out, ledger.account)
  {
    match run
    case MalformedBody =>
      ledger.End();
      return Returned(Reply);
    case BodyFails(f) =>
      return Raised(f);
    case RequestRejected =>
      ledger.End();
      return Returned(Reply);
    case ValidationFails(e) =>
      return Raised(e);
    case PromptFails(e) =>
      x.bound := true;
      return Raised(e);
    case ToAggregated(a) =>
      x.bound := true;
      out := ServeAggregated(ledger, a);
    case PreparationFails(f) =>
      x.bound := true;
      return Raised(f);
    case PrefillSchedulingFails(e) =>
      x.bound := true;
      return Raised(e);
    case DecodeSchedulingFails(prefill, e) =>
      x.bound := true;
      x.prefillInstance := prefill;
      ScheduleFound(ledger, Prefill, prefill);
      return Raised(e);
    case Unavailable(prefill, decode) =>
      x.bound := true;
      var r := Reserve(ledger, x, prefill, decode);
      ledger.End();
      r.ReleaseAll();
      return Returned(Reply);
  }

  // The account after an `except` clause, which fails itself when the instance variables
  // were never assigned; `decoding` says whether the decode gauge is up.
  function Recovered(a: Account, bound: bool, reserved: bool, decoding: bool): Account {
    var b := if reserved then a.(released := a.granted) else a;
    if bound then
      b.(active := b.active - 1, ended := b.ended + 1, decodeActive := if decoding then b.decodeActive - 1 else b.decodeActive)
    else b
  }

  method Recover(ledger: Ledger, x: Locals)
    requires x.reservation != null ==> x.reservation.Valid() && x.reservation.server == ledger
    modifies ledger, if x.reservation == null then {} else {x.reservation}
    ensures ledger.account ==
            Recovered(old(ledger.account), x.bound, x.reservation != null,
                      x.prefillInstance.Some? && x.decodeInstance.Some? && x.prefillDone)
  {
    if x.reservation != null {
      x.reservation.ReleaseAll();
    }
    if !x.bound {
      return;
    }
    if x.decodeInstance.Some? && x.prefillInstance.Some? && x.prefillDone {
      ledger.MoveGauges(0, -1);
    }
    ledger.End();
  }

  // The one run that releases and ends twice: an aggregated reply that cannot be rendered,
  // after its completion has been recorded.
  predicate Repeats(run: Run) {
    run.ToAggregated? && run.aggregated.Forwarded? && run.aggregated.answer == Answered(false)
  }

  predicate Caught(out: Outcome) {
    out.Raised? && out.f != Cancellation
  }

  predicate OnceAtMost(a: Account) {
    a.released <= a.granted && a.ended <= 1
  }

  predicate Bound(run: Run) {
    !(run.MalformedBody? || run.BodyFails? || run.RequestRejected? || run.ValidationFails?)
  }

  lemma UnreservedEnds(run: Run, out: Outcome, b: Account)
    requires Unreserved(run) && WellFormed(run) && LeavesUnreserved(run, out, b) && out != Returned(StreamOfAggregated)
    ensures var c := if Caught(out) then Recovered(b, Bound(run), false, false) else b;
            && (Settled(c) <==> CleanRun(run))
            && (OnceAtMost(c) <==> !Repeats(run))
  {
    if run.ToAggregated? {
      AggregatedEnds(run.aggregated, out, b);
    } else if run.DecodeSchedulingFails? {
      assert run.prefill.Some? ==> Grant(Prefill, run.prefill.value) in Grants(run.prefill, None);
    }
  }

  lemma AggregatedEnds(run: AggregatedRun, out: Outcome, b: Account)
    requires LeavesAggregated(Untouched.(active := 1), run, out, b) && out != Returned(StreamOfAggregated)
    ensures var c := if Caught(out) then Recovered(b, true, false, false) else b;
            && (Settled(c) <==> CleanAggregated(run))
            && (OnceAtMost(c) <==> !Repeats(ToAggregated(run)))
  {
    if run.Forwarded? {
      assert b.granted[Grant(Aggregated, run.instance)] == 1;
    }
  }

  lemma ReservedEnds(run: Run, out: Outcome, b: Account)
    requires run.Reserved? && !run.next.Streams?
    requires LeavesReserved(JustReserved(run.prefillInstance, run.decodeInstance), run.next, out, b)
    ensures var c := if Caught(out) then Recovered(b, true, true, run.next.HandoverFails?) else b;
            && (Settled(c) <==> CleanRun(run))
            && OnceAtMost(c)
  {
    assert Grant(Prefill, run.prefillInstance) in JustReserved(run.prefillInstance, run.decodeInstance).granted;
  }

  function JustReserved(prefill: Address, decode: Address): Account {
    Untouched.(active := 1, granted := Grants(Some(prefill), Some(decode)))
  }

  // The handler: it stops with a failure, replies, or hands over a stream.
  method HandleCompletion(ledger: Ledger, run: Run) returns (out: Outcome, x: Locals)
    requires WellFormed(run) && ledger.account == Untouched
    modifies ledger
    ensures fresh(x)
    ensures out == Returned(Stream) <==> run.Reserved? && run.next.Streams?
    ensures out == Returned(StreamOfAggregated) <==> run.ToAggregated? && run.aggregated.AggregatedStream?
    ensures out == Returned(Stream) ==>
              && x.reservation != null && fresh(x.reservation) && x.prefillDone
              && Holds(x, x.reservation, ledger, run.prefillInstance, run.decodeInstance)
              && ledger.account == JustReserved(run.prefillInstance, run.decodeInstance).(decodeActive := 1)
    ensures out == Returned(StreamOfAggregated) ==>
              ledger.account == Untouched.(active := 1, granted := multiset{Grant(Aggregated, run.aggregated.instance)})
    ensures out != Returned(Stream) && out != Returned(StreamOfAggregated) ==>
              (Settled(ledger.account) <==> CleanRun(run)) && (OnceAtMost(ledger.account) <==> !Repeats(run))
  {
    x := new Locals();
    ledger.Start();
    if run.Reserved? {
      out := HandleReserved(ledger, x, run);
    } else {
      out := HandleUnreserved(ledger, x, run);
    }
  }

  // The `except` clauses around the `try` block.
  method Except(ledger: Ledger, x: Locals, out: Outcome) returns (after: Outcome)
    requires x.reservation != null ==> x.reservation.Valid() && x.reservation.server == ledger
    modifies ledger, if x.reservation == null then {} else {x.reservation}
    ensures ledger.account ==
            if Caught(out) then
              Recovered(old(ledger.account), x.bound, x.reservation != null,
                        x.prefillInstance.Some? && x.decodeInstance.Some? && x.prefillDone)
            else old(ledger.account)
    ensures !Caught(out) ==> after == out && (x.reservation != null ==> x.reservation.Valid() && unchanged(x.reservation))
    ensures Caught(out) ==> after == if !x.bound then Raised(OtherError) else if out.f == OtherError then Returned(Reply) else out
  {
    if !Caught(out) {
      return out;
    }
    Recover(ledger, x);
    return if !x.bound then Raised(OtherError) else if out.f == OtherError then Returned(Reply) else out;
  }

  method HandleUnreserved(ledger: Ledger, x: Locals, run: Run) returns (out: Outcome)
    requires Unreserved(run) && WellFormed(run) && ledger.account == Untouched.(active := 1)
    requires !x.bound && !x.prefillDone && x.reservation == null && x.prefillInstance.None? && x.decodeInstance.None?
    modifies ledger, x
    ensures out != Returned(Stream)
    ensures out == Returned(StreamOfAggregated) <==> run.ToAggregated? && run.aggregated.AggregatedStream?
    ensures out == Returned(StreamOfAggregated) ==>
              ledger.account == Untouched.(active := 1, granted := multiset{Grant(Aggregated, run.aggregated.instance)})
    ensures out != Returned(StreamOfAggregated) ==>
              (Settled(ledger.account) <==> CleanRun(run)) && (OnceAtMost(ledger.account) <==> !Repeats(run))
  {
    out := ServeUnreserved(ledger, x, run);
    if out != Returned(StreamOfAggregated) {
      UnreservedEnds(run, out, ledger.account);
    }
    out := Except(ledger, x, out);
  }

  method HandleReserved(ledger: Ledger, x: Locals, run: Run) returns (out: Outcome)
    requires run.Reserved? && ledger.account == Untouched.(active := 1)
    requires !x.bound && !x.prefillDone && x.reservation == null
    modifies ledger, x
    ensures x.reservation != null && fresh(x.reservation)
    ensures out == Returned(Stream) <==> run.next.Streams?
    ensures out != Returned(StreamOfAggregated)
    ensures out == Returned(Stream) ==>
              && x.prefillDone && Holds(x, x.reservation, ledger, run.prefillInstance, run.decodeInstance)
              && ledger.account == JustReserved(run.prefillInstance, run.decodeInstance).(decodeActive := 1)
    ensures out != Returned(Stream) ==> (Settled(ledger.account) <==> CleanRun(run)) && OnceAtMost(ledger.account)
  {
    x.bound := true;
    var r := ReserveBoth(ledger, x, run.prefillInstance, run.decodeInstance);
    out := FinishReserved(ledger, x, r, run);
  }

  method FinishReserved(ledger: Ledger, x: Locals, r: RequestReservation, run: Run) returns (out: Outcome)
    requires run.Reserved? && Holds(x, r, ledger, run.prefillInstance, run.decodeInstance) && !x.prefillDone
    requires ledger.account == JustReserved(run.prefillInstance, run.decodeInstance)
    modifies ledger, r, x`prefillDone
    ensures out == Returned(Stream) <==> run.next.Streams?
    ensures out != Returned(StreamOfAggregated)
    ensures out == Returned(Stream) ==>
              && x.prefillDone && Holds(x, r, ledger, run.prefillInstance, run.decodeInstance)
              && ledger.account == JustReserved(run.prefillInstance, run.decodeInstance).(decodeActive := 1)
    ensures out != Returned(Stream) ==> (Settled(ledger.account) <==> CleanRun(run)) && OnceAtMost(ledger.account)
  {
    out := ServeReserved(ledger, x, r, run.prefillInstance, run.decodeInstance, run.next);
    ghost var c := if Caught(out) then Recovered(ledger.account, true, true, run.next.HandoverFails?) else ledger.account;
    if run.next.Streams? {
      return;
    }
    ReservedEnds(run, out, ledger.account);
    out := Except(ledger, x, out);
    assert ledger.account == c;
  }

  // ---------------------------------------------------------------- the streams

  // Of two generators in a row the first lets go of the prefill instance unless it is left
  // suspended, and the second likewise of the decode instance.  A single one lets go of both,
  // once its head is sent and unless it is left suspended.
  predicate LetsGoPrefill(relay: Relay, run: StreamRun) {
    match relay
    case TwoPhases => !(run.StopsInFirstPart? && run.how.Closed?)
    case HeadThenBoth => LetsGoDecode(relay, run)
  }

  predicate LetsGoDecode(relay: Relay, run: StreamRun) {
    !run.StopsInFirstPart? && !(run.StopsInSecondPart? && run.how.Closed?)
  }

  // What the generator inside a stream does until the run's end: its own `finally` clauses
  // run when it raises or completes, and not when it is left suspended.
  method RunRelay(r: RequestReservation, relay: Relay, run: StreamRun)
    requires r.Valid() && !run.NeverStarted?
    modifies r, r.server
    ensures r.Valid()
    ensures r.server.account == old(r.server.account).(released := r.server.account.released)
    ensures r.Outstanding() == LeftBy(old(r.Held()), LetsGoPrefill(relay, run), LetsGoDecode(relay, run))
    ensures run.Completes? ==> r.FullyReleased()
    ensures relay.TwoPhases? && !run.StopsInFirstPart? ==> r.prefillReleased || r.prefillInstance.None?
    ensures relay.TwoPhases? && (run.StopsInFirstPart? || (run.StopsInSecondPart? && run.how.Closed?)) ==>
              r.decodeReleased == old(r.decodeReleased)
    ensures relay.HeadThenBoth? && (run.StopsInFirstPart? || (run.StopsInSecondPart? && run.how.Closed?)) ==>
              r.Held() == old(r.Held())
    ensures !run.Completes? && run.how.Fails? && !(relay.HeadThenBoth? && run.StopsInFirstPart?) ==>
              && (r.prefillReleased || r.prefillInstance.None?)
              && (run.StopsInSecondPart? ==> r.decodeReleased || r.decodeInstance.None?)
  {
    ghost var h := r.Held();
    LeftByFlags(h);
    if run.StopsInFirstPart? && (run.how.Closed? || relay.HeadThenBoth?) {
      return;
    }
    if relay.TwoPhases? {
      r.ExceptionHandler(r.prefillInstance, None);
      if run.StopsInFirstPart? || (run.StopsInSecondPart? && run.how.Closed?) {
        return;
      }
      r.ExceptionHandler(None, r.decodeInstance);
    } else if !(run.StopsInSecondPart? && run.how.Closed?) {
      r.ExceptionHandler(r.prefillInstance, r.decodeInstance);
    }
  }

  // A suspended generator that is finalized runs the `finally` clause it is in.
  method Finalize(r: RequestReservation, relay: Relay, run: StreamRun)
    requires r.Valid() && r.FullyReleased()
    modifies r, r.server
    ensures r.Valid() && r.server.account == old(r.server.account)
  {
    if relay.TwoPhases? {
      if run.StopsInFirstPart? {
        r.ExceptionHandler(r.prefillInstance, None);
      } else {
        r.ExceptionHandler(None, r.decodeInstance);
      }
    } else if run.StopsInSecondPart? {
      r.ExceptionHandler(r.prefillInstance, r.decodeInstance);
    }
  }

  /** The stream around it: once it has started, however it ends, both instances are released
      exactly once, the decode gauge goes down and the request metric ends. */
  method RunStream(ledger: Ledger, x: Locals, relay: Relay, run: StreamRun)
    requires x.reservation != null && x.reservation.server == ledger && x.reservation.Valid()
    requires x.prefillInstance.Some? && x.decodeInstance.Some? && x.prefillDone
    modifies ledger, x.reservation
    ensures var a := old(ledger.account);
            ledger.account ==
            if run.NeverStarted? then a
            else a.(released := a.granted, active := a.active - 1, ended := a.ended + 1, decodeActive := a.decodeActive - 1)
  {
    if run.NeverStarted? {
      return;
    }
    var r := x.reservation;
    RunRelay(r, relay, run);
    if run != Completes && run.how == Fails(HttpError) {
      r.ReleaseAll();
    }
    r.ReleaseAll();
    if x.decodeInstance.Some? && x.prefillInstance.Some? && x.prefillDone {
      ledger.MoveGauges(0, -1);
    }
    ledger.End();
    if run != Completes && run.how == Closed(true) {
      Finalize(r, relay, run);
    }
  }

  // An aggregated stream has no generator of its own to release anything.
  method RunAggregatedStream(ledger: Ledger, instance: Address, started: bool)
    modifies ledger
    ensures var a := old(ledger.account);
            ledger.account ==
            if !started then a
            else a.(released := a.released + multiset{Grant(Aggregated, instance)}, active := a.active - 1, ended := a.ended + 1)
  {
    if started {
      ledger.CompleteAggregated(instance);
      ledger.End();
    }
  }

  // ---------------------------------------------------------------- whole runs

  /** A completion request, with the stream it returns.  It releases each scheduled instance
      exactly once, ends the request metric exactly once and returns every gauge to its
      entry value exactly when the run is clean; and it releases or ends something twice
      exactly in the one run that repeats. */
  method Serve(run: Run) returns (account: Account)
    requires WellFormed(run)
    ensures Settled(account) <==> CleanRun(run)
    ensures OnceAtMost(account) <==> !Repeats(run)
  {
    var ledger := new Ledger();
    var out, x := HandleCompletion(ledger, run);
    if out == Returned(Stream) {
      RunStream(ledger, x, run.next.relay, run.next.stream);
    } else if out == Returned(StreamOfAggregated) {
      RunAggregatedStream(ledger, run.aggregated.instance, run.aggregated.started);
    }
    account := ledger.account;
  }
}
