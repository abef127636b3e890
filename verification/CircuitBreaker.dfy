/** The per-instance circuit breaker: a timed state machine with a sliding
    window of failure times.

    Clock readings are parameters.  Recording a failure reads the clock twice,
    once for the failure's own time and once inside the state property, so its
    event carries both readings. */
module CircuitBreakers {

  datatype Phase = Closed | Open | HalfOpen

  datatype Config = Config(failureThreshold: int, successThreshold: int, timeout: real, window: real)

  datatype Breaker = Breaker(phase: Phase, failures: seq<real>, openedAt: real, successes: int, pending: bool)

  const Initial := Breaker(Closed, [], 0.0, 0, false)

  // ---------------------------------------------------------------- transitions

  // Reading the state moves an expired open breaker to half-open.
  function Observe(c: Config, b: Breaker, now: real): Breaker {
    if b.phase.Open? && now - b.openedAt >= c.timeout then b.(phase := HalfOpen, successes := 0) else b
  }

  function Trip(b: Breaker, now: real): Breaker {
    Breaker(Open, [], now, 0, false)
  }

  function Reset(b: Breaker): Breaker {
    Breaker(Closed, [], b.openedAt, 0, false)
  }

  // Old entries leave from the front of the deque.
  function Purge(ts: seq<real>, cutoff: real): seq<real> {
    if ts != [] && ts[0] < cutoff then Purge(ts[1..], cutoff) else ts
  }

  function Admit(c: Config, b: Breaker, now: real): (Breaker, bool) {
    var o := Observe(c, b, now);
    match o.phase
    case Closed => (o, true)
    case Open => (o, false)
    case HalfOpen => if o.pending then (o, false) else (o.(pending := true), true)
  }

  function Fail(c: Config, b: Breaker, now: real, seen: real): Breaker {
    var o := Observe(c, b, seen);
    match o.phase
    case HalfOpen => Trip(o, now)
    case Open => o
    case Closed =>
      var recent := Purge(o.failures + [now], now - c.window);
      if |recent| >= c.failureThreshold then Trip(o, now) else o.(failures := recent)
  }

  function Succeed(c: Config, b: Breaker, now: real): Breaker {
    var o := Observe(c, b, now);
    if o.phase.HalfOpen? then
      if o.successes + 1 >= c.successThreshold then Reset(o)
      else o.(successes := o.successes + 1, pending := false)
    else o
  }

  // What a success at `now` makes of a breaker.  It counts towards closing in a half-open one,
  // and in an open one whose timeout has passed, as the first.
  predicate SucceedsTo(c: Config, b: Breaker, now: real, b': Breaker) {
    if b.phase == Closed || (b.phase == Open && now < b.openedAt + c.timeout) then b' == b
    else
      var count := if b.phase == HalfOpen then b.successes + 1 else 1;
      b' == if count >= c.successThreshold then Breaker(Closed, [], b.openedAt, 0, false)
            else Breaker(HalfOpen, b.failures, b.openedAt, count, false)
  }

  /** In particular a success never opens a breaker and leaves a closed one as it is. */
  lemma SuccessMeans(c: Config, b: Breaker, now: real)
    ensures SucceedsTo(c, b, now, Succeed(c, b, now))
    ensures b.phase.Closed? ==> Succeed(c, b, now) == b
    ensures Succeed(c, b, now).phase.Open? ==> Succeed(c, b, now) == b
    ensures Succeed(c, Observe(c, b, now), now) == Succeed(c, b, now)
  {
  }

  // ---------------------------------------------------------------- the object

  class CircuitBreaker {
    const config: Config
    var phase: Phase
    var failures: seq<real>
    var openedAt: real
    var halfOpenSuccesses: int
    var halfOpenPending: bool

    ghost function Abs(): Breaker
      reads this
    {
      Breaker(phase, failures, openedAt, halfOpenSuccesses, halfOpenPending)
    }

    constructor (config: Config)
      ensures this.config == config && Abs() == Initial
    {
      this.config := config;
      phase, failures, openedAt, halfOpenSuccesses, halfOpenPending := Closed, [], 0.0, 0, false;
    }

    method State(now: real) returns (p: Phase)
      modifies this
      ensures Abs() == Observe(config, old(Abs()), now) && p == phase
    {
      if phase == Open {
        if now - openedAt >= config.timeout {
          phase := HalfOpen;
          halfOpenSuccesses := 0;
        }
      }
      p := phase;
    }

    method AllowRequest(now: real) returns (ok: bool)
      modifies this
      ensures (Abs(), ok) == Admit(config, old(Abs()), now)
    {
      var current := State(now);
      if current == Closed {
        return true;
      }
      if current == Open {
        return false;
      }
      if halfOpenPending {
        return false;
      }
      halfOpenPending := true;
      return true;
    }

    method RecordFailure(now: real, seen: real)
      modifies this
      ensures Abs() == Fail(config, old(Abs()), now, seen)
    {
      var current := State(seen);
      if current == HalfOpen {
        OpenAt(now);
        return;
      }
      if current == Closed {
        failures := failures + [now];
        PurgeOldFailures(now);
        if |failures| >= config.failureThreshold {
          OpenAt(now);
        }
      }
    }

    method RecordSuccess(now: real)
      modifies this
      ensures Abs() == Succeed(config, old(Abs()), now)
    {
      var current := State(now);
      if current == HalfOpen {
        halfOpenSuccesses := halfOpenSuccesses + 1;
        if halfOpenSuccesses >= config.successThreshold {
          Close();
        } else {
          halfOpenPending := false;
        }
      }
    }

    method OpenAt(now: real)
      modifies this
      ensures Abs() == Trip(old(Abs()), now)
    {
      phase, openedAt, failures, halfOpenSuccesses, halfOpenPending := Open, now, [], 0, false;
    }

    method Close()
      modifies this
      ensures Abs() == Reset(old(Abs()))
    {
      phase, failures, halfOpenSuccesses, halfOpenPending := Closed, [], 0, false;
    }

    method PurgeOldFailures(now: real)
      modifies `failures
      ensures failures == Purge(old(failures), now - config.window)
    {
      var cutoff := now - config.window;
      while failures != [] && failures[0] < cutoff
        invariant Purge(failures, cutoff) == Purge(old(failures), cutoff)
        decreases |failures|
      {
        failures := failures[1..];
      }
    }
  }

  // ---------------------------------------------------------------- runs

  datatype Event =
    | Look(at: real)
    | Ask(at: real)
    | Failure(at: real, seen: real)
    | Success(at: real)
  {
    // The last clock reading the event takes.
    function End(): real {
      if Failure? then seen else at
    }
  }

  // The clock never goes backwards, within an event or between events.
  ghost predicate Timed(es: seq<Event>) {
    && (forall i :: 0 <= i < |es| ==> es[i].at <= es[i].End())
    && (forall i, j :: 0 <= i < j < |es| ==> es[i].End() <= es[j].at)
  }

  function Apply(c: Config, b: Breaker, e: Event): Breaker {
    match e
    case Look(at) => Observe(c, b, at)
    case Ask(at) => Admit(c, b, at).0
    case Failure(at, seen) => Fail(c, b, at, seen)
    case Success(at) => Succeed(c, b, at)
  }

  // The breaker after a history of calls.
  function After(c: Config, es: seq<Event>): Breaker {
    if es == [] then Initial else Apply(c, After(c, es[..|es| - 1]), es[|es| - 1])
  }

  predicate Admitted(c: Config, b: Breaker, e: Event) {
    e.Ask? && Admit(c, b, e.at).1
  }

  lemma AfterSnoc(c: Config, es: seq<Event>, e: Event)
    ensures After(c, es + [e]) == Apply(c, After(c, es), e)
  {
    assert (es + [e])[..|es|] == es;
  }

  lemma AfterPrefix(c: Config, es: seq<Event>, k: nat)
    requires k < |es|
    ensures After(c, es[..k + 1]) == Apply(c, After(c, es[..k]), es[k])
  {
    assert es[..k + 1] == es[..k] + [es[k]];
    AfterSnoc(c, es[..k], es[k]);
  }

  // ---------------------------------------------------------------- the failure window

  // The times of the failures recorded while closed since the breaker last closed.
  function ClosedFailures(c: Config, es: seq<Event>): seq<real> {
    if es == [] then []
    else
      var front, last := es[..|es| - 1], es[|es| - 1];
      if !After(c, front).phase.Closed? || !After(c, es).phase.Closed? then []
      else if last.Failure? then ClosedFailures(c, front) + [last.at]
      else ClosedFailures(c, front)
  }

  function InWindow(ts: seq<real>, cutoff: real): seq<real> {
    if ts == [] then []
    else InWindow(ts[..|ts| - 1], cutoff) + if ts[|ts| - 1] < cutoff then [] else [ts[|ts| - 1]]
  }

  ghost predicate Ascending(ts: seq<real>) {
    forall i, j :: 0 <= i < j < |ts| ==> ts[i] <= ts[j]
  }

  lemma AscendingSnoc(ts: seq<real>, t: real)
    requires Ascending(ts) && forall x :: x in ts ==> x <= t
    ensures Ascending(ts + [t])
  {
    forall i, j | 0 <= i < j < |ts| + 1 ensures (ts + [t])[i] <= (ts + [t])[j] {
      assert ts[i] in ts;
    }
  }

  lemma InWindowSnoc(ts: seq<real>, t: real, cutoff: real)
    ensures InWindow(ts + [t], cutoff) == InWindow(ts, cutoff) + if t < cutoff then [] else [t]
  {
    assert (ts + [t])[..|ts|] == ts;
  }

  lemma {:induction false} InWindowAll(ts: seq<real>, cutoff: real)
    requires forall i :: 0 <= i < |ts| ==> ts[i] >= cutoff
    ensures InWindow(ts, cutoff) == ts
  {
    if ts != [] {
      InWindowAll(ts[..|ts| - 1], cutoff);
    }
  }

  lemma {:induction false} InWindowDropFirst(ts: seq<real>, cutoff: real)
    requires ts != [] && ts[0] < cutoff
    ensures InWindow(ts, cutoff) == InWindow(ts[1..], cutoff)
  {
    if |ts| > 1 {
      InWindowDropFirst(ts[..|ts| - 1], cutoff);
      assert ts[..|ts| - 1][1..] == ts[1..][..|ts| - 2];
    } else {
      assert InWindow(ts[..0], cutoff) == [];
    }
  }

  // Popping from the front is exact because the deque is in time order.
  lemma {:induction false} PurgeIsWindow(ts: seq<real>, cutoff: real)
    requires Ascending(ts)
    ensures Purge(ts, cutoff) == InWindow(ts, cutoff)
  {
    if ts != [] && ts[0] < cutoff {
      PurgeIsWindow(ts[1..], cutoff);
      InWindowDropFirst(ts, cutoff);
    } else {
      InWindowAll(ts, cutoff);
    }
  }

  lemma {:induction false} WindowTwice(ts: seq<real>, early: real, late: real)
    requires early <= late
    ensures InWindow(InWindow(ts, early), late) == InWindow(ts, late)
  {
    if ts != [] {
      var front, t := ts[..|ts| - 1], ts[|ts| - 1];
      WindowTwice(front, early, late);
      if t < early {
        assert InWindow(ts, early) == InWindow(front, early);
      } else {
        InWindowSnoc(InWindow(front, early), t, late);
      }
    }
  }

  lemma {:induction false} WindowAscending(ts: seq<real>, cutoff: real)
    requires Ascending(ts)
    ensures Ascending(InWindow(ts, cutoff))
    ensures forall t :: t in InWindow(ts, cutoff) ==> t in ts
  {
    if ts != [] {
      var front := ts[..|ts| - 1];
      WindowAscending(front, cutoff);
      forall t | t in InWindow(front, cutoff) ensures t <= ts[|ts| - 1] {
        assert t in front;
      }
      AscendingSnoc(InWindow(front, cutoff), ts[|ts| - 1]);
    }
  }

  // What the deque means in every reachable closed state.
  ghost predicate DequeIs(c: Config, b: Breaker, recorded: seq<real>) {
    b.failures == if recorded == [] then [] else InWindow(recorded, recorded[|recorded| - 1] - c.window)
  }

  lemma RecordedInOrder(c: Config, es: seq<Event>)
    requires Timed(es)
    ensures Ascending(ClosedFailures(c, es))
    ensures es != [] ==> forall t :: t in ClosedFailures(c, es) ==> t <= es[|es| - 1].End()
  {
    if es != [] {
      var front := es[..|es| - 1];
      RecordedInOrder(c, front);
      forall t | t in ClosedFailures(c, front) ensures t <= es[|es| - 1].at {
        assert front != [] && front[|front| - 1] == es[|es| - 2];
      }
      AscendingSnoc(ClosedFailures(c, front), es[|es| - 1].at);
    }
  }

  // Purging the deque once the failure is appended leaves the recorded failures in the window.
  lemma PurgedDeque(c: Config, b: Breaker, recorded: seq<real>, at: real)
    requires DequeIs(c, b, recorded) && Ascending(recorded)
    requires forall t :: t in recorded ==> t <= at
    ensures Purge(b.failures + [at], at - c.window) == InWindow(recorded + [at], at - c.window)
  {
    var cutoff := at - c.window;
    assert recorded != [] ==> recorded[|recorded| - 1] in recorded;
    DequeCovers(c, b, recorded, at);
    PurgedIsWindow(c, b, recorded, at);
    InWindowSnoc(b.failures, at, cutoff);
    InWindowSnoc(recorded, at, cutoff);
  }

  lemma PurgedIsWindow(c: Config, b: Breaker, recorded: seq<real>, at: real)
    requires DequeIs(c, b, recorded) && Ascending(recorded)
    requires forall t :: t in recorded ==> t <= at
    ensures Purge(b.failures + [at], at - c.window) == InWindow(b.failures + [at], at - c.window)
  {
    DequeOrdered(c, b, recorded, at);
    AscendingSnoc(b.failures, at);
    PurgeIsWindow(b.failures + [at], at - c.window);
  }

  lemma DequeOrdered(c: Config, b: Breaker, recorded: seq<real>, at: real)
    requires DequeIs(c, b, recorded) && Ascending(recorded)
    requires forall t :: t in recorded ==> t <= at
    ensures Ascending(b.failures) && forall t :: t in b.failures ==> t <= at
  {
    if recorded != [] {
      WindowAscending(recorded, recorded[|recorded| - 1] - c.window);
    }
  }

  // The deque has every recorded failure of the window ending later.
  lemma DequeCovers(c: Config, b: Breaker, recorded: seq<real>, at: real)
    requires DequeIs(c, b, recorded) && (recorded != [] ==> recorded[|recorded| - 1] <= at)
    ensures InWindow(b.failures, at - c.window) == InWindow(recorded, at - c.window)
  {
    if recorded != [] {
      var newest := recorded[|recorded| - 1];
      assert b.failures == InWindow(recorded, newest - c.window);
      WindowTwice(recorded, newest - c.window, at - c.window);
    }
  }

  // The effect of a failure recorded while closed, in terms of the recorded history.
  lemma FailureWhileClosed(c: Config, b: Breaker, recorded: seq<real>, at: real, seen: real)
    requires b.phase.Closed? && DequeIs(c, b, recorded) && Ascending(recorded)
    requires forall t :: t in recorded ==> t <= at
    ensures Fail(c, b, at, seen) ==
            var recent := InWindow(recorded + [at], at - c.window);
            if |recent| >= c.failureThreshold then Trip(b, at) else b.(failures := recent)
  {
    PurgedDeque(c, b, recorded, at);
  }

  lemma DequeUntouched(c: Config, b: Breaker, e: Event)
    requires b.phase.Closed? || b.failures == []
    requires !(b.phase.Closed? && e.Failure?)
    ensures Apply(c, b, e).failures == b.failures
    ensures b.phase.Closed? ==> Apply(c, b, e).phase.Closed?
  {
  }

  lemma {:induction false} DequeInvariant(c: Config, es: seq<Event>)
    requires Timed(es)
    ensures After(c, es).phase.Closed? ==> DequeIs(c, After(c, es), ClosedFailures(c, es))
    ensures !After(c, es).phase.Closed? ==> After(c, es).failures == []
  {
    if es != [] {
      var front, last := es[..|es| - 1], es[|es| - 1];
      assert es == front + [last];
      TimedFront(front, last);
      DequeInvariant(c, front);
      if After(c, front).phase.Closed? && last.Failure? {
        RecordedInOrder(c, front);
        DequeAfterFailure(c, front, last);
      } else {
        DequeAfterOther(c, front, last);
      }
    }
  }

  lemma DequeAfterFailure(c: Config, es: seq<Event>, e: Event)
    requires After(c, es).phase.Closed? && e.Failure?
    requires DequeIs(c, After(c, es), ClosedFailures(c, es)) && Ascending(ClosedFailures(c, es))
    requires forall t :: t in ClosedFailures(c, es) ==> t <= e.at
    ensures var b := After(c, es + [e]);
            if b.phase.Closed? then DequeIs(c, b, ClosedFailures(c, es + [e])) else b.failures == []
  {
    AfterSnoc(c, es, e);
    ClosedFailuresSnoc(c, es, e);
    DequeWithFailure(c, After(c, es), ClosedFailures(c, es), e);
  }

  lemma DequeWithFailure(c: Config, b: Breaker, recorded: seq<real>, e: Event)
    requires e.Failure? && b.phase.Closed? && DequeIs(c, b, recorded) && Ascending(recorded)
    requires forall t :: t in recorded ==> t <= e.at
    ensures var after := Apply(c, b, e);
            if after.phase.Closed? then DequeIs(c, after, recorded + [e.at]) else after.failures == []
  {
    FailureApplied(c, b, recorded, e);
    assert (recorded + [e.at])[|recorded|] == e.at;
  }

  lemma DequeAfterOther(c: Config, es: seq<Event>, e: Event)
    requires !(After(c, es).phase.Closed? && e.Failure?)
    requires if After(c, es).phase.Closed? then DequeIs(c, After(c, es), ClosedFailures(c, es)) else After(c, es).failures == []
    ensures var b := After(c, es + [e]);
            if b.phase.Closed? then DequeIs(c, b, ClosedFailures(c, es + [e])) else b.failures == []
  {
    AfterSnoc(c, es, e);
    ClosedFailuresSnoc(c, es, e);
    DequeUntouched(c, After(c, es), e);
  }

  lemma ClosedFailuresSnoc(c: Config, es: seq<Event>, e: Event)
    ensures ClosedFailures(c, es + [e]) ==
            if !After(c, es).phase.Closed? || !After(c, es + [e]).phase.Closed? then []
            else if e.Failure? then ClosedFailures(c, es) + [e.at]
            else ClosedFailures(c, es)
  {
    assert (es + [e])[..|es|] == es;
  }

  lemma TimedFront(es: seq<Event>, e: Event)
    requires Timed(es + [e])
    ensures Timed(es) && (es != [] ==> es[|es| - 1].End() <= e.at)
  {
    var all := es + [e];
    assert all[|es|] == e;
    forall i, j | 0 <= i < j < |es| ensures es[i].End() <= es[j].at {
      assert all[i] == es[i] && all[j] == es[j];
    }
    forall i | 0 <= i < |es| ensures es[i].at <= es[i].End() {
      assert all[i] == es[i];
    }
    if es != [] {
      assert all[|es| - 1] == es[|es| - 1];
    }
  }

  /** A failure recorded while closed leaves in the deque exactly the failures since
      the last close that lie in the window ending now, and trips the breaker
      exactly when their number reaches the threshold. */
  lemma WindowIsExact(c: Config, es: seq<Event>, e: Event)
    requires Timed(es + [e]) && e.Failure? && After(c, es).phase.Closed?
    ensures var recent := InWindow(ClosedFailures(c, es) + [e.at], e.at - c.window);
            var after := After(c, es + [e]);
            && (after.phase.Open? <==> |recent| >= c.failureThreshold)
            && (after.phase.Closed? <==> |recent| < c.failureThreshold)
            && after.failures == (if after.phase.Closed? then recent else [])
  {
    FailureRecorded(c, es, e);
  }

  lemma FailureRecorded(c: Config, es: seq<Event>, e: Event)
    requires Timed(es + [e]) && e.Failure? && After(c, es).phase.Closed?
    ensures var recent := InWindow(ClosedFailures(c, es) + [e.at], e.at - c.window);
            After(c, es + [e]) ==
            if |recent| >= c.failureThreshold then Trip(After(c, es), e.at) else After(c, es).(failures := recent)
  {
    RecordedBefore(c, es, e);
    AfterSnoc(c, es, e);
    FailureApplied(c, After(c, es), ClosedFailures(c, es), e);
  }

  lemma FailureApplied(c: Config, b: Breaker, recorded: seq<real>, e: Event)
    requires e.Failure? && b.phase.Closed? && DequeIs(c, b, recorded) && Ascending(recorded)
    requires forall t :: t in recorded ==> t <= e.at
    ensures var recent := InWindow(recorded + [e.at], e.at - c.window);
            Apply(c, b, e) == if |recent| >= c.failureThreshold then Trip(b, e.at) else b.(failures := recent)
  {
    FailureWhileClosed(c, b, recorded, e.at, e.seen);
  }

  // What the deque holds when one more event comes.
  lemma RecordedBefore(c: Config, es: seq<Event>, e: Event)
    requires Timed(es + [e]) && After(c, es).phase.Closed?
    ensures DequeIs(c, After(c, es), ClosedFailures(c, es)) && Ascending(ClosedFailures(c, es))
    ensures forall t :: t in ClosedFailures(c, es) ==> t <= e.at
  {
    TimedFront(es, e);
    DequeInvariant(c, es);
    RecordedInOrder(c, es);
  }

  // ---------------------------------------------------------------- admission

  // The event trips the breaker, whichever phase it tripped from.
  predicate Trips(c: Config, b: Breaker, e: Event) {
    e.Failure? && !Observe(c, b, e.seen).phase.Open? && Apply(c, b, e).phase.Open?
  }

  // The breaker is open only because some failure tripped it at its recorded time.
  lemma OnlyFailuresTrip(c: Config, b: Breaker, e: Event)
    requires Apply(c, b, e).phase.Open?
    ensures Trips(c, b, e) ==> Apply(c, b, e).openedAt == e.at
    ensures !Trips(c, b, e) ==> b.phase.Open? && Apply(c, b, e) == b
  {
  }

  lemma {:induction false} StaysOpen(c: Config, es: seq<Event>, from: nat, k: nat)
    requires from <= k <= |es| && After(c, es[..from]).phase.Open?
    requires forall i :: from <= i < k ==> es[i].at <= es[i].End() < After(c, es[..from]).openedAt + c.timeout
    ensures After(c, es[..k]) == After(c, es[..from])
    decreases k
  {
    if from < k {
      StaysOpen(c, es, from, k - 1);
      AfterPrefix(c, es, k - 1);
    }
  }

  /** From the failure that trips the breaker until the timeout has elapsed since
      that failure, no request is admitted. */
  lemma NothingAdmittedBeforeTimeout(c: Config, es: seq<Event>, trip: nat, k: nat)
    requires Timed(es) && trip < k < |es|
    requires Trips(c, After(c, es[..trip]), es[trip])
    requires es[k].End() < es[trip].at + c.timeout
    ensures !Admitted(c, After(c, es[..k]), es[k])
    ensures After(c, es[..k + 1]).phase.Open?
  {
    AfterPrefix(c, es, trip);
    OnlyFailuresTrip(c, After(c, es[..trip]), es[trip]);
    forall i | trip + 1 <= i < k ensures es[i].at <= es[i].End() < es[trip].at + c.timeout {
      assert es[i].End() <= es[k].at;
    }
    StaysOpen(c, es, trip + 1, k);
    AfterPrefix(c, es, k);
  }

  predicate Quiet(es: seq<Event>) {
    forall i :: 0 <= i < |es| ==> es[i].Look? || es[i].Ask?
  }

  // How many requests a segment of calls admits.
  function AdmittedCount(c: Config, b: Breaker, es: seq<Event>): nat
    decreases |es|
  {
    if es == [] then 0
    else (if Admitted(c, b, es[0]) then 1 else 0) + AdmittedCount(c, Apply(c, b, es[0]), es[1..])
  }

  // A probe is only ever outstanding while half-open.
  lemma PendingMeansHalfOpen(c: Config, es: seq<Event>)
    ensures var b := After(c, es);
            && (b.pending ==> b.phase.HalfOpen?)
            && b.successes >= 0
            && (b.phase.HalfOpen? ==> b.successes == 0 || b.successes < c.successThreshold)
  {
    if es != [] {
      PendingMeansHalfOpen(c, es[..|es| - 1]);
    }
  }

  lemma {:induction false} QuietAdmitsOnce(c: Config, b: Breaker, es: seq<Event>)
    requires Quiet(es) && !b.phase.Closed? && (b.pending ==> b.phase.HalfOpen?)
    ensures AdmittedCount(c, b, es) <= if b.pending then 0 else 1
    decreases |es|
  {
    if es != [] {
      QuietAdmitsOnce(c, Apply(c, b, es[0]), es[1..]);
    }
  }

  /** While the breaker is not closed, at most one probe is admitted between two
      recorded outcomes. */
  lemma OneProbeBetweenOutcomes(c: Config, es: seq<Event>, segment: seq<Event>)
    requires Quiet(segment) && !After(c, es).phase.Closed?
    ensures AdmittedCount(c, After(c, es), segment) <= 1
  {
    PendingMeansHalfOpen(c, es);
    QuietAdmitsOnce(c, After(c, es), segment);
  }

  // ---------------------------------------------------------------- who is admitted

  // The failure that opened the breaker it has not closed since.
  ghost predicate LastTrip(c: Config, es: seq<Event>, k: nat) {
    && k < |es| && Trips(c, After(c, es[..k]), es[k])
    && After(c, es).openedAt == es[k].at
    && forall j :: k < j < |es| ==> !Trips(c, After(c, es[..j]), es[j])
  }

  lemma {:induction false} SomeTrip(c: Config, es: seq<Event>) returns (k: nat)
    requires !After(c, es).phase.Closed?
    ensures LastTrip(c, es, k)
    decreases |es|
  {
    var front, last := es[..|es| - 1], es[|es| - 1];
    StillTripped(c, After(c, front), last);
    if Trips(c, After(c, front), last) {
      k := |es| - 1;
    } else {
      k := SomeTrip(c, front);
      assert es[..k] == front[..k];
      forall j | k < j < |es| ensures !Trips(c, After(c, es[..j]), es[j]) {
        assert es[..j] == if j == |front| then front else front[..j];
      }
    }
  }

  lemma StillTripped(c: Config, b: Breaker, e: Event)
    requires !Apply(c, b, e).phase.Closed?
    ensures if Trips(c, b, e) then Apply(c, b, e).openedAt == e.at
            else !b.phase.Closed? && Apply(c, b, e).openedAt == b.openedAt
  {
  }

  // A half-open breaker has seen its timeout pass.
  lemma {:induction false} TimeoutSeen(c: Config, es: seq<Event>)
    requires Timed(es) && After(c, es).phase.HalfOpen?
    ensures es != [] && es[|es| - 1].End() >= After(c, es).openedAt + c.timeout
    decreases |es|
  {
    var front, last := es[..|es| - 1], es[|es| - 1];
    assert es == front + [last];
    assert last.at <= last.End();
    TimedFront(front, last);
    if After(c, front).phase.HalfOpen? {
      TimeoutSeen(c, front);
    }
    TimeoutStep(c, After(c, front), last);
  }

  lemma TimeoutStep(c: Config, b: Breaker, e: Event)
    requires e.at <= e.End() && Apply(c, b, e).phase.HalfOpen?
    requires b.phase.HalfOpen? ==> e.at >= b.openedAt + c.timeout
    ensures e.End() >= Apply(c, b, e).openedAt + c.timeout
  {
  }

  // Call `k` is a probe: it asks a breaker that is not closed, and is admitted.
  ghost predicate IsProbe(c: Config, es: seq<Event>, k: nat)
    requires k < |es|
  {
    !After(c, es[..k]).phase.Closed? && Admitted(c, After(c, es[..k]), es[k])
  }

  predicate Outcome(e: Event) {
    e.Failure? || e.Success?
  }

  // A probe was admitted, and no outcome has been recorded since.
  ghost predicate ProbeOut(c: Config, es: seq<Event>) {
    exists k :: 0 <= k < |es| && IsProbe(c, es, k) && forall j :: k < j < |es| ==> !Outcome(es[j])
  }

  lemma ProbeOutSnoc(c: Config, es: seq<Event>, e: Event)
    ensures ProbeOut(c, es + [e]) <==>
            (!After(c, es).phase.Closed? && Admitted(c, After(c, es), e)) || (!Outcome(e) && ProbeOut(c, es))
  {
    var all := es + [e];
    assert all[..|es|] == es;
    assert IsProbe(c, all, |es|) <==> !After(c, es).phase.Closed? && Admitted(c, After(c, es), e);
    forall k | 0 <= k < |es| ensures IsProbe(c, all, k) <==> IsProbe(c, es, k) {
      assert all[..k] == es[..k];
    }
    if k :| 0 <= k < |es| && IsProbe(c, all, k) && forall j :: k < j < |all| ==> !Outcome(all[j]) {
      assert !Outcome(all[|es|]);
      forall j | k < j < |es| ensures !Outcome(es[j]) {
        assert all[j] == es[j];
      }
    }
    if !Outcome(e) && ProbeOut(c, es) {
      var k :| 0 <= k < |es| && IsProbe(c, es, k) && forall j :: k < j < |es| ==> !Outcome(es[j]);
      assert IsProbe(c, all, k);
      forall j | k < j < |all| ensures !Outcome(all[j]) {
        assert j < |es| ==> all[j] == es[j];
      }
    }
  }

  lemma PendingStep(c: Config, b: Breaker, e: Event)
    requires b.pending ==> b.phase.HalfOpen?
    ensures Apply(c, b, e).pending <==> (!b.phase.Closed? && Admitted(c, b, e)) || (!Outcome(e) && b.pending)
  {
  }

  lemma {:induction false} PendingIsProbeOut(c: Config, es: seq<Event>)
    ensures After(c, es).pending <==> ProbeOut(c, es)
  {
    if es != [] {
      var front, last := es[..|es| - 1], es[|es| - 1];
      assert es == front + [last];
      PendingIsProbeOut(c, front);
      PendingMeansHalfOpen(c, front);
      PendingStep(c, After(c, front), last);
      ProbeOutSnoc(c, front, last);
    }
  }

  /** A request is admitted exactly if the breaker is closed, or if the timeout has passed since
      the failure that tripped it and no probe is out. */
  lemma AdmissionIsExact(c: Config, es: seq<Event>, at: real) returns (k: nat)
    requires Timed(es + [Ask(at)])
    ensures !After(c, es).phase.Closed? ==> LastTrip(c, es, k)
    ensures Admitted(c, After(c, es), Ask(at)) <==>
            || After(c, es).phase == Closed
            || (k < |es| && at >= es[k].at + c.timeout && !ProbeOut(c, es))
    ensures After(c, es + [Ask(at)]).phase == Open <==> After(c, es).phase == Open && k < |es| && at < es[k].at + c.timeout
  {
    k := 0;
    TimedFront(es, Ask(at));
    AfterSnoc(c, es, Ask(at));
    PendingIsProbeOut(c, es);
    PendingMeansHalfOpen(c, es);
    if !After(c, es).phase.Closed? {
      k := SomeTrip(c, es);
    }
    if After(c, es).phase.HalfOpen? {
      TimeoutSeen(c, es);
    }
  }

  // ---------------------------------------------------------------- closing

  function Successes(es: seq<Event>): nat {
    if es == [] then 0 else Successes(es[..|es| - 1]) + if es[|es| - 1].Success? then 1 else 0
  }

  // Since event `k` the breaker has been half-open, without a failure.
  ghost predicate HalfOpenSince(c: Config, es: seq<Event>, k: nat) {
    && k < |es|
    && After(c, es[..k]).phase.Open?
    && (forall j :: k < j < |es| ==> After(c, es[..j]).phase.HalfOpen?)
    && (forall j :: k <= j < |es| ==> !es[j].Failure?)
  }

  // One more event without a failure keeps the breaker's origin.
  lemma HalfOpenExtends(c: Config, es: seq<Event>, e: Event, k: nat)
    requires HalfOpenSince(c, es, k) && After(c, es).phase.HalfOpen? && !e.Failure?
    ensures HalfOpenSince(c, es + [e], k)
    ensures Successes((es + [e])[k..]) == Successes(es[k..]) + if e.Success? then 1 else 0
  {
    var all := es + [e];
    assert all[..k] == es[..k];
    forall j | k < j < |all| ensures After(c, all[..j]).phase.HalfOpen? {
      assert all[..j] == if j == |es| then es else es[..j];
    }
    assert all[k..] == es[k..] + [e];
    SuccessesSnoc(es[k..], e);
  }

  lemma SuccessesSnoc(es: seq<Event>, e: Event)
    ensures Successes(es + [e]) == Successes(es) + if e.Success? then 1 else 0
  {
    assert (es + [e])[..|es|] == es;
  }

  // An open breaker turns half-open or stays open, and only on a call that is no failure.
  lemma HalfOpenStarts(c: Config, es: seq<Event>, e: Event)
    requires After(c, es).phase.Open? && !e.Failure?
    ensures HalfOpenSince(c, es + [e], |es|)
    ensures Successes((es + [e])[|es|..]) == if e.Success? then 1 else 0
  {
    var all := es + [e];
    assert all[..|es|] == es;
    assert all[|es|..] == [] + [e];
    SuccessesSnoc([], e);
  }

  lemma {:induction false} HalfOpenOrigin(c: Config, es: seq<Event>) returns (k: nat)
    requires After(c, es).phase.HalfOpen?
    ensures HalfOpenSince(c, es, k) && Successes(es[k..]) == After(c, es).successes
    decreases |es|
  {
    var front, last := es[..|es| - 1], es[|es| - 1];
    assert es == front + [last];
    AfterSnoc(c, front, last);
    HalfOpenBefore(c, After(c, front), last);
    if After(c, front).phase.Open? {
      k := |es| - 1;
      HalfOpenStarts(c, front, last);
    } else {
      k := HalfOpenOrigin(c, front);
      HalfOpenExtends(c, front, last, k);
    }
  }

  lemma HalfOpenBefore(c: Config, b: Breaker, e: Event)
    requires Apply(c, b, e).phase.HalfOpen?
    ensures !b.phase.Closed? && !e.Failure?
    ensures Apply(c, b, e).successes ==
            (if b.phase.HalfOpen? then b.successes else 0) + if e.Success? then 1 else 0
  {
  }

  lemma ClosedBy(c: Config, b: Breaker, e: Event)
    requires !b.phase.Closed? && Apply(c, b, e).phase.Closed?
    ensures e.Success?
    ensures (if b.phase.HalfOpen? then b.successes else 0) + 1 >= c.successThreshold
  {
  }

  /** The breaker closes only on a success, and only when that success completes
      the configured number of successes recorded since it entered half-open with
      no failure among them. */
  lemma ClosesOnlyAfterSuccesses(c: Config, es: seq<Event>) returns (k: nat)
    requires es != [] && !After(c, es[..|es| - 1]).phase.Closed? && After(c, es).phase.Closed?
    ensures es[|es| - 1].Success? && HalfOpenSince(c, es, k)
    ensures Successes(es[k..]) == if c.successThreshold < 1 then 1 else c.successThreshold
  {
    var front, last := es[..|es| - 1], es[|es| - 1];
    assert es == front + [last];
    PendingMeansHalfOpen(c, front);
    AfterSnoc(c, front, last);
    ClosedBy(c, After(c, front), last);
    if After(c, front).phase.Open? {
      k := |es| - 1;
      HalfOpenStarts(c, front, last);
    } else {
      k := HalfOpenOrigin(c, front);
      HalfOpenExtends(c, front, last, k);
    }
  }

  lemma SameOrigin(c: Config, es: seq<Event>, j: nat, k: nat)
    requires HalfOpenSince(c, es, j) && HalfOpenSince(c, es, k)
    ensures j == k
  {
    OriginIsFirst(c, es, j, k);
    OriginIsFirst(c, es, k, j);
  }

  lemma OriginIsFirst(c: Config, es: seq<Event>, k: nat, j: nat)
    requires HalfOpenSince(c, es, k) && j < |es| && After(c, es[..j]).phase.Open?
    ensures j <= k
  {
  }

  /** A success closes the breaker exactly if it completes the threshold: counted since event
      `k`, with which the breaker became half-open, be that this success itself. */
  lemma ClosesAtThreshold(c: Config, es: seq<Event>, e: Event, k: nat)
    requires e.Success?
    requires if k < |es| then HalfOpenSince(c, es, k) && After(c, es).phase == HalfOpen
             else k == |es| && After(c, es).phase == Open && e.at >= After(c, es).openedAt + c.timeout
    ensures After(c, es + [e]).phase == if Successes((es + [e])[k..]) >= c.successThreshold then Closed else HalfOpen
  {
    AfterSnoc(c, es, e);
    if k < |es| {
      var j := HalfOpenOrigin(c, es);
      SameOrigin(c, es, j, k);
      HalfOpenExtends(c, es, e, k);
    } else {
      HalfOpenStarts(c, es, e);
    }
  }
}
