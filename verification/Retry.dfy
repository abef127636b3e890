/** Executing a request with retries on other instances. */
module Retry {
  import opened Common

  datatype Config = Config(enabled: bool, maxRetries: int, retryable: set<int>)

  datatype Response = Response(status: int, streaming: bool)

  // What asking for an instance can do: name one, name none, or raise.
  datatype Selection = Instance(address: Address) | NoInstance | Raised

  // What a request function can do.
  datatype Reply = Responded(response: Response) | Raises

  // What the caller observes, in order.
  datatype Event =
    | Sent(instance: Option<Address>, reply: Reply)
    | OnSuccess(instance: Option<Address>)
    | OnFailure(instance: Option<Address>, attempt: int)

  datatype Result =
    | Returned(response: Response)
    | SelectionRaised            // no first instance could be selected
    | RequestRaised
    | UnboundResponse            // the trailing return, before any response exists

  predicate Ok(r: Response) {
    200 <= r.status < 300
  }

  predicate ShouldRetry(c: Config, r: Response) {
    !r.streaming && r.status in c.retryable
  }

  // The backoff before the next attempt: the capped exponential delay times the jitter factor.
  function Power(x: real, n: nat): real {
    if n == 0 then 1.0 else x * Power(x, n - 1)
  }

  function Raw(attempt: nat, initial: real, multiplier: real): real {
    initial * Power(multiplier, attempt)
  }

  function Capped(raw: real, maximum: real): real {
    if raw <= maximum then raw else maximum
  }

  // The delay before jitter.
  function Delay(attempt: nat, initial: real, multiplier: real, maximum: real): real {
    Capped(Raw(attempt, initial, multiplier), maximum)
  }

  function ComputeBackoff(attempt: nat, initial: real, multiplier: real, maximum: real, jitter: real): real {
    Delay(attempt, initial, multiplier, maximum) * (1.0 + jitter)
  }

  lemma {:induction false} PowerSign(x: real, n: nat)
    requires x >= 0.0
    ensures Power(x, n) >= 0.0
  {
    if n > 0 {
      PowerSign(x, n - 1);
    }
  }

  lemma Scale(k: real, x: real, y: real)
    requires k >= 0.0 && x <= y
    ensures k * x <= k * y
  {
  }

  /** For any non-negative settings, with a jitter drawn from [-spread, spread]: the delay
      exceeds the cap at most by the jitter; a spread of at most one never makes it negative;
      and before jitter it never shrinks from one attempt to the next if the multiplier is at
      least one, and never grows if it is at most one. */
  lemma BackoffBounds(attempt: nat, initial: real, multiplier: real, maximum: real, jitter: real, spread: real)
    requires initial >= 0.0 && multiplier >= 0.0 && maximum >= 0.0 && -spread <= jitter <= spread
    ensures ComputeBackoff(attempt, initial, multiplier, maximum, jitter) <= maximum * (1.0 + spread)
    ensures ComputeBackoff(attempt, initial, multiplier, maximum, jitter) >= Delay(attempt, initial, multiplier, maximum) * (1.0 - spread)
    ensures spread <= 1.0 ==> ComputeBackoff(attempt, initial, multiplier, maximum, jitter) >= 0.0
    ensures multiplier >= 1.0 ==>
              Delay(attempt, initial, multiplier, maximum) <= Delay(attempt + 1, initial, multiplier, maximum)
    ensures multiplier <= 1.0 ==>
              Delay(attempt, initial, multiplier, maximum) >= Delay(attempt + 1, initial, multiplier, maximum)
  {
    DelayRange(attempt, initial, multiplier, maximum);
    DelayOrder(attempt, initial, multiplier, maximum);
    Jittered(Delay(attempt, initial, multiplier, maximum), maximum, jitter, spread);
  }

  // The lesser of two delays.
  function Least(x: real, y: real): real {
    if x <= y then x else y
  }

  /** The first delay is the initial one, and each further one is the one before times the
      multiplier, both up to the cap; once there, it stays there unless the multiplier shrinks
      it. */
  lemma DelaysGrow(attempt: nat, initial: real, multiplier: real, maximum: real)
    requires initial >= 0.0 && multiplier >= 0.0 && maximum >= 0.0
    ensures Delay(0, initial, multiplier, maximum) == Least(initial, maximum)
    ensures var d, next := Delay(attempt, initial, multiplier, maximum), Delay(attempt + 1, initial, multiplier, maximum);
            d < maximum || multiplier >= 1.0 ==> next == Least(d * multiplier, maximum)
  {
    var p := Power(multiplier, attempt);
    var raw := Raw(attempt, initial, multiplier);
    assert Raw(attempt + 1, initial, multiplier) == raw * multiplier by {
      Regroup(initial, multiplier, p);
    }
    assert Raw(0, initial, multiplier) == initial * 1.0;
    if raw > maximum && multiplier >= 1.0 {
      Scale(raw, 1.0, multiplier);
      Scale(maximum, 1.0, multiplier);
    }
  }

  lemma Regroup(x: real, m: real, p: real)
    ensures x * (m * p) == (x * p) * m
  {
  }

  /** Jitter spreads the delay over its whole range: every wait in it is some jitter's. */
  lemma EveryWaitInRange(attempt: nat, initial: real, multiplier: real, maximum: real, spread: real, wait: real) returns (jitter: real)
    requires var d := Delay(attempt, initial, multiplier, maximum);
             d > 0.0 && d * (1.0 - spread) <= wait <= d * (1.0 + spread)
    ensures -spread <= jitter <= spread
    ensures ComputeBackoff(attempt, initial, multiplier, maximum, jitter) == wait
  {
    var d := Delay(attempt, initial, multiplier, maximum);
    var factor := wait / d;
    jitter := factor - 1.0;
    assert d * factor == wait;
    if factor < 1.0 - spread {
      StrictScale(d, factor, 1.0 - spread);
    }
    if factor > 1.0 + spread {
      StrictScale(d, 1.0 + spread, factor);
    }
  }

  lemma StrictScale(k: real, x: real, y: real)
    requires k > 0.0 && x < y
    ensures k * x < k * y
  {
  }

  lemma DelayRange(attempt: nat, initial: real, multiplier: real, maximum: real)
    requires initial >= 0.0 && multiplier >= 0.0 && maximum >= 0.0
    ensures 0.0 <= Delay(attempt, initial, multiplier, maximum) <= maximum
  {
    PowerSign(multiplier, attempt);
    Scale(initial, 0.0, Power(multiplier, attempt));
  }

  lemma DelayOrder(attempt: nat, initial: real, multiplier: real, maximum: real)
    requires initial >= 0.0 && multiplier >= 0.0
    ensures multiplier >= 1.0 ==>
              Delay(attempt, initial, multiplier, maximum) <= Delay(attempt + 1, initial, multiplier, maximum)
    ensures multiplier <= 1.0 ==>
              Delay(attempt, initial, multiplier, maximum) >= Delay(attempt + 1, initial, multiplier, maximum)
  {
    RawOrder(attempt, initial, multiplier);
    if multiplier >= 1.0 {
      CappedOrder(Raw(attempt, initial, multiplier), Raw(attempt + 1, initial, multiplier), maximum);
    }
    if multiplier <= 1.0 {
      CappedOrder(Raw(attempt + 1, initial, multiplier), Raw(attempt, initial, multiplier), maximum);
    }
  }

  lemma RawOrder(attempt: nat, initial: real, multiplier: real)
    requires initial >= 0.0 && multiplier >= 0.0
    ensures multiplier >= 1.0 ==> Raw(attempt, initial, multiplier) <= Raw(attempt + 1, initial, multiplier)
    ensures multiplier <= 1.0 ==> Raw(attempt, initial, multiplier) >= Raw(attempt + 1, initial, multiplier)
  {
    PowerOrder(multiplier, attempt);
    if multiplier >= 1.0 {
      Scale(initial, Power(multiplier, attempt), Power(multiplier, attempt + 1));
    }
    if multiplier <= 1.0 {
      Scale(initial, Power(multiplier, attempt + 1), Power(multiplier, attempt));
    }
  }

  lemma CappedOrder(x: real, y: real, maximum: real)
    requires x <= y
    ensures Capped(x, maximum) <= Capped(y, maximum)
  {
  }

  lemma PowerOrder(x: real, n: nat)
    requires x >= 0.0
    ensures x >= 1.0 ==> Power(x, n) <= Power(x, n + 1)
    ensures x <= 1.0 ==> Power(x, n) >= Power(x, n + 1)
  {
    PowerSign(x, n);
    if x >= 1.0 {
      Scale(Power(x, n), 1.0, x);
    }
    if x <= 1.0 {
      Scale(Power(x, n), x, 1.0);
    }
  }

  lemma Jittered(delay: real, maximum: real, jitter: real, spread: real)
    requires 0.0 <= delay <= maximum && -spread <= jitter <= spread
    ensures delay * (1.0 - spread) <= delay * (1.0 + jitter) <= maximum * (1.0 + spread)
    ensures spread <= 1.0 ==> delay * (1.0 + jitter) >= 0.0
  {
    var lo, factor, hi := 1.0 - spread, 1.0 + jitter, 1.0 + spread;
    Scale(delay, lo, factor);
    BelowCap(delay, factor, maximum, hi);
    if spread <= 1.0 {
      NonNegative(delay, factor);
    }
  }

  lemma BelowCap(delay: real, factor: real, maximum: real, hi: real)
    requires 0.0 <= delay <= maximum && factor <= hi && hi >= 0.0
    ensures delay * factor <= maximum * hi
  {
    Scale(delay, factor, hi);
    ScaleRight(delay, maximum, hi);
  }

  lemma ScaleRight(x: real, y: real, k: real)
    requires k >= 0.0 && x <= y
    ensures x * k <= y * k
  {
  }

  lemma NonNegative(x: real, y: real)
    requires x >= 0.0 && y >= 0.0
    ensures x * y >= 0.0
  {
  }

  // ---------------------------------------------------------------- traces

  // Every request that is answered is followed by exactly one callback, which reports it;
  // one that raises is the last thing to happen.
  ghost predicate Reported(t: seq<Event>) {
    && (forall i :: 0 <= i < |t| / 2 ==> ReportedAt(t, i))
    && (|t| % 2 == 1 ==> t[|t| - 1].Sent? && t[|t| - 1].reply.Raises?)
  }

  predicate ReportedAt(t: seq<Event>, i: nat)
    requires i < |t| / 2
  {
    && t[2 * i].Sent? && t[2 * i].reply.Responded?
    && var status := t[2 * i].reply.response.status;
       t[2 * i + 1] == if 200 <= status && status < 300 then OnSuccess(t[2 * i].instance) else OnFailure(t[2 * i].instance, i)
  }

  function Callback(instance: Option<Address>, response: Response, attempt: int): Event {
    if Ok(response) then OnSuccess(instance) else OnFailure(instance, attempt)
  }

  function Requests(t: seq<Event>): nat {
    (|t| + 1) / 2
  }

  // Request `i` was retried: retryable, not streaming, not successful.
  predicate Retried(c: Config, t: seq<Event>, i: nat)
    requires i < |t| / 2
  {
    var e := t[2 * i];
    && e.Sent? && e.reply.Responded?
    && var r := e.reply.response;
       (r.status < 200 || r.status >= 300) && !r.streaming && r.status in c.retryable
  }

  function Tried(t: seq<Event>): seq<Option<Address>> {
    seq(Requests(t), i requires 0 <= i < Requests(t) => var e := t[2 * i]; if e.Sent? then e.instance else None)
  }

  // The selector never names an instance it was asked to exclude.
  ghost predicate Honours(select: seq<Option<Address>> -> Selection) {
    forall excluded :: select(excluded).Instance? ==> Some(select(excluded).address) !in excluded
  }

  // The instance, if the selector names one.
  function Named(s: Selection): Option<Address> {
    if s.Instance? then Some(s.address) else None
  }

  // Request `i` went where the selector led, given those tried before, and got that reply.
  ghost predicate FollowsAt(
    select: seq<Option<Address>> -> Selection, respond: (nat, Option<Address>) -> Reply, t: seq<Event>, i: nat)
    requires i < Requests(t)
  {
    && !select(Tried(t)[..i]).Raised?
    && t[2 * i] == Sent(Named(select(Tried(t)[..i])), respond(i, Named(select(Tried(t)[..i]))))
  }

  /** One execution.  `select` and `respond` are the caller's callbacks: the instance
      chosen given those to exclude, and the reply to the attempt on an instance. */
  method Execute(
    c: Config,
    select: seq<Option<Address>> -> Selection,
    respond: (nat, Option<Address>) -> Reply)
    returns (r: Result, t: seq<Event>)
    ensures Reported(t)
    // with retries enabled, at most max_retries + 1 requests; otherwise at most one
    ensures Requests(t) <= if !c.enabled then 1 else if c.maxRetries < 0 then 0 else c.maxRetries + 1
    // the result is the last response, unless the last request raises
    ensures r.RequestRaised? <==> |t| % 2 == 1
    ensures r.Returned? <==> |t| % 2 == 0 && t != []
    ensures r.Returned? ==> t[|t| - 2] == Sent(t[|t| - 2].instance, Responded(r.response))
    // nothing is sent exactly if no first instance can be had, or the limit is negative
    ensures r.SelectionRaised? <==> select([]).Raised? && !(c.enabled && c.maxRetries < 0)
    ensures r.SelectionRaised? ==> t == []
    // the trailing return is reached exactly with a negative limit
    ensures r.UnboundResponse? <==> c.enabled && c.maxRetries < 0
    // every request but the last was retryable, non-streaming and unsuccessful
    ensures forall i :: 0 <= i < Requests(t) - 1 ==> Retried(c, t, i)
    // it stops short of the limit only on an answer or when no other instance can be had
    ensures c.enabled && r.Returned? && Requests(t) <= c.maxRetries && Retried(c, t, Requests(t) - 1) ==>
              !select(Tried(t)).Instance?
    // each request goes where the selector leads
    ensures forall i :: 0 <= i < Requests(t) ==> FollowsAt(select, respond, t, i)
    // a selector that honours exclusions is never asked to repeat an instance
    ensures Honours(select) ==> Distinct(Tried(t))
  {
    t := [];
    if !c.enabled {
      r, t := ExecuteOnce(select, respond);
      return;
    }

    var tried: seq<Option<Address>> := [];
    var next: Option<Address> := None;
    var attempt := 0;
    while attempt < c.maxRetries + 1
      invariant 0 <= attempt && (attempt == 0 || attempt <= c.maxRetries)
      invariant attempt == 0 <==> next.None?
      invariant Reported(t) && |t| == 2 * attempt && tried == Tried(t)
      invariant forall i :: 0 <= i < attempt ==> Retried(c, t, i)
      invariant forall i :: 0 <= i < attempt ==> FollowsAt(select, respond, t, i)
      invariant attempt > 0 ==> !select([]).Raised?
      invariant next.Some? ==> select(tried) == Instance(next.value)
      invariant Honours(select) ==> Distinct(tried)
      decreases c.maxRetries + 1 - attempt
    {
      var instance := next;
      if next.None? {
        var s := select(tried);
        if s.Raised? {
          return SelectionRaised, [];
        }
        instance := Named(s);
      }
      next := None;
      ghost var before := t;
      var reply := respond(attempt, instance);
      Snoc(c, select, respond, before, instance, attempt);
      if reply.Raises? {
        t := t + [Sent(instance, reply)];
        return RequestRaised, t;
      }
      var response := reply.response;
      t := t + [Sent(instance, reply), Callback(instance, response, attempt)];
      tried := tried + [instance];
      if Ok(response) {
        return Returned(response), t;
      }
      if attempt < c.maxRetries && ShouldRetry(c, response) {
        var s := select(tried);
        if !s.Instance? {
          return Returned(response), t;
        }
        next := Some(s.address);
        attempt := attempt + 1;
      } else {
        return Returned(response), t;
      }
    }
    return UnboundResponse, t;
  }

  // Without retries.
  method ExecuteOnce(select: seq<Option<Address>> -> Selection, respond: (nat, Option<Address>) -> Reply)
    returns (r: Result, t: seq<Event>)
    ensures Reported(t) && Requests(t) <= 1
    ensures r.RequestRaised? <==> |t| % 2 == 1
    ensures r.Returned? <==> |t| % 2 == 0 && t != []
    ensures r.Returned? ==> t[|t| - 2] == Sent(t[|t| - 2].instance, Responded(r.response))
    ensures !r.UnboundResponse? && (r.SelectionRaised? <==> select([]).Raised?) && (r.SelectionRaised? ==> t == [])
    ensures forall i :: 0 <= i < Requests(t) ==> FollowsAt(select, respond, t, i)
  {
    var s := select([]);
    if s.Raised? {
      return SelectionRaised, [];
    }
    var reply := respond(0, Named(s));
    if reply.Raises? {
      t := [Sent(Named(s), reply)];
      assert Tried(t)[..0] == [];
      return RequestRaised, t;
    }
    t := [Sent(Named(s), reply), Callback(Named(s), reply.response, 0)];
    assert Tried(t)[..0] == [];
    return Returned(reply.response), t;
  }

  // One request more, answered or raising.
  lemma Snoc(
    c: Config, select: seq<Option<Address>> -> Selection, respond: (nat, Option<Address>) -> Reply,
    t: seq<Event>, instance: Option<Address>, n: nat)
    requires Reported(t) && |t| == 2 * n
    requires forall i :: 0 <= i < n ==> Retried(c, t, i) && FollowsAt(select, respond, t, i)
    requires !select(Tried(t)).Raised? && instance == Named(select(Tried(t)))
    requires Honours(select) ==> Distinct(Tried(t))
    ensures var reply := respond(n, instance);
            var u := if reply.Raises? then t + [Sent(instance, reply)]
                     else t + [Sent(instance, reply), Callback(instance, reply.response, n)];
            && Reported(u) && Requests(u) == n + 1 && Tried(u) == Tried(t) + [instance]
            && (forall i :: 0 <= i < n ==> Retried(c, u, i))
            && (forall i :: 0 <= i <= n ==> FollowsAt(select, respond, u, i))
            && (Honours(select) && (n == 0 || instance.Some?) ==> Distinct(Tried(u)))
  {
    var reply := respond(n, instance);
    var u := if reply.Raises? then t + [Sent(instance, reply)]
             else t + [Sent(instance, reply), Callback(instance, reply.response, n)];
    assert Tried(u) == Tried(t) + [instance];
    forall i | 0 <= i < n ensures ReportedAt(u, i) && Retried(c, u, i) && FollowsAt(select, respond, u, i) {
      assert ReportedAt(t, i) && Retried(c, t, i) && FollowsAt(select, respond, t, i);
      assert u[2 * i] == t[2 * i] && u[2 * i + 1] == t[2 * i + 1];
      assert Tried(u)[..i] == Tried(t)[..i];
    }
    assert Tried(u)[..n] == Tried(t);
  }
}
