/**
 Connector calls: the circuit breaker, the rate-limit state, and the retry loop of
 `make_request` around them.  Time is an integer the caller supplies; the network is
 the sequence of outcomes the sends would meet.
 */
module Connector {
  import opened Prelude

  // ----- Circuit breaker, as a value -----

  datatype Breaker = Breaker(failures: nat, openedAt: Option<int>)

  datatype Event = Success | Failure(now: int)

  function Record(b: Breaker, threshold: int, e: Event): Breaker {
    match e
    case Success => Breaker(0, None)
    case Failure(now) =>
      Breaker(b.failures + 1, if b.failures + 1 >= threshold || b.openedAt.Some? then Some(now) else None)
  }

  function RecordAll(b: Breaker, threshold: int, h: seq<Event>): Breaker {
    if h == [] then b else Record(RecordAll(b, threshold, h[..|h| - 1]), threshold, h[|h| - 1])
  }

  const CLOSED := Breaker(0, None)

  /** How many failures the history ends with. */
  function Trailing(h: seq<Event>): nat {
    if h == [] || h[|h| - 1].Success? then 0 else 1 + Trailing(h[..|h| - 1])
  }

  /** What the breaker should be, said without its own transitions: it counts consecutive failures, and is
      open since the latest failure once that count has reached the threshold. */
  function Expected(threshold: int, h: seq<Event>): Breaker {
    Breaker(Trailing(h), if Trailing(h) >= threshold && h != [] && h[|h| - 1].Failure? then Some(h[|h| - 1].now)
        else None)
  }

  lemma {:induction false} BreakerTracksFailures(threshold: int, h: seq<Event>)
    requires threshold >= 1
    ensures RecordAll(CLOSED, threshold, h) == Expected(threshold, h)
  {
    if h != [] { BreakerTracksFailures(threshold, h[..|h| - 1]); }
  }

  /** Open exactly when the count has reached the threshold, in every history, if and only if the configured
      threshold is positive. */
  lemma OpenIffThresholdReached(threshold: int)
    ensures threshold >= 1 <==>
            forall h: seq<Event> :: RecordAll(CLOSED, threshold, h).openedAt.Some? <==>
                RecordAll(CLOSED, threshold, h).failures >= threshold
  {
    if threshold >= 1 {
      forall h: seq<Event> ensures RecordAll(CLOSED, threshold, h).openedAt.Some? <==>
          RecordAll(CLOSED, threshold, h).failures >= threshold {
        BreakerTracksFailures(threshold, h);
        if Trailing(h) >= threshold { assert h != [] && h[|h| - 1].Failure?; }
      }
    } else {
      assert RecordAll(CLOSED, threshold, []) == CLOSED;
    }
  }

  class CircuitBreaker {
    const threshold: int
    const cooldown: int
    var failures: nat
    var openedAt: Option<int>

    constructor (threshold: int, cooldown: int)
      ensures this.threshold == threshold && this.cooldown == cooldown && View() == CLOSED
    {
      this.threshold, this.cooldown := threshold, cooldown;
      failures, openedAt := 0, None;
    }

    function View(): (b: Breaker)
      reads this
    {
      Breaker(failures, openedAt)
    }

    /** False when the circuit is open and its cooldown has not run out: the caller must not send. */
    method Check(now: int) returns (allowed: bool)
      ensures allowed <==> (openedAt.None? || now - openedAt.value >= cooldown)
    {
      if openedAt.None? { return true; }
      var elapsed := now - openedAt.value;
      if elapsed < cooldown { return false; }
      return true;
    }

    method RecordSuccess()
      modifies this
      ensures View() == Record(old(View()), threshold, Success)
    {
      failures := 0;
      openedAt := None;
    }

    method RecordFailure(now: int)
      modifies this
      ensures View() == Record(old(View()), threshold, Failure(now))
    {
      failures := failures + 1;
      if failures >= threshold && openedAt.None? {
        openedAt := Some(now);
      } else if openedAt.Some? {
        openedAt := Some(now);
      }
    }
  }

  // ----- Rate limit headers -----

  datatype Headers = Headers(remaining: Option<int>, limit: Option<int>, retryAfter: Option<real>)

  function Latest<T>(before: Option<T>, after: Option<T>): Option<T> {
    if after.Some? then after else before
  }

  class RateLimit {
    var seen: Headers

    constructor ()
      ensures seen == Headers(None, None, None)
    {
      seen := Headers(None, None, None);
    }

    method Update(h: Headers)
      modifies this
      ensures seen.remaining == Latest(old(seen).remaining, h.remaining)
      ensures seen.limit == Latest(old(seen).limit, h.limit)
      ensures seen.retryAfter == Latest(old(seen).retryAfter, h.retryAfter)
    {
      if h.remaining.Some? { seen := seen.(remaining := h.remaining); }
      if h.limit.Some? { seen := seen.(limit := h.limit); }
      if h.retryAfter.Some? { seen := seen.(retryAfter := h.retryAfter); }
    }

    /** Takes the pending Retry-After, if it asks for a wait. */
    method TakeRetryAfter() returns (wait: Option<real>)
      modifies this
      ensures wait == (if old(seen).retryAfter.Some? && old(seen).retryAfter.value > 0.0 then old(seen).retryAfter
          else None)
      ensures seen == (if wait.Some? then old(seen).(retryAfter := None) else old(seen))
    {
      if seen.retryAfter.Some? && seen.retryAfter.value > 0.0 {
        wait := seen.retryAfter;
        seen := seen.(retryAfter := None);
      } else {
        wait := None;
      }
    }
  }

  /** Proactive delay: nothing with headroom left, otherwise a tenth of a second to two seconds. */
  function Slowdown(h: Headers, threshold: real): (delay: real)
    requires threshold > 0.0
    ensures delay == 0.0 || delay >= 0.1
    ensures h.remaining.Some? && h.remaining.value >= 0 ==> delay <= 2.0
  {
    if h.remaining.None? || h.limit.None? || h.limit.value <= 0 then 0.0
    else
      var ratio := h.remaining.value as real / h.limit.value as real;
      if ratio > threshold then 0.0
      else
        var d := 2.0 * (1.0 - ratio / threshold);
        assert h.remaining.value >= 0 ==> ratio >= 0.0 && ratio / threshold >= 0.0;
        if d >= 0.1 then d else 0.1
  }

  /** The delay is nothing without both figures or with headroom above the threshold; it grows in proportion as the
      headroom shrinks from there to none, from a tenth of a second up to two. */
  lemma SlowdownIs(remaining: int, limit: int, threshold: real)
    requires threshold > 0.0 && limit > 0 && remaining >= 0
    ensures forall h: Headers | h.remaining.None? || h.limit.None? || h.limit.value <= 0 ::
        Slowdown(h, threshold) == 0.0
    ensures forall h: Headers | h.remaining == Some(remaining) && h.limit == Some(limit) ::
              var used := 1.0 - remaining as real / limit as real / threshold;
              Slowdown(h, threshold) == if used < 0.0 then 0.0 else if used >= 0.05 then 2.0 * used else 0.1
  {
    var ratio := remaining as real / limit as real;
    RatioOrder(ratio, threshold);
  }

  lemma RatioOrder(x: real, y: real)
    requires y > 0.0
    ensures x > y <==> 1.0 - x / y < 0.0
  {
    assert x == (x / y) * y;
    if x / y > 1.0 {
      MulAbove(x / y, y);
    } else {
      MulBelow(x / y, y);
    }
  }

  lemma MulAbove(z: real, y: real)
    requires z > 1.0 && y > 0.0
    ensures z * y > y
  {
    assert (z - 1.0) * y > 0.0;
  }

  lemma MulBelow(z: real, y: real)
    requires z <= 1.0 && y > 0.0
    ensures z * y <= y
  {
    assert (1.0 - z) * y >= 0.0;
  }

  // ----- The retry loop -----

  const MAX_SENDS: nat := 3

  datatype Outcome = Raised | Reply(code: nat, headers: Headers)

  datatype Result = CircuitOpen | Returned(code: nat) | RaisedError | FellThrough

  predicate Retryable(code: nat) {
    code == 429 || code == 503
  }

  /** What the sends from `k` on do to the breaker, when the network answers `net`; `clock[k]` is the time
      of a failure at send `k`, `clock[MAX_SENDS]` that of running out of sends. */
  function Sends(net: seq<Outcome>, clock: seq<int>, k: nat, raised: bool): (seq<Event>, Result, nat)
    requires |net| == MAX_SENDS && |clock| == MAX_SENDS + 1 && k <= MAX_SENDS
    decreases MAX_SENDS - k
  {
    if k == MAX_SENDS then ([Failure(clock[k])], if raised then RaisedError else FellThrough, k)
    else if net[k].Raised? then
      var (es, r, n) := Sends(net, clock, k + 1, true);
      ([Failure(clock[k])] + es, r, n)
    else if Retryable(net[k].code) && k + 1 < MAX_SENDS then Sends(net, clock, k + 1, raised)
    else ([if net[k].code < 500 then Success else Failure(clock[k])], Returned(net[k].code), k + 1)
  }

  function RaisedSends(net: seq<Outcome>): nat {
    if net == [] then 0 else RaisedSends(net[..|net| - 1]) + if net[|net| - 1].Raised? then 1 else 0
  }

  predicate AllFailures(es: seq<Event>) {
    forall i | 0 <= i < |es| :: es[i].Failure?
  }

  /** The outcome of a call, without its loop: it stops at the first answer that is neither retryable nor
      raised, or at the last send; the fall-through return is unreachable. */
  lemma {:induction false} SendsOutcome(net: seq<Outcome>, clock: seq<int>, k: nat, raised: bool)
    requires |net| == MAX_SENDS && |clock| == MAX_SENDS + 1 && k < MAX_SENDS
    ensures var (es, r, n) := Sends(net, clock, k, raised);
            && k < n <= MAX_SENDS
            && (r == RaisedError <==> n == MAX_SENDS && net[n - 1].Raised?)
            && (r != RaisedError ==> net[n - 1].Reply? && r == Returned(net[n - 1].code))
            && (forall i | k <= i < n - 1 :: net[i].Raised? || net[i].code == 429 || net[i].code == 503)
            && (n < MAX_SENDS ==> net[n - 1].code != 429 && net[n - 1].code != 503)
    decreases MAX_SENDS - k
  {
    if k + 1 < MAX_SENDS { SendsOutcome(net, clock, k + 1, raised || net[k].Raised?); }
  }

  lemma RaisedSplit(net: seq<Outcome>, k: nat, n: nat)
    requires k < n <= |net|
    ensures RaisedSends(net[k..n]) == (if net[k].Raised? then 1 else 0) + RaisedSends(net[k + 1..n])
    decreases n
  {
    if k + 1 == n {
      assert net[k..n] == [net[k]] && net[k + 1..n] == [];
      assert [net[k]][..0] == [];
    } else {
      RaisedSplit(net, k, n - 1);
      assert net[k..n][..n - 1 - k] == net[k..n - 1];
      assert net[k + 1..n][..n - 2 - k] == net[k + 1..n - 1];
    }
  }

  /** Failures booked: one per raised send, plus one if the call itself raises or ends in a 5xx; a reply
      below 500 books a success last. */
  lemma {:induction false} SendsBook(net: seq<Outcome>, clock: seq<int>, k: nat, raised: bool)
    requires |net| == MAX_SENDS && |clock| == MAX_SENDS + 1 && k < MAX_SENDS
    ensures var (es, r, n) := Sends(net, clock, k, raised);
            && k < n <= MAX_SENDS && es != []
            && (forall i | 0 <= i < |es| - 1 :: es[i].Failure?)
            && |es| == RaisedSends(net[k..n]) + 1
            && (es[|es| - 1].Success? <==> r.Returned? && r.code < 500)
    decreases MAX_SENDS - k
  {
    SendsOutcome(net, clock, k, raised);
    var (es, r, n) := Sends(net, clock, k, raised);
    RaisedSplit(net, k, n);
    if k + 1 < MAX_SENDS {
      SendsBook(net, clock, k + 1, raised || net[k].Raised?);
    }
    assert net[n..n] == [];
  }

  lemma {:induction false} FailuresCount(b: Breaker, threshold: int, es: seq<Event>)
    requires AllFailures(es)
    ensures RecordAll(b, threshold, es).failures == b.failures + |es|
  {
    if es != [] { FailuresCount(b, threshold, es[..|es| - 1]); }
  }

  /** A call that ends by raising adds one failure more than the sends that raised: at least two. */
  lemma RaisingCallCountsOneExtra(b: Breaker, threshold: int, net: seq<Outcome>, clock: seq<int>)
    requires |net| == MAX_SENDS && |clock| == MAX_SENDS + 1 && Sends(net, clock, 0, false).1 == RaisedError
    ensures RecordAll(b, threshold, Sends(net, clock, 0, false).0).failures == b.failures + RaisedSends(net) + 1
    ensures RaisedSends(net) >= 1
  {
    SendsOutcome(net, clock, 0, false);
    SendsBook(net, clock, 0, false);
    var es := Sends(net, clock, 0, false).0;
    assert net[0..MAX_SENDS] == net;
    assert AllFailures(es);
    FailuresCount(b, threshold, es);
    assert net[..3] == net && net[2].Raised?;
  }

  /** `events` are booked and the sends from `k` on complete the call. */
  ghost predicate Underway(net: seq<Outcome>, clock: seq<int>, events: seq<Event>, k: nat, raised: bool)
    requires |net| == MAX_SENDS && |clock| == MAX_SENDS + 1
  {
    && k <= MAX_SENDS
    && var rest := Sends(net, clock, k, raised);
       Sends(net, clock, 0, false) == (events + rest.0, rest.1, rest.2)
  }

  lemma UnderwayStart(net: seq<Outcome>, clock: seq<int>)
    requires |net| == MAX_SENDS && |clock| == MAX_SENDS + 1
    ensures Underway(net, clock, [], 0, false)
  {
    assert [] + Sends(net, clock, 0, false).0 == Sends(net, clock, 0, false).0;
  }

  lemma UnderwayRaised(net: seq<Outcome>, clock: seq<int>, events: seq<Event>, k: nat, raised: bool)
    requires |net| == MAX_SENDS && |clock| == MAX_SENDS + 1 && k < MAX_SENDS && net[k].Raised?
    requires Underway(net, clock, events, k, raised)
    ensures Underway(net, clock, events + [Failure(clock[k])], k + 1, true)
  {
    var rest := Sends(net, clock, k + 1, true).0;
    assert events + ([Failure(clock[k])] + rest) == events + [Failure(clock[k])] + rest;
  }

  lemma UnderwayRetry(net: seq<Outcome>, clock: seq<int>, events: seq<Event>, k: nat, raised: bool)
    requires |net| == MAX_SENDS && |clock| == MAX_SENDS + 1 && k + 1 < MAX_SENDS && net[k].Reply?
        && Retryable(net[k].code)
    requires Underway(net, clock, events, k, raised)
    ensures Underway(net, clock, events, k + 1, raised)
  {}

  class Client {
    const breaker: CircuitBreaker
    const rateLimit: RateLimit

    constructor (breaker: CircuitBreaker, rateLimit: RateLimit)
      ensures this.breaker == breaker && this.rateLimit == rateLimit
    {
      this.breaker, this.rateLimit := breaker, rateLimit;
    }

    /** `make_request`, after the URL guard.  The breaker is consulted once, before the loop. */
    method MakeRequest(net: seq<Outcome>, clock: seq<int>, now: int) returns (result: Result, sends: nat)
      requires |net| == MAX_SENDS && |clock| == MAX_SENDS + 1
      modifies breaker, rateLimit
      ensures result == CircuitOpen <==>
          (old(breaker.openedAt).Some? && now - old(breaker.openedAt).value < breaker.cooldown)
      ensures result == CircuitOpen ==> sends == 0 && breaker.View() == old(breaker.View())
      ensures result != CircuitOpen ==>
                && (result, sends) == (Sends(net, clock, 0, false).1, Sends(net, clock, 0, false).2)
                && breaker.View() == RecordAll(old(breaker.View()), breaker.threshold, Sends(net, clock, 0, false).0)
      ensures result != FellThrough && sends <= MAX_SENDS
    {
      var allowed := breaker.Check(now);
      if !allowed { return CircuitOpen, 0; }
      var wait := rateLimit.TakeRetryAfter();
      result, sends := SendUntilDone(net, clock);
      SendsOutcome(net, clock, 0, false);
    }

    method SendUntilDone(net: seq<Outcome>, clock: seq<int>) returns (result: Result, sends: nat)
      requires |net| == MAX_SENDS && |clock| == MAX_SENDS + 1
      modifies breaker, rateLimit
      ensures (result, sends) == (Sends(net, clock, 0, false).1, Sends(net, clock, 0, false).2)
      ensures breaker.View() == RecordAll(old(breaker.View()), breaker.threshold, Sends(net, clock, 0, false).0)
    {
      ghost var b0, events: seq<Event> := breaker.View(), [];
      UnderwayStart(net, clock);
      var lastException := false;
      sends := 0;
      while sends < MAX_SENDS
        invariant sends <= MAX_SENDS
        invariant breaker.View() == RecordAll(b0, breaker.threshold, events)
        invariant Underway(net, clock, events, sends, lastException)
      {
        var k := sends;
        sends := sends + 1;
        if net[k].Raised? {
          UnderwayRaised(net, clock, events, k, lastException);
          lastException := true;
          breaker.RecordFailure(clock[k]);
          RecordOne(b0, breaker.threshold, events, Failure(clock[k]));
          events := events + [Failure(clock[k])];
          continue;
        }
        rateLimit.Update(net[k].headers);
        if Retryable(net[k].code) && k + 1 < MAX_SENDS {
          UnderwayRetry(net, clock, events, k, lastException);
          var delay := rateLimit.TakeRetryAfter();
          continue;
        }
        RecordOne(b0, breaker.threshold, events, if net[k].code < 500 then Success else Failure(clock[k]));
        if net[k].code < 500 { breaker.RecordSuccess(); } else { breaker.RecordFailure(clock[k]); }
        return Returned(net[k].code), sends;
      }
      breaker.RecordFailure(clock[MAX_SENDS]);
      RecordOne(b0, breaker.threshold, events, Failure(clock[MAX_SENDS]));
      if lastException { return RaisedError, sends; }
      return FellThrough, sends;
    }
  }

  lemma RecordOne(b: Breaker, threshold: int, h: seq<Event>, e: Event)
    ensures RecordAll(b, threshold, h + [e]) == Record(RecordAll(b, threshold, h), threshold, e)
  {}
}
