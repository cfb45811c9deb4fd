/**
 * A server instance's circuit breaker as a value: whether it is tripped, when
 * the trip expires and how many strikes feed the exponential back-off. The
 * instance class keeps these in three fields and its methods are specified by
 * the functions here.
 */
module CircuitBreaker {
  import opened JavaLang

  /** janus.shortCircuitDuration when it is not configured, in milliseconds. */
  const DefaultShortCircuitDuration: int := 30000

  /** A repeated trip never counts fewer strikes than this. */
  const MinRepeatCount: nat := 5

  datatype Breaker = Breaker(shortCircuited: bool, expiration: int, count: nat)

  /** A new instance: not tripped, expiration 0, no strikes. */
  const Initial: Breaker := Breaker(false, 0, 0)

  function Pow(b: nat, n: nat): (r: nat)
    ensures b >= 1 ==> r >= 1
  {
    if n == 0 then 1 else b * Pow(b, n - 1)
  }

  /**
   * (long)(Math.pow(1.5, count) * duration): 3^count * duration / 2^count,
   * truncated toward zero as the cast to long does.
   */
  function BackoffTimeout(count: nat, duration: int): int
  {
    if duration >= 0 then Pow(3, count) * duration / Pow(2, count)
    else -(Pow(3, count) * -duration / Pow(2, count))
  }

  /**
   * The strike count a trip records: back to 0 when the trip comes more than
   * one duration after the previous expiration, otherwise one more, and at
   * least 5.
   */
  function NextCount(b: Breaker, now: int, duration: int): nat
  {
    if now - b.expiration > duration then 0 else Max(b.count + 1, MinRepeatCount)
  }

  /** tripCircuitBreaker: record the strike, push the expiration out by the back-off and set the flag. */
  function Trip(b: Breaker, now: int, duration: int): (r: Breaker)
  {
    var c := NextCount(b, now, duration);
    Breaker(true, now + BackoffTimeout(c, duration), c)
  }

  /** What isShortCircuited answers at time `now`. */
  predicate OpenAt(b: Breaker, now: int)
  {
    b.shortCircuited && now - b.expiration < 0
  }

  /** The state isShortCircuited leaves behind: the flag is cleared once the expiration has passed. */
  function Observe(b: Breaker, now: int): (r: Breaker)
    ensures r.shortCircuited == OpenAt(b, now)
    ensures OpenAt(r, now) == OpenAt(b, now)
    ensures r.expiration == b.expiration && r.count == b.count
  {
    if b.shortCircuited && now - b.expiration >= 0 then b.(shortCircuited := false) else b
  }

  /** getCircuitBreakerRemainingTime: the milliseconds to expiry times 1000 while tripped, else 0. */
  function RemainingTime(b: Breaker, now: int): real
  {
    if OpenAt(b, now) && b.expiration - now > 0 then (b.expiration - now) as real * 1000.0 else 0.0
  }

  // ---------------------------------------------------------------- back-off

  lemma MulCancel(a: int, b: int, c: int)
    requires c > 0 && a * c < b * c
    ensures a < b
  {
    assert (b - a) * c == b * c - a * c;
  }

  lemma DivGrows(x: nat, y: nat)
    requires y >= 1
    ensures x / y <= (3 * x) / (2 * y)
  {
    var q := x / y;
    var q2 := (3 * x) / (2 * y);
    assert q * y <= x;
    assert q * (2 * y) == 2 * (q * y);
    assert 3 * x == q2 * (2 * y) + (3 * x) % (2 * y);
    assert (q2 + 1) * (2 * y) == q2 * (2 * y) + 2 * y;
    MulCancel(q, q2 + 1, 2 * y);
  }

  lemma {:induction false} BackoffStep(count: nat, duration: int)
    requires duration >= 0
    ensures BackoffTimeout(count, duration) <= BackoffTimeout(count + 1, duration)
  {
    var x := Pow(3, count) * duration;
    var y := Pow(2, count);
    assert Pow(3, count + 1) * duration == 3 * x;
    DivGrows(x, y);
  }

  /** Each further strike lengthens (never shortens) the back-off, for a non-negative duration. */
  lemma {:induction false} BackoffMonotone(c1: nat, c2: nat, duration: int)
    requires c1 <= c2 && duration >= 0
    ensures BackoffTimeout(c1, duration) <= BackoffTimeout(c2, duration)
    decreases c2 - c1
  {
    if c1 < c2 {
      BackoffStep(c1, duration);
      BackoffMonotone(c1 + 1, c2, duration);
    }
  }

  /** With no strikes the breaker stays tripped for exactly one duration. */
  lemma BackoffNoStrikes(duration: int)
    ensures BackoffTimeout(0, duration) == duration
  {
  }

  /** Five strikes multiply the duration by 1.5^5 = 243/32, i.e. at least seven-fold. */
  lemma BackoffFiveStrikes(duration: int)
    requires duration >= 0
    ensures BackoffTimeout(5, duration) == (243 * duration) / 32
    ensures BackoffTimeout(5, duration) >= 7 * duration
  {
    assert Pow(3, 5) == 243 && Pow(2, 5) == 32;
  }

  // ---------------------------------------------------------------- trips

  /** A trip well after the previous expiration starts over: no strikes and one duration. */
  lemma QuietTripLastsOneDuration(b: Breaker, now: int, duration: int)
    requires now - b.expiration > duration
    ensures Trip(b, now, duration) == Breaker(true, now + duration, 0)
  {
  }

  /**
   * A trip within one duration of the previous expiration counts at least five
   * strikes and keeps the instance out for at least seven durations.
   */
  lemma RepeatedTripBacksOff(b: Breaker, now: int, duration: int)
    requires duration > 0 && now - b.expiration <= duration
    ensures Trip(b, now, duration).count >= MinRepeatCount
    ensures Trip(b, now, duration).expiration - now >= 7 * duration
  {
    var c := NextCount(b, now, duration);
    BackoffMonotone(5, c, duration);
    BackoffFiveStrikes(duration);
  }

  /**
   * After a trip with a positive duration the instance is short-circuited
   * from the trip until the new expiration and not from then on.
   */
  lemma TripOpensUntilExpiration(b: Breaker, now: int, duration: int, t: int)
    requires duration > 0 && now <= t
    ensures OpenAt(Trip(b, now, duration), t) <==> t < Trip(b, now, duration).expiration
    ensures OpenAt(Trip(b, now, duration), now)
  {
    var c := NextCount(b, now, duration);
    BackoffMonotone(0, c, duration);
  }

  /** Once the expiration has passed, observing clears the flag for good: no later or earlier time sees it tripped. */
  lemma ObserveAfterExpiration(b: Breaker, now: int, later: int)
    requires now - b.expiration >= 0
    ensures !Observe(b, now).shortCircuited
    ensures !OpenAt(Observe(b, now), later)
  {
  }

  /** Observing twice at the same time is the same as observing once. */
  lemma ObserveIdempotent(b: Breaker, now: int)
    ensures Observe(Observe(b, now), now) == Observe(b, now)
  {
  }

  /** The remaining time is positive exactly while the breaker is tripped, and then it is the time to expiry times 1000. */
  lemma RemainingTimeWhileOpen(b: Breaker, now: int)
    ensures RemainingTime(b, now) > 0.0 <==> OpenAt(b, now)
    ensures OpenAt(b, now) ==> RemainingTime(b, now) == (b.expiration - now) as real * 1000.0
  {
  }

  /**
   * The short-circuit scenario with a 1000 ms duration: a first trip after a
   * quiet period is over 1005 ms later, while a second trip right after that
   * still holds 1005 ms later.
   */
  lemma ShortCircuitScenario(b: Breaker, t0: int, t1: int)
    requires t0 - b.expiration > 1000
    requires t0 + 1000 <= t1 <= t0 + 2000
    ensures !OpenAt(Trip(b, t0, 1000), t0 + 1005)
    ensures OpenAt(Trip(Trip(b, t0, 1000), t1, 1000), t1 + 1005)
  {
    QuietTripLastsOneDuration(b, t0, 1000);
    var b1 := Trip(b, t0, 1000);
    RepeatedTripBacksOff(b1, t1, 1000);
  }
}
