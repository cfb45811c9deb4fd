/**
 * The retry loops of the two REST clients. Each attempt asks the
 * coordinator for a server, calls the remote service at that server's URL
 * and classifies what came back: a value for the caller, an exception passed
 * through to the caller, or a failure that moves on to the next attempt.
 * Every attempt does its bookkeeping on the chosen server's stats: one more
 * message sent, an open request for the duration of the call, the error
 * when the failure is the server's, and the latency when one was measured.
 *
 * The servers the coordinator hands out (`pick`), the remote calls
 * (`calls`, given the attempt and the URL) and the clock (`clock`) are inputs.
 */
module RestClients {
  import opened Wrappers
  import opened Instances
  import opened Stats
  import opened CircuitBreaker

  /** The most attempts a retry budget allows: the do-while loop always makes the first one. */
  function MaxAttempts(numRetries: int): (m: nat)
    ensures m >= 1
    ensures numRetries >= 0 ==> m == numRetries + 1
  {
    if numRetries < 0 then 1 else numRetries + 1
  }

  /** How an attempt ends for the loop: with a value, with an exception for the caller, or by trying again. */
  datatype Verdict<T> = Deliver(value: T) | PassOn(status: int) | Retry

  /** One attempt as the stats see it: how it ended, whether it counted an error, the latency it measured (-1 if none). */
  datatype Attempt<T> = Attempt(verdict: Verdict<T>, errored: bool, latency: int)

  /** What executeWithLoadBalancer ends with: the value, a client error passed through, or one of its two exceptions. */
  datatype Outcome<T> =
    | Value(value: T)
    | Passed(status: int)
    | NoServerAvailable(serviceName: string)
    | RetriesExceeded(serviceName: string, numRetries: int)

  /** A run of the loop: how it ended and how many remote calls it made. */
  datatype Run<T> = Run(outcome: Outcome<T>, calls: nat)

  /** The counters of one server's stats that an attempt touches. */
  datatype Counters = Counters(sent: nat, open: int, errors: nat, window: seq<int>, tripped: nat, latencies: seq<int>)

  ghost function CountersOf(s: ServerStats): Counters
    reads s
  {
    Counters(s.sentMessages, s.openRequests, s.errorCount, s.errorWindow, s.trippedCount, s.latencies)
  }

  /**
   * The counters after one attempt on their server: one more message sent,
   * the open request taken and given back, an error counted into the window
   * (and a trip counted when the window reaches the threshold), and a
   * positive latency recorded.
   */
  function AfterAttempt(c: Counters, errored: bool, latency: int, now: int, threshold: int): (d: Counters)
    ensures d.sent == c.sent + 1 && d.open == c.open
    ensures d.errors == if errored then c.errors + 1 else c.errors
    ensures !errored ==> d.window == c.window && d.tripped == c.tripped
    ensures errored ==> d.window == RecordError(c.window, now) && now in d.window
    ensures d.tripped == if errored && Trips(d.window, threshold) then c.tripped + 1 else c.tripped
    ensures latency > 0 ==> |d.latencies| > 0 && d.latencies[|d.latencies| - 1] == latency
    ensures latency <= 0 ==> d.latencies == c.latencies
  {
    var window := if errored then RecordError(c.window, now) else c.window;
    Counters(c.sent + 1, c.open,
             if errored then c.errors + 1 else c.errors,
             window,
             if errored && Trips(window, threshold) then c.tripped + 1 else c.tripped,
             if latency > 0 then LastSamples(c.latencies + [latency], LatencySamples) else c.latencies)
  }

  /**
   * The loop from attempt `i` on: stop with no server as soon as the
   * coordinator has none, stop at the first attempt that does not retry, and
   * give up after the last attempt the budget allows.
   */
  function RunFrom<T>(numRetries: int, serviceName: string, i: nat, pick: nat -> ServerStats?,
                      attempt: nat -> Attempt<T>): (r: Run<T>)
    requires i < MaxAttempts(numRetries)
    decreases MaxAttempts(numRetries) - i
  {
    if pick(i) == null then Run(NoServerAvailable(serviceName), i)
    else match attempt(i).verdict
      case Deliver(v) => Run(Value(v), i + 1)
      case PassOn(status) => Run(Passed(status), i + 1)
      case Retry =>
        if i + 1 < MaxAttempts(numRetries) then RunFrom(numRetries, serviceName, i + 1, pick, attempt)
        else Run(RetriesExceeded(serviceName, numRetries), i + 1)
  }

  /**
   * What a run from attempt `i` amounts to: at most the budget's attempts,
   * each of which found a server; no server ends it at once; running out of
   * retries means every attempt retried and the budget is spent; a value or
   * a client error ends it at the first attempt that did not retry.
   */
  lemma {:induction false} RunShape<T>(numRetries: int, serviceName: string, i: nat, pick: nat -> ServerStats?,
                                       attempt: nat -> Attempt<T>)
    requires i < MaxAttempts(numRetries)
    ensures var r := RunFrom(numRetries, serviceName, i, pick, attempt);
            && i <= r.calls <= MaxAttempts(numRetries)
            && (forall j | i <= j < r.calls :: pick(j) != null)
            && (r.outcome.NoServerAvailable? ==>
                  r.outcome.serviceName == serviceName && r.calls < MaxAttempts(numRetries) && pick(r.calls) == null)
            && (r.outcome.RetriesExceeded? ==>
                  r.outcome == RetriesExceeded(serviceName, numRetries) && r.calls == MaxAttempts(numRetries))
            && (r.outcome.RetriesExceeded? || r.outcome.NoServerAvailable? ==>
                  forall j | i <= j < r.calls :: attempt(j).verdict.Retry?)
            && (r.outcome.Value? || r.outcome.Passed? ==>
                  && i < r.calls
                  && (forall j | i <= j < r.calls - 1 :: attempt(j).verdict.Retry?)
                  && attempt(r.calls - 1).verdict ==
                       (if r.outcome.Value? then Deliver(r.outcome.value) else PassOn(r.outcome.status)))
    decreases MaxAttempts(numRetries) - i
  {
    if pick(i) != null && attempt(i).verdict.Retry? && i + 1 < MaxAttempts(numRetries) {
      RunShape(numRetries, serviceName, i + 1, pick, attempt);
    }
  }

  /** An attempt that found a server and retries, with budget left, hands the run on to the next attempt. */
  lemma RetryMoves<T>(numRetries: int, serviceName: string, i: nat, pick: nat -> ServerStats?, attempt: nat -> Attempt<T>)
    requires i + 1 < MaxAttempts(numRetries) && pick(i) != null && attempt(i).verdict.Retry?
    ensures RunFrom(numRetries, serviceName, i, pick, attempt) == RunFrom(numRetries, serviceName, i + 1, pick, attempt)
  {
  }

  /** Where the run ends when attempt `i` is reached: no server, an attempt that does not retry, or the last one. */
  lemma RunEnds<T>(numRetries: int, serviceName: string, i: nat, pick: nat -> ServerStats?, attempt: nat -> Attempt<T>)
    requires i < MaxAttempts(numRetries)
    ensures pick(i) == null ==> RunFrom(numRetries, serviceName, i, pick, attempt) == Run(NoServerAvailable(serviceName), i)
    ensures pick(i) != null && attempt(i).verdict.Deliver? ==>
              RunFrom(numRetries, serviceName, i, pick, attempt) == Run(Value(attempt(i).verdict.value), i + 1)
    ensures pick(i) != null && attempt(i).verdict.PassOn? ==>
              RunFrom(numRetries, serviceName, i, pick, attempt) == Run(Passed(attempt(i).verdict.status), i + 1)
    ensures pick(i) != null && attempt(i).verdict.Retry? && i + 1 == MaxAttempts(numRetries) ==>
              RunFrom(numRetries, serviceName, i, pick, attempt) == Run(RetriesExceeded(serviceName, numRetries), i + 1)
  {
  }

  /** The counters of `s` after the first `n` attempts: each attempt on `s` applied in turn. */
  function Replay<T>(c: Counters, s: ServerStats, n: nat, pick: nat -> ServerStats?, attempt: nat -> Attempt<T>,
                     clock: nat -> int): Counters
  {
    if n == 0 then c
    else
      var p := Replay(c, s, n - 1, pick, attempt, clock);
      if pick(n - 1) == s then AfterAttempt(p, attempt(n - 1).errored, attempt(n - 1).latency, clock(n - 1), s.errorThreshold)
      else p
  }

  /** How many of the first `n` attempts went to `s`. */
  function CallsOn(s: ServerStats, n: nat, pick: nat -> ServerStats?): nat
  {
    if n == 0 then 0 else CallsOn(s, n - 1, pick) + (if pick(n - 1) == s then 1 else 0)
  }

  /** How many of the first `n` attempts went to `s` and counted an error. */
  function ErrorsOn<T>(s: ServerStats, n: nat, pick: nat -> ServerStats?, attempt: nat -> Attempt<T>): nat
  {
    if n == 0 then 0 else ErrorsOn(s, n - 1, pick, attempt) + (if pick(n - 1) == s && attempt(n - 1).errored then 1 else 0)
  }

  /** No attempt among the first `n` went to a stats object of `x` and counted an error. */
  predicate Untripped<T>(x: ServerInstance, n: nat, pick: nat -> ServerStats?, attempt: nat -> Attempt<T>)
  {
    n == 0 || (Untripped(x, n - 1, pick, attempt) && !(pick(n - 1) != null && pick(n - 1).server == x && attempt(n - 1).errored))
  }

  /**
   * Over any run, a server's stats end with one message sent per call made
   * to it, one error per call that counted one, and the open requests they
   * started with: every attempt gives back the open request it took.
   */
  lemma {:induction false} ReplayCounts<T>(c: Counters, s: ServerStats, n: nat, pick: nat -> ServerStats?,
                                           attempt: nat -> Attempt<T>, clock: nat -> int)
    ensures var d := Replay(c, s, n, pick, attempt, clock);
            && d.sent == c.sent + CallsOn(s, n, pick)
            && d.open == c.open
            && d.errors == c.errors + ErrorsOn(s, n, pick, attempt)
  {
    if n > 0 {
      ReplayCounts(c, s, n - 1, pick, attempt, clock);
    }
  }

  /** Stats no attempt went to end as they started. */
  lemma {:induction false} ReplayUntouched<T>(c: Counters, s: ServerStats, n: nat, pick: nat -> ServerStats?,
                                              attempt: nat -> Attempt<T>, clock: nat -> int)
    requires CallsOn(s, n, pick) == 0
    ensures Replay(c, s, n, pick, attempt, clock) == c
  {
    if n > 0 {
      ReplayUntouched(c, s, n - 1, pick, attempt, clock);
    }
  }

  /** Stats whose calls never measured a positive latency keep their latency samples. */
  lemma {:induction false} ReplayKeepsLatencies<T>(c: Counters, s: ServerStats, n: nat, pick: nat -> ServerStats?,
                                                  attempt: nat -> Attempt<T>, clock: nat -> int)
    requires forall j | 0 <= j < n :: pick(j) == s ==> attempt(j).latency <= 0
    ensures Replay(c, s, n, pick, attempt, clock).latencies == c.latencies
  {
    if n > 0 {
      ReplayKeepsLatencies(c, s, n - 1, pick, attempt, clock);
    }
  }

  /**
   * One attempt's try/catch/finally on the chosen server: count the message
   * and the open request, make the call, count the server's error if the
   * failure is the server's, give back the open request and record a
   * positive latency. `classified` is how the client reads the call.
   */
  method Bookkeep<T>(s: ServerStats, classified: Attempt<T>, now: int, duration: int)
    modifies s`sentMessages, s`openRequests, s`errorWindow, s`errorCount, s`trippedCount, s`latencies
    modifies s.server`shortCircuited, s.server`shortCircuitExpiration, s.server`shortCircuitCount
    ensures CountersOf(s) == AfterAttempt(old(CountersOf(s)), classified.errored, classified.latency, now, s.errorThreshold)
    ensures s.server.BreakerState() ==
              if classified.errored && Trips(s.errorWindow, s.errorThreshold)
              then Trip(old(s.server.BreakerState()), now, duration) else old(s.server.BreakerState())
  {
    ghost var d := AfterAttempt(CountersOf(s), classified.errored, classified.latency, now, s.errorThreshold);
    s.IncrementSentMessages();
    s.IncrementOpenRequests();
    if classified.errored {
      s.IncrementErrors(now, duration);
    }
    s.DecrementOpenRequests();
    if classified.latency > 0 {
      s.RecordLatency(classified.latency);
    }
    assert s.sentMessages == d.sent && s.openRequests == d.open && s.errorCount == d.errors;
    assert s.errorWindow == d.window && s.trippedCount == d.tripped && s.latencies == d.latencies;
  }

  /**
   * What a remote call through the RestTemplate does: it returns a result
   * (null allowed) after the measured latency, throws a client error (4xx),
   * throws a server error (5xx), or throws something else.
   */
  datatype TemplateCall<T> = Returned(result: Option<T>, latency: int) | ClientError(status: int) | ServerError(status: int) | Threw

  /**
   * How DefaultRestTemplateClient reads a call: a client error goes back to
   * the caller uncounted; a server error or any other exception counts an
   * error and retries; a null result retries without counting an error; only
   * a call that returned measured a latency.
   */
  function TemplateAttempt<T>(c: TemplateCall<T>): (a: Attempt<T>)
    ensures a.verdict.PassOn? <==> c.ClientError?
    ensures a.errored <==> c.ServerError? || c.Threw?
    ensures a.verdict.Deliver? <==> c.Returned? && c.result.Some?
    ensures a.verdict.Deliver? ==> a.verdict.value == c.result.value
    ensures a.verdict.PassOn? ==> a.verdict.status == c.status
    ensures a.latency == if c.Returned? then c.latency else -1
  {
    match c
    case Returned(None, latency) => Attempt(Retry, false, latency)
    case Returned(Some(v), latency) => Attempt(Deliver(v), false, latency)
    case ClientError(status) => Attempt(PassOn(status), false, -1)
    case ServerError(_) => Attempt(Retry, true, -1)
    case Threw => Attempt(Retry, true, -1)
  }

  /** The template client's reading of each attempt, the call going to the picked server's URL followed by `path`. */
  function TemplateAttempts<T>(path: string, pick: nat -> ServerStats?, calls: (nat, string) -> TemplateCall<T>): nat -> Attempt<T>
  {
    (i: nat) => if pick(i) == null then Attempt(Retry, false, -1) else TemplateAttempt(calls(i, pick(i).server.ep.url + path))
  }

  /** A response of the HTTP client: its status code and its body. */
  datatype Response<T> = Response(status: int, body: T)

  /** What a remote call through the async HTTP client does: it answers (null on a timeout) after the measured latency, or throws. */
  datatype HttpCall<T> = Answered(response: Option<Response<T>>, latency: int) | Failed

  /**
   * How DefaultRestHttpClient reads a call: a missing response or a status
   * of 500 or more counts an error and retries, as does any exception; any
   * other status, 404 included, is returned; a call that answered measured
   * its latency.
   */
  function HttpAttempt<T>(c: HttpCall<T>): (a: Attempt<Response<T>>)
    ensures !a.verdict.PassOn?
    ensures a.verdict.Deliver? <==> c.Answered? && c.response.Some? && c.response.value.status < 500
    ensures a.verdict.Deliver? ==> a.verdict.value == c.response.value
    ensures a.errored <==> !a.verdict.Deliver?
    ensures a.latency == if c.Answered? then c.latency else -1
  {
    match c
    case Answered(None, latency) => Attempt(Retry, true, latency)
    case Answered(Some(response), latency) =>
      if response.status >= 500 then Attempt(Retry, true, latency) else Attempt(Deliver(response), false, latency)
    case Failed => Attempt(Retry, true, -1)
  }

  /** The HTTP client's reading of each attempt, the call going to the picked server's URL followed by `path`. */
  function HttpAttempts<T>(path: string, pick: nat -> ServerStats?, calls: (nat, string) -> HttpCall<T>): nat -> Attempt<Response<T>>
  {
    (i: nat) => if pick(i) == null then Attempt(Retry, false, -1) else HttpAttempt(calls(i, pick(i).server.ep.url + path))
  }

  /** One attempt of the loop on the server picked: its stats follow the replay one attempt further. */
  method AttemptStep<T>(i: nat, pick: nat -> ServerStats?, attempt: nat -> Attempt<T>, clock: nat -> int, duration: int,
                        ghost pool: set<ServerStats>, ghost hosts: set<ServerInstance>,
                        ghost c0: map<ServerStats, Counters>, ghost b0: map<ServerInstance, Breaker>)
    requires pick(i) != null && pick(i) in pool && pick(i).server in hosts
    requires c0.Keys == pool && b0.Keys == hosts
    requires forall s | s in pool :: CountersOf(s) == Replay(c0[s], s, i, pick, attempt, clock)
    requires forall x | x in hosts && Untripped(x, i, pick, attempt) :: x.BreakerState() == b0[x]
    modifies pick(i)`sentMessages, pick(i)`openRequests, pick(i)`errorWindow, pick(i)`errorCount
    modifies pick(i)`trippedCount, pick(i)`latencies
    modifies pick(i).server`shortCircuited, pick(i).server`shortCircuitExpiration, pick(i).server`shortCircuitCount
    ensures forall s | s in pool :: CountersOf(s) == Replay(c0[s], s, i + 1, pick, attempt, clock)
    ensures forall x | x in hosts && Untripped(x, i + 1, pick, attempt) :: x.BreakerState() == b0[x]
  {
    var server := pick(i);
    Bookkeep(server, attempt(i), clock(i), duration);
    forall s | s in pool
      ensures CountersOf(s) == Replay(c0[s], s, i + 1, pick, attempt, clock)
    {
      if s != server {
        assert unchanged(s);
      }
    }
    forall x | x in hosts && Untripped(x, i + 1, pick, attempt)
      ensures x.BreakerState() == b0[x]
    {
      if x != server.server {
        assert unchanged(x);
      }
    }
  }

  /**
   * The retry loop both clients share, over each attempt's reading:
   * executeWithLoadBalancer counts `retries` down from `numRetries` and tries
   * again while it is not negative. Every server's stats end as the attempts
   * on it leave them, and a breaker no counted error reached keeps its state.
   */
  method Execute<T>(numRetries: int, serviceName: string, pick: nat -> ServerStats?, attempt: nat -> Attempt<T>,
                    clock: nat -> int, duration: int, ghost pool: set<ServerStats>, ghost hosts: set<ServerInstance>)
    returns (r: Outcome<T>, ghost n: nat)
    requires forall i :: pick(i) != null ==> pick(i) in pool && pick(i).server in hosts
    modifies pool`sentMessages, pool`openRequests, pool`errorWindow, pool`errorCount, pool`trippedCount, pool`latencies
    modifies hosts`shortCircuited, hosts`shortCircuitExpiration, hosts`shortCircuitCount
    ensures Run(r, n) == RunFrom(numRetries, serviceName, 0, pick, attempt)
    ensures forall s | s in pool :: CountersOf(s) == Replay(old(CountersOf(s)), s, n, pick, attempt, clock)
    ensures forall x | x in hosts && Untripped(x, n, pick, attempt) :: x.BreakerState() == old(x.BreakerState())
  {
    ghost var c0 := map s | s in pool :: CountersOf(s);
    ghost var b0 := map x | x in hosts :: x.BreakerState();
    r, n := Loop(numRetries, serviceName, pick, attempt, clock, duration, pool, hosts, c0, b0);
  }

  /** The do-while loop itself, its stats stated against the snapshots `c0` and `b0` taken before it. */
  method Loop<T>(numRetries: int, serviceName: string, pick: nat -> ServerStats?, attempt: nat -> Attempt<T>,
                 clock: nat -> int, duration: int, ghost pool: set<ServerStats>, ghost hosts: set<ServerInstance>,
                 ghost c0: map<ServerStats, Counters>, ghost b0: map<ServerInstance, Breaker>)
    returns (r: Outcome<T>, ghost n: nat)
    requires forall i :: pick(i) != null ==> pick(i) in pool && pick(i).server in hosts
    requires c0.Keys == pool && b0.Keys == hosts
    requires forall s | s in pool :: CountersOf(s) == c0[s]
    requires forall x | x in hosts :: x.BreakerState() == b0[x]
    modifies pool`sentMessages, pool`openRequests, pool`errorWindow, pool`errorCount, pool`trippedCount, pool`latencies
    modifies hosts`shortCircuited, hosts`shortCircuitExpiration, hosts`shortCircuitCount
    ensures Run(r, n) == RunFrom(numRetries, serviceName, 0, pick, attempt)
    ensures forall s | s in pool :: CountersOf(s) == Replay(c0[s], s, n, pick, attempt, clock)
    ensures forall x | x in hosts && Untripped(x, n, pick, attempt) :: x.BreakerState() == b0[x]
  {
    var retries: int := numRetries;
    var i: nat := 0;
    while true
      invariant i < MaxAttempts(numRetries) && retries == numRetries - i
      invariant RunFrom(numRetries, serviceName, 0, pick, attempt) == RunFrom(numRetries, serviceName, i, pick, attempt)
      invariant forall s | s in pool :: CountersOf(s) == Replay(c0[s], s, i, pick, attempt, clock)
      invariant forall x | x in hosts && Untripped(x, i, pick, attempt) :: x.BreakerState() == b0[x]
      decreases MaxAttempts(numRetries) - i
    {
      RunEnds(numRetries, serviceName, i, pick, attempt);
      var server := pick(i);
      if server == null {
        r, n := NoServerAvailable(serviceName), i;
        return;
      }
      AttemptStep(i, pick, attempt, clock, duration, pool, hosts, c0, b0);
      match attempt(i).verdict {
        case Deliver(v) =>
          r, n := Value(v), i + 1;
          return;
        case PassOn(status) =>
          r, n := Passed(status), i + 1;
          return;
        case Retry =>
      }
      retries := retries - 1;
      if retries < 0 {
        break;
      }
      RetryMoves(numRetries, serviceName, i, pick, attempt);
      i := i + 1;
    }
    r, n := RetriesExceeded(serviceName, numRetries), i + 1;
  }

  /** DefaultRestTemplateClient: a retry budget checked to be non-negative, and the coordinator's service name. */
  class RestTemplateClient {
    const serviceName: string
    const numRetries: int

    constructor (serviceName: string, numRetries: int)
      requires numRetries >= 0
      ensures this.serviceName == serviceName && this.numRetries == numRetries
    {
      this.serviceName := serviceName;
      this.numRetries := numRetries;
    }

    /**
     * executeWithLoadBalancer: attempt after attempt, call `path` on the
     * server the coordinator picks, until a value or a client error comes
     * back, the coordinator has no server, or the retries run out.
     */
    method ExecuteWithLoadBalancer<T>(path: string, pick: nat -> ServerStats?, calls: (nat, string) -> TemplateCall<T>,
                                      clock: nat -> int, duration: int, ghost pool: set<ServerStats>,
                                      ghost hosts: set<ServerInstance>)
      returns (r: Outcome<T>, ghost n: nat)
      requires forall i :: pick(i) != null ==> pick(i) in pool && pick(i).server in hosts
      modifies pool`sentMessages, pool`openRequests, pool`errorWindow, pool`errorCount, pool`trippedCount, pool`latencies
      modifies hosts`shortCircuited, hosts`shortCircuitExpiration, hosts`shortCircuitCount
      ensures Run(r, n) == RunFrom(numRetries, serviceName, 0, pick, TemplateAttempts(path, pick, calls))
      ensures forall s | s in pool ::
                CountersOf(s) == Replay(old(CountersOf(s)), s, n, pick, TemplateAttempts(path, pick, calls), clock)
      ensures forall x | x in hosts && Untripped(x, n, pick, TemplateAttempts(path, pick, calls)) ::
                x.BreakerState() == old(x.BreakerState())
    {
      r, n := Execute(numRetries, serviceName, pick, TemplateAttempts(path, pick, calls), clock, duration, pool, hosts);
    }
  }

  /** DefaultRestHttpClient: its check of the retry budget is a Java assert, off unless assertions are enabled. */
  class RestHttpClient {
    const serviceName: string
    const numRetries: int

    constructor (serviceName: string, numRetries: int)
      ensures this.serviceName == serviceName && this.numRetries == numRetries
    {
      this.serviceName := serviceName;
      this.numRetries := numRetries;
    }

    /**
     * executeWithLoadBalancer: attempt after attempt, call `path` on the
     * server the coordinator picks, until a response below 500 comes back,
     * the coordinator has no server, or the retries run out.
     */
    method ExecuteWithLoadBalancer<T>(path: string, pick: nat -> ServerStats?, calls: (nat, string) -> HttpCall<T>,
                                      clock: nat -> int, duration: int, ghost pool: set<ServerStats>,
                                      ghost hosts: set<ServerInstance>)
      returns (r: Outcome<Response<T>>, ghost n: nat)
      requires forall i :: pick(i) != null ==> pick(i) in pool && pick(i).server in hosts
      modifies pool`sentMessages, pool`openRequests, pool`errorWindow, pool`errorCount, pool`trippedCount, pool`latencies
      modifies hosts`shortCircuited, hosts`shortCircuitExpiration, hosts`shortCircuitCount
      ensures Run(r, n) == RunFrom(numRetries, serviceName, 0, pick, HttpAttempts(path, pick, calls))
      ensures forall s | s in pool ::
                CountersOf(s) == Replay(old(CountersOf(s)), s, n, pick, HttpAttempts(path, pick, calls), clock)
      ensures forall x | x in hosts && Untripped(x, n, pick, HttpAttempts(path, pick, calls)) ::
                x.BreakerState() == old(x.BreakerState())
    {
      r, n := Execute(numRetries, serviceName, pick, HttpAttempts(path, pick, calls), clock, duration, pool, hosts);
    }
  }
}
