/**
 * The statistics kept for one server instance: open requests and sessions,
 * message and error counts, recent latencies, and the one-second error window
 * that trips the instance's circuit breaker.
 */
module Stats {
  import opened Endpoints
  import opened Instances
  import opened CircuitBreaker

  /** The span of the errors-per-second reservoir, in milliseconds. */
  const ErrorWindowMillis: int := 1000

  /** janus.errorThresholdPerSec when it is not configured. */
  const DefaultErrorThreshold: int := 5

  /** The latency histogram keeps this many of the latest samples. */
  const LatencySamples: nat := 100

  /** The error times still inside the window at `now`, in their order. */
  function RecentErrors(window: seq<int>, now: int): (r: seq<int>)
    ensures |r| <= |window|
    ensures forall t | t in r :: t in window && now - t <= ErrorWindowMillis
    ensures forall t | t in window && now - t <= ErrorWindowMillis :: t in r
    ensures (forall t | t in window :: now - t <= ErrorWindowMillis) ==> r == window
    ensures (forall t | t in window :: now - t > ErrorWindowMillis) ==> r == []
    decreases |window|
  {
    if window == [] then []
    else
      var rest := RecentErrors(window[1..], now);
      assert forall t | t in window[1..] :: t in window;
      assert window[0] in window;
      if now - window[0] <= ErrorWindowMillis then [window[0]] + rest else rest
  }

  /**
   * The window after one more error at `now`: errors older than a second are
   * dropped and the new one is added.
   */
  function RecordError(window: seq<int>, now: int): seq<int>
  {
    RecentErrors(window, now) + [now]
  }

  /** incrementErrors trips the breaker when the window holds at least the threshold. */
  predicate Trips(window: seq<int>, threshold: int)
  {
    |window| >= threshold
  }

  /** The latest samples a SlidingWindowReservoir of the given size retains. */
  function LastSamples(samples: seq<int>, size: nat): (r: seq<int>)
    ensures |r| <= size && |r| <= |samples|
    ensures r == samples[|samples| - |r|..]
    ensures |samples| <= size ==> r == samples
  {
    if |samples| <= size then samples else samples[|samples| - size..]
  }

  /**
   * With a threshold of three and a window free of recent errors, three
   * errors within one second trip the breaker on the third and not before.
   */
  lemma ThirdErrorTrips(w: seq<int>, t1: int, t2: int, t3: int)
    requires forall t | t in w :: t1 - t > ErrorWindowMillis
    requires t1 <= t2 <= t3 <= t1 + ErrorWindowMillis
    ensures var w1 := RecordError(w, t1);
            var w2 := RecordError(w1, t2);
            var w3 := RecordError(w2, t3);
            !Trips(w1, 3) && !Trips(w2, 3) && Trips(w3, 3)
  {
    assert RecentErrors(w, t1) == [];
    var w1 := RecordError(w, t1);
    assert w1 == [t1];
    var w2 := RecordError(w1, t2);
    assert RecentErrors(w1, t2) == w1;
    assert w2 == [t1, t2];
    assert RecentErrors(w2, t3) == w2;
  }

  /**
   * There is no latch: once an error trips the breaker, every further error
   * that arrives while those errors are still inside the window trips it again.
   */
  lemma KeepsTripping(w: seq<int>, t: int, later: int, threshold: int)
    requires Trips(RecordError(w, t), threshold)
    requires forall e | e in RecordError(w, t) :: later - e <= ErrorWindowMillis
    ensures Trips(RecordError(RecordError(w, t), later), threshold)
    ensures |RecordError(RecordError(w, t), later)| == |RecordError(w, t)| + 1
  {
  }

  class ServerStats {
    const server: ServerInstance
    const errorThreshold: int

    var openRequests: int
    var openSessions: int
    /** The times of the errors in the errors-per-second reservoir. */
    var errorWindow: seq<int>
    /** The error meter's and the short-circuit-tripped counter's counts. */
    var errorCount: nat
    var trippedCount: nat
    var sentMessages: nat
    var receivedMessages: nat
    /** The sent-message meter's one-minute rate, as the metrics library maintains it. */
    var sentMessagesPerSecond: real
    var latencies: seq<int>

    /** Every counter at zero, as the stats factory builds them. */
    ghost predicate Zeroed()
      reads this
    {
      && openRequests == 0 && openSessions == 0 && errorWindow == [] && errorCount == 0
      && trippedCount == 0 && sentMessages == 0 && receivedMessages == 0
      && sentMessagesPerSecond == 0.0 && latencies == []
    }

    /** What the stats factory builds for a server: every counter at zero. */
    constructor (server: ServerInstance, errorThreshold: int)
      ensures this.server == server && this.errorThreshold == errorThreshold
      ensures openRequests == 0 && openSessions == 0 && errorWindow == [] && errorCount == 0
      ensures trippedCount == 0 && sentMessages == 0 && receivedMessages == 0
      ensures sentMessagesPerSecond == 0.0 && latencies == []
    {
      this.server := server;
      this.errorThreshold := errorThreshold;
      openRequests := 0;
      openSessions := 0;
      errorWindow := [];
      errorCount := 0;
      trippedCount := 0;
      sentMessages := 0;
      receivedMessages := 0;
      sentMessagesPerSecond := 0.0;
      latencies := [];
    }

    method IncrementOpenRequests()
      modifies this`openRequests
      ensures openRequests == old(openRequests) + 1
    {
      openRequests := openRequests + 1;
    }

    method DecrementOpenRequests()
      modifies this`openRequests
      ensures openRequests == old(openRequests) - 1
    {
      openRequests := openRequests - 1;
    }

    method IncrementOpenSessions()
      modifies this`openSessions
      ensures openSessions == old(openSessions) + 1
    {
      openSessions := openSessions + 1;
    }

    method DecrementOpenSessions()
      modifies this`openSessions
      ensures openSessions == old(openSessions) - 1
    {
      openSessions := openSessions - 1;
    }

    method IncrementSentMessages()
      modifies this`sentMessages
      ensures sentMessages == old(sentMessages) + 1
    {
      sentMessages := sentMessages + 1;
    }

    method IncrementReceivedMessages()
      modifies this`receivedMessages
      ensures receivedMessages == old(receivedMessages) + 1
    {
      receivedMessages := receivedMessages + 1;
    }

    /** recordLatency: the histogram keeps the latest 100 samples. */
    method RecordLatency(latencyInMs: int)
      modifies this`latencies
      ensures latencies == LastSamples(old(latencies) + [latencyInMs], LatencySamples)
      ensures |latencies| > 0 && latencies[|latencies| - 1] == latencyInMs
    {
      latencies := LastSamples(latencies + [latencyInMs], LatencySamples);
    }

    /**
     * incrementErrors: count the error, add it to the one-second window and,
     * when the window holds at least the threshold, count a trip and trip the
     * server's breaker (with the configured short-circuit duration).
     */
    method IncrementErrors(now: int, duration: int)
      modifies this`errorWindow, this`errorCount, this`trippedCount
      modifies server`shortCircuited, server`shortCircuitExpiration, server`shortCircuitCount
      ensures errorWindow == RecordError(old(errorWindow), now)
      ensures errorCount == old(errorCount) + 1
      ensures Trips(errorWindow, errorThreshold) ==>
                trippedCount == old(trippedCount) + 1 &&
                server.BreakerState() == Trip(old(server.BreakerState()), now, duration)
      ensures !Trips(errorWindow, errorThreshold) ==>
                trippedCount == old(trippedCount) && server.BreakerState() == old(server.BreakerState())
    {
      errorCount := errorCount + 1;
      errorWindow := RecordError(errorWindow, now);
      if |errorWindow| >= errorThreshold {
        trippedCount := trippedCount + 1;
        server.TripCircuitBreaker(now, duration);
      }
    }

    /** equals: stats are equal when their server instances are. */
    predicate SameAs(other: ServerStats)
    {
      SameInstance(server, other.server)
    }

    /** hashCode: the server instance's hash. */
    function HashCode(): int
    {
      InstanceHash(server.ep)
    }
  }

  /** Stats equality agrees with their hash codes. */
  lemma SameStatsSameHash(a: ServerStats, b: ServerStats)
    requires a.SameAs(b)
    ensures b.SameAs(a) && a.HashCode() == b.HashCode()
  {
  }
}
