/**
 * A server instance of a cluster: its immutable endpoint, the availability
 * reported by its source, the availability last announced to its listener,
 * and its circuit breaker. Instances that come from service discovery also
 * carry the registry's descriptor and go stale when no update arrives in time.
 */
module Instances {
  import opened Wrappers
  import opened Endpoints
  import opened CircuitBreaker

  datatype Status = Up | Down | Starting | OutOfService | Unknown

  /**
   * What the registry reports about one registered instance: its id, its
   * addresses, its port, its status, its metadata map (absent when the
   * registry gives none), the time of its last registry update and, for
   * instances running in a cloud zone, that availability zone.
   */
  datatype Descriptor = Descriptor(
    instanceId: string,
    ipAddress: string,
    hostname: string,
    port: int,
    status: Status,
    metadata: Option<map<string, string>>,
    lastUpdatedTimestamp: int,
    availabilityZone: Option<string>)

  /** Plain instances never go stale; discovery-backed ones do after `timeout` ms without an update. */
  datatype Expiry = Never | AfterTimeout(timeout: int)

  /** janus.InstanceTimeOutInMillis defaults of the two discovery-backed instance kinds. */
  const CoreInstanceTimeout: int := 65000
  const JanusCoreInstanceTimeout: int := 125000

  /** The Java class of an instance: the plain one or one of the two Eureka-backed subclasses. */
  datatype InstanceClass = PlainInstance | CoreEurekaInstance | JanusCoreEurekaInstance

  class ServerInstance {
    const ep: Endpoint
    const kind: InstanceClass
    const expiry: Expiry
    const info: Option<Descriptor>

    var available: bool
    var lastAvailable: bool
    /** Whether a listener is registered, and the availability changes delivered to it, oldest first. */
    var listening: bool
    var notifications: seq<bool>

    var shortCircuited: bool
    var shortCircuitExpiration: int
    var shortCircuitCount: nat

    /** When a discovery-backed instance was last created or updated. */
    var lastUpdateTime: int

    /** A new instance is unavailable until its source says otherwise, and its breaker is reset. */
    constructor (ep: Endpoint, kind: InstanceClass, expiry: Expiry, info: Option<Descriptor>, now: int)
      ensures this.ep == ep && this.kind == kind && this.expiry == expiry && this.info == info
      ensures !available && !lastAvailable && !listening && notifications == []
      ensures BreakerState() == Initial
      ensures lastUpdateTime == now
    {
      this.ep := ep;
      this.kind := kind;
      this.expiry := expiry;
      this.info := info;
      available := false;
      lastAvailable := false;
      listening := false;
      notifications := [];
      shortCircuited := false;
      shortCircuitExpiration := 0;
      shortCircuitCount := 0;
      lastUpdateTime := now;
    }

    function BreakerState(): Breaker
      reads this
    {
      Breaker(shortCircuited, shortCircuitExpiration, shortCircuitCount)
    }

    /** isExpired: never for plain instances; after the timeout without an update for discovery-backed ones. */
    predicate IsExpired(now: int)
      reads this
    {
      match expiry
      case Never => false
      case AfterTimeout(timeout) => lastUpdateTime + timeout < now
    }

    predicate ShortCircuitedAt(now: int)
      reads this
    {
      OpenAt(BreakerState(), now)
    }

    /** What isAvailable answers at `now`: not stale, not short-circuited, and reported available. */
    predicate AvailableAt(now: int)
      reads this
    {
      !IsExpired(now) && !ShortCircuitedAt(now) && available
    }

    /** isShortCircuited: answers whether the breaker holds, clearing the flag once it has expired. */
    method IsShortCircuited(now: int) returns (r: bool)
      modifies this`shortCircuited
      ensures r == old(ShortCircuitedAt(now))
      ensures BreakerState() == Observe(old(BreakerState()), now)
    {
      if shortCircuited {
        var delta := now - shortCircuitExpiration;
        if delta >= 0 {
          shortCircuited := false;
        }
      }
      r := shortCircuited;
    }

    /**
     * isAvailable. The breaker is consulted (and possibly cleared) only when
     * the instance is not stale, as Java's && evaluates left to right.
     */
    method IsAvailable(now: int) returns (r: bool)
      modifies this`shortCircuited
      ensures r == old(AvailableAt(now))
      ensures BreakerState() == if old(IsExpired(now)) then old(BreakerState()) else Observe(old(BreakerState()), now)
      ensures AvailableAt(now) == r
    {
      if IsExpired(now) {
        r := false;
      } else {
        var sc := IsShortCircuited(now);
        r := !sc && available;
      }
    }

    /** setAvailable; a discovery-backed instance also counts this as an update that keeps it from going stale. */
    method SetAvailable(b: bool, now: int)
      modifies this`available, this`lastUpdateTime
      ensures available == b
      ensures lastUpdateTime == if expiry.AfterTimeout? then now else old(lastUpdateTime)
    {
      if expiry.AfterTimeout? {
        lastUpdateTime := now;
      }
      available := b;
    }

    /** tripCircuitBreaker, with the configured short-circuit duration passed in. */
    method TripCircuitBreaker(now: int, duration: int)
      modifies this`shortCircuited, this`shortCircuitExpiration, this`shortCircuitCount
      ensures BreakerState() == Trip(old(BreakerState()), now, duration)
    {
      if now - shortCircuitExpiration > duration {
        shortCircuitCount := 0;
      } else {
        shortCircuitCount := JavaLang.Max(shortCircuitCount + 1, MinRepeatCount);
      }
      var timeout := BackoffTimeout(shortCircuitCount, duration);
      shortCircuitExpiration := now + timeout;
      shortCircuited := true;
    }

    /** getCircuitBreakerRemainingTime. */
    method GetCircuitBreakerRemainingTime(now: int) returns (r: real)
      modifies this`shortCircuited
      ensures r == RemainingTime(old(BreakerState()), now)
      ensures r > 0.0 <==> old(ShortCircuitedAt(now))
      ensures BreakerState() == Observe(old(BreakerState()), now)
    {
      RemainingTimeWhileOpen(BreakerState(), now);
      var sc := IsShortCircuited(now);
      r := 0.0;
      if sc {
        var delta := shortCircuitExpiration - now;
        if delta > 0 {
          r := delta as real * 1000.0;
        }
      }
    }

    /**
     * tick: announce a change of availability to the listener (when there is
     * one) and answer whether the instance should be kept, i.e. is not stale.
     */
    method Tick(now: int) returns (keep: bool)
      modifies this`shortCircuited, this`lastAvailable, this`notifications
      ensures keep == !IsExpired(now)
      ensures lastAvailable == old(AvailableAt(now)) && AvailableAt(now) == old(AvailableAt(now))
      ensures notifications == old(notifications) +
                (if listening && old(AvailableAt(now)) != old(lastAvailable) then [old(AvailableAt(now))] else [])
      ensures BreakerState() == if old(IsExpired(now)) then old(BreakerState()) else Observe(old(BreakerState()), now)
    {
      var current := IsAvailable(now);
      if current != lastAvailable {
        lastAvailable := current;
        if listening {
          notifications := notifications + [current];
        }
      }
      keep := !IsExpired(now);
    }

    /** setListener: register (true) or remove (false) the availability listener. */
    method SetListener(on: bool)
      modifies this`listening
      ensures listening == on
    {
      listening := on;
    }
  }

  /**
   * equals: two instances are equal when they are of the same class and
   * their ids and service names agree.
   */
  predicate SameInstance(a: ServerInstance, b: ServerInstance)
  {
    a.kind == b.kind && a.ep.id == b.ep.id && a.ep.serviceName == b.ep.serviceName
  }

  /** equals is an equivalence, agrees with hashCode, and tells instances of different classes apart. */
  lemma SameInstanceConsistent(a: ServerInstance, b: ServerInstance, c: ServerInstance)
    ensures SameInstance(a, a)
    ensures SameInstance(a, b) ==> SameInstance(b, a) && InstanceHash(a.ep) == InstanceHash(b.ep)
    ensures SameInstance(a, b) && SameInstance(b, c) ==> SameInstance(a, c)
    ensures a.kind != b.kind ==> !SameInstance(a, b)
  {
  }
}
