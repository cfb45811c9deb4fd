/**
 * The coordinator of one service cluster: a cache from instance id to stats,
 * refreshed from an instance source at most once per refresh interval, and
 * the strategy that picks a server from the cached stats.
 *
 * A refresh reconciles the cache with the listed instances (a known id gets
 * the listed availability, an unknown id gets new stats) and then evicts
 * every entry whose instance has gone stale. The stats factory, the source and
 * the clock are inputs.
 */
module Coordinator {
  import opened Wrappers
  import opened Endpoints
  import opened Instances
  import opened Stats
  import opened Balancing
  import CircuitBreaker
  import RandomBalancer
  import SeededRandomBalancer
  import SessionBalancer
  import ZoneAware

  /** janus.refreshIntervalInMillis when it is not set. */
  const DefaultRefreshInterval: int := 30000

  /** The load balancer the coordinator delegates to. */
  datatype Strategy =
    | UniformRandom
    | SeededRandom
    | LeastSessions(sessions: SessionBalancer.SessionLoadBalancer)
    | ZoneAwareBalancing(zones: ZoneAware.ZoneAwareLoadBalancer)

  // ---------------------------------------------------------------------
  // Reference model of the reconciliation loop, on values.
  //
  // `owners` maps each cached id to the instance its stats wrap, `flags`
  // holds the `available` flag of every instance involved, `touched` the
  // instances whose availability was set, and `aborted` whether the stats
  // factory failed. Instances are compared by identity, so a source that
  // lists the very objects the cache holds is modelled exactly.
  // ---------------------------------------------------------------------

  datatype Sync = Sync(
    owners: map<string, ServerInstance>,
    flags: map<ServerInstance, bool>,
    touched: set<ServerInstance>,
    aborted: bool)

  function FlagOf(flags: map<ServerInstance, bool>, x: ServerInstance): bool
  {
    if x in flags then flags[x] else false
  }

  /**
   * One listed instance: a cached id takes the listed instance's flag into
   * its own instance; an unseen id gets stats wrapping the listed instance;
   * a failing factory throws, which ends the refresh.
   */
  function SyncStep(st: Sync, x: ServerInstance, factoryWorks: bool): Sync
  {
    if st.aborted then st
    else if x.ep.id in st.owners then
      var o := st.owners[x.ep.id];
      st.(flags := st.flags[o := FlagOf(st.flags, x)], touched := st.touched + {o})
    else if factoryWorks then st.(owners := st.owners[x.ep.id := x])
    else st.(aborted := true)
  }

  /** The first n listed instances, in order. */
  function SyncAll(st: Sync, listed: seq<ServerInstance>, factoryWorks: bool, n: nat): Sync
    requires n <= |listed|
  {
    if n == 0 then st else SyncStep(SyncAll(st, listed, factoryWorks, n - 1), listed[n - 1], factoryWorks)
  }

  /** The states of the reference model after each prefix of the listed instances. */
  function SyncTrace(st: Sync, listed: seq<ServerInstance>, factoryWorks: bool): (t: seq<Sync>)
    ensures |t| == |listed| + 1
    ensures forall n | 0 <= n <= |listed| :: t[n] == SyncAll(st, listed, factoryWorks, n)
  {
    seq(|listed| + 1, n requires 0 <= n <= |listed| => SyncAll(st, listed, factoryWorks, n))
  }

  /** Consecutive states of the trace are one reconciliation step apart. */
  lemma SyncTraceSteps(st: Sync, listed: seq<ServerInstance>, factoryWorks: bool)
    ensures var t := SyncTrace(st, listed, factoryWorks);
            forall i | 0 <= i < |listed| :: t[i + 1] == SyncStep(t[i], listed[i], factoryWorks)
  {
    var t := SyncTrace(st, listed, factoryWorks);
    forall i | 0 <= i < |listed|
      ensures t[i + 1] == SyncStep(t[i], listed[i], factoryWorks)
    {
      assert t[i + 1] == SyncAll(st, listed, factoryWorks, i + 1);
      assert t[i] == SyncAll(st, listed, factoryWorks, i);
    }
  }

  /** Every cached instance is stored under its own id. */
  predicate OwnIds(owners: map<string, ServerInstance>)
  {
    forall k | k in owners :: owners[k].ep.id == k
  }

  /** One step keeps every cached entry, caches the listed id unless it aborts, and adds no other instance. */
  lemma StepFacts(p: Sync, x: ServerInstance, factoryWorks: bool)
    ensures var q := SyncStep(p, x, factoryWorks);
            && (forall k | k in p.owners :: k in q.owners && q.owners[k] == p.owners[k])
            && (!q.aborted ==> !p.aborted && x.ep.id in q.owners)
            && (forall k | k in q.owners :: k in p.owners || q.owners[k] == x)
  {
  }

  /** Reconciliation never replaces or drops a cached entry. */
  lemma {:induction false} SyncKeeps(st: Sync, listed: seq<ServerInstance>, factoryWorks: bool, n: nat)
    requires n <= |listed|
    ensures var r := SyncAll(st, listed, factoryWorks, n);
            forall k | k in st.owners :: k in r.owners && r.owners[k] == st.owners[k]
  {
    if n > 0 {
      SyncKeeps(st, listed, factoryWorks, n - 1);
      StepFacts(SyncAll(st, listed, factoryWorks, n - 1), listed[n - 1], factoryWorks);
    }
  }

  /** A refresh that has not aborted after n instances had not aborted after fewer. */
  lemma {:induction false} SyncNotAborted(st: Sync, listed: seq<ServerInstance>, factoryWorks: bool, m: nat, n: nat)
    requires m <= n <= |listed| && !SyncAll(st, listed, factoryWorks, n).aborted
    ensures !SyncAll(st, listed, factoryWorks, m).aborted
    decreases n
  {
    if m < n {
      StepFacts(SyncAll(st, listed, factoryWorks, n - 1), listed[n - 1], factoryWorks);
      SyncNotAborted(st, listed, factoryWorks, m, n - 1);
    }
  }

  /** A refresh that completes caches every listed id. */
  lemma {:induction false} SyncCachesListed(st: Sync, listed: seq<ServerInstance>, factoryWorks: bool, n: nat)
    requires n <= |listed| && !SyncAll(st, listed, factoryWorks, n).aborted
    ensures var r := SyncAll(st, listed, factoryWorks, n);
            forall i | 0 <= i < n :: listed[i].ep.id in r.owners
  {
    if n > 0 {
      var p := SyncAll(st, listed, factoryWorks, n - 1);
      StepFacts(p, listed[n - 1], factoryWorks);
      SyncCachesListed(st, listed, factoryWorks, n - 1);
    }
  }

  /** An unseen id is cached with the first listed instance that has it. */
  lemma {:induction false} SyncNewOwner(st: Sync, listed: seq<ServerInstance>, factoryWorks: bool, n: nat, i: nat)
    requires i < n <= |listed|
    requires listed[i].ep.id !in st.owners
    requires forall j | 0 <= j < i :: listed[j].ep.id != listed[i].ep.id
    requires SyncAll(st, listed, factoryWorks, n).aborted == false
    ensures listed[i].ep.id in SyncAll(st, listed, factoryWorks, n).owners
    ensures SyncAll(st, listed, factoryWorks, n).owners[listed[i].ep.id] == listed[i]
    decreases n
  {
    var p := SyncAll(st, listed, factoryWorks, n - 1);
    StepFacts(p, listed[n - 1], factoryWorks);
    if i == n - 1 {
      SyncOwnersFrom(st, listed, factoryWorks, n - 1, listed[i].ep.id);
    } else {
      SyncNewOwner(st, listed, factoryWorks, n - 1, i);
    }
  }

  /** An id the cache did not hold is cached only with a listed instance that has it. */
  lemma {:induction false} SyncOwnersFrom(st: Sync, listed: seq<ServerInstance>, factoryWorks: bool, n: nat, id: string)
    requires n <= |listed| && id !in st.owners
    requires forall j | 0 <= j < n :: listed[j].ep.id != id
    ensures id !in SyncAll(st, listed, factoryWorks, n).owners
  {
    if n > 0 {
      SyncOwnersFrom(st, listed, factoryWorks, n - 1, id);
    }
  }

  /** Ids stay the keys of their own instances, so no two entries share an instance. */
  lemma {:induction false} SyncOwnIds(st: Sync, listed: seq<ServerInstance>, factoryWorks: bool, n: nat)
    requires n <= |listed| && OwnIds(st.owners)
    ensures OwnIds(SyncAll(st, listed, factoryWorks, n).owners)
  {
    if n > 0 {
      SyncOwnIds(st, listed, factoryWorks, n - 1);
      StepFacts(SyncAll(st, listed, factoryWorks, n - 1), listed[n - 1], factoryWorks);
    }
  }

  /** The cached and listed instances stay the only instances involved. */
  lemma {:induction false} SyncOwnersWithin(st: Sync, listed: seq<ServerInstance>, factoryWorks: bool, n: nat,
                                            dom: set<ServerInstance>)
    requires n <= |listed|
    requires forall k | k in st.owners :: st.owners[k] in dom
    requires forall i | 0 <= i < |listed| :: listed[i] in dom
    ensures forall k | k in SyncAll(st, listed, factoryWorks, n).owners :: SyncAll(st, listed, factoryWorks, n).owners[k] in dom
  {
    if n > 0 {
      SyncOwnersWithin(st, listed, factoryWorks, n - 1, dom);
      StepFacts(SyncAll(st, listed, factoryWorks, n - 1), listed[n - 1], factoryWorks);
      assert listed[n - 1] in dom;
    }
  }

  /** An instance whose availability is never set keeps its flag. */
  lemma {:induction false} SyncUntouched(st: Sync, listed: seq<ServerInstance>, factoryWorks: bool, n: nat,
                                         x: ServerInstance)
    requires n <= |listed|
    ensures x !in SyncAll(st, listed, factoryWorks, n).touched ==>
              FlagOf(SyncAll(st, listed, factoryWorks, n).flags, x) == FlagOf(st.flags, x)
  {
    if n > 0 {
      SyncUntouched(st, listed, factoryWorks, n - 1, x);
    }
  }

  /** Only the instances cached under the first n listed ids have had their availability set. */
  lemma {:induction false} SyncTouchedIds(st: Sync, listed: seq<ServerInstance>, factoryWorks: bool, n: nat)
    requires n <= |listed| && OwnIds(st.owners)
    ensures forall o | o in SyncAll(st, listed, factoryWorks, n).touched ::
              o in st.touched || exists j | 0 <= j < n :: o.ep.id == listed[j].ep.id
  {
    if n > 0 {
      var p := SyncAll(st, listed, factoryWorks, n - 1);
      SyncTouchedIds(st, listed, factoryWorks, n - 1);
      SyncOwnIds(st, listed, factoryWorks, n - 1);
      forall o | o in SyncAll(st, listed, factoryWorks, n).touched
        ensures o in st.touched || exists j | 0 <= j < n :: o.ep.id == listed[j].ep.id
      {
        if o !in p.touched {
          assert o.ep.id == listed[n - 1].ep.id;
        }
      }
    }
  }

  /**
   * With distinct listed ids and a refresh that completes, the instance
   * cached under each listed id ends with that listed instance's original
   * availability: the cache follows the source.
   */
  lemma {:induction false} SyncFollowsSource(st: Sync, listed: seq<ServerInstance>, factoryWorks: bool, n: nat, i: nat)
    requires i < n <= |listed| && OwnIds(st.owners) && st.touched == {}
    requires forall j, l | 0 <= j < l < |listed| :: listed[j].ep.id != listed[l].ep.id
    requires !SyncAll(st, listed, factoryWorks, n).aborted
    ensures listed[i].ep.id in SyncAll(st, listed, factoryWorks, n).owners
    ensures var r := SyncAll(st, listed, factoryWorks, n);
            FlagOf(r.flags, r.owners[listed[i].ep.id]) == FlagOf(st.flags, listed[i])
    decreases n
  {
    var id := listed[i].ep.id;
    var p := SyncAll(st, listed, factoryWorks, n - 1);
    var x := listed[n - 1];
    StepFacts(p, x, factoryWorks);
    SyncOwnIds(st, listed, factoryWorks, n - 1);
    if i == n - 1 {
      SyncTouchedIds(st, listed, factoryWorks, n - 1);
      assert x !in p.touched;
      SyncUntouched(st, listed, factoryWorks, n - 1, x);
    } else {
      SyncNotAborted(st, listed, factoryWorks, n - 1, n);
      SyncFollowsSource(st, listed, factoryWorks, n - 1, i);
      assert x.ep.id != id;
      if x.ep.id in p.owners {
        assert p.owners[x.ep.id].ep.id == x.ep.id;
        assert p.owners[id].ep.id == id;
      }
    }
  }

  /** An aborted refresh stays aborted: the rest of the listed instances change nothing. */
  lemma {:induction false} SyncAbortedStays(st: Sync, listed: seq<ServerInstance>, factoryWorks: bool, m: nat, n: nat)
    requires m <= n <= |listed| && SyncAll(st, listed, factoryWorks, m).aborted
    ensures SyncAll(st, listed, factoryWorks, n) == SyncAll(st, listed, factoryWorks, m)
    decreases n
  {
    if m < n {
      SyncAbortedStays(st, listed, factoryWorks, m, n - 1);
    }
  }

  /**
   * The update time reconciliation leaves on an instance: the time of the
   * refresh when its availability was set and it is discovery-backed,
   * otherwise the one it had.
   */
  function Stamp(stamps: map<ServerInstance, int>, touched: set<ServerInstance>, x: ServerInstance, now: int): int
  {
    if x in touched && x.expiry.AfterTimeout? then now else if x in stamps then stamps[x] else 0
  }

  /** What tick reads of an instance at `now`. */
  datatype Seen = Seen(availableNow: bool, lastAvailable: bool, listening: bool, notifications: seq<bool>,
                       breaker: CircuitBreaker.Breaker, expired: bool)

  function SeenAt(s: ServerInstance, now: int): Seen
    reads s
  {
    Seen(s.AvailableAt(now), s.lastAvailable, s.listening, s.notifications, s.BreakerState(), s.IsExpired(now))
  }

  /**
   * What tick leaves on an instance it saw as `b`: the availability recorded
   * and, when it changed and a listener is registered, announced; the breaker
   * observed unless the instance is stale.
   */
  predicate TickedFrom(s: ServerInstance, b: Seen, now: int)
    reads s
  {
    && s.lastAvailable == b.availableNow
    && s.notifications == b.notifications + (if b.listening && b.availableNow != b.lastAvailable then [b.availableNow] else [])
    && s.BreakerState() == (if b.expired then b.breaker else CircuitBreaker.Observe(b.breaker, now))
  }

  /** The entries an eviction pass keeps: those still to be ticked, and those ticked that are not stale. */
  function Survivors(pre: map<string, ServerStats>, seen: map<ServerInstance, Seen>, todo: set<string>): map<string, ServerStats>
    requires forall k | k in pre :: pre[k].server in seen
  {
    map k | k in pre && (k in todo || !seen[pre[k].server].expired) :: pre[k]
  }

  /** Ticking one more id removes it exactly when it was stale. */
  lemma SurvivorsStep(pre: map<string, ServerStats>, seen: map<ServerInstance, Seen>, todo: set<string>, k: string)
    requires forall k | k in pre :: pre[k].server in seen
    requires k in todo && todo <= pre.Keys
    ensures Survivors(pre, seen, todo - {k}) ==
              if seen[pre[k].server].expired then Survivors(pre, seen, todo) - {k} else Survivors(pre, seen, todo)
  {
  }

  /** Ticking the entry under `k` ticks its instance and no other entry's. */
  lemma TodoStep(pre: map<string, ServerStats>, keys: set<string>, todo: set<ServerInstance>, k: string)
    requires k in keys && keys <= pre.Keys
    requires forall j, l | j in pre && l in pre && j != l :: pre[j].server != pre[l].server
    requires forall j | j in pre :: (j in keys <==> pre[j].server in todo)
    ensures forall j | j in pre :: (j in keys - {k} <==> pre[j].server in todo - {pre[k].server})
  {
    forall j | j in pre
      ensures j in keys - {k} <==> pre[j].server in todo - {pre[k].server}
    {
      if j != k {
        assert pre[j].server != pre[k].server;
      }
    }
  }

  /** Tick one instance that was seen as `b`. */
  method TickOne(s: ServerInstance, now: int, ghost b: Seen) returns (keep: bool)
    requires SeenAt(s, now) == b
    modifies s`shortCircuited, s`lastAvailable, s`notifications
    ensures TickedFrom(s, b, now) && keep == !b.expired
  {
    keep := s.Tick(now);
  }

  /** What tick did to `s`: the availability recorded and announced, the breaker observed, nothing else. */
  twostate predicate Ticked(s: ServerInstance, now: int)
    reads s
  {
    && TickedFrom(s, old(SeenAt(s, now)), now)
    && s.available == old(s.available)
    && s.listening == old(s.listening)
    && s.lastUpdateTime == old(s.lastUpdateTime)
  }

  /** The instances a source listed. */
  function Members(listed: seq<ServerInstance>): set<ServerInstance>
  {
    set i | 0 <= i < |listed| :: listed[i]
  }

  /** The reference model's starting point: the stats `cache` holds and the flags of the instances in `dom`. */
  ghost function Begin(cache: map<string, ServerStats>, dom: set<ServerInstance>): Sync
    reads dom
  {
    Sync(map k | k in cache :: cache[k].server, map x | x in dom :: x.available, {}, false)
  }

  ghost function StampsOf(dom: set<ServerInstance>): map<ServerInstance, int>
    reads dom
  {
    map x | x in dom :: x.lastUpdateTime
  }

  ghost function Looks(dom: set<ServerInstance>, now: int): (m: map<ServerInstance, Seen>)
    reads dom
    ensures m.Keys == dom
  {
    map x | x in dom :: SeenAt(x, now)
  }

  /** Whether `x` is stale at `now` with the update time reconciliation leaves on it. */
  predicate StaleAfter(x: ServerInstance, st: Sync, stamps0: map<ServerInstance, int>, now: int)
  {
    match x.expiry
    case Never => false
    case AfterTimeout(timeout) => Stamp(stamps0, st.touched, x, now) + timeout < now
  }

  /**
   * How tick sees an instance it would have seen as `b` before
   * reconciliation, once reconciliation has left it with the flag `flag`
   * and the staleness `stale`; reconciliation touches nothing else tick reads.
   */
  function SeenAfterSync(b: Seen, flag: bool, stale: bool, now: int): Seen
  {
    b.(availableNow := !stale && !CircuitBreaker.OpenAt(b.breaker, now) && flag, expired := stale)
  }

  /**
   * An instance whose flag and update time are all reconciliation changed on
   * it is seen by tick as SeenAfterSync describes.
   */
  lemma SeenAfterMirror(x: ServerInstance, b: Seen, flag: bool, stale: bool, now: int)
    requires b.lastAvailable == x.lastAvailable && b.listening == x.listening && b.notifications == x.notifications
    requires b.breaker == x.BreakerState() && x.available == flag && x.IsExpired(now) == stale
    ensures SeenAt(x, now) == SeenAfterSync(b, flag, stale, now)
  {
  }

  // ---------------------------------------------------------------------
  // The availability step of reconciliation for an id already cached.
  // ---------------------------------------------------------------------

  /**
   * Janus.java as written: the cached instance takes what the listed
   * instance's isAvailable() answers, which also folds in the listed
   * instance's breaker and staleness.
   */
  method SyncAsWritten(cached: ServerInstance, listed: ServerInstance, now: int)
    modifies cached`available, cached`lastUpdateTime, listed`shortCircuited
    ensures cached.available == old(listed.AvailableAt(now))
    ensures cached.lastUpdateTime == if cached.expiry.AfterTimeout? then now else old(cached.lastUpdateTime)
  {
    var flag := listed.IsAvailable(now);
    cached.SetAvailable(flag, now);
  }

  /**
   * A source that hands out the cached objects themselves, as the constant
   * and configured lists do, listing an instance that it reports up: one
   * refresh while the breaker is open writes `available := false` into the
   * instance, and the refresh after the breaker has closed copies that back,
   * so the instance never becomes available again although its source still
   * lists it and its breaker is closed.
   */
  method AsWrittenStaysDown(ep: Endpoint, now: int, duration: int) returns (s: ServerInstance, later: int)
    requires duration > 0
    ensures later > now
    ensures !s.ShortCircuitedAt(later) && !s.IsExpired(later)
    ensures !s.available && !s.AvailableAt(later)
  {
    s := new ServerInstance(ep, PlainInstance, Never, None, now);
    s.SetAvailable(true, now);
    CircuitBreaker.TripOpensUntilExpiration(s.BreakerState(), now, duration, now);
    s.TripCircuitBreaker(now, duration);
    SyncAsWritten(s, s, now);
    later := s.shortCircuitExpiration;
    SyncAsWritten(s, s, later);
  }

  /** The intended step: the cached instance takes the listed instance's own `available` flag. */
  method SyncAvailability(cached: ServerInstance, listed: ServerInstance, now: int)
    modifies cached`available, cached`lastUpdateTime
    ensures cached.available == old(listed.available)
    ensures cached.lastUpdateTime == if cached.expiry.AfterTimeout? then now else old(cached.lastUpdateTime)
  {
    var flag := listed.available;
    cached.SetAvailable(flag, now);
  }

  /** The same scenario with the intended step: once the breaker has closed the instance is available again. */
  method CorrectedRecovers(ep: Endpoint, now: int, duration: int) returns (s: ServerInstance, later: int)
    requires duration > 0
    ensures later > now
    ensures !s.ShortCircuitedAt(later) && !s.IsExpired(later)
    ensures s.available && s.AvailableAt(later)
  {
    s := new ServerInstance(ep, PlainInstance, Never, None, now);
    s.SetAvailable(true, now);
    CircuitBreaker.TripOpensUntilExpiration(s.BreakerState(), now, duration, now);
    s.TripCircuitBreaker(now, duration);
    SyncAvailability(s, s, now);
    later := s.shortCircuitExpiration;
    SyncAvailability(s, s, later);
  }

  /** Every instance of `dom` with the flag and the update time reconciliation `st` gives it. */
  ghost predicate FlagsStamped(st: Sync, stamps0: map<ServerInstance, int>, dom: set<ServerInstance>, now: int)
    reads dom
  {
    forall x | x in dom :: x.available == FlagOf(st.flags, x) && x.lastUpdateTime == Stamp(stamps0, st.touched, x, now)
  }

  /**
   * The involved instances after a refresh, for the reference state `st`,
   * the update times `stamps0` and the view `seen0` tick had of each before:
   * the flags and update times of the model, and each instance seen as
   * reconciliation left it, then ticked when it is cached and eviction ran.
   */
  ghost predicate InstancesRefreshed(st: Sync, stamps0: map<ServerInstance, int>, seen0: map<ServerInstance, Seen>, now: int)
    reads seen0.Keys
  {
    && FlagsStamped(st, stamps0, seen0.Keys, now)
    && (forall x | x in seen0 ::
          var b := SeenAfterSync(seen0[x], FlagOf(st.flags, x), StaleAfter(x, st, stamps0, now), now);
          if !st.aborted && x in st.owners.Values then TickedFrom(x, b, now) else SeenAt(x, now) == b)
  }

  /** The values of `m`, one per key, with the keys they were read under, in no particular order. */
  method ValuesOf<K, V>(m: map<K, V>) returns (vs: seq<V>, ghost ks: seq<K>)
    ensures |vs| == |ks| == |m|
    ensures forall i | 0 <= i < |ks| :: ks[i] in m && vs[i] == m[ks[i]]
    ensures forall i, j | 0 <= i < j < |ks| :: ks[i] != ks[j]
    ensures forall k | k in m :: k in ks
  {
    var keys := m.Keys;
    ghost var done: set<K> := {};
    vs, ks := [], [];
    while keys != {}
      invariant keys !! done && keys + done == m.Keys
      invariant |vs| == |ks| == |done|
      invariant forall i | 0 <= i < |ks| :: ks[i] in done && vs[i] == m[ks[i]]
      invariant forall k | k in done :: k in ks
      invariant forall i, j | 0 <= i < j < |ks| :: ks[i] != ks[j]
      decreases keys
    {
      var k :| k in keys;
      vs, ks := vs + [m[k]], ks + [k];
      keys, done := keys - {k}, done + {k};
    }
    assert done == m.Keys;
  }

  /** Janus: the coordinator of one service cluster. */
  class Janus {
    const serviceName: string
    const strategy: Strategy
    /** Whether the stats factory can build stats; it works by reflection and may throw. */
    const factoryWorks: bool
    /** The error threshold of the stats the factory builds. */
    const errorThreshold: int

    /** janus.refreshIntervalInMillis. */
    var refreshInterval: int
    /** The cache of stats, by instance id. */
    var servers: map<string, ServerStats>
    /** The refresh gate: set while a refresh runs. */
    var updatingServer: bool
    var nextUpdateTime: int

    /** Every cached stats object is stored under its instance's id. */
    ghost predicate Valid()
      reads this`servers
    {
      forall k | k in servers :: servers[k].server.ep.id == k
    }

    function Cached(): set<ServerInstance>
      reads this`servers
    {
      set k | k in servers :: servers[k].server
    }

    /** The instances a refresh over `listed` may touch: the cached ones and the listed ones. */
    function Involved(listed: seq<ServerInstance>): set<ServerInstance>
      reads this`servers
    {
      Cached() + Members(listed)
    }

    function Touchable(fetched: Option<seq<ServerInstance>>): set<ServerInstance>
      reads this`servers
    {
      if fetched.Some? then Involved(fetched.value) else Cached()
    }

    /** The objects the strategy keeps its own state in: none of them the coordinator, an instance or its stats. */
    function StrategyState(): (r: set<object>)
      ensures this !in r
      ensures forall x: ServerInstance :: x !in r
      ensures forall s: ServerStats :: s !in r
    {
      match strategy
      case LeastSessions(b) => {b}
      case ZoneAwareBalancing(z) => {z}
      case _ => {}
    }

    /** The reference model's starting point: the cache as it is and the flags of the instances involved. */
    ghost function Start(listed: seq<ServerInstance>): Sync
      reads this`servers, Involved(listed)
    {
      Begin(servers, Involved(listed))
    }

    /** Stats as the factory builds them for `server`: every counter at zero. */
    ghost predicate NewStats(s: ServerStats, server: ServerInstance)
      reads s
    {
      s.server == server && s.errorThreshold == errorThreshold && s.Zeroed()
    }

    /**
     * The heap agrees with a state of the reference model: the same ids, each
     * wrapping the model's instance, the stats cached before kept as they
     * were, and the flags and update times of the involved instances.
     */
    ghost predicate Mirrors(st: Sync, dom: set<ServerInstance>, cache0: map<string, ServerStats>,
                            stamps0: map<ServerInstance, int>, now: int)
      reads this`servers, dom
    {
      && servers.Keys == st.owners.Keys
      && (forall k | k in servers :: servers[k].server == st.owners[k] && servers[k].server in dom)
      && (forall k | k in cache0 :: k in servers && servers[k] == cache0[k])
      && (forall x | x in dom :: x.available == FlagOf(st.flags, x))
      && (forall x | x in dom :: x.lastUpdateTime == Stamp(stamps0, st.touched, x, now))
    }

    /** The stats cached under the ids `cache0` did not hold are as the factory built them. */
    ghost predicate Built(cache0: map<string, ServerStats>)
      reads this`servers, servers.Values
    {
      forall k | k in servers && k !in cache0 :: NewStats(servers[k], servers[k].server)
    }

    /**
     * One listed instance: a cached id has its instance's availability set
     * from the listed instance's own flag; an unseen id gets new stats; a
     * failing factory throws.
     */
    method SyncOne(x: ServerInstance, now: int, ghost st: Sync, ghost dom: set<ServerInstance>,
                   ghost cache0: map<string, ServerStats>, ghost stamps0: map<ServerInstance, int>)
      returns (ok: bool, ghost added: ServerStats?)
      requires x in dom && !st.aborted && Mirrors(st, dom, cache0, stamps0, now) && Built(cache0)
      modifies this`servers, dom`available, dom`lastUpdateTime
      ensures Built(cache0)
      ensures ok == !SyncStep(st, x, factoryWorks).aborted
      ensures Mirrors(SyncStep(st, x, factoryWorks), dom, cache0, stamps0, now)
      ensures added == null ==> servers == old(servers)
      ensures added != null ==> fresh(added) && NewStats(added, x) && servers == old(servers)[x.ep.id := added]
    {
      var id := x.ep.id;
      added := null;
      if id in servers {
        SyncCached(x, now, st, dom, cache0, stamps0);
        ok := true;
      } else if factoryWorks {
        added := SyncNew(x, now, st, dom, cache0, stamps0);
        ok := true;
      } else {
        ok := false;
      }
    }

    /** A listed instance whose id is not cached: the factory builds stats for it, cached under its id. */
    method SyncNew(x: ServerInstance, now: int, ghost st: Sync, ghost dom: set<ServerInstance>,
                   ghost cache0: map<string, ServerStats>, ghost stamps0: map<ServerInstance, int>)
      returns (stat: ServerStats)
      requires x in dom && !st.aborted && Mirrors(st, dom, cache0, stamps0, now) && Built(cache0)
      requires x.ep.id !in servers && factoryWorks
      modifies this`servers
      ensures fresh(stat) && NewStats(stat, x) && servers == old(servers)[x.ep.id := stat]
      ensures Mirrors(SyncStep(st, x, factoryWorks), dom, cache0, stamps0, now) && Built(cache0)
    {
      stat := new ServerStats(x, errorThreshold);
      servers := servers[x.ep.id := stat];
    }

    /** A listed instance whose id is cached: the cached instance takes the listed instance's own flag. */
    method SyncCached(x: ServerInstance, now: int, ghost st: Sync, ghost dom: set<ServerInstance>,
                      ghost cache0: map<string, ServerStats>, ghost stamps0: map<ServerInstance, int>)
      requires x in dom && !st.aborted && Mirrors(st, dom, cache0, stamps0, now) && x.ep.id in servers
      modifies dom`available, dom`lastUpdateTime
      ensures Mirrors(SyncStep(st, x, factoryWorks), dom, cache0, stamps0, now)
    {
      SyncAvailability(servers[x.ep.id].server, x, now);
    }

    /**
     * The reconciliation loop over the listed instances, in order; a failing
     * factory ends it part-way, with what was done so far kept.
     */
    method Reconcile(listed: seq<ServerInstance>, now: int) returns (completed: bool)
      requires Valid()
      modifies this`servers, Involved(listed)`available, Involved(listed)`lastUpdateTime
      ensures var st := SyncAll(old(Start(listed)), listed, factoryWorks, |listed|);
              && completed == !st.aborted
              && Mirrors(st, old(Involved(listed)), old(servers), old(StampsOf(Involved(listed))), now)
      ensures Built(old(servers))
      ensures var st := SyncAll(old(Start(listed)), listed, factoryWorks, |listed|);
              var stamps0 := old(StampsOf(Involved(listed)));
              forall x | x in old(Involved(listed)) ::
                SeenAt(x, now) == SeenAfterSync(old(SeenAt(x, now)), FlagOf(st.flags, x), StaleAfter(x, st, stamps0, now), now)
      ensures Valid()
    {
      ghost var dom := Involved(listed);
      ghost var st0 := Start(listed);
      ghost var stamps0 := StampsOf(dom);
      StartMirrors(listed, now);
      SyncOwnIds(st0, listed, factoryWorks, |listed|);
      ghost var trace := SyncTrace(st0, listed, factoryWorks);
      SyncTraceSteps(st0, listed, factoryWorks);
      ghost var n;
      completed, n := ReconcileLoop(listed, now, trace, dom, servers, stamps0);
      if n < |listed| {
        SyncAbortedStays(st0, listed, factoryWorks, n, |listed|);
      }
    }

    /** Before the loop the heap agrees with the reference model's start. */
    lemma StartMirrors(listed: seq<ServerInstance>, now: int)
      ensures Mirrors(Start(listed), Involved(listed), servers, StampsOf(Involved(listed)), now)
      ensures OwnIds(Start(listed).owners) <== Valid()
    {
    }

    /**
     * The loop over the listed instances, keeping the heap in step with the
     * reference model's `trace`; it stops after the first `n` instances,
     * at the end or where the factory failed.
     */
    method ReconcileLoop(listed: seq<ServerInstance>, now: int, ghost trace: seq<Sync>, ghost dom: set<ServerInstance>,
                         ghost cache0: map<string, ServerStats>, ghost stamps0: map<ServerInstance, int>)
      returns (completed: bool, ghost n: nat)
      requires |trace| == |listed| + 1 && !trace[0].aborted
      requires forall i | 0 <= i < |listed| :: trace[i + 1] == SyncStep(trace[i], listed[i], factoryWorks)
      requires Mirrors(trace[0], dom, cache0, stamps0, now) && cache0 == servers
      requires forall i | 0 <= i < |listed| :: listed[i] in dom
      modifies this`servers, dom`available, dom`lastUpdateTime
      ensures n <= |listed| && (n == |listed| || trace[n].aborted)
      ensures completed == !trace[n].aborted && Mirrors(trace[n], dom, cache0, stamps0, now)
      ensures Built(cache0)
      ensures forall x | x in dom ::
                SeenAt(x, now) == SeenAfterSync(old(SeenAt(x, now)), FlagOf(trace[n].flags, x), StaleAfter(x, trace[n], stamps0, now), now)
    {
      completed := true;
      var i := 0;
      while i < |listed| && completed
        invariant 0 <= i <= |listed|
        invariant completed == !trace[i].aborted
        invariant Mirrors(trace[i], dom, cache0, stamps0, now)
        invariant Built(cache0)
      {
        ghost var added;
        completed, added := SyncOne(listed[i], now, trace[i], dom, cache0, stamps0);
        i := i + 1;
      }
      n := i;
      forall x | x in dom
        ensures SeenAt(x, now) == SeenAfterSync(old(SeenAt(x, now)), FlagOf(trace[n].flags, x), StaleAfter(x, trace[n], stamps0, now), now)
      {
        SeenAfterMirror(x, old(SeenAt(x, now)), FlagOf(trace[n].flags, x), StaleAfter(x, trace[n], stamps0, now), now);
      }
    }

    /** Entries under different ids wrap different instances. */
    lemma DistinctInstances()
      requires Valid()
      ensures forall j, l | j in servers && l in servers && j != l :: servers[j].server != servers[l].server
    {
    }

    /** The entries whose instance is not stale at `now`. */
    function Live(now: int): (r: map<string, ServerStats>)
      reads this`servers, Cached()
      ensures forall k :: k in r <==> k in servers && !servers[k].server.IsExpired(now)
      ensures forall k | k in r :: r[k] == servers[k]
    {
      map k | k in servers && !servers[k].server.IsExpired(now) :: servers[k]
    }

    /** An eviction pass that has ticked every entry keeps exactly the live ones. */
    lemma LiveSurvives(now: int, seen: map<ServerInstance, Seen>)
      requires seen == Looks(Cached(), now)
      ensures forall k | k in servers :: servers[k].server in seen
      ensures Survivors(servers, seen, {}) == Live(now)
    {
      assert forall k | k in servers :: servers[k].server in Cached();
    }

    /**
     * The eviction pass: every cached instance is ticked once, and exactly
     * the entries whose instance has gone stale are removed.
     */
    method Evict(now: int, ghost dom: set<ServerInstance>)
      requires Valid() && forall k | k in servers :: servers[k].server in dom
      modifies this`servers, dom`shortCircuited, dom`lastAvailable, dom`notifications
      ensures servers == old(Live(now))
      ensures forall k | k in old(servers) :: Ticked(old(servers[k]).server, now)
      ensures Valid()
    {
      ghost var seen := Looks(Cached(), now);
      ghost var pre := servers;
      ghost var live := Live(now);
      DistinctInstances();
      LiveSurvives(now, seen);
      EvictLoop(now, dom, servers, seen);
      forall k | k in pre
        ensures Ticked(pre[k].server, now)
      {
        var x := pre[k].server;
        assert seen[x] == old(SeenAt(x, now));
        assert TickedFrom(x, seen[x], now);
      }
    }

    /**
     * The eviction loop over the cached ids; `seen` records how tick sees
     * each cached instance before the pass.
     */
    method EvictLoop(now: int, ghost dom: set<ServerInstance>, ghost pre: map<string, ServerStats>,
                     ghost seen: map<ServerInstance, Seen>)
      requires servers == pre && seen.Keys <= dom
      requires forall k | k in pre :: pre[k].server in seen
      requires forall j, l | j in pre && l in pre && j != l :: pre[j].server != pre[l].server
      requires forall x | x in seen :: SeenAt(x, now) == seen[x]
      modifies this`servers, dom`shortCircuited, dom`lastAvailable, dom`notifications
      ensures servers == Survivors(pre, seen, {})
      ensures forall k | k in pre :: TickedFrom(pre[k].server, seen[pre[k].server], now)
    {
      var keys := servers.Keys;
      ghost var todo := seen.Keys;
      while keys != {}
        invariant Evicting(now, pre, seen, keys, todo)
        decreases keys
      {
        var k :| k in keys;
        todo := EvictOne(now, dom, pre, seen, keys, todo, k);
        keys := keys - {k};
      }
    }

    /**
     * How far an eviction pass has got: the ids in `keys` and their
     * instances, `todo`, are still to be ticked; the stale ones among the
     * others have been removed and every other instance has been ticked.
     */
    ghost predicate Evicting(now: int, pre: map<string, ServerStats>, seen: map<ServerInstance, Seen>,
                             keys: set<string>, todo: set<ServerInstance>)
      reads this`servers, seen.Keys
    {
      && keys <= pre.Keys && todo <= seen.Keys
      && (forall k | k in pre :: pre[k].server in seen)
      && (forall k | k in pre :: (k in keys <==> pre[k].server in todo))
      && servers == Survivors(pre, seen, keys)
      && (forall x | x in todo :: SeenAt(x, now) == seen[x])
      && (forall x | x in seen && x !in todo :: TickedFrom(x, seen[x], now))
    }

    /** One step of the eviction loop: tick the instance under `k` and remove the entry if it was stale. */
    method EvictOne(now: int, ghost dom: set<ServerInstance>, ghost pre: map<string, ServerStats>,
                    ghost seen: map<ServerInstance, Seen>, keys: set<string>, ghost todo: set<ServerInstance>, k: string)
      returns (ghost todo': set<ServerInstance>)
      requires k in keys && Evicting(now, pre, seen, keys, todo) && seen.Keys <= dom
      requires forall j, l | j in pre && l in pre && j != l :: pre[j].server != pre[l].server
      modifies this`servers, dom`shortCircuited, dom`lastAvailable, dom`notifications
      ensures Evicting(now, pre, seen, keys - {k}, todo')
    {
      var s := servers[k].server;
      var keep := TickOne(s, now, seen[s]);
      SurvivorsStep(pre, seen, keys, k);
      TodoStep(pre, keys, todo, k);
      if !keep {
        servers := servers - {k};
      }
      todo' := todo - {s};
    }

    /**
     * The first constructor: the refresh interval is the property's current
     * value, here its default, and the cache is filled by a first refresh.
     */
    constructor (serviceName: string, strategy: Strategy, factoryWorks: bool, errorThreshold: int,
                 now: int, fetched: Option<seq<ServerInstance>>)
      modifies if fetched.Some? then Members(fetched.value) else {}
      ensures this.serviceName == serviceName && this.strategy == strategy
      ensures this.factoryWorks == factoryWorks && this.errorThreshold == errorThreshold
      ensures refreshInterval == DefaultRefreshInterval && !updatingServer && Valid()
      ensures nextUpdateTime == if -1 <= now then now + DefaultRefreshInterval else -1
      ensures now < -1 || fetched.None? ==> servers == map[]
      ensures -1 <= now && fetched.Some? ==>
                var listed := fetched.value;
                var st := SyncAll(old(Begin(map[], Members(listed))), listed, factoryWorks, |listed|);
                Refreshed(st, map[], old(StampsOf(Members(listed))), old(Looks(Members(listed), now)), now)
    {
      ghost var listed := if fetched.Some? then fetched.value else [];
      ghost var st0 := Begin(map[], Members(listed));
      ghost var stamps0 := StampsOf(Members(listed));
      ghost var seen0 := Looks(Members(listed), now);
      this.serviceName := serviceName;
      this.strategy := strategy;
      this.factoryWorks := factoryWorks;
      this.errorThreshold := errorThreshold;
      refreshInterval := DefaultRefreshInterval;
      servers := map[];
      updatingServer := false;
      nextUpdateTime := -1;
      new;
      FirstRefresh(now, fetched, st0, stamps0, seen0);
    }

    /** The second constructor: the refresh interval is set first, as setRefreshInterval does. */
    constructor WithRefreshInterval(serviceName: string, strategy: Strategy, factoryWorks: bool, errorThreshold: int,
                                    refreshInterval: int, now: int, fetched: Option<seq<ServerInstance>>)
      modifies if fetched.Some? then Members(fetched.value) else {}
      ensures this.serviceName == serviceName && this.strategy == strategy
      ensures this.factoryWorks == factoryWorks && this.errorThreshold == errorThreshold
      ensures this.refreshInterval == refreshInterval && !updatingServer && Valid()
      ensures nextUpdateTime == if -1 <= now then now + refreshInterval else -1
      ensures now < -1 || fetched.None? ==> servers == map[]
      ensures -1 <= now && fetched.Some? ==>
                var listed := fetched.value;
                var st := SyncAll(old(Begin(map[], Members(listed))), listed, factoryWorks, |listed|);
                Refreshed(st, map[], old(StampsOf(Members(listed))), old(Looks(Members(listed), now)), now)
    {
      ghost var listed := if fetched.Some? then fetched.value else [];
      ghost var st0 := Begin(map[], Members(listed));
      ghost var stamps0 := StampsOf(Members(listed));
      ghost var seen0 := Looks(Members(listed), now);
      this.serviceName := serviceName;
      this.strategy := strategy;
      this.factoryWorks := factoryWorks;
      this.errorThreshold := errorThreshold;
      this.refreshInterval := refreshInterval;
      servers := map[];
      updatingServer := false;
      nextUpdateTime := -1;
      new;
      FirstRefresh(now, fetched, st0, stamps0, seen0);
    }

    /** The refresh a constructor runs on the empty cache; `st0`, `stamps0` and `seen0` describe the listed instances. */
    method FirstRefresh(now: int, fetched: Option<seq<ServerInstance>>, ghost st0: Sync,
                        ghost stamps0: map<ServerInstance, int>, ghost seen0: map<ServerInstance, Seen>)
      requires servers == map[] && !updatingServer && nextUpdateTime == -1
      requires var listed := if fetched.Some? then fetched.value else [];
               && st0 == Begin(map[], Members(listed))
               && stamps0 == StampsOf(Members(listed)) && seen0 == Looks(Members(listed), now)
      modifies this`nextUpdateTime, this`servers, this`updatingServer,
               if fetched.Some? then Members(fetched.value) else {}
      ensures !updatingServer && Valid()
      ensures nextUpdateTime == if -1 <= now then now + refreshInterval else -1
      ensures now < -1 || fetched.None? ==> servers == map[]
      ensures -1 <= now && fetched.Some? ==>
                Refreshed(SyncAll(st0, fetched.value, factoryWorks, |fetched.value|), map[], stamps0, seen0, now)
    {
      if fetched.Some? {
        assert Cached() == {};
        assert Involved(fetched.value) == Members(fetched.value);
      }
      UpdateServerList(now, fetched);
    }

    /** setRefreshInterval: the interval the next refreshes wait. */
    method SetRefreshInterval(refreshInterval: int)
      modifies this`refreshInterval
      ensures this.refreshInterval == refreshInterval
    {
      this.refreshInterval := refreshInterval;
    }

    /** Whether updateServerList gets past the gate and the interval at `now`. */
    predicate Due(now: int)
      reads this`updatingServer, this`nextUpdateTime
    {
      !updatingServer && nextUpdateTime <= now
    }

    /**
     * updateServerList: a caller that finds the gate set returns at once; one
     * that takes it returns, releasing it, while the next update time lies
     * ahead; otherwise it moves the next update time one interval past `now`
     * and refreshes from what the source lists. `fetched` is None when the
     * source throws, which is caught, and leaves the cache as it was.
     */
    method UpdateServerList(now: int, fetched: Option<seq<ServerInstance>>)
      requires Valid()
      modifies this`updatingServer, this`nextUpdateTime, this`servers,
               Touchable(fetched)`available, Touchable(fetched)`lastUpdateTime,
               Touchable(fetched)`shortCircuited, Touchable(fetched)`lastAvailable, Touchable(fetched)`notifications
      ensures Valid() && updatingServer == old(updatingServer)
      ensures nextUpdateTime == if old(Due(now)) then now + refreshInterval else old(nextUpdateTime)
      ensures Cached() <= old(Touchable(fetched))
      ensures !old(Due(now)) || fetched.None? ==> servers == old(servers) && unchanged(Touchable(fetched))
      ensures old(Due(now)) && fetched.Some? ==>
                var listed := fetched.value;
                var st := SyncAll(old(Start(listed)), listed, factoryWorks, |listed|);
                Refreshed(st, old(servers), old(StampsOf(Involved(listed))), old(Looks(Involved(listed), now)), now)
    {
      ghost var listed := if fetched.Some? then fetched.value else [];
      ghost var dom := Involved(listed);
      ghost var cache0 := servers;
      ghost var st := SyncAll(Begin(cache0, dom), listed, factoryWorks, |listed|);
      ghost var stamps0 := StampsOf(dom);
      ghost var seen0 := Looks(dom, now);
      if updatingServer {
        return;
      }
      var go := Enter(now, dom);
      if !go {
        return;
      }
      if fetched.Some? {
        var completed := Refresh(fetched.value, now, dom, st, cache0, stamps0, seen0);
        Leave(st, cache0, stamps0, seen0, now);
      } else {
        updatingServer := false;
      }
    }

    /** Take the gate and, when the interval has passed, move the next update time; the gate is released again when it has not. */
    method Enter(now: int, ghost dom: set<ServerInstance>) returns (go: bool)
      requires !updatingServer
      modifies this`updatingServer, this`nextUpdateTime
      ensures go == (old(nextUpdateTime) <= now) && updatingServer == go
      ensures nextUpdateTime == if go then now + refreshInterval else old(nextUpdateTime)
      ensures Begin(servers, dom) == old(Begin(servers, dom)) && StampsOf(dom) == old(StampsOf(dom))
      ensures Looks(dom, now) == old(Looks(dom, now))
    {
      updatingServer := true;
      if nextUpdateTime > now {
        updatingServer := false;
        return false;
      }
      nextUpdateTime := now + refreshInterval;
      go := true;
    }

    /** Release the gate after a refresh. */
    method Leave(ghost st: Sync, ghost cache0: map<string, ServerStats>, ghost stamps0: map<ServerInstance, int>,
                 ghost seen0: map<ServerInstance, Seen>, now: int)
      requires Refreshed(st, cache0, stamps0, seen0, now)
      modifies this`updatingServer
      ensures !updatingServer && Refreshed(st, cache0, stamps0, seen0, now)
    {
      updatingServer := false;
    }

    /** servers.values(): every cached stats object once, in no particular order. */
    method CacheValues() returns (cs: seq<ServerStats>)
      requires Valid()
      ensures |cs| == |servers|
      ensures forall k | k in servers :: servers[k] in cs
      ensures forall i | 0 <= i < |cs| :: cs[i] in servers.Values
      ensures forall i, j | 0 <= i < j < |cs| :: cs[i] != cs[j]
    {
      ghost var ks;
      cs, ks := ValuesOf(servers);
      DistinctInstances();
      forall i, j | 0 <= i < j < |cs|
        ensures cs[i] != cs[j]
      {
        assert servers[ks[i]].server != servers[ks[j]].server;
      }
      forall k | k in servers
        ensures servers[k] in cs
      {
        var i :| 0 <= i < |ks| && ks[i] == k;
        assert cs[i] == servers[k];
      }
    }

    /**
     * loadBalancer.choose on the cached stats. Each strategy gives a server
     * whose instance was available, and no server when none was; only the
     * zone-aware one throws. `draw` and `coin` stand for the random choices.
     */
    method Delegate(cs: seq<ServerStats>, now: int, draw: nat -> nat, coin: nat -> bool) returns (r: Choice)
      requires forall n: nat :: 0 < n ==> draw(n) < n
      modifies StrategyState(), Servers(cs)`shortCircuited
      ensures r.Picked? ==> r.stats in cs && old(r.stats.server.AvailableAt(now))
      ensures (forall j | 0 <= j < |cs| :: !old(cs[j].server.AvailableAt(now))) ==> r.NoServer?
      ensures r.Threw? ==> strategy.ZoneAwareBalancing?
      ensures strategy.UniformRandom? || strategy.SeededRandom? ==>
                var avail := Filter(cs, old(Availability(cs, now)));
                (r.NoServer? <==> avail == []) && (r.Picked? ==> r.stats == avail[draw(|avail|)])
      ensures forall j | 0 <= j < |cs| :: Observed(cs[j].server, now)
    {
      ghost var keep := Availability(cs, now);
      FilterEmpty(cs, keep);
      match strategy {
        case UniformRandom =>
          var s := RandomBalancer.Choose(cs, now, draw);
          r := if s == null then NoServer else Picked(s);
        case SeededRandom =>
          var s := SeededRandomBalancer.Choose(cs, now, draw);
          r := if s == null then NoServer else Picked(s);
        case LeastSessions(b) =>
          var s := b.Choose(cs, now);
          r := if s == null then NoServer else Picked(s);
        case ZoneAwareBalancing(z) =>
          ghost var cache := z.locations;
          ghost var vs := ZoneAware.Views(cs);
          r := z.Choose(cs, now, coin);
          z.OutcomeFacts(cache, cs, vs, keep, coin);
      }
    }

    /**
     * getServer: refresh when due, then let the strategy choose among the
     * cached stats. A server it returns is cached and available.
     */
    method GetServer(now: int, fetched: Option<seq<ServerInstance>>, draw: nat -> nat, coin: nat -> bool)
      returns (r: Choice, ghost st: Sync, ghost stamps0: map<ServerInstance, int>)
      requires Valid() && forall n: nat :: 0 < n ==> draw(n) < n
      modifies this`updatingServer, this`nextUpdateTime, this`servers, StrategyState(),
               Touchable(fetched)`available, Touchable(fetched)`lastUpdateTime,
               Touchable(fetched)`shortCircuited, Touchable(fetched)`lastAvailable, Touchable(fetched)`notifications
      ensures Valid() && updatingServer == old(updatingServer)
      ensures nextUpdateTime == if old(Due(now)) then now + refreshInterval else old(nextUpdateTime)
      ensures r.Picked? ==> r.stats in servers.Values && r.stats.server.AvailableAt(now)
      ensures (forall k | k in servers :: !servers[k].server.AvailableAt(now)) ==> r.NoServer?
      ensures r.Threw? ==> strategy.ZoneAwareBalancing?
      ensures !old(Due(now)) || fetched.None? ==>
                servers == old(servers) &&
                forall x | x in old(Cached()) :: x.available == old(x.available) && x.lastUpdateTime == old(x.lastUpdateTime)
      ensures old(Due(now)) && fetched.Some? ==>
                && st == SyncAll(old(Start(fetched.value)), fetched.value, factoryWorks, |fetched.value|)
                && stamps0 == old(StampsOf(Involved(fetched.value)))
                && CacheRefreshed(st, old(servers), stamps0, now)
                && FlagsStamped(st, stamps0, old(Involved(fetched.value)), now)
    {
      ghost var listed := if fetched.Some? then fetched.value else [];
      ghost var dom := Touchable(fetched);
      ghost var cache0 := servers;
      ghost var due, next0 := Due(now), nextUpdateTime;
      st, stamps0 := SyncAll(Start(listed), listed, factoryWorks, |listed|), StampsOf(Involved(listed));
      RefreshFor(now, fetched, due, next0, listed, dom, st, cache0, stamps0);
      r := ChooseKeeping(now, draw, coin, dom, st, cache0, stamps0);
    }

    /** UpdateServerList, stated on the snapshot taken before it: the cache and the instances it leaves. */
    method RefreshFor(now: int, fetched: Option<seq<ServerInstance>>, ghost due: bool, ghost next0: int, ghost listed: seq<ServerInstance>,
                      ghost dom: set<ServerInstance>, ghost st: Sync, ghost cache0: map<string, ServerStats>,
                      ghost stamps0: map<ServerInstance, int>)
      requires Valid() && listed == (if fetched.Some? then fetched.value else [])
      requires due == Due(now) && next0 == nextUpdateTime && dom == Touchable(fetched) && cache0 == servers
      requires st == SyncAll(Start(listed), listed, factoryWorks, |listed|) && stamps0 == StampsOf(Involved(listed))
      modifies this`updatingServer, this`nextUpdateTime, this`servers,
               dom`available, dom`lastUpdateTime, dom`shortCircuited, dom`lastAvailable, dom`notifications
      ensures Valid() && updatingServer == old(updatingServer)
      ensures refreshInterval == old(refreshInterval) && nextUpdateTime == if due then now + refreshInterval else next0
      ensures Cached() <= dom
      ensures !due || fetched.None? ==>
                servers == cache0 && forall x | x in dom :: x.available == old(x.available) && x.lastUpdateTime == old(x.lastUpdateTime)
      ensures due && fetched.Some? ==> CacheRefreshed(st, cache0, stamps0, now) && FlagsStamped(st, stamps0, dom, now)
    {
      UpdateServerList(now, fetched);
    }

    /** ChooseCached, with what it leaves alone: the instances' flags and update times, and the refreshed cache. */
    method ChooseKeeping(now: int, draw: nat -> nat, coin: nat -> bool, ghost dom: set<ServerInstance>,
                         ghost st: Sync, ghost cache0: map<string, ServerStats>, ghost stamps0: map<ServerInstance, int>)
      returns (r: Choice)
      requires Valid() && forall n: nat :: 0 < n ==> draw(n) < n
      modifies StrategyState(), Cached()`shortCircuited
      ensures Valid() && servers == old(servers)
      ensures updatingServer == old(updatingServer) && nextUpdateTime == old(nextUpdateTime) && refreshInterval == old(refreshInterval)
      ensures forall x | x in dom :: x.available == old(x.available) && x.lastUpdateTime == old(x.lastUpdateTime)
      ensures old(CacheRefreshed(st, cache0, stamps0, now)) ==> CacheRefreshed(st, cache0, stamps0, now)
      ensures old(FlagsStamped(st, stamps0, dom, now)) ==> FlagsStamped(st, stamps0, dom, now)
      ensures r.Picked? ==> r.stats in servers.Values && r.stats.server.AvailableAt(now)
      ensures (forall k | k in servers :: !servers[k].server.AvailableAt(now)) ==> r.NoServer?
      ensures r.Threw? ==> strategy.ZoneAwareBalancing?
    {
      r := ChooseCached(now, draw, coin);
    }

    /** The strategy's choice among the cached stats, stated on the cache as it is then and after. */
    method ChooseCached(now: int, draw: nat -> nat, coin: nat -> bool) returns (r: Choice)
      requires Valid() && forall n: nat :: 0 < n ==> draw(n) < n
      modifies StrategyState(), Cached()`shortCircuited
      ensures r.Picked? ==> r.stats in servers.Values && r.stats.server.AvailableAt(now)
      ensures (forall k | k in servers :: !servers[k].server.AvailableAt(now)) ==> r.NoServer?
      ensures r.Threw? ==> strategy.ZoneAwareBalancing?
    {
      var cs := CacheValues();
      assert Servers(cs) <= Cached();
      ghost var keep := Availability(cs, now);
      r := Delegate(cs, now, draw, coin);
      if r.Picked? {
        assert Observed(r.stats.server, now);
      } else if forall k | k in servers :: !servers[k].server.AvailableAt(now) {
        forall j | 0 <= j < |cs|
          ensures !keep[j]
        {
          assert Observed(cs[j].server, now);
        }
      }
    }

    // -------------------------------------------------------------------
    // One refresh cycle: reconciliation, then eviction when it completed.
    // -------------------------------------------------------------------

    /**
     * The cache a refresh leaves, for the reference state `st` the listing
     * produces from the cache `cache0` and the update times `stamps0`: every
     * id the model caches, except, when reconciliation completed, those whose
     * instance is now stale; the stats cached before unchanged, the others new.
     */
    ghost predicate CacheRefreshed(st: Sync, cache0: map<string, ServerStats>, stamps0: map<ServerInstance, int>, now: int)
      reads this`servers, servers.Values
    {
      && (forall k | k in servers :: k in st.owners && servers[k].server == st.owners[k])
      && (forall k | k in st.owners :: (k in servers <==> st.aborted || !StaleAfter(st.owners[k], st, stamps0, now)))
      && (forall k | k in servers && k in cache0 :: servers[k] == cache0[k])
      && (forall k | k in servers && k !in cache0 :: NewStats(servers[k], servers[k].server))
    }

    /** The whole outcome of a refresh: the cache, and every involved instance. */
    ghost predicate Refreshed(st: Sync, cache0: map<string, ServerStats>, stamps0: map<ServerInstance, int>,
                              seen0: map<ServerInstance, Seen>, now: int)
      reads this`servers, servers.Values, seen0.Keys
    {
      && (forall k | k in servers :: servers[k].server in seen0)
      && CacheRefreshed(st, cache0, stamps0, now)
      && InstancesRefreshed(st, stamps0, seen0, now)
    }

    /**
     * An instance whose listing never expires is never evicted: whatever the
     * source listed, an id cached before a refresh is still cached after it,
     * with the same stats.
     */
    lemma RefreshKeepsPlain(st: Sync, cache0: map<string, ServerStats>, stamps0: map<ServerInstance, int>,
                            seen0: map<ServerInstance, Seen>, now: int, listed: seq<ServerInstance>,
                            dom: set<ServerInstance>, k: string)
      requires st == SyncAll(Begin(cache0, dom), listed, factoryWorks, |listed|)
      requires Refreshed(st, cache0, stamps0, seen0, now)
      requires k in cache0 && cache0[k].server.expiry.Never?
      ensures k in servers && servers[k] == cache0[k]
    {
      SyncKeeps(Begin(cache0, dom), listed, factoryWorks, |listed|);
      assert k in st.owners && st.owners[k] == cache0[k].server;
    }

    /**
     * The body of updateServerList once the gate and the interval let it
     * run: reconcile the cache with `listed` and, unless the stats factory
     * threw, tick every cached instance and evict the stale ones.
     */
    method Refresh(listed: seq<ServerInstance>, now: int, ghost dom: set<ServerInstance>, ghost st: Sync,
                   ghost cache0: map<string, ServerStats>, ghost stamps0: map<ServerInstance, int>,
                   ghost seen0: map<ServerInstance, Seen>)
      returns (completed: bool)
      requires Valid() && dom == Involved(listed) && cache0 == servers
      requires st == SyncAll(Begin(cache0, dom), listed, factoryWorks, |listed|)
      requires stamps0 == StampsOf(dom) && seen0 == Looks(dom, now)
      modifies this`servers, Involved(listed)`available, Involved(listed)`lastUpdateTime,
               Involved(listed)`shortCircuited, Involved(listed)`lastAvailable, Involved(listed)`notifications
      ensures completed == !st.aborted && Refreshed(st, cache0, stamps0, seen0, now)
      ensures Valid()
    {
      completed := Reconcile(listed, now);
      if completed {
        Sweep(now, st, cache0, stamps0, seen0);
      } else {
        AbortedRefreshed(st, cache0, stamps0, seen0, now);
      }
    }

    /** A refresh the stats factory cut short leaves what reconciliation left. */
    lemma AbortedRefreshed(st: Sync, cache0: map<string, ServerStats>, stamps0: map<ServerInstance, int>,
                           seen0: map<ServerInstance, Seen>, now: int)
      requires st.aborted && Mirrors(st, seen0.Keys, cache0, stamps0, now) && Built(cache0)
      requires forall x | x in seen0 :: SeenAt(x, now) == SeenAfterSync(seen0[x], FlagOf(st.flags, x), StaleAfter(x, st, stamps0, now), now)
      ensures Refreshed(st, cache0, stamps0, seen0, now)
    {
    }

    /** Eviction after a completed reconciliation. */
    method Sweep(now: int, ghost st: Sync, ghost cache0: map<string, ServerStats>, ghost stamps0: map<ServerInstance, int>,
                 ghost seen0: map<ServerInstance, Seen>)
      requires Valid() && !st.aborted && Mirrors(st, seen0.Keys, cache0, stamps0, now) && Built(cache0)
      requires forall x | x in seen0 :: SeenAt(x, now) == SeenAfterSync(seen0[x], FlagOf(st.flags, x), StaleAfter(x, st, stamps0, now), now)
      modifies this`servers, seen0.Keys`shortCircuited, seen0.Keys`lastAvailable, seen0.Keys`notifications
      ensures Refreshed(st, cache0, stamps0, seen0, now) && Valid()
    {
      ghost var mid := servers;
      ghost var midSeen := Looks(seen0.Keys, now);
      assert Cached() == st.owners.Values;
      EvictFrom(now, mid, midSeen, seen0.Keys, st.owners.Values);
      CacheAfterSweep(st, cache0, stamps0, mid, midSeen, now);
      InstancesAfterSweep(st, stamps0, seen0, midSeen, now);
    }

    /**
     * The eviction pass restated against a snapshot: `mid` the cache and
     * `midSeen` how tick saw each instance of `dom` before the pass.
     */
    method EvictFrom(now: int, ghost mid: map<string, ServerStats>, ghost midSeen: map<ServerInstance, Seen>,
                     ghost dom: set<ServerInstance>, ghost cached: set<ServerInstance>)
      requires Valid() && servers == mid && cached == Cached() && cached <= dom && midSeen == Looks(dom, now)
      modifies this`servers, cached`shortCircuited, cached`lastAvailable, cached`notifications
      ensures forall k :: k in servers <==> k in mid && !midSeen[mid[k].server].expired
      ensures forall k | k in servers :: servers[k] == mid[k]
      ensures forall x | x in cached :: TickedFrom(x, midSeen[x], now)
      ensures forall x | x in dom && x !in cached :: SeenAt(x, now) == midSeen[x]
      ensures forall x | x in dom :: x.available == old(x.available) && x.lastUpdateTime == old(x.lastUpdateTime)
      ensures forall k | k in mid :: unchanged(mid[k])
      ensures Valid()
    {
      Evict(now, cached);
      forall x | x in dom && x !in cached
        ensures SeenAt(x, now) == midSeen[x]
      {
        assert unchanged(x);
      }
    }

    /** The cache after eviction: the live entries of the reconciled cache `mid`. */
    lemma CacheAfterSweep(st: Sync, cache0: map<string, ServerStats>, stamps0: map<ServerInstance, int>,
                          mid: map<string, ServerStats>, midSeen: map<ServerInstance, Seen>, now: int)
      requires !st.aborted && mid.Keys == st.owners.Keys
      requires forall k | k in mid :: mid[k].server == st.owners[k] && mid[k].server in midSeen
      requires forall x | x in midSeen :: midSeen[x].expired == StaleAfter(x, st, stamps0, now)
      requires forall k | k in cache0 :: k in mid && mid[k] == cache0[k]
      requires forall k | k in mid && k !in cache0 :: NewStats(mid[k], mid[k].server)
      requires forall k :: k in servers <==> k in mid && !midSeen[mid[k].server].expired
      requires forall k | k in servers :: servers[k] == mid[k]
      ensures CacheRefreshed(st, cache0, stamps0, now)
    {
    }
  }

  /**
   * The instances after eviction, from how tick saw them after
   * reconciliation (`midSeen`): the cached ones ticked, the others as they were.
   */
  lemma InstancesAfterSweep(st: Sync, stamps0: map<ServerInstance, int>, seen0: map<ServerInstance, Seen>,
                            midSeen: map<ServerInstance, Seen>, now: int)
    requires !st.aborted && midSeen.Keys == seen0.Keys && st.owners.Values <= seen0.Keys
    requires forall x | x in seen0 :: midSeen[x] == SeenAfterSync(seen0[x], FlagOf(st.flags, x), StaleAfter(x, st, stamps0, now), now)
    requires forall x | x in seen0 :: x.available == FlagOf(st.flags, x) && x.lastUpdateTime == Stamp(stamps0, st.touched, x, now)
    requires forall x | x in st.owners.Values :: TickedFrom(x, midSeen[x], now)
    requires forall x | x in seen0 && x !in st.owners.Values :: SeenAt(x, now) == midSeen[x]
    ensures InstancesRefreshed(st, stamps0, seen0, now)
  {
  }
}
