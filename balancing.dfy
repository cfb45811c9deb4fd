/**
 * What every load-balancing strategy shares: the candidates' availability as
 * seen at one instant, filtering a candidate list by it, and the only change a
 * strategy makes to an instance while looking at it (the breaker's lazy clear).
 */
module Balancing {
  import opened Instances
  import opened Stats
  import CircuitBreaker

  /** What a strategy's choose ends with: a candidate, no candidate (null), or an exception it lets escape. */
  datatype Choice = Picked(stats: ServerStats) | NoServer | Threw

  /** The elements of `xs` whose flag in `keep` is set, in their order. */
  function Filter<T>(xs: seq<T>, keep: seq<bool>): (r: seq<T>)
    requires |xs| == |keep|
    ensures |r| <= |xs|
    decreases |xs|
  {
    if xs == [] then []
    else Filter(xs[..|xs| - 1], keep[..|xs| - 1]) + (if keep[|xs| - 1] then [xs[|xs| - 1]] else [])
  }

  /** Filtering one more element of a prefix appends it when its flag is set. */
  lemma FilterPrefix<T>(xs: seq<T>, keep: seq<bool>, i: nat)
    requires |xs| == |keep| && i < |xs|
    ensures Filter(xs[..i + 1], keep[..i + 1]) == Filter(xs[..i], keep[..i]) + (if keep[i] then [xs[i]] else [])
  {
    assert xs[..i + 1][..i] == xs[..i] && keep[..i + 1][..i] == keep[..i];
  }

  lemma FilterWhole<T>(xs: seq<T>, keep: seq<bool>)
    requires |xs| == |keep|
    ensures Filter(xs[..|xs|], keep[..|keep|]) == Filter(xs, keep)
  {
    assert xs[..|xs|] == xs && keep[..|keep|] == keep;
  }

  /** Filtering keeps exactly the flagged elements. */
  lemma {:induction false} FilterMembers<T>(xs: seq<T>, keep: seq<bool>, x: T)
    requires |xs| == |keep|
    ensures x in Filter(xs, keep) <==> exists i | 0 <= i < |xs| :: xs[i] == x && keep[i]
    decreases |xs|
  {
    if xs != [] {
      var n := |xs| - 1;
      FilterMembers(xs[..n], keep[..n], x);
      if x in Filter(xs[..n], keep[..n]) {
        var i :| 0 <= i < n && xs[..n][i] == x && keep[..n][i];
        assert xs[i] == x && keep[i];
      }
      if exists i | 0 <= i < |xs| :: xs[i] == x && keep[i] {
        var i :| 0 <= i < |xs| && xs[i] == x && keep[i];
        if i < n {
          assert xs[..n][i] == x && keep[..n][i];
        }
      }
    }
  }

  /** With no flag set the filtered list is empty, and with one set it is not. */
  lemma {:induction false} FilterEmpty<T>(xs: seq<T>, keep: seq<bool>)
    requires |xs| == |keep|
    ensures Filter(xs, keep) == [] <==> forall i | 0 <= i < |keep| :: !keep[i]
    decreases |xs|
  {
    if xs != [] {
      var n := |xs| - 1;
      FilterEmpty(xs[..n], keep[..n]);
      assert forall i | 0 <= i < n :: keep[..n][i] == keep[i];
    }
  }

  /** Each candidate's availability at `now`, in candidate order. */
  function Availability(cs: seq<ServerStats>, now: int): (r: seq<bool>)
    reads set i | 0 <= i < |cs| :: cs[i].server
    ensures |r| == |cs|
    ensures forall i | 0 <= i < |cs| :: r[i] == cs[i].server.AvailableAt(now)
  {
    seq(|cs|, i requires 0 <= i < |cs| reads set j | 0 <= j < |cs| :: cs[j].server => cs[i].server.AvailableAt(now))
  }

  /** What an instance shows that a strategy looking at it must leave as it is, save for the breaker's lazy clear. */
  datatype Look = Look(availableNow: bool, available: bool, lastAvailable: bool, listening: bool,
                       notifications: seq<bool>, lastUpdateTime: int, breaker: CircuitBreaker.Breaker)

  function LookOf(s: ServerInstance, now: int): Look
    reads s
  {
    Look(s.AvailableAt(now), s.available, s.lastAvailable, s.listening, s.notifications, s.lastUpdateTime, s.BreakerState())
  }

  /** `s` shows `l`, except that its breaker may have been cleared lazily at `now`. */
  predicate ObservedFrom(s: ServerInstance, l: Look, now: int)
    reads s
  {
    && s.AvailableAt(now) == l.availableNow
    && s.available == l.available
    && s.lastAvailable == l.lastAvailable
    && s.listening == l.listening
    && s.notifications == l.notifications
    && s.lastUpdateTime == l.lastUpdateTime
    && (s.BreakerState() == l.breaker || s.BreakerState() == CircuitBreaker.Observe(l.breaker, now))
  }

  /**
   * Between the two states, `s` changed at most by the lazy clear of its
   * breaker that isShortCircuited performs at `now`.
   */
  twostate predicate Observed(s: ServerInstance, now: int)
    reads s
  {
    ObservedFrom(s, old(LookOf(s, now)), now)
  }

  /** isAvailable on an instance that so far has only been looked at. */
  method Probe(s: ServerInstance, now: int, ghost l: Look) returns (ok: bool)
    requires ObservedFrom(s, l, now)
    modifies s`shortCircuited
    ensures ok == l.availableNow && ObservedFrom(s, l, now)
  {
    ok := s.IsAvailable(now);
    CircuitBreaker.ObserveIdempotent(l.breaker, now);
  }

  /** The stats objects of a candidate list. */
  function Candidates(cs: seq<ServerStats>): set<ServerStats>
  {
    set i | 0 <= i < |cs| :: cs[i]
  }

  /** The servers of a candidate list: what a strategy may touch. */
  function Servers(cs: seq<ServerStats>): set<ServerInstance>
  {
    set i | 0 <= i < |cs| :: cs[i].server
  }

  /** What each candidate's instance shows now. */
  ghost function Snapshot(cs: seq<ServerStats>, now: int): map<ServerInstance, Look>
    reads Servers(cs)
  {
    map x | x in Servers(cs) :: LookOf(x, now)
  }

  /** Which candidates a snapshot shows as available. */
  function KeepOf(cs: seq<ServerStats>, snap: map<ServerInstance, Look>): (keep: seq<bool>)
    ensures |keep| == |cs|
    ensures forall j | 0 <= j < |cs| :: keep[j] == (cs[j].server in snap && snap[cs[j].server].availableNow)
  {
    seq(|cs|, j requires 0 <= j < |cs| => cs[j].server in snap && snap[cs[j].server].availableNow)
  }

  /** A snapshot taken now: every instance is as it shows, and its availability is isAvailable's answer now. */
  lemma SnapshotFacts(cs: seq<ServerStats>, now: int)
    ensures AllObserved(cs, Snapshot(cs, now), now)
    ensures KeepOf(cs, Snapshot(cs, now)) == Availability(cs, now)
    ensures forall j | 0 <= j < |cs| :: cs[j].server in Snapshot(cs, now)
                                        && Snapshot(cs, now)[cs[j].server] == LookOf(cs[j].server, now)
  {
    var snap := Snapshot(cs, now);
    assert forall j | 0 <= j < |cs| :: cs[j].server in Servers(cs);
  }

  /** Every candidate's instance has so far only been looked at, since it showed `snap`. */
  ghost predicate AllObserved(cs: seq<ServerStats>, snap: map<ServerInstance, Look>, now: int)
    reads Servers(cs)
  {
    forall x | x in Servers(cs) :: x in snap && ObservedFrom(x, snap[x], now)
  }

  /** Each candidate's instance has only been looked at since it showed its entry of `snap`. */
  lemma ObservedEach(cs: seq<ServerStats>, snap: map<ServerInstance, Look>, now: int)
    requires AllObserved(cs, snap, now)
    ensures forall j | 0 <= j < |cs| :: cs[j].server in snap && ObservedFrom(cs[j].server, snap[cs[j].server], now)
  {
    forall j | 0 <= j < |cs|
      ensures cs[j].server in snap && ObservedFrom(cs[j].server, snap[cs[j].server], now)
    {
      assert cs[j].server in Servers(cs);
    }
  }

  /** isAvailable on candidate i's instance, in a scan that so far has only looked at the candidates. */
  method ProbeAt(cs: seq<ServerStats>, i: int, now: int, ghost snap: map<ServerInstance, Look>) returns (ok: bool)
    requires 0 <= i < |cs| && AllObserved(cs, snap, now)
    modifies cs[i].server`shortCircuited
    ensures ok == KeepOf(cs, snap)[i] && AllObserved(cs, snap, now)
  {
    var s := cs[i].server;
    assert s in Servers(cs);
    ok := Probe(s, now, snap[s]);
  }

  /** The loop both random strategies run: ask each candidate's instance whether it is available and keep those that are. */
  method AvailableCandidates(cs: seq<ServerStats>, now: int) returns (available: seq<ServerStats>)
    modifies Servers(cs)`shortCircuited
    ensures available == Filter(cs, old(Availability(cs, now)))
    ensures forall j | 0 <= j < |cs| :: cs[j].server.AvailableAt(now) == old(cs[j].server.AvailableAt(now))
    ensures forall j | 0 <= j < |cs| :: Observed(cs[j].server, now)
  {
    ghost var snap := Snapshot(cs, now);
    SnapshotFacts(cs, now);
    ghost var before := KeepOf(cs, snap);
    available := [];
    for i := 0 to |cs|
      invariant available == Filter(cs[..i], before[..i])
      invariant AllObserved(cs, snap, now)
    {
      var ok := ProbeAt(cs, i, now, snap);
      FilterPrefix(cs, before, i);
      if ok {
        available := available + [cs[i]];
      }
    }
    FilterWhole(cs, before);
    ObservedEach(cs, snap, now);
  }
}
