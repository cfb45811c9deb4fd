/**
 * The fewest-sessions strategy. Each discovery-backed instance publishes its
 * session count in its registry metadata; between registry updates the
 * balancer adds the sessions it handed out itself, kept in a side table keyed
 * by instance id together with the registry timestamp they belong to.
 */
module SessionBalancer {
  import opened Wrappers
  import opened JavaLang
  import opened Instances
  import opened Stats
  import opened Balancing

  /** The metadata key holding the published session count. */
  const SessionsKey: string := "sessions"

  /** A side-table entry: the registry timestamp it belongs to and the sessions handed out since. */
  datatype LocalCount = LocalCount(timestamp: int, sessions: int)

  /** A missing entry reads as a fresh one: timestamp 0 and no sessions. */
  const FreshCount: LocalCount := LocalCount(0, 0)

  function Entry(table: map<string, LocalCount>, id: string): LocalCount
  {
    if id in table then table[id] else FreshCount
  }

  /**
   * The local sessions that still count for an instance whose registry entry
   * carries `timestamp`: the stored ones when the stored timestamp matches,
   * none otherwise.
   */
  function Additional(table: map<string, LocalCount>, id: string, timestamp: int): int
  {
    var e := Entry(table, id);
    if e.timestamp == timestamp then e.sessions else 0
  }

  /** The entry after an instance with `timestamp` has been looked at: reused on a match, reset otherwise. */
  function Refresh(table: map<string, LocalCount>, id: string, timestamp: int): map<string, LocalCount>
  {
    table[id := LocalCount(timestamp, Additional(table, id, timestamp))]
  }

  /**
   * SessionServerTuple's count: the local sessions plus the published ones, in
   * int arithmetic; Integer.MAX_VALUE when the metadata, the key or a
   * parsable value is missing.
   */
  function EffectiveSessions(d: Descriptor, local: int): (r: int)
    ensures IsInt32(r)
  {
    match d.metadata
    case None => MaxInt
    case Some(m) =>
      if SessionsKey !in m then MaxInt
      else match ParseInt(m[SessionsKey])
        case None => MaxInt
        case Some(n) => Wrap32(local + n)
  }

  /** A published count is read back as the number it renders, plus the local sessions. */
  lemma PublishedSessions(d: Descriptor, local: int, n: int)
    requires d.metadata.Some? && SessionsKey in d.metadata.value
    requires d.metadata.value[SessionsKey] == IntToString(n)
    requires IsInt32(n) && IsInt32(local + n)
    ensures EffectiveSessions(d, local) == local + n
  {
    ParseIntOfIntToString(n);
  }

  /** An instance that publishes no count ranks behind every other one. */
  lemma UnpublishedRanksLast(d: Descriptor, other: Descriptor, local: int, otherLocal: int)
    requires d.metadata.None? || SessionsKey !in d.metadata.value
    ensures EffectiveSessions(other, otherLocal) <= EffectiveSessions(d, local)
  {
  }

  /** A candidate that isAvailable admits but that has no registry descriptor: the cast in choose throws. */
  predicate Rejects(cs: seq<ServerStats>, keep: seq<bool>, j: int)
    requires |keep| == |cs| && 0 <= j < |cs|
  {
    keep[j] && cs[j].server.info.None?
  }

  /** The first candidate from `from` on that the scan rejects, or |cs| when there is none. */
  function FirstReject(cs: seq<ServerStats>, keep: seq<bool>, from: nat): (f: nat)
    requires |keep| == |cs| && from <= |cs|
    ensures from <= f <= |cs|
    ensures f < |cs| ==> Rejects(cs, keep, f)
    ensures forall j | from <= j < f :: !Rejects(cs, keep, j)
    decreases |cs| - from
  {
    if from == |cs| then from
    else if Rejects(cs, keep, from) then from
    else FirstReject(cs, keep, from + 1)
  }

  /** The side table once the scan has looked at the first `n` candidates. */
  function TableAfter(table: map<string, LocalCount>, cs: seq<ServerStats>, keep: seq<bool>, n: nat)
    : (r: map<string, LocalCount>)
    requires |keep| == |cs| && n <= |cs|
    ensures forall k | k in table :: k in r
    ensures forall j | 0 <= j < n && keep[j] && cs[j].server.info.Some? :: cs[j].server.ep.id in r
    decreases n
  {
    if n == 0 then table
    else
      var t := TableAfter(table, cs, keep, n - 1);
      var s := cs[n - 1].server;
      if keep[n - 1] && s.info.Some? then Refresh(t, s.ep.id, s.info.value.lastUpdatedTimestamp) else t
  }

  /** The count the scan ranks candidate `j` by. */
  function SessionsAt(table: map<string, LocalCount>, cs: seq<ServerStats>, keep: seq<bool>, j: int): int
    requires |keep| == |cs| && 0 <= j < |cs| && cs[j].server.info.Some?
  {
    var s := cs[j].server;
    var d := s.info.value;
    EffectiveSessions(d, Additional(TableAfter(table, cs, keep, j), s.ep.id, d.lastUpdatedTimestamp))
  }

  /** The last of the first `n` candidates the scan refreshed the entry of `id` for. */
  predicate LastRefreshOf(cs: seq<ServerStats>, keep: seq<bool>, n: nat, j: int)
    requires |keep| == |cs| && n <= |cs|
  {
    && 0 <= j < n && keep[j] && cs[j].server.info.Some?
    && forall i | j < i < n && keep[i] && cs[i].server.info.Some? :: cs[i].server.ep.id != cs[j].server.ep.id
  }

  /**
   * The scan refreshes exactly the ids of the available discovery-backed
   * candidates: any other entry is kept as it was, and no entry appears from
   * nowhere.
   */
  lemma {:induction false} TableAfterKeys(table: map<string, LocalCount>, cs: seq<ServerStats>, keep: seq<bool>,
                                           n: nat, id: string)
    requires |keep| == |cs| && n <= |cs|
    ensures id in TableAfter(table, cs, keep, n) <==>
              id in table || exists j | 0 <= j < n :: keep[j] && cs[j].server.info.Some? && cs[j].server.ep.id == id
    ensures (forall j | 0 <= j < n && keep[j] && cs[j].server.info.Some? :: cs[j].server.ep.id != id) ==>
              (id in table ==> TableAfter(table, cs, keep, n)[id] == table[id])
    decreases n
  {
    if n > 0 {
      TableAfterKeys(table, cs, keep, n - 1, id);
    }
  }

  /**
   * After the scan, the entry of an id belongs to the last candidate with that
   * id: it carries that candidate's registry timestamp and the local count
   * the candidate was ranked with.
   */
  lemma {:induction false} EntryOfLastRefresh(table: map<string, LocalCount>, cs: seq<ServerStats>,
                                               keep: seq<bool>, n: nat, j: int)
    requires |keep| == |cs| && n <= |cs| && LastRefreshOf(cs, keep, n, j)
    ensures var s := cs[j].server;
            var ts := s.info.value.lastUpdatedTimestamp;
            TableAfter(table, cs, keep, n)[s.ep.id]
              == LocalCount(ts, Additional(TableAfter(table, cs, keep, j), s.ep.id, ts))
    decreases n
  {
    if n > j + 1 {
      assert LastRefreshOf(cs, keep, n - 1, j);
      EntryOfLastRefresh(table, cs, keep, n - 1, j);
    }
  }

  /** With no candidate available the scan leaves the side table as it was. */
  lemma {:induction false} NothingAvailableKeepsTable(table: map<string, LocalCount>, cs: seq<ServerStats>,
                                                       keep: seq<bool>, n: nat)
    requires |keep| == |cs| && n <= |cs|
    requires forall j | 0 <= j < n :: !keep[j]
    ensures TableAfter(table, cs, keep, n) == table
    decreases n
  {
    if n > 0 {
      NothingAvailableKeepsTable(table, cs, keep, n - 1);
    }
  }

  /**
   * Candidate `k` is where the scan of the first `n` candidates ends up: an
   * available discovery-backed candidate whose count no other one undercuts,
   * and the first with that count.
   */
  predicate BestOf(table: map<string, LocalCount>, cs: seq<ServerStats>, keep: seq<bool>, n: nat, k: int)
    requires |keep| == |cs| && n <= |cs|
  {
    && 0 <= k < n && keep[k] && cs[k].server.info.Some?
    && (forall j | 0 <= j < n && keep[j] && cs[j].server.info.Some? ::
          SessionsAt(table, cs, keep, k) <= SessionsAt(table, cs, keep, j))
    && (forall j | 0 <= j < k && keep[j] && cs[j].server.info.Some? ::
          SessionsAt(table, cs, keep, k) < SessionsAt(table, cs, keep, j))
  }

  /** Position `k` holds the least rank among the first `n` eligible positions, and is the first that does. */
  predicate LeastFirst(eligible: seq<bool>, ranks: seq<int>, n: nat, k: int)
    requires |eligible| == |ranks| && n <= |ranks|
  {
    && 0 <= k < n && eligible[k]
    && (forall j | 0 <= j < n && eligible[j] :: ranks[k] <= ranks[j])
    && (forall j | 0 <= j < k && eligible[j] :: ranks[k] < ranks[j])
  }

  /** A running strict minimum: one more position takes over exactly when it undercuts the least so far. */
  lemma LeastFirstStep(eligible: seq<bool>, ranks: seq<int>, n: nat, k: int)
    requires |eligible| == |ranks| && n < |ranks|
    requires k == -1 ==> forall j | 0 <= j < n :: !eligible[j]
    requires k != -1 ==> LeastFirst(eligible, ranks, n, k)
    ensures !eligible[n] ==> k != -1 ==> LeastFirst(eligible, ranks, n + 1, k)
    ensures eligible[n] ==>
              if k == -1 || ranks[n] < ranks[k] then LeastFirst(eligible, ranks, n + 1, n)
              else LeastFirst(eligible, ranks, n + 1, k)
  {
    if eligible[n] && k != -1 && ranks[n] < ranks[k] {
      forall j | 0 <= j < n + 1 && eligible[j]
        ensures ranks[n] <= ranks[j]
      {
        if j < n {
          assert ranks[k] <= ranks[j];
        }
      }
    }
  }

  /** Which candidates the scan ranks: the available discovery-backed ones. */
  function Eligibility(cs: seq<ServerStats>, keep: seq<bool>): (e: seq<bool>)
    requires |keep| == |cs|
    ensures |e| == |cs|
    ensures forall j | 0 <= j < |cs| :: e[j] == (keep[j] && cs[j].server.info.Some?)
  {
    seq(|cs|, j requires 0 <= j < |cs| => keep[j] && cs[j].server.info.Some?)
  }

  /** The counts the scan ranks its candidates by (0 for the ones it does not rank). */
  function Ranks(table: map<string, LocalCount>, cs: seq<ServerStats>, keep: seq<bool>): (r: seq<int>)
    requires |keep| == |cs|
    ensures |r| == |cs|
    ensures forall j | 0 <= j < |cs| && keep[j] && cs[j].server.info.Some? :: r[j] == SessionsAt(table, cs, keep, j)
  {
    seq(|cs|, j requires 0 <= j < |cs| => if keep[j] && cs[j].server.info.Some? then SessionsAt(table, cs, keep, j) else 0)
  }

  /** BestOf is the running strict minimum over the ranked candidates' counts. */
  lemma BestOfIsLeastFirst(table: map<string, LocalCount>, cs: seq<ServerStats>, keep: seq<bool>, n: nat, k: int)
    requires |keep| == |cs| && n <= |cs|
    ensures BestOf(table, cs, keep, n, k) <==> LeastFirst(Eligibility(cs, keep), Ranks(table, cs, keep), n, k)
  {
  }

  /** One more candidate: the running strict minimum moves to it exactly when it undercuts the best so far. */
  lemma BestOfStep(table: map<string, LocalCount>, cs: seq<ServerStats>, keep: seq<bool>, n: nat, k: int)
    requires |keep| == |cs| && n < |cs|
    requires k == -1 ==> forall j | 0 <= j < n :: !keep[j] || cs[j].server.info.None?
    requires k != -1 ==> BestOf(table, cs, keep, n, k)
    ensures !keep[n] || cs[n].server.info.None? ==> k != -1 ==> BestOf(table, cs, keep, n + 1, k)
    ensures keep[n] && cs[n].server.info.Some? ==>
              if k == -1 || SessionsAt(table, cs, keep, n) < SessionsAt(table, cs, keep, k)
              then BestOf(table, cs, keep, n + 1, n)
              else BestOf(table, cs, keep, n + 1, k)
  {
    var e := Eligibility(cs, keep);
    var r := Ranks(table, cs, keep);
    BestOfIsLeastFirst(table, cs, keep, n, k);
    BestOfIsLeastFirst(table, cs, keep, n + 1, k);
    BestOfIsLeastFirst(table, cs, keep, n + 1, n);
    LeastFirstStep(e, r, n, k);
  }

  /**
   * Where the scan stands: the side table, the index of the best candidate
   * so far (-1 for none) and its count, and whether a candidate without
   * registry descriptor has ended it.
   */
  datatype ScanState = ScanState(table: map<string, LocalCount>, best: int, bestSessions: int, rejected: bool)

  /** The scan looking at candidate `i`, for which isAvailable answered `available`. */
  function Step(st: ScanState, cs: seq<ServerStats>, i: int, available: bool): ScanState
    requires 0 <= i < |cs|
  {
    var s := cs[i].server;
    if st.rejected || !available then st
    else if s.info.None? then st.(rejected := true)
    else
      var d := s.info.value;
      var sessions := EffectiveSessions(d, Additional(st.table, s.ep.id, d.lastUpdatedTimestamp));
      var table := Refresh(st.table, s.ep.id, d.lastUpdatedTimestamp);
      if st.best == -1 || sessions < st.bestSessions then ScanState(table, i, sessions, false)
      else st.(table := table)
  }

  /** The scan after the first `n` candidates. */
  function Scan(table: map<string, LocalCount>, cs: seq<ServerStats>, keep: seq<bool>, n: nat): ScanState
    requires |keep| == |cs| && n <= |cs|
    decreases n
  {
    if n == 0 then ScanState(table, -1, 0, false) else Step(Scan(table, cs, keep, n - 1), cs, n - 1, keep[n - 1])
  }

  /**
   * What the scan has established after `n` candidates: it has stopped
   * exactly when it met a rejected candidate, keeping the table as it stood
   * just before; otherwise its table is TableAfter and its best candidate is
   * the first one with the least count.
   */
  lemma ScanFacts(table: map<string, LocalCount>, cs: seq<ServerStats>, keep: seq<bool>, n: nat)
    requires |keep| == |cs| && n <= |cs|
    ensures var st := Scan(table, cs, keep, n);
            var f := FirstReject(cs, keep, 0);
            && (st.rejected <==> f < n)
            && (st.rejected ==> st.table == TableAfter(table, cs, keep, f))
            && (!st.rejected ==> st.table == TableAfter(table, cs, keep, n))
            && (!st.rejected ==> (st.best == -1 <==> forall j | 0 <= j < n :: !keep[j]))
            && (!st.rejected && st.best != -1 ==>
                  BestOf(table, cs, keep, n, st.best) && st.bestSessions == SessionsAt(table, cs, keep, st.best))
  {
    ScanTable(table, cs, keep, n);
    ScanBest(table, cs, keep, n);
  }

  /** The scan stops exactly at the first rejected candidate; until then its table is TableAfter. */
  lemma {:induction false} ScanTable(table: map<string, LocalCount>, cs: seq<ServerStats>, keep: seq<bool>, n: nat)
    requires |keep| == |cs| && n <= |cs|
    ensures var st := Scan(table, cs, keep, n);
            var f := FirstReject(cs, keep, 0);
            && (st.rejected <==> f < n)
            && (st.rejected ==> st.table == TableAfter(table, cs, keep, f))
            && (!st.rejected ==> st.table == TableAfter(table, cs, keep, n))
    decreases n
  {
    if n > 0 {
      ScanTable(table, cs, keep, n - 1);
      if !Scan(table, cs, keep, n - 1).rejected {
        FirstRejectSplit(cs, keep, 0, n - 1);
      }
    }
  }

  /** Until it stops, the scan's best candidate is the first one with the least count. */
  lemma {:induction false} ScanBest(table: map<string, LocalCount>, cs: seq<ServerStats>, keep: seq<bool>, n: nat)
    requires |keep| == |cs| && n <= |cs|
    ensures var st := Scan(table, cs, keep, n);
            && (!st.rejected ==> (st.best == -1 <==> forall j | 0 <= j < n :: !keep[j] || cs[j].server.info.None?))
            && (!st.rejected && st.best != -1 ==>
                  BestOf(table, cs, keep, n, st.best) && st.bestSessions == SessionsAt(table, cs, keep, st.best))
    decreases n
  {
    if n > 0 {
      ScanBest(table, cs, keep, n - 1);
      var prev := Scan(table, cs, keep, n - 1);
      if !prev.rejected {
        ScanTable(table, cs, keep, n - 1);
        BestOfStep(table, cs, keep, n - 1, prev.best);
        if keep[n - 1] && cs[n - 1].server.info.Some? {
          StepRanks(table, cs, keep, prev, n - 1);
        }
      }
    }
  }

  /** A ranked candidate is ranked by its SessionsAt count, and the table moves on to TableAfter. */
  lemma StepRanks(table: map<string, LocalCount>, cs: seq<ServerStats>, keep: seq<bool>, st: ScanState, i: nat)
    requires |keep| == |cs| && i < |cs| && keep[i] && cs[i].server.info.Some?
    requires !st.rejected && st.table == TableAfter(table, cs, keep, i)
    ensures var here := SessionsAt(table, cs, keep, i);
            Step(st, cs, i, true)
              == if st.best == -1 || here < st.bestSessions then ScanState(TableAfter(table, cs, keep, i + 1), i, here, false)
                 else st.(table := TableAfter(table, cs, keep, i + 1))
  {
  }

  /** Once a rejected candidate has stopped the scan, the later candidates change nothing. */
  lemma {:induction false} ScanStaysRejected(table: map<string, LocalCount>, cs: seq<ServerStats>, keep: seq<bool>,
                                              i: nat, n: nat)
    requires |keep| == |cs| && i <= n <= |cs|
    requires Scan(table, cs, keep, i).rejected
    ensures Scan(table, cs, keep, n) == Scan(table, cs, keep, i)
    decreases n - i
  {
    if i < n {
      ScanStaysRejected(table, cs, keep, i, n - 1);
    }
  }

  /** Where the first rejection lies relative to position `n`. */
  lemma {:induction false} FirstRejectSplit(cs: seq<ServerStats>, keep: seq<bool>, from: nat, n: nat)
    requires |keep| == |cs| && from <= n < |cs|
    requires forall j | from <= j < n :: !Rejects(cs, keep, j)
    ensures Rejects(cs, keep, n) ==> FirstReject(cs, keep, from) == n
    ensures !Rejects(cs, keep, n) ==> FirstReject(cs, keep, from) == FirstReject(cs, keep, n + 1)
    decreases n - from
  {
    if from < n {
      FirstRejectSplit(cs, keep, from + 1, n);
    }
  }

  /** addAndGet(1) on the chosen id's session counter. */
  function Bump(table: map<string, LocalCount>, id: string): map<string, LocalCount>
    requires id in table
  {
    table[id := LocalCount(table[id].timestamp, Wrap32(table[id].sessions + 1))]
  }

  // ---------------------------------------------------------------- the comparator

  /** The priority queue's comparator as written: the difference of the counts, in int arithmetic. */
  function SubtractionCompare(a: int, b: int): int
  {
    Wrap32(a - b)
  }

  /**
   * java.util.PriorityQueue after offering two tuples: the second sifts up to
   * the head exactly when the comparator puts it before the first.
   */
  function HeadOfTwoAsWritten(first: int, second: int): int
  {
    if SubtractionCompare(second, first) < 0 then second else first
  }

  /** While the difference fits in an int, the comparator as written orders by count. */
  lemma SubtractionCompareWithoutOverflow(a: int, b: int)
    requires IsInt32(a - b)
    ensures SubtractionCompare(a, b) < 0 <==> a < b
  {
  }

  /**
   * The comparator as written overflows: an instance that publishes no count
   * (Integer.MAX_VALUE) is put before one that publishes -1, and becomes the
   * head of the queue.
   */
  lemma SubtractionCompareOverflows()
    ensures SubtractionCompare(MaxInt, -1) < 0 && MaxInt > -1
    ensures HeadOfTwoAsWritten(-1, MaxInt) == MaxInt
  {
  }

  /**
   * The head of the queue under the intended order (compare the counts, not
   * their difference): the first candidate with the least count, which is
   * what a running strict minimum finds.
   */
  function HeadOfTwo(first: int, second: int): (r: int)
    ensures r <= first && r <= second
    ensures r == first <==> first <= second
  {
    if second < first then second else first
  }

  class SessionLoadBalancer {
    /** The incremental-sessions cache; the five-minute expiry is not modelled. */
    var incremental: map<string, LocalCount>

    constructor ()
      ensures incremental == map[]
    {
      incremental := map[];
    }

    /**
     * choose: skip the unavailable candidates, rank the others by their
     * effective session count (refreshing their side-table entries on the
     * way), and hand out a session on the first one with the least count. A
     * candidate without registry descriptor ends the scan with null, keeping
     * the entries refreshed so far.
     */
    method Choose(cs: seq<ServerStats>, now: int) returns (r: ServerStats?)
      modifies this, Servers(cs)`shortCircuited
      ensures var keep := old(Availability(cs, now));
              var f := FirstReject(cs, keep, 0);
              f < |cs| ==> r == null && incremental == TableAfter(old(incremental), cs, keep, f)
      ensures var keep := old(Availability(cs, now));
              FirstReject(cs, keep, 0) == |cs| ==> (r == null <==> forall j | 0 <= j < |cs| :: !keep[j])
      ensures var keep := old(Availability(cs, now));
              r == null && (forall j | 0 <= j < |cs| :: !keep[j]) ==> incremental == old(incremental)
      ensures var keep := old(Availability(cs, now));
              r != null ==>
                && FirstReject(cs, keep, 0) == |cs|
                && r.server.info.Some?
                && (exists k | 0 <= k < |cs| && cs[k] == r :: BestOf(old(incremental), cs, keep, |cs|, k))
                && incremental == Bump(TableAfter(old(incremental), cs, keep, |cs|), r.server.ep.id)
      ensures forall j | 0 <= j < |cs| :: Observed(cs[j].server, now)
    {
      ghost var keep := Availability(cs, now);
      var st := ScanCandidates(cs, incremental, now);
      ScanFacts(old(incremental), cs, keep, |cs|);
      if st.rejected || st.best == -1 {
        if !st.rejected {
          NothingAvailableKeepsTable(old(incremental), cs, keep, |cs|);
        }
        incremental := st.table;
        return null;
      }
      r := cs[st.best];
      incremental := Bump(st.table, r.server.ep.id);
    }
  }

  /** The scan of choose, asking each candidate's instance whether it is available until one is rejected. */
  method ScanCandidates(cs: seq<ServerStats>, table: map<string, LocalCount>, now: int) returns (st: ScanState)
    modifies Servers(cs)`shortCircuited
    ensures st == Scan(table, cs, old(Availability(cs, now)), |cs|)
    ensures forall j | 0 <= j < |cs| :: Observed(cs[j].server, now)
  {
    ghost var snap := Snapshot(cs, now);
    SnapshotFacts(cs, now);
    st := ScanLoop(cs, table, now, snap, Servers(cs));
    ObservedEach(cs, snap, now);
  }

  /** The loop of the scan; the candidates' instances show `snap` and are only looked at. */
  method ScanLoop(cs: seq<ServerStats>, table: map<string, LocalCount>, now: int, ghost snap: map<ServerInstance, Look>,
                  ghost instances: set<ServerInstance>)
    returns (st: ScanState)
    requires AllObserved(cs, snap, now) && instances == Servers(cs)
    modifies instances`shortCircuited
    ensures st == Scan(table, cs, KeepOf(cs, snap), |cs|)
    ensures AllObserved(cs, snap, now)
  {
    ghost var keep := KeepOf(cs, snap);
    st := ScanState(table, -1, 0, false);
    var i := 0;
    while i < |cs| && !st.rejected
      invariant 0 <= i <= |cs|
      invariant st == Scan(table, cs, keep, i)
      invariant AllObserved(cs, snap, now)
      modifies instances`shortCircuited
      decreases |cs| - i
    {
      var ok := ProbeAt(cs, i, now, snap);
      st := Step(st, cs, i, ok);
      i := i + 1;
    }
    ScanStops(table, cs, keep, i);
  }

  /** The scan has stopped: every candidate was looked at, or one was rejected. */
  lemma ScanStops(table: map<string, LocalCount>, cs: seq<ServerStats>, keep: seq<bool>, i: nat)
    requires |keep| == |cs| && i <= |cs|
    requires i == |cs| || Scan(table, cs, keep, i).rejected
    ensures Scan(table, cs, keep, |cs|) == Scan(table, cs, keep, i)
  {
    if i < |cs| {
      ScanStaysRejected(table, cs, keep, i, |cs|);
    }
  }
}
