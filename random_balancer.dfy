/**
 * The uniform random strategy: keep the available candidates, in order, and
 * pick one of them by a random index. The random source is an input: `draw(n)`
 * is the index RandomUtils.nextInt(0, n) returns.
 */
module RandomBalancer {
  import opened Instances
  import opened Stats
  import opened Balancing

  /**
   * choose: null for no candidates or no available candidate, otherwise the
   * available candidate at the drawn index.
   */
  method Choose(cs: seq<ServerStats>, now: int, draw: nat -> nat) returns (r: ServerStats?)
    requires forall n: nat :: 0 < n ==> draw(n) < n
    modifies Servers(cs)`shortCircuited
    ensures var avail := Filter(cs, old(Availability(cs, now)));
            && (r == null <==> avail == [])
            && (r != null ==> r == avail[draw(|avail|)])
            && (|avail| == 1 ==> r == avail[0])
    ensures r != null ==> r in cs && old(r.server.AvailableAt(now))
    ensures forall i | 0 <= i < |cs| :: Observed(cs[i].server, now)
  {
    ghost var before := old(Availability(cs, now));
    if |cs| == 0 {
      return null;
    }
    var available := AvailableCandidates(cs, now);
    if |available| == 0 {
      return null;
    }
    var picked := available[draw(|available|)];
    FilterMembers(cs, before, picked);
    r := picked;
  }
}
