/**
 * The random strategy with its own seeded generator: the same filtering, with
 * no separate check for an empty candidate list. The generator is an input:
 * `draw(n)` is the index its nextInt(n) returns.
 */
module SeededRandomBalancer {
  import opened Instances
  import opened Stats
  import opened Balancing

  /** choose: null when no candidate is available, otherwise the available candidate at the drawn index. */
  method Choose(cs: seq<ServerStats>, now: int, draw: nat -> nat) returns (r: ServerStats?)
    requires forall n: nat :: 0 < n ==> draw(n) < n
    modifies Servers(cs)`shortCircuited
    ensures var avail := Filter(cs, old(Availability(cs, now)));
            && (r == null <==> avail == [])
            && (r != null ==> r == avail[draw(|avail|)])
            && (|avail| == 1 ==> r == avail[0])
    ensures r != null ==> r in cs && old(r.server.AvailableAt(now))
    ensures forall i | 0 <= i < |cs| :: Observed(cs[i].server, now)
  {
    ghost var before := old(Availability(cs, now));
    var available := AvailableCandidates(cs, now);
    if |available| == 0 {
      return null;
    }
    var picked := available[draw(|available|)];
    FilterMembers(cs, before, picked);
    r := picked;
  }
}
