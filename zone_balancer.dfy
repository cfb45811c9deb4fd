/**
 * The zone-aware strategy: each available candidate is scored by how close
 * its availability zone is to the balancer's own (same zone, same region,
 * same area, or none of these) and by its load, and the scan keeps the best
 * one under a comparison that lets a much less loaded candidate escape the
 * closer location buckets.
 */
module ZoneAware {
  import opened Wrappers
  import opened JavaLang
  import opened Instances
  import opened Stats
  import opened Balancing

  const Default: string := "default"
  const Unknown: string := "unknown"

  /** An availability zone taken apart: the zone itself, its region and its area. */
  datatype Location = Location(availabilityZone: string, region: string, area: string)

  const DefaultLocation: Location := Location(Default, Default, Default)

  /** CharMatcher.DIGIT.retainFrom, for the ASCII digits: the digits of `s`, in order. */
  function RetainDigits(s: string): (r: string)
    ensures AllDigits(r) && |r| <= |s|
    ensures AllDigits(s) ==> r == s
    decreases |s|
  {
    if s == [] then []
    else
      var rest := RetainDigits(s[..|s| - 1]);
      if IsDigit(s[|s| - 1]) then rest + [s[|s| - 1]] else rest
  }

  /**
   * The Location constructor: the zone is lower-cased; "default" and
   * "unknown" give the default location; a zone of exactly three '-'
   * separated parts whose third part holds a digit gives the area (first
   * part) and the region (first two parts and the number those digits
   * denote). Any other zone keeps default region and area. None stands for
   * the NumberFormatException of a digit run beyond the int range.
   */
  function ParseLocation(zone: string): Option<Location>
  {
    var z := ToLower(zone);
    if z == Default || z == Unknown then Some(DefaultLocation)
    else
      var parts := Split(z, '-');
      if |parts| != 3 then Some(Location(z, Default, Default))
      else
        var digits := RetainDigits(parts[2]);
        if digits == [] then Some(Location(z, Default, Default))
        else
          match ParseInt(digits)
          case None => None
          case Some(n) => Some(Location(z, parts[0] + "-" + parts[1] + "-" + IntToString(n), parts[0]))
  }

  /** Location.hashCode: 31-based, over zone, region and area, in int arithmetic. */
  function LocationHash(l: Location): (h: int)
    ensures IsInt32(h)
  {
    Wrap32(31 * Wrap32(31 * StringHash(l.availabilityZone) + StringHash(l.region)) + StringHash(l.area))
  }

  lemma ToLowerConcat(a: string, b: string)
    ensures ToLower(a + b) == ToLower(a) + ToLower(b)
  {
  }

  /** Parsing does not depend on the case of the zone. */
  lemma ParseLocationIgnoresCase(zone: string)
    ensures ParseLocation(ToLower(zone)) == ParseLocation(zone)
  {
    ToLowerIdempotent(zone);
  }

  /** "default" and "unknown", in any case, give the default location. */
  lemma DefaultZones(zone: string)
    requires ToLower(zone) == Default || ToLower(zone) == Unknown
    ensures ParseLocation(zone) == Some(DefaultLocation)
  {
  }

  /** A zone that is not three '-' separated parts is kept as the zone, with default region and area. */
  lemma MalformedZone(zone: string)
    requires ToLower(zone) != Default && ToLower(zone) != Unknown
    requires |Split(ToLower(zone), '-')| != 3
    ensures ParseLocation(zone) == Some(Location(ToLower(zone), Default, Default))
  {
  }

  lemma JoinOfThree(a: string, b: string, c: string)
    ensures Join([a, b, c], '-') == a + "-" + b + "-" + c
  {
    assert [a, b, c][1..] == [b, c];
    assert [b, c][1..] == [c];
    assert Join([b, c], '-') == b + "-" + c;
    assert a + "-" + (b + "-" + c) == a + "-" + b + "-" + c;
  }

  lemma LowerOfThree(a: string, b: string, c: string)
    requires ToLower(a) == a && ToLower(b) == b && ToLower(c) == c
    ensures ToLower(a + "-" + b + "-" + c) == a + "-" + b + "-" + c
  {
    ToLowerConcat(a, "-");
    ToLowerConcat(a + "-", b);
    ToLowerConcat(a + "-" + b, "-");
    ToLowerConcat(a + "-" + b + "-", c);
  }

  /**
   * A lower-case zone "a-b-c" whose last part holds digits: the area is "a"
   * and the region "a-b-n", with n the number the digits of c denote.
   */
  lemma WellFormedZone(a: string, b: string, c: string)
    requires '-' !in a && '-' !in b && '-' !in c
    requires ToLower(a) == a && ToLower(b) == b && ToLower(c) == c
    requires RetainDigits(c) != [] && DigitsValue(RetainDigits(c)) <= MaxInt
    ensures var z := a + "-" + b + "-" + c;
            ParseLocation(z) == Some(Location(z, a + "-" + b + "-" + IntToString(DigitsValue(RetainDigits(c))), a))
  {
    var z := a + "-" + b + "-" + c;
    LowerOfThree(a, b, c);
    JoinOfThree(a, b, c);
    SplitOfJoin([a, b, c], '-');
    assert '-' in z by {
      assert z[|a|] == '-';
    }
    NoDashInDefaults();
    ParseThreeParts(z, [a, b, c]);
  }

  lemma NoDashInDefaults()
    ensures '-' !in Default && '-' !in Unknown
  {
    assert forall i | 0 <= i < |Default| :: Default[i] != '-';
    assert forall i | 0 <= i < |Unknown| :: Unknown[i] != '-';
  }

  /** A lower-case zone of three parts whose third holds an int-sized digit run. */
  lemma ParseThreeParts(z: string, parts: seq<string>)
    requires ToLower(z) == z && z != Default && z != Unknown
    requires Split(z, '-') == parts && |parts| == 3
    requires RetainDigits(parts[2]) != [] && DigitsValue(RetainDigits(parts[2])) <= MaxInt
    ensures ParseLocation(z)
         == Some(Location(z, parts[0] + "-" + parts[1] + "-" + IntToString(DigitsValue(RetainDigits(parts[2]))), parts[0]))
  {
    ParseIntDigits(RetainDigits(parts[2]));
  }

  /** us-west-1a, given by its parts: region us-west-1, area us. */
  lemma ZoneLetterAfterDigit(z: string, area: string, middle: string, tail: string)
    requires area == "us" && middle == "west" && tail == "1a"
    requires z == area + "-" + middle + "-" + tail
    ensures ParseLocation(z) == Some(Location(z, area + "-" + middle + "-" + "1", area))
  {
    assert ToLower(area) == area && ToLower(middle) == middle && ToLower(tail) == tail;
    assert RetainDigits(tail) == "1";
    ZoneWithDigitOne(z, area, middle, tail);
  }

  /** us-west-a1, the zone letter before the digit: the same region us-west-1 and area us. */
  lemma ZoneLetterBeforeDigit(z: string, area: string, middle: string, tail: string)
    requires area == "us" && middle == "west" && tail == "a1"
    requires z == area + "-" + middle + "-" + tail
    ensures ParseLocation(z) == Some(Location(z, area + "-" + middle + "-" + "1", area))
  {
    assert ToLower(area) == area && ToLower(middle) == middle && ToLower(tail) == tail;
    assert RetainDigits(tail) == "1" by {
      assert tail[..1] == "a";
      assert RetainDigits("a") == [];
    }
    ZoneWithDigitOne(z, area, middle, tail);
  }

  /** A zone "a-b-t" whose third part holds the single digit 1 is in region "a-b-1" of area "a". */
  lemma ZoneWithDigitOne(z: string, area: string, middle: string, tail: string)
    requires z == area + "-" + middle + "-" + tail
    requires '-' !in area && '-' !in middle && '-' !in tail
    requires ToLower(area) == area && ToLower(middle) == middle && ToLower(tail) == tail
    requires RetainDigits(tail) == "1"
    ensures ParseLocation(z) == Some(Location(z, area + "-" + middle + "-" + "1", area))
  {
    assert DigitsValue("1") == 1;
    assert IntToString(1) == "1";
    WellFormedZone(area, middle, tail);
  }

  // ---------------------------------------------------------------- scoring

  /** locationBits: 7 for the same zone, else 3 for the same region, else 1 for the same area, else 0. */
  function LocationBits(mine: Location, theirs: Location): (bits: int)
    ensures bits == 7 <==> mine.availabilityZone == theirs.availabilityZone
    ensures bits >= 3 <==> mine.availabilityZone == theirs.availabilityZone || mine.region == theirs.region
    ensures bits >= 1 <==> mine.availabilityZone == theirs.availabilityZone || mine.region == theirs.region
                           || mine.area == theirs.area
  {
    if mine.availabilityZone == theirs.availabilityZone then 7
    else if mine.region == theirs.region then 3
    else if mine.area == theirs.area then 1
    else 0
  }

  /**
   * A double as the load computation yields it: a finite value (rounding is
   * left out), an infinity, or NaN. A zero maxRequestsPerSecond turns every
   * load into an infinity or NaN.
   */
  datatype Double = Finite(value: real) | PosInf | NegInf | NaN

  /** x / d in floating point, for finite x and d. */
  function Divide(x: real, d: real): (q: Double)
    ensures d != 0.0 ==> q.Finite? && q.value * d == x
    ensures d == 0.0 ==> !q.Finite? && (q.NaN? <==> x == 0.0) && (q.PosInf? <==> x > 0.0)
  {
    if d != 0.0 then Finite(x / d)
    else if x > 0.0 then PosInf
    else if x < 0.0 then NegInf
    else NaN
  }

  /** a - b in floating point: NaN absorbs, and infinities of the same sign cancel to NaN. */
  function Minus(a: Double, b: Double): Double
  {
    if a.NaN? || b.NaN? then NaN
    else if a.Finite? && b.Finite? then Finite(a.value - b.value)
    else if a == b then NaN
    else if a.PosInf? || b.NegInf? then PosInf
    else NegInf
  }

  /** Math.abs on a double. */
  function Abs(a: Double): Double
  {
    match a
    case Finite(x) => Finite(AbsReal(x))
    case NegInf => PosInf
    case _ => a
  }

  /** a > t for a finite t: never for NaN. */
  predicate Above(a: Double, t: real)
  {
    match a
    case Finite(x) => x > t
    case PosInf => true
    case _ => false
  }

  /** a < 0: never for NaN. */
  predicate Negative(a: Double)
  {
    match a
    case Finite(x) => x < 0.0
    case NegInf => true
    case _ => false
  }

  /**
   * Swapping the operands keeps the size of a difference; and once that size
   * is above a non-negative bound, exactly one of the two differences is negative.
   */
  lemma MinusSwapped(a: Double, b: Double, t: real)
    requires t >= 0.0
    ensures Abs(Minus(b, a)) == Abs(Minus(a, b))
    ensures Above(Abs(Minus(a, b)), t) ==> (Negative(Minus(a, b)) <==> !Negative(Minus(b, a)))
  {
  }

  /** Between finite loads the difference and its size are the exact ones. */
  lemma FiniteDifference(x: real, y: real)
    ensures Minus(Finite(x), Finite(y)) == Finite(x - y)
    ensures Abs(Minus(Finite(x), Finite(y))) == Finite(AbsReal(x - y))
  {
  }

  /** MetaData: a candidate's load, its location score and its open sessions. */
  datatype Meta = Meta(load: Double, locationBits: int, sessionCount: int)

  /** The escape thresholds for leaving the area, the region and the availability zone. */
  datatype Thresholds = Thresholds(area: real, region: real, availability: real)

  /** The thresholds' defaults. */
  const DefaultThresholds: Thresholds := Thresholds(0.9, 0.9, 0.9)

  /** The default of maxRequestsPerSecond, the load a candidate's send rate is divided by. */
  const DefaultMaxRequestsPerSecond: real := 100.0

  /** Loads closer than this count as the same; session counts closer than SessionTolerance too. */
  const LoadTolerance: real := 0.1
  const SessionTolerance: int := 10

  function AbsReal(x: real): real { if x < 0.0 then -x else x }

  function AbsInt(x: int): int { if x < 0 then -x else x }

  /** Which location levels still count: all three, or fewer the bigger the difference in load. */
  function LocationMask(absDeltaLoad: Double, th: Thresholds): (mask: int)
    ensures mask == 0 || mask == 1 || mask == 3 || mask == 7
  {
    if Above(absDeltaLoad, th.area) then 0
    else if Above(absDeltaLoad, th.region) then 1
    else if Above(absDeltaLoad, th.availability) then 3
    else 7
  }

  /**
   * bits & mask for a mask of the form 2^k - 1: in two's complement these are
   * the low k bits, i.e. the non-negative remainder modulo 2^k.
   */
  function Masked(bits: int, mask: int): int
    requires mask == 0 || mask == 1 || mask == 3 || mask == 7
  {
    if mask == 7 then bits % 8 else if mask == 3 then bits % 4 else if mask == 1 then bits % 2 else 0
  }

  /** The difference of the masked location scores. */
  function DeltaLocation(a: Meta, b: Meta, th: Thresholds): int
  {
    var mask := LocationMask(Abs(Minus(a.load, b.load)), th);
    Masked(a.locationBits, mask) - Masked(b.locationBits, mask)
  }

  /** The case isBetterThan decides by a coin flip: same masked location, about the same load and sessions. */
  predicate CoinCase(a: Meta, b: Meta, th: Thresholds)
  {
    && DeltaLocation(a, b, th) == 0
    && !Above(Abs(Minus(a.load, b.load)), LoadTolerance)
    && AbsInt(a.sessionCount - b.sessionCount) <= SessionTolerance
  }

  /**
   * isBetterThan: the higher masked location wins; then, when the loads
   * differ by more than the tolerance, the lower load; then, when the
   * session counts differ by more than the tolerance, the fewer sessions;
   * otherwise `coin`, the random boolean.
   */
  function IsBetterThan(a: Meta, b: Meta, th: Thresholds, coin: bool): bool
  {
    var deltaLoad := Minus(a.load, b.load);
    var deltaLoc := DeltaLocation(a, b, th);
    if deltaLoc > 0 then true
    else if deltaLoc < 0 then false
    else if Above(Abs(deltaLoad), LoadTolerance) then Negative(deltaLoad)
    else
      var deltaSessions := a.sessionCount - b.sessionCount;
      if AbsInt(deltaSessions) > SessionTolerance then deltaSessions < 0 else coin
  }

  /** Outside the coin case exactly one of the two is better than the other, whatever the coins. */
  lemma Antisymmetric(a: Meta, b: Meta, th: Thresholds, coin1: bool, coin2: bool)
    requires !CoinCase(a, b, th)
    ensures !CoinCase(b, a, th)
    ensures IsBetterThan(a, b, th, coin1) <==> !IsBetterThan(b, a, th, coin2)
  {
    MinusSwapped(a.load, b.load, LoadTolerance);
    assert DeltaLocation(b, a, th) == -DeltaLocation(a, b, th);
  }

  /** In the coin case the coin alone decides. */
  lemma CoinDecides(a: Meta, b: Meta, th: Thresholds, coin: bool)
    requires CoinCase(a, b, th)
    ensures CoinCase(b, a, th)
    ensures IsBetterThan(a, b, th, coin) == coin
  {
    MinusSwapped(a.load, b.load, LoadTolerance);
    assert DeltaLocation(b, a, th) == -DeltaLocation(a, b, th);
  }

  /** A candidate in the same zone beats one elsewhere when their loads differ by no more than the zone threshold. */
  lemma CloserWinsUnderSimilarLoad(a: Meta, b: Meta, th: Thresholds, coin: bool)
    requires !Above(Abs(Minus(a.load, b.load)), th.availability) && !Above(Abs(Minus(a.load, b.load)), th.region)
    requires !Above(Abs(Minus(a.load, b.load)), th.area)
    requires 0 <= b.locationBits < a.locationBits <= 7
    ensures IsBetterThan(a, b, th, coin)
  {
  }

  /** The thresholds of the comparison examples: area 0.9, region 0.5, zone 0.2. */
  const ExampleThresholds: Thresholds := Thresholds(0.9, 0.5, 0.2)

  /** A win that holds even when the coin says false is never reversed, whatever the coin. */
  lemma WinWithoutCoinStands(a: Meta, b: Meta, th: Thresholds, coin: bool)
    requires IsBetterThan(a, b, th, false)
    ensures !CoinCase(a, b, th)
    ensures !IsBetterThan(b, a, th, coin)
  {
    Antisymmetric(a, b, th, false, coin);
  }

  // The comparison examples, each stated for either coin; with
  // WinWithoutCoinStands the loser never beats the winner.

  /** At equal load the closer location wins. */
  lemma LocationDecidesAtEqualLoad(coin: bool)
    ensures IsBetterThan(Meta(Finite(0.0), 7, 0), Meta(Finite(0.0), 3, 0), ExampleThresholds, coin)
  {
    FiniteDifference(0.0, 0.0);
    assert LocationMask(Finite(0.0), ExampleThresholds) == 7;
    assert DeltaLocation(Meta(Finite(0.0), 7, 0), Meta(Finite(0.0), 3, 0), ExampleThresholds) == 4;
  }

  /** A load 0.3 higher (above the zone threshold 0.2) escapes the zone: the region wins. */
  lemma LoadEscapesZone(coin: bool)
    ensures IsBetterThan(Meta(Finite(0.0), 3, 0), Meta(Finite(0.3), 7, 0), ExampleThresholds, coin)
  {
    FiniteDifference(0.0, 0.3);
  }

  /** A load 0.6 higher (above the region threshold 0.5) escapes the region: the area wins. */
  lemma LoadEscapesRegion(coin: bool)
    ensures IsBetterThan(Meta(Finite(0.0), 1, 0), Meta(Finite(0.6), 7, 0), ExampleThresholds, coin)
  {
    FiniteDifference(0.0, 0.6);
  }

  /** A load 0.95 higher (above the area threshold 0.9) escapes the area: a remote candidate wins. */
  lemma LoadEscapesArea(coin: bool)
    ensures IsBetterThan(Meta(Finite(0.0), 0, 0), Meta(Finite(0.95), 7, 0), ExampleThresholds, coin)
  {
    FiniteDifference(0.0, 0.95);
  }

  /** Below every threshold a difference in location still decides. */
  lemma SmallLoadDifferenceKeepsZone(coin: bool)
    ensures IsBetterThan(Meta(Finite(0.15), 7, 0), Meta(Finite(0.0), 3, 0), ExampleThresholds, coin)
  {
    FiniteDifference(0.15, 0.0);
    assert LocationMask(Finite(0.15), ExampleThresholds) == 7;
    assert DeltaLocation(Meta(Finite(0.15), 7, 0), Meta(Finite(0.0), 3, 0), ExampleThresholds) == 4;
  }

  /** In the same zone the lower load wins. */
  lemma LowerLoadWins(coin: bool)
    ensures IsBetterThan(Meta(Finite(0.0), 7, 0), Meta(Finite(0.15), 7, 0), ExampleThresholds, coin)
  {
    FiniteDifference(0.0, 0.15);
  }

  /** At the same location and load the fewer sessions win. */
  lemma FewerSessionsWin(coin: bool)
    ensures IsBetterThan(Meta(Finite(0.0), 7, 0), Meta(Finite(0.0), 7, 20), ExampleThresholds, coin)
  {
    FiniteDifference(0.0, 0.0);
  }

  /**
   * With a zero maxRequestsPerSecond and non-negative send rates, every load
   * is an infinity or NaN and so every difference of loads is NaN: load
   * neither escapes a location nor decides, and the full location score, then
   * the sessions, then the coin decide.
   */
  lemma ZeroDivisorIgnoresLoad(a: Meta, b: Meta, th: Thresholds, coin: bool, sentA: real, sentB: real)
    requires sentA >= 0.0 && sentB >= 0.0
    requires a.load == Divide(sentA, 0.0) && b.load == Divide(sentB, 0.0)
    ensures Minus(a.load, b.load).NaN?
    ensures IsBetterThan(a, b, th, coin) ==
              if a.locationBits % 8 != b.locationBits % 8 then a.locationBits % 8 > b.locationBits % 8
              else if AbsInt(a.sessionCount - b.sessionCount) > SessionTolerance then a.sessionCount < b.sessionCount
              else coin
  {
  }

  // ---------------------------------------------------------------- choose

  /** The location cache's key: stats are equal when their instances' class, id and service name are. */
  type StatsKey = (InstanceClass, string, string)

  function Key(s: ServerStats): StatsKey
  {
    (s.server.kind, s.server.ep.id, s.server.ep.serviceName)
  }

  /** getLocationFromServer's zone: a discovery-backed instance's availability zone, else "default". */
  function ZoneOf(s: ServerInstance): string
  {
    match s.info
    case None => Default
    case Some(d) => match d.availabilityZone
      case None => Default
      case Some(z) => z
  }

  /**
   * What choose reads of a candidate's stats: its cache key, the location
   * the cache loader parses from its zone (None: the loader throws), its
   * sent-message rate and its open sessions.
   */
  datatype Candidate = Candidate(key: StatsKey, parsed: Option<Location>, sent: real, sessions: int)

  function CandidateOf(s: ServerStats): Candidate
    reads s
  {
    Candidate(Key(s), ParseLocation(ZoneOf(s.server)), s.sentMessagesPerSecond, s.openSessions)
  }

  /** The candidates as choose reads them, in order. */
  function Views(cs: seq<ServerStats>): (vs: seq<Candidate>)
    reads set i | 0 <= i < |cs| :: cs[i]
    ensures |vs| == |cs|
    ensures forall i | 0 <= i < |cs| :: vs[i] == CandidateOf(cs[i])
  {
    seq(|cs|, i requires 0 <= i < |cs| reads set j | 0 <= j < |cs| :: cs[j] => CandidateOf(cs[i]))
  }

  /** The loading cache: the cached location, or the one the loader parses from the candidate's zone. */
  function Lookup(cache: map<StatsKey, Location>, c: Candidate): (r: Option<Location>)
  {
    if c.key in cache then Some(cache[c.key]) else c.parsed
  }

  /** One more request counted against an availability zone. */
  function CountRequest(counts: map<string, nat>, zone: string): (r: map<string, nat>)
    ensures r.Keys == counts.Keys + {zone}
    ensures r[zone] == (if zone in counts then counts[zone] else 0) + 1
    ensures forall z | z in counts && z != zone :: r[z] == counts[z]
  {
    counts[zone := (if zone in counts then counts[zone] else 0) + 1]
  }

  /** `b` agrees with `a` on every key of `a`. */
  predicate Extends<K, V(==)>(a: map<K, V>, b: map<K, V>)
  {
    forall k | k in a :: k in b && b[k] == a[k]
  }

  /**
   * Where the scan stands: the location cache, the index of the best
   * candidate so far (-1 for none), its score and location, and whether a
   * location lookup has thrown.
   */
  datatype ZoneScan = ZoneScan(cache: map<StatsKey, Location>, best: int, bestMeta: Meta,
                               bestLocation: Location, failed: bool)

  class ZoneAwareLoadBalancer {
    const serviceName: string
    const myLocation: Location
    const maxRequestsPerSecond: real
    const thresholds: Thresholds
    /** Whether a metric registry was given, so that picks are counted per availability zone. */
    const countsRequests: bool

    /** The location cache, keyed by the stats' instance class, id and service name. */
    var locations: map<StatsKey, Location>
    /** The az-requests counters. */
    var zoneRequests: map<string, nat>

    /** A candidate's score relative to this balancer's own location. */
    function MetaOf(loc: Location, c: Candidate): (m: Meta)
      ensures m.locationBits == LocationBits(myLocation, loc)
      ensures maxRequestsPerSecond != 0.0 ==> m.load.Finite? && m.load.value * maxRequestsPerSecond == c.sent
      ensures maxRequestsPerSecond == 0.0 ==> !m.load.Finite? && (m.load.NaN? <==> c.sent == 0.0)
      ensures m.sessionCount == c.sessions
    {
      Meta(Divide(c.sent, maxRequestsPerSecond), LocationBits(myLocation, loc), c.sessions)
    }

    /** The scan looking at candidate `i`, for which isAvailable answered `available`. */
    function Step(st: ZoneScan, c: Candidate, i: int, available: bool, coin: bool): ZoneScan
    {
      if st.failed || !available then st
      else
        match Lookup(st.cache, c)
        case None => st.(failed := true)
        case Some(loc) =>
          var cache := st.cache[c.key := loc];
          var meta := MetaOf(loc, c);
          if st.best == -1 || IsBetterThan(meta, st.bestMeta, thresholds, coin)
          then ZoneScan(cache, i, meta, loc, false)
          else st.(cache := cache)
    }

    /** The scan after the first `n` candidates; candidate j's coin flip is coin(j). */
    function Scan(cache: map<StatsKey, Location>, vs: seq<Candidate>, keep: seq<bool>, coin: nat -> bool,
                  n: nat): ZoneScan
      requires |keep| == |vs| && n <= |vs|
      decreases n
    {
      if n == 0 then ZoneScan(cache, -1, Meta(Finite(0.0), 0, 0), DefaultLocation, false)
      else Step(Scan(cache, vs, keep, coin, n - 1), vs[n - 1], n - 1, keep[n - 1], coin(n - 1))
    }

    /** The score of candidate j, with its location as the cache holds it. */
    function MetaIn(cache: map<StatsKey, Location>, vs: seq<Candidate>, j: int): Meta
      requires 0 <= j < |vs| && vs[j].key in cache
    {
      MetaOf(cache[vs[j].key], vs[j])
    }

    /** A step only adds to the cache. */
    lemma StepExtends(st: ZoneScan, c: Candidate, i: int, available: bool, coin: bool)
      ensures Extends(st.cache, Step(st, c, i, available, coin).cache)
    {
    }

    /** The scan only adds to the cache it started with, and each step adds to what the earlier ones left. */
    lemma {:induction false} ScanExtends(cache: map<StatsKey, Location>, vs: seq<Candidate>, keep: seq<bool>,
                                         coin: nat -> bool, m: nat, n: nat)
      requires |keep| == |vs| && m <= n <= |vs|
      ensures Extends(cache, Scan(cache, vs, keep, coin, n).cache)
      ensures Extends(Scan(cache, vs, keep, coin, m).cache, Scan(cache, vs, keep, coin, n).cache)
      decreases n
    {
      if n > 0 {
        var prev := Scan(cache, vs, keep, coin, n - 1);
        StepExtends(prev, vs[n - 1], n - 1, keep[n - 1], coin(n - 1));
        if m < n {
          ScanExtends(cache, vs, keep, coin, m, n - 1);
        } else {
          ScanExtends(cache, vs, keep, coin, 0, n - 1);
        }
      }
    }

    /** What the cache gains is the parsed zone of a scanned candidate with that key. */
    lemma {:induction false} CacheFromZones(cache: map<StatsKey, Location>, vs: seq<Candidate>,
                                            keep: seq<bool>, coin: nat -> bool, n: nat)
      requires |keep| == |vs| && n <= |vs|
      ensures var st := Scan(cache, vs, keep, coin, n);
              forall k | k in st.cache && k !in cache ::
                exists j | 0 <= j < n :: vs[j].key == k && vs[j].parsed == Some(st.cache[k])
      decreases n
    {
      if n > 0 {
        CacheFromZones(cache, vs, keep, coin, n - 1);
        var prev := Scan(cache, vs, keep, coin, n - 1);
        var st := Scan(cache, vs, keep, coin, n);
        if st.cache != prev.cache {
          var key := vs[n - 1].key;
          assert key !in prev.cache && st.cache == prev.cache[key := vs[n - 1].parsed.value];
          forall k | k in st.cache && k !in cache
            ensures exists j | 0 <= j < n :: vs[j].key == k && vs[j].parsed == Some(st.cache[k])
          {
            if k == key {
              assert vs[n - 1].key == k;
            }
          }
        }
      }
    }

    /** Without a failure every available candidate's location is in the cache. */
    lemma {:induction false} NoFailureCachesAll(cache: map<StatsKey, Location>, vs: seq<Candidate>,
                                                keep: seq<bool>, coin: nat -> bool, n: nat)
      requires |keep| == |vs| && n <= |vs|
      requires !Scan(cache, vs, keep, coin, n).failed
      ensures forall j | 0 <= j < n && keep[j] :: vs[j].key in Scan(cache, vs, keep, coin, n).cache
      decreases n
    {
      if n > 0 {
        var prev := Scan(cache, vs, keep, coin, n - 1);
        assert !prev.failed;
        NoFailureCachesAll(cache, vs, keep, coin, n - 1);
        StepExtends(prev, vs[n - 1], n - 1, keep[n - 1], coin(n - 1));
      }
    }

    /** A failed scan met an available candidate whose zone does not parse and whose key is not cached. */
    lemma {:induction false} FailureHasCause(cache: map<StatsKey, Location>, vs: seq<Candidate>,
                                             keep: seq<bool>, coin: nat -> bool, n: nat)
      requires |keep| == |vs| && n <= |vs|
      requires Scan(cache, vs, keep, coin, n).failed
      ensures exists j | 0 <= j < n :: keep[j] && vs[j].key !in Scan(cache, vs, keep, coin, n).cache
                                       && vs[j].parsed.None?
      decreases n
    {
      var prev := Scan(cache, vs, keep, coin, n - 1);
      var st := Scan(cache, vs, keep, coin, n);
      if prev.failed {
        FailureHasCause(cache, vs, keep, coin, n - 1);
        assert st == prev;
      } else {
        assert keep[n - 1] && vs[n - 1].key !in st.cache && vs[n - 1].parsed.None?;
      }
    }

    /**
     * Without a failure there is a best candidate exactly when some
     * candidate was available; it is available, carries its own location
     * and score, and no available candidate after it was found better.
     */
    lemma {:induction false} BestFacts(cache: map<StatsKey, Location>, vs: seq<Candidate>,
                                       keep: seq<bool>, coin: nat -> bool, n: nat)
      requires |keep| == |vs| && n <= |vs|
      ensures var st := Scan(cache, vs, keep, coin, n);
              && (!st.failed ==> (st.best == -1 <==> forall j | 0 <= j < n :: !keep[j]))
              && (!st.failed && st.best != -1 ==> BestOf(st, vs, keep, coin, n))
      decreases n
    {
      if n > 0 {
        BestFacts(cache, vs, keep, coin, n - 1);
        var prev := Scan(cache, vs, keep, coin, n - 1);
        var st := Scan(cache, vs, keep, coin, n);
        StepExtends(prev, vs[n - 1], n - 1, keep[n - 1], coin(n - 1));
        if !prev.failed {
          NoFailureCachesAll(cache, vs, keep, coin, n - 1);
        }
        if !st.failed && st.best != -1 && st.best != n - 1 {
          BestOfExtends(prev, st, vs, keep, coin, n);
        }
      }
    }

    /** The best candidate of a scan state: available, with its own location and score, unbeaten after it. */
    predicate BestOf(st: ZoneScan, vs: seq<Candidate>, keep: seq<bool>, coin: nat -> bool, n: nat)
      requires |keep| == |vs| && n <= |vs|
    {
      && 0 <= st.best < n && keep[st.best] && vs[st.best].key in st.cache
      && st.bestLocation == st.cache[vs[st.best].key]
      && st.bestMeta == MetaIn(st.cache, vs, st.best)
      && forall j | st.best < j < n && keep[j] ::
           vs[j].key in st.cache && !IsBetterThan(MetaIn(st.cache, vs, j), st.bestMeta, thresholds, coin(j))
    }

    /** A best candidate that the next step keeps stays the best. */
    lemma BestOfExtends(prev: ZoneScan, st: ZoneScan, vs: seq<Candidate>, keep: seq<bool>, coin: nat -> bool, n: nat)
      requires |keep| == |vs| && 0 < n <= |vs|
      requires st == Step(prev, vs[n - 1], n - 1, keep[n - 1], coin(n - 1))
      requires !prev.failed && !st.failed && prev.best != -1 && st.best == prev.best
      requires BestOf(prev, vs, keep, coin, n - 1)
      ensures BestOf(st, vs, keep, coin, n)
    {
      assert Extends(prev.cache, st.cache);
    }

    /** Once a failed lookup has stopped the scan, the later candidates change nothing. */
    lemma {:induction false} ScanStaysFailed(cache: map<StatsKey, Location>, vs: seq<Candidate>,
                                             keep: seq<bool>, coin: nat -> bool, i: nat, n: nat)
      requires |keep| == |vs| && i <= n <= |vs|
      requires Scan(cache, vs, keep, coin, i).failed
      ensures Scan(cache, vs, keep, coin, n) == Scan(cache, vs, keep, coin, i)
      decreases n - i
    {
      if i < n {
        ScanStaysFailed(cache, vs, keep, coin, i, n - 1);
      }
    }

    /** The scan has stopped: every candidate was looked at, or a lookup threw. */
    lemma ScanStops(cache: map<StatsKey, Location>, vs: seq<Candidate>, keep: seq<bool>, coin: nat -> bool,
                    i: nat)
      requires |keep| == |vs| && i <= |vs|
      requires i == |vs| || Scan(cache, vs, keep, coin, i).failed
      ensures Scan(cache, vs, keep, coin, |vs|) == Scan(cache, vs, keep, coin, i)
    {
      if i < |vs| {
        ScanStaysFailed(cache, vs, keep, coin, i, |vs|);
      }
    }

    /** The load balancer for a service, placed at `myLocation`, with an empty location cache. */
    constructor (serviceName: string, myLocation: Location, maxRequestsPerSecond: real,
                 thresholds: Thresholds, countsRequests: bool)
      requires serviceName != []
      ensures this.serviceName == serviceName && this.myLocation == myLocation
      ensures this.maxRequestsPerSecond == maxRequestsPerSecond && this.thresholds == thresholds
      ensures this.countsRequests == countsRequests
      ensures locations == map[] && zoneRequests == map[]
    {
      this.serviceName := serviceName;
      this.myLocation := myLocation;
      this.maxRequestsPerSecond := maxRequestsPerSecond;
      this.thresholds := thresholds;
      this.countsRequests := countsRequests;
      locations := map[];
      zoneRequests := map[];
    }

    /** getZone: the balancer's own availability zone. */
    function GetZone(): (z: string)
      ensures z == myLocation.availabilityZone
    {
      myLocation.availabilityZone
    }

    /** What choose returns once the scan is over. */
    function Outcome(st: ZoneScan, cs: seq<ServerStats>): Choice
    {
      if st.failed then Threw else if 0 <= st.best < |cs| then Picked(cs[st.best]) else NoServer
    }

    /**
     * choose's result: no server exactly when no candidate is available; an
     * exception only when an available candidate's zone does not parse;
     * otherwise the best candidate of the scan.
     */
    lemma OutcomeFacts(cache: map<StatsKey, Location>, cs: seq<ServerStats>, vs: seq<Candidate>,
                       keep: seq<bool>, coin: nat -> bool)
      requires |keep| == |vs| == |cs|
      ensures var st := Scan(cache, vs, keep, coin, |vs|);
              var r := Outcome(st, cs);
              && (r.NoServer? <==> forall j | 0 <= j < |cs| :: !keep[j])
              && (r.Threw? ==> exists j | 0 <= j < |cs| :: keep[j] && vs[j].parsed.None?)
              && (r.Picked? ==> r.stats == cs[st.best] && BestOf(st, vs, keep, coin, |vs|))
    {
      var st := Scan(cache, vs, keep, coin, |vs|);
      BestFacts(cache, vs, keep, coin, |vs|);
      if st.failed {
        FailureHasCause(cache, vs, keep, coin, |vs|);
      }
    }

    /**
     * choose: scan the candidates in order, skipping unavailable ones, and
     * keep the better of the best so far and each next one; count the pick
     * against its availability zone when a registry was given. A location
     * that cannot be parsed makes the call throw.
     */
    method Choose(cs: seq<ServerStats>, now: int, coin: nat -> bool) returns (r: Choice)
      modifies this, Servers(cs)`shortCircuited
      ensures var st := Scan(old(locations), old(Views(cs)), old(Availability(cs, now)), coin, |cs|);
              && r == Outcome(st, cs)
              && locations == st.cache
              && zoneRequests == (if r.Picked? && countsRequests
                                  then CountRequest(old(zoneRequests), st.bestLocation.availabilityZone)
                                  else old(zoneRequests))
      ensures forall j | 0 <= j < |cs| :: Observed(cs[j].server, now)
    {
      if |cs| == 0 {
        return NoServer;
      }
      var st := ScanCandidates(cs, locations, now, coin);
      locations := st.cache;
      r := Outcome(st, cs);
      if r.Picked? && countsRequests {
        zoneRequests := CountRequest(zoneRequests, st.bestLocation.availabilityZone);
      }
    }

    /** Candidate i's turn in the scan, with isAvailable's answer `ok` for it. */
    method Advance(st: ZoneScan, ghost cache: map<StatsKey, Location>, vs: seq<Candidate>, ghost keep: seq<bool>,
                   coin: nat -> bool, i: nat, ok: bool)
      returns (next: ZoneScan)
      requires |keep| == |vs| && i < |vs|
      requires st == Scan(cache, vs, keep, coin, i) && ok == keep[i]
      ensures next == Scan(cache, vs, keep, coin, i + 1)
    {
      next := Step(st, vs[i], i, ok, coin(i));
    }

    /** The scan of choose, asking each candidate's instance whether it is available until a lookup throws. */
    method ScanCandidates(cs: seq<ServerStats>, cache: map<StatsKey, Location>, now: int, coin: nat -> bool)
      returns (st: ZoneScan)
      modifies Servers(cs)`shortCircuited
      ensures st == Scan(cache, old(Views(cs)), old(Availability(cs, now)), coin, |cs|)
      ensures forall j | 0 <= j < |cs| :: Observed(cs[j].server, now)
    {
      ghost var snap := Snapshot(cs, now);
      SnapshotFacts(cs, now);
      st := ScanLoop(cs, Views(cs), cache, now, coin, snap, Servers(cs));
      ObservedEach(cs, snap, now);
    }

    /**
     * The loop of the scan over the candidates `cs`, read as `vs`; the
     * instances show `snap` and are only looked at.
     */
    method ScanLoop(cs: seq<ServerStats>, vs: seq<Candidate>, cache: map<StatsKey, Location>, now: int,
                          coin: nat -> bool, ghost snap: map<ServerInstance, Look>, ghost instances: set<ServerInstance>)
      returns (st: ZoneScan)
      requires |vs| == |cs| && AllObserved(cs, snap, now) && instances == Servers(cs)
      modifies instances`shortCircuited
      ensures st == Scan(cache, vs, KeepOf(cs, snap), coin, |cs|)
      ensures AllObserved(cs, snap, now)
    {
      ghost var keep := KeepOf(cs, snap);
      st := ZoneScan(cache, -1, Meta(Finite(0.0), 0, 0), DefaultLocation, false);
      var i := 0;
      while i < |cs| && !st.failed
        invariant 0 <= i <= |cs|
        invariant st == Scan(cache, vs, keep, coin, i)
        invariant AllObserved(cs, snap, now)
        modifies instances`shortCircuited
        decreases |cs| - i
      {
        var ok := ProbeAt(cs, i, now, snap);
        st := Advance(st, cache, vs, keep, coin, i, ok);
        i := i + 1;
      }
      ScanStops(cache, vs, keep, coin, i);
    }
  }

  /**
   * The constructor's checks: the service name and zone must not be empty,
   * and a zone whose digits overflow an int makes it throw (None).
   */
  method NewZoneAwareLoadBalancer(serviceName: string, myZone: string, maxRequestsPerSecond: real,
                                  thresholds: Thresholds, countsRequests: bool)
    returns (r: Option<ZoneAwareLoadBalancer>)
    requires serviceName != [] && myZone != []
    ensures r.None? <==> ParseLocation(myZone).None?
    ensures r.Some? ==> fresh(r.value) && r.value.myLocation == ParseLocation(myZone).value
    ensures r.Some? ==> r.value.serviceName == serviceName && r.value.maxRequestsPerSecond == maxRequestsPerSecond
    ensures r.Some? ==> r.value.thresholds == thresholds && r.value.countsRequests == countsRequests
    ensures r.Some? ==> r.value.locations == map[] && r.value.zoneRequests == map[]
  {
    var loc := ParseLocation(myZone);
    if loc.None? {
      return None;
    }
    var lb := new ZoneAwareLoadBalancer(serviceName, loc.value, maxRequestsPerSecond, thresholds, countsRequests);
    r := Some(lb);
  }
}
