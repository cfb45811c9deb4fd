# Janus in Dafny

A Dafny model of the core of Janus, a client-side library for service discovery and load balancing. The model follows the library's own components, one Dafny module per component:

- **Circuit breaker** (`CircuitBreaker`). The pure state machine of one server instance's breaker:
  - a trip opens the breaker with exponential back-off (`1.5^count * duration`, computed exactly), and the strike count resets after a quiet period;
  - a read clears an expired breaker lazily;
  - it answers the remaining open time.
- **Server instance** (`Instances`). The `ServerInstance` class:
  - its fields are updated in place by `tripCircuitBreaker`, `isShortCircuited`, `setAvailable` and `tick`;
  - availability is the conjunction of the available flag, the breaker and the expiry;
  - the availability listener fires only when availability flips;
  - the Eureka variants add staleness through `lastUpdateTime`, with a timeout of 125000 ms in one variant and 65000 ms in the other.
- **URL parsing** (`Endpoints`). `getHostInfoFromUrl` and `initialize`:
  - strip the scheme, which sets the secure and websocket flags;
  - drop the path;
  - derive the port or the websocket port;
  - build the id and the url.
- **Java semantics** (`JavaLang`). The parts of `java.lang` the code relies on: 32-bit wrap-around, `Integer.parseInt`, `String.trim`, `String.split`, `indexOf` and `String.hashCode`.
- **Server stats** (`Stats`). The `ServerStats` class:
  - open-request, open-session and message counters;
  - the one-second error window, which trips the breaker on every error at or past the threshold;
  - equality that follows the server instance.
- **Selection rules**:
  - `Balancing`: the availability filter shared by all rules;
  - `RandomBalancer` and `SeededRandomBalancer`: the two random balancers, one with an explicit empty check;
  - `SessionBalancer`: the session balancer, with its side table of local session counts;
  - `ZoneAware`: the zone-aware balancer, with `Location` parsing, `locationBits`, the escape-masked `isBetterThan` and the running-best scan with its location cache and zone counters.
- **Instance sources** (`ServerLists`, `EurekaLists`):
  - `ConstServerList` and `ConfigServerList` build available instances from URL strings;
  - the two `EurekaServerList` variants map registry descriptors to instances. The id is the IP address in one variant and the registry id in the other.
- **Coordinator** (`Coordinator`). The `Janus` class and its `updateServerList`:
  - it is rate-limited by `nextUpdateTime`;
  - it reconciles the map from id to stats in place;
  - it evicts every entry whose `tick()` fails;
  - its refresh gate is released on every exit path;
  - `getServer` delegates to the strategy.
- **REST clients** (`RestClients`). The do-while retry loops of `DefaultRestTemplateClient` and `DefaultRestHttpClient`, with their error classification and the bookkeeping on every attempt.

**Inputs.**
- The clock is a `now` parameter.
- Randomness is an oracle: an index chooser or a coin.
- The remote call of a REST client is an oracle on the attempt number and the URL.
- The strategy's server choice inside a REST client is an oracle on the attempt number.

**Stats factory failure.** A stats factory that cannot build stats for a new id makes `servers.put(id, null)` throw, so the rest of that refresh cycle is abandoned and the cache keeps what was done before it.

## Model

| member | source | states |
|---|---|---|
| `CircuitBreaker.Observe` | src/main/java/com/kixeye/core/janus/ServerInstance.java:149-157 | reading the breaker clears the flag exactly when the expiration has passed (`now - expiration >= 0`), answers the same as before the clear, and keeps the expiration and strike count |
| `CircuitBreaker.BackoffMonotone` | src/main/java/com/kixeye/core/janus/ServerInstance.java:200-202 | for a non-negative duration, more strikes never give a shorter timeout than `1.5^count * duration` with fewer strikes |
| `CircuitBreaker.BackoffNoStrikes` | src/main/java/com/kixeye/core/janus/ServerInstance.java:200-202 | with no strikes the timeout is exactly the duration |
| `CircuitBreaker.BackoffFiveStrikes` | src/main/java/com/kixeye/core/janus/ServerInstance.java:196-202 | five strikes give `243 * duration / 32`, at least seven durations |
| `CircuitBreaker.QuietTripLastsOneDuration` | src/main/java/com/kixeye/core/janus/ServerInstance.java:190-204 | a trip more than one duration after the previous expiration resets the count to 0, sets the flag and expires one duration later |
| `CircuitBreaker.RepeatedTripBacksOff` | src/main/java/com/kixeye/core/janus/ServerInstance.java:194-202 | a trip within one duration of the previous expiration counts at least 5 strikes and keeps the instance out for at least seven durations |
| `CircuitBreaker.TripOpensUntilExpiration` | src/main/java/com/kixeye/core/janus/ServerInstance.java:190-204 | after a trip with a positive duration the instance is short-circuited at every time from the trip up to, and not from, the new expiration |
| `CircuitBreaker.ObserveAfterExpiration` | src/main/java/com/kixeye/core/janus/ServerInstance.java:149-157 | once the expiration has passed, reading clears the flag and the breaker never reads as tripped again |
| `CircuitBreaker.ObserveIdempotent` | src/main/java/com/kixeye/core/janus/ServerInstance.java:149-157 | reading the breaker twice at one time leaves the same state as reading it once |
| `CircuitBreaker.RemainingTimeWhileOpen` | src/main/java/com/kixeye/core/janus/ServerInstance.java:211-219 | the remaining time is positive exactly while the breaker is tripped, and is then `(expiration - now) * 1000.0`; otherwise 0 |
| `CircuitBreaker.ShortCircuitScenario` | src/test/java/com/kixeye/core/janus/JanusTest.java:112-125 | with a 1000 ms duration, a first trip after a quiet period is over 1005 ms later, and a second trip right after it still holds 1005 ms later |
| `Instances.ServerInstance.constructor` | src/main/java/com/kixeye/core/janus/ServerInstance.java:64-84 | a new instance keeps its endpoint and its class, is unavailable and unannounced until its source says otherwise, has a reset breaker and, when discovery-backed, was updated now |
| `Instances.ServerInstance.IsShortCircuited` | src/main/java/com/kixeye/core/janus/ServerInstance.java:149-157 | answers whether the breaker holds at `now` and leaves the breaker as `Observe` says |
| `Instances.ServerInstance.IsAvailable` | src/main/java/com/kixeye/core/janus/ServerInstance.java:140-142 | answers exactly "not expired, not short-circuited and reported available"; the breaker is read (and cleared) only when the instance is not expired |
| `Instances.ServerInstance.SetAvailable` | janus-core/src/main/java/com/kixeye/janus/serverlist/EurekaServerInstance.java:62-66 | sets the reported flag; a discovery-backed instance also takes `now` as its update time, a plain one keeps its own |
| `Instances.ServerInstance.TripCircuitBreaker` | src/main/java/com/kixeye/core/janus/ServerInstance.java:190-204 | the breaker becomes `Trip` of the old one: count reset or raised to at least 5, expiration `now + 1.5^count * duration` truncated, flag set |
| `Instances.ServerInstance.GetCircuitBreakerRemainingTime` | src/main/java/com/kixeye/core/janus/ServerInstance.java:211-219 | returns the remaining time of the old breaker (positive exactly while it was tripped) and clears an expired flag |
| `Instances.ServerInstance.Tick` | src/main/java/com/kixeye/core/janus/ServerInstance.java:107-117 | records the current availability, notifies a registered listener only when it differs from the last one recorded, and returns whether the instance is not expired |
| `Instances.ServerInstance.SetListener` | src/main/java/com/kixeye/core/janus/ServerInstance.java:131-133 | registers or removes the availability listener |
| `Stats.RecentErrors` | src/main/java/com/kixeye/core/janus/ServerStats.java:87 | the one-second reservoir keeps exactly the error times within 1000 ms of `now`: every kept time was in the window and is recent, every recent time is kept, nothing is dropped when all are recent, everything when none is |
| `Stats.LastSamples` | src/main/java/com/kixeye/core/janus/ServerStats.java:83 | the latency histogram keeps the latest samples, at most 100, as a suffix of what was recorded, and all of them while there are no more than 100 |
| `Stats.ThirdErrorTrips` | src/test/java/com/kixeye/core/janus/JanusTest.java:92-98 | with threshold 3 and no recent errors, three errors within one second leave the breaker closed after the first two and trip it on the third |
| `Stats.KeepsTripping` | src/main/java/com/kixeye/core/janus/ServerStats.java:160-169 | there is no latch: an error that tripped the breaker is followed, while those errors are still recent, by an error that trips it again, the window growing by one |
| `Stats.ServerStats.constructor` | src/main/java/com/kixeye/core/janus/ServerStats.java:64-96 | stats built for a server start with every counter, the error window and the latency samples empty, 0 open requests and 0 open sessions |
| `Stats.ServerStats.IncrementOpenRequests` | src/main/java/com/kixeye/core/janus/ServerStats.java:111-113 | open requests go up by one |
| `Stats.ServerStats.DecrementOpenRequests` | src/main/java/com/kixeye/core/janus/ServerStats.java:118-120 | open requests go down by one, unguarded, so they can drop below 0 |
| `Stats.ServerStats.IncrementOpenSessions` | src/main/java/com/kixeye/core/janus/ServerStats.java:139-141 | open sessions go up by one |
| `Stats.ServerStats.DecrementOpenSessions` | src/main/java/com/kixeye/core/janus/ServerStats.java:146-148 | open sessions go down by one, unguarded |
| `Stats.ServerStats.IncrementSentMessages` | src/main/java/com/kixeye/core/janus/ServerStats.java:175-177 | the sent-message count goes up by one |
| `Stats.ServerStats.IncrementReceivedMessages` | src/main/java/com/kixeye/core/janus/ServerStats.java:189-191 | the received-message count goes up by one |
| `Stats.ServerStats.RecordLatency` | src/main/java/com/kixeye/core/janus/ServerStats.java:132-134 | the sample is appended to the histogram, which keeps the latest 100, and is its newest entry |
| `Stats.ServerStats.IncrementErrors` | src/main/java/com/kixeye/core/janus/ServerStats.java:160-169 | the error is counted and put in the one-second window; when the window then holds at least the threshold a trip is counted and the instance's breaker trips, otherwise breaker and trip count are kept |
| `Stats.SameStatsSameHash` | src/main/java/com/kixeye/core/janus/ServerStats.java:201-222 | stats equality (equal instances: same class, id and service name) is symmetric and equal stats have equal hash codes |
| `Endpoints.SchemeOf` | src/main/java/com/kixeye/core/janus/ServerInstance.java:311-327 | the recognised prefix (http, https, ws, wss, tried in that order, ignoring case) is never longer than the URL |
| `Endpoints.AuthorityOf` | src/main/java/com/kixeye/core/janus/ServerInstance.java:329-332 | what is kept of the URL holds no '/' |
| `Endpoints.ParseAuthority` | src/main/java/com/kixeye/core/janus/ServerInstance.java:334-344 | host and port split at the first ':'; a parsed host holds no ':' (and no '/' when the text had none) and the port is a Java int |
| `Endpoints.GetHostInfoFromUrl` | src/main/java/com/kixeye/core/janus/ServerInstance.java:307-345 | a parsed host holds neither ':' nor '/' and the port is a Java int |
| `Endpoints.SchemeOfPrefixed` | src/main/java/com/kixeye/core/janus/ServerInstance.java:311-327 | a URL that starts with a scheme's prefix is recognised as that scheme, despite "http://" being tried before "https://" and "ws://" before "wss://" |
| `Endpoints.AuthorityBeforePath` | src/main/java/com/kixeye/core/janus/ServerInstance.java:329-332 | everything from the first '/' on is dropped, and nothing before it |
| `Endpoints.ParseAuthorityWithPort` | src/main/java/com/kixeye/core/janus/ServerInstance.java:340-343 | with a ':' the host is the text before it and the port is the parse of all the text after it, or an error when that does not parse |
| `Endpoints.GetHostInfoParts` | src/main/java/com/kixeye/core/janus/ServerInstance.java:307-345 | a URL made of a scheme prefix, an authority and a path parses as its authority alone, with the scheme's flags |
| `Endpoints.UrlRoundTrip` | src/main/java/com/kixeye/core/janus/ServerInstance.java:307-345 | taking a rendered URL apart gives back its websocket and secure flags, its host, and its port, 80 when none is written |
| `Endpoints.MalformedPortFails` | src/main/java/com/kixeye/core/janus/ServerInstance.java:342 | a port text that Integer.valueOf rejects makes the URL parse fail |
| `Endpoints.InitializeUrlRoundTrip` | src/main/java/com/kixeye/core/janus/ServerInstance.java:300-304 | the URL an instance derives for itself parses back to its host, its http port and its secure flag |
| `Endpoints.FromUrl` | src/main/java/com/kixeye/core/janus/ServerInstance.java:64-71 | an instance built from a URL keeps the service name, has a host without ':', and has -1 in the http port or in the websocket port |
| `Endpoints.FromUrlIdentity` | src/main/java/com/kixeye/core/janus/ServerInstance.java:64-71 | a URL with a positive port gives id "host:port", its host and the scheme's secure flag; a websocket URL puts the port in the websocket slot and -1 in the http slot, any other URL the reverse |
| `Endpoints.FromUrlPlain` | src/main/java/com/kixeye/core/janus/ServerInstance.java:68-69 | a non-websocket URL initialises with its port as the http port and websocket port -1 |
| `Endpoints.FromUrlWebsocket` | src/main/java/com/kixeye/core/janus/ServerInstance.java:66-67 | a websocket URL initialises with http port -1 and its port as the websocket port |
| `Endpoints.LocalhostEndpoints` | src/main/java/com/kixeye/core/janus/ServerInstance.java:295-304 | "localhost" with port 8080 gets id "localhost:8080" and URL "http://localhost:8080"; a secure instance with only websocket port 8443 gets id "localhost:8443" and URL "https://localhost:-1" |
| `Endpoints.FromUrlHttpExample` | src/test/java/com/kixeye/janus/serverlist/ConstServerListTest.java:35-72 | "http://localhost:8080" gives id "localhost:8080", port 8080 and websocket port -1 |
| `Endpoints.FromUrlWebsocketExample` | src/main/java/com/kixeye/core/janus/ServerInstance.java:64-71 | "wss://localhost:8443/socket" gives http port -1, websocket port 8443, id "localhost:8443" and URL "https://localhost:-1" |
| `Endpoints.InstanceHash` | src/main/java/com/kixeye/core/janus/ServerInstance.java:261-266 | the hash `31 * hash(id) + hash(serviceName)` is a Java int |
| `Instances.SameInstanceConsistent` | src/main/java/com/kixeye/core/janus/ServerInstance.java:268-287 | instance equality (same class, id and service name) is reflexive, symmetric and transitive, equal instances hash alike, and a plain instance never equals a Eureka-backed one |
| `JavaLang.Wrap32` | src/main/java/com/kixeye/core/janus/ServerInstance.java:262-265 | the value an int variable keeps after an arithmetic result is stored in it: a Java int, equal to the result when that fits, and congruent to it modulo 2^32 |
| `JavaLang.ParseInt` | src/main/java/com/kixeye/core/janus/ServerInstance.java:342 | Integer.valueOf / parseInt succeeds only on non-empty text and yields a Java int, the value of the digits when the text is all digits |
| `JavaLang.ParseIntOfIntToString` | src/main/java/com/kixeye/janus/loadbalancer/ZoneAwareLoadBalancer.java:317 | parsing the text Java renders for an int gives that int back |
| `JavaLang.ParseIntIgnoresLeadingZero` | src/main/java/com/kixeye/janus/loadbalancer/ZoneAwareLoadBalancer.java:317 | a leading zero does not change what a run of digits parses to |
| `JavaLang.IndexOf` | src/main/java/com/kixeye/core/janus/ServerInstance.java:330 | String.indexOf gives -1 exactly when the char is absent, and otherwise the position of its first occurrence |
| `JavaLang.Trim` | src/main/java/com/kixeye/core/janus/serverlist/ConfigServerList.java:107 | trimmed text neither starts nor ends with a char up to ' ', and text that already does not is left alone |
| `JavaLang.TrimDropsOnlySpaces` | src/main/java/com/kixeye/janus/serverlist/ConstServerList.java:49 | trim keeps one contiguous middle part of the text and removes only spaces and control chars around it |
| `JavaLang.Fields` | src/main/java/com/kixeye/core/janus/serverlist/ConfigServerList.java:106 | the pieces between separators hold no separator and join back to the text |
| `JavaLang.DropTrailingEmpty` | src/main/java/com/kixeye/core/janus/serverlist/ConfigServerList.java:106 | what String.split keeps is a prefix of the pieces that ends in a non-empty one, and only empty pieces are dropped |
| `JavaLang.Split` | src/main/java/com/kixeye/core/janus/serverlist/ConfigServerList.java:106 | split with a one-char separator: no piece holds the separator; text without it is its own one piece; otherwise the last piece is not empty |
| `JavaLang.SplitOfJoin` | src/main/java/com/kixeye/janus/loadbalancer/ZoneAwareLoadBalancer.java:301 | splitting pieces joined with the separator gives the pieces back when the last one is not empty |
| `JavaLang.StringHash` | src/main/java/com/kixeye/core/janus/ServerInstance.java:263-264 | String.hashCode is a Java int |
| `Balancing.Filter` | src/main/java/com/kixeye/janus/loadbalancer/RandomLoadBalancer.java:50-55 | the kept list is never longer than the candidate list |
| `Balancing.FilterMembers` | src/main/java/com/kixeye/janus/loadbalancer/RandomLoadBalancer.java:50-55 | an element is kept exactly when some position holds it with its flag set |
| `Balancing.FilterEmpty` | src/main/java/com/kixeye/janus/loadbalancer/RandomLoadBalancer.java:58-60 | nothing is kept exactly when no flag is set |
| `Balancing.Availability` | src/main/java/com/kixeye/janus/loadbalancer/RandomLoadBalancer.java:52 | one flag per candidate, each being what isAvailable answers for that candidate's instance at the given instant |
| `Balancing.Probe` | src/main/java/com/kixeye/core/janus/ServerInstance.java:140-142 | isAvailable answers the availability the instance showed, and leaves the instance as it was apart from the lazy breaker clear |
| `Balancing.SnapshotFacts` | src/main/java/com/kixeye/janus/loadbalancer/RandomLoadBalancer.java:51-55 | a snapshot of the candidates' instances shows each one as it is, with the availability isAvailable would report |
| `Balancing.AvailableCandidates` | src/main/java/com/kixeye/janus/loadbalancer/RandomLoadBalancer.java:50-55 | the filter loop returns exactly the candidates available at the start, in order; availability is unchanged and an instance changes only by the lazy breaker clear |
| `RandomBalancer.Choose` | src/main/java/com/kixeye/janus/loadbalancer/RandomLoadBalancer.java:43-66 | null exactly when no candidate is available, otherwise the available candidate at the drawn index, so the only available one when there is one; the result was available and is one of the candidates |
| `SeededRandomBalancer.Choose` | janus-core/src/main/java/com/kixeye/janus/loadbalancer/RandomLoadBalancer.java:43-61 | the same choice without the early return: null exactly when no candidate is available, otherwise the available candidate at the drawn index |
| `SessionBalancer.EffectiveSessions` | src/main/java/com/kixeye/core/janus/loadbalancer/SessionLoadBalancer.java:143-158 | a tuple's count is always a Java int |
| `SessionBalancer.PublishedSessions` | src/main/java/com/kixeye/core/janus/loadbalancer/SessionLoadBalancer.java:148-153 | a published count is read back as the number it renders plus the local sessions |
| `SessionBalancer.UnpublishedRanksLast` | src/main/java/com/kixeye/core/janus/loadbalancer/SessionLoadBalancer.java:145-151 | an instance without metadata or without a "sessions" entry counts as Integer.MAX_VALUE, so no count is larger than its count |
| `SessionBalancer.FirstReject` | src/main/java/com/kixeye/core/janus/loadbalancer/SessionLoadBalancer.java:82-87 | the first available candidate that is not discovery-backed (where the cast throws), or the end of the list when there is none |
| `SessionBalancer.TableAfter` | src/main/java/com/kixeye/core/janus/loadbalancer/SessionLoadBalancer.java:86-96 | after the scan, every earlier entry remains and every available discovery-backed candidate scanned has an entry |
| `SessionBalancer.TableAfterKeys` | src/main/java/com/kixeye/core/janus/loadbalancer/SessionLoadBalancer.java:86-96 | the scan adds exactly the ids of the available discovery-backed candidates, and leaves every other entry as it was |
| `SessionBalancer.EntryOfLastRefresh` | src/main/java/com/kixeye/core/janus/loadbalancer/SessionLoadBalancer.java:88-96 | after the scan, an id's entry carries the registry timestamp of the last candidate with that id and the local count that candidate was ranked with |
| `SessionBalancer.NothingAvailableKeepsTable` | src/main/java/com/kixeye/core/janus/loadbalancer/SessionLoadBalancer.java:80-84 | when no candidate is available the side table is left as it was |
| `SessionBalancer.LeastFirstStep` | src/main/java/com/kixeye/core/janus/loadbalancer/SessionLoadBalancer.java:99-101 | one more position takes over a running minimum exactly when it undercuts the least so far, and the result is the first position with the least rank |
| `SessionBalancer.BestOfStep` | src/main/java/com/kixeye/core/janus/loadbalancer/SessionLoadBalancer.java:99-101 | one more candidate makes the best so far move to it exactly when the candidate is ranked and undercuts it |
| `SessionBalancer.ScanFacts` | src/main/java/com/kixeye/core/janus/loadbalancer/SessionLoadBalancer.java:77-116 | the scan stops exactly at the first rejected candidate, keeping the table as it stood there; otherwise its table is the refreshed one and its best is the first ranked candidate with the least count, or none when nothing is available |
| `SessionBalancer.ScanStaysRejected` | src/main/java/com/kixeye/core/janus/loadbalancer/SessionLoadBalancer.java:112-115 | once a rejected candidate has ended the scan, the later candidates change nothing |
| `SessionBalancer.SubtractionCompareWithoutOverflow` | src/main/java/com/kixeye/core/janus/loadbalancer/SessionLoadBalancer.java:133-138 | while the difference of the counts fits in an int, the comparator as written orders by count |
| `SessionBalancer.SubtractionCompareOverflows` | src/main/java/com/kixeye/core/janus/loadbalancer/SessionLoadBalancer.java:133-138 | the comparator as written puts Integer.MAX_VALUE (no published count) before -1, so the queue's head after offering -1 then MAX_VALUE is MAX_VALUE |
| `SessionBalancer.HeadOfTwo` | src/main/java/com/kixeye/core/janus/loadbalancer/SessionLoadBalancer.java:101 | under the intended order the head is the smaller count, and the first one on a tie |
| `SessionBalancer.SessionLoadBalancer.constructor` | src/main/java/com/kixeye/core/janus/loadbalancer/SessionLoadBalancer.java:58-67 | the side table starts empty |
| `SessionBalancer.SessionLoadBalancer.Choose` | src/main/java/com/kixeye/core/janus/loadbalancer/SessionLoadBalancer.java:76-116 | a rejected candidate gives null with the entries refreshed up to it; otherwise null exactly when nothing is available, and then the table is unchanged; a result is the first available discovery-backed candidate with the least count (by the intended comparison of counts, see the second finding), and its entry gains one session; instances change only by the lazy breaker clear |
| `SessionBalancer.ScanCandidates` | src/main/java/com/kixeye/core/janus/loadbalancer/SessionLoadBalancer.java:80-100 | the scan loop computes the reference scan over the availability at the start |
| `ZoneAware.RetainDigits` | src/main/java/com/kixeye/janus/loadbalancer/ZoneAwareLoadBalancer.java:308-309 | the kept chars are all digits and no more than the text, and all-digit text is kept whole |
| `ZoneAware.LocationHash` | src/main/java/com/kixeye/janus/loadbalancer/ZoneAwareLoadBalancer.java:357-362 | Location.hashCode is a Java int |
| `ZoneAware.ParseLocationIgnoresCase` | src/main/java/com/kixeye/janus/loadbalancer/ZoneAwareLoadBalancer.java:290 | the parsed location does not depend on the case of the zone text |
| `ZoneAware.DefaultZones` | src/main/java/com/kixeye/janus/loadbalancer/ZoneAwareLoadBalancer.java:292-295 | "default" and "unknown", in any case, give the default location |
| `ZoneAware.MalformedZone` | src/main/java/com/kixeye/janus/loadbalancer/ZoneAwareLoadBalancer.java:298-305 | a zone that is not three '-' separated parts is kept, lower-cased, with default region and area |
| `ZoneAware.WellFormedZone` | src/main/java/com/kixeye/janus/loadbalancer/ZoneAwareLoadBalancer.java:301-317 | a lower-case zone "a-b-c" whose third part holds an int-sized run of digits has area "a" and region "a-b-n", with n the number those digits denote |
| `ZoneAware.ParseThreeParts` | src/main/java/com/kixeye/janus/loadbalancer/ZoneAwareLoadBalancer.java:301-317 | a zone split into three parts whose third holds digits has the first part as area and the first two parts with the digits' number as region |
| `ZoneAware.ZoneLetterAfterDigit` | src/test/java/com/kixeye/janus/loadbalancer/LocationParsingTest.java:29-35 | "us-west-1a" is zone us-west-1a in region us-west-1 of area us |
| `ZoneAware.ZoneLetterBeforeDigit` | src/test/java/com/kixeye/janus/loadbalancer/LocationParsingTest.java:37-43 | "us-west-a1" is in the same region us-west-1 and area us |
| `ZoneAware.ZoneWithDigitOne` | src/main/java/com/kixeye/janus/loadbalancer/ZoneAwareLoadBalancer.java:307-317 | any zone "a-b-t" whose third part's only digit is 1 is in region "a-b-1" of area "a" |
| `ZoneAware.LocationBits` | src/main/java/com/kixeye/janus/loadbalancer/ZoneAwareLoadBalancer.java:150-160 | 7 exactly for the same zone, at least 3 exactly for the same zone or region, at least 1 exactly for the same zone, region or area |
| `ZoneAware.Divide` | src/main/java/com/kixeye/janus/loadbalancer/ZoneAwareLoadBalancer.java:148 | a double division: a finite quotient that times the divisor gives the dividend, or, for a zero divisor, NaN exactly for a zero dividend and positive infinity exactly for a positive one |
| `ZoneAware.MinusSwapped` | src/main/java/com/kixeye/janus/loadbalancer/ZoneAwareLoadBalancer.java:213-214 | swapping two loads keeps the size of their difference, and once that size is above a non-negative bound exactly one of the two differences is negative |
| `ZoneAware.ZeroDivisorIgnoresLoad` | src/main/java/com/kixeye/janus/loadbalancer/ZoneAwareLoadBalancer.java:148-258 | with a zero maxRequestsPerSecond and non-negative rates the load difference is NaN, so no location is escaped and load never decides: the full location score, then the sessions beyond the dead-band, then the coin decide |
| `ZoneAware.LocationMask` | src/main/java/com/kixeye/janus/loadbalancer/ZoneAwareLoadBalancer.java:217-227 | the mask is 0, 1, 3 or 7 |
| `ZoneAware.Antisymmetric` | src/main/java/com/kixeye/janus/loadbalancer/ZoneAwareLoadBalancer.java:212-261 | outside the coin-flip case exactly one of two candidates is better than the other, whatever the coins |
| `ZoneAware.CoinDecides` | src/main/java/com/kixeye/janus/loadbalancer/ZoneAwareLoadBalancer.java:252-258 | in the coin-flip case, which is symmetric, the coin alone decides |
| `ZoneAware.CloserWinsUnderSimilarLoad` | src/main/java/com/kixeye/janus/loadbalancer/ZoneAwareLoadBalancer.java:216-234 | a closer candidate wins when the loads differ by no more than every threshold |
| `ZoneAware.WinWithoutCoinStands` | src/main/java/com/kixeye/janus/loadbalancer/ZoneAwareLoadBalancer.java:212-261 | a win that holds with the coin false is outside the coin case and is never reversed |
| `ZoneAware.LocationDecidesAtEqualLoad` | src/test/java/com/kixeye/core/janus/loadbalancer/ServerComparisonTest.java:31-45 | at equal load the same-zone candidate beats the same-region one |
| `ZoneAware.LoadEscapesZone` | src/test/java/com/kixeye/core/janus/loadbalancer/ServerComparisonTest.java:47-61 | a load 0.3 higher (above the zone threshold 0.2) lets the same-region candidate win |
| `ZoneAware.LoadEscapesRegion` | src/test/java/com/kixeye/core/janus/loadbalancer/ServerComparisonTest.java:63-77 | a load 0.6 higher (above the region threshold 0.5) lets the same-area candidate win |
| `ZoneAware.LoadEscapesArea` | src/test/java/com/kixeye/core/janus/loadbalancer/ServerComparisonTest.java:79-93 | a load 0.95 higher (above the area threshold 0.9) lets a remote candidate win |
| `ZoneAware.SmallLoadDifferenceKeepsZone` | src/main/java/com/kixeye/janus/loadbalancer/ZoneAwareLoadBalancer.java:216-234 | below every threshold the closer candidate wins despite a higher load |
| `ZoneAware.LowerLoadWins` | src/test/java/com/kixeye/core/janus/loadbalancer/ServerComparisonTest.java:95-109 | in the same zone the lower load wins |
| `ZoneAware.FewerSessionsWin` | src/test/java/com/kixeye/core/janus/loadbalancer/ServerComparisonTest.java:111-125 | at the same location and load, 20 fewer sessions win |
| `ZoneAware.Views` | src/main/java/com/kixeye/janus/loadbalancer/ZoneAwareLoadBalancer.java:145-149 | one view per candidate, each being what the scan reads of that candidate |
| `ZoneAware.CountRequest` | src/main/java/com/kixeye/janus/loadbalancer/ZoneAwareLoadBalancer.java:171-182 | the zone's counter goes up by one, created at zero when missing, and every other counter stays |
| `ZoneAware.ZoneAwareLoadBalancer.MetaOf` | src/main/java/com/kixeye/janus/loadbalancer/ZoneAwareLoadBalancer.java:145-160 | the score holds the location bits against the balancer's own location, the open sessions, and the send rate divided by maxRequestsPerSecond: a finite load that times the divisor gives the rate, or, for a zero divisor, an infinity or NaN (NaN exactly for a zero rate) |
| `ZoneAware.ZoneAwareLoadBalancer.StepExtends` | src/main/java/com/kixeye/janus/loadbalancer/ZoneAwareLoadBalancer.java:146 | one step of the scan only adds to the location cache |
| `ZoneAware.ZoneAwareLoadBalancer.ScanExtends` | src/main/java/com/kixeye/janus/loadbalancer/ZoneAwareLoadBalancer.java:138-168 | the scan only adds to the location cache, and each step keeps what the earlier ones left |
| `ZoneAware.ZoneAwareLoadBalancer.CacheFromZones` | src/main/java/com/kixeye/janus/loadbalancer/ZoneAwareLoadBalancer.java:101-108 | every location the cache gains is the parsed zone of a scanned candidate with that key |
| `ZoneAware.ZoneAwareLoadBalancer.NoFailureCachesAll` | src/main/java/com/kixeye/janus/loadbalancer/ZoneAwareLoadBalancer.java:146 | without a failed lookup every available candidate's location ends up cached |
| `ZoneAware.ZoneAwareLoadBalancer.FailureHasCause` | src/main/java/com/kixeye/janus/loadbalancer/ZoneAwareLoadBalancer.java:146 | a failed scan met an available candidate whose zone does not parse and that was not cached |
| `ZoneAware.ZoneAwareLoadBalancer.BestFacts` | src/main/java/com/kixeye/janus/loadbalancer/ZoneAwareLoadBalancer.java:137-168 | without a failure there is a best candidate exactly when one was available; it is available, carries its cached location and score, and no later available candidate was found better |
| `ZoneAware.ZoneAwareLoadBalancer.ScanStaysFailed` | src/main/java/com/kixeye/janus/loadbalancer/ZoneAwareLoadBalancer.java:146 | once a lookup has thrown, the later candidates change nothing |
| `ZoneAware.ZoneAwareLoadBalancer.constructor` | src/main/java/com/kixeye/janus/loadbalancer/ZoneAwareLoadBalancer.java:95-116 | the balancer keeps its service name, location, load divisor (zero included), thresholds and whether it counts requests, with no cached location and no counters |
| `ZoneAware.NewZoneAwareLoadBalancer` | src/main/java/com/kixeye/janus/loadbalancer/ZoneAwareLoadBalancer.java:95-100 | construction fails exactly when the balancer's own zone does not parse, and otherwise gives a fresh balancer at the parsed location |
| `ZoneAware.ZoneAwareLoadBalancer.GetZone` | src/main/java/com/kixeye/janus/loadbalancer/ZoneAwareLoadBalancer.java:190-192 | getZone is the balancer's own availability zone |
| `ZoneAware.ZoneAwareLoadBalancer.OutcomeFacts` | src/main/java/com/kixeye/janus/loadbalancer/ZoneAwareLoadBalancer.java:163-187 | no server exactly when no candidate is available, an exception only when an available candidate's zone does not parse, and otherwise the scan's best candidate |
| `ZoneAware.ZoneAwareLoadBalancer.Choose` | src/main/java/com/kixeye/janus/loadbalancer/ZoneAwareLoadBalancer.java:124-188 | choose returns the outcome of the reference scan over the candidates as they were, stores the scan's cache, counts a pick against its zone only when a registry was given, and changes instances only by the lazy breaker clear |
| `ZoneAware.ZoneAwareLoadBalancer.ScanCandidates` | src/main/java/com/kixeye/janus/loadbalancer/ZoneAwareLoadBalancer.java:137-168 | the scan loop computes the reference scan over the availability and views at the start |
| `ServerLists.Present` | src/main/java/com/kixeye/janus/serverlist/ConstServerList.java:45-49 | the entries left once the null ones are skipped, trimmed, never more than the entries |
| `ServerLists.PresentMembers` | src/main/java/com/kixeye/janus/serverlist/ConstServerList.java:45-49 | exactly the trimmed texts of the non-null entries appear |
| `ServerLists.Collect` | src/main/java/com/kixeye/core/janus/serverlist/ConfigServerList.java:105-110 | all the parsed values, as many as there are entries, or the first error |
| `ServerLists.CollectFacts` | src/main/java/com/kixeye/core/janus/serverlist/ConfigServerList.java:105-110 | collecting succeeds exactly when every parse does, with their values in order; a failure is one of the parses' errors |
| `ServerLists.PrefixFailure` | src/main/java/com/kixeye/core/janus/serverlist/ConfigServerList.java:106-107 | a malformed URL among the first entries is the outcome for the whole list, whatever follows |
| `ServerLists.BuildAvailable` | src/main/java/com/kixeye/janus/serverlist/ConstServerList.java:45-52 | the loop succeeds exactly when every non-null entry's trimmed URL parses, fails with the first parse error otherwise, and builds one fresh distinct available instance per entry with that entry's endpoint, in order |
| `ServerLists.NewAvailableInstance` | src/main/java/com/kixeye/janus/serverlist/ConstServerList.java:49-50 | a new instance for the endpoint, marked available, with a closed breaker and no listener |
| `ServerLists.ConstServerList.constructor` | src/main/java/com/kixeye/janus/serverlist/ConstServerList.java:40-44 | the list keeps its service name and instances |
| `ServerLists.ConstServerList.GetListOfServers` | src/main/java/com/kixeye/janus/serverlist/ConstServerList.java:70-73 | every call returns the same instances |
| `ServerLists.NewConstServerList` | src/main/java/com/kixeye/janus/serverlist/ConstServerList.java:40-53 | the constructor succeeds exactly when every non-null URL parses, and then holds one fresh available instance per such URL with its endpoint, in order |
| `ServerLists.Pieces` | src/main/java/com/kixeye/core/janus/serverlist/ConfigServerList.java:99-106 | nothing for an absent or empty value, otherwise one entry per ','-separated piece |
| `ServerLists.PresentOfPieces` | src/main/java/com/kixeye/core/janus/serverlist/ConfigServerList.java:106-107 | every piece of the value is kept, trimmed, in order |
| `ServerLists.ConfigServerList.constructor` | src/main/java/com/kixeye/core/janus/serverlist/ConfigServerList.java:56-59 | a new list keeps its service name and starts with no instances |
| `ServerLists.ConfigServerList.GetListOfServers` | src/main/java/com/kixeye/core/janus/serverlist/ConfigServerList.java:93-96 | the current instances |
| `ServerLists.ConfigServerList.ConvertPropertyToList` | src/main/java/com/kixeye/core/janus/serverlist/ConfigServerList.java:98-112 | an absent or empty value empties the list; otherwise it succeeds exactly when every piece's URL parses, and then the new list holds one fresh available instance per piece, in order; a malformed URL leaves the old list |
| `ServerLists.NewConfigServerList` | src/main/java/com/kixeye/core/janus/serverlist/ConfigServerList.java:56-76 | construction converts the current value at once and succeeds exactly when that conversion does |
| `ServerLists.TwoUrlPieces` | src/main/java/com/kixeye/core/janus/serverlist/ConfigServerList.java:106-107 | two comma-free URLs joined by ',' give back the two URLs |
| `ServerLists.ParseTwoPieces` | src/main/java/com/kixeye/core/janus/serverlist/ConfigServerList.java:105-110 | two comma-free well-formed URLs joined by ',' give both endpoints, in order |
| `ServerLists.TwoLocalhostUrls` | src/test/java/com/kixeye/core/janus/serverlist/ConfigServerListTest.java:33-51 | "http://localhost:8080,http://localhost:8180" gives two instances with ids localhost:8080 and localhost:8180 and ports 8080 and 8180 |
| `EurekaLists.MetadataPort` | src/main/java/com/kixeye/core/janus/serverlist/EurekaServerList.java:103-115 | -1 without metadata or without the key; otherwise the parsed port, or the parse error when the text is not an int |
| `EurekaLists.DescribeEach` | src/main/java/com/kixeye/core/janus/serverlist/EurekaServerList.java:94-121 | one endpoint result per registry descriptor, in order |
| `EurekaLists.EurekaServerList.constructor` | src/main/java/com/kixeye/core/janus/serverlist/EurekaServerList.java:67-75 | the list keeps its service name, variant, secure and internal-IP flags and instance timeout |
| `EurekaLists.EurekaServerList.GetServiceName` | src/main/java/com/kixeye/core/janus/serverlist/EurekaServerList.java:81-84 | the configured service name |
| `EurekaLists.EurekaServerList.Results` | src/main/java/com/kixeye/core/janus/serverlist/EurekaServerList.java:94-121 | one endpoint result per descriptor |
| `EurekaLists.Describe` | src/main/java/com/kixeye/core/janus/serverlist/EurekaServerList.java:95-118 | the endpoint of the i-th descriptor under the list's settings |
| `EurekaLists.Discover` | src/main/java/com/kixeye/core/janus/serverlist/EurekaServerList.java:92-122 | the loop over the descriptors: it succeeds exactly when every descriptor's metadata ports parse, fails with the first such error otherwise, and builds one fresh distinct instance of the variant's class per descriptor, in order, available exactly when the registry says UP |
| `EurekaLists.DiscoverOne` | src/main/java/com/kixeye/core/janus/serverlist/EurekaServerList.java:95-120 | one pass of that loop: the error of descriptor i, or the list so far with one fresh distinct instance for it appended, every earlier instance kept |
| `EurekaLists.EurekaServerList.GetListOfServers` | src/main/java/com/kixeye/core/janus/serverlist/EurekaServerList.java:91-123 | succeeds exactly when every descriptor's metadata ports parse, fails with the first such error otherwise, and builds one fresh distinct discovery-backed instance per descriptor, in order, available exactly when the registry says UP |
| `EurekaLists.AppendDiscovered` | src/main/java/com/kixeye/core/janus/serverlist/EurekaServerList.java:118-120 | the list so far keeps its instances and gains one fresh distinct instance for the next descriptor |
| `EurekaLists.NewDiscoveredInstance` | src/main/java/com/kixeye/core/janus/serverlist/EurekaServerList.java:118-119 | a new instance with the descriptor attached, the variant's timeout, available exactly when the status is UP |
| `EurekaLists.DescribedFields` | janus-core/src/main/java/com/kixeye/janus/serverlist/EurekaServerList.java:107-131 | the instance built for a descriptor has the IP address (janus-core) or the instance id (core) as id, the IP address or the hostname as host, the list's secure flag, the descriptor's port, and the metadata websocket port matching the secure flag |
| `EurekaLists.NoMetadataNoWebsocket` | src/main/java/com/kixeye/core/janus/serverlist/EurekaServerList.java:103-106 | a descriptor without metadata gets websocket port -1, whatever the secure flag |
| `EurekaLists.MalformedUnusedPortThrows` | src/main/java/com/kixeye/core/janus/serverlist/EurekaServerList.java:107-110 | a malformed plain websocket port throws even for a secure list, which does not use it |
| `EurekaLists.ExpiredIffTimeoutPassed` | src/main/java/com/kixeye/core/janus/serverlist/EurekaServerInstance.java:58-60 | a discovery-backed instance is stale exactly when more than the timeout has passed since its last update |
| `EurekaLists.DiscoveredNotExpired` | src/main/java/com/kixeye/core/janus/serverlist/EurekaServerInstance.java:62-66 | a just-listed instance is not stale under a non-negative timeout, and is available exactly when the registry says UP |
| `Coordinator.SyncTrace` | src/main/java/com/kixeye/core/janus/Janus.java:178-186 | one reference state per prefix of the listed instances |
| `Coordinator.SyncTraceSteps` | src/main/java/com/kixeye/core/janus/Janus.java:178-186 | consecutive reference states are one reconciliation step apart |
| `Coordinator.StepFacts` | src/main/java/com/kixeye/core/janus/Janus.java:179-185 | a step keeps every cached entry, caches the listed id unless the factory throws, and caches no instance but the listed one |
| `Coordinator.SyncKeeps` | src/main/java/com/kixeye/core/janus/Janus.java:179-185 | reconciliation never replaces or drops a cached entry |
| `Coordinator.SyncNotAborted` | src/main/java/com/kixeye/core/janus/Janus.java:183 | a refresh that has not aborted had not aborted earlier either |
| `Coordinator.SyncCachesListed` | src/main/java/com/kixeye/core/janus/Janus.java:178-186 | a completed reconciliation caches every listed id |
| `Coordinator.SyncNewOwner` | src/main/java/com/kixeye/core/janus/Janus.java:182-185 | an id not cached before is cached with the first listed instance that has it |
| `Coordinator.SyncOwnersFrom` | src/main/java/com/kixeye/core/janus/Janus.java:182-185 | an id neither cached nor listed is not cached afterwards |
| `Coordinator.SyncOwnIds` | src/main/java/com/kixeye/core/janus/Janus.java:179-184 | every entry stays under its own instance's id |
| `Coordinator.SyncOwnersWithin` | src/main/java/com/kixeye/core/janus/Janus.java:178-186 | only cached or listed instances end up cached |
| `Coordinator.SyncUntouched` | src/main/java/com/kixeye/core/janus/Janus.java:181 | an instance whose availability is never set keeps its flag |
| `Coordinator.SyncTouchedIds` | src/main/java/com/kixeye/core/janus/Janus.java:179-181 | only instances cached under listed ids have their availability set |
| `Coordinator.SyncFollowsSource` | src/main/java/com/kixeye/core/janus/Janus.java:178-186 | with distinct listed ids and a completed refresh, the instance cached under each listed id ends with that listed instance's own availability flag |
| `Coordinator.SyncAbortedStays` | src/main/java/com/kixeye/core/janus/Janus.java:197-198 | once the factory has thrown, the rest of the listed instances change nothing |
| `Coordinator.SurvivorsStep` | src/main/java/com/kixeye/core/janus/Janus.java:193-195 | ticking one more entry removes it exactly when its instance was stale |
| `Coordinator.TodoStep` | src/main/java/com/kixeye/core/janus/Janus.java:191-193 | ticking the entry under an id ticks its instance and no other entry's |
| `Coordinator.TickOne` | src/main/java/com/kixeye/core/janus/Janus.java:192-193 | tick records and announces the availability, observes the breaker, and keeps the entry exactly when the instance was not stale |
| `Coordinator.SeenAfterMirror` | src/main/java/com/kixeye/core/janus/Janus.java:181 | reconciliation changes nothing tick reads but the availability flag and the staleness |
| `Coordinator.SyncAsWritten` | src/main/java/com/kixeye/core/janus/Janus.java:181 | as written, the cached instance takes the listed instance's isAvailable answer, which folds in the listed breaker and staleness |
| `Coordinator.AsWrittenStaysDown` | src/main/java/com/kixeye/core/janus/Janus.java:179-181 | as written, an instance listed as itself that is refreshed while its breaker is open stays unavailable after the breaker has closed |
| `Coordinator.SyncAvailability` | src/main/java/com/kixeye/core/janus/Janus.java:181 | the intended step: the cached instance takes the listed instance's own available flag |
| `Coordinator.CorrectedRecovers` | src/main/java/com/kixeye/core/janus/Janus.java:179-181 | with the intended step the same instance is available again once its breaker has closed |
| `Coordinator.ValuesOf` | src/main/java/com/kixeye/core/janus/Janus.java:159 | every value of a map exactly once, each read under a distinct key |
| `Coordinator.Janus.SyncOne` | src/main/java/com/kixeye/core/janus/Janus.java:179-185 | one listed instance moves the heap in step with the reference model, adding fresh zeroed stats for an unseen id |
| `Coordinator.Janus.SyncNew` | src/main/java/com/kixeye/core/janus/Janus.java:183-184 | fresh stats with every counter at zero are cached under the listed instance's id |
| `Coordinator.Janus.Reconcile` | src/main/java/com/kixeye/core/janus/Janus.java:178-186 | the loop leaves the cache and every involved instance as the reference model says, completing exactly when the model does not abort, and tick then sees each instance with its new flag and staleness |
| `Coordinator.Janus.ReconcileLoop` | src/main/java/com/kixeye/core/janus/Janus.java:178-186 | the loop stops at the end or where the factory threw, with the heap in step with the reference state there |
| `Coordinator.Janus.StartMirrors` | src/main/java/com/kixeye/core/janus/Janus.java:178 | before the loop the heap agrees with the reference model's start |
| `Coordinator.Janus.DistinctInstances` | src/main/java/com/kixeye/core/janus/Janus.java:179-184 | entries under different ids wrap different instances |
| `Coordinator.Janus.Live` | src/main/java/com/kixeye/core/janus/Janus.java:189-196 | exactly the entries whose instance is not stale |
| `Coordinator.Janus.LiveSurvives` | src/main/java/com/kixeye/core/janus/Janus.java:189-196 | a pass that has ticked every entry keeps exactly the live ones |
| `Coordinator.Janus.Evict` | src/main/java/com/kixeye/core/janus/Janus.java:189-196 | the pass ticks every cached instance once and removes exactly the entries whose instance is stale |
| `Coordinator.Janus.EvictLoop` | src/main/java/com/kixeye/core/janus/Janus.java:189-196 | the loop leaves the survivors of the pass and every cached instance ticked |
| `Coordinator.Janus.EvictOne` | src/main/java/com/kixeye/core/janus/Janus.java:191-195 | one step ticks the instance under the id and removes the entry when it was stale |
| `Coordinator.Janus.constructor` | src/main/java/com/kixeye/core/janus/Janus.java:100-106 | the refresh interval is the default 30000 ms, the gate is open, and the cache is what a first refresh of an empty cache leaves |
| `Coordinator.Janus.WithRefreshInterval` | src/main/java/com/kixeye/core/janus/Janus.java:115-122 | the second constructor sets the given refresh interval before the first refresh |
| `Coordinator.Janus.FirstRefresh` | src/main/java/com/kixeye/core/janus/Janus.java:105 | the first refresh on the empty cache releases the gate and leaves what a refresh from the listing leaves |
| `Coordinator.Janus.SetRefreshInterval` | src/main/java/com/kixeye/core/janus/Janus.java:129-131 | the interval the next refreshes wait |
| `Coordinator.Janus.UpdateServerList` | src/main/java/com/kixeye/core/janus/Janus.java:162-202 | the gate is released at the end; the next update time moves one interval past now exactly when the call is due; a call that is not due, or whose source throws, changes nothing else; a due call leaves the refreshed cache and instances |
| `Coordinator.Janus.Enter` | src/main/java/com/kixeye/core/janus/Janus.java:164-175 | the gate is taken, and the call goes on exactly when the next update time has come, moving it one interval past now |
| `Coordinator.Janus.Leave` | src/main/java/com/kixeye/core/janus/Janus.java:199-201 | the gate is released and the refreshed state kept |
| `Coordinator.Janus.CacheValues` | src/main/java/com/kixeye/core/janus/Janus.java:159 | servers.values(): every cached stats object exactly once |
| `Coordinator.Janus.Delegate` | src/main/java/com/kixeye/core/janus/Janus.java:159 | every strategy returns a candidate whose instance was available, and no server when none was; only the zone-aware one throws; the random ones pick the drawn available candidate |
| `Coordinator.Janus.GetServer` | src/main/java/com/kixeye/core/janus/Janus.java:156-160 | a refresh when due, then a server that is cached and available, or no server when none is available; only the zone-aware strategy throws; the cache is unchanged when the call is not due or the source throws, and otherwise is the refreshed one, with every involved instance's flag and update time as the refresh left them |
| `Coordinator.Janus.RefreshFor` | src/main/java/com/kixeye/core/janus/Janus.java:157 | the refresh step of getServer, on the cache and update times seen just before it: the cache is unchanged and no instance's flag or update time changes when the call is not due or the source throws; otherwise the cache is the refreshed one and every involved instance has the flag and update time the refresh gives it |
| `Coordinator.Janus.ChooseKeeping` | src/main/java/com/kixeye/core/janus/Janus.java:159 | the choice step of getServer: the strategy's choice, with the cache, the gate, the timer and every instance's flag and update time left as they were |
| `Coordinator.Janus.StrategyState` | src/main/java/com/kixeye/core/janus/Janus.java:159 | the objects a strategy keeps its state in are never the coordinator, an instance or a stats record |
| `Coordinator.Janus.ChooseCached` | src/main/java/com/kixeye/core/janus/Janus.java:159 | the strategy's choice among the cached stats is cached and available, and no server when none is available |
| `Coordinator.Janus.RefreshKeepsPlain` | src/main/java/com/kixeye/core/janus/Janus.java:189-196 | an entry whose instance never expires survives every refresh with the same stats |
| `Coordinator.Janus.Refresh` | src/main/java/com/kixeye/core/janus/Janus.java:177-198 | reconcile, then tick and evict unless the factory threw; the cache holds the model's ids minus the stale ones, the earlier stats unchanged and the new ones zeroed |
| `Coordinator.Janus.AbortedRefreshed` | src/main/java/com/kixeye/core/janus/Janus.java:197-198 | a refresh the factory cut short leaves exactly what reconciliation left, with no eviction |
| `Coordinator.Janus.Sweep` | src/main/java/com/kixeye/core/janus/Janus.java:189-196 | eviction after a completed reconciliation leaves the refreshed cache and instances |
| `Coordinator.Janus.EvictFrom` | src/main/java/com/kixeye/core/janus/Janus.java:189-196 | the pass removes exactly the stale entries, ticks the cached instances and leaves the other instances alone |
| `Coordinator.Janus.CacheAfterSweep` | src/main/java/com/kixeye/core/janus/Janus.java:189-196 | the cache after eviction is the live part of the reconciled cache |
| `Coordinator.InstancesAfterSweep` | src/main/java/com/kixeye/core/janus/Janus.java:189-196 | after eviction every cached instance has been ticked and every other involved one is as reconciliation left it |
| `RestClients.MaxAttempts` | src/main/java/com/kixeye/janus/client/rest/DefaultRestTemplateClient.java:290-334 | the do-while loop makes at least one attempt, and numRetries + 1 for a non-negative retry budget |
| `RestClients.AfterAttempt` | src/main/java/com/kixeye/janus/client/rest/DefaultRestTemplateClient.java:305-326 | one attempt's bookkeeping: one more sent message, open requests back where they were, one more error and an error time in the window exactly when the attempt errored, a trip when that error crosses the threshold, and the latency sampled exactly when positive |
| `RestClients.RunShape` | src/main/java/com/kixeye/janus/client/rest/DefaultRestTemplateClient.java:289-337 | the reference run makes between one and numRetries + 1 calls, every one on a picked server; no server ends it before the budget with the service name; retries exceeded means the whole budget was spent on retried attempts; a value or a passed-on status is the last attempt's, every earlier one having been retried |
| `RestClients.RetryMoves` | src/main/java/com/kixeye/janus/client/rest/DefaultRestTemplateClient.java:329-334 | a retried attempt with budget left leads to the next attempt |
| `RestClients.RunEnds` | src/main/java/com/kixeye/janus/client/rest/DefaultRestTemplateClient.java:293-336 | the run ends at once on no server, a value or a passed-on status, and with retries exceeded on a retried last attempt |
| `RestClients.ReplayCounts` | src/main/java/com/kixeye/janus/client/rest/DefaultRestTemplateClient.java:305-320 | over a run, a server's sent messages grow by the attempts it got, its errors by its errored attempts, and its open requests end where they started |
| `RestClients.ReplayUntouched` | src/main/java/com/kixeye/janus/client/rest/DefaultRestTemplateClient.java:293-305 | a server no attempt went to keeps all its counters |
| `RestClients.ReplayKeepsLatencies` | src/main/java/com/kixeye/janus/client/rest/DefaultRestTemplateClient.java:323-325 | a server that got no attempt with a positive latency keeps its latency samples |
| `RestClients.Bookkeep` | src/main/java/com/kixeye/janus/client/rest/DefaultRestTemplateClient.java:305-326 | the stats change as AfterAttempt says, and the breaker trips exactly when the attempt errored and the error window crossed the threshold |
| `RestClients.TemplateAttempt` | src/main/java/com/kixeye/janus/client/rest/DefaultRestTemplateClient.java:304-326 | a client error is passed back and only it; server errors and other exceptions count as errors and are retried; only a non-null result is delivered; the latency is measured only when the call returned |
| `RestClients.HttpAttempt` | janus-http/src/main/java/com/kixeye/janus/client/http/rest/DefaultRestHttpClient.java:328-354 | a response below 500 is delivered and nothing else is; every other outcome counts as an error and is retried; nothing is passed back; the latency is measured whenever the call returned, even with a null or 5xx response |
| `RestClients.AttemptStep` | src/main/java/com/kixeye/janus/client/rest/DefaultRestTemplateClient.java:293-326 | one attempt keeps the loop's invariants: the counters of every stats object are the replay one attempt further, and breakers no errored attempt reached are unchanged |
| `RestClients.Execute` | src/main/java/com/kixeye/janus/client/rest/DefaultRestTemplateClient.java:289-337 | the outcome and number of calls are the reference run's; every stats object's counters are the replay of the run; breakers no errored attempt reached are unchanged |
| `RestClients.Loop` | src/main/java/com/kixeye/janus/client/rest/DefaultRestTemplateClient.java:290-336 | the do-while loop against snapshots of the counters and breakers, with the same outcome and effects |
| `RestClients.RestTemplateClient.constructor` | src/main/java/com/kixeye/janus/client/rest/DefaultRestTemplateClient.java:70-78 | the client keeps the service name and a non-negative retry budget |
| `RestClients.RestTemplateClient.ExecuteWithLoadBalancer` | src/main/java/com/kixeye/janus/client/rest/DefaultRestTemplateClient.java:289-337 | the outcome is the reference run over the RestTemplate classification of each call to the picked server's URL plus the path, with the counters replayed and unreached breakers unchanged |
| `RestClients.RestHttpClient.constructor` | janus-http/src/main/java/com/kixeye/janus/client/http/rest/DefaultRestHttpClient.java:68-75 | the client keeps the service name and the retry budget, which a disabled assert does not check |
| `RestClients.RestHttpClient.ExecuteWithLoadBalancer` | janus-http/src/main/java/com/kixeye/janus/client/http/rest/DefaultRestHttpClient.java:313-360 | the outcome is the reference run over the HTTP classification of each call, with the counters replayed and unreached breakers unchanged |

## Left out

- Concurrency: the `AtomicBoolean` gate, `ConcurrentHashMap`, `volatile` fields, the `putIfAbsent` race on zone counters and the `synchronized` session locks are left out. Everything is single-threaded, and the gate is a boolean that every exit path leaves false.
- Iteration order of `ConcurrentHashMap`: the cache is swept, and its values are handed to the strategy, in an order the model leaves open. Each value is read exactly once, and the contracts hold for every order.
- Floating point:
  - `Math.pow(1.5, n) * duration` is computed exactly, as `3^n * duration / 2^n` truncated, so double rounding and long saturation are not modelled;
  - the one-minute rate of sent messages, and the zone loads built from it, are inputs (reals);
  - the remaining time is an exact millisecond difference scaled by 1000.
- Metrics: the Codahale meters, histograms, gauges and their registration and names are left out. Counters are integers, the error reservoir is a sequence of timestamps, and the latency histogram is a sequence of samples.
- Guava cache expiry: the five-minute expiry of the session balancer's side table and of the zone balancer's location cache is not modelled. Both are plain maps whose missing keys take their default value.
- Dynamic configuration: the Archaius properties are constructor fields or parameters. The defaults the code reads are kept:
  - the refresh interval is 30000 ms;
  - the error threshold is 5;
  - the short-circuit duration is 30000 ms;
  - the Eureka timeouts are 125000 and 65000 ms.
  The Builder and the Eureka `DiscoveryManager` initialisation are left out.
- EurekaServerList constructor: its polling sleep loop, which waits for the first registry answer, is not modelled. A list starts empty and takes the registry answer as an input.
- `ServerStatsFactory`: its reflective `newInstance` is an input that may fail (`None`).
- Coordinator.Janus.GetRefreshInterval and Coordinator.Janus.GetServiceName: these getters are plain reads of the fields `refreshInterval` and `serviceName`, so there is no member for them.
- ZoneAware.ZoneAwareLoadBalancer.constructor: it takes an already parsed `Location`. The parse of the configured zone, with its possible failure, is `ZoneAware.NewZoneAwareLoadBalancer`.
- Logging: debug and warn messages are left out.
- Listener callbacks: the availability listener is recorded as a sequence of notifications. Callbacks into listener code are not modelled.
- REST client server choice: inside the REST clients, `janus.getServer()` is the `pick` oracle. The coordinator's own `GetServer` is modelled on its own.
- Transport and serialisation: the RestTemplate and AsyncRestClient calls and the Jackson and String SerDes are left out. A call is classified from its oracle outcome, and the URL passed to it is the picked server's url plus the path.
- Other clients: the WebSocket clients, the message client, the async HTTP client, the test REST service, the examples, the pure interfaces, the HTTP data holders and the exception classes are left out. They are driven by Jetty and async callbacks, futures and executors, or hold no logic.
- RestClients.Execute: the breaker state of a host after an errored attempt is stated step by step only (`RestClients.Bookkeep`). Over a whole run, only the breakers of hosts that no errored attempt reached are stated to be unchanged.
- RestClients.RestTemplateClient.ExecuteWithLoadBalancer: as for `RestClients.Execute`, breakers that errored attempts reached are not characterised over a whole run.
- RestClients.RestHttpClient.ExecuteWithLoadBalancer: as for `RestClients.Execute`, breakers that errored attempts reached are not characterised over a whole run.
- Coordinator.Janus.Reconcile: the freshness of the stats and instances it creates is not stated in its contract. Its reference step for a cached id copies the listed instance's own `available` flag (the corrected step of the first finding), where Janus.java:181 copies the listed instance's whole `isAvailable()`.
- Coordinator.SyncFollowsSource: states the corrected step of the first finding (the listed instance's own `available` flag), not the `isAvailable()` copy of Janus.java:181; the two differ when a listed instance is short-circuited or stale.
- Coordinator.Janus.SyncOne: a cached id takes the listed instance's own `available` flag (the corrected step), not Janus.java:181's `isAvailable()`.
- Coordinator.Janus.ReconcileLoop: kept in step with the reference model built on the corrected step, not on Janus.java:181's `isAvailable()` copy.
- Coordinator.Janus.Refresh: its reconciliation is the corrected one; the as-written step is `Coordinator.SyncAsWritten`.
- Coordinator.Janus.UpdateServerList: a due call's refreshed cache and instances follow the corrected step, not Janus.java:181's `isAvailable()` copy.
- Coordinator.Janus.GetServer: its refresh follows the corrected step. The breakers and listener records the refresh leaves are stated by `Coordinator.Janus.UpdateServerList` only, since the strategy's availability reads may clear breakers afterwards.
- Coordinator.Janus.RefreshFor: like `Coordinator.Janus.GetServer`, its refreshed instances follow the corrected step, not Janus.java:181's `isAvailable()` copy.
- SessionBalancer.SessionLoadBalancer.Choose: ranks by the intended comparison of counts, not by the 32-bit difference `o1.sessions - o2.sessions` of SessionLoadBalancer.java:136; the two differ when the difference of two counts overflows an int (as-written half: `SessionBalancer.SubtractionCompareOverflows`). The heap's sift-up order is not modelled; under a consistent order its head is the first least element, which is what the running minimum gives.
- SessionBalancer.ScanCandidates: the loop equals a reference scan built on the intended comparison, not on the overflowing comparator.
- SessionBalancer.ScanFacts: "least count" is in the intended order; with the source's comparator it fails when a difference of counts overflows an int.
- SessionBalancer.BestOfStep: "undercuts" is the mathematical order of counts, not the sign of their wrapped 32-bit difference.
- JavaLang.ParseInt: accepts ASCII digits only; `Integer.parseInt` also accepts other Unicode decimal digits (any char `Character.digit` gives a value below 10 for).
- JavaLang.ToLower: lower-cases ASCII letters only; `String.toLowerCase()` in `Location` is Unicode-aware and follows the default locale.
- ZoneAware.RetainDigits: keeps ASCII digits only; Guava's `CharMatcher.DIGIT` keeps every Unicode decimal digit.
- ZoneAware.Divide: the double quotient is exact (no rounding), and a negative-zero divisor is not modelled.

## Findings

| source | as written | input that shows it | evidently intended | confidence | as-written member | corrected member |
|---|---|---|---|---|---|---|
| src/main/java/com/kixeye/core/janus/Janus.java:181 | `setAvailable(s.isAvailable())` copies the listed instance's whole availability, breaker and expiry included. With `ConstServerList` or `ConfigServerList` the listed instance is the cached instance itself, so a refresh while its breaker is open writes `available = false` for good. | a Const list of one instance, refreshed once while its breaker is open and again after the breaker has closed: it stays unavailable | copy the listed instance's own `available` flag, so the instance comes back once its breaker closes | not executed | `Coordinator.SyncAsWritten`, `Coordinator.AsWrittenStaysDown` | `Coordinator.SyncAvailability`, `Coordinator.CorrectedRecovers` |
| src/main/java/com/kixeye/core/janus/loadbalancer/SessionLoadBalancer.java:136 | the comparator returns `o1.sessions - o2.sessions` in 32-bit arithmetic, which overflows | an instance without a published count (`Integer.MAX_VALUE`) against one publishing `-1`: the difference wraps negative, and the uncounted instance becomes the head of the queue | compare the counts themselves, so the least count comes first | not executed | `SessionBalancer.SubtractionCompareOverflows` | `SessionBalancer.HeadOfTwo` |
