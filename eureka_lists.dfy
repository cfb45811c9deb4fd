/**
 * Instances discovered through a Eureka registry. Each registered instance
 * the registry describes becomes a new discovery-backed instance: its host
 * is the internal IP address or the hostname, its websocket port comes from
 * the registry metadata, and it is available exactly when the registry
 * reports it UP. The two source trees differ only in the id they give the
 * instance (the IP address or the registry's instance id) and in the
 * default staleness timeout of the instances they build.
 */
module EurekaLists {
  import opened Wrappers
  import opened JavaLang
  import opened Endpoints
  import opened CircuitBreaker
  import opened Instances
  import opened ServerLists

  /** The two source trees: janus-core (EurekaServiceInstanceDescriptor) and core (InstanceInfo). */
  datatype Variant = JanusCore | Core

  /** The NumberFormatException Integer.parseInt throws for a metadata port that is not an int. */
  datatype MetadataError = MalformedMetadataPort(key: string, text: string)

  const WebsocketPortKey: string := "websocketPort"
  const SecureWebsocketPortKey: string := "secureWebsocketPort"

  /** The id the variant gives an instance: the IP address in janus-core, the registry id in core. */
  function IdOf(variant: Variant, d: Descriptor): string
  {
    match variant
    case JanusCore => d.ipAddress
    case Core => d.instanceId
  }

  /** The class of the instances the variant builds. */
  function ClassOf(variant: Variant): InstanceClass
  {
    match variant
    case JanusCore => JanusCoreEurekaInstance
    case Core => CoreEurekaInstance
  }

  /** The default janus.InstanceTimeOutInMillis of the variant's discovery-backed instances. */
  function DefaultTimeout(variant: Variant): int
  {
    match variant
    case JanusCore => JanusCoreInstanceTimeout
    case Core => CoreInstanceTimeout
  }

  function HostOf(useInternalIp: bool, d: Descriptor): string
  {
    if useInternalIp then d.ipAddress else d.hostname
  }

  /** A port read from the metadata: -1 when there is no metadata or no such key, else the parsed value. */
  function MetadataPort(metadata: Option<map<string, string>>, key: string): (r: Result<int, MetadataError>)
    ensures metadata.None? || key !in metadata.value ==> r == Success(-1)
    ensures metadata.Some? && key in metadata.value ==>
              if ParseInt(metadata.value[key]).Some? then r == Success(ParseInt(metadata.value[key]).value)
              else r == Failure(MalformedMetadataPort(key, metadata.value[key]))
  {
    if metadata.None? || key !in metadata.value then Success(-1)
    else
      var text := metadata.value[key];
      match ParseInt(text)
      case None => Failure(MalformedMetadataPort(key, text))
      case Some(n) => Success(n)
  }

  /**
   * Both metadata ports are parsed, the plain one first, whichever the
   * instance uses; the secure one is registered when the list is secure.
   */
  function WebsocketPortOf(useSecure: bool, metadata: Option<map<string, string>>): Result<int, MetadataError>
  {
    match MetadataPort(metadata, WebsocketPortKey)
    case Failure(e) => Failure(e)
    case Success(plain) =>
      match MetadataPort(metadata, SecureWebsocketPortKey)
      case Failure(e) => Failure(e)
      case Success(secure) => Success(if useSecure then secure else plain)
  }

  /** The endpoint getListOfServers builds for one descriptor, or the metadata error it throws. */
  function DescribeEndpoint(serviceName: string, variant: Variant, useSecure: bool, useInternalIp: bool, d: Descriptor)
    : Result<Endpoint, MetadataError>
  {
    match WebsocketPortOf(useSecure, d.metadata)
    case Failure(e) => Failure(e)
    case Success(ws) => Success(Initialize(serviceName, Some(IdOf(variant, d)), HostOf(useInternalIp, d), useSecure, d.port, ws))
  }

  /** The endpoint of every descriptor, in descriptor order. */
  function DescribeEach(serviceName: string, variant: Variant, useSecure: bool, useInternalIp: bool, ds: seq<Descriptor>)
    : (r: seq<Result<Endpoint, MetadataError>>)
    ensures |r| == |ds|
    ensures forall k | 0 <= k < |ds| :: r[k] == DescribeEndpoint(serviceName, variant, useSecure, useInternalIp, ds[k])
  {
    seq(|ds|, k requires 0 <= k < |ds| => DescribeEndpoint(serviceName, variant, useSecure, useInternalIp, ds[k]))
  }

  /**
   * What the loop leaves for one descriptor: a new discovery-backed instance
   * with the descriptor attached, available iff the registry says UP, and
   * its staleness clock started now.
   */
  predicate DiscoveredInstance(s: ServerInstance, kind: InstanceClass, ep: Endpoint, d: Descriptor, timeout: int, now: int)
    reads s
  {
    && s.ep == ep && s.kind == kind && s.expiry == AfterTimeout(timeout) && s.info == Some(d)
    && s.available == (d.status == Up) && !s.lastAvailable && !s.listening && s.notifications == []
    && s.BreakerState() == Initial && s.lastUpdateTime == now
  }

  /** EurekaServerList: a view of the registry's instances of one service. */
  class EurekaServerList {
    const serviceName: string
    const variant: Variant
    const useSecure: bool
    const useInternalIp: bool
    /** janus.InstanceTimeOutInMillis as the instances built here read it. */
    const instanceTimeout: int

    /** The service name must not be null; the wait for the registry's first refresh is not modelled. */
    constructor (serviceName: string, variant: Variant, useSecure: bool, useInternalIp: bool, instanceTimeout: int)
      ensures this.serviceName == serviceName && this.variant == variant
      ensures this.useSecure == useSecure && this.useInternalIp == useInternalIp
      ensures this.instanceTimeout == instanceTimeout
    {
      this.serviceName := serviceName;
      this.variant := variant;
      this.useSecure := useSecure;
      this.useInternalIp := useInternalIp;
      this.instanceTimeout := instanceTimeout;
    }

    function GetServiceName(): (r: string)
      ensures r == serviceName
    {
      serviceName
    }

    function Results(descriptors: seq<Descriptor>): (r: seq<Result<Endpoint, MetadataError>>)
      ensures |r| == |descriptors|
    {
      DescribeEach(serviceName, variant, useSecure, useInternalIp, descriptors)
    }

    /**
     * getListOfServers over what the registry describes now: one new
     * instance per descriptor, in order, or the error of the first
     * descriptor whose metadata port is malformed.
     */
    method GetListOfServers(descriptors: seq<Descriptor>, now: int) returns (r: Result<seq<ServerInstance>, MetadataError>)
      ensures r.Success? <==> Collect(Results(descriptors)).Success?
      ensures r.Failure? ==> r.error == Collect(Results(descriptors)).error
      ensures r.Success? ==> |r.value| == |descriptors| && Distinct(r.value)
      ensures r.Success? ==> forall k | 0 <= k < |r.value| ::
                fresh(r.value[k])
                && DiscoveredInstance(r.value[k], ClassOf(variant), Collect(Results(descriptors)).value[k], descriptors[k], instanceTimeout, now)
    {
      r := Discover(Results(descriptors), serviceName, variant, useSecure, useInternalIp, instanceTimeout, descriptors, now);
    }
  }

  /** The endpoint of descriptor `i`, as the registry's data give it. */
  method Describe(ghost rs: seq<Result<Endpoint, MetadataError>>, serviceName: string, variant: Variant,
                  useSecure: bool, useInternalIp: bool, ds: seq<Descriptor>, i: nat)
    returns (described: Result<Endpoint, MetadataError>)
    requires rs == DescribeEach(serviceName, variant, useSecure, useInternalIp, ds) && i < |ds|
    ensures described == rs[i]
  {
    described := DescribeEndpoint(serviceName, variant, useSecure, useInternalIp, ds[i]);
  }

  /**
   * The loop of getListOfServers for a list with the given settings: one new
   * instance of the variant's class per descriptor, in order, or the error
   * of the first descriptor whose metadata port is malformed.
   */
  method Discover(ghost rs: seq<Result<Endpoint, MetadataError>>, serviceName: string, variant: Variant,
                  useSecure: bool, useInternalIp: bool, timeout: int, descriptors: seq<Descriptor>, now: int)
    returns (r: Result<seq<ServerInstance>, MetadataError>)
    requires rs == DescribeEach(serviceName, variant, useSecure, useInternalIp, descriptors)
    ensures r.Success? <==> Collect(rs).Success?
    ensures r.Failure? ==> r.error == Collect(rs).error
    ensures r.Success? ==> |r.value| == |descriptors| && Distinct(r.value)
    ensures r.Success? ==> forall k | 0 <= k < |r.value| ::
              fresh(r.value[k]) && DiscoveredInstance(r.value[k], ClassOf(variant), Collect(rs).value[k], descriptors[k], timeout, now)
  {
    var servers: seq<ServerInstance> := [];
    ghost var eps: seq<Endpoint> := [];
    var i := 0;
    while i < |descriptors|
      invariant 0 <= i <= |descriptors|
      invariant Collect(rs[..i]) == Success(eps)
      invariant |servers| == |eps| == i && Distinct(servers)
      invariant forall k | 0 <= k < i :: fresh(servers[k])
      invariant forall k | 0 <= k < i :: DiscoveredInstance(servers[k], ClassOf(variant), eps[k], descriptors[k], timeout, now)
    {
      var next;
      next, eps := DiscoverOne(rs, serviceName, variant, useSecure, useInternalIp, timeout, descriptors, now, servers, eps, i);
      if next.Failure? {
        return Failure(next.error);
      }
      servers := next.value;
      i := i + 1;
    }
    assert rs[..i] == rs;
    assert Collect(rs).value == eps;
    r := Success(servers);
  }

  /** Descriptor `i` of the loop: its instance appended to the list so far, or its error. */
  method DiscoverOne(ghost rs: seq<Result<Endpoint, MetadataError>>, serviceName: string, variant: Variant,
                     useSecure: bool, useInternalIp: bool, timeout: int, ds: seq<Descriptor>, now: int,
                     servers: seq<ServerInstance>, ghost eps: seq<Endpoint>, i: nat)
    returns (r: Result<seq<ServerInstance>, MetadataError>, ghost eps': seq<Endpoint>)
    requires rs == DescribeEach(serviceName, variant, useSecure, useInternalIp, ds) && i < |ds|
    requires Collect(rs[..i]) == Success(eps) && |servers| == |eps| == i && Distinct(servers)
    requires forall k | 0 <= k < i :: DiscoveredInstance(servers[k], ClassOf(variant), eps[k], ds[k], timeout, now)
    ensures r.Failure? ==> Collect(rs) == Failure(r.error)
    ensures r.Success? ==> Collect(rs[..i + 1]) == Success(eps') && |r.value| == |eps'| == i + 1 && Distinct(r.value)
    ensures r.Success? ==> fresh(r.value[i]) && forall k | 0 <= k < i :: r.value[k] == servers[k]
    ensures r.Success? ==> forall k | 0 <= k <= i :: DiscoveredInstance(r.value[k], ClassOf(variant), eps'[k], ds[k], timeout, now)
  {
    CollectStep(rs, i, eps);
    var described := Describe(rs, serviceName, variant, useSecure, useInternalIp, ds, i);
    if described.Failure? {
      return Failure(described.error), eps;
    }
    var next := AppendDiscovered(servers, eps, ds, ClassOf(variant), described.value, timeout, now);
    r, eps' := Success(next), eps + [described.value];
  }

  /** The list so far with the instance of the next descriptor appended. */
  method AppendDiscovered(servers: seq<ServerInstance>, ghost eps: seq<Endpoint>, ds: seq<Descriptor>,
                          kind: InstanceClass, ep: Endpoint, timeout: int, now: int)
    returns (next: seq<ServerInstance>)
    requires |servers| == |eps| < |ds| && Distinct(servers)
    requires forall k | 0 <= k < |servers| :: DiscoveredInstance(servers[k], kind, eps[k], ds[k], timeout, now)
    ensures |next| == |servers| + 1 && fresh(next[|servers|])
    ensures forall k | 0 <= k < |servers| :: next[k] == servers[k]
    ensures Distinct(next)
    ensures forall k | 0 <= k < |next| :: DiscoveredInstance(next[k], kind, (eps + [ep])[k], ds[k], timeout, now)
  {
    var s := NewDiscoveredInstance(kind, ep, ds[|servers|], timeout, now);
    next := servers + [s];
  }

  /** new EurekaServerInstance(..., descriptor) followed by setAvailable(status == UP). */
  method NewDiscoveredInstance(kind: InstanceClass, ep: Endpoint, d: Descriptor, timeout: int, now: int) returns (s: ServerInstance)
    ensures fresh(s) && DiscoveredInstance(s, kind, ep, d, timeout, now)
  {
    s := new ServerInstance(ep, kind, AfterTimeout(timeout), Some(d), now);
    s.SetAvailable(d.status == Up, now);
  }

  /**
   * The instance built for a descriptor: the variant's id, the IP address or
   * the hostname as host, the list's secure flag, the descriptor's port, and
   * the metadata port that matches the secure flag (-1 when absent).
   */
  lemma DescribedFields(serviceName: string, variant: Variant, useSecure: bool, useInternalIp: bool, d: Descriptor)
    ensures var r := DescribeEndpoint(serviceName, variant, useSecure, useInternalIp, d);
            r.Success? ==>
              && r.value.id == (if variant == JanusCore then d.ipAddress else d.instanceId)
              && r.value.host == (if useInternalIp then d.ipAddress else d.hostname)
              && r.value.isSecure == useSecure
              && r.value.port == d.port
              && r.value.serviceName == serviceName
              && r.value.websocketPort == MetadataPort(d.metadata, if useSecure then SecureWebsocketPortKey else WebsocketPortKey).value
  {
  }

  /** Whatever the secure flag, a descriptor without metadata gets websocket port -1. */
  lemma NoMetadataNoWebsocket(serviceName: string, variant: Variant, useSecure: bool, useInternalIp: bool, d: Descriptor)
    requires d.metadata.None?
    ensures DescribeEndpoint(serviceName, variant, useSecure, useInternalIp, d).Success?
    ensures DescribeEndpoint(serviceName, variant, useSecure, useInternalIp, d).value.websocketPort == -1
  {
  }

  /** A malformed plain websocket port throws even for a secure list, which does not use it. */
  lemma MalformedUnusedPortThrows(serviceName: string, variant: Variant, useInternalIp: bool, d: Descriptor)
    requires d.metadata.Some? && WebsocketPortKey in d.metadata.value
    requires ParseInt(d.metadata.value[WebsocketPortKey]).None?
    ensures DescribeEndpoint(serviceName, variant, true, useInternalIp, d)
         == Failure(MalformedMetadataPort(WebsocketPortKey, d.metadata.value[WebsocketPortKey]))
  {
  }

  /** An instance is stale only once strictly more than the timeout has passed since its last update. */
  lemma ExpiredIffTimeoutPassed(s: ServerInstance, timeout: int, now: int)
    requires s.expiry == AfterTimeout(timeout)
    ensures s.IsExpired(now) <==> now - s.lastUpdateTime > timeout
  {
  }

  /** A just-listed instance is not stale, so the next tick keeps it, for any non-negative timeout. */
  lemma DiscoveredNotExpired(s: ServerInstance, kind: InstanceClass, ep: Endpoint, d: Descriptor, timeout: int, now: int)
    requires DiscoveredInstance(s, kind, ep, d, timeout, now) && timeout >= 0
    ensures !s.IsExpired(now)
    ensures s.AvailableAt(now) <==> d.status == Up
  {
  }
}
