/**
 The Packet Tunnel route plan of HushWireConfigurationPolicy.swift: which
 addresses enter the tunnel, and what planning does to that decision.
 */
module RoutePlan {
  import opened Wrappers
  import opened Bits
  import opened Prefixes
  import Routing

  const MAXIMUM_SPLIT_ROUTE_COUNT: nat := 256
  const MAXIMUM_EXCLUDED_ROUTE_COUNT: nat := 256
  const MAXIMUM_DNS_SERVERS: nat := 4

  datatype RoutePolicy = HostRoutesOnly | SplitRoutes | FullTunnel

  datatype Host = V4(address: Address) | Other(text: string)

  datatype EndpointMetadata = EndpointMetadata(host: Host, port: nat)

  datatype RouteKind = Included | Excluded

  datatype RouteMetadata = RouteMetadata(
    peerName: string, kind: RouteKind, prefix: Prefix,
    endpoint: EndpointMetadata, configuredEndpoint: string,
    persistentKeepalive: nat, udpRebindAfter: nat, sessionTimeout: nat)

  datatype InterfaceMetadata = InterfaceMetadata(listenPort: nat, transport: TransportConfig)

  datatype PlanError =
    | NoRoutes | ListenPortFixed | BadEndpoint | TooManyExclusions | ExclusionsNotAllowed | OnlyHostRoutes
    | RouteEqualsEndpoint | TooManyRoutes | DefaultNotAllowed | NotOneDefault | NotOnePeer | NotOneEndpoint
    | KeepaliveRequired | RecoveryRequired | ExclusionNotCovered | DnsIsEndpoint | DnsNotCovered | DnsExcluded
    | TooManyDns | DnsNotAllowed | DnsUnusable

  datatype Plan = Plan(includedRoutes: seq<Prefix>, excludedRoutes: seq<Prefix>, dnsServers: seq<Address>)

  // ---------------------------------------------------------------------------
  // The decision.
  // ---------------------------------------------------------------------------

  /** An address enters the tunnel when its longest included prefix is strictly longer than its longest excluded one. */
  predicate IsRoutedToTunnel(a: Address, included: seq<Prefix>, excluded: seq<Prefix>) {
    Outranks(LongestContaining(included, a), LongestContaining(excluded, a))
  }

  predicate Outranks(included: Option<nat>, excluded: Option<nat>) {
    match included
    case None => false
    case Some(includedLength) =>
      match excluded
      case None => true
      case Some(excludedLength) => includedLength > excludedLength
  }

  function IncludedBy(metadata: seq<RouteMetadata>, kind: RouteKind): seq<RouteMetadata> {
    if metadata == [] then []
    else (if metadata[0].kind == kind then [metadata[0]] else []) + IncludedBy(metadata[1..], kind)
  }

  function Specs(metadata: seq<RouteMetadata>): (specs: seq<Prefix>)
    ensures |specs| == |metadata|
  {
    seq(|metadata|, i requires 0 <= i < |metadata| => metadata[i].prefix)
  }

  // ---------------------------------------------------------------------------
  // The default route as two halves.
  // ---------------------------------------------------------------------------

  const DEFAULT_ROUTE: Prefix := RawPrefix.Prefix(0, 0)
  const LOWER_HALF: Prefix := RawPrefix.Prefix(0, 1)
  const UPPER_HALF: Prefix := RawPrefix.Prefix(0x8000_0000, 1)

  function PacketTunnelIncludedRoutes(included: seq<Prefix>): seq<Prefix> {
    if included == [] then []
    else (if included[0] == DEFAULT_ROUTE then [LOWER_HALF, UPPER_HALF] else [included[0]])
         + PacketTunnelIncludedRoutes(included[1..])
  }

  lemma LongestOfHalves(a: Address)
    ensures LongestContaining([LOWER_HALF, UPPER_HALF], a) == Some(1)
  {
    HalvesCoverAll(a);
    var halves: seq<Prefix> := [LOWER_HALF, UPPER_HALF];
    assert LOWER_HALF in halves && UPPER_HALF in halves;
    LongestIsMaximum(halves, a);
  }

  /** Splitting raises an address matched only by the default route from length 0 to 1, and nothing else. */
  lemma {:induction false} LongestAfterSplit(included: seq<Prefix>, a: Address)
    ensures LongestContaining(PacketTunnelIncludedRoutes(included), a) ==
            if DEFAULT_ROUTE in included then Some(Max(1, LongestContaining(included, a).GetOr(0)))
            else LongestContaining(included, a)
  {
    if included != [] {
      LongestAfterSplit(included[1..], a);
      var first := if included[0] == DEFAULT_ROUTE then [LOWER_HALF, UPPER_HALF] else [included[0]];
      LongestOfSum(first, PacketTunnelIncludedRoutes(included[1..]), a);
      if included[0] == DEFAULT_ROUTE {
        LongestOfHalves(a);
        DefaultContainsAll(DEFAULT_ROUTE, a);
      } else {
        assert [included[0]][1..] == [];
      }
      if DEFAULT_ROUTE in included[1..] {
        LongestIsMaximum(included[1..], a);
        DefaultContainsAll(DEFAULT_ROUTE, a);
      }
      assert included == [included[0]] + included[1..];
    }
  }

  /**
   Exactly when the split changes the decision for an address: the default route is its
   longest included match, and an excluded default route is its longest excluded match.
   */
  lemma SplitChangesDecisionIff(included: seq<Prefix>, excluded: seq<Prefix>, a: Address)
    ensures (IsRoutedToTunnel(a, PacketTunnelIncludedRoutes(included), excluded) !=
             IsRoutedToTunnel(a, included, excluded))
            <==>
            (DEFAULT_ROUTE in included
             && LongestContaining(included, a) == Some(0) && LongestContaining(excluded, a) == Some(0))
  {
    LongestAfterSplit(included, a);
    if DEFAULT_ROUTE in included {
      DefaultMatchesEverything(included, a);
      RaisingMattersIff(LongestContaining(included, a).value, LongestContaining(excluded, a));
    }
  }

  lemma RaisingMattersIff(length: nat, excluded: Option<nat>)
    ensures Outranks(Some(Max(1, length)), excluded) != Outranks(Some(length), excluded) <==>
        length == 0 && excluded == Some(0)
  {}

  lemma DefaultMatchesEverything(included: seq<Prefix>, a: Address)
    requires DEFAULT_ROUTE in included
    ensures LongestContaining(included, a).Some?
  {
    LongestIsMaximum(included, a);
    DefaultContainsAll(DEFAULT_ROUTE, a);
  }

  /** No exclusion is a default route (the configuration loader refuses one): the split changes no decision. */
  lemma SplitKeepsEveryDecision(included: seq<Prefix>, excluded: seq<Prefix>, a: Address)
    requires forall e :: e in excluded ==> e.length > 0
    ensures IsRoutedToTunnel(a, PacketTunnelIncludedRoutes(included), excluded) ==
        IsRoutedToTunnel(a, included, excluded)
  {
    SplitChangesDecisionIff(included, excluded, a);
    LongestIsMaximum(excluded, a);
  }

  /** With one it may: the excluded default wins against the default, and loses against the halves. */
  lemma ExcludedDefaultBreaksTheSplit(a: Address)
    ensures !IsRoutedToTunnel(a, [DEFAULT_ROUTE], [DEFAULT_ROUTE])
    ensures IsRoutedToTunnel(a, PacketTunnelIncludedRoutes([DEFAULT_ROUTE]), [DEFAULT_ROUTE])
  {
    DefaultContainsAll(DEFAULT_ROUTE, a);
    assert [DEFAULT_ROUTE][1..] == [];
    SplitChangesDecisionIff([DEFAULT_ROUTE], [DEFAULT_ROUTE], a);
  }

  // ---------------------------------------------------------------------------
  // The two implementations of the decision agree.
  // ---------------------------------------------------------------------------

  lemma {:induction false} LookupOfOnePeer(peer: Routing.Peer, prefixes: seq<Prefix>, a: Address)
    ensures (exists i :: 0 <= i < |prefixes| && Routing.Selects(Routing.Route(prefixes[i], peer), a)) <==>
            IsRoutedToTunnel(a, prefixes, peer.excludedIps)
  {
    LongestIsMaximum(prefixes, a);
    if IsRoutedToTunnel(a, prefixes, peer.excludedIps) {
      var p :| p in prefixes && p.Contains(a) && p.length == LongestContaining(prefixes, a).value;
      var i :| 0 <= i < |prefixes| && prefixes[i] == p;
      assert Routing.Selects(Routing.Route(prefixes[i], peer), a);
    }
    if i :| 0 <= i < |prefixes| && Routing.Selects(Routing.Route(prefixes[i], peer), a) {
      assert prefixes[i] in prefixes;
    }
  }

  /** For a single peer the Rust lookup finds a route exactly when the Swift planner says the address is tunnelled. */
  lemma RouterAgreesWithPlanner(peer: Routing.PeerConfig, a: Address)
    ensures Routing.LookupIn(Routing.StableSort(Routing.ConfiguredRoutes([peer])), a).Some? <==>
            IsRoutedToTunnel(a, peer.allowedIps, peer.excludedIps)
  {
    var p := Routing.PeerFromConfig(peer);
    var routes := Routing.ConfiguredRoutes([peer]);
    Routing.RoutesOfOnePeer(peer);
    Routing.LookupIsBest(routes, a);
    LookupOfOnePeer(p, peer.allowedIps, a);
    forall i | 0 <= i < |routes|
      ensures Routing.Selects(Routing.Route(peer.allowedIps[i], p), a) <==> Routing.Eligible(routes[i], a)
    {
      Routing.SelectsMeansEligible(routes[i], a);
    }
  }

  // ---------------------------------------------------------------------------
  // Exclusions that protect the endpoint.
  // ---------------------------------------------------------------------------

  predicate ContainsPrefix(outer: Prefix, inner: Prefix) {
    outer.length <= inner.length && outer.Contains(inner.network)
  }

  /** One prefix contains another exactly when it contains all of its addresses. */
  lemma ContainsPrefixIff(outer: Prefix, inner: Prefix)
    ensures ContainsPrefix(outer, inner) <==> forall a: Address :: inner.Contains(a) ==> outer.Contains(a)
  {
    if ContainsPrefix(outer, inner) {
      forall a: Address | inner.Contains(a) ensures outer.Contains(a) {
        ContainsIff(inner, a);
        ContainsIff(outer, inner.network);
        ContainsIff(outer, a);
      }
    } else if outer.Contains(inner.network) {
      var a := Neighbour(inner.network, 32 - outer.length);
      SameMaskIff(inner.network, a, outer.length);
      SameMaskIff(inner.network, a, inner.length);
      SameAbove(inner.network, a, 33 - outer.length, 32 - inner.length);
      assert inner.Contains(a) && !outer.Contains(a);
    } else {
      assert inner.Contains(inner.network);
    }
  }

  lemma SameAbove(a: Address, b: Address, k: nat, l: nat)
    requires k <= l && Front(a, k) == Front(b, k)
    ensures Front(a, l) == Front(b, l)
  {
    SameFrontIff(a, b, k);
    SameFrontIff(a, b, l);
  }

  predicate CoveredBy(exclusion: Prefix, included: seq<Prefix>) {
    exists route :: route in included && ContainsPrefix(route, exclusion)
  }

  predicate AllCovered(exclusions: seq<Prefix>, included: seq<Prefix>) {
    forall e :: e in exclusions ==> CoveredBy(e, included)
  }

  predicate AllTunnelled(servers: seq<Address>, included: seq<Prefix>, excluded: seq<Prefix>) {
    forall s :: s in servers ==> IsRoutedToTunnel(s, included, excluded)
  }

  /** Insertion by descending length. */
  function InsertByLength(x: Prefix, sorted: seq<Prefix>): seq<Prefix> {
    if sorted != [] && sorted[0].length > x.length then [sorted[0]] + InsertByLength(x, sorted[1..]) else [x] + sorted
  }

  function SortByLength(prefixes: seq<Prefix>): seq<Prefix> {
    if prefixes == [] then [] else InsertByLength(prefixes[0], SortByLength(prefixes[1..]))
  }

  lemma {:induction false} InsertMembers(x: Prefix, sorted: seq<Prefix>)
    ensures multiset(InsertByLength(x, sorted)) == multiset(sorted) + multiset{x}
  {
    if sorted != [] && sorted[0].length > x.length {
      InsertMembers(x, sorted[1..]);
      assert sorted == [sorted[0]] + sorted[1..];
    }
  }

  lemma {:induction false} SortMembers(prefixes: seq<Prefix>)
    ensures multiset(SortByLength(prefixes)) == multiset(prefixes)
  {
    if prefixes != [] {
      SortMembers(prefixes[1..]);
      InsertMembers(prefixes[0], SortByLength(prefixes[1..]));
      assert prefixes == [prefixes[0]] + prefixes[1..];
    }
  }

  lemma SortKeepsDecisions(included: seq<Prefix>, excluded: seq<Prefix>, a: Address)
    ensures IsRoutedToTunnel(a, included, SortByLength(excluded)) == IsRoutedToTunnel(a, included, excluded)
  {
    SortMembers(excluded);
    forall p: Prefix ensures p in SortByLength(excluded) <==> p in excluded {
      assert p in SortByLength(excluded) <==> p in multiset(SortByLength(excluded));
      assert p in excluded <==> p in multiset(excluded);
    }
    LongestOfSameMembers(SortByLength(excluded), excluded, a);
  }

  /** A /32 exclusion takes its own address out of the tunnel and touches no other decision. */
  lemma HostExclusion(included: seq<Prefix>, excluded: seq<Prefix>, host: Address, a: Address)
    ensures IsRoutedToTunnel(a, included, excluded + [RawPrefix.Prefix(host, 32)]) ==
            if a == host then false else IsRoutedToTunnel(a, included, excluded)
  {
    var added: Prefix := RawPrefix.Prefix(host, 32);
    HostContainsItself(host, a);
    assert [added][1..] == [];
    LongestOfSum(excluded, [added], a);
    LongestIsMaximum(included, a);
    LongestIsMaximum(excluded, a);
  }

  function EndpointExclusion(configured: seq<Prefix>, endpoint: Address, included: seq<Prefix>): seq<Prefix> {
    if IsRoutedToTunnel(endpoint, included, configured) then [RawPrefix.Prefix(endpoint, 32)] else []
  }

  method ProtectedExclusions(configured: seq<Prefix>, endpoint: Address, included: seq<Prefix>)
    returns (result: Result<seq<Prefix>, PlanError>)
    ensures result.Ok? <==> AllCovered(configured, included)
    ensures result.Err? ==> result.error == ExclusionNotCovered
    ensures result.Ok? ==>
              multiset(result.value) == multiset(configured + EndpointExclusion(configured, endpoint, included))
    ensures result.Ok? ==>
              forall a: Address ::
                (IsRoutedToTunnel(a, included, result.value) <==>
                 a != endpoint && IsRoutedToTunnel(a, included, configured))
  {
    for i := 0 to |configured|
      invariant forall j :: 0 <= j < i ==> CoveredBy(configured[j], included)
    {
      if !CoveredBy(configured[i], included) {
        assert configured[i] in configured;
        return Err(ExclusionNotCovered);
      }
    }
    var exclusions := configured;
    if IsRoutedToTunnel(endpoint, included, exclusions) {
      exclusions := exclusions + [RawPrefix.Prefix(endpoint, 32)];
    }
    result := Ok(SortByLength(exclusions));
    SortMembers(exclusions);
    forall a: Address
      ensures IsRoutedToTunnel(a, included, result.value) <==>
          a != endpoint && IsRoutedToTunnel(a, included, configured)
    {
      SortKeepsDecisions(included, exclusions, a);
      HostExclusion(included, configured, endpoint, a);
    }
  }

  method ValidateDNS(dnsServers: seq<Address>, endpoint: Address, included: seq<Prefix>, excluded: seq<Prefix>)
    returns (result: Result<(), PlanError>)
    ensures result.Ok? <==> endpoint !in dnsServers && AllTunnelled(dnsServers, included, excluded)
    ensures result.Err? ==>
              result.error == if endpoint in dnsServers then DnsIsEndpoint
                              else if exists s :: s in dnsServers && LongestContaining(included, s) == None then
                                DnsNotCovered
                              else DnsExcluded
  {
    if endpoint in dnsServers {
      return Err(DnsIsEndpoint);
    }
    for i := 0 to |dnsServers|
      invariant forall j :: 0 <= j < i ==> LongestContaining(included, dnsServers[j]).Some?
    {
      LongestIsMaximum(included, dnsServers[i]);
      if !(exists route :: route in included && route.Contains(dnsServers[i])) {
        assert dnsServers[i] in dnsServers;
        return Err(DnsNotCovered);
      }
    }
    for i := 0 to |dnsServers|
      invariant forall j :: 0 <= j < i ==> IsRoutedToTunnel(dnsServers[j], included, excluded)
    {
      if !IsRoutedToTunnel(dnsServers[i], included, excluded) {
        assert dnsServers[i] in dnsServers;
        return Err(DnsExcluded);
      }
    }
    result := Ok(());
  }

  // ---------------------------------------------------------------------------
  // The network policy: the DNS servers a plan may use.
  // ---------------------------------------------------------------------------

  datatype NetworkPolicy = NetworkPolicy(routePolicy: RoutePolicy, dnsServers: seq<Address>) {
    predicate Valid() {
      && |dnsServers| <= MAXIMUM_DNS_SERVERS
      && (routePolicy.HostRoutesOnly? ==> dnsServers == [])
      && forall s :: s in dnsServers ==> UsableDNS(s)
    }
  }

  predicate UsableDNS(server: Address) {
    0 < server / 0x100_0000 < 224
  }

  /** A server can be used from 1.0.0.0 up to the multicast range. */
  lemma UsableRange(server: Address)
    ensures UsableDNS(server) <==> 0x0100_0000 <= server < 0xe000_0000
  {}

  /** The first occurrence of each element, in order. */
  function Distinct(servers: seq<Address>): seq<Address> {
    if servers == [] then []
    else
      var front := Distinct(servers[..|servers| - 1]);
      var last := servers[|servers| - 1];
      if last in front then front else front + [last]
  }

  /** The given servers, each once, in the order of their first mention. */
  lemma {:induction false} DistinctServers(servers: seq<Address>)
    ensures forall s :: s in Distinct(servers) <==> s in servers
    ensures forall i, j :: 0 <= i < j < |Distinct(servers)| ==> Distinct(servers)[i] != Distinct(servers)[j]
    ensures forall k :: 0 <= k <= |servers| ==> Distinct(servers[..k]) <= Distinct(servers)
  {
    if servers == [] {
      assert servers[..0] == servers;
    } else {
      var front, last := servers[..|servers| - 1], servers[|servers| - 1];
      DistinctServers(front);
      assert servers == front + [last];
      forall k | 0 <= k <= |servers| ensures Distinct(servers[..k]) <= Distinct(servers) {
        if k == |servers| {
          assert servers[..k] == servers;
        } else {
          assert servers[..k] == front[..k];
        }
      }
    }
  }

  method NewNetworkPolicy(routePolicy: RoutePolicy, dnsServers: seq<Address>)
    returns (result: Result<NetworkPolicy, PlanError>)
    ensures result.Ok? <==> NetworkPolicy(routePolicy, Distinct(dnsServers)).Valid()
    ensures result.Ok? ==> result.value == NetworkPolicy(routePolicy, Distinct(dnsServers))
  {
    var normalized: seq<Address> := [];
    var seen: set<Address> := {};
    for i := 0 to |dnsServers|
      invariant normalized == Distinct(dnsServers[..i])
      invariant forall s :: s in seen <==> s in normalized
    {
      assert dnsServers[..i + 1][..i] == dnsServers[..i];
      if dnsServers[i] !in seen {
        seen := seen + {dnsServers[i]};
        normalized := normalized + [dnsServers[i]];
      }
    }
    assert dnsServers[..|dnsServers|] == dnsServers;
    if |normalized| > MAXIMUM_DNS_SERVERS {
      return Err(TooManyDns);
    }
    if routePolicy.HostRoutesOnly? && normalized != [] {
      return Err(DnsNotAllowed);
    }
    for i := 0 to |normalized|
      invariant forall j :: 0 <= j < i ==> UsableDNS(normalized[j])
    {
      if !UsableDNS(normalized[i]) {
        assert normalized[i] in normalized;
        return Err(DnsUnusable);
      }
    }
    result := Ok(NetworkPolicy(routePolicy, normalized));
  }

  // ---------------------------------------------------------------------------
  // Planning.
  // ---------------------------------------------------------------------------

  predicate EndpointPresent(route: RouteMetadata) {
    route.endpoint.port != 0 && route.endpoint.host != Other("")
  }

  predicate RecoveryConfigured(interface: InterfaceMetadata, route: RouteMetadata) {
    match interface.transport
    case Udp => route.udpRebindAfter > route.persistentKeepalive
    case Tcp => route.sessionTimeout > route.persistentKeepalive
  }

  /** What split and full tunnel modes demand of the peer: one peer, one IPv4 endpoint, liveness recovery. */
  predicate ProtectedPolicy(interface: InterfaceMetadata, routes: seq<RouteMetadata>)
    requires routes != []
  {
    var first := routes[0];
    && (forall r :: r in routes ==> r.peerName == first.peerName)
    && (forall r :: r in routes ==> r.endpoint == first.endpoint && r.configuredEndpoint == first.configuredEndpoint)
    && first.endpoint.host.V4? && first.endpoint.host.address != 0 && first.endpoint.port != 0
    && first.persistentKeepalive > 0
    && RecoveryConfigured(interface, first)
  }

  method ValidateProtectedPolicy(interface: InterfaceMetadata, routes: seq<RouteMetadata>)
    returns (result: Result<RouteMetadata, PlanError>)
    requires routes != []
    ensures result.Ok? <==> ProtectedPolicy(interface, routes)
    ensures result.Ok? ==> result.value == routes[0]
  {
    var route := routes[0];
    if !(forall r :: r in routes ==> r.peerName == route.peerName) {
      return Err(NotOnePeer);
    }
    if !((forall r :: r in routes ==> r.endpoint == route.endpoint && r.configuredEndpoint == route.configuredEndpoint)
         && route.endpoint.host.V4? && route.endpoint.host.address != 0 && route.endpoint.port != 0) {
      return Err(NotOneEndpoint);
    }
    if route.persistentKeepalive == 0 {
      return Err(KeepaliveRequired);
    }
    if !RecoveryConfigured(interface, route) {
      return Err(RecoveryRequired);
    }
    result := Ok(route);
  }

  function DefaultRoutes(metadata: seq<RouteMetadata>): seq<RouteMetadata> {
    if metadata == [] then []
    else (if metadata[0].prefix == DEFAULT_ROUTE then [metadata[0]] else []) + DefaultRoutes(metadata[1..])
  }

  lemma {:induction false} FilteredAreListed(metadata: seq<RouteMetadata>, kind: RouteKind)
    ensures forall r :: r in IncludedBy(metadata, kind) <==> r in metadata && r.kind == kind
  {
    if metadata != [] {
      FilteredAreListed(metadata[1..], kind);
      assert metadata == [metadata[0]] + metadata[1..];
    }
  }

  lemma {:induction false} DefaultsAreListed(metadata: seq<RouteMetadata>)
    ensures forall r :: r in DefaultRoutes(metadata) <==> r in metadata && r.prefix == DEFAULT_ROUTE
  {
    if metadata != [] {
      DefaultsAreListed(metadata[1..]);
      assert metadata == [metadata[0]] + metadata[1..];
    }
  }

  /** The configurations for which each mode returns a plan. */
  predicate Plannable(interface: InterfaceMetadata, routes: seq<RouteMetadata>, policy: NetworkPolicy) {
    var tunnel, exclusions := IncludedBy(routes, Included), Specs(IncludedBy(routes, Excluded));
    var included := Specs(tunnel);
    && tunnel != [] && routes != []
    && interface.listenPort == 0
    && (forall r :: r in routes ==> EndpointPresent(r))
    && |exclusions| <= MAXIMUM_EXCLUDED_ROUTE_COUNT
    && match policy.routePolicy
       case HostRoutesOnly =>
         && exclusions == []
         && (forall r :: r in tunnel ==> r.prefix.length == 32)
         && (forall r, s :: r in tunnel && s in tunnel ==> s.endpoint.host != V4(r.prefix.network))
       case _ =>
         && |tunnel| <= MAXIMUM_SPLIT_ROUTE_COUNT
         && (if policy.routePolicy.SplitRoutes? then forall r :: r in tunnel ==> r.prefix.length > 0
             else |DefaultRoutes(tunnel)| == 1)
         && ProtectedPolicy(interface, routes)
         && AllCovered(exclusions, included)
         && routes[0].endpoint.host.address !in policy.dnsServers
         && AllTunnelled(policy.dnsServers, included, exclusions)
  }

  /** What a plan is for, with these routes leading into the tunnel. */
  ghost predicate PlanKeeps(plan: Plan, tunnelRoutes: seq<Prefix>, routes: seq<RouteMetadata>) {
    // no peer endpoint enters the tunnel
    && (forall r :: r in routes && r.endpoint.host.V4? ==>
          !IsRoutedToTunnel(r.endpoint.host.address, tunnelRoutes, plan.excludedRoutes))
    // every other decision is the configured one
    && (forall a: Address :: (forall r :: r in routes ==> r.endpoint.host != V4(a)) ==>
          IsRoutedToTunnel(a, tunnelRoutes, plan.excludedRoutes) ==
          IsRoutedToTunnel(a, plan.includedRoutes, Specs(IncludedBy(routes, Excluded))))
    // every DNS server does
    && (forall s :: s in plan.dnsServers ==> IsRoutedToTunnel(s, tunnelRoutes, plan.excludedRoutes))
  }

  /** The exclusions are the configured ones and at most the endpoint. */
  ghost predicate ExclusionsAccounted(plan: Plan, routes: seq<RouteMetadata>) {
    forall e :: e in plan.excludedRoutes ==>
      e in Specs(IncludedBy(routes, Excluded))
      || exists r :: r in routes && r.endpoint.host == V4(e.network) && e.length == 32
  }

  method MakePlan(interface: InterfaceMetadata, routes: seq<RouteMetadata>, policy: NetworkPolicy)
    returns (result: Result<Plan, PlanError>)
    requires policy.Valid()
    ensures result.Ok? <==> Plannable(interface, routes, policy)
    ensures result.Ok? ==>
              && result.value.includedRoutes == Specs(IncludedBy(routes, Included))
              && result.value.dnsServers == policy.dnsServers
              && PlanKeeps(result.value, result.value.includedRoutes, routes)
              && ExclusionsAccounted(result.value, routes)
    // the same for the routes that are installed, unless a default route was excluded
    ensures result.Ok? && (forall e :: e in Specs(IncludedBy(routes, Excluded)) ==> e.length > 0) ==>
              PlanKeeps(result.value, PacketTunnelIncludedRoutes(result.value.includedRoutes), routes)
  {
    var tunnel, excludedMetadata := IncludedBy(routes, Included), IncludedBy(routes, Excluded);
    FilteredAreListed(routes, Included);
    if tunnel == [] {
      return Err(NoRoutes);
    }
    if interface.listenPort != 0 {
      return Err(ListenPortFixed);
    }
    if !(forall r :: r in routes ==> EndpointPresent(r)) {
      return Err(BadEndpoint);
    }
    if |excludedMetadata| > MAXIMUM_EXCLUDED_ROUTE_COUNT {
      return Err(TooManyExclusions);
    }
    assert routes != [];
    match policy.routePolicy {
      case HostRoutesOnly =>
        result := PlanHostRoutes(routes, tunnel, excludedMetadata);
      case SplitRoutes =>
        if |tunnel| > MAXIMUM_SPLIT_ROUTE_COUNT {
          return Err(TooManyRoutes);
        }
        if !(forall r :: r in tunnel ==> r.prefix.length > 0) {
          return Err(DefaultNotAllowed);
        }
        result := PlanProtected(interface, routes, policy.dnsServers, routes[0]);
      case FullTunnel =>
        if |tunnel| > MAXIMUM_SPLIT_ROUTE_COUNT {
          return Err(TooManyRoutes);
        }
        var defaults := DefaultRoutes(tunnel);
        if |defaults| != 1 {
          return Err(NotOneDefault);
        }
        DefaultsAreListed(tunnel);
        assert defaults[0] in defaults;
        result := PlanProtected(interface, routes, policy.dnsServers, defaults[0]);
    }
    if result.Ok? && forall e :: e in Specs(IncludedBy(routes, Excluded)) ==> e.length > 0 {
      InstalledRoutesKeepThePlan(result.value, routes);
    }
  }

  method PlanHostRoutes(routes: seq<RouteMetadata>, tunnel: seq<RouteMetadata>, excludedMetadata: seq<RouteMetadata>)
    returns (result: Result<Plan, PlanError>)
    requires tunnel == IncludedBy(routes, Included) && excludedMetadata == IncludedBy(routes, Excluded)
    ensures result.Ok? <==>
              && excludedMetadata == []
              && (forall r :: r in tunnel ==> r.prefix.length == 32)
              && (forall r, s :: r in tunnel && s in tunnel ==> s.endpoint.host != V4(r.prefix.network))
    ensures result.Ok? ==> result.value == Plan(Specs(tunnel), [], [])
    ensures result.Ok? ==> forall r :: r in routes && r.endpoint.host.V4? ==>
              !IsRoutedToTunnel(r.endpoint.host.address, Specs(tunnel), [])
  {
    if excludedMetadata != [] {
      return Err(ExclusionsNotAllowed);
    }
    if !(forall r :: r in tunnel ==> r.prefix.length == 32) {
      return Err(OnlyHostRoutes);
    }
    var endpointHosts := set r | r in tunnel && r.endpoint.host.V4? :: r.endpoint.host;
    if exists r :: r in tunnel && V4(r.prefix.network) in endpointHosts {
      return Err(RouteEqualsEndpoint);
    }
    result := Ok(Plan(Specs(tunnel), [], []));
    FilteredAreListed(routes, Included);
    FilteredAreListed(routes, Excluded);
    forall r | r in routes && r.endpoint.host.V4?
      ensures !IsRoutedToTunnel(r.endpoint.host.address, Specs(tunnel), [])
    {
      assert r.kind == Included || r in excludedMetadata;
      HostRoutesMissOthers(tunnel, r.endpoint.host.address);
    }
  }

  lemma HostRoutesMissOthers(tunnel: seq<RouteMetadata>, a: Address)
    requires forall r :: r in tunnel ==> r.prefix.length == 32 && r.prefix.network != a
    ensures LongestContaining(Specs(tunnel), a) == None
  {
    LongestIsMaximum(Specs(tunnel), a);
    forall p | p in Specs(tunnel) ensures !p.Contains(a) {
      var i :| 0 <= i < |tunnel| && Specs(tunnel)[i] == p;
      assert tunnel[i] in tunnel;
      HostContainsItself(p.network, a);
    }
  }

  /** The common part of split and full tunnel planning; `route` is the record whose endpoint is protected. */
  method PlanProtected(interface: InterfaceMetadata, routes: seq<RouteMetadata>, dnsServers: seq<Address>,
                       route: RouteMetadata)
    returns (result: Result<Plan, PlanError>)
    requires routes != [] && route in routes
    ensures result.Ok? <==>
              && ProtectedPolicy(interface, routes)
              && AllCovered(Specs(IncludedBy(routes, Excluded)), Specs(IncludedBy(routes, Included)))
              && routes[0].endpoint.host.address !in dnsServers
              && AllTunnelled(dnsServers, Specs(IncludedBy(routes, Included)), Specs(IncludedBy(routes, Excluded)))
    ensures result.Ok? ==>
              var plan, endpoint := result.value, routes[0].endpoint.host.address;
              var included, exclusions := Specs(IncludedBy(routes, Included)), Specs(IncludedBy(routes, Excluded));
              && plan.includedRoutes == included && plan.dnsServers == dnsServers
              && (forall a: Address ::
                    (IsRoutedToTunnel(a, included, plan.excludedRoutes) <==>
                     a != endpoint && IsRoutedToTunnel(a, included, exclusions)))
              && (forall e :: e in plan.excludedRoutes ==> e in exclusions || e == RawPrefix.Prefix(endpoint, 32))
  {
    var validated := ValidateProtectedPolicy(interface, routes);
    if validated.Err? {
      return Err(validated.error);
    }
    var endpoint := route.endpoint.host.address;
    var included, exclusions := Specs(IncludedBy(routes, Included)), Specs(IncludedBy(routes, Excluded));
    var excluded := ProtectedExclusions(exclusions, endpoint, included);
    assert route.endpoint == routes[0].endpoint;
    if excluded.Err? {
      return Err(excluded.error);
    }
    forall e | e in excluded.value ensures e in exclusions || e == RawPrefix.Prefix(endpoint, 32) {
      assert e in multiset(excluded.value);
    }
    var dns := ValidateDNS(dnsServers, endpoint, included, excluded.value);
    if dns.Err? {
      return Err(dns.error);
    }
    result := Ok(Plan(included, excluded.value, dnsServers));
  }

  /**
   The same guarantees for the routes that are installed, with the default route
   as two halves, when no configured exclusion is a default route.
   */
  lemma InstalledRoutesKeepThePlan(plan: Plan, routes: seq<RouteMetadata>)
    requires PlanKeeps(plan, plan.includedRoutes, routes) && ExclusionsAccounted(plan, routes)
    requires forall e :: e in Specs(IncludedBy(routes, Excluded)) ==> e.length > 0
    ensures PlanKeeps(plan, PacketTunnelIncludedRoutes(plan.includedRoutes), routes)
  {
    forall a: Address
      ensures IsRoutedToTunnel(a, PacketTunnelIncludedRoutes(plan.includedRoutes), plan.excludedRoutes) ==
              IsRoutedToTunnel(a, plan.includedRoutes, plan.excludedRoutes)
    {
      SplitKeepsEveryDecision(plan.includedRoutes, plan.excludedRoutes, a);
    }
  }
}
