/** The route table and longest-prefix lookup of src/router.rs. */
module Routing {
  import opened Wrappers
  import opened Prefixes

  datatype Endpoint = Endpoint(v4: Option<Address>, port: nat)

  datatype PeerConfig = PeerConfig(name: string, endpoint: Endpoint, allowedIps: seq<Prefix>, excludedIps: seq<Prefix>)

  datatype Peer = Peer(name: string, endpoint: Endpoint, excludedIps: seq<Prefix>)

  datatype Route = Route(prefix: Prefix, peer: Peer)

  datatype RouterError = DuplicatePrefix(prefix: Prefix, firstPeer: string, secondPeer: string)

  datatype Router = Router(routes: seq<Route>, excludedRoutes: seq<Route>)

  function PeerFromConfig(config: PeerConfig): Peer {
    Peer(config.name, config.endpoint, config.excludedIps)
  }

  function RoutesTo(peer: Peer, prefixes: seq<Prefix>): (routes: seq<Route>)
    ensures |routes| == |prefixes|
  {
    seq(|prefixes|, i requires 0 <= i < |prefixes| => Route(prefixes[i], peer))
  }

  /** Every allowed prefix with its peer, in configuration order. */
  function ConfiguredRoutes(peers: seq<PeerConfig>): seq<Route> {
    if peers == [] then []
    else
      var last := peers[|peers| - 1];
      ConfiguredRoutes(peers[..|peers| - 1]) + RoutesTo(PeerFromConfig(last), last.allowedIps)
  }

  function ConfiguredExclusions(peers: seq<PeerConfig>): seq<Route> {
    if peers == [] then []
    else
      var last := peers[|peers| - 1];
      ConfiguredExclusions(peers[..|peers| - 1]) + RoutesTo(PeerFromConfig(last), last.excludedIps)
  }

  lemma RoutesOfOnePeer(config: PeerConfig)
    ensures ConfiguredRoutes([config]) == RoutesTo(PeerFromConfig(config), config.allowedIps)
  {
    var none: seq<PeerConfig> := [];
    assert [config][..|[config]| - 1] == none;
    assert ConfiguredRoutes(none) == [];
  }

  ghost predicate DistinctPrefixes(routes: seq<Route>) {
    forall i, j :: 0 <= i < j < |routes| ==> routes[i].prefix != routes[j].prefix
  }

  // ---------------------------------------------------------------------------
  // The stable sort by descending prefix length.
  // ---------------------------------------------------------------------------

  /** Put `x` in front of every route no longer than it: earlier routes of one length stay earlier. */
  function Insert(x: Route, sorted: seq<Route>): seq<Route> {
    if sorted != [] && sorted[0].prefix.length > x.prefix.length then [sorted[0]] + Insert(x, sorted[1..])
    else [x] + sorted
  }

  function StableSort(routes: seq<Route>): seq<Route> {
    if routes == [] then [] else Insert(routes[0], StableSort(routes[1..]))
  }

  ghost predicate Descending(routes: seq<Route>) {
    forall i, j :: 0 <= i < j < |routes| ==> routes[i].prefix.length >= routes[j].prefix.length
  }

  function OfLength(routes: seq<Route>, length: nat): seq<Route> {
    if routes == [] then []
    else if routes[0].prefix.length == length then [routes[0]] + OfLength(routes[1..], length)
    else OfLength(routes[1..], length)
  }

  lemma {:induction false} InsertKeepsOrder(x: Route, sorted: seq<Route>)
    requires Descending(sorted)
    ensures Descending(Insert(x, sorted))
    ensures multiset(Insert(x, sorted)) == multiset(sorted) + multiset{x}
  {
    if sorted != [] && sorted[0].prefix.length > x.prefix.length {
      InsertKeepsOrder(x, sorted[1..]);
      assert sorted == [sorted[0]] + sorted[1..];
      var rest := Insert(x, sorted[1..]);
      forall r | r in rest ensures sorted[0].prefix.length >= r.prefix.length {
        assert r in multiset(rest);
        assert r in sorted[1..] || r == x;
      }
    }
  }

  lemma {:induction false} InsertIsStable(x: Route, sorted: seq<Route>, length: nat)
    requires Descending(sorted)
    ensures OfLength(Insert(x, sorted), length) ==
            if x.prefix.length == length then [x] + OfLength(sorted, length) else OfLength(sorted, length)
  {
    if sorted != [] && sorted[0].prefix.length > x.prefix.length {
      InsertIsStable(x, sorted[1..], length);
      assert Insert(x, sorted)[1..] == Insert(x, sorted[1..]);
    } else {
      assert Insert(x, sorted)[1..] == sorted;
    }
  }

  lemma {:induction false} SortOrders(routes: seq<Route>)
    ensures Descending(StableSort(routes))
    ensures multiset(StableSort(routes)) == multiset(routes)
  {
    if routes != [] {
      SortOrders(routes[1..]);
      InsertKeepsOrder(routes[0], StableSort(routes[1..]));
      assert routes == [routes[0]] + routes[1..];
    }
  }

  /** The sort orders by length, keeps every route, and keeps routes of one length in order. */
  lemma {:induction false} SortIsStable(routes: seq<Route>, length: nat)
    ensures Descending(StableSort(routes))
    ensures multiset(StableSort(routes)) == multiset(routes)
    ensures OfLength(StableSort(routes), length) == OfLength(routes, length)
  {
    SortOrders(routes);
    if routes != [] {
      SortIsStable(routes[1..], length);
      InsertIsStable(routes[0], StableSort(routes[1..]), length);
    }
  }

  // ---------------------------------------------------------------------------
  // Lookup.
  // ---------------------------------------------------------------------------

  predicate Selects(route: Route, destination: Address) {
    if !route.prefix.Contains(destination) then false
    else
      match LongestContaining(route.peer.excludedIps, destination)
      case None => true
      case Some(excluded) => route.prefix.length > excluded
  }

  function LookupIn(routes: seq<Route>, destination: Address): Option<Route> {
    if routes == [] then None
    else if Selects(routes[0], destination) then Some(routes[0])
    else LookupIn(routes[1..], destination)
  }

  /**
   What a lookup must answer, on the routes in configuration order: a containing
   route strictly longer than its peer's longest containing exclusion, of
   maximal length, the first such one.
   */
  ghost predicate Eligible(route: Route, destination: Address) {
    && route.prefix.Contains(destination)
    && forall e :: e in route.peer.excludedIps && e.Contains(destination) ==> e.length < route.prefix.length
  }

  ghost predicate BestAt(routes: seq<Route>, destination: Address, i: nat)
    requires i < |routes|
  {
    && Eligible(routes[i], destination)
    && forall j :: 0 <= j < |routes| && Eligible(routes[j], destination) ==>
         routes[j].prefix.length < routes[i].prefix.length
         || (routes[j].prefix.length == routes[i].prefix.length && i <= j)
  }

  lemma SelectsMeansEligible(route: Route, destination: Address)
    ensures Selects(route, destination) <==> Eligible(route, destination)
  {
    LongestIsMaximum(route.peer.excludedIps, destination);
  }

  lemma {:induction false} LookupAfterInsert(x: Route, sorted: seq<Route>, destination: Address)
    requires Descending(sorted)
    ensures LookupIn(Insert(x, sorted), destination) ==
            var found := LookupIn(sorted, destination);
            if Selects(x, destination) && (found == None || found.value.prefix.length <= x.prefix.length) then Some(x)
            else found
  {
    if sorted != [] && sorted[0].prefix.length > x.prefix.length {
      LookupAfterInsert(x, sorted[1..], destination);
      assert Insert(x, sorted)[1..] == Insert(x, sorted[1..]);
    } else {
      assert Insert(x, sorted)[1..] == sorted;
      FoundIsNoLonger(sorted, destination);
    }
  }

  lemma {:induction false} FoundIsNoLonger(sorted: seq<Route>, destination: Address)
    requires Descending(sorted)
    ensures LookupIn(sorted, destination).Some? ==>
        LookupIn(sorted, destination).value.prefix.length <= sorted[0].prefix.length
  {
    if |sorted| > 1 {
      assert sorted[1].prefix.length <= sorted[0].prefix.length;
      FoundIsNoLonger(sorted[1..], destination);
    }
  }

  lemma BestOfRest(routes: seq<Route>, destination: Address, i: nat)
    requires routes != [] && i < |routes| - 1
    requires BestAt(routes[1..], destination, i)
    ensures if Eligible(routes[0], destination) && routes[i + 1].prefix.length <= routes[0].prefix.length
            then BestAt(routes, destination, 0) else BestAt(routes, destination, i + 1)
  {
    forall j | 1 <= j < |routes| ensures routes[j] == routes[1..][j - 1] {}
  }

  lemma BestAlone(routes: seq<Route>, destination: Address)
    requires routes != [] && Eligible(routes[0], destination)
    requires forall j :: 0 <= j < |routes[1..]| ==> !Eligible(routes[1..][j], destination)
    ensures BestAt(routes, destination, 0)
  {
    forall j | 1 <= j < |routes| ensures !Eligible(routes[j], destination) {
      assert routes[j] == routes[1..][j - 1];
    }
  }

  lemma NoneEligible(routes: seq<Route>, destination: Address)
    requires routes != [] && !Eligible(routes[0], destination)
    requires forall j :: 0 <= j < |routes[1..]| ==> !Eligible(routes[1..][j], destination)
    ensures forall j :: 0 <= j < |routes| ==> !Eligible(routes[j], destination)
  {
    forall j | 1 <= j < |routes| ensures !Eligible(routes[j], destination) {
      assert routes[j] == routes[1..][j - 1];
    }
  }

  lemma {:induction false} LookupFindsBest(routes: seq<Route>, destination: Address) returns (i: nat)
    ensures var found := LookupIn(StableSort(routes), destination);
            if found == None then forall j :: 0 <= j < |routes| ==> !Eligible(routes[j], destination)
            else i < |routes| && BestAt(routes, destination, i) && found == Some(routes[i])
  {
    i := 0;
    if routes == [] {
      return;
    }
    var x, rest := routes[0], routes[1..];
    var r := LookupFindsBest(rest, destination);
    SortOrders(rest);
    LookupAfterInsert(x, StableSort(rest), destination);
    SelectsMeansEligible(x, destination);
    if LookupIn(StableSort(rest), destination).Some? {
      BestOfRest(routes, destination, r);
      i := if Eligible(x, destination) && rest[r].prefix.length <= x.prefix.length then 0 else r + 1;
    } else if Eligible(x, destination) {
      BestAlone(routes, destination);
    } else {
      NoneEligible(routes, destination);
    }
  }

  /** Lookup on the sorted table equals the declarative answer for every address. */
  lemma LookupIsBest(routes: seq<Route>, destination: Address)
    ensures var found := LookupIn(StableSort(routes), destination);
            && (found == None <==> forall i :: 0 <= i < |routes| ==> !Eligible(routes[i], destination))
            && (found.Some? ==> exists i :: 0 <= i < |routes| && BestAt(routes, destination, i))
            && (forall i :: 0 <= i < |routes| && BestAt(routes, destination, i) ==> found == Some(routes[i]))
  {
    var best := LookupFindsBest(routes, destination);
  }

  /** A listed route that is eligible and of maximal length: one that some order of the routes would select. */
  ghost predicate Top(routes: seq<Route>, destination: Address, r: Route) {
    && r in routes && Eligible(r, destination)
    && forall q :: q in routes && Eligible(q, destination) ==> q.prefix.length <= r.prefix.length
  }

  ghost predicate SameMembers(routes: seq<Route>, others: seq<Route>) {
    forall r: Route :: r in routes <==> r in others
  }

  /** In any order, the answer is a top route, if there is one. */
  lemma FoundIsTop(routes: seq<Route>, others: seq<Route>, destination: Address)
    requires SameMembers(routes, others)
    ensures var found := LookupIn(StableSort(others), destination);
            if found.Some? then Top(routes, destination, found.value) else forall r :: !Top(routes, destination, r)
  {
    LookupIsBest(others, destination);
    if i :| 0 <= i < |others| && BestAt(others, destination, i) {
      assert others[i] in routes;
      forall q | q in routes && Eligible(q, destination) ensures q.prefix.length <= others[i].prefix.length {
        var j :| 0 <= j < |others| && others[j] == q;
      }
    } else {
      forall r | r in routes ensures !Eligible(r, destination) {
        var j :| 0 <= j < |others| && others[j] == r;
      }
    }
  }

  /** Every top route is the answer in some order. */
  lemma TopInFrontIsFound(routes: seq<Route>, destination: Address, r: Route) returns (order: seq<Route>)
    requires Top(routes, destination, r)
    ensures multiset(order) == multiset(routes) && LookupIn(StableSort(order), destination) == Some(r)
  {
    var i :| 0 <= i < |routes| && routes[i] == r;
    order := [r] + (routes[..i] + routes[i + 1..]);
    assert routes == routes[..i] + [r] + routes[i + 1..];
    forall j | 0 <= j < |order| && Eligible(order[j], destination) ensures order[j].prefix.length <= r.prefix.length {
      assert order[j] in multiset(order);
      assert order[j] in routes;
    }
    assert BestAt(order, destination, 0);
    LookupIsBest(order, destination);
  }

  /**
   Exactly when the order of the routes decides the answer for an address: two
   different routes are eligible for it, both of maximal length.
   */
  lemma OrderMattersIff(routes: seq<Route>, destination: Address)
    ensures (exists a, b ::
              && multiset(a) == multiset(b) == multiset(routes)
              && LookupIn(StableSort(a), destination) != LookupIn(StableSort(b), destination))
            <==> (exists r, s :: Top(routes, destination, r) && Top(routes, destination, s) && r != s)
  {
    if r, s :| Top(routes, destination, r) && Top(routes, destination, s) && r != s {
      var a := TopInFrontIsFound(routes, destination, r);
      var b := TopInFrontIsFound(routes, destination, s);
    } else {
      forall a, b | multiset(a) == multiset(b) == multiset(routes)
        ensures LookupIn(StableSort(a), destination) == LookupIn(StableSort(b), destination)
      {
        SameMultiset(routes, a);
        SameMultiset(routes, b);
        FoundIsTop(routes, a, destination);
        FoundIsTop(routes, b, destination);
      }
    }
  }

  lemma SameMultiset(routes: seq<Route>, others: seq<Route>)
    requires multiset(routes) == multiset(others)
    ensures SameMembers(routes, others)
  {
    forall r: Route ensures r in routes <==> r in others {
      assert r in routes <==> r in multiset(routes);
      assert r in others <==> r in multiset(others);
    }
  }

  /** Different canonical prefixes leave one top route at most. */
  lemma CanonicalTopIsUnique(routes: seq<Route>, destination: Address, r: Route, s: Route)
    requires DistinctPrefixes(routes) && forall q :: q in routes ==> q.prefix.Canonical()
    requires Top(routes, destination, r) && Top(routes, destination, s)
    ensures r == s
  {
    CanonicalMatchIsUnique(r.prefix, s.prefix, destination);
    var i, j :| 0 <= i < |routes| && 0 <= j < |routes| && routes[i] == r && routes[j] == s;
  }

  /** So with canonical prefixes the answer does not depend on the order of the peers. */
  lemma LookupIgnoresPeerOrder(routes: seq<Route>, others: seq<Route>, destination: Address)
    requires SameMembers(routes, others)
    requires DistinctPrefixes(routes)
    requires forall r: Route :: r in routes ==> r.prefix.Canonical()
    ensures LookupIn(StableSort(routes), destination) == LookupIn(StableSort(others), destination)
  {
    var a, b := LookupIn(StableSort(routes), destination), LookupIn(StableSort(others), destination);
    FoundIsTop(routes, routes, destination);
    FoundIsTop(routes, others, destination);
    if a.Some? && b.Some? {
      CanonicalTopIsUnique(routes, destination, a.value, b.value);
    }
  }

  /** Without canonical prefixes it can: two spellings of one network, one per peer. */
  lemma OrderMattersForLooseNetworks()
    ensures exists a: Route, b: Route, destination: Address ::
              && DistinctPrefixes([a, b])
              && LookupIn(StableSort([a, b]), destination) != LookupIn(StableSort([b, a]), destination)
  {
    var a := Route(RawPrefix.Prefix(1, 24), Peer("first", Endpoint(None, 0), []));
    var b := Route(RawPrefix.Prefix(2, 24), Peer("second", Endpoint(None, 0), []));
    assert Bits.Pow2(8) == 256;
    assert Selects(a, 3) && Selects(b, 3);
    assert [a, b][1..] == [b] && [b, a][1..] == [a] && [a][1..] == [] && [b][1..] == [];
    assert StableSort([a]) == [a] && StableSort([b]) == [b];
    assert StableSort([a, b]) == [a, b] && StableSort([b, a]) == [b, a];
    assert LookupIn(StableSort([a, b]), 3) != LookupIn(StableSort([b, a]), 3);
  }

  // ---------------------------------------------------------------------------
  // Building the table.
  // ---------------------------------------------------------------------------

  /** The first prefix that repeats an earlier one, in configuration order. */
  ghost predicate FirstDuplicate(routes: seq<Route>, error: RouterError) {
    exists i, j ::
      && 0 <= i < j < |routes|
      && DistinctPrefixes(routes[..j])
      && routes[i].prefix == routes[j].prefix == error.prefix
      && routes[i].peer.name == error.firstPeer && routes[j].peer.name == error.secondPeer
  }

  method NewRouter(peers: seq<PeerConfig>) returns (result: Result<Router, RouterError>)
    ensures result.Ok? <==> DistinctPrefixes(ConfiguredRoutes(peers))
    ensures result.Ok? ==> result.value.routes == StableSort(ConfiguredRoutes(peers))
                           && result.value.excludedRoutes == StableSort(ConfiguredExclusions(peers))
    ensures result.Err? ==> FirstDuplicate(ConfiguredRoutes(peers), result.error)
  {
    var routes, excludedRoutes := [], [];
    for n := 0 to |peers|
      invariant routes == ConfiguredRoutes(peers[..n]) && excludedRoutes == ConfiguredExclusions(peers[..n])
      invariant DistinctPrefixes(routes)
    {
      var peer := PeerFromConfig(peers[n]);
      assert peers[..n + 1][..n] == peers[..n];
      var extended := AddRoutes(routes, peer, peers[n].allowedIps);
      ConfiguredExtends(peers, n, routes + RoutesTo(peer, peers[n].allowedIps));
      if extended.Err? {
        DuplicateStays(routes + RoutesTo(peer, peers[n].allowedIps), ConfiguredRoutes(peers), extended.error);
        return Err(extended.error);
      }
      routes := extended.value;
      excludedRoutes := excludedRoutes + RoutesTo(peer, peers[n].excludedIps);
    }
    assert peers[..|peers|] == peers;
    result := Ok(Router(StableSort(routes), StableSort(excludedRoutes)));
  }

  /** Add the routes of one peer, unless one of their prefixes is there already. */
  method AddRoutes(routes: seq<Route>, peer: Peer, allowed: seq<Prefix>)
    returns (result: Result<seq<Route>, RouterError>)
    requires DistinctPrefixes(routes)
    ensures result.Ok? ==> result.value == routes + RoutesTo(peer, allowed) && DistinctPrefixes(result.value)
    ensures result.Err? ==> FirstDuplicate(routes + RoutesTo(peer, allowed), result.error)
  {
    ghost var all := routes + RoutesTo(peer, allowed);
    var table := routes;
    for k := 0 to |allowed|
      invariant table == all[..|routes| + k]
      invariant DistinctPrefixes(table)
    {
      var existing := FindPrefix(table, allowed[k]);
      if existing.Some? {
        assert all[existing.value] == table[existing.value] && all[|table|] == Route(allowed[k], peer);
        return Err(DuplicatePrefix(allowed[k], table[existing.value].peer.name, peer.name));
      }
      table := table + [Route(allowed[k], peer)];
    }
    result := Ok(table);
  }

  lemma DuplicateStays(routes: seq<Route>, longer: seq<Route>, error: RouterError)
    requires FirstDuplicate(routes, error) && routes <= longer
    ensures FirstDuplicate(longer, error) && !DistinctPrefixes(longer)
  {
    var i, j :|
      && 0 <= i < j < |routes| && DistinctPrefixes(routes[..j])
      && routes[i].prefix == routes[j].prefix == error.prefix
      && routes[i].peer.name == error.firstPeer && routes[j].peer.name == error.secondPeer;
    assert longer[..j] == routes[..j] && longer[i] == routes[i] && longer[j] == routes[j];
  }

  method FindPrefix(routes: seq<Route>, prefix: Prefix) returns (index: Option<nat>)
    ensures index.Some? ==> index.value < |routes| && routes[index.value].prefix == prefix
    ensures index.None? ==> forall i :: 0 <= i < |routes| ==> routes[i].prefix != prefix
  {
    for i := 0 to |routes|
      invariant forall j :: 0 <= j < i ==> routes[j].prefix != prefix
    {
      if routes[i].prefix == prefix {
        return Some(i);
      }
    }
    index := None;
  }

  lemma {:induction false} ConfiguredExtends(peers: seq<PeerConfig>, n: nat, routes: seq<Route>)
    requires n < |peers|
    requires routes == ConfiguredRoutes(peers[..n]) + RoutesTo(PeerFromConfig(peers[n]), peers[n].allowedIps)
    ensures routes <= ConfiguredRoutes(peers)
  {
    assert peers[..n + 1][..n] == peers[..n];
    assert routes == ConfiguredRoutes(peers[..n + 1]);
    ConfiguredPrefix(peers, n + 1);
  }

  lemma {:induction false} ConfiguredPrefix(peers: seq<PeerConfig>, n: nat)
    requires n <= |peers|
    ensures ConfiguredRoutes(peers[..n]) <= ConfiguredRoutes(peers)
  {
    if n < |peers| {
      var front := peers[..|peers| - 1];
      assert front[..n] == peers[..n];
      ConfiguredPrefix(front, n);
    } else {
      assert peers[..n] == peers;
    }
  }

  /** An endpoint that can be dialled: IPv4, specified, with a port. */
  predicate Dialable(endpoint: Endpoint) {
    endpoint.v4.Some? && endpoint.port != 0 && endpoint.v4.value != 0
  }

  predicate Captured(router: Router, peer: Peer) {
    Dialable(peer.endpoint) && LookupIn(router.routes, peer.endpoint.v4.value).Some?
  }

  /** One peer for each endpoint address that the tunnel routes themselves would capture. */
  method EndpointExceptionPeers(router: Router) returns (peers: seq<Peer>)
    ensures forall p :: p in peers ==> Captured(router, p) && exists r :: r in router.routes && r.peer == p
    ensures forall i, j :: 0 <= i < j < |peers| ==> peers[i].endpoint.v4 != peers[j].endpoint.v4
    ensures forall r :: r in router.routes && Captured(router, r.peer) ==>
              exists p :: p in peers && p.endpoint.v4 == r.peer.endpoint.v4
  {
    var seen: set<Address> := {};
    peers := [];
    for n := 0 to |router.routes|
      invariant forall p :: p in peers ==> Captured(router, p) && exists r :: r in router.routes && r.peer == p
      invariant forall i, j :: 0 <= i < j < |peers| ==> peers[i].endpoint.v4 != peers[j].endpoint.v4
      invariant forall a :: a in seen <==> exists p :: p in peers && p.endpoint.v4 == Some(a)
      invariant forall i :: 0 <= i < n && Captured(router, router.routes[i].peer) ==>
                  router.routes[i].peer.endpoint.v4.value in seen
    {
      var peer := router.routes[n].peer;
      if peer.endpoint.v4.None? || peer.endpoint.port == 0 || peer.endpoint.v4.value == 0 {
        continue;
      }
      var address := peer.endpoint.v4.value;
      if LookupIn(router.routes, address).Some? && address !in seen {
        seen := seen + {address};
        assert router.routes[n] in router.routes;
        ghost var before := peers;
        peers := peers + [peer];
        forall a | a in seen ensures exists p :: p in peers && p.endpoint.v4 == Some(a) {
          if a == address {
            assert peer in peers;
          } else {
            var p :| p in before && p.endpoint.v4 == Some(a);
            assert p in peers;
          }
        }
      }
    }
  }
}
