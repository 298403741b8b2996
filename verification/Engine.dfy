/**
 The packet engine of src/engine.rs: what one packet, timer or DNS update does
 to the sessions, the learned endpoints and the output.
 */
module Engines {
  import opened Wrappers
  import opened Prefixes
  import opened Wire
  import opened Noise
  import opened Sessions
  import opened SessionManagers
  import Routing

  datatype SocketAddress = SocketAddress(ip: nat, port: nat) {
    /** Neither the unspecified address nor port zero. */
    predicate Usable() {
      ip != 0 && port != 0
    }
  }

  datatype PeerStats = PeerStats(lastSeen: Option<Time>, txBytes: nat, rxBytes: nat, endpoint: Option<SocketAddress>)

  const NO_STATS := PeerStats(None, 0, 0, None)

  datatype EngineAction =
    | SendTransport(peer: Peer, endpoint: SocketAddress, frame: Packet)
    | WriteIpPacket(peer: Peer, source: SocketAddress, packet: seq<byte>)

  datatype Role = Initiator | Responder

  datatype EngineEvent = HandshakeCompleted(peer: Peer, endpoint: SocketAddress, role: Role)

  datatype EngineOutput = EngineOutput(actions: seq<EngineAction>, events: seq<EngineEvent>)

  const NOTHING := EngineOutput([], [])

  datatype PacketError = TooShort(length: nat) | NotIpv4(version: nat) | HeaderTooLong(header: nat, length: nat)

  datatype EngineError =
    | BadPacket(packetError: PacketError) | NoiseFailed(noiseError: NoiseError)
    | UnknownPeer(name: Peer) | InvalidPeerEndpoint(endpoint: SocketAddress)

  /** The immutable part: this node, its routes, and the configured endpoint of each peer. */
  datatype Setup = Setup(
    self: Node, routes: seq<Routing.Route>, node: map<string, Node>, configured: map<Node, SocketAddress>)
  {
    ghost predicate Valid() {
      forall r :: r in routes ==> r.peer.name in node && node[r.peer.name] in configured
    }

    ghost predicate Knows(peer: Peer)
      requires Valid()
    {
      exists r :: r in routes && node[r.peer.name] == peer
    }

    /** A peer without a usable configured endpoint waits to be called. */
    predicate Passive(peer: Peer)
      requires peer in configured
    {
      !configured[peer].Usable()
    }
  }

  datatype EngineState = EngineState(st: State, stats: map<Peer, PeerStats>, resolved: map<Peer, SocketAddress>)

  /** Everything random in one call, and whether the cipher accepts to seal. */
  datatype Draws = Draws(handshakeId: Id, sessionId: Id, ephemeral: Ephemeral, sealingWorks: bool)

  // ---------------------------------------------------------------------------
  // IPv4 headers (src/packet.rs).
  // ---------------------------------------------------------------------------

  function Destination(packet: seq<byte>): Result<Address, PacketError> {
    if |packet| < 20 then Err(TooShort(|packet|))
    else if packet[0] / 16 != 4 then Err(NotIpv4(packet[0] / 16))
    else if (packet[0] % 16) * 4 > |packet| then Err(HeaderTooLong((packet[0] % 16) * 4, |packet|))
    else
      var a: int, b: int, c: int, d: int := packet[16], packet[17], packet[18], packet[19];
      Ok(((a * 256 + b) * 256 + c) * 256 + d)
  }

  // ---------------------------------------------------------------------------
  // Statistics and endpoints (src/state.rs).
  // ---------------------------------------------------------------------------

  function StatsOf(es: EngineState, peer: Peer): PeerStats {
    if peer in es.stats then es.stats[peer] else NO_STATS
  }

  function Heard(es: EngineState, peer: Peer, source: SocketAddress, bytes: nat, now: Time): EngineState {
    var oldStats := StatsOf(es, peer);
    es.(stats := es.stats[peer := PeerStats(Some(now), oldStats.txBytes, oldStats.rxBytes + bytes, Some(source))])
  }

  function ConfiguredEndpoint(setup: Setup, es: EngineState, peer: Peer): SocketAddress
    requires peer in setup.configured
  {
    if peer in es.resolved then es.resolved[peer] else setup.configured[peer]
  }

  /** The learned endpoint when it is usable, otherwise the configured one when that is. */
  function ResolveEndpoint(setup: Setup, es: EngineState, peer: Peer): Option<SocketAddress>
    requires peer in setup.configured
  {
    var learned := StatsOf(es, peer).endpoint;
    if learned.Some? && learned.value.Usable() then learned
    else if ConfiguredEndpoint(setup, es, peer).Usable() then Some(ConfiguredEndpoint(setup, es, peer))
    else None
  }

  // ---------------------------------------------------------------------------
  // Sending.
  // ---------------------------------------------------------------------------

  function InitiatePeer(setup: Setup, es: EngineState, peer: Peer, now: Time,
                        draws: Draws): (EngineState, seq<EngineAction>)
    requires peer in setup.configured
  {
    match ResolveEndpoint(setup, es, peer)
    case None => (es, [])
    case Some(endpoint) =>
      var (after, packet) := StartOrRetry(es.st, setup.self, peer, draws.handshakeId, draws.ephemeral, now);
      (es.(st := after), if packet.Some? then [SendTransport(peer, endpoint, packet.value)] else [])
  }

  /** Seal a message for the peer, or start a handshake, or do both when the session should be replaced. */
  function SealOrInitiate(setup: Setup, es: EngineState, peer: Peer, msgType: MsgType, payload: seq<byte>, now: Time,
                          draws: Draws)
    : (EngineState, seq<EngineAction>)
    requires peer in setup.configured
  {
    var (after, result) := EncryptForPeer(es.st, peer, msgType, payload, now, draws.sealingWorks);
    match result
    case Ok(Some(frame)) =>
      var (started, first) := InitiatePeer(setup, es.(st := after), peer, now, draws);
      var endpoint := ResolveEndpoint(setup, started, peer);
      (started, first + if endpoint.Some? then [SendTransport(peer, endpoint.value, frame)] else [])
    case Ok(None) => InitiatePeer(setup, es.(st := after), peer, now, draws)
    case Err(_) => InitiatePeer(setup, es.(st := Invalidate(after, peer).0), peer, now, draws)
  }

  /** The active session of the peer will seal: it exists, is not expired, and the cipher works. */
  predicate WillSeal(es: EngineState, peer: Peer, now: Time, draws: Draws) {
    peer in es.st.sessions && !es.st.sessions[peer].IsExpired(now) && draws.sealingWorks
  }

  function OutboundIp(setup: Setup, es: EngineState, packet: seq<byte>, now: Time, draws: Draws)
    : (EngineState, Result<EngineOutput, EngineError>)
    requires setup.Valid()
  {
    match Destination(packet)
    case Err(e) => (es, Err(BadPacket(e)))
    case Ok(destination) =>
      var route := Routing.LookupIn(setup.routes, destination);
      if route == None then (es, Ok(NOTHING))
      else
        FoundIsListed(setup.routes, destination);
        var (after, actions) := SealOrInitiate(setup, es, setup.node[route.value.peer.name], Data, packet, now, draws);
        (after, Ok(EngineOutput(actions, [])))
  }

  lemma {:induction false} FoundIsListed(routes: seq<Routing.Route>, destination: Address)
    ensures var found := Routing.LookupIn(routes, destination);
            found.Some? ==> found.value in routes && Routing.Eligible(found.value, destination)
  {
    if routes != [] {
      Routing.SelectsMeansEligible(routes[0], destination);
      FoundIsListed(routes[1..], destination);
    }
  }

  // ---------------------------------------------------------------------------
  // Receiving.
  // ---------------------------------------------------------------------------

  /** The peer that made this first message for this node, if it is a configured one. */
  ghost predicate InitFrom(setup: Setup, handshakeId: Id, message: Message1)
    requires setup.Valid()
  {
    message.Init? && message.handshakeId == handshakeId && message.to == setup.self && setup.Knows(message.from)
  }

  /** Repeat the answer to a duplicate, or answer and keep the new session as a candidate. */
  function RepeatOrAnswer(self: Node, st: State, handshakeId: Id, message: Message1, now: Time,
                          draws: Draws): (State, Option<Packet>)
    requires message.Init? && message.handshakeId == handshakeId && message.to == self
  {
    var (st1, cached) := CachedResponse(st, message.from, handshakeId, message, now);
    if cached.Some? then (st1, cached)
    else
      var (answer, session) :=
        ResponderRespond(self, message.from, handshakeId, message, draws.sessionId, draws.ephemeral, now).value;
      var response := ResponsePacket(handshakeId, answer);
      var (st2, stored) := StoreCandidate(st1, message.from, session, handshakeId, message, response, now);
      (st2, if stored then Some(response) else None)
  }

  /** What an authentic first message does to the sessions, and the answer it gets. */
  function AnswerInit(self: Node, st: State, passive: bool, handshakeId: Id, message: Message1, now: Time, draws: Draws)
    : (State, Option<Packet>)
    requires message.Init? && message.handshakeId == handshakeId && message.to == self
  {
    var (accepting, accepted) := AcceptInbound(st, message.from, handshakeId, passive, now);
    if accepted then RepeatOrAnswer(self, accepting, handshakeId, message, now, draws) else (accepting, None)
  }

  ghost function InboundInit(setup: Setup, es: EngineState, handshakeId: Id, message: Message1, source: SocketAddress,
                             now: Time, draws: Draws)
    : (EngineState, EngineOutput)
    requires setup.Valid()
  {
    if !InitFrom(setup, handshakeId, message) then (es, NOTHING)
    else
      var (after, response) :=
        AnswerInit(setup.self, es.st, setup.Passive(message.from), handshakeId, message, now, draws);
      (es.(st := after),
       if response.Some? then EngineOutput([SendTransport(message.from, source, response.value)], []) else NOTHING)
  }

  /** `matched` is the pending exchange with this identifier that the manager found. */
  function InboundResponse(es: EngineState, matched: Option<Peer>, answer: Message2, source: SocketAddress, now: Time,
                           draws: Draws)
    : (EngineState, Result<EngineOutput, EngineError>)
    requires matched.Some? ==> matched.value in es.st.pending
  {
    if matched.None? then (es, Ok(NOTHING))
    else
      var (after, result) := FinalizeFor(es.st, matched.value, answer, now, draws.sealingWorks);
      match result
      case Err(e) => (es.(st := after), Err(NoiseFailed(e)))
      case Ok(None) => (es.(st := after), Ok(NOTHING))
      case Ok(Some((peer, confirmation))) =>
        (Heard(es.(st := after), peer, source, 0, now),
         Ok(EngineOutput([SendTransport(peer, source, confirmation)], [HandshakeCompleted(peer, source, Initiator)])))
  }

  function Deliver(es: EngineState, d: Decrypted, source: SocketAddress, now: Time,
                   draws: Draws): (EngineState, Result<EngineOutput, EngineError>) {
    var events := if d.promoted then [HandshakeCompleted(d.peer, source, Responder)] else [];
    match d.msgType
    case Keepalive =>
      var heard := Heard(es, d.peer, source, 0, now);
      if d.payload != KEEPALIVE_PROBE_PAYLOAD then (heard, Ok(EngineOutput([], events)))
      else
        var (after, result) :=
          EncryptForPeer(heard.st, d.peer, Keepalive, KEEPALIVE_ACK_PAYLOAD, now, draws.sealingWorks);
        (match result
         case Err(e) => (heard.(st := after), Err(NoiseFailed(e)))
         case Ok(None) => (heard.(st := after), Ok(EngineOutput([], events)))
         case Ok(Some(ack)) => (heard.(st := after), Ok(EngineOutput([SendTransport(d.peer, source, ack)], events))))
    case Data =>
      var heard := Heard(es, d.peer, source, |d.payload|, now);
      match Destination(d.payload)
      case Err(e) => (heard, Err(BadPacket(e)))
      case Ok(_) => (heard, Ok(EngineOutput([WriteIpPacket(d.peer, source, d.payload)], events)))
  }

  ghost function InboundTransport(es: EngineState, id: Id, counter: u64, cipher: Cipher, source: SocketAddress,
                                  now: Time, draws: Draws)
    : (EngineState, Result<EngineOutput, EngineError>)
  {
    var (after, result) := DecryptTransport(es.st, id, counter, cipher, now);
    match result
    case Err(e) => (es.(st := after), Err(NoiseFailed(e)))
    case Ok(None) => (es.(st := after), Ok(NOTHING))
    case Ok(Some(d)) => Deliver(es.(st := after), d, source, now, draws)
  }

  ghost predicate MatchedIn(st: State, handshakeId: Id, matched: Option<Peer>) {
    match matched
    case Some(p) => PendingMatch(st, p, handshakeId)
    case None => forall p :: !PendingMatch(st, p, handshakeId)
  }

  /** One frame from the transport; `None` is a frame that does not decode. */
  ghost function Inbound(setup: Setup, es: EngineState, frame: Option<Packet>, source: SocketAddress, now: Time,
                         draws: Draws, matched: Option<Peer>)
    : (EngineState, Result<EngineOutput, EngineError>)
    requires setup.Valid()
    requires frame.Some? && frame.value.ResponsePacket? ==> MatchedIn(es.st, frame.value.handshakeId, matched)
  {
    match frame
    case None => (es, Ok(NOTHING))
    case Some(InitPacket(handshakeId, message)) =>
      var (after, output) := InboundInit(setup, es, handshakeId, message, source, now, draws);
      (after, Ok(output))
    case Some(ResponsePacket(handshakeId, answer)) => InboundResponse(es, matched, answer, source, now, draws)
    case Some(TransportPacket(id, counter, cipher)) => InboundTransport(es, id, counter, cipher, source, now, draws)
  }

  // ---------------------------------------------------------------------------
  // DNS updates.
  // ---------------------------------------------------------------------------

  function ForgetEndpoint(stats: map<Peer, PeerStats>, peer: Peer): map<Peer, PeerStats> {
    if peer in stats then stats[peer := stats[peer].(endpoint := None)] else stats
  }

  ghost function UpdateResolved(setup: Setup, es: EngineState, peer: Peer,
                                endpoint: SocketAddress): (EngineState, Result<bool, EngineError>)
    requires setup.Valid()
  {
    if !endpoint.Usable() then (es, Err(InvalidPeerEndpoint(endpoint)))
    else if !setup.Knows(peer) then (es, Err(UnknownPeer(peer)))
    else if ConfiguredEndpoint(setup, es, peer) == endpoint then (es, Ok(false))
    else (EngineState(Invalidate(es.st, peer).0, ForgetEndpoint(es.stats, peer), es.resolved[peer := endpoint]),
          Ok(true))
  }

  // ---------------------------------------------------------------------------
  // Calls by peer name, as the adapters and the scheduler make them.
  // ---------------------------------------------------------------------------

  predicate HasActive(es: EngineState, peer: Peer, now: Time) {
    peer in es.st.sessions && !es.st.sessions[peer].IsExpired(now)
  }

  ghost function HandshakeFor(setup: Setup, es: EngineState, peer: Peer, now: Time,
                              draws: Draws): (EngineState, Result<EngineOutput, EngineError>)
    requires setup.Valid()
  {
    if !setup.Knows(peer) then (es, Err(UnknownPeer(peer)))
    else
      var (after, actions) := InitiatePeer(setup, es, peer, now, draws);
      (after, Ok(EngineOutput(actions, [])))
  }

  ghost function KeepaliveFor(setup: Setup, es: EngineState, peer: Peer, payload: seq<byte>, now: Time, draws: Draws)
    : (EngineState, Result<EngineOutput, EngineError>)
    requires setup.Valid()
  {
    if !setup.Knows(peer) then (es, Err(UnknownPeer(peer)))
    else
      var (after, actions) := SealOrInitiate(setup, es, peer, Keepalive, payload, now, draws);
      (after, Ok(EngineOutput(actions, [])))
  }

  // ---------------------------------------------------------------------------
  // The engine object.
  // ---------------------------------------------------------------------------

  class Engine {
    const setup: Setup
    const sessions: SessionManager
    var stats: map<Peer, PeerStats>
    var resolved: map<Peer, SocketAddress>

    ghost predicate Valid()
      reads this, sessions
    {
      setup.Valid() && sessions.Valid() && sessions.self == setup.self
    }

    ghost function View(): EngineState
      reads this, sessions
    {
      EngineState(sessions.View(), stats, resolved)
    }

    constructor (setup: Setup)
      requires setup.Valid()
      ensures Valid() && fresh(sessions) && this.setup == setup
      ensures View() == EngineState(EMPTY_STATE, map[], map[])
    {
      this.setup := setup;
      sessions := new SessionManager(setup.self);
      stats, resolved := map[], map[];
    }

    method RecordHeard(peer: Peer, source: SocketAddress, bytes: nat, now: Time)
      modifies this
      ensures View() == Heard(old(View()), peer, source, bytes, now)
    {
      var entry := if peer in stats then stats[peer] else NO_STATS;
      stats := stats[peer := PeerStats(Some(now), entry.txBytes, entry.rxBytes + bytes, Some(source))];
    }

    method RecordTransportSent(peer: Peer, bytes: nat)
      modifies this
      ensures var before := StatsOf(old(View()), peer);
              View() == old(View()).(stats := old(stats)[peer := before.(txBytes := before.txBytes + bytes)])
    {
      var entry := if peer in stats then stats[peer] else NO_STATS;
      stats := stats[peer := entry.(txBytes := entry.txBytes + bytes)];
    }

    method EndpointOf(peer: Peer) returns (endpoint: Option<SocketAddress>)
      requires peer in setup.configured
      ensures endpoint == ResolveEndpoint(setup, View(), peer)
    {
      if peer in stats && stats[peer].endpoint.Some? && stats[peer].endpoint.value.Usable() {
        return stats[peer].endpoint;
      }
      var fallback := if peer in resolved then resolved[peer] else setup.configured[peer];
      endpoint := if fallback.Usable() then Some(fallback) else None;
    }

    /** Whether some route leads to this peer. */
    method HasRouteTo(peer: Peer) returns (known: bool)
      requires Valid()
      ensures known == setup.Knows(peer)
    {
      for i := 0 to |setup.routes|
        invariant forall j :: 0 <= j < i ==> setup.node[setup.routes[j].peer.name] != peer
      {
        if setup.node[setup.routes[i].peer.name] == peer {
          return true;
        }
      }
      known := false;
    }

    method Initiate(peer: Peer, now: Time, draws: Draws) returns (actions: seq<EngineAction>)
      requires Valid() && peer in setup.configured
      modifies this, sessions
      ensures Valid()
      ensures (View(), actions) == InitiatePeer(setup, old(View()), peer, now, draws)
    {
      actions := [];
      var endpoint := EndpointOf(peer);
      if endpoint.Some? {
        var packet := sessions.StartOrRetryHandshake(peer, draws.handshakeId, draws.ephemeral, now);
        if packet.Some? {
          actions := [SendTransport(peer, endpoint.value, packet.value)];
        }
      }
    }

    method Seal(peer: Peer, msgType: MsgType, payload: seq<byte>, now: Time, draws: Draws)
      returns (actions: seq<EngineAction>)
      requires Valid() && peer in setup.configured
      modifies this, sessions
      ensures Valid()
      ensures (View(), actions) == SealOrInitiate(setup, old(View()), peer, msgType, payload, now, draws)
    {
      var result := sessions.EncryptForPeer(peer, msgType, payload, now, draws.sealingWorks);
      match result {
        case Ok(Some(frame)) =>
          actions := Initiate(peer, now, draws);
          var endpoint := EndpointOf(peer);
          actions := actions + if endpoint.Some? then [SendTransport(peer, endpoint.value, frame)] else [];
        case Ok(None) =>
          actions := Initiate(peer, now, draws);
        case Err(_) =>
          var removed := sessions.InvalidatePeer(peer);
          actions := Initiate(peer, now, draws);
      }
    }

    method ProcessOutboundIp(packet: seq<byte>, now: Time, draws: Draws)
      returns (result: Result<EngineOutput, EngineError>)
      requires Valid()
      modifies this, sessions
      ensures Valid()
      ensures (View(), result) == OutboundIp(setup, old(View()), packet, now, draws)
    {
      match Destination(packet) {
        case Err(e) => result := Err(BadPacket(e));
        case Ok(destination) =>
          var route := Routing.LookupIn(setup.routes, destination);
          if route.None? {
            return Ok(NOTHING);
          }
          FoundIsListed(setup.routes, destination);
          var actions := Seal(setup.node[route.value.peer.name], Data, packet, now, draws);
          result := Ok(EngineOutput(actions, []));
      }
    }

    method CreateKeepalive(peer: Peer, payload: seq<byte>, now: Time, draws: Draws)
      returns (result: Result<EngineOutput, EngineError>)
      requires Valid()
      modifies this, sessions
      ensures Valid()
      ensures (View(), result) == KeepaliveFor(setup, old(View()), peer, payload, now, draws)
    {
      var known := HasRouteTo(peer);
      if !known {
        return Err(UnknownPeer(peer));
      }
      var actions := Seal(peer, Keepalive, payload, now, draws);
      result := Ok(EngineOutput(actions, []));
    }

    method InitiateHandshake(peer: Peer, now: Time, draws: Draws) returns (result: Result<EngineOutput, EngineError>)
      requires Valid()
      modifies this, sessions
      ensures Valid()
      ensures (View(), result) == HandshakeFor(setup, old(View()), peer, now, draws)
    {
      var known := HasRouteTo(peer);
      if !known {
        return Err(UnknownPeer(peer));
      }
      var actions := Initiate(peer, now, draws);
      result := Ok(EngineOutput(actions, []));
    }

    method HasPendingHandshake(peer: Peer) returns (pending: bool)
      ensures pending == (peer in View().st.pending)
    {
      pending := peer in sessions.pendingInit;
    }

    method HasActiveSession(peer: Peer, now: Time) returns (active: bool)
      ensures active == HasActive(View(), peer, now)
    {
      active := peer in sessions.sessions && !sessions.sessions[peer].IsExpired(now);
    }

    method InvalidatePeer(peer: Peer) returns (removed: bool)
      requires Valid()
      modifies sessions
      ensures Valid()
      ensures View() == old(View()).(st := Invalidate(old(View()).st, peer).0)
      ensures removed == Invalidate(old(View()).st, peer).1
    {
      removed := sessions.InvalidatePeer(peer);
    }

    method UpdateResolvedEndpoint(peer: Peer, endpoint: SocketAddress) returns (result: Result<bool, EngineError>)
      requires Valid()
      modifies this, sessions
      ensures Valid()
      ensures (View(), result) == UpdateResolved(setup, old(View()), peer, endpoint)
    {
      if !endpoint.Usable() {
        return Err(InvalidPeerEndpoint(endpoint));
      }
      var known := HasRouteTo(peer);
      if !known {
        return Err(UnknownPeer(peer));
      }
      var previous := if peer in resolved then resolved[peer] else setup.configured[peer];
      if previous == endpoint {
        return Ok(false);
      }
      resolved := resolved[peer := endpoint];
      if peer in stats {
        stats := stats[peer := stats[peer].(endpoint := None)];
      }
      var removed := sessions.InvalidatePeer(peer);
      result := Ok(true);
    }

    /** Try the peer of every route, each once, until one authenticates the message. */
    method DecodeHandshakeInit(handshakeId: Id, message: Message1, draws: Draws, now: Time)
      returns (found: Option<(Peer, Message2, Session)>)
      requires Valid()
      ensures found.Some? <==> InitFrom(setup, handshakeId, message)
      ensures found.Some? ==>
                var (peer, answer, session) := found.value;
                && peer == message.from
                && ResponderRespond(setup.self, peer, handshakeId, message, draws.sessionId, draws.ephemeral, now) ==
                    Ok((answer, session))
    {
      var checked: set<Peer> := {};
      for i := 0 to |setup.routes|
        invariant forall j :: 0 <= j < i ==> setup.node[setup.routes[j].peer.name] in checked
        invariant forall p :: p in checked ==>
                    ResponderRespond(setup.self, p, handshakeId, message, draws.sessionId, draws.ephemeral, now).Err?
      {
        var peer := setup.node[setup.routes[i].peer.name];
        if peer in checked {
          continue;
        }
        checked := checked + {peer};
        match ResponderRespond(setup.self, peer, handshakeId, message, draws.sessionId, draws.ephemeral, now) {
          case Ok((answer, session)) => return Some((peer, answer, session));
          case Err(_) =>
        }
      }
      found := None;
    }

    method ReceiveInit(handshakeId: Id, message: Message1, source: SocketAddress, now: Time, draws: Draws)
      returns (output: EngineOutput)
      requires Valid()
      modifies this, sessions
      ensures Valid()
      ensures (View(), output) == InboundInit(setup, old(View()), handshakeId, message, source, now, draws)
    {
      output := NOTHING;
      var found := DecodeHandshakeInit(handshakeId, message, draws, now);
      if found.None? {
        return;
      }
      var (peer, answer, session) := found.value;
      var accepted := sessions.AcceptInboundInitiation(peer, handshakeId, !setup.configured[peer].Usable(), now);
      if !accepted {
        return;
      }
      var cached := sessions.CachedResponderResponse(peer, handshakeId, message, now);
      if cached.Some? {
        return EngineOutput([SendTransport(peer, source, cached.value)], []);
      }
      var response := ResponsePacket(handshakeId, answer);
      var stored := sessions.StoreResponderCandidate(peer, session, handshakeId, message, response, now);
      if stored {
        output := EngineOutput([SendTransport(peer, source, response)], []);
      }
    }

    method ReceiveResponse(handshakeId: Id, answer: Message2, source: SocketAddress, now: Time, draws: Draws)
      returns (result: Result<EngineOutput, EngineError>, ghost matched: Option<Peer>)
      requires Valid()
      modifies this, sessions
      ensures Valid()
      ensures MatchedIn(old(View()).st, handshakeId, matched)
      ensures (View(), result) == InboundResponse(old(View()), matched, answer, source, now, draws)
    {
      var finalized;
      finalized, matched := sessions.FinalizeInitiator(handshakeId, answer, now, draws.sealingWorks);
      match finalized {
        case Err(e) => result := Err(NoiseFailed(e));
        case Ok(None) => result := Ok(NOTHING);
        case Ok(Some((peer, confirmation))) =>
          RecordHeard(peer, source, 0, now);
          result := Ok(EngineOutput([SendTransport(peer, source, confirmation)],
                                    [HandshakeCompleted(peer, source, Initiator)]));
      }
    }

    method ReceiveTransport(id: Id, counter: u64, cipher: Cipher, source: SocketAddress, now: Time, draws: Draws)
      returns (result: Result<EngineOutput, EngineError>)
      requires Valid()
      modifies this, sessions
      ensures Valid()
      ensures (View(), result) == InboundTransport(old(View()), id, counter, cipher, source, now, draws)
    {
      var decrypted := sessions.DecryptTransport(id, counter, cipher, now);
      match decrypted {
        case Err(e) => result := Err(NoiseFailed(e));
        case Ok(None) => result := Ok(NOTHING);
        case Ok(Some(d)) => result := DeliverDecrypted(d, source, now, draws);
      }
    }

    method DeliverDecrypted(d: Decrypted, source: SocketAddress, now: Time, draws: Draws)
      returns (result: Result<EngineOutput, EngineError>)
      requires Valid()
      modifies this, sessions
      ensures Valid()
      ensures (View(), result) == Deliver(old(View()), d, source, now, draws)
    {
      var events := if d.promoted then [HandshakeCompleted(d.peer, source, Responder)] else [];
      match d.msgType {
        case Keepalive =>
          RecordHeard(d.peer, source, 0, now);
          if d.payload != KEEPALIVE_PROBE_PAYLOAD {
            return Ok(EngineOutput([], events));
          }
          var ack := sessions.EncryptForPeer(d.peer, Keepalive, KEEPALIVE_ACK_PAYLOAD, now, draws.sealingWorks);
          match ack {
            case Err(e) => result := Err(NoiseFailed(e));
            case Ok(None) => result := Ok(EngineOutput([], events));
            case Ok(Some(frame)) => result := Ok(EngineOutput([SendTransport(d.peer, source, frame)], events));
          }
        case Data =>
          RecordHeard(d.peer, source, |d.payload|, now);
          match Destination(d.payload) {
            case Err(e) => result := Err(BadPacket(e));
            case Ok(_) => result := Ok(EngineOutput([WriteIpPacket(d.peer, source, d.payload)], events));
          }
      }
    }

    method ProcessInboundTransport(frame: Option<Packet>, source: SocketAddress, now: Time, draws: Draws)
      returns (result: Result<EngineOutput, EngineError>, ghost matched: Option<Peer>)
      requires Valid()
      modifies this, sessions
      ensures Valid()
      ensures frame.Some? && frame.value.ResponsePacket? ==> MatchedIn(old(View()).st, frame.value.handshakeId, matched)
      ensures (View(), result) == Inbound(setup, old(View()), frame, source, now, draws, matched)
    {
      matched := None;
      match frame {
        case None => result := Ok(NOTHING);
        case Some(InitPacket(handshakeId, message)) =>
          var output := ReceiveInit(handshakeId, message, source, now, draws);
          result := Ok(output);
        case Some(ResponsePacket(handshakeId, answer)) =>
          result, matched := ReceiveResponse(handshakeId, answer, source, now, draws);
        case Some(TransportPacket(id, counter, cipher)) =>
          result := ReceiveTransport(id, counter, cipher, source, now, draws);
      }
    }
  }
}
