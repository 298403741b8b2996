/**
 Several engines over one wire. Their calls, in any order, are a run of the
 network; so every IP packet that an engine writes is one that another engine
 was given to send, and each sealing of a packet is written at most once.
 */
module Fleets {
  import opened Wrappers
  import opened Wire
  import opened Noise
  import opened Sessions
  import opened Network
  import opened Guarantees
  import opened Engines
  import opened EngineRuns
  import History = EngineHistory
  import Routing

  type Call = History.Call

  /** Names one call of the cipher. */
  datatype Seal = Seal(key: Key, fromInitiator: bool, nonce: u64)

  datatype Traffic =
    | Accepted(node: Node, peer: Peer, packet: seq<byte>, seal: Seal)  // given to a node and sealed for a peer
    | Written(node: Node, peer: Peer, packet: seq<byte>, seal: Seal)   // written at a node as coming from a peer

  /** `drawn` bounds the numbers of the keys that each node has drawn. */
  datatype Fleet = Fleet(now: Time, engines: seq<EngineState>, drawn: seq<nat>, wire: set<Packet>, log: seq<Traffic>)

  /** Each engine is the node of its position, and has no route to itself. */
  ghost predicate Configured(setups: seq<Setup>) {
    forall n :: 0 <= n < |setups| ==> setups[n].Valid() && setups[n].self == n && !setups[n].Knows(n)
  }

  // ---------------------------------------------------------------------------
  // Calls and what they put out.
  // ---------------------------------------------------------------------------

  function DrawsOf(c: Call): Option<Draws> {
    match c
    case Receive(_, _, _, draws, _) => Some(draws)
    case SendIp(_, _, draws) => Some(draws)
    case SendKeepalive(_, _, _, draws) => Some(draws)
    case Handshake(_, _, draws) => Some(draws)
    case _ => None
  }

  function TimeOf(c: Call, now: Time): Time {
    match c
    case Receive(_, _, at, _, _) => at
    case SendIp(_, at, _) => at
    case SendKeepalive(_, _, at, _) => at
    case Handshake(_, at, _) => at
    case _ => now
  }

  ghost function ActionsOf(setup: Setup, es: EngineState, c: Call): seq<EngineAction>
    requires setup.Valid() && History.Callable(es, c)
  {
    var result: Result<EngineOutput, EngineError> := match c
      case Receive(frame, source, now, draws, matched) => Inbound(setup, es, frame, source, now, draws, matched).1
      case SendIp(packet, now, draws) => OutboundIp(setup, es, packet, now, draws).1
      case SendKeepalive(peer, payload, now, draws) => KeepaliveFor(setup, es, peer, payload, now, draws).1
      case Handshake(peer, now, draws) => HandshakeFor(setup, es, peer, now, draws).1
      case _ => Ok(NOTHING);
    if result.Ok? then result.value.actions else []
  }

  /** The peer to which the routes send this IP packet, if they do. */
  ghost function RoutedTo(setup: Setup, packet: seq<byte>): Option<Peer>
    requires setup.Valid()
  {
    if Destination(packet).Err? then None
    else
      var route := Routing.LookupIn(setup.routes, Destination(packet).value);
      if route == None then None
      else
        FoundIsListed(setup.routes, Destination(packet).value);
        Some(setup.node[route.value.peer.name])
  }

  function SealBy(s: Session): Seal {
    Seal(s.key, s.isInitiator, s.sendCounter)
  }

  ghost function TrafficOf(setup: Setup, es: EngineState, c: Call): seq<Traffic>
    requires setup.Valid() && History.Callable(es, c)
  {
    match c
    case SendIp(packet, now, draws) =>
      var peer := RoutedTo(setup, packet);
      if peer.Some? && WillSeal(es, peer.value, now, draws) then
        [Accepted(setup.self, peer.value, packet, SealBy(es.st.sessions[peer.value]))]
      else []
    case Receive(Some(TransportPacket(_, _, cipher)), _, _, _, _) =>
      var actions := ActionsOf(setup, es, c);
      if cipher.Sealed? && actions != [] && actions[0].WriteIpPacket? then
        [Written(setup.self, actions[0].peer, actions[0].packet, Seal(cipher.key, cipher.fromInitiator, cipher.nonce))]
      else []
    case _ => []
  }

  // ---------------------------------------------------------------------------
  // Runs of the fleet.
  // ---------------------------------------------------------------------------

  /** Keys are drawn afresh, calls happen now, and frames come from the wire. */
  ghost predicate MayCall(setups: seq<Setup>, fleet: Fleet, n: Node, c: Call) {
    && n < |setups| == |fleet.engines| == |fleet.drawn|
    && History.Callable(fleet.engines[n], c)
    && TimeOf(c, fleet.now) == fleet.now
    && (DrawsOf(c).Some? ==>
        DrawsOf(c).value.ephemeral.node == n && DrawsOf(c).value.ephemeral.number >= fleet.drawn[n])
    && (c.Receive? ==> MayArrive(fleet.wire, c.frame))
  }

  ghost function Do(setups: seq<Setup>, fleet: Fleet, n: Node, c: Call): Fleet
    requires Configured(setups) && MayCall(setups, fleet, n, c)
  {
    var es := fleet.engines[n];
    Fleet(fleet.now,
          fleet.engines[n := History.After(setups[n], es, c)],
          if DrawsOf(c).Some? then fleet.drawn[n := DrawsOf(c).value.ephemeral.number + 1] else fleet.drawn,
          fleet.wire + Frames(ActionsOf(setups[n], es, c)),
          fleet.log + TrafficOf(setups[n], es, c))
  }

  ghost predicate Step(setups: seq<Setup>, fleet: Fleet, next: Fleet)
    requires Configured(setups)
  {
    || (next.now >= fleet.now && next == fleet.(now := next.now))
    || exists n: Node, c: Call :: MayCall(setups, fleet, n, c) && next == Do(setups, fleet, n, c)
  }

  ghost predicate Initial(setups: seq<Setup>, fleet: Fleet) {
    && fleet.wire == {} && fleet.log == []
    && |fleet.engines| == |fleet.drawn| == |setups|
    && (forall n :: 0 <= n < |setups| ==> fleet.engines[n] == EngineState(EMPTY_STATE, map[], map[]))
    && (forall n :: 0 <= n < |setups| ==> fleet.drawn[n] == 0)
  }

  ghost predicate FleetRun(setups: seq<Setup>, fleets: seq<Fleet>) {
    && Configured(setups) && fleets != [] && Initial(setups, fleets[0])
    && forall i :: 0 <= i < |fleets| - 1 ==> Step(setups, fleets[i], fleets[i + 1])
  }

  // ---------------------------------------------------------------------------
  // One call.
  // ---------------------------------------------------------------------------

  /** The seals of data packets that a call adds: none, or that of the IP packet that was given. */
  ghost predicate SealsForCall(states: seq<System>, longer: seq<System>, setup: Setup, es: EngineState, c: Call)
    requires setup.Valid() && states != [] && longer != []
  {
    if c.SendIp? && RoutedTo(setup, c.packet).Some? then
      SealsJust(states, longer, es, RoutedTo(setup, c.packet).value, Data, c.packet, c.draws)
    else NoNewDataSeal(states, longer)
  }

  lemma KeepaliveIsNoData(states: seq<System>, longer: seq<System>, es: EngineState, peer: Peer, payload: seq<byte>,
                          draws: Draws)
    requires states != [] && longer != [] && SealsJust(states, longer, es, peer, Keepalive, payload, draws)
    ensures NoNewDataSeal(states, longer)
  {}

  lemma SendIpIsSteps(states: seq<System>, setup: Setup, es: EngineState, c: Call) returns (longer: seq<System>)
    requires setup.Valid() && Is(states, setup, es) && !setup.Knows(setup.self) && c.SendIp?
    requires c.now == Last(states).now
    requires DrawsNext(states, setup.self, c.draws)
    ensures longer != []
    ensures Continues(states, longer, setup.self, History.After(setup, es, c).st, Frames(ActionsOf(setup, es, c)))
    ensures DrawsOnce(states, longer, setup.self) && SealsForCall(states, longer, setup, es, c)
  {
    longer := states;
    Stay(states, setup.self);
    if RoutedTo(setup, c.packet).Some? {
      FoundIsListed(setup.routes, Destination(c.packet).value);
      longer := SealIsSteps(states, setup, es, RoutedTo(setup, c.packet).value, Data, c.packet, c.draws);
    }
  }

  lemma SendKeepaliveIsSteps(states: seq<System>, setup: Setup, es: EngineState, c: Call) returns (longer: seq<System>)
    requires setup.Valid() && Is(states, setup, es) && !setup.Knows(setup.self) && c.SendKeepalive?
    requires c.now == Last(states).now
    requires DrawsNext(states, setup.self, c.draws)
    ensures longer != []
    ensures Continues(states, longer, setup.self, History.After(setup, es, c).st, Frames(ActionsOf(setup, es, c)))
    ensures DrawsOnce(states, longer, setup.self) && NoNewDataSeal(states, longer)
  {
    longer := states;
    Stay(states, setup.self);
    if setup.Knows(c.peer) {
      longer := SealIsSteps(states, setup, es, c.peer, Keepalive, c.payload, c.draws);
      KeepaliveIsNoData(states, longer, es, c.peer, c.payload, c.draws);
    }
  }

  /** Every call of an engine goes on with the run of the network, at its own node. */
  lemma CallIsSteps(states: seq<System>, setup: Setup, es: EngineState, c: Call) returns (longer: seq<System>)
    requires setup.Valid() && Is(states, setup, es) && !setup.Knows(setup.self) && History.Callable(es, c)
    requires TimeOf(c, Last(states).now) == Last(states).now
    requires DrawsOf(c).Some? ==> DrawsNext(states, setup.self, DrawsOf(c).value)
    requires c.Receive? ==> MayArrive(Last(states).wire, c.frame)
    ensures longer != []
    ensures Continues(states, longer, setup.self, History.After(setup, es, c).st, Frames(ActionsOf(setup, es, c)))
    ensures if DrawsOf(c).Some? then DrawsOnce(states, longer, setup.self) else DrawsNothing(states, longer, setup.self)
    ensures SealsForCall(states, longer, setup, es, c)
    ensures c.Receive? && Decrypts(es, c.frame, c.now) ==>
              c.frame.value.cipher.Sealed? && Last(states).log + [OpeningOf(c.frame.value.cipher)] <= Last(longer).log
  {
    match c
    case Receive(frame, source, now, draws, matched) =>
      longer := InboundIsSteps(states, setup, es, frame, source, draws, matched);
    case SendIp(_, _, _) => longer := SendIpIsSteps(states, setup, es, c);
    case SendKeepalive(_, _, _, _) => longer := SendKeepaliveIsSteps(states, setup, es, c);
    case Handshake(peer, now, draws) =>
      longer := states;
      Stay(states, setup.self);
      if setup.Knows(peer) {
        longer := InitiateIsSteps(states, setup, es, peer, draws);
      }
    case Resolve(peer, endpoint) => longer := UpdateIsSteps(states, setup, es, peer, endpoint);
    case Forget(peer) => longer := ForgetIsStep(states, setup, es, peer);
  }

  // ---------------------------------------------------------------------------
  // The fleet refines the network.
  // ---------------------------------------------------------------------------

  /** The run of the network ends in the states of the engines. */
  ghost predicate Follows(setups: seq<Setup>, fleet: Fleet, states: seq<System>) {
    && Run(states)
    && var sys := Last(states);
       && sys.now == fleet.now && fleet.wire <= sys.wire
       && |setups| == |fleet.engines| == |fleet.drawn| == |sys.nodes|
       && (forall n :: 0 <= n < |setups| ==> sys.nodes[n].st == fleet.engines[n].st)
       && (forall n :: 0 <= n < |setups| ==> sys.nodes[n].drawn <= fleet.drawn[n])
  }

  lemma CallFollows(setups: seq<Setup>, fleet: Fleet, states: seq<System>, n: Node, c: Call)
    returns (middle: seq<System>, longer: seq<System>)
    requires Configured(setups) && Follows(setups, fleet, states) && MayCall(setups, fleet, n, c)
    ensures middle != [] && longer != [] && Is(middle, setups[n], fleet.engines[n])
    ensures Last(middle).log == Last(states).log && Last(middle).now == fleet.now && fleet.wire <= Last(middle).wire
    ensures Follows(setups, Do(setups, fleet, n, c), longer)
    ensures Last(middle).log <= Last(longer).log
    ensures SealsForCall(middle, longer, setups[n], fleet.engines[n], c)
    ensures c.Receive? && Decrypts(fleet.engines[n], c.frame, c.now) ==>
              c.frame.value.cipher.Sealed? && Last(middle).log + [OpeningOf(c.frame.value.cipher)] <= Last(longer).log
  {
    middle := states;
    Stay(states, n);
    if DrawsOf(c).Some? {
      middle := SkipTo(states, n, DrawsOf(c).value.ephemeral.number);
    }
    longer := CallIsSteps(middle, setups[n], fleet.engines[n], c);
    FollowsOn(setups, fleet, states, middle, longer, n, c);
  }

  lemma FollowsOn(setups: seq<Setup>, fleet: Fleet, states: seq<System>, middle: seq<System>, longer: seq<System>,
                  n: Node, c: Call)
    requires Configured(setups) && Follows(setups, fleet, states) && MayCall(setups, fleet, n, c)
    requires Continues(states, middle, n, fleet.engines[n].st, {})
    requires var es := fleet.engines[n];
             Continues(middle, longer, n, History.After(setups[n], es, c).st, Frames(ActionsOf(setups[n], es, c)))
    requires if DrawsOf(c).Some? then
               DrawsOnce(middle, longer, n) && Last(middle).nodes[n].drawn == DrawsOf(c).value.ephemeral.number
             else DrawsNothing(middle, longer, n) && Last(middle).nodes[n].drawn <= fleet.drawn[n]
    ensures Follows(setups, Do(setups, fleet, n, c), longer)
  {}

  lemma PauseFollows(setups: seq<Setup>, fleet: Fleet, states: seq<System>, now: Time) returns (longer: seq<System>)
    requires Follows(setups, fleet, states) && now >= fleet.now
    ensures longer != [] && Follows(setups, fleet.(now := now), longer) && Last(longer).log == Last(states).log
  {
    longer := states + [Last(states).(now := now)];
    forall i | 0 <= i < |longer| - 1 ensures Network.Step(longer[i], longer[i + 1]) {
      if i < |states| - 1 {
        assert Network.Step(states[i], states[i + 1]);
      }
    }
  }

  // ---------------------------------------------------------------------------
  // Traffic and events.
  // ---------------------------------------------------------------------------

  function SideOf(key: Key, initiator: bool): Node {
    if initiator then key.initiator.node else key.responder.node
  }

  /** The packet that was given is what this cipher call sealed. */
  predicate Accounts(t: Traffic, e: Event) {
    && t.Accepted? && e.Spent?
    && t.seal == Seal(e.key, e.fromInitiator, e.nonce)
    && e.plaintext == TransportPlaintext(Data, t.packet)
    && t.node == SideOf(e.key, e.fromInitiator) && t.peer == SideOf(e.key, !e.fromInitiator)
  }

  ghost predicate SealsAccounted(traffic: seq<Traffic>, log: seq<Event>) {
    forall e :: e in log && IsDataSeal(e) ==> exists t :: t in traffic && Accounts(t, e)
  }

  ghost predicate AcceptedWasSpent(t: Traffic, log: seq<Event>) {
    t.Accepted? ==> exists e :: e in log && e.Spent? && t.seal == Seal(e.key, e.fromInitiator, e.nonce)
  }

  ghost predicate WrittenWasOpened(t: Traffic, log: seq<Event>) {
    t.Written? ==> exists e :: e in log && e.Opened? && t.seal == Seal(e.key, e.fromInitiator, e.nonce)
  }

  ghost predicate TrafficRecorded(traffic: seq<Traffic>, log: seq<Event>) {
    forall t :: t in traffic ==> AcceptedWasSpent(t, log) && WrittenWasOpened(t, log)
  }

  /** What may follow what in the traffic. */
  ghost predicate MayComeAfter(traffic: seq<Traffic>, t: Traffic) {
    match t
    case Accepted(_, _, _, seal) => forall u :: u in traffic && u.Accepted? ==> u.seal != seal
    case Written(node, peer, packet, seal) =>
      && Accepted(peer, node, packet, seal) in traffic
      && forall u :: u in traffic && u.Written? ==> u.seal != seal
  }

  ghost predicate TrafficOk(traffic: seq<Traffic>) {
    forall j :: 0 <= j < |traffic| ==> MayComeAfter(traffic[..j], traffic[j])
  }

  ghost predicate Explained(fleet: Fleet, states: seq<System>)
    requires states != []
  {
    TrafficOk(fleet.log) && SealsAccounted(fleet.log, Last(states).log) && TrafficRecorded(fleet.log, Last(states).log)
  }

  lemma TrafficGrows(traffic: seq<Traffic>, t: Traffic)
    requires TrafficOk(traffic) && MayComeAfter(traffic, t)
    ensures TrafficOk(traffic + [t])
  {
    forall j | 0 <= j < |traffic + [t]| ensures MayComeAfter((traffic + [t])[..j], (traffic + [t])[j]) {
      assert (traffic + [t])[..j] == if j < |traffic| then traffic[..j] else traffic;
    }
  }

  lemma RecordedInLonger(traffic: seq<Traffic>, log: seq<Event>, longer: seq<Event>)
    requires TrafficRecorded(traffic, log) && log <= longer
    ensures TrafficRecorded(traffic, longer)
  {
    forall t | t in traffic ensures AcceptedWasSpent(t, longer) && WrittenWasOpened(t, longer) {
      assert AcceptedWasSpent(t, log) && WrittenWasOpened(t, log);
      forall e | e in log ensures e in longer {}
    }
  }

  /** A call that seals no data packet and writes none. */
  lemma QuietCall(fleet: Fleet, states: seq<System>, longer: seq<System>)
    requires states != [] && longer != [] && Explained(fleet, states)
    requires Last(states).log <= Last(longer).log && NoNewDataSeal(states, longer)
    ensures Explained(fleet, longer)
  {
    RecordedInLonger(fleet.log, Last(states).log, Last(longer).log);
  }

  /** A new seal has a nonce that no recorded one under its key has. */
  lemma SealIsNew(longer: seq<System>, log: seq<Event>, seal: Event, u: Traffic)
    requires Run(longer) && seal.Spent? && log + [seal] <= Last(longer).log
    requires u.Accepted? && AcceptedWasSpent(u, log)
    ensures u.seal != Seal(seal.key, seal.fromInitiator, seal.nonce)
  {
    var e :| e in log && e.Spent? && u.seal == Seal(e.key, e.fromInitiator, e.nonce);
    var j :| 0 <= j < |log| && log[j] == e;
    var i := |longer| - 1;
    assert longer[i].log[j] == (log + [seal])[j] && longer[i].log[|log|] == (log + [seal])[|log|];
    if e.key == seal.key && e.fromInitiator == seal.fromInitiator {
      NoncesIncrease(longer, i, j, |log|);
    }
  }

  /** An IP packet is given to a node and sealed. */
  lemma AcceptingCall(fleet: Fleet, states: seq<System>, longer: seq<System>, n: Node, peer: Peer, packet: seq<byte>,
                      draws: Draws)
    requires Run(states) && Run(longer) && Explained(fleet, states)
    requires n < |Last(states).nodes| && n < |fleet.engines| && fleet.engines[n].st == Last(states).nodes[n].st
    requires WillSeal(fleet.engines[n], peer, Last(states).now, draws)
    requires SealsJust(states, longer, fleet.engines[n], peer, Data, packet, draws)
    ensures var t := Accepted(n, peer, packet, SealBy(fleet.engines[n].st.sessions[peer]));
            Explained(fleet.(log := fleet.log + [t]), longer)
  {
    var s := fleet.engines[n].st.sessions[peer];
    var t, seal := Accepted(n, peer, packet, SealBy(s)), SealOf(s, Data, packet);
    var log := Last(states).log;
    SessionHasPartner(states, |states| - 1, n, Active(peer));
    assert Accounts(t, seal);
    forall u | u in fleet.log && u.Accepted? ensures u.seal != t.seal {
      assert AcceptedWasSpent(u, log);
      SealIsNew(longer, log, seal, u);
    }
    TrafficGrows(fleet.log, t);
    assert log <= log + [seal] <= Last(longer).log;
    RecordedInLonger(fleet.log, log, Last(longer).log);
    assert (log + [seal])[|log|] == seal && seal in Last(longer).log;
    assert t in fleet.log + [t];
    forall e | e in Last(longer).log && IsDataSeal(e) ensures exists u :: u in fleet.log + [t] && Accounts(u, e) {
      if e != seal {
        var u :| u in fleet.log && Accounts(u, e);
      }
    }
  }

  /** An IP packet is written: it was given to the peer, and was not written before. */
  lemma WritingCall(fleet: Fleet, states: seq<System>, longer: seq<System>, n: Node, a: Action, d: Decrypted)
    requires Run(states) && Run(longer) && Explained(fleet, states)
    requires n < |Last(states).nodes| && a.Decrypt? && Enabled(Last(states), n, a)
    requires DecryptTransport(Last(states).nodes[n].st, a.id, a.counter, a.cipher, Last(states).now).1 == Ok(Some(d))
    requires d.msgType == Data
    requires a.cipher.Sealed? && Last(states).log + [OpeningOf(a.cipher)] <= Last(longer).log
    requires NoNewDataSeal(states, longer)
    ensures var t := Written(n, d.peer, d.payload, Seal(a.cipher.key, a.cipher.fromInitiator, a.cipher.nonce));
            Explained(fleet.(log := fleet.log + [t]), longer)
  {
    var t := Written(n, d.peer, d.payload, Seal(a.cipher.key, a.cipher.fromInitiator, a.cipher.nonce));
    var log, opening := Last(states).log, OpeningOf(a.cipher);
    DeliveredWasSent(states, |states| - 1, n, a, d);
    GivenToThePeer(fleet.log, log, t);
    forall u | u in fleet.log && u.Written? ensures u.seal != t.seal {
      assert WrittenWasOpened(u, log);
    }
    TrafficGrows(fleet.log, t);
    assert log <= log + [opening] <= Last(longer).log;
    QuietCall(fleet, states, longer);
    assert (log + [opening])[|log|] == opening && opening in Last(longer).log;
    forall e | e in Last(longer).log && IsDataSeal(e) ensures exists u :: u in fleet.log + [t] && Accounts(u, e) {
      var u :| u in fleet.log && Accounts(u, e);
      assert u in fleet.log + [t];
    }
  }

  lemma GivenToThePeer(traffic: seq<Traffic>, log: seq<Event>, t: Traffic)
    requires SealsAccounted(traffic, log) && t.Written?
    requires t.peer == SideOf(t.seal.key, t.seal.fromInitiator) && t.node == SideOf(t.seal.key, !t.seal.fromInitiator)
    requires Spent(t.seal.key, t.seal.fromInitiator, t.seal.nonce, TransportPlaintext(Data, t.packet), true) in log
    ensures Accepted(t.peer, t.node, t.packet, t.seal) in traffic
  {
    var e := Spent(t.seal.key, t.seal.fromInitiator, t.seal.nonce, TransportPlaintext(Data, t.packet), true);
    assert IsDataSeal(e);
    var u :| u in traffic && Accounts(u, e);
    assert u.packet == TransportPlaintext(Data, u.packet)[1..] == TransportPlaintext(Data, t.packet)[1..] == t.packet;
  }

  /** A write happens only for a decrypted data packet, and it is the only action. */
  lemma WriteMeansData(setup: Setup, es: EngineState, c: Call)
    requires setup.Valid() && History.Callable(es, c)
    ensures (exists a :: a in ActionsOf(setup, es, c) && a.WriteIpPacket?) ==>
              && c.Receive? && Decrypts(es, c.frame, c.now)
              && var packet := c.frame.value;
                 var d := DecryptTransport(es.st, packet.sessionId, packet.counter, packet.cipher, c.now).1.value.value;
                 d.msgType == Data && ActionsOf(setup, es, c) == [WriteIpPacket(d.peer, c.source, d.payload)]
  {
    match c
    case SendIp(packet, now, draws) => NoWriteWhenSending(setup, es, packet, now, draws);
    case SendKeepalive(peer, payload, now, draws) => NoWriteForKeepalive(setup, es, peer, payload, now, draws);
    case Receive(Some(TransportPacket(id, counter, cipher)), source, now, draws, _) =>
      WriteOfTransport(es, id, counter, cipher, source, now, draws);
    case _ =>
  }

  lemma WriteOfTransport(es: EngineState, id: Id, counter: u64, cipher: Cipher, source: SocketAddress, now: Time,
                         draws: Draws)
    ensures var result := InboundTransport(es, id, counter, cipher, source, now, draws).1;
            result.Ok? && (exists a :: a in result.value.actions && a.WriteIpPacket?) ==>
              && IsDecrypted(es, id, counter, cipher, now)
              && var d := DecryptTransport(es.st, id, counter, cipher, now).1.value.value;
                 d.msgType == Data && result.value.actions == [WriteIpPacket(d.peer, source, d.payload)]
  {}

  lemma NoWriteForKeepalive(setup: Setup, es: EngineState, peer: Peer, payload: seq<byte>, now: Time, draws: Draws)
    requires setup.Valid()
    ensures var result := KeepaliveFor(setup, es, peer, payload, now, draws).1;
            result.Ok? ==> forall a :: a in result.value.actions ==> a.SendTransport?
  {}

  lemma NoWriteWhenSending(setup: Setup, es: EngineState, packet: seq<byte>, now: Time, draws: Draws)
    requires setup.Valid()
    ensures var result := OutboundIp(setup, es, packet, now, draws).1;
            result.Ok? ==> forall a :: a in result.value.actions ==> a.SendTransport?
  {}

  // ---------------------------------------------------------------------------
  // Every run of the fleet.
  // ---------------------------------------------------------------------------

  lemma CallExplained(setups: seq<Setup>, fleet: Fleet, states: seq<System>, n: Node, c: Call)
    returns (longer: seq<System>)
    requires Configured(setups) && Follows(setups, fleet, states) && Explained(fleet, states)
    requires MayCall(setups, fleet, n, c)
    ensures longer != [] && Follows(setups, Do(setups, fleet, n, c), longer)
    ensures Explained(Do(setups, fleet, n, c), longer)
  {
    var middle;
    middle, longer := CallFollows(setups, fleet, states, n, c);
    var es, traffic := fleet.engines[n], TrafficOf(setups[n], fleet.engines[n], c);
    WriteMeansData(setups[n], es, c);
    if traffic == [] {
      assert fleet.log + traffic == fleet.log;
      QuietCall(fleet, middle, longer);
    } else if c.SendIp? {
      AcceptingCall(fleet, middle, longer, n, RoutedTo(setups[n], c.packet).value, c.packet, c.draws);
    } else {
      var packet := c.frame.value;
      var d := DecryptTransport(es.st, packet.sessionId, packet.counter, packet.cipher, c.now).1.value.value;
      WritingCall(fleet, middle, longer, n, Decrypt(packet.sessionId, packet.counter, packet.cipher), d);
    }
  }

  /** Any history of calls of any engines over one wire is a run of the network that ends in their session states. */
  lemma {:induction false} FleetIsNetworkRun(setups: seq<Setup>, fleets: seq<Fleet>, i: nat)
    returns (states: seq<System>)
    requires FleetRun(setups, fleets) && i < |fleets|
    ensures states != [] && Follows(setups, fleets[i], states) && Explained(fleets[i], states)
  {
    if i == 0 {
      states := [System(fleets[0].now, seq(|setups|, n => NodeState(EMPTY_STATE, 0)), {}, [])];
    } else {
      var before := FleetIsNetworkRun(setups, fleets, i - 1);
      var fleet, next := fleets[i - 1], fleets[i];
      assert Step(setups, fleet, next);
      if next.now >= fleet.now && next == fleet.(now := next.now) {
        states := PauseFollows(setups, fleet, before, next.now);
      } else {
        var n: Node, c: Call :| MayCall(setups, fleet, n, c) && next == Do(setups, fleet, n, c);
        states := CallExplained(setups, fleet, before, n, c);
      }
    }
  }

  /**
   End to end: an IP packet that an engine writes as coming from a peer was given,
   byte for byte, to that peer's engine, which routed and sealed it for this one.
   */
  lemma WrittenWasGiven(setups: seq<Setup>, fleets: seq<Fleet>, i: nat, j: nat) returns (h: nat)
    requires FleetRun(setups, fleets) && i < |fleets| && j < |fleets[i].log| && fleets[i].log[j].Written?
    ensures var w := fleets[i].log[j];
            h < j && fleets[i].log[h] == Accepted(w.peer, w.node, w.packet, w.seal)
  {
    var states := FleetIsNetworkRun(setups, fleets, i);
    var log, w := fleets[i].log, fleets[i].log[j];
    assert MayComeAfter(log[..j], w);
    h :| h < j && log[..j][h] == Accepted(w.peer, w.node, w.packet, w.seal);
  }

  /** Two writes never answer the same sealing, and two packets given never share one. */
  lemma EachSealOnce(setups: seq<Setup>, fleets: seq<Fleet>, i: nat, j: nat, k: nat)
    requires FleetRun(setups, fleets) && i < |fleets| && j < |fleets[i].log| && k < |fleets[i].log|
    requires fleets[i].log[j].seal == fleets[i].log[k].seal
    requires fleets[i].log[j].Written? <==> fleets[i].log[k].Written?
    ensures j == k
  {
    var states := FleetIsNetworkRun(setups, fleets, i);
    SealsDiffer(fleets[i].log, j, k);
  }

  lemma SealsDiffer(log: seq<Traffic>, j: nat, k: nat)
    requires TrafficOk(log) && j < |log| && k < |log| && (log[j].Written? <==> log[k].Written?)
    ensures j != k ==> log[j].seal != log[k].seal
  {
    if j < k {
      LaterTraffic(log, j, k);
    } else if k < j {
      LaterTraffic(log, k, j);
    }
  }

  lemma LaterTraffic(log: seq<Traffic>, j: nat, k: nat)
    requires TrafficOk(log) && j < k < |log|
    ensures MayComeAfter(log[..k], log[k]) && log[j] in log[..k]
  {
    assert log[..k][j] == log[j];
  }

  /** The traffic tells of every write that an engine asks for. */
  lemma EveryWriteIsTold(setup: Setup, es: EngineState, c: Call, a: EngineAction)
    requires setup.Valid() && History.Callable(es, c) && a in ActionsOf(setup, es, c) && a.WriteIpPacket?
    ensures exists t :: t in TrafficOf(setup, es, c) && t.Written? && t.node == setup.self && t.peer == a.peer
                        && t.packet == a.packet
  {
    WriteMeansData(setup, es, c);
    assert TrafficOf(setup, es, c)[0] in TrafficOf(setup, es, c);
  }
}
