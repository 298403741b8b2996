/**
 Runs in which things do happen: from the start, an IP packet that is routed to a
 peer with a usable endpoint can be delivered there after one handshake.
 */
module Arrival {
  import opened Wrappers
  import opened Wire
  import opened Noise
  import opened Sessions
  import Network
  import NetworkRuns
  import Guarantees
  import opened Engines
  import EngineRuns
  import opened Fleets
  import History = EngineHistory
  import Prefixes
  import Routing

  const START := EngineState(EMPTY_STATE, map[], map[])
  const HERE := SocketAddress(1, 1)

  // ---------------------------------------------------------------------------
  // The five calls, and the states between them.
  // ---------------------------------------------------------------------------

  function First(n: Node, m: Node): Message1 {
    Init(7, n, m, Ephemeral(n, 0))
  }

  function Second(n: Node, m: Node): Message2 {
    Answer(First(n, m), 9, Ephemeral(m, 0))
  }

  function KeyOf(n: Node, m: Node): Key {
    Key(Ephemeral(n, 0), Ephemeral(m, 0))
  }

  function Data1(n: Node, m: Node, packet: seq<byte>): Packet {
    TransportPacket(9, 1, Cipher.Sealed(KeyOf(n, m), true, 1, TransportPlaintext(Data, packet)))
  }

  function Draw(n: Node, number: nat): Draws {
    Draws(7, 9, Ephemeral(n, number), true)
  }

  /** The initiator waits for an answer. */
  function Asking(n: Node, m: Node): EngineState {
    START.(st := EMPTY_STATE.(pending := map[m := NewPending(n, m, 7, Ephemeral(n, 0), 0)]))
  }

  /** The responder keeps the candidate. */
  function Answering(n: Node, m: Node): EngineState {
    START.(st := EMPTY_STATE.(
      candidates := map[n := NewSession(9, KeyOf(n, m), false, 0)],
      cache := map[n := CachedHandshake(7, First(n, m), ResponsePacket(7, Second(n, m)), 0)]))
  }

  /** The initiator has the session and has spent `counter` nonces. */
  function Connected(n: Node, m: Node, counter: u64): EngineState {
    EngineState(EMPTY_STATE.(sessions := map[m := NewSession(9, KeyOf(n, m), true, 0).(sendCounter := counter)]),
                map[m := PeerStats(Some(0), 0, 0, Some(HERE))], map[])
  }

  ghost predicate Reachable(setups: seq<Setup>, n: Node, m: Node, packet: seq<byte>) {
    && Configured(setups) && n < |setups| && m < |setups| && n != m
    && RoutedTo(setups[n], packet) == Some(m) && m in setups[n].configured && setups[n].configured[m].Usable()
    && setups[m].Knows(n)
  }

  lemma Asks(setup: Setup, m: Node, packet: seq<byte>, draws: Draws)
    requires setup.Valid() && RoutedTo(setup, packet) == Some(m) && m in setup.configured
    requires setup.configured[m].Usable() && draws == Draw(setup.self, 0)
    ensures OutboundIp(setup, START, packet, 0, draws) ==
            (Asking(setup.self, m),
             Ok(EngineOutput([SendTransport(m, setup.configured[m], InitPacket(7, First(setup.self, m)))], [])))
  {}

  lemma Answers(setup: Setup, n: Node, draws: Draws)
    requires setup.Valid() && setup.Knows(n) && draws == Draw(setup.self, 0)
    ensures InboundInit(setup, START, 7, First(n, setup.self), HERE, 0, draws) ==
            (Answering(n, setup.self),
             EngineOutput([SendTransport(n, HERE, ResponsePacket(7, Second(n, setup.self)))], []))
  {}

  lemma Connects(n: Node, m: Node, draws: Draws)
    requires draws == Draw(n, 1)
    ensures var (after, result) := InboundResponse(Asking(n, m), Some(m), Second(n, m), HERE, 0, draws);
            after == Connected(n, m, 1) && result.Ok?
  {}

  lemma Sends(setup: Setup, m: Node, packet: seq<byte>, draws: Draws)
    requires setup.Valid() && RoutedTo(setup, packet) == Some(m) && m in setup.configured
    requires draws == Draw(setup.self, 2)
    ensures OutboundIp(setup, Connected(setup.self, m, 1), packet, 0, draws) ==
            (Connected(setup.self, m, 2),
             Ok(EngineOutput([SendTransport(m, HERE, Data1(setup.self, m, packet))], [])))
  {
    var n := setup.self;
    var before, after := Connected(n, m, 1).st, Connected(n, m, 2).st;
    assert DropExpiredFor(before, m, 0) == before;
    assert before.sessions[m := after.sessions[m]] == after.sessions;
    assert EncryptForPeer(before, m, Data, packet, 0, true) == (after, Ok(Some(Data1(n, m, packet))));
    assert StartOrRetry(after, n, m, 7, draws.ephemeral, 0) == (after, None);
    var none: seq<EngineAction> := [];
    assert Connected(n, m, 1).(st := after) == Connected(n, m, 2);
    assert InitiatePeer(setup, Connected(n, m, 2), m, 0, draws) == (Connected(n, m, 2), none);
    assert none + [SendTransport(m, HERE, Data1(n, m, packet))] == [SendTransport(m, HERE, Data1(n, m, packet))];
  }

  lemma Opens(n: Node, m: Node, packet: seq<byte>)
    ensures var p := Data1(n, m, packet);
            var (after, result) := DecryptTransport(Answering(n, m).st, p.sessionId, p.counter, p.cipher, 0);
            && result == Ok(Some(Decrypted(n, Data, packet, true)))
            && n in after.sessions && after.sessions[n].key == KeyOf(n, m)
  {
    var st, p := Answering(n, m).st, Data1(n, m, packet);
    var kept := DropExpired(st, 0);
    assert Owns(kept, Candidate(n), 9);
    assert forall slot :: Owns(kept, slot, 9) ==> slot == Candidate(n);
    PlaintextRoundTrip(p.cipher.plaintext, Data, packet);
  }

  // ---------------------------------------------------------------------------
  // The run.
  // ---------------------------------------------------------------------------

  /** The run goes on with a call whose outcome is known. */
  lemma GoOn(setups: seq<Setup>, fleets: seq<Fleet>, n: Node, c: Call, after: EngineState, actions: seq<EngineAction>)
    returns (longer: seq<Fleet>)
    requires FleetRun(setups, fleets) && MayCall(setups, Latest(fleets), n, c) && DrawsOf(c).Some?
    requires History.After(setups[n], Latest(fleets).engines[n], c) == after
    requires ActionsOf(setups[n], Latest(fleets).engines[n], c) == actions
    ensures FleetRun(setups, longer)
    ensures var fleet := Latest(fleets);
            Latest(longer) ==
              Fleet(fleet.now, fleet.engines[n := after], fleet.drawn[n := DrawsOf(c).value.ephemeral.number + 1],
                    fleet.wire + EngineRuns.Frames(actions), fleet.log + TrafficOf(setups[n], fleet.engines[n], c))
  {
    longer := fleets + [Do(setups, Latest(fleets), n, c)];
    forall i | 0 <= i < |longer| - 1 ensures Step(setups, longer[i], longer[i + 1]) {
      if i < |fleets| - 1 {
        assert Step(setups, fleets[i], fleets[i + 1]);
      }
    }
  }

  ghost function Latest(fleets: seq<Fleet>): Fleet
    requires fleets != []
  {
    fleets[|fleets| - 1]
  }

  lemma FrameOf(peer: Peer, endpoint: SocketAddress, frame: Packet)
    ensures EngineRuns.Frames([SendTransport(peer, endpoint, frame)]) == {frame}
  {
    assert SendTransport(peer, endpoint, frame) in [SendTransport(peer, endpoint, frame)];
  }

  /** Both sides after the first message, and after its answer was sent. */
  lemma HandshakeBegins(setups: seq<Setup>, n: Node, m: Node, packet: seq<byte>) returns (fleets: seq<Fleet>)
    requires Reachable(setups, n, m, packet)
    ensures FleetRun(setups, fleets)
    ensures var f := Latest(fleets);
            && f.now == 0 && f.log == [] && |f.engines| == |f.drawn| == |setups|
            && f.engines[n] == Asking(n, m) && f.engines[m] == Answering(n, m) && f.drawn[n] == f.drawn[m] == 1
            && ResponsePacket(7, Second(n, m)) in f.wire
  {
    fleets := [Fleet(0, seq(|setups|, _ => START), seq(|setups|, _ => 0), {}, [])];
    Asks(setups[n], m, packet, Draw(n, 0));
    FrameOf(m, setups[n].configured[m], InitPacket(7, First(n, m)));
    fleets := GoOn(setups, fleets, n, History.SendIp(packet, 0, Draw(n, 0)), Asking(n, m),
                   [SendTransport(m, setups[n].configured[m], InitPacket(7, First(n, m)))]);
    Answers(setups[m], n, Draw(m, 0));
    FrameOf(n, HERE, ResponsePacket(7, Second(n, m)));
    fleets := GoOn(setups, fleets, m, History.Receive(Some(InitPacket(7, First(n, m))), HERE, 0, Draw(m, 0), None),
                   Answering(n, m), [SendTransport(n, HERE, ResponsePacket(7, Second(n, m)))]);
  }

  /** And after the answer arrived: the initiator has the session, the responder still waits for a packet under it. */
  lemma HandshakeEnds(setups: seq<Setup>, n: Node, m: Node, packet: seq<byte>) returns (fleets: seq<Fleet>)
    requires Reachable(setups, n, m, packet)
    ensures FleetRun(setups, fleets)
    ensures var f := Latest(fleets);
            && f.now == 0 && f.log == [] && |f.engines| == |f.drawn| == |setups|
            && f.engines[n] == Connected(n, m, 1) && f.engines[m] == Answering(n, m)
            && f.drawn[n] == 2 && f.drawn[m] == 1
  {
    fleets := HandshakeBegins(setups, n, m, packet);
    Connects(n, m, Draw(n, 1));
    var c := History.Receive(Some(ResponsePacket(7, Second(n, m))), HERE, 0, Draw(n, 1), Some(m));
    fleets := GoOn(setups, fleets, n, c, Connected(n, m, 1), ActionsOf(setups[n], Asking(n, m), c));
  }

  lemma DataIsSent(setups: seq<Setup>, n: Node, m: Node, packet: seq<byte>) returns (fleets: seq<Fleet>)
    requires Reachable(setups, n, m, packet)
    ensures FleetRun(setups, fleets)
    ensures var f := Latest(fleets);
            && f.now == 0 && |f.engines| == |f.drawn| == |setups|
            && f.engines[m] == Answering(n, m) && f.drawn[m] == 1
            && f.log == [Accepted(n, m, packet, Seal(KeyOf(n, m), true, 1))] && Data1(n, m, packet) in f.wire
  {
    fleets := HandshakeEnds(setups, n, m, packet);
    Sends(setups[n], m, packet, Draw(n, 2));
    FrameOf(m, HERE, Data1(n, m, packet));
    fleets := GoOn(setups, fleets, n, History.SendIp(packet, 0, Draw(n, 2)), Connected(n, m, 2),
                   [SendTransport(m, HERE, Data1(n, m, packet))]);
  }

  lemma Delivers(setup: Setup, n: Node, packet: seq<byte>, draws: Draws)
    requires setup.Valid() && Destination(packet).Ok?
    ensures var c := History.Receive(Some(Data1(n, setup.self, packet)), HERE, 0, draws, None);
            var es := Answering(n, setup.self);
            && ActionsOf(setup, es, c) == [WriteIpPacket(n, HERE, packet)]
            && TrafficOf(setup, es, c) == [Written(setup.self, n, packet, Seal(KeyOf(n, setup.self), true, 1))]
            && IsActiveAt(History.After(setup, es, c).st, n, KeyOf(n, setup.self))
  {
    Opens(n, setup.self, packet);
  }

  predicate IsActiveAt(st: State, peer: Peer, key: Key) {
    peer in st.sessions && st.sessions[peer].key == key
  }

  /**
   For all engines of which one routes an IP packet to another at a usable endpoint: there is a run in which
   that packet is given to the one and written, once, at the other.
   */
  lemma PacketCanArrive(setups: seq<Setup>, n: Node, m: Node, packet: seq<byte>) returns (fleets: seq<Fleet>)
    requires Reachable(setups, n, m, packet)
    ensures FleetRun(setups, fleets)
    ensures var seal := Seal(KeyOf(n, m), true, 1);
            Latest(fleets).log == [Accepted(n, m, packet, seal), Written(m, n, packet, seal)]
    ensures |Latest(fleets).engines| == |setups| && IsActiveAt(Latest(fleets).engines[m].st, n, KeyOf(n, m))
  {
    fleets := DataIsSent(setups, n, m, packet);
    Delivers(setups[m], n, packet, Draw(m, 1));
    var c := History.Receive(Some(Data1(n, m, packet)), HERE, 0, Draw(m, 1), None);
    assert Data1(n, m, packet) in Latest(fleets).wire;
    fleets := GoOn(setups, fleets, m, c, History.After(setups[m], Answering(n, m), c),
                   [WriteIpPacket(n, HERE, packet)]);
  }

  // ---------------------------------------------------------------------------
  // So the events of the network happen.
  // ---------------------------------------------------------------------------

  /** A configuration of two nodes that route one address to each other. */
  function Neighbour(self: Node, peer: Node): Setup {
    var route := Routing.Route(Prefixes.Prefix(5, 32), Routing.Peer("peer", Routing.Endpoint(None, 0), []));
    Setup(self, [route], map["peer" := peer], map[peer := HERE])
  }

  const PACKET: seq<byte> := [69, 0, 0, 0, 0, 0, 0, 0, 0, 0, 0, 0, 0, 0, 0, 0, 0, 0, 0, 5]

  lemma NeighboursReach()
    ensures Reachable([Neighbour(0, 1), Neighbour(1, 0)], 0, 1, PACKET)
  {
    var setup := Neighbour(0, 1);
    assert setup.routes[0] in setup.routes && Neighbour(1, 0).routes[0] in Neighbour(1, 0).routes;
    assert Destination(PACKET) == Ok(5);
    assert Routing.Selects(setup.routes[0], 5);
  }

  /** There is a run in which a session is stored, installed and promoted and a packet is opened under it. */
  lemma EventsHappen() returns (states: seq<Network.System>, key: Key)
    ensures Network.Run(states)
    ensures var log := states[|states| - 1].log;
            && (exists id :: Network.Stored(key, id) in log && Network.Installed(key, id) in log
                             && Network.Promoted(key, id) in log)
            && exists e :: e in log && e.Opened? && e.key == key && e.nonce == 1
  {
    var setups := [Neighbour(0, 1), Neighbour(1, 0)];
    NeighboursReach();
    var fleets := PacketCanArrive(setups, 0, 1, PACKET);
    states := FleetIsNetworkRun(setups, fleets, |fleets| - 1);
    key := KeyOf(0, 1);
    var t := Written(1, 0, PACKET, Seal(key, true, 1));
    assert Latest(fleets).log[1] == t && t in Latest(fleets).log;
    assert WrittenWasOpened(t, states[|states| - 1].log);
    ActiveWasPromoted(states, 1, 0, key);
  }

  lemma ActiveWasPromoted(states: seq<Network.System>, m: Node, n: Node, key: Key)
    requires Network.Run(states) && m < |states[|states| - 1].nodes| && key.initiator.node != m
    requires IsActiveAt(states[|states| - 1].nodes[m].st, n, key)
    ensures var log := states[|states| - 1].log;
            exists id :: Network.Stored(key, id) in log && Network.Installed(key, id) in log
                         && Network.Promoted(key, id) in log
  {
    var last := states[|states| - 1];
    var s := last.nodes[m].st.sessions[n];
    NetworkRuns.RunKeepsOk(states, |states| - 1);
    Guarantees.SessionHasPartner(states, |states| - 1, m, Active(n));
    assert Network.Local(m, last.nodes[m], last.log);
    assert Network.SlotOk(m, last.log, Active(n), At(last.nodes[m].st, Active(n)));
    assert Network.Promoted(key, s.id) in last.log;
  }
}
