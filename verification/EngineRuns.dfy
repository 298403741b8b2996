/**
 Every engine operation is a sequence of network steps of its own node: the
 run of the network goes on, and the clock and all other nodes stay as they are.
 */
module EngineRuns {
  import opened Wrappers
  import opened Wire
  import opened Noise
  import opened Sessions
  import opened Network
  import opened Engines

  ghost function Last(states: seq<System>): System
    requires states != []
  {
    states[|states| - 1]
  }

  /**
   The run goes on with steps of node `n` alone, which leave its sessions in
   this state and these packets on the wire.
   */
  ghost predicate Continues(states: seq<System>, longer: seq<System>, n: Node, after: State, sent: set<Packet>) {
    && Run(states) && Run(longer) && states <= longer
    && var now, later := Last(states), Last(longer);
       && later.now == now.now
       && n < |now.nodes| == |later.nodes|
       && (forall m :: 0 <= m < |now.nodes| && m != n ==> later.nodes[m] == now.nodes[m])
       && later.nodes[n].st == after && now.nodes[n].drawn <= later.nodes[n].drawn
       && now.wire <= later.wire && sent <= later.wire
       && now.log <= later.log
  }

  lemma Stay(states: seq<System>, n: Node)
    requires Run(states) && n < |Last(states).nodes|
    ensures Continues(states, states, n, Last(states).nodes[n].st, {})
  {}

  lemma ContinuesTwice(states: seq<System>, middle: seq<System>, longer: seq<System>, n: Node,
                       st: State, after: State, first: set<Packet>, second: set<Packet>)
    requires Continues(states, middle, n, st, first) && Continues(middle, longer, n, after, second)
    ensures Continues(states, longer, n, after, first + second)
  {}

  /** Only this much of what is sent is of interest. */
  lemma ContinuesWithFewer(states: seq<System>, longer: seq<System>, n: Node, after: State, sent: set<Packet>,
                           fewer: set<Packet>)
    requires Continues(states, longer, n, after, sent) && fewer <= sent
    ensures Continues(states, longer, n, after, fewer)
  {}

  function Frames(actions: seq<EngineAction>): set<Packet> {
    set a | a in actions && a.SendTransport? :: a.frame
  }

  function FramesOf(result: Result<EngineOutput, EngineError>): set<Packet> {
    if result.Ok? then Frames(result.value.actions) else {}
  }

  /** The cipher sealed a data packet. */
  predicate IsDataSeal(e: Event) {
    e.Spent? && e.worked && e.plaintext != [] && e.plaintext[0] == Data.Code()
  }

  /** The added part of the log holds no seal of a data packet. */
  ghost predicate NoNewDataSeal(states: seq<System>, longer: seq<System>)
    requires states != [] && longer != []
  {
    forall e :: e in Last(longer).log && IsDataSeal(e) ==> e in Last(states).log
  }

  /** At most one key was drawn. */
  ghost predicate DrawsOnce(states: seq<System>, longer: seq<System>, n: Node)
    requires states != [] && longer != []
  {
    && n < |Last(states).nodes| && n < |Last(longer).nodes|
    && Last(longer).nodes[n].drawn <= Last(states).nodes[n].drawn + 1
  }

  ghost predicate DrawsNothing(states: seq<System>, longer: seq<System>, n: Node)
    requires states != [] && longer != []
  {
    && n < |Last(states).nodes| && n < |Last(longer).nodes|
    && Last(longer).nodes[n].drawn == Last(states).nodes[n].drawn
  }

  /** The run goes on with one more step of node `n`. */
  lemma Extend(states: seq<System>, n: Node, a: Action) returns (longer: seq<System>)
    requires Run(states) && n < |Last(states).nodes| && Enabled(Last(states), n, a)
    ensures var outcome := Act(n, Last(states).nodes[n], a, Last(states).now);
            && longer != []
            && Continues(states, longer, n, outcome.node.st, outcome.packets)
            && Last(longer).nodes[n] == outcome.node
            && Last(longer).log == Last(states).log + outcome.events
  {
    longer := states + [Do(Last(states), n, a)];
    forall i | 0 <= i < |longer| - 1 ensures Step(longer[i], longer[i + 1]) {
      if i < |states| - 1 {
        assert Step(states[i], states[i + 1]);
      }
    }
    assert Act(n, Last(states).nodes[n], a, Last(states).now).node.drawn >= Last(states).nodes[n].drawn;
  }

  // ---------------------------------------------------------------------------
  // Answering a first message.
  // ---------------------------------------------------------------------------

  function AsSet(answer: Option<Packet>): set<Packet> {
    if answer.Some? then {answer.value} else {}
  }

  lemma RepeatOrAnswerIsSteps(states: seq<System>, n: Node, handshakeId: Id, message: Message1, draws: Draws)
    returns (longer: seq<System>)
    requires Run(states) && n < |Last(states).nodes| && InitPacket(handshakeId, message) in Last(states).wire
    requires message.Init? && message.handshakeId == handshakeId && message.to == n && message.from != n
    requires draws.ephemeral == Ephemeral(n, Last(states).nodes[n].drawn)
    ensures var (after, answer) := RepeatOrAnswer(n, Last(states).nodes[n].st, handshakeId, message, Last(states).now,
                                                  draws);
            longer != [] && Continues(states, longer, n, after, AsSet(answer))
    ensures NoNewDataSeal(states, longer) && DrawsOnce(states, longer, n)
  {
    var st, now := Last(states).nodes[n].st, Last(states).now;
    var (st1, cached) := CachedResponse(st, message.from, handshakeId, message, now);
    longer := Extend(states, n, Repeat(message.from, handshakeId, message));
    if cached.None? {
      var middle := longer;
      longer := Extend(middle, n, Store(message.from, handshakeId, message, draws.sessionId));
      var (after, answer) := RepeatOrAnswer(n, st, handshakeId, message, now, draws);
      ContinuesTwice(states, middle, longer, n, st1, after, {}, AsSet(answer));
    }
  }

  lemma AnswerIsSteps(states: seq<System>, n: Node, passive: bool, handshakeId: Id, message: Message1, draws: Draws)
    returns (longer: seq<System>)
    requires Run(states) && n < |Last(states).nodes| && InitPacket(handshakeId, message) in Last(states).wire
    requires message.Init? && message.handshakeId == handshakeId && message.to == n && message.from != n
    requires draws.ephemeral == Ephemeral(n, Last(states).nodes[n].drawn)
    ensures var (after, answer) :=
              AnswerInit(n, Last(states).nodes[n].st, passive, handshakeId, message, Last(states).now, draws);
            longer != [] && Continues(states, longer, n, after, AsSet(answer))
    ensures NoNewDataSeal(states, longer) && DrawsOnce(states, longer, n)
  {
    var st, now := Last(states).nodes[n].st, Last(states).now;
    var (accepting, accepted) := AcceptInbound(st, message.from, handshakeId, passive, now);
    var middle := Extend(states, n, Accept(message.from, handshakeId, passive));
    longer := middle;
    if accepted {
      longer := RepeatOrAnswerIsSteps(middle, n, handshakeId, message, draws);
      var (after, answer) := RepeatOrAnswer(n, accepting, handshakeId, message, now, draws);
      ContinuesTwice(states, middle, longer, n, accepting, after, {}, AsSet(answer));
    }
  }

  // ---------------------------------------------------------------------------
  // Sending.
  // ---------------------------------------------------------------------------

  /** An engine and the node of the network that it is. */
  ghost predicate Is(states: seq<System>, setup: Setup, es: EngineState) {
    Run(states) && setup.self < |Last(states).nodes| && es.st == Last(states).nodes[setup.self].st
  }

  /** The next key that the node draws is the one of this call. */
  ghost predicate DrawsNext(states: seq<System>, n: Node, draws: Draws)
    requires states != [] && n < |Last(states).nodes|
  {
    draws.ephemeral == Ephemeral(n, Last(states).nodes[n].drawn)
  }

  lemma InitiateIsSteps(states: seq<System>, setup: Setup, es: EngineState, peer: Peer, draws: Draws)
    returns (longer: seq<System>)
    requires Is(states, setup, es) && DrawsNext(states, setup.self, draws)
    requires peer in setup.configured && peer != setup.self
    ensures var (after, actions) := InitiatePeer(setup, es, peer, Last(states).now, draws);
            longer != [] && Continues(states, longer, setup.self, after.st, Frames(actions))
    ensures NoNewDataSeal(states, longer) && DrawsOnce(states, longer, setup.self)
  {
    longer := states;
    Stay(states, setup.self);
    if ResolveEndpoint(setup, es, peer).Some? {
      longer := Extend(states, setup.self, Start(peer, draws.handshakeId));
    }
  }

  /** The event of sealing this payload under a session. */
  function SealOf(s: Session, msgType: MsgType, payload: seq<byte>): Event {
    Spent(s.key, s.isInitiator, s.sendCounter, TransportPlaintext(msgType, payload), true)
  }

  /** The seals of data packets that the run adds: the one of this message, if the session seals it and it is data. */
  ghost predicate SealsJust(states: seq<System>, longer: seq<System>, es: EngineState, peer: Peer, msgType: MsgType,
                            payload: seq<byte>,
                            draws: Draws)
    requires states != [] && longer != []
  {
    var sys := Last(states);
    if WillSeal(es, peer, sys.now, draws) then
      var seal := SealOf(es.st.sessions[peer], msgType, payload);
      && sys.log + [seal] <= Last(longer).log
      && forall e :: e in Last(longer).log && IsDataSeal(e) ==> e in sys.log || e == seal
    else NoNewDataSeal(states, longer)
  }

  lemma EncryptIsStep(states: seq<System>, n: Node, es: EngineState, peer: Peer, msgType: MsgType, payload: seq<byte>,
                      draws: Draws)
    returns (longer: seq<System>)
    requires Run(states) && n < |Last(states).nodes| && es.st == Last(states).nodes[n].st
    ensures var (after, result) := EncryptForPeer(es.st, peer, msgType, payload, Last(states).now, draws.sealingWorks);
            && longer != []
            && Continues(states, longer, n, after, if result.Ok? then AsSet(result.value) else {})
            && Last(longer).nodes[n].drawn == Last(states).nodes[n].drawn
    ensures SealsJust(states, longer, es, peer, msgType, payload, draws)
  {
    longer := Extend(states, n, Encrypt(peer, msgType, payload, draws.sealingWorks));
  }

  lemma SealAfterwards(states: seq<System>, middle: seq<System>, longer: seq<System>, es: EngineState, peer: Peer,
                       msgType: MsgType,
                       payload: seq<byte>, draws: Draws)
    requires states != [] && middle != [] && longer != [] && Last(middle).log <= Last(longer).log
    requires SealsJust(states, middle, es, peer, msgType, payload, draws) && NoNewDataSeal(middle, longer)
    ensures SealsJust(states, longer, es, peer, msgType, payload, draws)
  {}

  /** Data and keepalives: the encryption, a removal if that failed, and the handshake. */
  lemma SealIsSteps(states: seq<System>, setup: Setup, es: EngineState, peer: Peer, msgType: MsgType,
                    payload: seq<byte>, draws: Draws)
    returns (longer: seq<System>)
    requires Is(states, setup, es) && DrawsNext(states, setup.self, draws)
    requires peer in setup.configured && peer != setup.self
    ensures var (after, actions) := SealOrInitiate(setup, es, peer, msgType, payload, Last(states).now, draws);
            longer != [] && Continues(states, longer, setup.self, after.st, Frames(actions))
    ensures SealsJust(states, longer, es, peer, msgType, payload, draws) && DrawsOnce(states, longer, setup.self)
  {
    var n, now := setup.self, Last(states).now;
    var (sealed, result) := EncryptForPeer(es.st, peer, msgType, payload, now, draws.sealingWorks);
    var frame := if result.Ok? then AsSet(result.value) else {};
    var first := EncryptIsStep(states, n, es, peer, msgType, payload, draws);
    var middle := first;
    if result.Err? {
      middle := Extend(first, n, Forget(peer));
      ContinuesTwice(states, first, middle, n, sealed, Invalidate(sealed, peer).0, frame, {});
      SealAfterwards(states, first, middle, es, peer, msgType, payload, draws);
    }
    var ready := es.(st := if result.Err? then Invalidate(sealed, peer).0 else sealed);
    longer := InitiateIsSteps(middle, setup, ready, peer, draws);
    var (after, actions) := InitiatePeer(setup, ready, peer, now, draws);
    ContinuesTwice(states, middle, longer, n, ready.st, after.st, frame, Frames(actions));
    SealAfterwards(states, middle, longer, es, peer, msgType, payload, draws);
    FramesOfSeal(setup, es, peer, msgType, payload, now, draws, actions, frame);
    ContinuesWithFewer(states, longer, n, after.st, frame + Frames(actions),
                       Frames(SealOrInitiate(setup, es, peer, msgType, payload, now, draws).1));
  }

  lemma FramesOfSeal(setup: Setup, es: EngineState, peer: Peer, msgType: MsgType, payload: seq<byte>, now: Time,
                     draws: Draws,
                     first: seq<EngineAction>, frame: set<Packet>)
    requires peer in setup.configured
    requires var (sealed, result) := EncryptForPeer(es.st, peer, msgType, payload, now, draws.sealingWorks);
             && frame == (if result.Ok? then AsSet(result.value) else {})
             && first == InitiatePeer(setup, es.(st := if result.Err? then Invalidate(sealed, peer).0 else sealed),
                                      peer, now, draws).1
    ensures Frames(SealOrInitiate(setup, es, peer, msgType, payload, now, draws).1) <= frame + Frames(first)
  {
    var actions := SealOrInitiate(setup, es, peer, msgType, payload, now, draws).1;
    assert forall a :: a in actions ==> a in first || (a.SendTransport? && a.frame in frame);
  }

  // ---------------------------------------------------------------------------
  // Receiving.
  // ---------------------------------------------------------------------------

  /** What can arrive: anything, but authenticated contents only if some node sent them. Headers are free. */
  ghost predicate MayArrive(wire: set<Packet>, frame: Option<Packet>) {
    match frame
    case None => true
    case Some(InitPacket(_, message)) => message.Init? ==> InitPacket(message.handshakeId, message) in wire
    case Some(ResponsePacket(_, answer)) => answer.Answer? ==> exists header :: ResponsePacket(header, answer) in wire
    case Some(TransportPacket(_, _, cipher)) =>
      cipher.Sealed? ==> exists id, counter :: TransportPacket(id, counter, cipher) in wire
  }

  lemma DeliverIsSteps(states: seq<System>, n: Node, es: EngineState, d: Decrypted, source: SocketAddress, draws: Draws)
    returns (longer: seq<System>)
    requires Run(states) && n < |Last(states).nodes| && es.st == Last(states).nodes[n].st
    ensures var (after, result) := Deliver(es, d, source, Last(states).now, draws);
            longer != [] && Continues(states, longer, n, after.st, FramesOf(result))
    ensures NoNewDataSeal(states, longer) && DrawsOnce(states, longer, n)
  {
    longer := states;
    Stay(states, n);
    if d.msgType.Keepalive? && d.payload == KEEPALIVE_PROBE_PAYLOAD {
      longer := EncryptIsStep(states, n, es, d.peer, Keepalive, KEEPALIVE_ACK_PAYLOAD, draws);
    }
  }

  /** The event of opening this ciphertext. */
  function OpeningOf(cipher: Cipher): Event
    requires cipher.Sealed?
  {
    Opened(cipher.key, cipher.fromInitiator, cipher.nonce, cipher.plaintext)
  }

  lemma DecryptIsStep(states: seq<System>, n: Node, es: EngineState, id: Id, counter: u64, cipher: Cipher)
    returns (longer: seq<System>)
    requires Run(states) && n < |Last(states).nodes| && es.st == Last(states).nodes[n].st
    requires cipher.Sealed? ==> exists i, c :: TransportPacket(i, c, cipher) in Last(states).wire
    ensures var (after, result) := DecryptTransport(es.st, id, counter, cipher, Last(states).now);
            && longer != []
            && Continues(states, longer, n, after, {})
            && (result.Ok? && result.value.Some? ==>
                  cipher.Sealed? && Last(states).log + [OpeningOf(cipher)] <= Last(longer).log)
    ensures NoNewDataSeal(states, longer) && Last(longer).nodes[n].drawn == Last(states).nodes[n].drawn
  {
    longer := Extend(states, n, Decrypt(id, counter, cipher));
  }

  lemma TransportIsSteps(states: seq<System>, n: Node, es: EngineState, id: Id, counter: u64, cipher: Cipher,
                         source: SocketAddress, draws: Draws)
    returns (longer: seq<System>)
    requires Run(states) && n < |Last(states).nodes| && es.st == Last(states).nodes[n].st
    requires cipher.Sealed? ==> exists i, c :: TransportPacket(i, c, cipher) in Last(states).wire
    ensures var (after, result) := InboundTransport(es, id, counter, cipher, source, Last(states).now, draws);
            && longer != []
            && Continues(states, longer, n, after.st, FramesOf(result))
            && (IsDecrypted(es, id, counter, cipher, Last(states).now) ==>
                  cipher.Sealed? && Last(states).log + [OpeningOf(cipher)] <= Last(longer).log)
    ensures NoNewDataSeal(states, longer) && DrawsOnce(states, longer, n)
  {
    var middle := DecryptIsStep(states, n, es, id, counter, cipher);
    longer := middle;
    var (after, result) := DecryptTransport(es.st, id, counter, cipher, Last(states).now);
    if result.Ok? && result.value.Some? {
      longer := DeliverIsSteps(middle, n, es.(st := after), result.value.value, source, draws);
      var (done, output) := Deliver(es.(st := after), result.value.value, source, Last(states).now, draws);
      ContinuesTwice(states, middle, longer, n, after, done.st, {}, FramesOf(output));
    }
  }

  /** The packet is decrypted. */
  ghost predicate IsDecrypted(es: EngineState, id: Id, counter: u64, cipher: Cipher, now: Time) {
    var result := DecryptTransport(es.st, id, counter, cipher, now).1;
    result.Ok? && result.value.Some?
  }

  lemma InitIsSteps(states: seq<System>, setup: Setup, es: EngineState, handshakeId: Id, message: Message1,
                    source: SocketAddress, draws: Draws)
    returns (longer: seq<System>)
    requires setup.Valid() && Is(states, setup, es) && DrawsNext(states, setup.self, draws) && !setup.Knows(setup.self)
    requires message.Init? ==> InitPacket(message.handshakeId, message) in Last(states).wire
    ensures var (after, output) := InboundInit(setup, es, handshakeId, message, source, Last(states).now, draws);
            longer != [] && Continues(states, longer, setup.self, after.st, Frames(output.actions))
    ensures NoNewDataSeal(states, longer) && DrawsOnce(states, longer, setup.self)
  {
    longer := states;
    Stay(states, setup.self);
    if InitFrom(setup, handshakeId, message) {
      longer := AnswerIsSteps(states, setup.self, setup.Passive(message.from), handshakeId, message, draws);
    }
  }

  lemma ResponseIsSteps(states: seq<System>, n: Node, es: EngineState, matched: Option<Peer>, handshakeId: Id,
                        answer: Message2,
                        source: SocketAddress, draws: Draws)
    returns (longer: seq<System>)
    requires Run(states) && n < |Last(states).nodes| && es.st == Last(states).nodes[n].st
    requires MatchedIn(es.st, handshakeId, matched)
    requires answer.Answer? ==> exists header :: ResponsePacket(header, answer) in Last(states).wire
    ensures var (after, result) := InboundResponse(es, matched, answer, source, Last(states).now, draws);
            longer != [] && Continues(states, longer, n, after.st, FramesOf(result))
    ensures NoNewDataSeal(states, longer) && DrawsOnce(states, longer, n)
  {
    longer := states;
    Stay(states, n);
    if matched.Some? {
      longer := Extend(states, n, Finalize(matched.value, handshakeId, answer, draws.sealingWorks));
    }
  }

  /** Any frame that can arrive: the calls the engine makes for it are steps of its node. */
  lemma InboundIsSteps(states: seq<System>, setup: Setup, es: EngineState, frame: Option<Packet>, source: SocketAddress,
                       draws: Draws, matched: Option<Peer>)
    returns (longer: seq<System>)
    requires setup.Valid() && Is(states, setup, es) && DrawsNext(states, setup.self, draws) && !setup.Knows(setup.self)
    requires MayArrive(Last(states).wire, frame)
    requires frame.Some? && frame.value.ResponsePacket? ==> MatchedIn(es.st, frame.value.handshakeId, matched)
    ensures var (after, result) := Inbound(setup, es, frame, source, Last(states).now, draws, matched);
            longer != [] && Continues(states, longer, setup.self, after.st, FramesOf(result))
    ensures NoNewDataSeal(states, longer) && DrawsOnce(states, longer, setup.self)
    ensures Decrypts(es, frame, Last(states).now) ==>
              frame.value.cipher.Sealed? && Last(states).log + [OpeningOf(frame.value.cipher)] <= Last(longer).log
  {
    longer := states;
    Stay(states, setup.self);
    match frame
    case None =>
    case Some(InitPacket(handshakeId, message)) =>
      longer := InitIsSteps(states, setup, es, handshakeId, message, source, draws);
    case Some(ResponsePacket(handshakeId, answer)) =>
      longer := ResponseIsSteps(states, setup.self, es, matched, handshakeId, answer, source, draws);
    case Some(TransportPacket(id, counter, cipher)) =>
      longer := TransportIsSteps(states, setup.self, es, id, counter, cipher, source, draws);
  }

  /** The frame is a transport packet that the engine decrypts. */
  ghost predicate Decrypts(es: EngineState, frame: Option<Packet>, now: Time) {
    && frame.Some? && frame.value.TransportPacket?
    && IsDecrypted(es, frame.value.sessionId, frame.value.counter, frame.value.cipher, now)
  }

  // ---------------------------------------------------------------------------
  // Removals, and keys that are drawn for nothing.
  // ---------------------------------------------------------------------------

  lemma ForgetIsStep(states: seq<System>, setup: Setup, es: EngineState, peer: Peer) returns (longer: seq<System>)
    requires Is(states, setup, es)
    ensures longer != [] && Continues(states, longer, setup.self, Invalidate(es.st, peer).0, {})
    ensures NoNewDataSeal(states, longer) && DrawsNothing(states, longer, setup.self)
  {
    longer := Extend(states, setup.self, Forget(peer));
  }

  /** A DNS update of the engine: nothing, or the removal of one peer's sessions. */
  lemma UpdateIsSteps(states: seq<System>, setup: Setup, es: EngineState, peer: Peer, endpoint: SocketAddress)
    returns (longer: seq<System>)
    requires setup.Valid() && Is(states, setup, es)
    ensures longer != [] && Continues(states, longer, setup.self, UpdateResolved(setup, es, peer, endpoint).0.st, {})
    ensures NoNewDataSeal(states, longer) && DrawsNothing(states, longer, setup.self)
  {
    longer := states;
    Stay(states, setup.self);
    if UpdateResolved(setup, es, peer, endpoint).1 == Ok(true) {
      longer := ForgetIsStep(states, setup, es, peer);
    }
  }

  lemma {:induction false} SkipTo(states: seq<System>, n: Node, number: nat) returns (longer: seq<System>)
    requires Run(states) && n < |Last(states).nodes| && Last(states).nodes[n].drawn <= number
    ensures longer != [] && Continues(states, longer, n, Last(states).nodes[n].st, {})
    ensures NoNewDataSeal(states, longer) && Last(longer).nodes[n].drawn == number
    ensures Last(longer).log == Last(states).log
    decreases number - Last(states).nodes[n].drawn
  {
    longer := states;
    Stay(states, n);
    if Last(states).nodes[n].drawn < number {
      var st := Last(states).nodes[n].st;
      var middle := Extend(states, n, Discard);
      longer := SkipTo(middle, n, number);
      ContinuesTwice(states, middle, longer, n, st, st, {}, {});
    }
  }
}
