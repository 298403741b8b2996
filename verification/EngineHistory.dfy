/**
 Runs of one engine: any calls, in any order. The engine invariant holds in every
 state, and while a responder's candidate waits its answer stays the same one.
 */
module EngineHistory {
  import opened Wrappers
  import opened Wire
  import opened Noise
  import opened Sessions
  import opened Engines
  import opened EngineGuarantees
  import Routing

  datatype Call =
    | Receive(frame: Option<Packet>, source: SocketAddress, now: Time, draws: Draws, matched: Option<Peer>)
    | SendIp(packet: seq<byte>, now: Time, draws: Draws)
    | SendKeepalive(peer: Peer, payload: seq<byte>, now: Time, draws: Draws)
    | Handshake(peer: Peer, now: Time, draws: Draws)
    | Resolve(peer: Peer, endpoint: SocketAddress)
    | Forget(peer: Peer)

  ghost predicate Callable(es: EngineState, c: Call) {
    c.Receive? && c.frame.Some? && c.frame.value.ResponsePacket? ==>
        MatchedIn(es.st, c.frame.value.handshakeId, c.matched)
  }

  ghost function After(setup: Setup, es: EngineState, c: Call): EngineState
    requires setup.Valid() && Callable(es, c)
  {
    match c
    case Receive(frame, source, now, draws, matched) => Inbound(setup, es, frame, source, now, draws, matched).0
    case SendIp(packet, now, draws) => OutboundIp(setup, es, packet, now, draws).0
    case SendKeepalive(peer, payload, now, draws) => KeepaliveFor(setup, es, peer, payload, now, draws).0
    case Handshake(peer, now, draws) => HandshakeFor(setup, es, peer, now, draws).0
    case Resolve(peer, endpoint) => UpdateResolved(setup, es, peer, endpoint).0
    case Forget(peer) => es.(st := Invalidate(es.st, peer).0)
  }

  ghost predicate History(setup: Setup, states: seq<EngineState>, calls: seq<Call>)
    requires setup.Valid()
  {
    && |states| == |calls| + 1
    && states[0] == EngineState(EMPTY_STATE, map[], map[])
    && forall i :: 0 <= i < |calls| ==>
                       Callable(states[i], calls[i]) && states[i + 1] == After(setup, states[i], calls[i])
  }

  lemma CallKeepsOk(setup: Setup, es: EngineState, c: Call)
    requires setup.Valid() && Callable(es, c) && EngineOk(setup, es)
    ensures EngineOk(setup, After(setup, es, c))
  {
    match c
    case Receive(frame, source, now, draws, matched) => InboundKeepsOk(setup, es, frame, source, now, draws, matched);
    case SendIp(packet, now, draws) => SendIpKeepsOk(setup, es, packet, now, draws);
    case SendKeepalive(peer, payload, now, draws) =>
      if setup.Knows(peer) {
        SealKeepsOk(setup, es, peer, Keepalive, payload, now, draws);
      }
    case Handshake(peer, now, draws) =>
      if setup.Knows(peer) {
        InitiateKeepsOk(setup, es, peer, now, draws);
      }
    case Resolve(peer, endpoint) => UpdateKeepsOk(setup, es, peer, endpoint);
    case Forget(peer) => ForgetKeepsOk(setup, es, es.st, peer);
  }

  lemma SendIpKeepsOk(setup: Setup, es: EngineState, packet: seq<byte>, now: Time, draws: Draws)
    requires setup.Valid() && EngineOk(setup, es)
    ensures EngineOk(setup, OutboundIp(setup, es, packet, now, draws).0)
  {
    if Destination(packet).Ok? {
      var route := Routing.LookupIn(setup.routes, Destination(packet).value);
      if route.Some? {
        FoundIsListed(setup.routes, Destination(packet).value);
        SealKeepsOk(setup, es, setup.node[route.value.peer.name], Data, packet, now, draws);
      }
    }
  }

  /** The engine invariant holds after any calls. */
  lemma {:induction false} ReachableEngineOk(setup: Setup, states: seq<EngineState>, calls: seq<Call>, i: nat)
    requires setup.Valid() && History(setup, states, calls) && i <= |calls|
    ensures EngineOk(setup, states[i])
  {
    if i > 0 {
      ReachableEngineOk(setup, states, calls, i - 1);
      CallKeepsOk(setup, states[i - 1], calls[i - 1]);
    }
  }

  // ---------------------------------------------------------------------------
  // A waiting candidate keeps its answer.
  // ---------------------------------------------------------------------------

  /** Every candidate was there before with the same remembered answer, or answers with the key drawn now. */
  ghost predicate AnswersKept(st: State, after: State, drawn: Ephemeral) {
    forall p :: p in after.candidates ==>
      || (p in st.candidates && after.candidates[p].key == st.candidates[p].key && SameAnswer(st, after, p))
      || after.candidates[p].key.responder == drawn
  }

  predicate SameAnswer(st: State, after: State, p: Peer) {
    p in st.cache && p in after.cache && after.cache[p] == st.cache[p]
  }

  lemma KeptTwice(st: State, mid: State, after: State, drawn: Ephemeral)
    requires AnswersKept(st, mid, drawn) && AnswersKept(mid, after, drawn)
    ensures AnswersKept(st, after, drawn)
  {}

  lemma StoringKeepsAnswers(st: State, peer: Peer, s: Session, handshakeId: Id, request: Message1, response: Packet,
                            now: Time, drawn: Ephemeral)
    requires Invariant(st) && s.key.responder == drawn
    ensures AnswersKept(st, StoreCandidate(st, peer, s, handshakeId, request, response, now).0, drawn)
  {}

  lemma RepeatingKeepsAnswers(st: State, peer: Peer, handshakeId: Id, request: Message1, now: Time, drawn: Ephemeral)
    requires Invariant(st)
    ensures AnswersKept(st, CachedResponse(st, peer, handshakeId, request, now).0, drawn)
  {}

  lemma AnsweringKeepsAnswers(self: Node, st: State, handshakeId: Id, message: Message1, now: Time, draws: Draws)
    requires Invariant(st) && message.Init? && message.handshakeId == handshakeId && message.to == self
    ensures AnswersKept(st, RepeatOrAnswer(self, st, handshakeId, message, now, draws).0, draws.ephemeral)
  {
    var drawn := draws.ephemeral;
    RepeatingKeepsAnswers(st, message.from, handshakeId, message, now, drawn);
    CachedKeepsInvariant(st, message.from, handshakeId, message, now);
    var (st1, cached) := CachedResponse(st, message.from, handshakeId, message, now);
    if cached.None? {
      var (answer, session) :=
        ResponderRespond(self, message.from, handshakeId, message, draws.sessionId, drawn, now).value;
      StoringKeepsAnswers(st1, message.from, session, handshakeId, message, ResponsePacket(handshakeId, answer), now,
                          drawn);
      KeptTwice(st, st1, RepeatOrAnswer(self, st, handshakeId, message, now, draws).0, drawn);
    }
  }

  lemma AcceptingTouchesNoAnswer(st: State, peer: Peer, remoteId: Id, passive: bool, now: Time)
    ensures var after := AcceptInbound(st, peer, remoteId, passive, now).0;
            after.candidates == st.candidates && after.cache == st.cache
  {}

  lemma InitKeepsAnswers(self: Node, st: State, passive: bool, handshakeId: Id, message: Message1, now: Time,
                         draws: Draws)
    requires Invariant(st) && message.Init? && message.handshakeId == handshakeId && message.to == self
    ensures AnswersKept(st, AnswerInit(self, st, passive, handshakeId, message, now, draws).0, draws.ephemeral)
  {
    AcceptingTouchesNoAnswer(st, message.from, handshakeId, passive, now);
    AcceptKeepsInvariant(st, message.from, handshakeId, passive, now);
    var accepting := AcceptInbound(st, message.from, handshakeId, passive, now).0;
    AnsweringKeepsAnswers(self, accepting, handshakeId, message, now, draws);
  }

  lemma FinalizeKeepsAnswers(st: State, peer: Peer, answer: Message2, now: Time, sealingWorks: bool, drawn: Ephemeral)
    requires Invariant(st) && peer in st.pending
    ensures AnswersKept(st, FinalizeFor(st, peer, answer, now, sealingWorks).0, drawn)
  {
    var after := FinalizeFor(st, peer, answer, now, sealingWorks).0;
    assert (after.candidates == st.candidates && after.cache == st.cache)
        || (after.candidates == st.candidates - {peer} && after.cache == st.cache - {peer});
  }

  lemma PromotionKeepsAnswers(st: State, slot: Slot, id: Id, counter: u64, cipher: Cipher, drawn: Ephemeral)
    requires Invariant(st) && Has(st, slot)
    ensures AnswersKept(st, DecryptAt(st, slot, id, counter, cipher).0, drawn)
  {
    var s := At(st, slot).Decrypt(id, counter, cipher).0;
    PutKeepsAnswers(st, slot, s, drawn);
    PromoteKeepsAnswers(st, slot.peer, s, drawn);
  }

  lemma PutKeepsAnswers(st: State, slot: Slot, s: Session, drawn: Ephemeral)
    requires Invariant(st) && Has(st, slot) && s.key == At(st, slot).key
    ensures AnswersKept(st, Put(st, slot, s), drawn)
  {}

  lemma PromoteKeepsAnswers(st: State, peer: Peer, s: Session, drawn: Ephemeral)
    requires Invariant(st)
    ensures AnswersKept(st, Promote(st, peer, s), drawn)
  {}

  lemma TransportKeepsAnswers(st: State, id: Id, counter: u64, cipher: Cipher, now: Time, drawn: Ephemeral)
    requires Invariant(st)
    ensures AnswersKept(st, DecryptTransport(st, id, counter, cipher, now).0, drawn)
  {
    var kept := DropExpired(st, now);
    DropExpiredKeepsInvariant(st, now);
    assert AnswersKept(st, kept, drawn);
    match Owner(kept, id)
    case None =>
    case Some(slot) =>
      PromotionKeepsAnswers(kept, slot, id, counter, cipher, drawn);
      KeptTwice(st, kept, DecryptAt(kept, slot, id, counter, cipher).0, drawn);
  }

  /** Sealing touches neither candidates nor answers. */
  lemma EncryptKeepsAnswers(st: State, peer: Peer, msgType: MsgType, payload: seq<byte>, now: Time, sealingWorks: bool,
                            drawn: Ephemeral)
    requires Invariant(st)
    ensures AnswersKept(st, EncryptForPeer(st, peer, msgType, payload, now, sealingWorks).0, drawn)
  {
    var after := EncryptForPeer(st, peer, msgType, payload, now, sealingWorks).0;
    assert after.candidates == st.candidates && after.cache == st.cache;
  }

  lemma ReadyKeepsAnswers(st: State, peer: Peer, now: Time)
    ensures var ready := ReadyToStart(st, peer, now);
            || (ready.candidates == st.candidates && ready.cache == st.cache)
            || (ready.candidates == st.candidates - {peer} && ready.cache == st.cache - {peer})
  {}

  lemma StartTouches(st: State, self: Node, peer: Peer, handshakeId: Id, ephemeral: Ephemeral, now: Time)
    ensures var after := StartOrRetry(st, self, peer, handshakeId, ephemeral, now).0;
            || (after.candidates == st.candidates && after.cache == st.cache)
            || (after.candidates == st.candidates - {peer} && after.cache == st.cache - {peer})
  {
    StartShape(st, self, peer, handshakeId, ephemeral, now);
    ReadyKeepsAnswers(DropStalePending(st, peer, now), peer, now);
  }

  lemma StartKeepsAnswers(st: State, self: Node, peer: Peer, handshakeId: Id, ephemeral: Ephemeral, now: Time,
                          drawn: Ephemeral)
    requires Invariant(st)
    ensures AnswersKept(st, StartOrRetry(st, self, peer, handshakeId, ephemeral, now).0, drawn)
  {
    StartTouches(st, self, peer, handshakeId, ephemeral, now);
    var after := StartOrRetry(st, self, peer, handshakeId, ephemeral, now).0;
    forall p | p in after.candidates
      ensures p in st.candidates && after.candidates[p] == st.candidates[p] && SameAnswer(st, after, p) {}
  }

  lemma ForgetKeepsAnswers(st: State, peer: Peer, drawn: Ephemeral)
    requires Invariant(st)
    ensures AnswersKept(st, Invalidate(st, peer).0, drawn)
  {}

  lemma InitiateKeepsAnswers(setup: Setup, es: EngineState, peer: Peer, now: Time, draws: Draws, drawn: Ephemeral)
    requires peer in setup.configured && Invariant(es.st)
    ensures AnswersKept(es.st, InitiatePeer(setup, es, peer, now, draws).0.st, drawn)
  {
    StartKeepsAnswers(es.st, setup.self, peer, draws.handshakeId, draws.ephemeral, now, drawn);
  }

  lemma SealKeepsAnswers(setup: Setup, es: EngineState, peer: Peer, msgType: MsgType, payload: seq<byte>, now: Time,
                         draws: Draws, drawn: Ephemeral)
    requires peer in setup.configured && Invariant(es.st)
    ensures AnswersKept(es.st, SealOrInitiate(setup, es, peer, msgType, payload, now, draws).0.st, drawn)
  {
    var (sealed, result) := EncryptForPeer(es.st, peer, msgType, payload, now, draws.sealingWorks);
    EncryptKeepsInvariant(es.st, peer, msgType, payload, now, draws.sealingWorks);
    EncryptKeepsAnswers(es.st, peer, msgType, payload, now, draws.sealingWorks, drawn);
    InvalidateKeepsInvariant(sealed, peer);
    ForgetKeepsAnswers(sealed, peer, drawn);
    var ready := if result.Err? then Invalidate(sealed, peer).0 else sealed;
    KeptTwice(es.st, sealed, Invalidate(sealed, peer).0, drawn);
    InitiateKeepsAnswers(setup, es.(st := ready), peer, now, draws, drawn);
    KeptTwice(es.st, ready, InitiatePeer(setup, es.(st := ready), peer, now, draws).0.st, drawn);
  }

  lemma DeliverKeepsAnswers(es: EngineState, d: Decrypted, source: SocketAddress, now: Time, draws: Draws,
                            drawn: Ephemeral)
    requires Invariant(es.st)
    ensures AnswersKept(es.st, Deliver(es, d, source, now, draws).0.st, drawn)
  {
    EncryptKeepsAnswers(es.st, d.peer, Keepalive, KEEPALIVE_ACK_PAYLOAD, now, draws.sealingWorks, drawn);
    DeliverState(es, d, source, now, draws);
  }

  lemma DeliverState(es: EngineState, d: Decrypted, source: SocketAddress, now: Time, draws: Draws)
    ensures var after := Deliver(es, d, source, now, draws).0.st;
            || after == es.st
            || after == EncryptForPeer(es.st, d.peer, Keepalive, KEEPALIVE_ACK_PAYLOAD, now, draws.sealingWorks).0
  {}

  lemma ReceiveKeepsAnswers(setup: Setup, es: EngineState, c: Call)
    requires setup.Valid() && c.Receive? && Callable(es, c) && Invariant(es.st)
    ensures AnswersKept(es.st, After(setup, es, c).st, c.draws.ephemeral)
  {
    var drawn := c.draws.ephemeral;
    match c.frame
    case None =>
    case Some(InitPacket(handshakeId, message)) =>
      if InitFrom(setup, handshakeId, message) {
        InitKeepsAnswers(setup.self, es.st, setup.Passive(message.from), handshakeId, message, c.now, c.draws);
      }
    case Some(ResponsePacket(_, answer)) =>
      if c.matched.Some? {
        FinalizeKeepsAnswers(es.st, c.matched.value, answer, c.now, c.draws.sealingWorks, drawn);
      }
    case Some(TransportPacket(id, counter, cipher)) =>
      TransportKeepsAnswers(es.st, id, counter, cipher, c.now, drawn);
      DecryptKeepsInvariant(es.st, id, counter, cipher, c.now);
      var (after, result) := DecryptTransport(es.st, id, counter, cipher, c.now);
      if result.Ok? && result.value.Some? {
        var delivered := Deliver(es.(st := after), result.value.value, c.source, c.now, c.draws).0.st;
        DeliverKeepsAnswers(es.(st := after), result.value.value, c.source, c.now, c.draws, drawn);
        KeptTwice(es.st, after, delivered, drawn);
      }
  }

  /** The ephemeral key that a call draws for answers, if it handles a frame. */
  ghost predicate DrawsFor(c: Call, e: Ephemeral) {
    c.Receive? && c.draws.ephemeral == e
  }

  lemma CallKeepsAnswers(setup: Setup, es: EngineState, c: Call, drawn: Ephemeral)
    requires setup.Valid() && Callable(es, c) && Invariant(es.st)
    requires c.Receive? ==> drawn == c.draws.ephemeral
    ensures AnswersKept(es.st, After(setup, es, c).st, drawn)
  {
    match c
    case Receive(_, _, _, _, _) => ReceiveKeepsAnswers(setup, es, c);
    case SendIp(packet, now, draws) => SendIpKeepsAnswers(setup, es, packet, now, draws, drawn);
    case SendKeepalive(peer, payload, now, draws) =>
      if setup.Knows(peer) {
        SealKeepsAnswers(setup, es, peer, Keepalive, payload, now, draws, drawn);
      }
    case Handshake(peer, now, draws) =>
      if setup.Knows(peer) {
        InitiateKeepsAnswers(setup, es, peer, now, draws, drawn);
      }
    case Resolve(peer, _) => ForgetKeepsAnswers(es.st, peer, drawn);
    case Forget(peer) => ForgetKeepsAnswers(es.st, peer, drawn);
  }

  lemma SendIpKeepsAnswers(setup: Setup, es: EngineState, packet: seq<byte>, now: Time, draws: Draws, drawn: Ephemeral)
    requires setup.Valid() && Invariant(es.st)
    ensures AnswersKept(es.st, OutboundIp(setup, es, packet, now, draws).0.st, drawn)
  {
    if Destination(packet).Ok? {
      var route := Routing.LookupIn(setup.routes, Destination(packet).value);
      if route.Some? {
        FoundIsListed(setup.routes, Destination(packet).value);
        SealKeepsAnswers(setup, es, setup.node[route.value.peer.name], Data, packet, now, draws, drawn);
      }
    }
  }

  /** The peer's candidate with this key waits in this state. */
  predicate Waits(es: EngineState, peer: Peer, key: Key) {
    peer in es.st.candidates && es.st.candidates[peer].key == key
  }

  /** A candidate that waits now waited, with the same answer, ever since its key was drawn. */
  lemma {:induction false} WaitingKeepsAnswer(setup: Setup, states: seq<EngineState>, calls: seq<Call>, i: nat, j: nat,
                                              peer: Peer, key: Key)
    requires setup.Valid() && History(setup, states, calls) && i <= j <= |calls|
    requires Waits(states[j], peer, key)
    requires forall k :: i <= k < j ==> !DrawsFor(calls[k], key.responder)
    ensures Waits(states[i], peer, key) && SameAnswer(states[i].st, states[j].st, peer)
  {
    ReachableEngineOk(setup, states, calls, j);
    if i < j {
      ReachableEngineOk(setup, states, calls, j - 1);
      var c := calls[j - 1];
      var other := Ephemeral(key.responder.node, key.responder.number + 1);
      CallKeepsAnswers(setup, states[j - 1], c, if c.Receive? then c.draws.ephemeral else other);
      assert !DrawsFor(c, key.responder);
      WaitingKeepsAnswer(setup, states, calls, i, j - 1, peer, key);
    }
  }

  /**
   Whatever was called in between: while the candidate that answered a first
   message waits and the answer is younger than sixty seconds, a duplicate gets
   the answer that the first one got, and changes nothing.
   */
  lemma DuplicatesGetTheSameAnswer(setup: Setup, states: seq<EngineState>, calls: seq<Call>, i: nat, j: nat,
                                   handshakeId: Id, message: Message1, source: SocketAddress, now: Time, draws: Draws,
                                   key: Key)
    requires setup.Valid() && History(setup, states, calls) && i <= j <= |calls|
    requires InitFrom(setup, handshakeId, message)
    requires message.from in states[i].st.cache
    requires states[i].st.cache[message.from].handshakeId == handshakeId
    requires states[i].st.cache[message.from].request == message
    requires Waits(states[j], message.from, key) && forall k :: i <= k < j ==> !DrawsFor(calls[k], key.responder)
    requires Elapsed(now, states[i].st.cache[message.from].createdAt) < HANDSHAKE_CACHE_LIFETIME
    ensures InboundInit(setup, states[j], handshakeId, message, source, now, draws) ==
            (states[j],
             EngineOutput([SendTransport(message.from, source, states[i].st.cache[message.from].response)], []))
  {
    WaitingKeepsAnswer(setup, states, calls, i, j, message.from, key);
    ReachableEngineOk(setup, states, calls, j);
    DuplicateChangesNothing(setup, states[j], handshakeId, message, source, now, draws);
  }
}
