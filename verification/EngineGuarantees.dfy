/**
 What the engine promises whatever the network sends: unauthenticated traffic
 changes nothing that matters, one exchange stays one exchange, and outbound
 packets go only where the routes and the endpoints allow.
 */
module EngineGuarantees {
  import opened Wrappers
  import opened Wire
  import opened Noise
  import opened Sessions
  import opened Engines
  import opened Prefixes

  // ---------------------------------------------------------------------------
  // Unauthenticated traffic.
  // ---------------------------------------------------------------------------

  /** Long enough, new to the window, and accepted by the AEAD. */
  predicate Opens(s: Session, counter: u64, cipher: Cipher) {
    cipher.Length() > AEAD_TAG_SIZE && s.window.Fresh(counter) && s.Authentic(counter, cipher)
  }

  /**
   The frame carries proof that the peer holds the keys of an exchange with this node. Inbound
   initiations never do.
   */
  ghost predicate Authenticates(es: EngineState, frame: Option<Packet>, now: Time, matched: Option<Peer>)
    requires frame.Some? && frame.value.ResponsePacket? ==> MatchedIn(es.st, frame.value.handshakeId, matched)
  {
    match frame
    case None => false
    case Some(InitPacket(_, _)) => false
    case Some(ResponsePacket(_, answer)) =>
      matched.Some? && InitiatorFinalize(es.st.pending[matched.value].state, answer, now).Ok?
    case Some(TransportPacket(id, counter, cipher)) =>
      var kept := DropExpired(es.st, now);
      var owner := Owner(kept, id);
      owner.Some? && Opens(At(kept, owner.value), counter, cipher)
  }

  /** Sessions may be gone when they have expired; those that remain, windows included, are the same. */
  ghost predicate OnlyExpiredDropped(before: map<Peer, Session>, after: map<Peer, Session>, now: Time) {
    && (forall p :: p in after ==> p in before && after[p] == before[p])
    && (forall p :: p in before && !before[p].IsExpired(now) ==> p in after)
  }

  ghost predicate Preserved(before: EngineState, after: EngineState, now: Time) {
    && OnlyExpiredDropped(before.st.sessions, after.st.sessions, now)
    && OnlyExpiredDropped(before.st.previous, after.st.previous, now)
    && after.stats == before.stats
    && after.resolved == before.resolved
  }

  ghost predicate SameSessions(st: State, after: State) {
    after.sessions == st.sessions && after.previous == st.previous
  }

  lemma AnsweringKeepsSessions(self: Node, st: State, handshakeId: Id, message: Message1, now: Time, draws: Draws)
    requires message.Init? && message.handshakeId == handshakeId && message.to == self
    ensures SameSessions(st, RepeatOrAnswer(self, st, handshakeId, message, now, draws).0)
  {}

  lemma AcceptingKeepsSessions(st: State, peer: Peer, remoteId: Id, passive: bool, now: Time)
    ensures SameSessions(st, AcceptInbound(st, peer, remoteId, passive, now).0)
  {}

  lemma InitPreserves(setup: Setup, es: EngineState, handshakeId: Id, message: Message1, source: SocketAddress,
                      now: Time, draws: Draws)
    requires setup.Valid()
    ensures SameSessions(es.st, InboundInit(setup, es, handshakeId, message, source, now, draws).0.st)
    ensures Preserved(es, InboundInit(setup, es, handshakeId, message, source, now, draws).0, now)
  {
    if InitFrom(setup, handshakeId, message) {
      AcceptingKeepsSessions(es.st, message.from, handshakeId, setup.Passive(message.from), now);
      var st1 := AcceptInbound(es.st, message.from, handshakeId, setup.Passive(message.from), now).0;
      AnsweringKeepsSessions(setup.self, st1, handshakeId, message, now, draws);
    }
  }

  /** A session that does not authenticate a packet refuses it and stays as it is. */
  lemma RefusalKeepsSession(s: Session, id: Id, counter: u64, cipher: Cipher)
    requires !Opens(s, counter, cipher)
    ensures s.Decrypt(id, counter, cipher).0 == s && s.Decrypt(id, counter, cipher).1.Err?
  {}

  lemma RefusalKeepsState(kept: State, slot: Slot, id: Id, counter: u64, cipher: Cipher)
    requires Has(kept, slot) && !Opens(At(kept, slot), counter, cipher)
    ensures var (after, result) := DecryptAt(kept, slot, id, counter, cipher);
            result.Err? && SameSessions(kept, after)
  {
    RefusalKeepsSession(At(kept, slot), id, counter, cipher);
  }

  lemma BadTransportPreserves(es: EngineState, id: Id, counter: u64, cipher: Cipher, source: SocketAddress, now: Time,
                              draws: Draws)
    requires !Authenticates(es, Some(TransportPacket(id, counter, cipher)), now, None)
    ensures Preserved(es, InboundTransport(es, id, counter, cipher, source, now, draws).0, now)
  {
    var kept := DropExpired(es.st, now);
    match Owner(kept, id)
    case None =>
    case Some(slot) => RefusalKeepsState(kept, slot, id, counter, cipher);
  }

  /** A frame that does not authenticate changes no active or previous session, no window and no learned endpoint. */
  lemma UnauthenticatedPreserves(setup: Setup, es: EngineState, frame: Option<Packet>, source: SocketAddress, now: Time,
                                 draws: Draws, matched: Option<Peer>)
    requires setup.Valid()
    requires frame.Some? && frame.value.ResponsePacket? ==> MatchedIn(es.st, frame.value.handshakeId, matched)
    requires !Authenticates(es, frame, now, matched)
    ensures Preserved(es, Inbound(setup, es, frame, source, now, draws, matched).0, now)
  {
    match frame
    case None =>
    case Some(InitPacket(handshakeId, message)) => InitPreserves(setup, es, handshakeId, message, source, now, draws);
    case Some(ResponsePacket(_, _)) =>
    case Some(TransportPacket(id, counter, cipher)) =>
      BadTransportPreserves(es, id, counter, cipher, source, now, draws);
  }

  /** The peer for whom the frame is proof. */
  ghost predicate ProvenBy(es: EngineState, frame: Option<Packet>, now: Time, matched: Option<Peer>, peer: Peer) {
    match frame
    case Some(ResponsePacket(_, _)) => matched == Some(peer)
    case Some(TransportPacket(id, _, _)) =>
      var owner := Owner(DropExpired(es.st, now), id);
      owner.Some? && owner.value.peer == peer
    case _ => false
  }

  /** The endpoint learned for a peer changes only to the source of a frame that authenticates for that very peer. */
  lemma LearnedEndpointIsProven(setup: Setup, es: EngineState, frame: Option<Packet>, source: SocketAddress, now: Time,
                                draws: Draws,
                                matched: Option<Peer>, peer: Peer)
    requires setup.Valid()
    requires frame.Some? && frame.value.ResponsePacket? ==> MatchedIn(es.st, frame.value.handshakeId, matched)
    requires var after := Inbound(setup, es, frame, source, now, draws, matched).0;
             StatsOf(after, peer).endpoint != StatsOf(es, peer).endpoint
    ensures StatsOf(Inbound(setup, es, frame, source, now, draws, matched).0, peer).endpoint == Some(source)
    ensures Authenticates(es, frame, now, matched) && ProvenBy(es, frame, now, matched, peer)
  {
    if !Authenticates(es, frame, now, matched) {
      UnauthenticatedPreserves(setup, es, frame, source, now, draws, matched);
    } else if frame.value.TransportPacket? {
      DeliveredFromOwner(es.st, frame.value.sessionId, frame.value.counter, frame.value.cipher, now);
      var (after, result) :=
        DecryptTransport(es.st, frame.value.sessionId, frame.value.counter, frame.value.cipher, now);
      if result.Ok? && result.value.Some? {
        DeliveryTouchesOnePeer(es.(st := after), result.value.value, source, now, draws, peer);
      }
    }
  }

  lemma DeliveredFromOwner(st: State, id: Id, counter: u64, cipher: Cipher, now: Time)
    ensures var result := DecryptTransport(st, id, counter, cipher, now).1;
            var owner := Owner(DropExpired(st, now), id);
            result.Ok? && result.value.Some? ==> owner.Some? && result.value.value.peer == owner.value.peer
  {}

  lemma DeliveryTouchesOnePeer(es: EngineState, d: Decrypted, source: SocketAddress, now: Time, draws: Draws,
                               peer: Peer)
    ensures StatsOf(Deliver(es, d, source, now, draws).0, peer).endpoint ==
            if peer == d.peer then Some(source) else StatsOf(es, peer).endpoint
  {}

  datatype Arrival = Arrival(frame: Option<Packet>, source: SocketAddress, now: Time, draws: Draws,
                             matched: Option<Peer>)

  /** The engine states of a run in which nothing authenticates; time does not go back. */
  ghost predicate Flood(setup: Setup, states: seq<EngineState>, arrivals: seq<Arrival>)
    requires setup.Valid()
  {
    && |states| == |arrivals| + 1
    && (forall i, j :: 0 <= i < j < |arrivals| ==> arrivals[i].now <= arrivals[j].now)
    && forall i :: 0 <= i < |arrivals| ==> Ignored(setup, states[i], arrivals[i], states[i + 1])
  }

  ghost predicate Ignored(setup: Setup, es: EngineState, a: Arrival, after: EngineState)
    requires setup.Valid()
  {
    && (a.frame.Some? && a.frame.value.ResponsePacket? ==> MatchedIn(es.st, a.frame.value.handshakeId, a.matched))
    && !Authenticates(es, a.frame, a.now, a.matched)
    && after == Inbound(setup, es, a.frame, a.source, a.now, a.draws, a.matched).0
  }

  lemma ExpiryIsFinal(before: map<Peer, Session>, middle: map<Peer, Session>, after: map<Peer, Session>, earlier: Time,
                      now: Time)
    requires OnlyExpiredDropped(before, middle, earlier) && OnlyExpiredDropped(middle, after, now) && earlier <= now
    ensures OnlyExpiredDropped(before, after, now)
  {}

  /** Any number of inbound initiations and other unauthenticated frames, in any order. */
  lemma {:induction false} FloodChangesNothing(setup: Setup, states: seq<EngineState>, arrivals: seq<Arrival>, n: nat)
    requires setup.Valid() && Flood(setup, states, arrivals) && 0 < n <= |arrivals|
    ensures Preserved(states[0], states[n], arrivals[n - 1].now)
  {
    var es, a := states[n - 1], arrivals[n - 1];
    assert Ignored(setup, es, a, states[n]);
    UnauthenticatedPreserves(setup, es, a.frame, a.source, a.now, a.draws, a.matched);
    if n > 1 {
      FloodChangesNothing(setup, states, arrivals, n - 1);
      ExpiryIsFinal(states[0].st.sessions, es.st.sessions, states[n].st.sessions, arrivals[n - 2].now, a.now);
      ExpiryIsFinal(states[0].st.previous, es.st.previous, states[n].st.previous, arrivals[n - 2].now, a.now);
    }
  }

  // ---------------------------------------------------------------------------
  // One exchange stays one exchange at the responder.
  // ---------------------------------------------------------------------------

  /** This first message was answered, the answer is remembered, and its candidate waits. */
  predicate Answered(st: State, handshakeId: Id, message: Message1, now: Time) {
    && message.Init? && message.from in st.candidates && message.from in st.cache
    && st.cache[message.from].handshakeId == handshakeId && st.cache[message.from].request == message
    && Elapsed(now, st.cache[message.from].createdAt) < HANDSHAKE_CACHE_LIFETIME
  }

  /**
   A duplicate gets the identical response to wherever it came from. The session
   state is untouched unless the peer is passive and still marked for recovery,
   and then only that mark goes.
   */
  lemma DuplicateInit(setup: Setup, es: EngineState, handshakeId: Id, message: Message1, source: SocketAddress,
                      now: Time, draws: Draws)
    requires setup.Valid() && Invariant(es.st) && InitFrom(setup, handshakeId, message)
    requires Answered(es.st, handshakeId, message, now)
    ensures var (after, output) := InboundInit(setup, es, handshakeId, message, source, now, draws);
            && output == EngineOutput([SendTransport(message.from, source, es.st.cache[message.from].response)], [])
            && after == es.(st := es.st.(recovery :=
                 if setup.Passive(message.from) then es.st.recovery - {message.from} else es.st.recovery))
            && (after == es <==> !(setup.Passive(message.from) && message.from in es.st.recovery))
  {
    var peer := message.from;
    assert peer !in es.st.pending;
    assert es.st.pending - {peer} == es.st.pending;
    if peer !in es.st.recovery {
      assert es.st.recovery - {peer} == es.st.recovery;
    }
  }

  /** A passive peer with a waiting candidate is not marked for recovery. */
  ghost predicate Calm(setup: Setup, st: State) {
    forall p :: p in st.candidates && p in st.recovery ==> p in setup.configured && !setup.Passive(p)
  }

  ghost predicate EngineOk(setup: Setup, es: EngineState) {
    Invariant(es.st) && Calm(setup, es.st)
  }

  lemma AnsweringKeepsInvariant(setup: Setup, st: State, handshakeId: Id, message: Message1, now: Time, draws: Draws)
    requires setup.Valid() && InitFrom(setup, handshakeId, message) && Invariant(st)
    ensures Invariant(RepeatOrAnswer(setup.self, st, handshakeId, message, now, draws).0)
  {
    var peer := message.from;
    CachedKeepsInvariant(st, peer, handshakeId, message, now);
    var (st1, cached) := CachedResponse(st, peer, handshakeId, message, now);
    var (answer, session) :=
      ResponderRespond(setup.self, peer, handshakeId, message, draws.sessionId, draws.ephemeral, now).value;
    StoreKeepsInvariant(st1, peer, session, handshakeId, message, ResponsePacket(handshakeId, answer), now);
  }

  lemma AnsweringKeepsCalm(setup: Setup, st: State, handshakeId: Id, message: Message1, now: Time, draws: Draws)
    requires setup.Valid() && InitFrom(setup, handshakeId, message) && Calm(setup, st)
    requires !(setup.Passive(message.from) && message.from in st.recovery)
    ensures Calm(setup, RepeatOrAnswer(setup.self, st, handshakeId, message, now, draws).0)
  {
    var after := RepeatOrAnswer(setup.self, st, handshakeId, message, now, draws).0;
    assert after.recovery == st.recovery;
    assert forall p :: p in after.candidates ==> p in st.candidates || p == message.from;
  }

  lemma AcceptingKeepsCalm(setup: Setup, st: State, peer: Peer, remoteId: Id, now: Time)
    requires peer in setup.configured && Calm(setup, st)
    ensures var (after, accepted) := AcceptInbound(st, peer, remoteId, setup.Passive(peer), now);
            && Calm(setup, after)
            && (accepted ==> !(setup.Passive(peer) && peer in after.recovery))
  {
    var after := AcceptInbound(st, peer, remoteId, setup.Passive(peer), now).0;
    assert after.candidates == st.candidates && after.recovery <= st.recovery;
  }

  lemma InitKeepsOk(setup: Setup, es: EngineState, handshakeId: Id, message: Message1, source: SocketAddress, now: Time,
                    draws: Draws)
    requires setup.Valid() && EngineOk(setup, es)
    ensures EngineOk(setup, InboundInit(setup, es, handshakeId, message, source, now, draws).0)
  {
    if InitFrom(setup, handshakeId, message) {
      AcceptKeepsInvariant(es.st, message.from, handshakeId, setup.Passive(message.from), now);
      AcceptingKeepsCalm(setup, es.st, message.from, handshakeId, now);
      var (st1, accepted) := AcceptInbound(es.st, message.from, handshakeId, setup.Passive(message.from), now);
      if accepted {
        AnsweringKeepsInvariant(setup, st1, handshakeId, message, now, draws);
        AnsweringKeepsCalm(setup, st1, handshakeId, message, now, draws);
      }
    }
  }

  lemma ResponseKeepsOk(setup: Setup, es: EngineState, matched: Peer, answer: Message2, source: SocketAddress,
                        now: Time, draws: Draws)
    requires EngineOk(setup, es) && matched in es.st.pending
    ensures EngineOk(setup, InboundResponse(es, Some(matched), answer, source, now, draws).0)
  {
    FinalizeKeepsInvariant(es.st, matched, answer, now, draws.sealingWorks);
  }

  lemma DecryptKeepsCalm(setup: Setup, st: State, id: Id, counter: u64, cipher: Cipher, now: Time)
    requires Calm(setup, st)
    ensures Calm(setup, DecryptTransport(st, id, counter, cipher, now).0)
  {
    var kept := DropExpired(st, now);
    match Owner(kept, id)
    case None =>
    case Some(slot) =>
      var after := DecryptAt(kept, slot, id, counter, cipher).0;
      assert after.candidates.Keys <= kept.candidates.Keys && after.recovery <= kept.recovery;
  }

  lemma DeliverKeepsOk(setup: Setup, es: EngineState, d: Decrypted, source: SocketAddress, now: Time, draws: Draws)
    requires EngineOk(setup, es)
    ensures EngineOk(setup, Deliver(es, d, source, now, draws).0)
  {
    EncryptKeepsInvariant(es.st, d.peer, Keepalive, KEEPALIVE_ACK_PAYLOAD, now, draws.sealingWorks);
    var after := EncryptForPeer(es.st, d.peer, Keepalive, KEEPALIVE_ACK_PAYLOAD, now, draws.sealingWorks).0;
    assert after.candidates == es.st.candidates && after.recovery == es.st.recovery;
  }

  lemma TransportKeepsOk(setup: Setup, es: EngineState, id: Id, counter: u64, cipher: Cipher, source: SocketAddress,
                         now: Time, draws: Draws)
    requires EngineOk(setup, es)
    ensures EngineOk(setup, InboundTransport(es, id, counter, cipher, source, now, draws).0)
  {
    var (after, result) := DecryptTransport(es.st, id, counter, cipher, now);
    DecryptKeepsInvariant(es.st, id, counter, cipher, now);
    DecryptKeepsCalm(setup, es.st, id, counter, cipher, now);
    if result.Ok? && result.value.Some? {
      DeliverKeepsOk(setup, es.(st := after), result.value.value, source, now, draws);
    }
  }

  lemma InboundKeepsOk(setup: Setup, es: EngineState, frame: Option<Packet>, source: SocketAddress, now: Time,
                       draws: Draws, matched: Option<Peer>)
    requires setup.Valid() && EngineOk(setup, es)
    requires frame.Some? && frame.value.ResponsePacket? ==> MatchedIn(es.st, frame.value.handshakeId, matched)
    ensures EngineOk(setup, Inbound(setup, es, frame, source, now, draws, matched).0)
  {
    match frame
    case None =>
    case Some(InitPacket(handshakeId, message)) => InitKeepsOk(setup, es, handshakeId, message, source, now, draws);
    case Some(ResponsePacket(_, answer)) =>
      if matched.Some? {
        ResponseKeepsOk(setup, es, matched.value, answer, source, now, draws);
      }
    case Some(TransportPacket(id, counter, cipher)) =>
      TransportKeepsOk(setup, es, id, counter, cipher, source, now, draws);
  }

  lemma InitiateKeepsOk(setup: Setup, es: EngineState, peer: Peer, now: Time, draws: Draws)
    requires peer in setup.configured && EngineOk(setup, es)
    ensures EngineOk(setup, InitiatePeer(setup, es, peer, now, draws).0)
  {
    StartKeepsInvariant(es.st, setup.self, peer, draws.handshakeId, draws.ephemeral, now);
    StartShape(es.st, setup.self, peer, draws.handshakeId, draws.ephemeral, now);
    var after := StartOrRetry(es.st, setup.self, peer, draws.handshakeId, draws.ephemeral, now).0;
    assert after.candidates.Keys <= es.st.candidates.Keys && after.recovery == es.st.recovery;
  }

  lemma ForgetKeepsOk(setup: Setup, es: EngineState, st: State, peer: Peer)
    requires EngineOk(setup, es.(st := st))
    ensures EngineOk(setup, es.(st := Invalidate(st, peer).0))
  {
    InvalidateKeepsInvariant(st, peer);
  }

  lemma SealKeepsOk(setup: Setup, es: EngineState, peer: Peer, msgType: MsgType, payload: seq<byte>, now: Time,
                    draws: Draws)
    requires peer in setup.configured && EngineOk(setup, es)
    ensures EngineOk(setup, SealOrInitiate(setup, es, peer, msgType, payload, now, draws).0)
  {
    EncryptKeepsInvariant(es.st, peer, msgType, payload, now, draws.sealingWorks);
    var (after, result) := EncryptForPeer(es.st, peer, msgType, payload, now, draws.sealingWorks);
    ForgetKeepsOk(setup, es, after, peer);
    var ready := if result.Err? then Invalidate(after, peer).0 else after;
    InitiateKeepsOk(setup, es.(st := ready), peer, now, draws);
  }

  lemma UpdateKeepsOk(setup: Setup, es: EngineState, peer: Peer, endpoint: SocketAddress)
    requires setup.Valid() && EngineOk(setup, es)
    ensures EngineOk(setup, UpdateResolved(setup, es, peer, endpoint).0)
  {
    ForgetKeepsOk(setup, es, es.st, peer);
  }

  /** In a state the engine can be in, a duplicate changes nothing at all. */
  lemma DuplicateChangesNothing(setup: Setup, es: EngineState, handshakeId: Id, message: Message1,
                                source: SocketAddress, now: Time, draws: Draws)
    requires setup.Valid() && EngineOk(setup, es) && InitFrom(setup, handshakeId, message)
    requires Answered(es.st, handshakeId, message, now)
    ensures InboundInit(setup, es, handshakeId, message, source, now, draws) ==
            (es, EngineOutput([SendTransport(message.from, source, es.st.cache[message.from].response)], []))
  {
    DuplicateInit(setup, es, handshakeId, message, source, now, draws);
  }

  /**
   The answer that is repeated is the one that was given: right after a first message is answered, it
   is `Answered`.
   */
  lemma FirstInitIsAnswered(setup: Setup, es: EngineState, handshakeId: Id, message: Message1, source: SocketAddress,
                            now: Time, draws: Draws)
    requires setup.Valid() && EngineOk(setup, es)
    ensures var (after, output) := InboundInit(setup, es, handshakeId, message, source, now, draws);
            output.actions != [] ==>
              && InitFrom(setup, handshakeId, message) && message.from in after.st.cache
              && output ==
                  EngineOutput([SendTransport(message.from, source, after.st.cache[message.from].response)], [])
              && (message.from in after.st.candidates ==> Answered(after.st, handshakeId, message, now))
  {}

  // ---------------------------------------------------------------------------
  // Outbound packets and DNS updates.
  // ---------------------------------------------------------------------------

  /** The frame that carries this payload under the peer's active session. */
  function DataFrame(s: Session, msgType: MsgType, payload: seq<byte>): Packet
    requires s.sendCounter < U64_MAX
  {
    TransportPacket(s.id, s.sendCounter,
                    Sealed(s.key, s.isInitiator, s.sendCounter, TransportPlaintext(msgType, payload)))
  }

  ghost predicate ToThePeer(setup: Setup, es: EngineState, peer: Peer, a: EngineAction)
    requires peer in setup.configured
  {
    a.SendTransport? && a.peer == peer && a.endpoint.Usable() && Some(a.endpoint) == ResolveEndpoint(setup, es, peer)
  }

  lemma InitiateSendsFirstMessage(setup: Setup, es: EngineState, peer: Peer, now: Time, draws: Draws)
    requires peer in setup.configured
    ensures var (after, actions) := InitiatePeer(setup, es, peer, now, draws);
            after.stats == es.stats && after.resolved == es.resolved
            && FirstMessageOnly(setup, es, after, peer, actions)
  {}

  /** The sessions seal exactly when they will, and then they make exactly this frame. */
  lemma SealsWhenItWill(es: EngineState, peer: Peer, msgType: MsgType, payload: seq<byte>, now: Time, draws: Draws)
    ensures var result := EncryptForPeer(es.st, peer, msgType, payload, now, draws.sealingWorks).1;
            && ((result.Ok? && result.value.Some?) <==> WillSeal(es, peer, now, draws))
            && (WillSeal(es, peer, now, draws) ==>
                  result.value.value == DataFrame(es.st.sessions[peer], msgType, payload))
  {}

  /** At most a first message: that of the pending exchange, to the peer's usable endpoint. */
  ghost predicate FirstMessageOnly(setup: Setup, es: EngineState, after: EngineState, peer: Peer,
                                   actions: seq<EngineAction>)
    requires peer in setup.configured
  {
    && |actions| <= 1
    && (actions != [] ==>
          && ToThePeer(setup, es, peer, actions[0])
          && peer in after.st.pending && actions[0].frame == after.st.pending[peer].packet)
  }

  /**
   What is sent on behalf of a peer goes to that peer's usable endpoint: at most
   a first message and, exactly when the active session can seal, the payload
   under that session. The payload leaves in no other form.
   */
  lemma SealedForThePeer(setup: Setup, es: EngineState, peer: Peer, msgType: MsgType, payload: seq<byte>, now: Time,
                         draws: Draws)
    returns (first: seq<EngineAction>)
    requires peer in setup.configured
    ensures var (after, actions) := SealOrInitiate(setup, es, peer, msgType, payload, now, draws);
            var endpoint := ResolveEndpoint(setup, es, peer);
            && FirstMessageOnly(setup, es, after, peer, first)
            && if WillSeal(es, peer, now, draws) && endpoint.Some? then
                 actions ==
                     first + [SendTransport(peer, endpoint.value, DataFrame(es.st.sessions[peer], msgType, payload))]
               else
                 actions == first
  {
    var (after, result) := EncryptForPeer(es.st, peer, msgType, payload, now, draws.sealingWorks);
    SealsWhenItWill(es, peer, msgType, payload, now, draws);
    var ready := es.(st := if result.Err? then Invalidate(after, peer).0 else after);
    InitiateSendsFirstMessage(setup, ready, peer, now, draws);
    first := InitiatePeer(setup, ready, peer, now, draws).1;
    assert first + [] == first;
  }

  /** Long enough for a header, of version 4, and with a header that fits. */
  predicate IsIpv4(packet: seq<byte>) {
    |packet| >= 20 && 64 <= packet[0] < 80 && 4 * (packet[0] - 64) <= |packet|
  }

  lemma FourOctets(octets: seq<byte>)
    requires |octets| == 4
    ensures Power256(4) == 0x1_0000_0000
    ensures var a: int, b: int, c: int, d: int := octets[0], octets[1], octets[2], octets[3];
            FromBigEndian(octets) == ((a * 256 + b) * 256 + c) * 256 + d
  {
    assert Power256(2) == 0x1_0000;
    assert octets[..3][..2] == octets[..2] && octets[..2][..1] == octets[..1] && octets[..1][..0] == [];
    assert FromBigEndian(octets[..1]) == octets[0];
    assert FromBigEndian(octets[..2]) == 256 * FromBigEndian(octets[..1]) + octets[1];
    assert FromBigEndian(octets[..3]) == 256 * FromBigEndian(octets[..2]) + octets[2];
  }

  /** A packet has this destination exactly when it is IPv4 and octets 16 to 19 are that address. */
  lemma DestinationIff(packet: seq<byte>, address: Address)
    ensures address < Power256(4)
    ensures Destination(packet) == Ok(address) <==> IsIpv4(packet) && packet[16..20] == BigEndian(address, 4)
  {
    FourOctets([0, 0, 0, 0]);
    BigEndianRoundTrip(address, 4);
    if |packet| >= 20 {
      FourOctets(packet[16..20]);
      FromBigEndianRoundTrip(packet[16..20]);
    }
    RefusedPackets(packet, if packet == [] then 0 else packet[0] / 16, if packet == [] then 0 else packet[0] % 16);
  }

  /** What every other packet is refused with: its length, its version, or its header length. */
  lemma RefusedPackets(packet: seq<byte>, version: nat, words: nat)
    requires packet != [] ==> packet[0] == 16 * version + words && words < 16
    ensures Destination(packet).Err? <==> !IsIpv4(packet)
    ensures Destination(packet).Err? ==>
              Destination(packet).error == if |packet| < 20 then TooShort(|packet|)
                                           else if version != 4 then NotIpv4(version)
                                           else HeaderTooLong(4 * words, |packet|)
  {}

  /**
   An IPv4 packet whose octets 16 to 19 are this address goes to a peer only along a route that is
   eligible for the address, and best among them; other packets are refused.
   */
  lemma OutboundFollowsRoutes(setup: Setup, configured: seq<Routing.Route>, es: EngineState, packet: seq<byte>,
                              address: Address, now: Time, draws: Draws)
    requires setup.Valid() && setup.routes == Routing.StableSort(configured)
    ensures address < Power256(4)
    ensures var (after, result) := OutboundIp(setup, es, packet, now, draws);
            && (IsIpv4(packet) <==> result.Ok?)
            && (result.Err? ==> after == es)
            && (IsIpv4(packet) && packet[16..20] == BigEndian(address, 4) ==>
                  if forall i :: 0 <= i < |configured| ==> !Routing.Eligible(configured[i], address) then
                    after == es && result.value == NOTHING
                  else
                    exists i :: 0 <= i < |configured| && Routing.BestAt(configured, address, i)
                      && configured[i] in setup.routes
                      && (after, result.value.actions) ==
                           SealOrInitiate(setup, es, setup.node[configured[i].peer.name], Data, packet, now, draws))
  {
    DestinationIff(packet, address);
    RefusedPackets(packet, if packet == [] then 0 else packet[0] / 16, if packet == [] then 0 else packet[0] % 16);
    match Destination(packet)
    case Err(_) =>
    case Ok(destination) =>
      FoundIsListed(setup.routes, destination);
      Routing.LookupIsBest(configured, destination);
  }

  /**
   A new address of a peer takes effect at once: nothing old remains, and the next handshake is fresh
   and goes there.
   */
  lemma UpdateMovesThePeer(setup: Setup, es: EngineState, peer: Peer, endpoint: SocketAddress, now: Time, draws: Draws)
    requires setup.Valid() && setup.Knows(peer) && endpoint.Usable()
    ensures var (after, result) := UpdateResolved(setup, es, peer, endpoint);
            && result.Ok?
            && (result.value <==> ConfiguredEndpoint(setup, es, peer) != endpoint)
            && (!result.value ==> after == es)
            && (result.value ==>
                  && ResolveEndpoint(setup, after, peer) == Some(endpoint)
                  && !Has(after.st, Active(peer)) && !Has(after.st, Previous(peer)) && !Has(after.st, Candidate(peer))
                  && InitiatePeer(setup, after, peer, now, draws).1 ==
                       [SendTransport(peer, endpoint,
                                      NewPending(setup.self, peer, draws.handshakeId, draws.ephemeral, now).packet)]
                  && UpdateResolved(setup, after, peer, endpoint) == (after, Ok(false)))
  {}

  /** Other peers do not notice. */
  lemma UpdateKeepsOthers(setup: Setup, es: EngineState, peer: Peer, endpoint: SocketAddress, other: Peer)
    requires setup.Valid() && other != peer && other in setup.configured
    ensures var after := UpdateResolved(setup, es, peer, endpoint).0;
            && ResolveEndpoint(setup, after, other) == ResolveEndpoint(setup, es, other)
            && (other in after.st.sessions <==> other in es.st.sessions)
            && (forall slot: Slot :: slot.peer == other ==> (Has(after.st, slot) <==> Has(es.st, slot)))
            && (forall slot: Slot :: slot.peer == other && Has(es.st, slot) ==> At(after.st, slot) == At(es.st, slot))
            && (other in after.st.pending <==> other in es.st.pending)
            && (other in es.st.pending ==> after.st.pending[other] == es.st.pending[other])
  {}
}
