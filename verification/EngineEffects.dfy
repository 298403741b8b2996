/**
 What each operation of the engine does, read off the state before it, with every
 limit written out: who is answered, when a session is replaced, what is sent,
 and what remains of the peer's state.
 */
module EngineEffects {
  import opened Wrappers
  import opened Wire
  import opened Replay
  import opened Noise
  import opened Sessions
  import opened Engines
  import opened EngineGuarantees

  // ---------------------------------------------------------------------------
  // The limits.
  // ---------------------------------------------------------------------------

  /** Less than three minutes old, and with nonces left. */
  predicate Live(s: Session, now: Time) {
    now < s.createdAt + 180_000_000_000 && s.sendCounter < 0xffff_ffff_ffff_ffff
  }

  /** Two minutes old, or 2^32 messages in one direction. */
  predicate Worn(s: Session, now: Time) {
    now >= s.createdAt + 120_000_000_000 || s.sendCounter >= 0x1_0000_0000 || s.receivedMessages >= 0x1_0000_0000
  }

  /** An own attempt less than thirty seconds old. */
  predicate Trying(st: State, peer: Peer, now: Time) {
    peer in st.pending && now < st.pending[peer].createdAt + 30_000_000_000
  }

  predicate HasLiveSession(st: State, peer: Peer, now: Time) {
    peer in st.sessions && Live(st.sessions[peer], now)
  }

  predicate HasLiveCandidate(st: State, peer: Peer, now: Time) {
    peer in st.candidates && Live(st.candidates[peer], now)
  }

  /** The same first message was answered less than a minute ago. */
  predicate Repeats(st: State, message: Message1, now: Time) {
    && message.Init? && message.from in st.cache
    && st.cache[message.from].handshakeId == message.handshakeId && st.cache[message.from].request == message
    && now < st.cache[message.from].createdAt + 60_000_000_000
  }

  lemma LimitsOfSession(s: Session, now: Time)
    ensures s.IsExpired(now) <==> !Live(s, now)
    ensures s.ShouldRekey(now) <==> Worn(s, now)
  {}

  /** The sessions that have not expired. */
  ghost predicate LiveOnly(before: map<Peer, Session>, after: map<Peer, Session>, now: Time) {
    && (forall p :: p in after <==> p in before && Live(before[p], now))
    && (forall p :: p in after ==> after[p] == before[p])
  }

  // ---------------------------------------------------------------------------
  // Endpoints.
  // ---------------------------------------------------------------------------

  /** Frames for a peer go to where it was last heard from; without that, to where it was resolved or configured. */
  lemma EndpointChoice(setup: Setup, es: EngineState, peer: Peer)
    requires peer in setup.configured
    ensures var learned := if peer in es.stats then es.stats[peer].endpoint else None;
            var fallback := if peer in es.resolved then es.resolved[peer] else setup.configured[peer];
            ResolveEndpoint(setup, es, peer) ==
              if learned.Some? && learned.value.ip != 0 && learned.value.port != 0 then learned
              else if fallback.ip != 0 && fallback.port != 0 then Some(fallback)
              else None
  {}

  // ---------------------------------------------------------------------------
  // Starting a handshake.
  // ---------------------------------------------------------------------------

  /** The first message that a node draws for a peer. */
  function FirstMessage(self: Node, peer: Peer, draws: Draws): Packet {
    InitPacket(draws.handshakeId, Init(draws.handshakeId, self, peer, draws.ephemeral))
  }

  /** What was pending, stored or waiting for other peers is as before, and so is what was previous. */
  ghost predicate OthersAsBefore(st: State, after: State, peer: Peer) {
    && after.previous == st.previous && after.recovery == st.recovery
    && after.sessions - {peer} == st.sessions - {peer} && after.candidates - {peer} == st.candidates - {peer}
    && after.pending - {peer} == st.pending - {peer} && after.cache - {peer} == st.cache - {peer}
  }

  /**
   Starting a handshake at a usable endpoint: a fresh attempt is repeated once it is five seconds quiet;
   otherwise, unless a live candidate waits, a new first message is sent exactly when there is no live
   session or it is worn.
   */
  lemma HandshakeEffect(setup: Setup, es: EngineState, peer: Peer, now: Time, draws: Draws)
    requires peer in setup.configured && ResolveEndpoint(setup, es, peer).Some?
    ensures var (after, actions) := InitiatePeer(setup, es, peer, now, draws);
            var endpoint, st := ResolveEndpoint(setup, es, peer).value, es.st;
            && after.stats == es.stats && after.resolved == es.resolved
            && OthersAsBefore(st, after.st, peer)
            && if Trying(st, peer, now) then
                 if now >= st.pending[peer].lastSent + 5_000_000_000 then
                   && actions == [SendTransport(peer, endpoint, st.pending[peer].packet)]
                   && after.st == st.(pending := st.pending[peer := st.pending[peer].(lastSent := now)])
                 else actions == [] && after == es
               else if HasLiveCandidate(st, peer, now)
                       || (HasLiveSession(st, peer, now) && !Worn(st.sessions[peer], now)) then
                 actions == [] && peer !in after.st.pending
               else
                 var first := FirstMessage(setup.self, peer, draws);
                 && actions == [SendTransport(peer, endpoint, first)]
                 && peer in after.st.pending
                 && after.st.pending[peer] == PendingInitiator(draws.handshakeId, first.message, first, now, now)
                 && peer !in after.st.candidates
                 && (peer in after.st.sessions <==> HasLiveSession(st, peer, now))
                 && (peer in after.st.sessions ==> after.st.sessions[peer] == st.sessions[peer])
  {
    if Trying(es.st, peer, now) {
      AttemptGoesOn(es.st, setup.self, peer, now, draws);
    } else {
      NoAttempt(es.st, setup.self, peer, now, draws);
    }
    StartLeavesOthers(es.st, setup.self, peer, now, draws);
  }

  lemma StartLeavesOthers(st: State, self: Node, peer: Peer, now: Time, draws: Draws)
    ensures OthersAsBefore(st, StartOrRetry(st, self, peer, draws.handshakeId, draws.ephemeral, now).0, peer)
  {
    var after := StartOrRetry(st, self, peer, draws.handshakeId, draws.ephemeral, now).0;
    StartShape(st, self, peer, draws.handshakeId, draws.ephemeral, now);
    ReadyLeavesOthers(DropStalePending(st, peer, now), peer, now);
    StartPending(st, self, peer, now, draws);
  }

  lemma StartPending(st: State, self: Node, peer: Peer, now: Time, draws: Draws)
    ensures StartOrRetry(st, self, peer, draws.handshakeId, draws.ephemeral, now).0.pending - {peer} ==
            st.pending - {peer}
  {
    if Trying(st, peer, now) {
      AttemptGoesOn(st, self, peer, now, draws);
    } else {
      var live := DropStalePending(st, peer, now);
      assert live.pending == st.pending - {peer};
      StartPendingWhenIdle(live, self, peer, now, draws);
    }
  }

  lemma StartPendingWhenIdle(live: State, self: Node, peer: Peer, now: Time, draws: Draws)
    requires peer !in live.pending
    ensures StartOrRetry(live, self, peer, draws.handshakeId, draws.ephemeral, now).0.pending - {peer} ==
            live.pending - {peer}
  {}

  lemma ReadyLeavesOthers(st: State, peer: Peer, now: Time)
    ensures OthersAsBefore(st, ReadyToStart(st, peer, now), peer)
  {}

  lemma AttemptGoesOn(st: State, self: Node, peer: Peer, now: Time, draws: Draws)
    requires Trying(st, peer, now)
    ensures StartOrRetry(st, self, peer, draws.handshakeId, draws.ephemeral, now) ==
            if now >= st.pending[peer].lastSent + 5_000_000_000 then
              (st.(pending := st.pending[peer := st.pending[peer].(lastSent := now)]), Some(st.pending[peer].packet))
            else (st, None)
  {}

  /** Without an attempt of our own: nothing, or a new first message. */
  lemma NoAttempt(st: State, self: Node, peer: Peer, now: Time, draws: Draws)
    requires !Trying(st, peer, now)
    ensures var (after, packet) := StartOrRetry(st, self, peer, draws.handshakeId, draws.ephemeral, now);
            if HasLiveCandidate(st, peer, now) || (HasLiveSession(st, peer, now) && !Worn(st.sessions[peer], now)) then
              packet == None && peer !in after.pending
            else
              var first := FirstMessage(self, peer, draws);
              && packet == Some(first)
              && peer in after.pending
              && after.pending[peer] == PendingInitiator(draws.handshakeId, first.message, first, now, now)
              && peer !in after.candidates
              && (peer in after.sessions <==> HasLiveSession(st, peer, now))
              && (peer in after.sessions ==> after.sessions[peer] == st.sessions[peer])
  {
    var live := DropStalePending(st, peer, now);
    assert peer !in live.pending && live == st.(pending := live.pending);
    ReadyEffect(live, peer, now);
  }

  lemma ReadyEffect(st: State, peer: Peer, now: Time)
    ensures var ready := ReadyToStart(st, peer, now);
            && ready.pending == st.pending
            && (peer in ready.candidates <==> HasLiveCandidate(st, peer, now))
            && (MustNotStart(ready, peer, now) <==>
                HasLiveCandidate(st, peer, now) || (HasLiveSession(st, peer, now) && !Worn(st.sessions[peer], now)))
            && (!HasLiveCandidate(st, peer, now) ==>
                  && (peer in ready.sessions <==> HasLiveSession(st, peer, now))
                  && (peer in ready.sessions ==> ready.sessions[peer] == st.sessions[peer]))
  {
    if peer in st.sessions {
      LimitsOfSession(st.sessions[peer], now);
    }
    if peer in st.candidates {
      LimitsOfSession(st.candidates[peer], now);
    }
  }

  // ---------------------------------------------------------------------------
  // Sending a packet or a keepalive.
  // ---------------------------------------------------------------------------

  /** The payload under the active session, with its next nonce. */
  function Payload(s: Session, msgType: MsgType, payload: seq<byte>): Packet
    requires s.sendCounter < U64_MAX
  {
    TransportPacket(s.id, s.sendCounter,
                    Sealed(s.key, s.isInitiator, s.sendCounter, TransportPlaintext(msgType, payload)))
  }

  /** The first message that goes out beside a payload: the pending one again, a new one, or none. */
  function Beside(st: State, self: Node, peer: Peer, now: Time, draws: Draws): Option<Packet> {
    if HasLiveSession(st, peer, now) && !draws.sealingWorks then
      // the cipher refused: the session is given up and replaced at once
      Some(FirstMessage(self, peer, draws))
    else if Trying(st, peer, now) then
      if now >= st.pending[peer].lastSent + 5_000_000_000 then Some(st.pending[peer].packet) else None
    else if HasLiveCandidate(st, peer, now)
            || (HasLiveSession(st, peer, now)
                && !Worn(st.sessions[peer].(sendCounter := st.sessions[peer].sendCounter + 1), now)) then None
    else Some(FirstMessage(self, peer, draws))
  }

  /**
   What leaves for a peer with a usable endpoint: the first message, if one is due, and then the payload,
   exactly when there is a live session and the cipher seals it. A session counts as worn with the
   nonce that this payload takes.
   */
  lemma SealEffect(setup: Setup, es: EngineState, peer: Peer, msgType: MsgType, payload: seq<byte>, now: Time,
                   draws: Draws)
    requires peer in setup.configured && ResolveEndpoint(setup, es, peer).Some?
    ensures var (after, actions) := SealOrInitiate(setup, es, peer, msgType, payload, now, draws);
            var endpoint, beside := ResolveEndpoint(setup, es, peer).value, Beside(es.st, setup.self, peer, now, draws);
            && after.stats == es.stats && after.resolved == es.resolved
            && actions ==
                 (if beside.Some? then [SendTransport(peer, endpoint, beside.value)] else [])
                 + if HasLiveSession(es.st, peer, now) && draws.sealingWorks then
                     [SendTransport(peer, endpoint, Payload(es.st.sessions[peer], msgType, payload))]
                   else []
  {
    var (sealed, result) := EncryptForPeer(es.st, peer, msgType, payload, now, draws.sealingWorks);
    SealedState(es.st, peer, msgType, payload, now, draws.sealingWorks);
    var ready := es.(st := if result.Err? then Invalidate(sealed, peer).0 else sealed);
    HandshakeEffect(setup, ready, peer, now, draws);
    var first := InitiatePeer(setup, ready, peer, now, draws).1;
    assert first + [] == first;
  }

  /** Sealing spends a nonce of the live session, or drops the session that is not. */
  lemma SealedState(st: State, peer: Peer, msgType: MsgType, payload: seq<byte>, now: Time, works: bool)
    ensures var (after, result) := EncryptForPeer(st, peer, msgType, payload, now, works);
            && after.pending == st.pending && after.candidates == st.candidates
            && after.cache == st.cache && after.recovery == st.recovery
            && LiveOnly(st.previous, after.previous, now) && after.sessions - {peer} == st.sessions - {peer}
            && (HasLiveSession(st, peer, now) ==>
                  && peer in after.sessions
                  && after.sessions[peer] == st.sessions[peer].(sendCounter := st.sessions[peer].sendCounter + 1)
                  && result == if works then Ok(Some(Payload(st.sessions[peer], msgType, payload)))
                               else Err(CryptoFailure))
            && (!HasLiveSession(st, peer, now) ==> peer !in after.sessions && result == Ok(None))
  {
    forall s: Session ensures s.IsExpired(now) <==> !Live(s, now) {
      LimitsOfSession(s, now);
    }
  }

  /** Giving a peer up: nothing of it remains, it is marked, and other peers do not notice. */
  lemma ForgetEffect(st: State, peer: Peer)
    ensures var (after, removed) := Invalidate(st, peer);
            && (forall slot: Slot :: Has(after, slot) <==> slot.peer != peer && Has(st, slot))
            && (forall slot: Slot :: Has(after, slot) ==> At(after, slot) == At(st, slot))
            && (forall p :: p in after.pending <==> p != peer && p in st.pending)
            && (forall p :: p in after.pending ==> after.pending[p] == st.pending[p])
            && (forall p :: p in after.cache <==> p != peer && p in st.cache)
            && (forall p :: p in after.cache ==> after.cache[p] == st.cache[p])
            && after.recovery == st.recovery + {peer}
            && (removed <==> peer in st.pending || exists slot: Slot :: slot.peer == peer && Has(st, slot))
  {
    assert peer in st.sessions <==> Has(st, Active(peer));
    assert peer in st.previous <==> Has(st, Previous(peer));
    assert peer in st.candidates <==> Has(st, Candidate(peer));
  }

  /** The routes lead to this peer. */
  ghost predicate Routed(setup: Setup, peer: Peer)
    requires setup.Valid()
  {
    exists i :: 0 <= i < |setup.routes| && setup.node[setup.routes[i].peer.name] == peer
  }

  /**
   A DNS update: refused for an address that cannot be sent to, and for a peer that no route leads to;
   ignored for the address in use; otherwise it replaces the address and everything that was learned.
   */
  lemma UpdateEffect(setup: Setup, es: EngineState, peer: Peer, endpoint: SocketAddress)
    requires setup.Valid()
    ensures var (after, result) := UpdateResolved(setup, es, peer, endpoint);
            if endpoint.ip == 0 || endpoint.port == 0 then
              after == es && result == Err(InvalidPeerEndpoint(endpoint))
            else if !Routed(setup, peer) then
              after == es && result == Err(UnknownPeer(peer))
            else
              && peer in setup.configured
              && var current := if peer in es.resolved then es.resolved[peer] else setup.configured[peer];
                 if current == endpoint then after == es && result == Ok(false)
                 else
                   && result == Ok(true)
                   && after.resolved == es.resolved[peer := endpoint]
                   && after.st == Invalidate(es.st, peer).0
                   && after.stats.Keys == es.stats.Keys
                   && forall p :: p in es.stats ==>
                        after.stats[p] == if p == peer then es.stats[p].(endpoint := None) else es.stats[p]
  {
    RoutedIsKnown(setup, peer);
  }

  lemma RoutedIsKnown(setup: Setup, peer: Peer)
    requires setup.Valid()
    ensures Routed(setup, peer) <==> setup.Knows(peer)
    ensures Routed(setup, peer) ==> peer in setup.configured
  {
    if r :| r in setup.routes && setup.node[r.peer.name] == peer {
      var i :| 0 <= i < |setup.routes| && setup.routes[i] == r;
    }
    if i :| 0 <= i < |setup.routes| && setup.node[setup.routes[i].peer.name] == peer {
      assert setup.routes[i] in setup.routes;
    }
  }

  /** Keepalives and handshakes are for routed peers only. */
  lemma UnroutedPeers(setup: Setup, es: EngineState, peer: Peer, payload: seq<byte>, now: Time, draws: Draws)
    requires setup.Valid()
    ensures KeepaliveFor(setup, es, peer, payload, now, draws).1.Ok? <==> Routed(setup, peer)
    ensures HandshakeFor(setup, es, peer, now, draws).1.Ok? <==> Routed(setup, peer)
    ensures !Routed(setup, peer) ==>
              && KeepaliveFor(setup, es, peer, payload, now, draws) == (es, Err(UnknownPeer(peer)))
              && HandshakeFor(setup, es, peer, now, draws) == (es, Err(UnknownPeer(peer)))
  {
    RoutedIsKnown(setup, peer);
  }

  // ---------------------------------------------------------------------------
  // An authentic first message.
  // ---------------------------------------------------------------------------

  /**
   Whether an authentic first message is turned away: its peer is not a passive one that is waited for,
   and an own attempt less than thirty seconds old has an identifier that is not larger.
   */
  ghost predicate TurnedAway(setup: Setup, st: State, message: Message1, now: Time)
    requires message.Init? && message.from in setup.configured
  {
    var passive := setup.configured[message.from].ip == 0 || setup.configured[message.from].port == 0;
    && !(passive && message.from in st.recovery)
    && Trying(st, message.from, now) && st.pending[message.from].handshakeId <= message.handshakeId
  }

  /** The answer to a first message, and the session that waits for its confirmation. */
  function AnswerTo(message: Message1, draws: Draws): Packet
    requires message.Init?
  {
    ResponsePacket(message.handshakeId, Answer(message, draws.sessionId, draws.ephemeral))
  }

  function NewCandidate(message: Message1, now: Time, draws: Draws): Session
    requires message.Init?
  {
    Session(draws.sessionId, Key(message.ephemeral, draws.ephemeral), false, now, 0, 0, Window(None, {}))
  }

  /**
   A first message of a routed peer: turned away with nothing changed; or answered as before; or answered
   anew. An answered peer is not waited for any more if it is passive, and no own attempt remains. In
   particular a passive peer that is waited for is always answered.
   */
  lemma FirstMessageEffect(setup: Setup, es: EngineState, handshakeId: Id, message: Message1, source: SocketAddress,
                           now: Time, draws: Draws)
    requires setup.Valid() && InitFrom(setup, handshakeId, message) && message.from in setup.configured
    requires !IdInUse(es.st, draws.sessionId)
    ensures var (after, output) := InboundInit(setup, es, handshakeId, message, source, now, draws);
            var peer := message.from;
            if TurnedAway(setup, es.st, message, now) then
              output == NOTHING && after == es
            else
              && after.stats == es.stats && after.resolved == es.resolved
              && after.st.sessions == es.st.sessions && after.st.previous == es.st.previous
              && after.st.pending == es.st.pending - {peer}
              && after.st.recovery == (if setup.Passive(peer) then es.st.recovery - {peer} else es.st.recovery)
              && if Repeats(es.st, message, now) then
                   && output == EngineOutput([SendTransport(peer, source, es.st.cache[peer].response)], [])
                   && after.st.candidates == es.st.candidates && after.st.cache == es.st.cache
                 else
                   && output == EngineOutput([SendTransport(peer, source, AnswerTo(message, draws))], [])
                   && after.st.candidates - {peer} == es.st.candidates - {peer}
                   && peer in after.st.candidates
                   && after.st.candidates[peer] == NewCandidate(message, now, draws)
                   && after.st.cache - {peer} == es.st.cache - {peer}
                   && peer in after.st.cache
                   && after.st.cache[peer] == CachedHandshake(handshakeId, message, AnswerTo(message, draws), now)
  {
    var peer := message.from;
    AcceptEffect(setup, es.st, message, now);
    var (st1, accepted) := AcceptInbound(es.st, peer, handshakeId, setup.Passive(peer), now);
    if accepted {
      AnswerEffect(setup.self, st1, message, now, draws);
    }
  }

  lemma AcceptEffect(setup: Setup, st: State, message: Message1, now: Time)
    requires message.Init? && message.from in setup.configured
    ensures var peer := message.from;
            var (after, accepted) := AcceptInbound(st, peer, message.handshakeId, setup.Passive(peer), now);
            && (accepted <==> !TurnedAway(setup, st, message, now))
            && (!accepted ==> after == st)
            && (accepted ==>
                  after == st.(pending := st.pending - {peer},
                               recovery := if setup.Passive(peer) then st.recovery - {peer} else st.recovery))
  {
    var peer := message.from;
    assert peer !in st.pending ==> st.pending - {peer} == st.pending;
    assert peer !in st.recovery ==> st.recovery - {peer} == st.recovery;
  }

  lemma AnswerEffect(self: Node, st: State, message: Message1, now: Time, draws: Draws)
    requires message.Init? && message.to == self && !IdInUse(st, draws.sessionId) && message.from !in st.pending
    ensures var (after, answer) := RepeatOrAnswer(self, st, message.handshakeId, message, now, draws);
            var peer := message.from;
            if Repeats(st, message, now) then after == st && answer == Some(st.cache[peer].response)
            else
              && answer == Some(AnswerTo(message, draws))
              && after == st.(candidates := st.candidates[peer := NewCandidate(message, now, draws)],
                              cache := st.cache[peer := CachedHandshake(message.handshakeId, message,
                                                                        AnswerTo(message, draws), now)])
  {
    var peer := message.from;
    var st1 := CachedResponse(st, peer, message.handshakeId, message, now).0;
    assert st.pending - {peer} == st.pending;
    var candidate, cached := NewCandidate(message, now, draws),
      CachedHandshake(message.handshakeId, message, AnswerTo(message, draws), now);
    assert st1.candidates[peer := candidate] == st.candidates[peer := candidate];
    assert st1.cache[peer := cached] == st.cache[peer := cached];
  }

  // ---------------------------------------------------------------------------
  // An answer.
  // ---------------------------------------------------------------------------

  /** The answer is the one to this pending first message. */
  predicate AnswersPending(w: PendingInitiator, answer: Message2) {
    w.state.Init? && answer.Answer? && answer.request == w.state
  }

  /** What remains when the new session is active: the old one for receiving, and nothing that was under way. */
  function AfterInstall(st: State, peer: Peer, s: Session): State {
    State(st.sessions[peer := s],
          if peer in st.sessions then st.previous[peer := st.sessions[peer]] else st.previous,
          st.candidates - {peer}, st.pending - {peer}, st.cache - {peer}, st.recovery - {peer})
  }

  /**
   An answer to the pending first message: the new session is active at once with its first nonce spent on
   a confirmation, which goes back to where the answer came from. Any other answer, an identifier that
   is in use, or a cipher that refuses ends the attempt and changes nothing else.
   */
  lemma AnswerFinishes(es: EngineState, peer: Peer, answer: Message2, source: SocketAddress, now: Time, draws: Draws)
    requires peer in es.st.pending
    ensures var (after, result) := InboundResponse(es, Some(peer), answer, source, now, draws);
            var w := es.st.pending[peer];
            if AnswersPending(w, answer) && !IdInUse(es.st, answer.sessionId) && draws.sealingWorks then
              var key := Key(w.state.ephemeral, answer.ephemeral);
              var probe := TransportPlaintext(Keepalive, [0x01]);
              && after.st == AfterInstall(es.st, peer,
                                          Session(answer.sessionId, key, true, now, 1, 0, Window(None, {})))
              && result == Ok(EngineOutput(
                   [SendTransport(peer, source, TransportPacket(answer.sessionId, 0, Sealed(key, true, 0, probe)))],
                   [HandshakeCompleted(peer, source, Initiator)]))
              && HeardFrom(es, after, peer, source, 0, now)
            else
              && after == es.(st := es.st.(pending := es.st.pending - {peer}))
              && result == Err(NoiseFailed(
                   if AnswersPending(w, answer) && IdInUse(es.st, answer.sessionId) then WrongSession
                   else CryptoFailure))
  {}

  /** An answer touches no attempt but one with its own identifier; without one it is ignored. */
  lemma AnswerTouchesItsAttempt(setup: Setup, es: EngineState, handshakeId: Id, answer: Message2, source: SocketAddress,
                                now: Time, draws: Draws, matched: Option<Peer>)
    requires setup.Valid() && MatchedIn(es.st, handshakeId, matched)
    ensures var (after, result) :=
              Inbound(setup, es, Some(ResponsePacket(handshakeId, answer)), source, now, draws, matched);
            && (forall p :: p in es.st.pending && es.st.pending[p].handshakeId != handshakeId ==>
                  p in after.st.pending && after.st.pending[p] == es.st.pending[p])
            && ((forall p :: p in es.st.pending ==> es.st.pending[p].handshakeId != handshakeId) ==>
                  after == es && result == Ok(NOTHING))
            && (matched.Some? ==> matched.value in es.st.pending && matched.value !in after.st.pending)
  {}

  /** The peer was heard from now, from there; its received bytes grew by the payload, and nobody else's. */
  ghost predicate HeardFrom(es: EngineState, after: EngineState, peer: Peer, source: SocketAddress, bytes: nat,
                            now: Time)
  {
    && peer in after.stats
    && after.stats[peer].lastSeen == Some(now) && after.stats[peer].endpoint == Some(source)
    && after.stats[peer].rxBytes == (if peer in es.stats then es.stats[peer].rxBytes else 0) + bytes
    && after.stats[peer].txBytes == (if peer in es.stats then es.stats[peer].txBytes else 0)
    && after.stats - {peer} == es.stats - {peer}
    && after.resolved == es.resolved
  }

  // ---------------------------------------------------------------------------
  // A transport packet.
  // ---------------------------------------------------------------------------

  /** The state without what has expired. */
  ghost predicate Purged(st: State, after: State, now: Time) {
    && LiveOnly(st.sessions, after.sessions, now) && LiveOnly(st.previous, after.previous, now)
    && LiveOnly(st.candidates, after.candidates, now)
    && after.pending == st.pending && after.cache == st.cache && after.recovery == st.recovery
  }

  lemma PurgedIsDropped(st: State, now: Time)
    ensures Purged(st, DropExpired(st, now), now)
  {
    forall s: Session ensures s.IsExpired(now) <==> !Live(s, now) {
      LimitsOfSession(s, now);
    }
  }

  /** The session after it opened a packet. */
  function Received(s: Session, counter: u64): Session {
    s.(window := s.window.Accept(counter),
       receivedMessages := if s.receivedMessages == U64_MAX then U64_MAX else s.receivedMessages + 1)
  }

  /** The packet opens under the session in this slot. */
  ghost predicate OpensAt(st: State, slot: Slot, packet: Packet, now: Time, msgType: MsgType, payload: seq<byte>) {
    && packet.TransportPacket? && packet.cipher.Sealed? && Has(st, slot)
    && var s := At(st, slot);
       && Live(s, now) && s.id == packet.sessionId && s.key == packet.cipher.key
       && packet.cipher.fromInitiator != s.isInitiator && packet.cipher.nonce == packet.counter
       && s.window.Fresh(packet.counter) && packet.cipher.plaintext == TransportPlaintext(msgType, payload)
  }

  /**
   A packet that opens: it moves the window of its session and no other; under a waiting candidate it makes
   that the active session.
   */
  lemma PacketOpens(st: State, slot: Slot, packet: Packet, now: Time, msgType: MsgType, payload: seq<byte>)
    returns (kept: State)
    requires Invariant(st) && OpensAt(st, slot, packet, now, msgType, payload)
    ensures Purged(st, kept, now) && Has(kept, slot)
    ensures DecryptTransport(st, packet.sessionId, packet.counter, packet.cipher, now) ==
            (match slot
             case Active(p) => kept.(sessions := kept.sessions[p := Received(At(st, slot), packet.counter)])
             case Previous(p) => kept.(previous := kept.previous[p := Received(At(st, slot), packet.counter)])
             case Candidate(p) => AfterInstall(kept, p, Received(At(st, slot), packet.counter)),
             Ok(Some(Decrypted(slot.peer, msgType, payload, slot.Candidate?))))
  {
    kept := DropExpired(st, now);
    PurgedIsDropped(st, now);
    DropExpiredKeepsInvariant(st, now);
    assert Owns(kept, slot, packet.sessionId);
    PlaintextRoundTrip(packet.cipher.plaintext, msgType, payload);
  }

  lemma HeardIsNoted(es: EngineState, peer: Peer, source: SocketAddress, bytes: nat, now: Time)
    ensures HeardFrom(es, Heard(es, peer, source, bytes, now), peer, source, bytes, now)
  {}

  /** The event that tells of a promotion. */
  function Promotion(d: Decrypted, source: SocketAddress): seq<EngineEvent> {
    if d.promoted then [HandshakeCompleted(d.peer, source, Responder)] else []
  }

  /** Opened data: the peer is noted, an IPv4 packet is written, and anything else is refused. */
  lemma DataIsHandled(es: EngineState, d: Decrypted, source: SocketAddress, now: Time, draws: Draws)
    requires d.msgType.Data?
    ensures var (after, result) := Deliver(es, d, source, now, draws);
            && HeardFrom(es, after, d.peer, source, |d.payload|, now) && after.st == es.st
            && (result.Ok? <==> IsIpv4(d.payload))
            && (result.Ok? ==>
                  result.value == EngineOutput([WriteIpPacket(d.peer, source, d.payload)], Promotion(d, source)))
            && (result.Err? ==> result.error.BadPacket?)
  {
    HeardIsNoted(es, d.peer, source, |d.payload|, now);
    RefusedPackets(d.payload, if d.payload == [] then 0 else d.payload[0] / 16,
                   if d.payload == [] then 0 else d.payload[0] % 16);
  }

  /** An opened keepalive that is no probe: the peer is noted, and nothing is sent. */
  lemma KeepaliveIsHandled(es: EngineState, d: Decrypted, source: SocketAddress, now: Time, draws: Draws)
    requires d.msgType.Keepalive? && d.payload != [0x01]
    ensures var (after, result) := Deliver(es, d, source, now, draws);
            && HeardFrom(es, after, d.peer, source, 0, now) && after.st == es.st
            && result == Ok(EngineOutput([], Promotion(d, source)))
  {
    HeardIsNoted(es, d.peer, source, 0, now);
  }

  /** An opened probe: it is acknowledged to where it came from, under the live session of the peer if there is one. */
  lemma ProbeIsHandled(es: EngineState, d: Decrypted, source: SocketAddress, now: Time, draws: Draws)
    requires d.msgType.Keepalive? && d.payload == [0x01]
    ensures var (after, result) := Deliver(es, d, source, now, draws);
            && HeardFrom(es, after, d.peer, source, 0, now)
            && if HasLiveSession(es.st, d.peer, now) then
                 var s := es.st.sessions[d.peer];
                 && d.peer in after.st.sessions
                 && after.st.sessions[d.peer] == s.(sendCounter := s.sendCounter + 1)
                 && result == if draws.sealingWorks then
                                Ok(EngineOutput([SendTransport(d.peer, source, Payload(s, Keepalive, [0x02]))],
                                                Promotion(d, source)))
                              else Err(NoiseFailed(CryptoFailure))
               else result == Ok(EngineOutput([], Promotion(d, source)))
  {
    HeardIsNoted(es, d.peer, source, 0, now);
    SealedState(Heard(es, d.peer, source, 0, now).st, d.peer, Keepalive, [0x02], now, draws.sealingWorks);
  }

  /** Why a packet that does not open is refused, in the order of the checks. */
  lemma PacketRefused(st: State, slot: Slot, packet: Packet, now: Time)
    requires Invariant(st) && packet.TransportPacket? && Has(st, slot)
    requires Live(At(st, slot), now) && At(st, slot).id == packet.sessionId
    requires forall msgType, payload :: !OpensAt(st, slot, packet, now, msgType, payload)
    ensures var result := DecryptTransport(st, packet.sessionId, packet.counter, packet.cipher, now).1;
            var s := At(st, slot);
            result == Err(if !s.window.Fresh(packet.counter) then ReplayedCounter
                          else if packet.cipher.Length() < 17 then MalformedTransport
                          else if packet.cipher.Sealed? && packet.cipher.key == s.key
                                  && packet.cipher.fromInitiator != s.isInitiator
                                  && packet.cipher.nonce == packet.counter then MalformedTransport
                          else CryptoFailure)
  {
    var kept := DropExpired(st, now);
    PurgedIsDropped(st, now);
    DropExpiredKeepsInvariant(st, now);
    assert Owns(kept, slot, packet.sessionId) && At(kept, slot) == At(st, slot);
    if packet.cipher.Sealed? && DecodeTransportPlaintext(packet.cipher.plaintext).Some? {
      var (msgType, payload) := DecodeTransportPlaintext(packet.cipher.plaintext).value;
      PlaintextRoundTrip(packet.cipher.plaintext, msgType, payload);
      assert !OpensAt(st, slot, packet, now, msgType, payload);
    }
  }

  /** A packet under an identifier that no live session has is ignored. */
  lemma PacketUnknown(es: EngineState, packet: Packet, source: SocketAddress, now: Time, draws: Draws)
    requires packet.TransportPacket?
    requires forall slot :: Has(es.st, slot) && At(es.st, slot).id == packet.sessionId ==> !Live(At(es.st, slot), now)
    ensures var (after, result) :=
              InboundTransport(es, packet.sessionId, packet.counter, packet.cipher, source, now, draws);
            result == Ok(NOTHING) && Purged(es.st, after.st, now) && after.stats == es.stats
  {
    PurgedIsDropped(es.st, now);
    var kept := DropExpired(es.st, now);
    forall slot ensures !Owns(kept, slot, packet.sessionId) {
      assert Has(kept, slot) ==> Has(es.st, slot) && At(kept, slot) == At(es.st, slot) && Live(At(kept, slot), now);
    }
  }
}
