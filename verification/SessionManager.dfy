/**
 The session manager object of src/engine.rs. Each method works on the six
 collections step by step and is proved equal to the operation in `Sessions`.
 */
module SessionManagers {
  import opened Wrappers
  import opened Wire
  import opened Noise
  import opened Sessions

  class SessionManager {
    const self: Node
    var sessions: map<Peer, Session>
    var previousSessions: map<Peer, Session>
    var responderCandidates: map<Peer, Session>
    var pendingInit: map<Peer, PendingInitiator>
    var responderCache: map<Peer, CachedHandshake>
    var inboundRecoveryPreference: set<Peer>

    ghost function View(): State
      reads this
    {
      State(sessions, previousSessions, responderCandidates, pendingInit, responderCache, inboundRecoveryPreference)
    }

    ghost predicate Valid()
      reads this
    {
      Invariant(View())
    }

    constructor (self: Node)
      ensures Valid() && View() == EMPTY_STATE && this.self == self
    {
      this.self := self;
      sessions, previousSessions, responderCandidates := map[], map[], map[];
      pendingInit, responderCache, inboundRecoveryPreference := map[], map[], {};
    }

    method EncryptForPeer(peer: Peer, msgType: MsgType, payload: seq<byte>, now: Time, sealingWorks: bool)
      returns (result: Result<Option<Packet>, NoiseError>)
      requires Valid()
      modifies this
      ensures Valid()
      ensures (View(), result) == Sessions.EncryptForPeer(old(View()), peer, msgType, payload, now, sealingWorks)
    {
      EncryptKeepsInvariant(View(), peer, msgType, payload, now, sealingWorks);
      previousSessions := Unexpired(previousSessions, now);
      if peer in sessions && sessions[peer].IsExpired(now) {
        sessions := sessions - {peer};
      }
      if peer !in sessions {
        return Ok(None);
      }
      var (session, packet) := sessions[peer].Encrypt(msgType, payload, sealingWorks);
      sessions := sessions[peer := session];
      match packet {
        case Ok(p) => result := Ok(Some(p));
        case Err(e) => result := Err(e);
      }
    }

    method DecryptTransport(id: Id, counter: u64, cipher: Cipher, now: Time)
      returns (result: Result<Option<Decrypted>, NoiseError>)
      requires Valid()
      modifies this
      ensures Valid()
      ensures (View(), result) == Sessions.DecryptTransport(old(View()), id, counter, cipher, now)
    {
      DecryptKeepsInvariant(View(), id, counter, cipher, now);
      DropExpiredKeepsInvariant(View(), now);
      sessions := Unexpired(sessions, now);
      previousSessions := Unexpired(previousSessions, now);
      responderCandidates := Unexpired(responderCandidates, now);
      ghost var kept := View();

      if peer :| peer in sessions && sessions[peer].id == id {
        OwnerIs(kept, Active(peer), id);
        result := DecryptActive(peer, id, counter, cipher);
        return;
      }
      if peer :| peer in previousSessions && previousSessions[peer].id == id {
        OwnerIs(kept, Previous(peer), id);
        result := DecryptPrevious(peer, id, counter, cipher);
        return;
      }
      if peer :| peer in responderCandidates && responderCandidates[peer].id == id {
        OwnerIs(kept, Candidate(peer), id);
        result := DecryptCandidate(peer, id, counter, cipher);
        return;
      }
      NoOwner(kept, id);
      result := Ok(None);
    }

    method DecryptActive(peer: Peer, id: Id, counter: u64, cipher: Cipher)
      returns (result: Result<Option<Decrypted>, NoiseError>)
      requires peer in sessions
      modifies this
      ensures (View(), result) == DecryptAt(old(View()), Active(peer), id, counter, cipher)
    {
      var (session, message) := sessions[peer].Decrypt(id, counter, cipher);
      sessions := sessions[peer := session];
      match message {
        case Err(e) => result := Err(e);
        case Ok(m) => result := Ok(Some(Decrypted(peer, m.0, m.1, false)));
      }
    }

    method DecryptPrevious(peer: Peer, id: Id, counter: u64, cipher: Cipher)
      returns (result: Result<Option<Decrypted>, NoiseError>)
      requires peer in previousSessions
      modifies this
      ensures (View(), result) == DecryptAt(old(View()), Previous(peer), id, counter, cipher)
    {
      var (session, message) := previousSessions[peer].Decrypt(id, counter, cipher);
      previousSessions := previousSessions[peer := session];
      match message {
        case Err(e) => result := Err(e);
        case Ok(m) => result := Ok(Some(Decrypted(peer, m.0, m.1, false)));
      }
    }

    /** An authenticated packet proves that the initiator has the session: the candidate becomes active. */
    method DecryptCandidate(peer: Peer, id: Id, counter: u64, cipher: Cipher)
      returns (result: Result<Option<Decrypted>, NoiseError>)
      requires peer in responderCandidates
      modifies this
      ensures (View(), result) == DecryptAt(old(View()), Candidate(peer), id, counter, cipher)
    {
      var (session, message) := responderCandidates[peer].Decrypt(id, counter, cipher);
      responderCandidates := responderCandidates[peer := session];
      match message {
        case Err(e) => result := Err(e);
        case Ok(m) =>
          responderCandidates := responderCandidates - {peer};
          assert responderCandidates == old(responderCandidates) - {peer};
          InstallActiveSession(peer, session);
          pendingInit := pendingInit - {peer};
          responderCache := responderCache - {peer};
          result := Ok(Some(Decrypted(peer, m.0, m.1, true)));
      }
    }

    method StoreResponderCandidate(peer: Peer, session: Session, handshakeId: Id, request: Message1, response: Packet,
                                   now: Time)
      returns (stored: bool)
      requires Valid() && session.window.Valid()
      modifies this
      ensures Valid()
      ensures (View(), stored) == StoreCandidate(old(View()), peer, session, handshakeId, request, response, now)
    {
      StoreKeepsInvariant(View(), peer, session, handshakeId, request, response, now);
      var inUse := SessionIdInUse(session.id);
      if inUse {
        return false;
      }
      pendingInit := pendingInit - {peer};
      responderCandidates := responderCandidates[peer := session];
      responderCache := responderCache[peer := CachedHandshake(handshakeId, request, response, now)];
      stored := true;
    }

    method CachedResponderResponse(peer: Peer, handshakeId: Id, request: Message1, now: Time)
      returns (response: Option<Packet>)
      requires Valid()
      modifies this
      ensures Valid()
      ensures (View(), response) == CachedResponse(old(View()), peer, handshakeId, request, now)
    {
      CachedKeepsInvariant(View(), peer, handshakeId, request, now);
      var expired := peer in responderCache && Elapsed(now, responderCache[peer].createdAt) >= HANDSHAKE_CACHE_LIFETIME;
      if expired {
        responderCache := responderCache - {peer};
        responderCandidates := responderCandidates - {peer};
        return None;
      }
      if peer !in responderCache {
        return None;
      }
      var cached := responderCache[peer];
      response :=
        if cached.handshakeId == handshakeId && cached.request == request then Some(cached.response) else None;
    }

    method AcceptInboundInitiation(peer: Peer, remoteId: Id, passive: bool, now: Time) returns (accepted: bool)
      requires Valid()
      modifies this
      ensures Valid()
      ensures (View(), accepted) == AcceptInbound(old(View()), peer, remoteId, passive, now)
    {
      AcceptKeepsInvariant(View(), peer, remoteId, passive, now);
      if peer in pendingInit && Elapsed(now, pendingInit[peer].createdAt) >= HANDSHAKE_ATTEMPT_LIFETIME {
        pendingInit := pendingInit - {peer};
      }
      if passive && peer in inboundRecoveryPreference {
        inboundRecoveryPreference := inboundRecoveryPreference - {peer};
        pendingInit := pendingInit - {peer};
        return true;
      }
      if peer !in pendingInit {
        return true;
      }
      if pendingInit[peer].handshakeId <= remoteId {
        return false;
      }
      pendingInit := pendingInit - {peer};
      accepted := true;
    }

    method StartOrRetryHandshake(peer: Peer, handshakeId: Id, ephemeral: Ephemeral, now: Time)
      returns (packet: Option<Packet>)
      requires Valid()
      modifies this
      ensures Valid()
      ensures (View(), packet) == StartOrRetry(old(View()), self, peer, handshakeId, ephemeral, now)
    {
      StartKeepsInvariant(View(), self, peer, handshakeId, ephemeral, now);
      if peer in pendingInit && Elapsed(now, pendingInit[peer].createdAt) >= HANDSHAKE_ATTEMPT_LIFETIME {
        pendingInit := pendingInit - {peer};
      }
      if peer in pendingInit {
        if Elapsed(now, pendingInit[peer].lastSent) < HANDSHAKE_RETRY_INTERVAL {
          return None;
        }
        pendingInit := pendingInit[peer := pendingInit[peer].(lastSent := now)];
        return Some(pendingInit[peer].packet);
      }
      var candidateExpired := peer in responderCandidates && responderCandidates[peer].IsExpired(now);
      if candidateExpired {
        responderCandidates := responderCandidates - {peer};
        responderCache := responderCache - {peer};
      }
      if peer in responderCandidates {
        return None;
      }
      if peer in sessions && sessions[peer].IsExpired(now) {
        sessions := sessions - {peer};
      }
      if peer in sessions && !sessions[peer].ShouldRekey(now) {
        return None;
      }
      var message := Init(handshakeId, self, peer, ephemeral);
      var encoded := InitPacket(handshakeId, message);
      pendingInit := pendingInit[peer := PendingInitiator(handshakeId, message, encoded, now, now)];
      packet := Some(encoded);
    }

    /** `peer` is the pending exchange that was found; with colliding identifiers it may be any of them. */
    method FinalizeInitiator(handshakeId: Id, answer: Message2, now: Time, sealingWorks: bool)
      returns (result: Result<Option<(Peer, Packet)>, NoiseError>, ghost matched: Option<Peer>)
      requires Valid()
      modifies this
      ensures Valid()
      ensures matched.None? ==> (forall p :: !PendingMatch(old(View()), p, handshakeId))
                                && View() == old(View()) && result == Ok(None)
      ensures matched.Some? ==> PendingMatch(old(View()), matched.value, handshakeId)
                                && (View(), result) ==
                                    FinalizeFor(old(View()), matched.value, answer, now, sealingWorks)
    {
      matched := None;
      if peer :| peer in pendingInit && pendingInit[peer].handshakeId == handshakeId {
        matched := Some(peer);
        FinalizeKeepsInvariant(View(), peer, answer, now, sealingWorks);
        var pending := pendingInit[peer];
        pendingInit := pendingInit - {peer};
        match InitiatorFinalize(pending.state, answer, now) {
          case Err(e) => result := Err(e);
          case Ok(session) =>
            var inUse := SessionIdInUse(session.id);
            if inUse {
              result := Err(WrongSession);
            } else {
              var (spent, confirmation) := session.Encrypt(Keepalive, KEEPALIVE_PROBE_PAYLOAD, sealingWorks);
              match confirmation {
                case Err(e) => result := Err(e);
                case Ok(packet) =>
                  InstallActiveSession(peer, spent);
                  responderCandidates := responderCandidates - {peer};
                  responderCache := responderCache - {peer};
                  result := Ok(Some((peer, packet)));
              }
            }
        }
      } else {
        result := Ok(None);
      }
    }

    method InvalidatePeer(peer: Peer) returns (removed: bool)
      requires Valid()
      modifies this
      ensures Valid()
      ensures (View(), removed) == Invalidate(old(View()), peer)
    {
      InvalidateKeepsInvariant(View(), peer);
      removed := peer in sessions || peer in previousSessions || peer in responderCandidates || peer in pendingInit;
      sessions := sessions - {peer};
      previousSessions := previousSessions - {peer};
      responderCandidates := responderCandidates - {peer};
      pendingInit := pendingInit - {peer};
      responderCache := responderCache - {peer};
      inboundRecoveryPreference := inboundRecoveryPreference + {peer};
    }

    method InstallActiveSession(peer: Peer, session: Session)
      modifies this
      ensures View() == Install(old(View()), peer, session)
    {
      inboundRecoveryPreference := inboundRecoveryPreference - {peer};
      if peer in sessions {
        previousSessions := previousSessions[peer := sessions[peer]];
      }
      sessions := sessions[peer := session];
    }

    method SessionIdInUse(id: Id) returns (inUse: bool)
      ensures inUse <==> IdInUse(View(), id)
      ensures inUse <==> exists slot :: Owns(View(), slot, id)
    {
      NotInUse(View(), id);
      inUse := (exists p :: p in sessions && sessions[p].id == id)
            || (exists p :: p in previousSessions && previousSessions[p].id == id)
            || (exists p :: p in responderCandidates && responderCandidates[p].id == id);
    }
  }

  lemma OwnerIs(st: State, slot: Slot, id: Id)
    requires DistinctIds(st) && Owns(st, slot, id)
    ensures Owner(st, id) == Some(slot)
  {}

  lemma NoOwner(st: State, id: Id)
    requires !IdInUse(st, id)
    ensures Owner(st, id) == None
  {
    NotInUse(st, id);
  }
}
