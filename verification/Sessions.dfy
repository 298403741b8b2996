/**
 The per-peer session state of src/engine.rs as a value: what each
 `SessionManager` operation does to it, and the invariants every operation keeps.
 */
module Sessions {
  import opened Wrappers
  import opened Wire
  import opened Noise

  const HANDSHAKE_RETRY_INTERVAL: nat := 5 * SECOND
  const HANDSHAKE_ATTEMPT_LIFETIME: nat := 30 * SECOND
  const HANDSHAKE_CACHE_LIFETIME: nat := 60 * SECOND

  type Peer = Node

  datatype PendingInitiator = PendingInitiator(
    handshakeId: Id, state: Message1, packet: Packet, createdAt: Time, lastSent: Time)

  datatype CachedHandshake = CachedHandshake(
    handshakeId: Id, request: Message1, response: Packet, createdAt: Time)

  datatype State = State(
    sessions: map<Peer, Session>,
    previous: map<Peer, Session>,
    candidates: map<Peer, Session>,
    pending: map<Peer, PendingInitiator>,
    cache: map<Peer, CachedHandshake>,
    recovery: set<Peer>)

  const EMPTY_STATE := State(map[], map[], map[], map[], map[], {})

  /** A place where a session may live. */
  datatype Slot = Active(peer: Peer) | Previous(peer: Peer) | Candidate(peer: Peer)

  predicate Has(st: State, slot: Slot) {
    match slot
    case Active(p) => p in st.sessions
    case Previous(p) => p in st.previous
    case Candidate(p) => p in st.candidates
  }

  function At(st: State, slot: Slot): Session
    requires Has(st, slot)
  {
    match slot
    case Active(p) => st.sessions[p]
    case Previous(p) => st.previous[p]
    case Candidate(p) => st.candidates[p]
  }

  function Put(st: State, slot: Slot, s: Session): State {
    match slot
    case Active(p) => st.(sessions := st.sessions[p := s])
    case Previous(p) => st.(previous := st.previous[p := s])
    case Candidate(p) => st.(candidates := st.candidates[p := s])
  }

  // ---------------------------------------------------------------------------
  // The invariant of every reachable state.
  // ---------------------------------------------------------------------------

  /** An identifier names at most one session, whatever slot it is in. */
  ghost predicate DistinctIds(st: State) {
    forall a, b :: Has(st, a) && Has(st, b) && At(st, a).id == At(st, b).id ==> a == b
  }

  ghost predicate WindowsValid(st: State) {
    forall a :: Has(st, a) ==> At(st, a).window.Valid()
  }

  ghost predicate Invariant(st: State) {
    && DistinctIds(st)
    && WindowsValid(st)
    // a peer is never both initiator and responder of a new exchange
    && st.pending.Keys !! st.candidates.Keys
    // the response to a waiting candidate can always be repeated
    && st.candidates.Keys <= st.cache.Keys
    // recovery preference is only ever set for a peer without sessions
    && st.recovery !! st.sessions.Keys
    && st.recovery !! st.previous.Keys
  }

  // ---------------------------------------------------------------------------
  // Operations.
  // ---------------------------------------------------------------------------

  function Unexpired(m: map<Peer, Session>, now: Time): map<Peer, Session> {
    map p | p in m && !m[p].IsExpired(now) :: m[p]
  }

  predicate IdInUse(st: State, id: Id) {
    || (exists p :: p in st.sessions && st.sessions[p].id == id)
    || (exists p :: p in st.previous && st.previous[p].id == id)
    || (exists p :: p in st.candidates && st.candidates[p].id == id)
  }

  function Install(st: State, peer: Peer, s: Session): State {
    st.(recovery := st.recovery - {peer},
        previous := if peer in st.sessions then st.previous[peer := st.sessions[peer]] else st.previous,
        sessions := st.sessions[peer := s])
  }

  // encrypt_for_peer

  function DropExpiredFor(st: State, peer: Peer, now: Time): State {
    st.(previous := Unexpired(st.previous, now),
        sessions :=
          if peer in st.sessions && st.sessions[peer].IsExpired(now) then st.sessions - {peer} else st.sessions)
  }

  function EncryptForPeer(st: State, peer: Peer, msgType: MsgType, payload: seq<byte>, now: Time, sealingWorks: bool)
    : (State, Result<Option<Packet>, NoiseError>)
  {
    var kept := DropExpiredFor(st, peer, now);
    if peer !in kept.sessions then (kept, Ok(None))
    else
      var (s, result) := kept.sessions[peer].Encrypt(msgType, payload, sealingWorks);
      var after := kept.(sessions := kept.sessions[peer := s]);
      match result
      case Ok(packet) => (after, Ok(Some(packet)))
      case Err(e) => (after, Err(e))
  }

  // decrypt_transport

  datatype Decrypted = Decrypted(peer: Peer, msgType: MsgType, payload: seq<byte>, promoted: bool)

  function DropExpired(st: State, now: Time): State {
    st.(sessions := Unexpired(st.sessions, now),
        previous := Unexpired(st.previous, now),
        candidates := Unexpired(st.candidates, now))
  }

  ghost predicate Owns(st: State, slot: Slot, id: Id) {
    Has(st, slot) && At(st, slot).id == id
  }

  /** The slot whose session has this identifier. */
  ghost function Owner(st: State, id: Id): Option<Slot> {
    if exists slot :: Owns(st, slot, id) then
      var slot :| Owns(st, slot, id);
      Some(slot)
    else None
  }

  function Promote(st: State, peer: Peer, s: Session): State {
    var installed := Install(st.(candidates := st.candidates - {peer}), peer, s);
    installed.(pending := st.pending - {peer}, cache := st.cache - {peer})
  }

  /** What an arriving transport packet does to the session that owns its identifier. */
  function DecryptAt(st: State, slot: Slot, id: Id, counter: u64,
                     cipher: Cipher): (State, Result<Option<Decrypted>, NoiseError>)
    requires Has(st, slot)
  {
    var (s, result) := At(st, slot).Decrypt(id, counter, cipher);
    match result
    case Err(e) => (Put(st, slot, s), Err(e))
    case Ok((msgType, payload)) =>
      if slot.Candidate? then (Promote(st, slot.peer, s), Ok(Some(Decrypted(slot.peer, msgType, payload, true))))
      else (Put(st, slot, s), Ok(Some(Decrypted(slot.peer, msgType, payload, false))))
  }

  ghost function DecryptTransport(st: State, id: Id, counter: u64, cipher: Cipher, now: Time)
    : (State, Result<Option<Decrypted>, NoiseError>)
  {
    var kept := DropExpired(st, now);
    match Owner(kept, id)
    case None => (kept, Ok(None))
    case Some(slot) => DecryptAt(kept, slot, id, counter, cipher)
  }

  // store_responder_candidate

  function StoreCandidate(st: State, peer: Peer, s: Session, handshakeId: Id, request: Message1, response: Packet,
                          now: Time)
    : (State, bool)
  {
    if IdInUse(st, s.id) then (st, false)
    else (st.(pending := st.pending - {peer},
              candidates := st.candidates[peer := s],
              cache := st.cache[peer := CachedHandshake(handshakeId, request, response, now)]), true)
  }

  // cached_responder_response

  function CachedResponse(st: State, peer: Peer, handshakeId: Id, request: Message1,
                          now: Time): (State, Option<Packet>) {
    if peer in st.cache && Elapsed(now, st.cache[peer].createdAt) >= HANDSHAKE_CACHE_LIFETIME then
      (st.(cache := st.cache - {peer}, candidates := st.candidates - {peer}), None)
    else if peer in st.cache && st.cache[peer].handshakeId == handshakeId && st.cache[peer].request == request then
      (st, Some(st.cache[peer].response))
    else (st, None)
  }

  // accept_inbound_initiation

  function DropStalePending(st: State, peer: Peer, now: Time): State {
    if peer in st.pending && Elapsed(now, st.pending[peer].createdAt) >= HANDSHAKE_ATTEMPT_LIFETIME
    then st.(pending := st.pending - {peer})
    else st
  }

  function AcceptInbound(st: State, peer: Peer, remoteId: Id, passive: bool, now: Time): (State, bool) {
    var live := DropStalePending(st, peer, now);
    if passive && peer in live.recovery then
      (live.(recovery := live.recovery - {peer}, pending := live.pending - {peer}), true)
    else if peer !in live.pending then (live, true)
    else if live.pending[peer].handshakeId <= remoteId then (live, false)
    else (live.(pending := live.pending - {peer}), true)
  }

  // start_or_retry_handshake

  function NewPending(self: Node, peer: Peer, handshakeId: Id, ephemeral: Ephemeral, now: Time): PendingInitiator {
    var message := Init(handshakeId, self, peer, ephemeral);
    PendingInitiator(handshakeId, message, InitPacket(handshakeId, message), now, now)
  }

  /** The state after the checks that come before a new exchange is created. */
  function ReadyToStart(st: State, peer: Peer, now: Time): State {
    var a := if peer in st.candidates && st.candidates[peer].IsExpired(now)
             then st.(candidates := st.candidates - {peer}, cache := st.cache - {peer}) else st;
    if peer in a.candidates then a
    else if peer in a.sessions && a.sessions[peer].IsExpired(now) then a.(sessions := a.sessions - {peer})
    else a
  }

  predicate MustNotStart(st: State, peer: Peer, now: Time) {
    peer in st.candidates || (peer in st.sessions && !st.sessions[peer].ShouldRekey(now))
  }

  /** The handshake identifier and ephemeral key are those a new exchange would draw. */
  function StartOrRetry(st: State, self: Node, peer: Peer, handshakeId: Id, ephemeral: Ephemeral, now: Time)
    : (State, Option<Packet>)
  {
    var live := DropStalePending(st, peer, now);
    if peer in live.pending then
      var waiting := live.pending[peer];
      if Elapsed(now, waiting.lastSent) < HANDSHAKE_RETRY_INTERVAL then (live, None)
      else (live.(pending := live.pending[peer := waiting.(lastSent := now)]), Some(waiting.packet))
    else
      var ready := ReadyToStart(live, peer, now);
      if MustNotStart(ready, peer, now) then (ready, None)
      else
        var attempt := NewPending(self, peer, handshakeId, ephemeral, now);
        (ready.(pending := ready.pending[peer := attempt]), Some(attempt.packet))
  }

  // finalize_initiator

  predicate PendingMatch(st: State, peer: Peer, handshakeId: Id) {
    peer in st.pending && st.pending[peer].handshakeId == handshakeId
  }

  /** Finalize the pending exchange of `peer`; it is dropped even when the answer is bad. */
  function FinalizeFor(st: State, peer: Peer, answer: Message2, now: Time, sealingWorks: bool)
    : (State, Result<Option<(Peer, Packet)>, NoiseError>)
    requires peer in st.pending
  {
    var dropped := st.(pending := st.pending - {peer});
    match InitiatorFinalize(st.pending[peer].state, answer, now)
    case Err(e) => (dropped, Err(e))
    case Ok(session) =>
      if IdInUse(dropped, session.id) then (dropped, Err(WrongSession))
      else
        var (spent, confirmation) := session.Encrypt(Keepalive, KEEPALIVE_PROBE_PAYLOAD, sealingWorks);
        match confirmation
        case Err(e) => (dropped, Err(e))
        case Ok(packet) =>
          var installed := Install(dropped, peer, spent);
          (installed.(candidates := installed.candidates - {peer}, cache := installed.cache - {peer}),
           Ok(Some((peer, packet))))
  }

  // invalidate_peer

  function Invalidate(st: State, peer: Peer): (State, bool) {
    (State(st.sessions - {peer}, st.previous - {peer}, st.candidates - {peer},
           st.pending - {peer}, st.cache - {peer}, st.recovery + {peer}),
     peer in st.sessions || peer in st.previous || peer in st.candidates || peer in st.pending)
  }

  // ---------------------------------------------------------------------------
  // Every operation keeps the invariant.
  // ---------------------------------------------------------------------------

  /** Sessions may leave a slot, and a slot may hold a session that has the same identity as before. */
  ghost predicate SameOrFewer(st: State, after: State) {
    forall a :: Has(after, a) ==> Has(st, a) && At(after, a).id == At(st, a).id && At(after, a).window.Valid()
  }

  lemma FewerKeepsDistinct(st: State, after: State)
    requires DistinctIds(st) && SameOrFewer(st, after)
    ensures DistinctIds(after) && WindowsValid(after)
  {}

  lemma NotInUse(st: State, id: Id)
    ensures IdInUse(st, id) <==> exists slot :: Owns(st, slot, id)
  {
    if p :| p in st.sessions && st.sessions[p].id == id {
      assert Owns(st, Active(p), id);
    }
    if p :| p in st.previous && st.previous[p].id == id {
      assert Owns(st, Previous(p), id);
    }
    if p :| p in st.candidates && st.candidates[p].id == id {
      assert Owns(st, Candidate(p), id);
    }
  }

  lemma EncryptKeepsInvariant(st: State, peer: Peer, msgType: MsgType, payload: seq<byte>, now: Time,
                              sealingWorks: bool)
    requires Invariant(st)
    ensures Invariant(EncryptForPeer(st, peer, msgType, payload, now, sealingWorks).0)
  {
    var after := EncryptForPeer(st, peer, msgType, payload, now, sealingWorks).0;
    forall a | Has(after, a)
      ensures Has(st, a) && At(after, a).id == At(st, a).id && At(after, a).window == At(st, a).window
    {}
    FewerKeepsDistinct(st, after);
  }

  lemma DropExpiredKeepsInvariant(st: State, now: Time)
    requires Invariant(st)
    ensures Invariant(DropExpired(st, now))
  {
    var after := DropExpired(st, now);
    forall a | Has(after, a) ensures Has(st, a) && At(after, a) == At(st, a) {}
    FewerKeepsDistinct(st, after);
  }

  lemma PutKeepsInvariant(st: State, slot: Slot, s: Session)
    requires Invariant(st) && Has(st, slot) && At(st, slot).id == s.id && s.window.Valid()
    ensures Invariant(Put(st, slot, s))
  {
    var after := Put(st, slot, s);
    forall a | Has(after, a)
      ensures Has(st, a) && At(after, a) == (if a == slot then s else At(st, a))
    {}
    FewerKeepsDistinct(st, after);
  }

  lemma PromoteKeepsInvariant(st: State, peer: Peer, s: Session)
    requires Invariant(st) && peer in st.candidates && st.candidates[peer].id == s.id && s.window.Valid()
    ensures Invariant(Promote(st, peer, s))
  {
    var after := Promote(st, peer, s);
    forall a | Has(after, a)
      ensures var from := Origin(st, peer, a);
              && Has(st, from) && At(after, a).id == At(st, from).id && At(after, a).window.Valid()
    {}
    forall a, b | Has(after, a) && Has(after, b) && At(after, a).id == At(after, b).id ensures a == b {
      assert Origin(st, peer, a) == Origin(st, peer, b);
    }
  }

  /** Where the session in slot `a` was before `peer`'s candidate was promoted. */
  ghost function Origin(st: State, peer: Peer, a: Slot): Slot {
    if a == Active(peer) then Candidate(peer)
    else if a == Previous(peer) && peer in st.sessions then Active(peer)
    else a
  }

  lemma DecryptKeepsInvariant(st: State, id: Id, counter: u64, cipher: Cipher, now: Time)
    requires Invariant(st)
    ensures Invariant(DecryptTransport(st, id, counter, cipher, now).0)
  {
    var kept := DropExpired(st, now);
    DropExpiredKeepsInvariant(st, now);
    match Owner(kept, id)
    case None =>
    case Some(slot) =>
      var (s, result) := At(kept, slot).Decrypt(id, counter, cipher);
      assert s.window.Valid();
      PutKeepsInvariant(kept, slot, s);
      if slot.Candidate? {
        PromoteKeepsInvariant(kept, slot.peer, s);
      }
  }

  lemma StoreKeepsInvariant(st: State, peer: Peer, s: Session, handshakeId: Id, request: Message1, response: Packet,
                            now: Time)
    requires Invariant(st) && s.window.Valid()
    ensures Invariant(StoreCandidate(st, peer, s, handshakeId, request, response, now).0)
  {
    var (after, stored) := StoreCandidate(st, peer, s, handshakeId, request, response, now);
    if stored {
      NotInUse(st, s.id);
      forall a | Has(after, a) && a != Candidate(peer)
        ensures Has(st, a) && At(after, a) == At(st, a) && At(st, a).id != s.id
      {
        assert Owns(st, a, At(st, a).id);
      }
    }
  }

  lemma RemovalKeepsInvariant(st: State, after: State)
    requires Invariant(st)
    requires after.sessions.Items <= st.sessions.Items && after.previous.Items <= st.previous.Items
    requires after.candidates.Items <= st.candidates.Items
    requires after.pending.Keys <= st.pending.Keys
    requires after.candidates.Keys <= after.cache.Keys
    requires after.recovery <= st.recovery
    ensures Invariant(after)
  {
    forall p | p in after.sessions ensures p in st.sessions && after.sessions[p] == st.sessions[p] {
      assert (p, after.sessions[p]) in after.sessions.Items;
    }
    forall p | p in after.previous ensures p in st.previous && after.previous[p] == st.previous[p] {
      assert (p, after.previous[p]) in after.previous.Items;
    }
    forall p | p in after.candidates ensures p in st.candidates && after.candidates[p] == st.candidates[p] {
      assert (p, after.candidates[p]) in after.candidates.Items;
    }
    FewerKeepsDistinct(st, after);
  }

  lemma CachedKeepsInvariant(st: State, peer: Peer, handshakeId: Id, request: Message1, now: Time)
    requires Invariant(st)
    ensures Invariant(CachedResponse(st, peer, handshakeId, request, now).0)
  {
    RemovalKeepsInvariant(st, CachedResponse(st, peer, handshakeId, request, now).0);
  }

  lemma AcceptKeepsInvariant(st: State, peer: Peer, remoteId: Id, passive: bool, now: Time)
    requires Invariant(st)
    ensures Invariant(AcceptInbound(st, peer, remoteId, passive, now).0)
  {
    RemovalKeepsInvariant(st, AcceptInbound(st, peer, remoteId, passive, now).0);
  }

  lemma PendingKeepsInvariant(st: State, peer: Peer, waiting: PendingInitiator)
    requires Invariant(st) && peer !in st.candidates
    ensures Invariant(st.(pending := st.pending[peer := waiting]))
  {
    var after := st.(pending := st.pending[peer := waiting]);
    forall a | Has(after, a) ensures Has(st, a) && At(after, a) == At(st, a) {}
    FewerKeepsDistinct(st, after);
  }

  /** Apart from the pending exchange, a start leaves the state, or drops what had expired for the peer. */
  lemma StartShape(st: State, self: Node, peer: Peer, handshakeId: Id, ephemeral: Ephemeral, now: Time)
    ensures var live := DropStalePending(st, peer, now);
            var after := StartOrRetry(st, self, peer, handshakeId, ephemeral, now).0;
            && live == st.(pending := live.pending)
            && (after == live.(pending := after.pending)
                || after == ReadyToStart(live, peer, now).(pending := after.pending))
  {}

  lemma StartKeepsInvariant(st: State, self: Node, peer: Peer, handshakeId: Id, ephemeral: Ephemeral, now: Time)
    requires Invariant(st)
    ensures Invariant(StartOrRetry(st, self, peer, handshakeId, ephemeral, now).0)
  {
    var live := DropStalePending(st, peer, now);
    RemovalKeepsInvariant(st, live);
    if peer in live.pending {
      PendingKeepsInvariant(live, peer, live.pending[peer].(lastSent := now));
    } else {
      var ready := ReadyToStart(live, peer, now);
      RemovalKeepsInvariant(live, ready);
      if peer !in ready.candidates {
        PendingKeepsInvariant(ready, peer, NewPending(self, peer, handshakeId, ephemeral, now));
      }
    }
  }

  lemma FinalizeKeepsInvariant(st: State, peer: Peer, answer: Message2, now: Time, sealingWorks: bool)
    requires Invariant(st) && peer in st.pending
    ensures Invariant(FinalizeFor(st, peer, answer, now, sealingWorks).0)
  {
    var (after, result) := FinalizeFor(st, peer, answer, now, sealingWorks);
    var dropped := st.(pending := st.pending - {peer});
    RemovalKeepsInvariant(st, dropped);
    if result.Ok? {
      var session := InitiatorFinalize(st.pending[peer].state, answer, now).value;
      NotInUse(dropped, session.id);
      forall a | Has(after, a) && a != Active(peer)
        ensures var from := if a == Previous(peer) && peer in st.sessions then Active(peer) else a;
                Has(dropped, from) && At(after, a) == At(dropped, from) && At(after, a).id != session.id
      {
        var from := if a == Previous(peer) && peer in st.sessions then Active(peer) else a;
        assert Owns(dropped, from, At(dropped, from).id);
      }
    }
  }

  lemma InvalidateKeepsInvariant(st: State, peer: Peer)
    requires Invariant(st)
    ensures Invariant(Invalidate(st, peer).0)
  {
    var after := Invalidate(st, peer).0;
    RemovalKeepsInvariant(st, after.(recovery := st.recovery));
    forall a | Has(after, a) ensures Has(st, a) && At(after, a) == At(st, a) {}
  }
}
