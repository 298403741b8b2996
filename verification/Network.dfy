/**
 Any number of session managers over a network that loses, duplicates, delays
 and reorders packets, and that may put any header in front of a ciphertext.
 Every manager call is one atomic step, so calls of one engine operation may be
 interleaved with any others. A log records what happened, in order.
 */
module Network {
  import opened Wrappers
  import opened Wire
  import opened Noise
  import opened Sessions

  datatype Event =
    | Transmitted(message: Message1, time: Time)     // a first message was handed to the network
    | Stored(key: Key, id: Id)                       // the responder keeps a candidate
    | Installed(key: Key, id: Id)                    // the initiator installs the session
    | Promoted(key: Key, id: Id)                     // the responder's candidate becomes active
    | Spent(key: Key, fromInitiator: bool, nonce: u64, plaintext: seq<byte>, worked: bool)  // the cipher was called
    | Opened(key: Key, fromInitiator: bool, nonce: u64, plaintext: seq<byte>)               // a packet was decrypted

  /** A manager and the number of ephemeral keys its node has drawn. */
  datatype NodeState = NodeState(st: State, drawn: nat)

  datatype System = System(now: Time, nodes: seq<NodeState>, wire: set<Packet>, log: seq<Event>)

  datatype Action =
    | Encrypt(peer: Peer, msgType: MsgType, payload: seq<byte>, works: bool)
    | Decrypt(id: Id, counter: u64, cipher: Cipher)
    | Accept(peer: Peer, remoteId: Id, passive: bool)
    | Repeat(peer: Peer, handshakeId: Id, request: Message1)
    | Store(peer: Peer, handshakeId: Id, request: Message1, sessionId: Id)
    | Start(peer: Peer, handshakeId: Id)
    | Finalize(peer: Peer, handshakeId: Id, answer: Message2, works: bool)
    | Forget(peer: Peer)
    | Discard                        // a key was drawn for an answer that is not given

  datatype Outcome = Outcome(node: NodeState, events: seq<Event>, packets: set<Packet>)

  // ---------------------------------------------------------------------------
  // One step.
  // ---------------------------------------------------------------------------

  /** Randomness and packet headers are free; authenticated contents come from the network. */
  ghost predicate Enabled(sys: System, n: Node, a: Action)
    requires n < |sys.nodes|
  {
    match a
    case Encrypt(_, _, _, _) => true
    case Decrypt(_, _, cipher) =>
      cipher.Sealed? ==> exists id, counter :: TransportPacket(id, counter, cipher) in sys.wire
    case Accept(_, _, _) => true
    case Repeat(_, _, _) => true
    case Store(peer, handshakeId, request, sessionId) =>
      && peer != n
      && ResponderRespond(n, peer, handshakeId, request, sessionId, Ephemeral(n, sys.nodes[n].drawn), sys.now).Ok?
      && InitPacket(handshakeId, request) in sys.wire
    case Start(peer, _) => peer != n
    case Finalize(peer, handshakeId, answer, _) =>
      && PendingMatch(sys.nodes[n].st, peer, handshakeId)
      && (answer.Answer? ==> exists header :: ResponsePacket(header, answer) in sys.wire)
    case Forget(_) => true
    case Discard => true
  }

  ghost function Act(n: Node, node: NodeState, a: Action, now: Time): Outcome
    requires a.Store? ==>
        ResponderRespond(n, a.peer, a.handshakeId, a.request, a.sessionId, Ephemeral(n, node.drawn), now).Ok?
    requires a.Finalize? ==> a.peer in node.st.pending
  {
    var st := node.st;
    match a
    case Encrypt(peer, msgType, payload, works) =>
      var (after, result) := EncryptForPeer(st, peer, msgType, payload, now, works);
      var kept := DropExpiredFor(st, peer, now);
      var events := if peer in kept.sessions then
        var s := kept.sessions[peer];
        [Spent(s.key, s.isInitiator, s.sendCounter, TransportPlaintext(msgType, payload), works)] else [];
      Outcome(node.(st := after), events, if result.Ok? && result.value.Some? then {result.value.value} else {})
    case Decrypt(id, counter, cipher) =>
      var (after, result) := DecryptTransport(st, id, counter, cipher, now);
      if result.Ok? && result.value.Some? then
        var s := At(st, Owner(DropExpired(st, now), id).value);
        var opening := Opened(cipher.key, cipher.fromInitiator, cipher.nonce, cipher.plaintext);
        Outcome(node.(st := after), [opening] + if result.value.value.promoted then [Promoted(s.key, s.id)] else [], {})
      else Outcome(node.(st := after), [], {})
    case Accept(peer, remoteId, passive) =>
      Outcome(node.(st := AcceptInbound(st, peer, remoteId, passive, now).0), [], {})
    case Repeat(peer, handshakeId, request) =>
      var (after, response) := CachedResponse(st, peer, handshakeId, request, now);
      Outcome(node.(st := after), [], if response.Some? then {response.value} else {})
    case Store(peer, handshakeId, request, sessionId) =>
      var (answer, session) :=
        ResponderRespond(n, peer, handshakeId, request, sessionId, Ephemeral(n, node.drawn), now).value;
      var response := ResponsePacket(handshakeId, answer);
      var (after, stored) := StoreCandidate(st, peer, session, handshakeId, request, response, now);
      Outcome(NodeState(after, node.drawn + 1),
              if stored then [Stored(session.key, session.id)] else [],
              if stored then {response} else {})
    case Start(peer, handshakeId) =>
      var (after, packet) := StartOrRetry(st, n, peer, handshakeId, Ephemeral(n, node.drawn), now);
      Outcome(NodeState(after, node.drawn + 1),
              if packet.Some? && packet.value.InitPacket? then [Transmitted(packet.value.message, now)] else [],
              if packet.Some? then {packet.value} else {})
    case Finalize(peer, _, answer, works) =>
      var (after, result) := FinalizeFor(st, peer, answer, now, works);
      var session := InitiatorFinalize(st.pending[peer].state, answer, now);
      var events :=
        if session.Err? || IdInUse(st, session.value.id) then []
        else
          var s := session.value;
          [Spent(s.key, true, 0, TransportPlaintext(Keepalive, KEEPALIVE_PROBE_PAYLOAD), works)]
          + if works then [Installed(s.key, s.id)] else [];
      Outcome(node.(st := after), events, if result.Ok? && result.value.Some? then {result.value.value.1} else {})
    case Forget(peer) => Outcome(node.(st := Invalidate(st, peer).0), [], {})
    case Discard => Outcome(node.(drawn := node.drawn + 1), [], {})
  }

  ghost function Do(sys: System, n: Node, a: Action): System
    requires n < |sys.nodes| && Enabled(sys, n, a)
  {
    var outcome := Act(n, sys.nodes[n], a, sys.now);
    System(sys.now, sys.nodes[n := outcome.node], sys.wire + outcome.packets, sys.log + outcome.events)
  }

  ghost predicate Step(sys: System, next: System) {
    || (next.now >= sys.now && next == sys.(now := next.now))
    || exists n: Node, a: Action :: n < |sys.nodes| && Enabled(sys, n, a) && next == Do(sys, n, a)
  }

  ghost predicate Initial(sys: System) {
    && sys.wire == {} && sys.log == []
    && forall n :: 0 <= n < |sys.nodes| ==> sys.nodes[n] == NodeState(EMPTY_STATE, 0)
  }

  ghost predicate Run(states: seq<System>) {
    && states != [] && Initial(states[0])
    && forall i :: 0 <= i < |states| - 1 ==> Step(states[i], states[i + 1])
  }

  // ---------------------------------------------------------------------------
  // What may follow what: the whole specification of the log.
  // ---------------------------------------------------------------------------

  ghost predicate MayFollow(log: seq<Event>, e: Event) {
    match e
    case Transmitted(message, time) =>
      // the same bytes again, at least one retry interval later, within the attempt's lifetime
      message.Init? &&
      forall f :: f in log && f.Transmitted? && f.message.Init? && f.message.ephemeral == message.ephemeral ==>
        f.message == message && f.time + HANDSHAKE_RETRY_INTERVAL <= time < f.time + HANDSHAKE_ATTEMPT_LIFETIME
    case Stored(key, id) =>
      forall f :: f in log && f.Stored? ==> f.key.responder != key.responder
    case Installed(key, id) =>
      // the peer stored this session before, and this pending initiation installed nothing else
      && Stored(key, id) in log
      && forall f :: f in log && f.Installed? ==> f.key.initiator != key.initiator
    case Promoted(key, id) =>
      // the initiator has the session already
      Installed(key, id) in log
    case Spent(key, fromInitiator, nonce, _, _) =>
      && nonce < U64_MAX
      && forall f :: f in log && f.Spent? && f.key == key && f.fromInitiator == fromInitiator ==> f.nonce < nonce
    case Opened(key, fromInitiator, nonce, plaintext) =>
      // the other side sealed exactly this, and it was never opened before
      && Spent(key, fromInitiator, nonce, plaintext, true) in log
      && forall f :: f in log && f.Opened? && f.key == key && f.fromInitiator == fromInitiator ==> f.nonce != nonce
  }

  ghost predicate LogOk(log: seq<Event>) {
    forall j :: 0 <= j < |log| ==> MayFollow(log[..j], log[j])
  }

  lemma LogGrows(log: seq<Event>, e: Event)
    requires LogOk(log) && MayFollow(log, e)
    ensures LogOk(log + [e])
  {
    forall j | 0 <= j < |log + [e]| ensures MayFollow((log + [e])[..j], (log + [e])[j]) {
      assert (log + [e])[..j] == if j < |log| then log[..j] else log;
    }
  }

  // ---------------------------------------------------------------------------
  // The invariant that carries it.
  // ---------------------------------------------------------------------------

  /** The counters and the window of a session account for everything the log says about its key. */
  ghost predicate CountersOk(log: seq<Event>, s: Session) {
    && (forall e :: e in log && e.Spent? && e.key == s.key && e.fromInitiator == s.isInitiator ==>
                        e.nonce < s.sendCounter)
    && (forall e :: e in log && e.Opened? && e.key == s.key && e.fromInitiator != s.isInitiator ==>
                        e.nonce in s.window.accepted)
  }

  ghost predicate SlotOk(self: Node, log: seq<Event>, slot: Slot, s: Session) {
    && slot.peer != self
    && CountersOk(log, s)
    && if s.isInitiator then
         && s.key.initiator.node == self && s.key.responder.node == slot.peer
         && !slot.Candidate? && Installed(s.key, s.id) in log
       else
         && s.key.responder.node == self && s.key.initiator.node == slot.peer
         && Stored(s.key, s.id) in log
         && (!slot.Candidate? ==> Promoted(s.key, s.id) in log)
  }

  ghost predicate Unused(log: seq<Event>, ephemeral: Ephemeral) {
    && (forall e :: e in log && e.Installed? ==> e.key.initiator != ephemeral)
    && (forall e :: e in log && e.Spent? && e.fromInitiator ==> e.key.initiator != ephemeral)
  }

  ghost predicate PendingOk(self: Node, drawn: nat, log: seq<Event>, peer: Peer, w: PendingInitiator) {
    && w.state.Init? && w.state.handshakeId == w.handshakeId && w.state.from == self && w.state.to == peer
    && peer != self
    && w.state.ephemeral.node == self && w.state.ephemeral.number < drawn
    && w.packet == InitPacket(w.handshakeId, w.state)
    && w.createdAt <= w.lastSent
    && Unused(log, w.state.ephemeral)
    && forall e :: e in log && e.Transmitted? && e.message.Init? && e.message.ephemeral == w.state.ephemeral ==>
         e.message == w.state && w.createdAt <= e.time <= w.lastSent
  }

  ghost predicate DistinctKeys(st: State) {
    forall a, b :: Has(st, a) && Has(st, b) && At(st, a).key == At(st, b).key ==> a == b
  }

  ghost predicate DistinctPending(st: State) {
    forall p, q :: p in st.pending && q in st.pending && SamePendingKey(st.pending[p].state, st.pending[q].state) ==>
                       p == q
  }

  ghost predicate SamePendingKey(a: Message1, b: Message1) {
    a.Init? && b.Init? && a.ephemeral == b.ephemeral
  }

  ghost predicate CacheOk(st: State, wire: set<Packet>) {
    forall p :: p in st.cache ==> st.cache[p].response.ResponsePacket? && st.cache[p].response in wire
  }

  ghost predicate Local(self: Node, node: NodeState, log: seq<Event>) {
    && Invariant(node.st)
    && DistinctKeys(node.st)
    && DistinctPending(node.st)
    && (forall slot :: Has(node.st, slot) ==> SlotOk(self, log, slot, At(node.st, slot)))
    && (forall p :: p in node.st.pending ==> PendingOk(self, node.drawn, log, p, node.st.pending[p]))
  }

  ghost predicate Known(nodes: seq<NodeState>, e: Ephemeral) {
    e.node < |nodes| && e.number < nodes[e.node].drawn
  }

  ghost predicate EventKnown(nodes: seq<NodeState>, e: Event) {
    match e
    case Transmitted(message, _) =>
      message.Init? && Known(nodes, message.ephemeral) && message.ephemeral.node == message.from
    case _ => Known(nodes, e.key.initiator) && Known(nodes, e.key.responder)
  }

  ghost predicate PacketOk(nodes: seq<NodeState>, log: seq<Event>, packet: Packet) {
    match packet
    case InitPacket(_, message) =>
      message.Init? ==> Known(nodes, message.ephemeral) && message.ephemeral.node == message.from
    case ResponsePacket(_, answer) =>
      answer.Answer? ==>
        && answer.request.Init? && answer.ephemeral.node == answer.request.to
        && Stored(Key(answer.request.ephemeral, answer.ephemeral), answer.sessionId) in log
    case TransportPacket(_, _, cipher) =>
      cipher.Sealed? ==> Spent(cipher.key, cipher.fromInitiator, cipher.nonce, cipher.plaintext, true) in log
  }

  /** A key that an initiator used has been installed by it. */
  ghost predicate UseImpliesInstalled(log: seq<Event>) {
    && (forall e :: e in log && e.Spent? && e.fromInitiator && e.worked ==> exists id :: Installed(e.key, id) in log)
    && (forall e :: e in log && e.Opened? && !e.fromInitiator ==> exists id :: Installed(e.key, id) in log)
  }

  ghost predicate SystemOk(sys: System) {
    && LogOk(sys.log)
    && UseImpliesInstalled(sys.log)
    && (forall e :: e in sys.log ==> EventKnown(sys.nodes, e))
    && (forall packet :: packet in sys.wire ==> PacketOk(sys.nodes, sys.log, packet))
    && (forall n :: 0 <= n < |sys.nodes| ==> Local(n, sys.nodes[n], sys.log))
    && (forall n :: 0 <= n < |sys.nodes| ==> CacheOk(sys.nodes[n].st, sys.wire))
  }

  // ---------------------------------------------------------------------------
  // Steps of other nodes.
  // ---------------------------------------------------------------------------

  /** The event is about something that only node `n` does. */
  ghost predicate By(n: Node, e: Event) {
    match e
    case Transmitted(message, _) => message.Init? && message.ephemeral.node == n
    case Stored(key, _) => key.responder.node == n
    case Installed(key, _) => key.initiator.node == n
    case Promoted(key, _) => key.responder.node == n
    case Spent(key, fromInitiator, _, _, _) => (if fromInitiator then key.initiator.node else key.responder.node) == n
    case Opened(key, fromInitiator, _, _) => (if fromInitiator then key.responder.node else key.initiator.node) == n
  }

  lemma SlotUnaffected(self: Node, log: seq<Event>, events: seq<Event>, slot: Slot, s: Session, n: Node)
    requires SlotOk(self, log, slot, s) && n != self
    requires forall e :: e in events ==> By(n, e)
    ensures SlotOk(self, log + events, slot, s)
  {}

  lemma PendingUnaffected(self: Node, drawn: nat, log: seq<Event>, events: seq<Event>, p: Peer, w: PendingInitiator,
                          n: Node)
    requires PendingOk(self, drawn, log, p, w) && n != self
    requires forall e :: e in events ==> By(n, e)
    ensures PendingOk(self, drawn, log + events, p, w)
  {}

  lemma OtherNodesUnaffected(self: Node, node: NodeState, log: seq<Event>, events: seq<Event>, n: Node)
    requires Local(self, node, log) && n != self
    requires forall e :: e in events ==> By(n, e)
    ensures Local(self, node, log + events)
  {
    forall slot | Has(node.st, slot) ensures SlotOk(self, log + events, slot, At(node.st, slot)) {
      SlotUnaffected(self, log, events, slot, At(node.st, slot), n);
    }
    forall p | p in node.st.pending ensures PendingOk(self, node.drawn, log + events, p, node.st.pending[p]) {
      PendingUnaffected(self, node.drawn, log, events, p, node.st.pending[p], n);
    }
  }

  // ---------------------------------------------------------------------------
  // Steps of the node itself. Each lemma: its events are allowed, and the node
  // is consistent with the longer log.
  // ---------------------------------------------------------------------------

  /** A new state whose sessions and pending exchanges were all there before. */
  ghost predicate Shrunk(st: State, after: State) {
    && (forall a :: Has(after, a) ==> Has(st, a) && At(after, a) == At(st, a))
    && (forall p :: p in after.pending ==> p in st.pending && after.pending[p] == st.pending[p])
  }

  lemma ShrinkingIsLocal(self: Node, node: NodeState, log: seq<Event>, after: State)
    requires Local(self, node, log) && Shrunk(node.st, after) && Invariant(after)
    ensures Local(self, node.(st := after), log)
  {}

  /** Events that use the key of the session in one slot. */
  ghost predicate UsesKey(events: seq<Event>, key: Key) {
    forall e :: e in events ==> (e.Spent? || e.Opened?) && e.key == key
  }

  ghost predicate SameIdentity(s: Session, t: Session) {
    s.id == t.id && s.key == t.key && s.isInitiator == t.isInitiator
  }

  /**
   `after` is `st` with the session in `slot` replaced by `s`, except that sessions and pending
   exchanges may be gone.
   */
  ghost predicate Replaced(st: State, after: State, slot: Slot, s: Session) {
    && (forall a :: Has(after, a) ==> Has(st, a) && At(after, a) == if a == slot then s else At(st, a))
    && (forall p :: p in after.pending ==> p in st.pending && after.pending[p] == st.pending[p])
  }

  lemma UnusedByKey(self: Node, drawn: nat, log: seq<Event>, p: Peer, w: PendingInitiator, slot: Slot, s: Session,
                    events: seq<Event>)
    requires PendingOk(self, drawn, log, p, w) && SlotOk(self, log, slot, s)
    requires UsesKey(events, s.key)
    requires forall e :: e in events ==> By(self, e)
    ensures PendingOk(self, drawn, log + events, p, w)
  {
    forall e | e in events && e.Spent? && e.fromInitiator ensures e.key.initiator != w.state.ephemeral {
      assert s.isInitiator;
    }
  }

  /** Using one session's key changes that session only. */
  lemma UseIsLocal(self: Node, node: NodeState, log: seq<Event>, slot: Slot, s: Session, events: seq<Event>,
                   after: State)
    requires Local(self, node, log) && Invariant(after)
    requires Has(node.st, slot) && SameIdentity(At(node.st, slot), s)
    requires Replaced(node.st, after, slot, s)
    requires UsesKey(events, s.key) && (forall e :: e in events ==> By(self, e))
    requires CountersOk(log + events, s)
    ensures Local(self, node.(st := after), log + events)
  {
    var st := node.st;
    assert SlotOk(self, log, slot, At(st, slot));
    forall a | Has(after, a) ensures SlotOk(self, log + events, a, At(after, a)) {
      assert SlotOk(self, log, a, At(st, a));
      if a != slot {
        assert At(st, a).key != s.key;
        assert CountersOk(log + events, At(st, a));
      }
    }
    forall a, b | Has(after, a) && Has(after, b) && At(after, a).key == At(after, b).key ensures a == b {
      assert At(st, a).key == At(st, b).key;
    }
    forall p | p in after.pending ensures PendingOk(self, node.drawn, log + events, p, after.pending[p]) {
      UnusedByKey(self, node.drawn, log, p, st.pending[p], slot, At(st, slot), events);
    }
  }

  lemma UseKeepsInstalled(self: Node, log: seq<Event>, slot: Slot, s: Session, e: Event)
    requires UseImpliesInstalled(log) && SlotOk(self, log, slot, s)
    requires UsesKey([e], s.key) && (e.Spent? ==> e.fromInitiator == s.isInitiator)
             && (e.Opened? ==> e.fromInitiator != s.isInitiator)
    ensures UseImpliesInstalled(log + [e])
  {
    assert e in [e];
    if s.isInitiator {
      assert Installed(s.key, s.id) in log + [e];
    }
    forall f | f in log && f.Spent? && f.fromInitiator && f.worked
      ensures exists id :: Installed(f.key, id) in log + [e] {
      var id :| Installed(f.key, id) in log;
      assert Installed(f.key, id) in log + [e];
    }
    forall f | f in log && f.Opened? && !f.fromInitiator ensures exists id :: Installed(f.key, id) in log + [e] {
      var id :| Installed(f.key, id) in log;
      assert Installed(f.key, id) in log + [e];
    }
  }

  lemma OtherEventKeepsInstalled(log: seq<Event>, e: Event)
    requires UseImpliesInstalled(log)
    requires !e.Spent? && !e.Opened?
    ensures UseImpliesInstalled(log + [e])
  {
    forall f | f in log + [e] && ((f.Spent? && f.fromInitiator && f.worked) || (f.Opened? && !f.fromInitiator))
      ensures exists id :: Installed(f.key, id) in log + [e]
    {
      assert f in log;
      var id :| Installed(f.key, id) in log;
      assert Installed(f.key, id) in log + [e];
    }
  }

  lemma EncryptReplaces(st: State, peer: Peer, msgType: MsgType, payload: seq<byte>, now: Time, works: bool)
    requires peer in DropExpiredFor(st, peer, now).sessions
    ensures var s := st.sessions[peer];
            && peer in st.sessions && s.sendCounter < U64_MAX
            && Replaced(st, EncryptForPeer(st, peer, msgType, payload, now, works).0, Active(peer),
                        s.(sendCounter := s.sendCounter + 1))
  {}

  /** A session may spend its next nonce. */
  lemma SpendingIsAllowed(self: Node, log: seq<Event>, slot: Slot, s: Session, e: Event)
    requires SlotOk(self, log, slot, s) && s.sendCounter < U64_MAX
    requires e.Spent? && e.key == s.key && e.fromInitiator == s.isInitiator && e.nonce == s.sendCounter
    ensures MayFollow(log, e) && By(self, e)
    ensures CountersOk(log + [e], s.(sendCounter := s.sendCounter + 1))
  {}

  lemma EncryptIsLocal(self: Node, node: NodeState, log: seq<Event>, a: Action, now: Time)
    requires Local(self, node, log) && UseImpliesInstalled(log) && a.Encrypt?
    ensures var outcome := Act(self, node, a, now);
            && Local(self, outcome.node, log + outcome.events)
            && |outcome.events| <= 1
            && (outcome.events != [] ==> MayFollow(log, outcome.events[0]) && By(self, outcome.events[0]))
            && UseImpliesInstalled(log + outcome.events)
  {
    var outcome := Act(self, node, a, now);
    var st, after, events := node.st, outcome.node.st, outcome.events;
    EncryptKeepsInvariant(st, a.peer, a.msgType, a.payload, now, a.works);
    if events == [] {
      assert log + events == log;
      ShrinkingIsLocal(self, node, log, after);
    } else {
      var slot := Active(a.peer);
      var s := At(st, slot);
      assert SlotOk(self, log, slot, s);
      var used := s.(sendCounter := s.sendCounter + 1);
      EncryptReplaces(st, a.peer, a.msgType, a.payload, now, a.works);
      SpendingIsAllowed(self, log, slot, s, events[0]);
      assert events == [events[0]];
      UseIsLocal(self, node, log, slot, used, events, after);
      UseKeepsInstalled(self, log, slot, s, events[0]);
    }
  }

  // decrypt_transport

  /** Everything a candidate needs to be promoted: its initiator installed the same session. */
  lemma CandidateWasInstalled(self: Node, log: seq<Event>, peer: Peer, s: Session, nonce: u64, plaintext: seq<byte>)
    requires LogOk(log) && UseImpliesInstalled(log)
    requires SlotOk(self, log, Candidate(peer), s)
    requires Spent(s.key, true, nonce, plaintext, true) in log
    ensures Installed(s.key, s.id) in log
  {
    var id :| Installed(s.key, id) in log;
    var j :| 0 <= j < |log| && log[j] == Installed(s.key, id);
    assert MayFollow(log[..j], log[j]);
    assert Stored(s.key, id) in log[..j];
    StoredOnce(log, s.key, id, s.id);
  }

  lemma EarlierStoredDiffers(log: seq<Event>, i: nat, j: nat)
    requires LogOk(log) && i < j < |log| && log[i].Stored? && log[j].Stored?
    ensures log[i].key.responder != log[j].key.responder
  {
    assert MayFollow(log[..j], log[j]);
    assert log[..j][i] == log[i];
    assert log[i] in log[..j];
  }

  lemma StoredOnce(log: seq<Event>, key: Key, id: Id, other: Id)
    requires LogOk(log) && Stored(key, id) in log && Stored(key, other) in log
    ensures id == other
  {
    var i: nat :| i < |log| && log[i] == Stored(key, id);
    var j: nat :| j < |log| && log[j] == Stored(key, other);
    StoredAtOnePlace(log, i, j);
  }

  lemma StoredAtOnePlace(log: seq<Event>, i: nat, j: nat)
    requires LogOk(log) && i < |log| && j < |log| && log[i].Stored? && log[j].Stored?
    requires log[i].key.responder == log[j].key.responder
    ensures i == j
  {
    if i < j {
      EarlierStoredDiffers(log, i, j);
    } else if j < i {
      EarlierStoredDiffers(log, j, i);
    }
  }

  lemma PromoteMoves(st: State, peer: Peer, a: Slot)
    requires peer in st.candidates && Has(Promote(st, peer, st.candidates[peer]), a)
    ensures Has(st, Origin(st, peer, a))
    ensures At(Promote(st, peer, st.candidates[peer]), a) == At(st, Origin(st, peer, a))
  {}

  lemma PromoteIsLocal(self: Node, node: NodeState, log: seq<Event>, peer: Peer)
    requires Local(self, node, log) && peer in node.st.candidates
    requires Promoted(node.st.candidates[peer].key, node.st.candidates[peer].id) in log
    ensures Local(self, node.(st := Promote(node.st, peer, node.st.candidates[peer])), log)
  {
    var st := node.st;
    var after := Promote(st, peer, st.candidates[peer]);
    assert Has(st, Candidate(peer)) && At(st, Candidate(peer)).window.Valid();
    PromoteKeepsInvariant(st, peer, st.candidates[peer]);
    assert SlotOk(self, log, Candidate(peer), At(st, Candidate(peer)));
    forall a | Has(after, a) ensures SlotOk(self, log, a, At(after, a)) {
      PromoteMoves(st, peer, a);
      assert SlotOk(self, log, Origin(st, peer, a), At(st, Origin(st, peer, a)));
    }
    forall a, b | Has(after, a) && Has(after, b) && At(after, a).key == At(after, b).key ensures a == b {
      PromoteMoves(st, peer, a);
      PromoteMoves(st, peer, b);
      assert Origin(st, peer, a) == Origin(st, peer, b);
    }
  }

  lemma DropExpiredIsLocal(self: Node, node: NodeState, log: seq<Event>, now: Time)
    requires Local(self, node, log)
    ensures Local(self, node.(st := DropExpired(node.st, now)), log)
  {
    DropExpiredKeepsInvariant(node.st, now);
    ShrinkingIsLocal(self, node, log, DropExpired(node.st, now));
  }

  lemma PutIsReplaced(st: State, slot: Slot, s: Session)
    requires Has(st, slot)
    ensures Replaced(st, Put(st, slot, s), slot, s)
  {}

  lemma PromoteAfterPut(st: State, peer: Peer, s: Session)
    requires peer in st.candidates
    ensures Promote(Put(st, Candidate(peer), s), peer, s) == Promote(st, peer, s)
  {
    assert st.candidates[peer := s] - {peer} == st.candidates - {peer};
  }

  /** A packet that is not delivered may still have advanced a window (a bad inner type byte). */
  lemma RefusedIsLocal(self: Node, node: NodeState, log: seq<Event>, slot: Slot, id: Id, counter: u64, cipher: Cipher)
    requires Local(self, node, log) && Has(node.st, slot)
    ensures Local(self, node.(st := Put(node.st, slot, At(node.st, slot).Decrypt(id, counter, cipher).0)), log)
  {
    var s := At(node.st, slot);
    var after := s.Decrypt(id, counter, cipher).0;
    assert SlotOk(self, log, slot, s);
    PutKeepsInvariant(node.st, slot, after);
    PutIsReplaced(node.st, slot, after);
    assert log + [] == log;
    UseIsLocal(self, node, log, slot, after, [], Put(node.st, slot, after));
  }

  lemma OpenedIsLocal(self: Node, node: NodeState, log: seq<Event>, slot: Slot, id: Id, counter: u64, cipher: Cipher)
    requires Local(self, node, log) && UseImpliesInstalled(log) && Has(node.st, slot)
    requires At(node.st, slot).Decrypt(id, counter, cipher).1.Ok?
    requires Spent(cipher.key, cipher.fromInitiator, cipher.nonce, cipher.plaintext, true) in log
    ensures var e := Opened(cipher.key, cipher.fromInitiator, cipher.nonce, cipher.plaintext);
            && Local(self, node.(st := Put(node.st, slot, At(node.st, slot).Decrypt(id, counter, cipher).0)), log + [e])
            && MayFollow(log, e) && By(self, e) && UseImpliesInstalled(log + [e])
  {
    var s := At(node.st, slot);
    var after := s.Decrypt(id, counter, cipher).0;
    var e := Opened(cipher.key, cipher.fromInitiator, cipher.nonce, cipher.plaintext);
    assert SlotOk(self, log, slot, s);
    assert s.window.Valid();
    PutKeepsInvariant(node.st, slot, after);
    PutIsReplaced(node.st, slot, after);
    UseIsLocal(self, node, log, slot, after, [e], Put(node.st, slot, after));
    UseKeepsInstalled(self, log, slot, s, e);
  }

  /** The promotion itself, after the packet was opened: allowed by the log, and consistent. */
  lemma PromotionIsLocal(self: Node, put: NodeState, log: seq<Event>, peer: Peer)
    requires Local(self, put, log) && UseImpliesInstalled(log)
    requires peer in put.st.candidates
    requires Installed(put.st.candidates[peer].key, put.st.candidates[peer].id) in log
    ensures var s := put.st.candidates[peer];
            var e := Promoted(s.key, s.id);
            && MayFollow(log, e) && By(self, e) && UseImpliesInstalled(log + [e])
            && Local(self, put.(st := Promote(put.st, peer, s)), log + [e])
  {
    var s := put.st.candidates[peer];
    var e := Promoted(s.key, s.id);
    assert SlotOk(self, log, Candidate(peer), At(put.st, Candidate(peer)));
    OtherEventKeepsInstalled(log, e);
    OtherEventIsLocal(self, put, log, e);
    PromoteIsLocal(self, put, log + [e], peer);
  }

  ghost predicate EventsAllowed(self: Node, log: seq<Event>, events: seq<Event>) {
    && |events| <= 2
    && (events != [] ==> MayFollow(log, events[0]) && By(self, events[0]))
    && (|events| == 2 ==> MayFollow(log + [events[0]], events[1]) && By(self, events[1]))
  }

  lemma NoEvents(self: Node, log: seq<Event>)
    ensures log + [] == log && EventsAllowed(self, log, [])
  {}

  lemma OneEvent(self: Node, log: seq<Event>, e: Event)
    requires MayFollow(log, e) && By(self, e)
    ensures EventsAllowed(self, log, [e])
  {}

  lemma TwoEvents(self: Node, log: seq<Event>, e: Event, f: Event)
    requires MayFollow(log, e) && By(self, e)
    requires MayFollow(log + [e], f) && By(self, f)
    ensures EventsAllowed(self, log, [e] + [f])
    ensures log + ([e] + [f]) == log + [e] + [f]
  {}

  /** A candidate that opened a packet, and is promoted by it. */
  lemma OpenedCandidateIsLocal(self: Node, kept: NodeState, log: seq<Event>, peer: Peer, after: Session, e: Event)
    requires peer in kept.st.candidates && SameIdentity(kept.st.candidates[peer], after)
    requires Local(self, kept.(st := Put(kept.st, Candidate(peer), after)), log + [e])
    requires MayFollow(log, e) && By(self, e) && UseImpliesInstalled(log + [e])
    requires Installed(after.key, after.id) in log
    ensures Local(self, kept.(st := Promote(kept.st, peer, after)), log + ([e] + [Promoted(after.key, after.id)]))
    ensures EventsAllowed(self, log, [e] + [Promoted(after.key, after.id)])
    ensures UseImpliesInstalled(log + ([e] + [Promoted(after.key, after.id)]))
  {
    PromotionIsLocal(self, kept.(st := Put(kept.st, Candidate(peer), after)), log + [e], peer);
    PromoteAfterPut(kept.st, peer, after);
    TwoEvents(self, log, e, Promoted(after.key, after.id));
  }

  lemma DeliveryIsLocal(self: Node, kept: NodeState, log: seq<Event>, slot: Slot, a: Action)
    requires Local(self, kept, log) && LogOk(log) && UseImpliesInstalled(log) && a.Decrypt? && Has(kept.st, slot)
    requires a.cipher.Sealed? ==>
        Spent(a.cipher.key, a.cipher.fromInitiator, a.cipher.nonce, a.cipher.plaintext, true) in log
    requires At(kept.st, slot).Decrypt(a.id, a.counter, a.cipher).1.Ok?
    ensures var s := At(kept.st, slot);
            var e := Opened(a.cipher.key, a.cipher.fromInitiator, a.cipher.nonce, a.cipher.plaintext);
            var events := [e] + if slot.Candidate? then [Promoted(s.key, s.id)] else [];
            && Local(self, kept.(st := DecryptAt(kept.st, slot, a.id, a.counter, a.cipher).0), log + events)
            && EventsAllowed(self, log, events)
            && UseImpliesInstalled(log + events)
  {
    var s := At(kept.st, slot);
    var after := s.Decrypt(a.id, a.counter, a.cipher).0;
    var e := Opened(a.cipher.key, a.cipher.fromInitiator, a.cipher.nonce, a.cipher.plaintext);
    assert SlotOk(self, log, slot, s);
    OpenedIsLocal(self, kept, log, slot, a.id, a.counter, a.cipher);
    if slot.Candidate? {
      CandidateWasInstalled(self, log, slot.peer, s, a.cipher.nonce, a.cipher.plaintext);
      OpenedCandidateIsLocal(self, kept, log, slot.peer, after, e);
    } else {
      OneEvent(self, log, e);
      assert [e] + [] == [e];
    }
  }

  lemma DecryptIsLocal(self: Node, node: NodeState, log: seq<Event>, a: Action, now: Time)
    requires Local(self, node, log) && LogOk(log) && UseImpliesInstalled(log) && a.Decrypt?
    requires a.cipher.Sealed? ==>
        Spent(a.cipher.key, a.cipher.fromInitiator, a.cipher.nonce, a.cipher.plaintext, true) in log
    ensures var outcome := Act(self, node, a, now);
            && Local(self, outcome.node, log + outcome.events)
            && EventsAllowed(self, log, outcome.events)
            && UseImpliesInstalled(log + outcome.events)
  {
    var kept := node.(st := DropExpired(node.st, now));
    DropExpiredIsLocal(self, node, log, now);
    NoEvents(self, log);
    match Owner(kept.st, a.id)
    case None =>
    case Some(slot) =>
      if At(kept.st, slot).Decrypt(a.id, a.counter, a.cipher).1.Err? {
        RefusedIsLocal(self, kept, log, slot, a.id, a.counter, a.cipher);
      } else {
        DeliveryIsLocal(self, kept, log, slot, a);
      }
  }

  /** Events that no session counter and no pending exchange depends on. */
  lemma OtherEventIsLocal(self: Node, node: NodeState, log: seq<Event>, e: Event)
    requires Local(self, node, log)
    requires e.Promoted? || e.Stored?
    ensures Local(self, node, log + [e])
  {
    forall a | Has(node.st, a) ensures SlotOk(self, log + [e], a, At(node.st, a)) {
      assert SlotOk(self, log, a, At(node.st, a));
    }
    forall p | p in node.st.pending ensures PendingOk(self, node.drawn, log + [e], p, node.st.pending[p]) {
      assert PendingOk(self, node.drawn, log, p, node.st.pending[p]);
    }
  }

  // store_responder_candidate

  ghost predicate AllKnown(nodes: seq<NodeState>, log: seq<Event>) {
    forall e :: e in log ==> EventKnown(nodes, e)
  }

  /** A key with an ephemeral that was not drawn before appears nowhere. */
  lemma FreshKeyIsUnused(nodes: seq<NodeState>, log: seq<Event>, key: Key)
    requires AllKnown(nodes, log)
    requires !Known(nodes, key.responder)
    ensures forall e :: e in log && !e.Transmitted? ==> e.key.responder != key.responder
  {}

  /** A new session enters one slot; all others are as they were, up to a move that keeps them valid. */
  lemma EnteringIsLocal(self: Node, node: NodeState, log: seq<Event>, slot: Slot, after: State, drawn: nat)
    requires Local(self, node, log) && Invariant(after) && node.drawn <= drawn
    requires Has(after, slot) && SlotOk(self, log, slot, At(after, slot))
    requires forall a :: Has(after, a) && a != slot ==>
               var from := if a == Previous(slot.peer) && slot.Active? && Has(node.st, slot) then slot else a;
               Has(node.st, from) && At(after, a) == At(node.st, from) && At(after, a).key != At(after, slot).key
    requires forall p :: p in after.pending ==> p in node.st.pending && after.pending[p] == node.st.pending[p]
    ensures Local(self, NodeState(after, drawn), log)
  {
    var st := node.st;
    forall a | Has(after, a) ensures SlotOk(self, log, a, At(after, a)) {
      if a != slot {
        var from := if a == Previous(slot.peer) && slot.Active? && Has(st, slot) then slot else a;
        assert SlotOk(self, log, from, At(st, from));
      }
    }
    forall a, b | Has(after, a) && Has(after, b) && At(after, a).key == At(after, b).key ensures a == b {
      if a != slot && b != slot {
        var fromA := if a == Previous(slot.peer) && slot.Active? && Has(st, slot) then slot else a;
        var fromB := if b == Previous(slot.peer) && slot.Active? && Has(st, slot) then slot else b;
        assert At(st, fromA).key == At(st, fromB).key;
      }
    }
    forall p | p in after.pending ensures PendingOk(self, drawn, log, p, after.pending[p]) {
      assert PendingOk(self, node.drawn, log, p, st.pending[p]);
    }
  }

  lemma StoreIsLocal(self: Node, nodes: seq<NodeState>, log: seq<Event>, a: Action, now: Time)
    requires self < |nodes| && Local(self, nodes[self], log) && UseImpliesInstalled(log) && AllKnown(nodes, log)
    requires a.Store? && a.peer != self
    requires ResponderRespond(self, a.peer, a.handshakeId, a.request, a.sessionId, Ephemeral(self, nodes[self].drawn),
                              now).Ok?
    requires Known(nodes, a.request.ephemeral) && a.request.ephemeral.node == a.request.from
    ensures var outcome := Act(self, nodes[self], a, now);
            && Local(self, outcome.node, log + outcome.events)
            && EventsAllowed(self, log, outcome.events)
            && UseImpliesInstalled(log + outcome.events)
  {
    var node := nodes[self];
    var ephemeral := Ephemeral(self, node.drawn);
    var (answer, s) := ResponderRespond(self, a.peer, a.handshakeId, a.request, a.sessionId, ephemeral, now).value;
    var (after, stored) :=
      StoreCandidate(node.st, a.peer, s, a.handshakeId, a.request, ResponsePacket(a.handshakeId, answer), now);
    StoreKeepsInvariant(node.st, a.peer, s, a.handshakeId, a.request, ResponsePacket(a.handshakeId, answer), now);
    NoEvents(self, log);
    if !stored {
      DrawnMore(self, node, log, after);
    } else {
      var e := Stored(s.key, s.id);
      var slot := Candidate(a.peer);
      FreshKeyIsUnused(nodes, log, s.key);
      assert MayFollow(log, e);
      OneEvent(self, log, e);
      OtherEventKeepsInstalled(log, e);
      OtherEventIsLocal(self, node, log, e);
      assert SlotOk(self, log + [e], slot, s);
      forall b | Has(after, b) && b != slot
        ensures Has(node.st, b) && At(after, b) == At(node.st, b) && At(after, b).key != s.key
      {
        assert SlotOk(self, log, b, At(node.st, b));
      }
      EnteringIsLocal(self, node, log + [e], slot, after, node.drawn + 1);
    }
  }

  lemma DrawnMore(self: Node, node: NodeState, log: seq<Event>, after: State)
    requires Local(self, node, log) && Shrunk(node.st, after) && Invariant(after)
    ensures Local(self, NodeState(after, node.drawn + 1), log)
  {
    forall p | p in after.pending ensures PendingOk(self, node.drawn + 1, log, p, after.pending[p]) {
      assert PendingOk(self, node.drawn, log, p, node.st.pending[p]);
    }
  }

  // start_or_retry_handshake

  lemma TransmittedIsLocal(self: Node, node: NodeState, log: seq<Event>, peer: Peer, w: PendingInitiator, after: State,
                           e: Event, drawn: nat)
    requires Local(self, node, log) && Invariant(after) && node.drawn <= drawn
    requires forall a :: Has(after, a) ==> Has(node.st, a) && At(after, a) == At(node.st, a)
    requires e.Transmitted? && e.message == w.state
    requires peer in after.pending && after.pending[peer] == w && PendingOk(self, drawn, log + [e], peer, w)
    requires forall p :: p in after.pending && p != peer ==>
               && p in node.st.pending && after.pending[p] == node.st.pending[p]
               && !SamePendingKey(after.pending[p].state, w.state)
    ensures Local(self, NodeState(after, drawn), log + [e])
  {
    forall a | Has(after, a) ensures SlotOk(self, log + [e], a, At(after, a)) {
      assert SlotOk(self, log, a, At(node.st, a));
    }
    forall p | p in after.pending ensures PendingOk(self, drawn, log + [e], p, after.pending[p]) {
      if p != peer {
        assert PendingOk(self, node.drawn, log, p, node.st.pending[p]);
      }
    }
  }

  lemma RetryIsLocal(self: Node, node: NodeState, log: seq<Event>, peer: Peer, now: Time)
    requires Local(self, node, log)
    requires peer in node.st.pending
    requires Elapsed(now, node.st.pending[peer].createdAt) < HANDSHAKE_ATTEMPT_LIFETIME
    requires Elapsed(now, node.st.pending[peer].lastSent) >= HANDSHAKE_RETRY_INTERVAL
    ensures var w := node.st.pending[peer].(lastSent := now);
            var e := Transmitted(w.state, now);
            && MayFollow(log, e) && By(self, e)
            && w.packet == InitPacket(w.handshakeId, w.state)
            && Local(self, NodeState(node.st.(pending := node.st.pending[peer := w]), node.drawn + 1), log + [e])
  {
    var st := node.st;
    var w := st.pending[peer].(lastSent := now);
    var e := Transmitted(w.state, now);
    var after := st.(pending := st.pending[peer := w]);
    assert peer !in st.candidates;
    PendingKeepsInvariant(st, peer, w);
    RetryAllowed(self, node.drawn, log, peer, st.pending[peer], now);
    TransmittedIsLocal(self, node, log, peer, w, after, e, node.drawn + 1);
  }

  lemma RetryAllowed(self: Node, drawn: nat, log: seq<Event>, peer: Peer, w: PendingInitiator, now: Time)
    requires PendingOk(self, drawn, log, peer, w)
    requires Elapsed(now, w.createdAt) < HANDSHAKE_ATTEMPT_LIFETIME
    requires Elapsed(now, w.lastSent) >= HANDSHAKE_RETRY_INTERVAL
    ensures var e := Transmitted(w.state, now);
            && MayFollow(log, e) && By(self, e)
            && w.packet == InitPacket(w.handshakeId, w.state)
            && PendingOk(self, drawn + 1, log + [e], peer, w.(lastSent := now))
  {}

  lemma NewAttemptIsLocal(self: Node, nodes: seq<NodeState>, ready: NodeState, log: seq<Event>, peer: Peer,
                          handshakeId: Id, now: Time)
    requires self < |nodes| && ready.drawn == nodes[self].drawn && AllKnown(nodes, log)
    requires Local(self, ready, log) && peer != self && peer !in ready.st.candidates && peer !in ready.st.pending
    ensures var w := NewPending(self, peer, handshakeId, Ephemeral(self, ready.drawn), now);
            var e := Transmitted(w.state, now);
            && MayFollow(log, e) && By(self, e)
            && Local(self, NodeState(ready.st.(pending := ready.st.pending[peer := w]), ready.drawn + 1), log + [e])
  {
    var st := ready.st;
    var w := NewPending(self, peer, handshakeId, Ephemeral(self, ready.drawn), now);
    var e := Transmitted(w.state, now);
    var after := st.(pending := st.pending[peer := w]);
    PendingKeepsInvariant(st, peer, w);
    forall p | p in st.pending ensures !SamePendingKey(st.pending[p].state, w.state) {
      assert PendingOk(self, ready.drawn, log, p, st.pending[p]);
    }
    assert PendingOk(self, ready.drawn + 1, log + [e], peer, w);
    TransmittedIsLocal(self, ready, log, peer, w, after, e, ready.drawn + 1);
  }

  ghost predicate StepIsLocal(self: Node, log: seq<Event>, outcome: Outcome) {
    && Local(self, outcome.node, log + outcome.events)
    && EventsAllowed(self, log, outcome.events)
    && UseImpliesInstalled(log + outcome.events)
  }

  lemma StartWhilePending(self: Node, live: NodeState, log: seq<Event>, peer: Peer, handshakeId: Id, now: Time)
    requires Local(self, live, log) && UseImpliesInstalled(log) && peer in live.st.pending
    requires DropStalePending(live.st, peer, now) == live.st
    ensures StepIsLocal(self, log, Act(self, live, Start(peer, handshakeId), now))
  {
    NoEvents(self, log);
    var w := live.st.pending[peer];
    assert PendingOk(self, live.drawn, log, peer, w);
    if Elapsed(now, w.lastSent) < HANDSHAKE_RETRY_INTERVAL {
      DrawnMore(self, live, log, live.st);
    } else {
      RetryIsLocal(self, live, log, peer, now);
      OneEvent(self, log, Transmitted(w.state, now));
      OtherEventKeepsInstalled(log, Transmitted(w.state, now));
    }
  }

  /** What a start does when no exchange is pending. */
  ghost function IdleStart(self: Node, live: NodeState, peer: Peer, handshakeId: Id, now: Time): Outcome {
    var ready := ReadyToStart(live.st, peer, now);
    var w := NewPending(self, peer, handshakeId, Ephemeral(self, live.drawn), now);
    if MustNotStart(ready, peer, now) then Outcome(NodeState(ready, live.drawn + 1), [], {})
    else Outcome(NodeState(ready.(pending := ready.pending[peer := w]), live.drawn + 1), [Transmitted(w.state, now)],
                 {w.packet})
  }

  lemma ReadyIsLocal(self: Node, live: NodeState, log: seq<Event>, peer: Peer, now: Time)
    requires Local(self, live, log)
    ensures Local(self, live.(st := ReadyToStart(live.st, peer, now)), log)
    ensures ReadyToStart(live.st, peer, now).pending == live.st.pending
  {
    RemovalKeepsInvariant(live.st, ReadyToStart(live.st, peer, now));
    ShrinkingIsLocal(self, live, log, ReadyToStart(live.st, peer, now));
  }

  lemma StartWhenIdle(self: Node, nodes: seq<NodeState>, live: NodeState, log: seq<Event>, peer: Peer, handshakeId: Id,
                      now: Time)
    requires self < |nodes| && live.drawn == nodes[self].drawn && AllKnown(nodes, log)
    requires Local(self, live, log) && UseImpliesInstalled(log) && peer != self && peer !in live.st.pending
    ensures StepIsLocal(self, log, IdleStart(self, live, peer, handshakeId, now))
  {
    var ready := live.(st := ReadyToStart(live.st, peer, now));
    ReadyIsLocal(self, live, log, peer, now);
    if MustNotStart(ready.st, peer, now) {
      NoEvents(self, log);
      DrawnMore(self, ready, log, ready.st);
    } else {
      NewAttemptIsLocal(self, nodes, ready, log, peer, handshakeId, now);
      var w := NewPending(self, peer, handshakeId, Ephemeral(self, ready.drawn), now);
      OneEvent(self, log, Transmitted(w.state, now));
      OtherEventKeepsInstalled(log, Transmitted(w.state, now));
    }
  }

  lemma StaleDropIsIdempotent(st: State, peer: Peer, now: Time)
    ensures DropStalePending(DropStalePending(st, peer, now), peer, now) == DropStalePending(st, peer, now)
  {}

  lemma StartIsLocal(self: Node, nodes: seq<NodeState>, log: seq<Event>, a: Action, now: Time)
    requires self < |nodes| && Local(self, nodes[self], log) && UseImpliesInstalled(log) && AllKnown(nodes, log)
    requires a.Start? && a.peer != self
    ensures StepIsLocal(self, log, Act(self, nodes[self], a, now))
  {
    var node := nodes[self];
    var live := node.(st := DropStalePending(node.st, a.peer, now));
    RemovalKeepsInvariant(node.st, live.st);
    ShrinkingIsLocal(self, node, log, live.st);
    StaleDropIsIdempotent(node.st, a.peer, now);
    if a.peer in live.st.pending {
      StartWhilePending(self, live, log, a.peer, a.handshakeId, now);
    } else {
      assert Act(self, node, a, now) == IdleStart(self, live, a.peer, a.handshakeId, now);
      StartWhenIdle(self, nodes, live, log, a.peer, a.handshakeId, now);
    }
  }

  // finalize_initiator

  ghost function FinalizeEvents(answer: Message2, works: bool): seq<Event>
    requires answer.Answer? && answer.request.Init?
  {
    var key := Key(answer.request.ephemeral, answer.ephemeral);
    [Spent(key, true, 0, TransportPlaintext(Keepalive, KEEPALIVE_PROBE_PAYLOAD), works)]
    + if works then [Installed(key, answer.sessionId)] else []
  }

  lemma FinalizeEventsAllowed(self: Node, log: seq<Event>, answer: Message2, works: bool)
    requires answer.Answer? && answer.request.Init? && answer.request.ephemeral.node == self
    requires UseImpliesInstalled(log) && Unused(log, answer.request.ephemeral)
    requires Stored(Key(answer.request.ephemeral, answer.ephemeral), answer.sessionId) in log
    ensures EventsAllowed(self, log, FinalizeEvents(answer, works))
    ensures UseImpliesInstalled(log + FinalizeEvents(answer, works))
  {
    var key := Key(answer.request.ephemeral, answer.ephemeral);
    var e := Spent(key, true, 0, TransportPlaintext(Keepalive, KEEPALIVE_PROBE_PAYLOAD), works);
    var f := Installed(key, answer.sessionId);
    assert MayFollow(log, e) && MayFollow(log + [e], f);
    if works {
      TwoEvents(self, log, e, f);
    } else {
      OneEvent(self, log, e);
      assert [e] + [] == [e];
    }
    InstallKeepsInstalled(log, e, f, works);
  }

  /** Dropping the pending exchange that is being finalized: the rest does not notice the events. */
  lemma InstallingIsLocal(self: Node, node: NodeState, log: seq<Event>, peer: Peer, answer: Message2, works: bool)
    requires Local(self, node, log) && peer in node.st.pending
    requires answer.Answer? && answer.request == node.st.pending[peer].state && answer.request.Init?
    ensures Local(self, node.(st := node.st.(pending := node.st.pending - {peer})), log + FinalizeEvents(answer, works))
  {
    var st, events := node.st, FinalizeEvents(answer, works);
    var dropped := st.(pending := st.pending - {peer});
    RemovalKeepsInvariant(st, dropped);
    assert PendingOk(self, node.drawn, log, peer, st.pending[peer]);
    forall slot | Has(dropped, slot)
      ensures Has(st, slot) && At(dropped, slot) == At(st, slot) && SlotOk(self, log + events, slot, At(dropped, slot))
    {
      OtherSessionUnaffected(self, node, log, peer, slot, answer, works);
    }
    forall p | p in dropped.pending ensures PendingOk(self, node.drawn, log + events, p, dropped.pending[p]) {
      assert PendingOk(self, node.drawn, log, p, st.pending[p]);
      assert !SamePendingKey(st.pending[p].state, st.pending[peer].state);
    }
  }

  lemma OtherSessionUnaffected(self: Node, node: NodeState, log: seq<Event>, peer: Peer, slot: Slot, answer: Message2,
                               works: bool)
    requires peer in node.st.pending && PendingOk(self, node.drawn, log, peer, node.st.pending[peer])
    requires Has(node.st, slot) && SlotOk(self, log, slot, At(node.st, slot))
    requires answer.Answer? && answer.request == node.st.pending[peer].state
    ensures At(node.st, slot).key.initiator != answer.request.ephemeral
    ensures SlotOk(self, log + FinalizeEvents(answer, works), slot, At(node.st, slot))
  {}

  lemma InstallKeepsInstalled(log: seq<Event>, e: Event, f: Event, works: bool)
    requires UseImpliesInstalled(log) && e.Spent? && e.worked == works && f.Installed? && f.key == e.key
    ensures UseImpliesInstalled(log + ([e] + if works then [f] else []))
  {
    var longer := log + ([e] + if works then [f] else []);
    assert works ==> longer[|log| + 1] == f;
    forall g | g in longer && ((g.Spent? && g.fromInitiator && g.worked) || (g.Opened? && !g.fromInitiator))
      ensures exists id :: Installed(g.key, id) in longer
    {
      if g in log {
        var id :| Installed(g.key, id) in log;
        assert Installed(g.key, id) in longer;
      } else {
        assert g == e && f in longer;
      }
    }
  }

  lemma DroppingIsLocal(self: Node, node: NodeState, log: seq<Event>, peer: Peer)
    requires Local(self, node, log)
    ensures Local(self, node.(st := node.st.(pending := node.st.pending - {peer})), log)
  {
    var dropped := node.st.(pending := node.st.pending - {peer});
    RemovalKeepsInvariant(node.st, dropped);
    ShrinkingIsLocal(self, node, log, dropped);
  }

  lemma FinalizeIsLocal(self: Node, node: NodeState, log: seq<Event>, a: Action, now: Time)
    requires Local(self, node, log) && LogOk(log) && UseImpliesInstalled(log)
    requires a.Finalize? && a.peer in node.st.pending
    requires a.answer.Answer? ==>
               && a.answer.request.Init? && a.answer.ephemeral.node == a.answer.request.to
               && Stored(Key(a.answer.request.ephemeral, a.answer.ephemeral), a.answer.sessionId) in log
    ensures StepIsLocal(self, log, Act(self, node, a, now))
  {
    var st := node.st;
    var session := InitiatorFinalize(st.pending[a.peer].state, a.answer, now);
    if session.Err? || IdInUse(st, session.value.id) {
      NoEvents(self, log);
      DroppingIsLocal(self, node, log, a.peer);
    } else {
      SpendingIsLocal(self, node, log, a, now);
    }
  }

  /** The answer makes a session: the confirmation spends a nonce, and the session is installed if it was sealed. */
  lemma SpendingIsLocal(self: Node, node: NodeState, log: seq<Event>, a: Action, now: Time)
    requires Local(self, node, log) && LogOk(log) && UseImpliesInstalled(log)
    requires a.Finalize? && a.peer in node.st.pending
    requires InitiatorFinalize(node.st.pending[a.peer].state, a.answer, now).Ok?
    requires !IdInUse(node.st, a.answer.sessionId) && a.answer.ephemeral.node == a.answer.request.to
    requires Stored(Key(a.answer.request.ephemeral, a.answer.ephemeral), a.answer.sessionId) in log
    ensures Local(self, node.(st := FinalizeFor(node.st, a.peer, a.answer, now, a.works).0),
                  log + FinalizeEvents(a.answer, a.works))
    ensures EventsAllowed(self, log, FinalizeEvents(a.answer, a.works))
    ensures UseImpliesInstalled(log + FinalizeEvents(a.answer, a.works))
  {
    assert PendingOk(self, node.drawn, log, a.peer, node.st.pending[a.peer]);
    FinalizeEventsAllowed(self, log, a.answer, a.works);
    InstallingIsLocal(self, node, log, a.peer, a.answer, a.works);
    if a.works {
      InstallEntersSlot(self, node, log, a, now);
    }
  }

  lemma InstallEntersSlot(self: Node, node: NodeState, log: seq<Event>, a: Action, now: Time)
    requires Local(self, node, log) && UseImpliesInstalled(log)
    requires a.Finalize? && a.works && a.peer in node.st.pending
    requires InitiatorFinalize(node.st.pending[a.peer].state, a.answer, now).Ok?
    requires !IdInUse(node.st, a.answer.sessionId) && a.answer.ephemeral.node == a.answer.request.to
    requires Local(self, node.(st := node.st.(pending := node.st.pending - {a.peer})),
                   log + FinalizeEvents(a.answer, true))
    ensures Local(self, node.(st := FinalizeFor(node.st, a.peer, a.answer, now, true).0),
                  log + FinalizeEvents(a.answer, true))
  {
    var st := node.st;
    var longer := log + FinalizeEvents(a.answer, true);
    var dropped := node.(st := st.(pending := st.pending - {a.peer}));
    var after := FinalizeFor(st, a.peer, a.answer, now, true).0;
    FinalizeKeepsInvariant(st, a.peer, a.answer, now, true);
    assert PendingOk(self, node.drawn, log, a.peer, st.pending[a.peer]);
    var slot := Active(a.peer);
    var s := At(after, slot);
    InstalledSlotOk(self, log, a.peer, s, a.answer);
    forall b | Has(after, b) && b != slot
      ensures var from := if b == Previous(a.peer) && Has(st, slot) then slot else b;
              Has(dropped.st, from) && At(after, b) == At(dropped.st, from) && At(after, b).key != s.key
    {
      var from := if b == Previous(a.peer) && Has(st, slot) then slot else b;
      assert Has(st, from);
      OtherSessionUnaffected(self, node, log, a.peer, from, a.answer, true);
    }
    EnteringIsLocal(self, dropped, longer, slot, after, node.drawn);
  }

  lemma InstalledSlotOk(self: Node, log: seq<Event>, peer: Peer, s: Session, answer: Message2)
    requires UseImpliesInstalled(log)
    requires answer.Answer? && answer.request.Init? && Unused(log, answer.request.ephemeral)
    requires answer.request.ephemeral.node == self && answer.ephemeral.node == peer && peer != self
    requires s.key == Key(answer.request.ephemeral, answer.ephemeral) && s.id == answer.sessionId
    requires s.isInitiator && s.sendCounter == 1
    ensures SlotOk(self, log + FinalizeEvents(answer, true), Active(peer), s)
  {
    var longer := log + FinalizeEvents(answer, true);
    assert longer[|log| + 1] == Installed(s.key, s.id);
    forall e | e in longer && e.Opened? ensures e in log {}
  }
}
