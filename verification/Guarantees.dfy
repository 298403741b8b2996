/**
 What the invariant of all runs means: agreement between the two sides of a
 handshake, delivery at most once, nonces, and retransmission.
 */
module Guarantees {
  import opened Wrappers
  import opened Wire
  import opened Noise
  import opened Sessions
  import opened Network
  import opened NetworkRuns

  /** The log only grows, so a position in it is a moment of the run. */
  lemma {:induction false} LogIsHistory(states: seq<System>, i: nat, j: nat)
    requires Run(states) && i <= j < |states|
    ensures states[i].log <= states[j].log && |states[i].nodes| == |states[j].nodes| && states[i].now <= states[j].now
  {
    if i < j {
      LogIsHistory(states, i, j - 1);
      assert Step(states[j - 1], states[j]);
    }
  }

  /** An entry of the log of a reachable state follows what came before it. */
  lemma EntryFollows(states: seq<System>, i: nat, j: nat)
    requires Run(states) && i < |states| && j < |states[i].log|
    ensures MayFollow(states[i].log[..j], states[i].log[j])
  {
    RunKeepsOk(states, i);
  }

  lemma Since(states: seq<System>, i: nat, j: nat, k: nat)
    requires Run(states) && i < |states| && j < k < |states[i].log|
    ensures MayFollow(states[i].log[..k], states[i].log[k]) && states[i].log[j] in states[i].log[..k]
  {
    EntryFollows(states, i, k);
    assert states[i].log[..k][j] == states[i].log[j];
  }

  lemma Earlier(log: seq<Event>, j: nat, e: Event) returns (h: nat)
    requires j <= |log| && e in log[..j]
    ensures h < j && log[h] == e
  {
    h :| h < j && log[..j][h] == e;
  }

  // ---------------------------------------------------------------------------
  // Agreement.
  // ---------------------------------------------------------------------------

  /** An initiator installs a session only after its peer stored it as a candidate. */
  lemma InstalledAfterStored(states: seq<System>, i: nat, j: nat) returns (h: nat)
    requires Run(states) && i < |states| && j < |states[i].log| && states[i].log[j].Installed?
    ensures h < j && states[i].log[h] == Stored(states[i].log[j].key, states[i].log[j].id)
  {
    EntryFollows(states, i, j);
    h := Earlier(states[i].log, j, Stored(states[i].log[j].key, states[i].log[j].id));
  }

  /** A responder promotes a session only after its initiator installed it. */
  lemma PromotedAfterInstalled(states: seq<System>, i: nat, j: nat) returns (h: nat)
    requires Run(states) && i < |states| && j < |states[i].log| && states[i].log[j].Promoted?
    ensures h < j && states[i].log[h] == Installed(states[i].log[j].key, states[i].log[j].id)
  {
    EntryFollows(states, i, j);
    h := Earlier(states[i].log, j, Installed(states[i].log[j].key, states[i].log[j].id));
  }

  /** One pending initiation installs at most one session, whatever is duplicated or reordered. */
  lemma OneInstallPerInitiation(states: seq<System>, i: nat, j: nat, k: nat)
    requires Run(states) && i < |states| && j < |states[i].log| && k < |states[i].log|
    requires states[i].log[j].Installed? && states[i].log[k].Installed?
    requires states[i].log[j].key.initiator == states[i].log[k].key.initiator
    ensures j == k
  {
    if j < k {
      Since(states, i, j, k);
    } else if k < j {
      Since(states, i, k, j);
    }
  }

  /** What a session in a node's maps says about the other side. */
  lemma SessionHasPartner(states: seq<System>, i: nat, n: Node, slot: Slot)
    requires Run(states) && i < |states| && n < |states[i].nodes| && Has(states[i].nodes[n].st, slot)
    ensures var s := At(states[i].nodes[n].st, slot);
            && slot.peer != n && Stored(s.key, s.id) in states[i].log
            && (s.isInitiator ==> s.key.initiator.node == n && s.key.responder.node == slot.peer && !slot.Candidate?)
            && (!s.isInitiator ==> s.key.responder.node == n && s.key.initiator.node == slot.peer)
            && (!slot.Candidate? ==> Installed(s.key, s.id) in states[i].log)
  {
    RunKeepsOk(states, i);
    var log, s := states[i].log, At(states[i].nodes[n].st, slot);
    assert Local(n, states[i].nodes[n], log);
    assert SlotOk(n, log, slot, s);
    if Promoted(s.key, s.id) in log {
      var j :| 0 <= j < |log| && log[j] == Promoted(s.key, s.id);
      var h := PromotedAfterInstalled(states, i, j);
    }
    if Installed(s.key, s.id) in log {
      var j :| 0 <= j < |log| && log[j] == Installed(s.key, s.id);
      var h := InstalledAfterStored(states, i, j);
    }
  }

  /** Two sessions under one key are the two ends of one session: same identifier, opposite roles, each other's peer. */
  lemma SameKeyTwoEnds(states: seq<System>, i: nat, n: Node, a: Slot, m: Node, b: Slot)
    requires Run(states) && i < |states| && n < |states[i].nodes| && m < |states[i].nodes|
    requires Has(states[i].nodes[n].st, a) && Has(states[i].nodes[m].st, b)
    requires At(states[i].nodes[n].st, a).key == At(states[i].nodes[m].st, b).key
    ensures var s, t := At(states[i].nodes[n].st, a), At(states[i].nodes[m].st, b);
            && s.id == t.id
            && if n == m then a == b else s.isInitiator != t.isInitiator && a.peer == m && b.peer == n
  {
    SessionHasPartner(states, i, n, a);
    SessionHasPartner(states, i, m, b);
    RunKeepsOk(states, i);
    var s, t := At(states[i].nodes[n].st, a), At(states[i].nodes[m].st, b);
    StoredOnce(states[i].log, s.key, s.id, t.id);
    if n == m {
      assert Local(n, states[i].nodes[n], states[i].log);
    }
  }

  /** Every reachable manager state keeps the manager's invariant, stated in full. */
  lemma ReachableManagers(states: seq<System>, i: nat, n: Node)
    requires Run(states) && i < |states| && n < |states[i].nodes|
    ensures var st := states[i].nodes[n].st;
            && (forall a, b :: Has(st, a) && Has(st, b) && At(st, a).id == At(st, b).id ==> a == b)
            && st.pending.Keys !! st.candidates.Keys
            && st.candidates.Keys <= st.cache.Keys
            && st.recovery !! st.sessions.Keys + st.previous.Keys
  {
    RunKeepsOk(states, i);
    assert Local(n, states[i].nodes[n], states[i].log);
  }

  // ---------------------------------------------------------------------------
  // Delivery at most once, across any number of rekeys.
  // ---------------------------------------------------------------------------

  /** No ciphertext is opened twice in a whole run. */
  lemma OpenedAtMostOnce(states: seq<System>, i: nat, j: nat, k: nat)
    requires Run(states) && i < |states| && j < |states[i].log| && k < |states[i].log|
    requires states[i].log[j].Opened? && states[i].log[k].Opened?
    requires states[i].log[j].key == states[i].log[k].key
    requires states[i].log[j].fromInitiator == states[i].log[k].fromInitiator
    requires states[i].log[j].nonce == states[i].log[k].nonce
    ensures j == k
  {
    if j < k {
      Since(states, i, j, k);
    } else if k < j {
      Since(states, i, k, j);
    }
  }

  /** Two calls of the cipher under one key and direction use increasing nonces, whether or not they succeed. */
  lemma NoncesIncrease(states: seq<System>, i: nat, j: nat, k: nat)
    requires Run(states) && i < |states| && j < k < |states[i].log|
    requires states[i].log[j].Spent? && states[i].log[k].Spent?
    requires states[i].log[j].key == states[i].log[k].key
    requires states[i].log[j].fromInitiator == states[i].log[k].fromInitiator
    ensures states[i].log[j].nonce < states[i].log[k].nonce < U64_MAX
  {
    Since(states, i, j, k);
  }

  ghost predicate SealsSame(sealed: Event, e: Event)
    requires e.Opened?
  {
    sealed.Spent? && sealed.key == e.key && sealed.fromInitiator == e.fromInitiator && sealed.nonce == e.nonce
  }

  /** Everything opened was sealed before, by exactly one call of the cipher, with the same plaintext. */
  lemma OpenedWasSealed(states: seq<System>, i: nat, j: nat) returns (h: nat)
    requires Run(states) && i < |states| && j < |states[i].log| && states[i].log[j].Opened?
    ensures var log := states[i].log;
            && h < j && log[h] == Spent(log[j].key, log[j].fromInitiator, log[j].nonce, log[j].plaintext, true)
            && forall k :: 0 <= k < |log| && SealsSame(log[k], log[j]) ==> k == h
  {
    var log := states[i].log;
    EntryFollows(states, i, j);
    h := Earlier(log, j, Spent(log[j].key, log[j].fromInitiator, log[j].nonce, log[j].plaintext, true));
    forall k | 0 <= k < |log| && SealsSame(log[k], log[j]) ensures k == h {
      if k < h {
        NoncesIncrease(states, i, k, h);
      } else if h < k {
        NoncesIncrease(states, i, h, k);
      }
    }
  }

  /** A message handed to the engine was encrypted by the named peer for this node, and is handed over once. */
  lemma DeliveredWasSent(states: seq<System>, i: nat, n: Node, a: Action, d: Decrypted)
    requires Run(states) && i < |states| && n < |states[i].nodes| && a.Decrypt? && Enabled(states[i], n, a)
    requires DecryptTransport(states[i].nodes[n].st, a.id, a.counter, a.cipher, states[i].now).1 == Ok(Some(d))
    ensures a.cipher.Sealed?
    ensures var key := a.cipher.key;
            var log := states[i].log;
            && d.peer == (if a.cipher.fromInitiator then key.initiator.node else key.responder.node)
            && n == (if a.cipher.fromInitiator then key.responder.node else key.initiator.node)
            && Spent(key, a.cipher.fromInitiator, a.cipher.nonce, TransportPlaintext(d.msgType, d.payload), true) in log
            && forall e :: e in log && e.Opened? && e.key == key && e.fromInitiator == a.cipher.fromInitiator ==>
                               e.nonce != a.cipher.nonce
  {
    RunKeepsOk(states, i);
    var sys := states[i];
    var kept := DropExpired(sys.nodes[n].st, sys.now);
    var slot := Owner(kept, a.id).value;
    var s := At(kept, slot);
    assert Has(sys.nodes[n].st, slot) && At(sys.nodes[n].st, slot) == s;
    assert Local(n, sys.nodes[n], sys.log);
    assert SlotOk(n, sys.log, slot, s);
    var id, counter :| TransportPacket(id, counter, a.cipher) in sys.wire;
    assert PacketOk(sys.nodes, sys.log, TransportPacket(id, counter, a.cipher));
    PlaintextRoundTrip(a.cipher.plaintext, d.msgType, d.payload);
  }

  // ---------------------------------------------------------------------------
  // Who encrypts.
  // ---------------------------------------------------------------------------

  /** The active session of the peer, not expired, sealed this payload with its next nonce. */
  ghost predicate SealedByActive(st: State, peer: Peer, msgType: MsgType, payload: seq<byte>, now: Time,
                                 packet: Packet) {
    && peer in st.sessions && !st.sessions[peer].IsExpired(now)
    && var s := st.sessions[peer];
       packet == TransportPacket(s.id, s.sendCounter,
                                 Sealed(s.key, s.isInitiator, s.sendCounter, TransportPlaintext(msgType, payload)))
  }

  /** The confirmation of the session that this response makes: nonce 0 under the new key. */
  ghost predicate IsConfirmation(st: State, peer: Peer, answer: Message2, now: Time, packet: Packet) {
    && peer in st.pending && InitiatorFinalize(st.pending[peer].state, answer, now).Ok?
    && var s := InitiatorFinalize(st.pending[peer].state, answer, now).value;
       packet ==
           TransportPacket(s.id, 0, Sealed(s.key, true, 0, TransportPlaintext(Keepalive, KEEPALIVE_PROBE_PAYLOAD)))
  }

  /**
   Whatever a node sends in any run: a transport packet is sealed by the active,
   unexpired session of its peer with that session's next nonce, or is the
   confirmation of a session that is just being installed.
   */
  lemma OnlyActiveEncrypts(states: seq<System>, i: nat, n: Node, a: Action, packet: Packet)
    requires Run(states) && i < |states| && n < |states[i].nodes| && Enabled(states[i], n, a)
    requires packet in Act(n, states[i].nodes[n], a, states[i].now).packets && packet.TransportPacket?
    ensures var st := states[i].nodes[n].st;
            || (a.Encrypt? && SealedByActive(st, a.peer, a.msgType, a.payload, states[i].now, packet))
            || (a.Finalize? && IsConfirmation(st, a.peer, a.answer, states[i].now, packet))
  {
    RunKeepsOk(states, i);
    match a
    case Start(_, _) => StartsSendFirstMessages(states[i], n, a);
    case Repeat(_, _, _) => RepeatsSendResponses(states[i], n, a);
    case _ =>
  }

  lemma StartsSendFirstMessages(sys: System, n: Node, a: Action)
    requires SystemOk(sys) && n < |sys.nodes| && a.Start?
    ensures forall packet :: packet in Act(n, sys.nodes[n], a, sys.now).packets ==> packet.InitPacket?
  {
    var node := sys.nodes[n];
    assert Local(n, node, sys.log);
    StartSends(node.st, n, a.peer, a.handshakeId, Ephemeral(n, node.drawn), sys.now);
    if a.peer in node.st.pending {
      assert PendingOk(n, node.drawn, sys.log, a.peer, node.st.pending[a.peer]);
    }
  }

  lemma RepeatsSendResponses(sys: System, n: Node, a: Action)
    requires SystemOk(sys) && n < |sys.nodes| && a.Repeat?
    ensures forall packet :: packet in Act(n, sys.nodes[n], a, sys.now).packets ==> packet.ResponsePacket?
  {
    assert CacheOk(sys.nodes[n].st, sys.wire);
  }

  ghost predicate SameCounter(st: State, from: Slot, after: State, slot: Slot) {
    Has(st, from) && Has(after, slot) && At(st, from).key == At(after, slot).key
    && At(st, from).sendCounter == At(after, slot).sendCounter
  }

  /** The session in this slot was there before with this send counter, or was the active one until now. */
  ghost predicate Received(st: State, after: State, slot: Slot) {
    Has(after, slot) ==>
        SameCounter(st, slot, after, slot) || (slot.Previous? && SameCounter(st, Active(slot.peer), after, slot))
  }

  lemma DecryptReceives(st: State, slot: Slot, from: Slot, id: Id, counter: u64, cipher: Cipher)
    requires Has(st, from) && !slot.Active?
    ensures Received(st, DecryptAt(st, from, id, counter, cipher).0, slot)
  {}

  lemma FinalizeReceives(st: State, slot: Slot, peer: Peer, answer: Message2, now: Time, sealingWorks: bool)
    requires peer in st.pending && !slot.Active?
    ensures Received(st, FinalizeFor(st, peer, answer, now, sealingWorks).0, slot)
  {}

  lemma EncryptReceives(st: State, slot: Slot, a: Action, now: Time)
    requires a.Encrypt? && !slot.Active?
    ensures Received(st, EncryptForPeer(st, a.peer, a.msgType, a.payload, now, a.works).0, slot)
  {}

  lemma StartReceives(st: State, slot: Slot, self: Node, peer: Peer, handshakeId: Id, ephemeral: Ephemeral, now: Time)
    requires !slot.Active?
    ensures Received(st, StartOrRetry(st, self, peer, handshakeId, ephemeral, now).0, slot)
  {
    ReadySlots(DropStalePending(st, peer, now), slot, peer, now);
  }

  lemma ReadySlots(st: State, slot: Slot, peer: Peer, now: Time)
    requires !slot.Active?
    ensures Has(ReadyToStart(st, peer, now), slot) ==>
        Has(st, slot) && At(ReadyToStart(st, peer, now), slot) == At(st, slot)
  {}

  lemma StoreReceives(st: State, slot: Slot, peer: Peer, s: Session, handshakeId: Id, request: Message1,
                      response: Packet, now: Time)
    requires s.sendCounter == 0
    ensures var after := StoreCandidate(st, peer, s, handshakeId, request, response, now).0;
            Received(st, after, slot) || (slot == Candidate(peer) && At(after, slot).sendCounter == 0)
  {}

  lemma QuietReceives(st: State, slot: Slot, a: Action, now: Time)
    ensures a.Accept? ==> Received(st, AcceptInbound(st, a.peer, a.remoteId, a.passive, now).0, slot)
    ensures a.Repeat? ==> Received(st, CachedResponse(st, a.peer, a.handshakeId, a.request, now).0, slot)
    ensures a.Forget? ==> Received(st, Invalidate(st, a.peer).0, slot)
  {}

  lemma ShrinkReceives(st: State, after: State, slot: Slot)
    requires forall a :: Has(after, a) ==> Has(st, a) && At(after, a) == At(st, a)
    ensures Received(st, after, slot)
  {}

  lemma DecryptActionReceives(st: State, slot: Slot, id: Id, counter: u64, cipher: Cipher, now: Time)
    requires !slot.Active?
    ensures Received(st, DecryptTransport(st, id, counter, cipher, now).0, slot)
  {
    var kept := DropExpired(st, now);
    assert forall a :: Has(kept, a) ==> Has(st, a) && At(kept, a) == At(st, a);
    match Owner(kept, id)
    case None => ShrinkReceives(st, kept, slot);
    case Some(from) => DecryptReceives(kept, slot, from, id, counter, cipher);
  }

  /** Previous and candidate sessions are receive-only: no step changes their send counter. */
  lemma ReceiveOnly(sys: System, n: Node, a: Action, slot: Slot)
    requires n < |sys.nodes| && Enabled(sys, n, a) && !slot.Active?
    ensures var st := sys.nodes[n].st;
            var after := Act(n, sys.nodes[n], a, sys.now).node.st;
            || Received(st, after, slot)
            || (a.Store? && slot == Candidate(a.peer) && At(after, slot).sendCounter == 0)
  {
    var st := sys.nodes[n].st;
    match a
    case Encrypt(_, _, _, _) => EncryptReceives(st, slot, a, sys.now);
    case Decrypt(id, counter, cipher) => DecryptActionReceives(st, slot, id, counter, cipher, sys.now);
    case Store(peer, handshakeId, request, sessionId) =>
      var (answer, session) :=
        ResponderRespond(n, peer, handshakeId, request, sessionId, Ephemeral(n, sys.nodes[n].drawn), sys.now).value;
      StoreReceives(st, slot, peer, session, handshakeId, request, ResponsePacket(handshakeId, answer), sys.now);
    case Start(peer, handshakeId) =>
      StartReceives(st, slot, n, peer, handshakeId, Ephemeral(n, sys.nodes[n].drawn), sys.now);
    case Finalize(peer, _, answer, works) => FinalizeReceives(st, slot, peer, answer, sys.now, works);
    case _ => QuietReceives(st, slot, a, sys.now);
  }

  // ---------------------------------------------------------------------------
  // Retransmission of the first message.
  // ---------------------------------------------------------------------------

  ghost predicate SendsOf(log: seq<Event>, ephemeral: Ephemeral, sends: seq<nat>) {
    && (forall k :: 0 <= k < |sends| ==>
          sends[k] < |log| && log[sends[k]].Transmitted? && log[sends[k]].message.Init?
          && log[sends[k]].message.ephemeral == ephemeral)
    && (forall k, l :: 0 <= k < l < |sends| ==> sends[k] < sends[l])
  }

  /** Two transmissions of one exchange: the same bytes, at least five seconds apart, within thirty seconds. */
  lemma RetransmissionIsIdentical(states: seq<System>, i: nat, ephemeral: Ephemeral, sends: seq<nat>, k: nat, l: nat)
    requires Run(states) && i < |states| && SendsOf(states[i].log, ephemeral, sends) && k < l < |sends|
    ensures var first, second := states[i].log[sends[k]], states[i].log[sends[l]];
            && second.message == first.message
            && first.time + HANDSHAKE_RETRY_INTERVAL <= second.time < first.time + HANDSHAKE_ATTEMPT_LIFETIME
  {
    Since(states, i, sends[k], sends[l]);
  }

  lemma {:induction false} SendsSpread(states: seq<System>, i: nat, ephemeral: Ephemeral, sends: seq<nat>, k: nat)
    requires Run(states) && i < |states| && SendsOf(states[i].log, ephemeral, sends) && k < |sends|
    ensures states[i].log[sends[0]].time + k * HANDSHAKE_RETRY_INTERVAL <= states[i].log[sends[k]].time
  {
    if k > 0 {
      SendsSpread(states, i, ephemeral, sends, k - 1);
      RetransmissionIsIdentical(states, i, ephemeral, sends, k - 1, k);
    }
  }

  /** One exchange is transmitted at most six times, in any run. */
  lemma AtMostSixSends(states: seq<System>, i: nat, ephemeral: Ephemeral, sends: seq<nat>)
    requires Run(states) && i < |states| && SendsOf(states[i].log, ephemeral, sends)
    ensures |sends| <= 6
  {
    if |sends| > 6 {
      SendsSpread(states, i, ephemeral, sends, 6);
      RetransmissionIsIdentical(states, i, ephemeral, sends, 0, 6);
    }
  }

  /** The log of an exchange that is sent `k` times, every five seconds from the start. */
  function Sends(message: Message1, k: nat): seq<Event> {
    if k == 0 then [] else Sends(message, k - 1) + [Transmitted(message, (k - 1) * HANDSHAKE_RETRY_INTERVAL)]
  }

  /** The state of a lone node that has sent its first message `k` times. */
  function Sender(k: nat): State
    requires k > 0
  {
    var w := NewPending(0, 1, 7, Ephemeral(0, 0), 0);
    EMPTY_STATE.(pending := map[1 := w.(lastSent := (k - 1) * HANDSHAKE_RETRY_INTERVAL)])
  }

  lemma SenderStarts()
    ensures StartOrRetry(EMPTY_STATE, 0, 1, 7, Ephemeral(0, 0), 0) ==
            (Sender(1), Some(InitPacket(7, Init(7, 0, 1, Ephemeral(0, 0)))))
  {}

  lemma SenderRetries(k: nat, ephemeral: Ephemeral)
    requires 0 < k < 6
    ensures StartOrRetry(Sender(k), 0, 1, 7, ephemeral, k * HANDSHAKE_RETRY_INTERVAL) ==
            (Sender(k + 1), Some(InitPacket(7, Init(7, 0, 1, Ephemeral(0, 0)))))
  {
    var w := Sender(k).pending[1].(lastSent := k * HANDSHAKE_RETRY_INTERVAL);
    assert Sender(k).pending[1 := w] == map[1 := w] == Sender(k + 1).pending;
  }

  /** The run goes on with a pause and a start. */
  lemma PauseAndStart(states: seq<System>, later: Time, peer: Peer, id: Id) returns (longer: seq<System>)
    requires Run(states) && |states[|states| - 1].nodes| > 0 && later >= states[|states| - 1].now && peer != 0
    ensures var last := states[|states| - 1];
            && Run(longer) && |longer| == |states| + 2
            && longer[|longer| - 1] == Do(last.(now := later), 0, Start(peer, id))
  {
    var last := states[|states| - 1];
    var paused := last.(now := later);
    longer := states + [paused, Do(paused, 0, Start(peer, id))];
    forall i | 0 <= i < |longer| - 1 ensures Step(longer[i], longer[i + 1]) {
      if i < |states| - 1 {
        assert Step(states[i], states[i + 1]);
      }
    }
  }

  /** The bound is attained: for every number up to six there is a run in which one exchange is sent that often. */
  lemma {:induction false} SixSendsHappen(k: nat) returns (states: seq<System>)
    requires 0 < k <= 6
    ensures Run(states)
    ensures var last := states[|states| - 1];
            && last.log == Sends(Init(7, 0, 1, Ephemeral(0, 0)), k)
            && last.now == (k - 1) * HANDSHAKE_RETRY_INTERVAL
            && |last.nodes| == 1 && last.nodes[0] == NodeState(Sender(k), k)
  {
    if k == 1 {
      var first := System(0, [NodeState(EMPTY_STATE, 0)], {}, []);
      SenderStarts();
      states := PauseAndStart([first], 0, 1, 7);
    } else {
      states := SixSendsHappen(k - 1);
      SenderRetries(k - 1, Ephemeral(0, k - 1));
      states := PauseAndStart(states, (k - 1) * HANDSHAKE_RETRY_INTERVAL, 1, 7);
    }
  }
}
