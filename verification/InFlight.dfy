/**
 Packets in flight: when exactly a packet that was sealed in some state of a run
 opens in a later one, and why a rekey in between does not lose it.
 */
module InFlight {
  import opened Wrappers
  import opened Wire
  import opened Noise
  import opened Sessions
  import opened Network
  import opened NetworkRuns
  import opened Guarantees
  import opened Windows

  // ---------------------------------------------------------------------------
  // A sealed packet opens exactly where its key is still held.
  // ---------------------------------------------------------------------------

  /** The slot holds the key of this packet, and its session has not expired. */
  ghost predicate HoldsKey(st: State, slot: Slot, packet: Packet, now: Time) {
    && packet.TransportPacket? && packet.cipher.Sealed? && Has(st, slot)
    && At(st, slot).key == packet.cipher.key && !At(st, slot).IsExpired(now)
  }

  /** The packet was not opened yet, and no packet under its key that is a whole window newer was. */
  ghost predicate InTime(log: seq<Event>, packet: Packet) {
    packet.TransportPacket? && packet.cipher.Sealed?
    && Timely(log, packet.cipher.key, packet.cipher.fromInitiator, packet.counter)
  }

  /** In the step after state `i`, node `n` sealed this packet. */
  ghost predicate SealsPacket(states: seq<System>, i: nat, n: Node, a: Action, packet: Packet) {
    && Run(states) && i + 1 < |states| && n < |states[i].nodes| && a.Encrypt?
    && states[i + 1] == Do(states[i], n, a)
    && packet in Act(n, states[i].nodes[n], a, states[i].now).packets
  }

  ghost function Opening(st: State, packet: Packet, now: Time): Result<Option<Decrypted>, NoiseError>
    requires packet.TransportPacket?
  {
    DecryptTransport(st, packet.sessionId, packet.counter, packet.cipher, now).1
  }

  lemma {:induction false} WireIsHistory(states: seq<System>, i: nat, j: nat)
    requires Run(states) && i <= j < |states|
    ensures states[i].wire <= states[j].wire
  {
    if i < j {
      WireIsHistory(states, i, j - 1);
      assert Step(states[j - 1], states[j]);
    }
  }

  /** The two ends of a sealed packet: the sealing session, and any session at the peer under its key. */
  lemma EndsOfPacket(states: seq<System>, i: nat, j: nat, n: Node, a: Action, packet: Packet)
    requires SealsPacket(states, i, n, a, packet) && i < j < |states|
    ensures a.peer < |states[j].nodes| && a.peer != n
    ensures SealedByActive(states[i].nodes[n].st, a.peer, a.msgType, a.payload, states[i].now, packet)
    ensures forall slot :: Has(states[j].nodes[a.peer].st, slot)
                           && At(states[j].nodes[a.peer].st, slot).key == packet.cipher.key ==>
              && slot.peer == n
              && At(states[j].nodes[a.peer].st, slot).id == packet.sessionId
              && At(states[j].nodes[a.peer].st, slot).isInitiator != packet.cipher.fromInitiator
  {
    OnlyActiveEncrypts(states, i, n, a, packet);
    SessionHasPartner(states, i, n, Active(a.peer));
    LogIsHistory(states, i, j);
    RunKeepsOk(states, j);
    var s := states[i].nodes[n].st.sessions[a.peer];
    assert EventKnown(states[j].nodes, Stored(s.key, s.id));
    forall slot | Has(states[j].nodes[a.peer].st, slot) && At(states[j].nodes[a.peer].st, slot).key == s.key
      ensures slot.peer == n && At(states[j].nodes[a.peer].st, slot).id == s.id
      ensures At(states[j].nodes[a.peer].st, slot).isInitiator != s.isInitiator
    {
      SessionHasPartner(states, j, a.peer, slot);
      StoredOnce(states[j].log, s.key, s.id, At(states[j].nodes[a.peer].st, slot).id);
    }
  }

  lemma HolderOpens(st: State, slot: Slot, packet: Packet, now: Time, peer: Peer, msgType: MsgType, payload: seq<byte>)
    requires Invariant(st) && HoldsKey(st, slot, packet, now) && slot.peer == peer
    requires At(st, slot).window.Fresh(packet.counter)
    requires At(st, slot).id == packet.sessionId && At(st, slot).isInitiator != packet.cipher.fromInitiator
    requires packet.cipher.nonce == packet.counter
    requires packet.cipher.plaintext == TransportPlaintext(msgType, payload)
    ensures Opening(st, packet, now) == Ok(Some(Decrypted(peer, msgType, payload, slot.Candidate?)))
  {
    var kept := DropExpired(st, now);
    DropExpiredKeepsInvariant(st, now);
    assert Owns(kept, slot, packet.sessionId);
    PlaintextRoundTrip(packet.cipher.plaintext, msgType, payload);
  }

  lemma OpenedByHolder(st: State, packet: Packet, now: Time) returns (slot: Slot)
    requires packet.TransportPacket? && Opening(st, packet, now).Ok? && Opening(st, packet, now).value.Some?
    ensures HoldsKey(st, slot, packet, now) && At(st, slot).window.Fresh(packet.counter)
  {
    slot := Owner(DropExpired(st, now), packet.sessionId).value;
  }

  /**
   In any later state of any run, a sealed packet can arrive, and it opens at the peer for which it was
   sealed exactly when the peer still holds its key, in whatever slot and unexpired, and the packet is in
   time: neither opened before nor overtaken by a whole window. What is opened is the message that was
   sealed.
   */
  lemma InFlightOpensIff(states: seq<System>, i: nat, j: nat, n: Node, a: Action, packet: Packet)
    requires SealsPacket(states, i, n, a, packet) && i < j < |states|
    ensures packet.TransportPacket? && a.peer < |states[j].nodes|
    ensures Enabled(states[j], a.peer, Decrypt(packet.sessionId, packet.counter, packet.cipher))
    ensures var st, now := states[j].nodes[a.peer].st, states[j].now;
            && (InTime(states[j].log, packet) && (exists slot :: HoldsKey(st, slot, packet, now)) <==>
                Opening(st, packet, now).Ok? && Opening(st, packet, now).value.Some?)
            && forall slot :: InTime(states[j].log, packet) && HoldsKey(st, slot, packet, now) ==>
                 Opening(st, packet, now) == Ok(Some(Decrypted(n, a.msgType, a.payload, slot.Candidate?)))
  {
    EndsOfPacket(states, i, j, n, a, packet);
    WireIsHistory(states, i + 1, j);
    assert packet in states[j].wire && packet == TransportPacket(packet.sessionId, packet.counter, packet.cipher);
    var st, now := states[j].nodes[a.peer].st, states[j].now;
    forall slot | InTime(states[j].log, packet) && HoldsKey(st, slot, packet, now)
      ensures Opening(st, packet, now) == Ok(Some(Decrypted(n, a.msgType, a.payload, slot.Candidate?)))
    {
      RunKeepsOk(states, j);
      assert Local(a.peer, states[j].nodes[a.peer], states[j].log);
      FreshIffTimely(states, j, a.peer, slot, packet.counter);
      HolderOpens(st, slot, packet, now, n, a.msgType, a.payload);
    }
    if Opening(st, packet, now).Ok? && Opening(st, packet, now).value.Some? {
      var slot := OpenedByHolder(st, packet, now);
      FreshIffTimely(states, j, a.peer, slot, packet.counter);
    }
  }

  // ---------------------------------------------------------------------------
  // A rekey does not take the key away.
  // ---------------------------------------------------------------------------

  /** The same session, but for what was received. */
  predicate SameButReceived(s: Session, t: Session) {
    s.key == t.key && s.createdAt == t.createdAt && s.sendCounter == t.sendCounter
  }

  /**
   When a live active session is replaced, it becomes the previous one and no candidate waits; and as
   long as the active session stays, so does a live previous one.
   */
  ghost predicate Rekeys(st: State, after: State, peer: Peer, now: Time) {
    peer in st.sessions && peer in after.sessions ==>
      if after.sessions[peer].key != st.sessions[peer].key then
        && peer !in after.candidates
        && (st.sessions[peer].IsExpired(now) || (peer in after.previous && after.previous[peer] == st.sessions[peer]))
      else
        peer in st.previous && !st.previous[peer].IsExpired(now) ==>
          peer in after.previous && SameButReceived(st.previous[peer], after.previous[peer])
  }

  /** A call that installs nothing and leaves the previous sessions of peers with an active one. */
  lemma RemovalRekeys(st: State, after: State, peer: Peer, now: Time)
    requires peer in after.sessions ==> peer in st.sessions && after.sessions[peer].key == st.sessions[peer].key
    requires peer in after.sessions && peer in st.previous && !st.previous[peer].IsExpired(now) ==>
               peer in after.previous && after.previous[peer] == st.previous[peer]
    ensures Rekeys(st, after, peer, now)
  {}

  lemma EncryptRekeys(st: State, a: Action, peer: Peer, now: Time)
    requires a.Encrypt?
    ensures Rekeys(st, EncryptForPeer(st, a.peer, a.msgType, a.payload, now, a.works).0, peer, now)
  {
    RemovalRekeys(st, EncryptForPeer(st, a.peer, a.msgType, a.payload, now, a.works).0, peer, now);
  }

  lemma PutRekeys(st: State, kept: State, slot: Slot, s: Session, peer: Peer, now: Time)
    requires kept == DropExpired(st, now) && Has(kept, slot) && SameButReceived(At(kept, slot), s)
    ensures Rekeys(st, Put(kept, slot, s), peer, now)
  {}

  lemma PromoteRekeys(st: State, kept: State, p: Peer, s: Session, peer: Peer, now: Time)
    requires kept == DropExpired(st, now)
    requires p == peer && peer in st.sessions ==> s.key != st.sessions[peer].key
    ensures Rekeys(st, Promote(kept, p, s), peer, now)
  {}

  lemma DecryptRekeys(self: Node, node: NodeState, log: seq<Event>, id: Id, counter: u64, cipher: Cipher, peer: Peer,
                      now: Time)
    requires Local(self, node, log)
    ensures Rekeys(node.st, DecryptTransport(node.st, id, counter, cipher, now).0, peer, now)
  {
    var kept := DropExpired(node.st, now);
    match Owner(kept, id)
    case None =>
    case Some(slot) =>
      assert Has(node.st, slot) && At(node.st, slot) == At(kept, slot);
      if slot.Candidate? && peer in node.st.sessions {
        assert At(node.st, slot).key != At(node.st, Active(peer)).key;
      }
      var s := At(kept, slot).Decrypt(id, counter, cipher).0;
      PutRekeys(node.st, kept, slot, s, peer, now);
      if slot.Candidate? {
        PromoteRekeys(node.st, kept, slot.peer, s, peer, now);
      }
  }

  lemma FinalizeRekeys(self: Node, node: NodeState, log: seq<Event>, p: Peer, answer: Message2, now: Time, works: bool,
                       peer: Peer)
    requires Local(self, node, log) && p in node.st.pending
    ensures Rekeys(node.st, FinalizeFor(node.st, p, answer, now, works).0, peer, now)
  {
    assert PendingOk(self, node.drawn, log, p, node.st.pending[p]);
    if p in node.st.sessions {
      assert SlotOk(self, log, Active(p), At(node.st, Active(p)));
    }
    InstallRekeys(node.st, p, answer, now, works, peer);
  }

  lemma InstallRekeys(st: State, p: Peer, answer: Message2, now: Time, works: bool, peer: Peer)
    requires p in st.pending
    requires st.pending[p].state.Init? && p in st.sessions ==>
               st.sessions[p].key.initiator != st.pending[p].state.ephemeral
    ensures Rekeys(st, FinalizeFor(st, p, answer, now, works).0, peer, now)
  {}

  lemma StartRekeys(st: State, self: Node, a: Action, ephemeral: Ephemeral, peer: Peer, now: Time)
    requires a.Start?
    ensures Rekeys(st, StartOrRetry(st, self, a.peer, a.handshakeId, ephemeral, now).0, peer, now)
  {
    var live := DropStalePending(st, a.peer, now);
    StartShape(st, self, a.peer, a.handshakeId, ephemeral, now);
    ReadyRekeys(live, a.peer, peer, now);
  }

  lemma ReadyRekeys(st: State, p: Peer, peer: Peer, now: Time)
    ensures var ready := ReadyToStart(st, p, now);
            (peer in ready.sessions ==> peer in st.sessions && ready.sessions[peer] == st.sessions[peer])
            && ready.previous == st.previous
  {}

  lemma QuietRekeys(st: State, a: Action, peer: Peer, now: Time)
    ensures a.Accept? ==> Rekeys(st, AcceptInbound(st, a.peer, a.remoteId, a.passive, now).0, peer, now)
    ensures a.Repeat? ==> Rekeys(st, CachedResponse(st, a.peer, a.handshakeId, a.request, now).0, peer, now)
    ensures a.Forget? ==> Rekeys(st, Invalidate(st, a.peer).0, peer, now)
  {}

  lemma StoreRekeys(st: State, p: Peer, s: Session, handshakeId: Id, request: Message1, response: Packet, peer: Peer,
                    now: Time)
    ensures Rekeys(st, StoreCandidate(st, p, s, handshakeId, request, response, now).0, peer, now)
  {}

  lemma ActionRekeys(sys: System, n: Node, a: Action, peer: Peer)
    requires SystemOk(sys) && n < |sys.nodes| && Enabled(sys, n, a)
    ensures Rekeys(sys.nodes[n].st, Act(n, sys.nodes[n], a, sys.now).node.st, peer, sys.now)
  {
    var st := sys.nodes[n].st;
    assert Local(n, sys.nodes[n], sys.log);
    match a
    case Encrypt(_, _, _, _) => EncryptRekeys(st, a, peer, sys.now);
    case Decrypt(id, counter, cipher) => DecryptRekeys(n, sys.nodes[n], sys.log, id, counter, cipher, peer, sys.now);
    case Store(p, handshakeId, request, sessionId) =>
      var (answer, session) :=
        ResponderRespond(n, p, handshakeId, request, sessionId, Ephemeral(n, sys.nodes[n].drawn), sys.now).value;
      StoreRekeys(st, p, session, handshakeId, request, ResponsePacket(handshakeId, answer), peer, sys.now);
    case Start(_, _) => StartRekeys(st, n, a, Ephemeral(n, sys.nodes[n].drawn), peer, sys.now);
    case Finalize(p, _, answer, works) => FinalizeRekeys(n, sys.nodes[n], sys.log, p, answer, sys.now, works, peer);
    case _ => QuietRekeys(st, a, peer, sys.now);
  }

  lemma StepRekeys(states: seq<System>, i: nat, n: Node, peer: Peer)
    requires Run(states) && i + 1 < |states| && n < |states[i].nodes|
    ensures |states[i + 1].nodes| == |states[i].nodes| && states[i].now <= states[i + 1].now
    ensures Rekeys(states[i].nodes[n].st, states[i + 1].nodes[n].st, peer, states[i].now)
  {
    var sys, next := states[i], states[i + 1];
    assert Step(sys, next);
    RunKeepsOk(states, i);
    if !(next.now >= sys.now && next == sys.(now := next.now)) {
      var m: Node, a: Action :| m < |sys.nodes| && Enabled(sys, m, a) && next == Do(sys, m, a);
      if m == n {
        ActionRekeys(sys, n, a, peer);
      }
    }
  }

  /** The sessions of node `n` in state `t`. */
  ghost function StateOf(states: seq<System>, t: nat, n: Node): State
    requires t < |states| && n < |states[t].nodes|
  {
    states[t].nodes[n].st
  }

  /** This session is the previous one for the peer, up to what was received since. */
  ghost predicate IsPrevious(st: State, peer: Peer, was: Session) {
    peer in st.previous && SameButReceived(was, st.previous[peer])
  }

  ghost predicate IsActiveKey(st: State, peer: Peer, key: Key) {
    peer in st.sessions && st.sessions[peer].key == key
  }

  lemma KeptOverRekey(st: State, after: State, peer: Peer, now: Time, later: Time, key: Key)
    requires Rekeys(st, after, peer, now) && now <= later
    requires peer in st.sessions && st.sessions[peer].key != key && !st.sessions[peer].IsExpired(later)
    requires IsActiveKey(after, peer, key)
    ensures IsPrevious(after, peer, st.sessions[peer])
  {}

  lemma KeptOverStep(st: State, after: State, peer: Peer, now: Time, later: Time, key: Key, was: Session)
    requires Rekeys(st, after, peer, now) && now <= later
    requires IsActiveKey(st, peer, key) && IsActiveKey(after, peer, key)
    requires IsPrevious(st, peer, was) && !was.IsExpired(later)
    ensures IsPrevious(after, peer, was)
  {}

  lemma {:induction false} KeptOverSteps(sts: seq<State>, times: seq<Time>, peer: Peer, key: Key, k: nat)
    requires 1 < |sts| == |times| && 0 < k < |sts|
    requires forall t :: 0 <= t < |sts| - 1 ==> Rekeys(sts[t], sts[t + 1], peer, times[t])
    requires forall t :: 0 <= t < |sts| ==> times[t] <= times[|sts| - 1]
    requires peer in sts[0].sessions && sts[0].sessions[peer].key != key
    requires !sts[0].sessions[peer].IsExpired(times[|sts| - 1])
    requires forall t :: 0 < t < |sts| ==> IsActiveKey(sts[t], peer, key)
    ensures IsPrevious(sts[k], peer, sts[0].sessions[peer])
  {
    var end := times[|sts| - 1];
    if k == 1 {
      KeptOverRekey(sts[0], sts[1], peer, times[0], end, key);
    } else {
      KeptOverSteps(sts, times, peer, key, k - 1);
      KeptOverStep(sts[k - 1], sts[k], peer, times[k - 1], end, key, sts[0].sessions[peer]);
    }
  }

  /** The active session of node `n` for this peer is replaced in the step after state `c`, and the new one stays. */
  ghost predicate RekeyedAt(states: seq<System>, c: nat, k: nat, n: Node, peer: Peer, key: Key) {
    && c < k < |states|
    && (forall t :: 0 <= t < |states| ==> n < |states[t].nodes|)
    && peer in StateOf(states, c, n).sessions && StateOf(states, c, n).sessions[peer].key != key
    && forall t :: c < t <= k ==> IsActiveKey(StateOf(states, t, n), peer, key)
  }

  ghost predicate AllRekey(states: seq<System>, n: Node, peer: Peer)
    requires forall t :: 0 <= t < |states| ==> n < |states[t].nodes|
  {
    && (forall t :: 0 <= t < |states| - 1 ==>
          Rekeys(StateOf(states, t, n), StateOf(states, t + 1, n), peer, states[t].now))
    && forall t, u :: 0 <= t <= u < |states| ==> states[t].now <= states[u].now
  }

  lemma RunRekeys(states: seq<System>, n: Node, peer: Peer)
    requires Run(states) && forall t :: 0 <= t < |states| ==> n < |states[t].nodes|
    ensures AllRekey(states, n, peer)
  {
    forall t | 0 <= t < |states| - 1
      ensures Rekeys(StateOf(states, t, n), StateOf(states, t + 1, n), peer, states[t].now)
    {
      StepRekeys(states, t, n, peer);
    }
    forall t, u | 0 <= t <= u < |states| ensures states[t].now <= states[u].now {
      LogIsHistory(states, t, u);
    }
  }

  lemma KeptWhenAllRekey(states: seq<System>, c: nat, k: nat, n: Node, peer: Peer, key: Key)
    requires RekeyedAt(states, c, k, n, peer, key) && AllRekey(states, n, peer)
    requires !StateOf(states, c, n).sessions[peer].IsExpired(states[k].now)
    ensures IsPrevious(StateOf(states, k, n), peer, StateOf(states, c, n).sessions[peer])
  {
    var sts := seq(k - c + 1, t requires 0 <= t <= k - c => StateOf(states, c + t, n));
    var times := seq(k - c + 1, t requires 0 <= t <= k - c => states[c + t].now);
    forall t | 0 <= t < k - c ensures Rekeys(sts[t], sts[t + 1], peer, times[t]) {
      assert Rekeys(StateOf(states, c + t, n), StateOf(states, c + t + 1, n), peer, states[c + t].now);
    }
    KeptOverSteps(sts, times, peer, key, k - c);
  }

  /** Over any run: after a rekey the old session is kept for receiving until it expires, while the new one stays. */
  lemma OldKeyOutlivesRekey(states: seq<System>, c: nat, k: nat, n: Node, peer: Peer, key: Key)
    requires Run(states) && RekeyedAt(states, c, k, n, peer, key)
    requires !StateOf(states, c, n).sessions[peer].IsExpired(states[k].now)
    ensures IsPrevious(StateOf(states, k, n), peer, StateOf(states, c, n).sessions[peer])
  {
    RunRekeys(states, n, peer);
    KeptWhenAllRekey(states, c, k, n, peer, key);
  }

  /**
   A packet in flight survives a rekey at its receiver: sealed at any moment under the session that is
   replaced, it opens in every later state in which that session has not expired and the new one is still
   active, exactly when it is in time.
   */
  lemma InFlightSurvivesRekey(states: seq<System>, i: nat, c: nat, k: nat, n: Node, a: Action, packet: Packet,
                              key: Key)
    requires SealsPacket(states, i, n, a, packet) && i < k && RekeyedAt(states, c, k, a.peer, n, key)
    requires packet.TransportPacket? && packet.cipher.Sealed?
    requires var s := StateOf(states, c, a.peer).sessions[n];
             s.key == packet.cipher.key && !s.IsExpired(states[k].now)
    ensures InTime(states[k].log, packet) <==>
            Opening(StateOf(states, k, a.peer), packet, states[k].now) ==
              Ok(Some(Decrypted(n, a.msgType, a.payload, false)))
  {
    OldKeyOutlivesRekey(states, c, k, a.peer, n, key);
    assert HoldsKey(StateOf(states, k, a.peer), Previous(n), packet, states[k].now);
    InFlightOpensIff(states, i, k, n, a, packet);
  }

  /**
   But not two: when the live session that replaced its own is replaced in turn, the packet does not open
   any more.
   */
  lemma InFlightLostAtSecondRekey(states: seq<System>, i: nat, d: nat, n: Node, a: Action, packet: Packet, key: Key)
    requires SealsPacket(states, i, n, a, packet) && i <= d && RekeyedAt(states, d, d + 1, a.peer, n, key)
    requires packet.TransportPacket? && packet.cipher.Sealed?
    requires var s := StateOf(states, d, a.peer).sessions[n];
             s.key != packet.cipher.key && key != packet.cipher.key && !s.IsExpired(states[d].now)
    ensures var opening := Opening(StateOf(states, d + 1, a.peer), packet, states[d + 1].now);
            !(opening.Ok? && opening.value.Some?)
  {
    StepRekeys(states, d, a.peer, n);
    EndsOfPacket(states, i, d + 1, n, a, packet);
    KeyIsGone(StateOf(states, d, a.peer), StateOf(states, d + 1, a.peer), n, states[d].now, packet.cipher.key, key);
    InFlightOpensIff(states, i, d + 1, n, a, packet);
  }

  lemma KeyIsGone(st: State, after: State, peer: Peer, now: Time, gone: Key, key: Key)
    requires Rekeys(st, after, peer, now) && IsActiveKey(after, peer, key) && gone != key
    requires peer in st.sessions && st.sessions[peer].key !in {gone, key} && !st.sessions[peer].IsExpired(now)
    requires forall slot :: Has(after, slot) && At(after, slot).key == gone ==> slot.peer == peer
    ensures forall slot :: Has(after, slot) ==> At(after, slot).key != gone
  {}
}
