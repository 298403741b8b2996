/**
 Over runs of the network the replay window of a session is what the log says was
 opened under its key: so whether a counter is fresh can be read off the history.
 */
module Windows {
  import opened Wrappers
  import opened Wire
  import opened Replay
  import opened Noise
  import opened Sessions
  import opened Network
  import opened NetworkRuns

  /** Every counter that this window took was opened. */
  ghost predicate Logged(log: seq<Event>, s: Session) {
    forall c :: c in s.window.accepted ==>
      exists e :: e in log && e.Opened? && e.key == s.key && e.fromInitiator != s.isInitiator && e.nonce == c
  }

  ghost predicate AllLogged(log: seq<Event>, st: State) {
    forall slot :: Has(st, slot) ==> Logged(log, At(st, slot))
  }

  /** Whatever was sealed has a type byte. */
  ghost predicate AllTyped(log: seq<Event>) {
    forall e :: e in log && e.Spent? ==> DecodeTransportPlaintext(e.plaintext).Some?
  }

  ghost predicate WindowsOk(sys: System) {
    AllTyped(sys.log) && forall n :: 0 <= n < |sys.nodes| ==> AllLogged(sys.log, sys.nodes[n].st)
  }

  // ---------------------------------------------------------------------------
  // One action.
  // ---------------------------------------------------------------------------

  /** As far as the window is concerned these are one session. */
  predicate SameWindow(s: Session, t: Session) {
    s.key == t.key && s.isInitiator == t.isInitiator && s.window == t.window
  }

  /** Every session was there before, with this window, or is new. */
  ghost predicate WindowsKept(st: State, after: State) {
    forall slot :: Has(after, slot) ==>
      || At(after, slot).window == EMPTY_WINDOW
      || exists from :: Has(st, from) && SameWindow(At(st, from), At(after, slot))
  }

  lemma LoggedLater(log: seq<Event>, longer: seq<Event>, s: Session, t: Session)
    requires Logged(log, s) && SameWindow(s, t) && log <= longer
    ensures Logged(longer, t)
  {
    forall c | c in t.window.accepted
      ensures exists e :: e in longer && e.Opened? && e.key == t.key && e.fromInitiator != t.isInitiator && e.nonce == c
    {
      var e :| e in log && e.Opened? && e.key == s.key && e.fromInitiator != s.isInitiator && e.nonce == c;
      assert e in longer;
    }
  }

  lemma KeptIsLogged(log: seq<Event>, longer: seq<Event>, st: State, after: State)
    requires AllLogged(log, st) && WindowsKept(st, after) && log <= longer
    ensures AllLogged(longer, after)
  {
    forall slot | Has(after, slot) ensures Logged(longer, At(after, slot)) {
      if At(after, slot).window != EMPTY_WINDOW {
        var from :| Has(st, from) && SameWindow(At(st, from), At(after, slot));
        LoggedLater(log, longer, At(st, from), At(after, slot));
      }
    }
  }

  lemma EncryptKeepsWindows(st: State, peer: Peer, msgType: MsgType, payload: seq<byte>, now: Time, works: bool)
    ensures WindowsKept(st, EncryptForPeer(st, peer, msgType, payload, now, works).0)
  {
    var after := EncryptForPeer(st, peer, msgType, payload, now, works).0;
    forall slot | Has(after, slot) ensures Has(st, slot) && SameWindow(At(st, slot), At(after, slot)) {}
  }

  lemma ShrunkKeepsWindows(st: State, after: State)
    requires forall a :: Has(after, a) ==> Has(st, a) && At(after, a) == At(st, a)
    ensures WindowsKept(st, after)
  {
    forall slot | Has(after, slot) ensures Has(st, slot) && SameWindow(At(st, slot), At(after, slot)) {}
  }

  lemma StoreKeepsWindows(st: State, p: Peer, s: Session, handshakeId: Id, request: Message1, response: Packet,
                          now: Time)
    requires s.window == EMPTY_WINDOW
    ensures WindowsKept(st, StoreCandidate(st, p, s, handshakeId, request, response, now).0)
  {
    var after := StoreCandidate(st, p, s, handshakeId, request, response, now).0;
    forall slot | Has(after, slot) && At(after, slot).window != EMPTY_WINDOW
      ensures Has(st, slot) && SameWindow(At(st, slot), At(after, slot))
    {}
  }

  lemma StartShrinks(st: State, self: Node, peer: Peer, handshakeId: Id, ephemeral: Ephemeral, now: Time, slot: Slot)
    ensures var after := StartOrRetry(st, self, peer, handshakeId, ephemeral, now).0;
            Has(after, slot) ==> Has(st, slot) && At(after, slot) == At(st, slot)
  {
    var live := DropStalePending(st, peer, now);
    ReadyShrinks(live, peer, now, slot);
    StartShape(st, self, peer, handshakeId, ephemeral, now);
  }

  lemma ReadyShrinks(st: State, peer: Peer, now: Time, slot: Slot)
    ensures var ready := ReadyToStart(st, peer, now);
            Has(ready, slot) ==> Has(st, slot) && At(ready, slot) == At(st, slot)
  {}

  lemma FinalizeKeepsWindows(st: State, peer: Peer, answer: Message2, now: Time, works: bool)
    requires peer in st.pending
    ensures WindowsKept(st, FinalizeFor(st, peer, answer, now, works).0)
  {
    var after := FinalizeFor(st, peer, answer, now, works).0;
    forall slot | Has(after, slot) && At(after, slot).window != EMPTY_WINDOW
      ensures exists from :: Has(st, from) && SameWindow(At(st, from), At(after, slot))
    {
      var from := if slot == Previous(peer) && peer in st.sessions then Active(peer) else slot;
      assert Has(st, slot) || Has(st, from);
      assert (Has(st, from) && SameWindow(At(st, from), At(after, slot)))
             || (Has(st, slot) && SameWindow(At(st, slot), At(after, slot)));
    }
  }

  lemma QuietKeepsWindows(st: State, a: Action, now: Time)
    ensures a.Accept? ==> WindowsKept(st, AcceptInbound(st, a.peer, a.remoteId, a.passive, now).0)
    ensures a.Repeat? ==> WindowsKept(st, CachedResponse(st, a.peer, a.handshakeId, a.request, now).0)
    ensures a.Forget? ==> WindowsKept(st, Invalidate(st, a.peer).0)
  {
    if a.Accept? {
      AcceptShrinks(st, a.peer, a.remoteId, a.passive, now);
      ShrunkKeepsWindows(st, AcceptInbound(st, a.peer, a.remoteId, a.passive, now).0);
    } else if a.Repeat? {
      ShrunkKeepsWindows(st, CachedResponse(st, a.peer, a.handshakeId, a.request, now).0);
    } else if a.Forget? {
      ShrunkKeepsWindows(st, Invalidate(st, a.peer).0);
    }
  }

  // ---------------------------------------------------------------------------
  // Decryption: the one action that moves a window.
  // ---------------------------------------------------------------------------

  /** A window moves only when the packet is opened, because whatever was sealed has a type byte. */
  lemma AdvanceIsLogged(log: seq<Event>, s: Session, id: Id, counter: u64, cipher: Cipher)
    requires Logged(log, s) && AllTyped(log)
    requires cipher.Sealed? ==> Spent(cipher.key, cipher.fromInitiator, cipher.nonce, cipher.plaintext, true) in log
    ensures var (after, result) := s.Decrypt(id, counter, cipher);
            if result.Ok? then
              cipher.Sealed?
              && Logged(log + [Opened(cipher.key, cipher.fromInitiator, cipher.nonce, cipher.plaintext)], after)
            else after == s
  {
    var (after, result) := s.Decrypt(id, counter, cipher);
    if result.Ok? {
      var e := Opened(cipher.key, cipher.fromInitiator, cipher.nonce, cipher.plaintext);
      LoggedLater(log, log + [e], s, s);
      forall c | c in after.window.accepted
        ensures exists f :: f in log + [e] && f.Opened? && f.key == after.key && f.fromInitiator != after.isInitiator
                            && f.nonce == c
      {
        if c == counter {
          assert e in log + [e];
        } else {
          assert c in s.window.accepted;
        }
      }
    }
  }

  lemma PutIsLogged(log: seq<Event>, longer: seq<Event>, st: State, slot: Slot, s: Session)
    requires AllLogged(log, st) && log <= longer && Logged(longer, s)
    ensures AllLogged(longer, Put(st, slot, s))
    ensures slot.Candidate? ==> AllLogged(longer, Promote(st, slot.peer, s))
  {
    forall a | Has(st, a) ensures Logged(longer, At(st, a)) {
      LoggedLater(log, longer, At(st, a), At(st, a));
    }
    var put := Put(st, slot, s);
    forall a | Has(put, a) ensures Logged(longer, At(put, a)) {
      assert a == slot || (Has(st, a) && At(put, a) == At(st, a));
    }
    if slot.Candidate? {
      PromotedIsLogged(longer, st, slot.peer, s);
    }
  }

  lemma PromotedIsLogged(log: seq<Event>, st: State, peer: Peer, s: Session)
    requires AllLogged(log, st) && Logged(log, s)
    ensures AllLogged(log, Promote(st, peer, s))
  {
    var after := Promote(st, peer, s);
    forall a | Has(after, a) ensures Logged(log, At(after, a)) {
      var from := Origin(st, peer, a);
      assert a == Active(peer) || (Has(st, from) && At(after, a) == At(st, from));
    }
  }

  lemma DecryptIsLogged(log: seq<Event>, n: Node, node: NodeState, a: Action, now: Time)
    requires AllLogged(log, node.st) && AllTyped(log) && a.Decrypt?
    requires a.cipher.Sealed? ==>
               Spent(a.cipher.key, a.cipher.fromInitiator, a.cipher.nonce, a.cipher.plaintext, true) in log
    ensures var outcome := Act(n, node, a, now);
            AllLogged(log + outcome.events, outcome.node.st)
  {
    var outcome := Act(n, node, a, now);
    var kept := DropExpired(node.st, now);
    assert forall slot :: Has(kept, slot) ==> Has(node.st, slot) && At(kept, slot) == At(node.st, slot);
    match Owner(kept, a.id)
    case None => assert log + [] == log;
    case Some(slot) =>
      var (s, result) := At(kept, slot).Decrypt(a.id, a.counter, a.cipher);
      AdvanceIsLogged(log, At(kept, slot), a.id, a.counter, a.cipher);
      if result.Err? {
        assert log + [] == log;
        PutIsLogged(log, log, kept, slot, s);
      } else {
        var e := Opened(a.cipher.key, a.cipher.fromInitiator, a.cipher.nonce, a.cipher.plaintext);
        assert log + [e] <= log + outcome.events;
        LoggedLater(log + [e], log + outcome.events, s, s);
        PutIsLogged(log, log + outcome.events, kept, slot, s);
      }
  }

  // ---------------------------------------------------------------------------
  // Every run.
  // ---------------------------------------------------------------------------

  lemma TypedStays(n: Node, node: NodeState, a: Action, now: Time)
    requires a.Store? ==>
        ResponderRespond(n, a.peer, a.handshakeId, a.request, a.sessionId, Ephemeral(n, node.drawn), now).Ok?
    requires a.Finalize? ==> a.peer in node.st.pending
    ensures AllTyped(Act(n, node, a, now).events)
  {
    match a
    case Encrypt(_, msgType, payload, _) => PlaintextRoundTrip(TransportPlaintext(msgType, payload), msgType, payload);
    case Finalize(_, _, _, _) =>
      PlaintextRoundTrip(TransportPlaintext(Keepalive, KEEPALIVE_PROBE_PAYLOAD), Keepalive, KEEPALIVE_PROBE_PAYLOAD);
    case _ =>
  }

  lemma ActionIsLogged(sys: System, n: Node, a: Action)
    requires SystemOk(sys) && WindowsOk(sys) && n < |sys.nodes| && Enabled(sys, n, a)
    ensures var outcome := Act(n, sys.nodes[n], a, sys.now);
            AllLogged(sys.log + outcome.events, outcome.node.st)
  {
    var st, log, outcome := sys.nodes[n].st, sys.log, Act(n, sys.nodes[n], a, sys.now);
    if a.Decrypt? {
      if a.cipher.Sealed? {
        var id, counter :| TransportPacket(id, counter, a.cipher) in sys.wire;
        assert PacketOk(sys.nodes, log, TransportPacket(id, counter, a.cipher));
      }
      DecryptIsLogged(log, n, sys.nodes[n], a, sys.now);
    } else {
      OtherActionKeepsWindows(n, sys.nodes[n], a, sys.now);
      KeptIsLogged(log, log + outcome.events, st, outcome.node.st);
    }
  }

  lemma OtherActionKeepsWindows(n: Node, node: NodeState, a: Action, now: Time)
    requires a.Store? ==>
        ResponderRespond(n, a.peer, a.handshakeId, a.request, a.sessionId, Ephemeral(n, node.drawn), now).Ok?
    requires a.Finalize? ==> a.peer in node.st.pending
    requires !a.Decrypt?
    ensures WindowsKept(node.st, Act(n, node, a, now).node.st)
  {
    var st := node.st;
    match a
    case Encrypt(peer, msgType, payload, works) => EncryptKeepsWindows(st, peer, msgType, payload, now, works);
    case Store(p, handshakeId, request, sessionId) =>
      var (answer, session) :=
        ResponderRespond(n, p, handshakeId, request, sessionId, Ephemeral(n, node.drawn), now).value;
      StoreKeepsWindows(st, p, session, handshakeId, request, ResponsePacket(handshakeId, answer), now);
    case Start(p, handshakeId) =>
      var after := StartOrRetry(st, n, p, handshakeId, Ephemeral(n, node.drawn), now).0;
      forall slot | Has(after, slot) ensures Has(st, slot) && At(after, slot) == At(st, slot) {
        StartShrinks(st, n, p, handshakeId, Ephemeral(n, node.drawn), now, slot);
      }
      ShrunkKeepsWindows(st, after);
    case Finalize(p, _, answer, works) => FinalizeKeepsWindows(st, p, answer, now, works);
    case Discard => ShrunkKeepsWindows(st, st);
    case _ => QuietKeepsWindows(st, a, now);
  }

  lemma StepKeepsWindows(sys: System, n: Node, a: Action)
    requires SystemOk(sys) && WindowsOk(sys) && n < |sys.nodes| && Enabled(sys, n, a)
    ensures WindowsOk(Do(sys, n, a))
  {
    var next := Do(sys, n, a);
    TypedStays(n, sys.nodes[n], a, sys.now);
    forall m | 0 <= m < |next.nodes| ensures AllLogged(next.log, next.nodes[m].st) {
      if m == n {
        ActionIsLogged(sys, n, a);
      } else {
        ShrunkKeepsWindows(sys.nodes[m].st, sys.nodes[m].st);
        KeptIsLogged(sys.log, next.log, sys.nodes[m].st, next.nodes[m].st);
      }
    }
  }

  lemma {:induction false} RunKeepsWindows(states: seq<System>, i: nat)
    requires Run(states) && i < |states|
    ensures WindowsOk(states[i])
  {
    if i > 0 {
      RunKeepsWindows(states, i - 1);
      RunKeepsOk(states, i - 1);
      var sys, next := states[i - 1], states[i];
      assert Step(sys, next);
      if !(next.now >= sys.now && next == sys.(now := next.now)) {
        var n: Node, a: Action :| n < |sys.nodes| && Enabled(sys, n, a) && next == Do(sys, n, a);
        StepKeepsWindows(sys, n, a);
      }
    }
  }

  /** Under this key and direction this nonce was not opened yet, and none that is a whole window newer. */
  ghost predicate Timely(log: seq<Event>, key: Key, fromInitiator: bool, nonce: u64) {
    forall e :: e in log && e.Opened? && e.key == key && e.fromInitiator == fromInitiator ==>
      e.nonce != nonce && e.nonce < nonce + 4096
  }

  /** In every reachable state, what the window of a session takes can be read off the log. */
  lemma FreshIffTimely(states: seq<System>, i: nat, n: Node, slot: Slot, counter: u64)
    requires Run(states) && i < |states| && n < |states[i].nodes| && Has(states[i].nodes[n].st, slot)
    ensures var s := At(states[i].nodes[n].st, slot);
            s.window.Fresh(counter) <==> Timely(states[i].log, s.key, !s.isInitiator, counter)
  {
    RunKeepsOk(states, i);
    RunKeepsWindows(states, i);
    var s := At(states[i].nodes[n].st, slot);
    assert Local(n, states[i].nodes[n], states[i].log);
    assert SlotOk(n, states[i].log, slot, s) && s.window.Valid() && Logged(states[i].log, s);
    WindowOfLog(states[i].log, s, counter);
  }

  lemma WindowOfLog(log: seq<Event>, s: Session, counter: u64)
    requires CountersOk(log, s) && Logged(log, s) && s.window.Valid()
    ensures s.window.Fresh(counter) <==> Timely(log, s.key, !s.isInitiator, counter)
  {
    if s.window.highest.Some? {
      var h := s.window.highest.value;
      var e :| e in log && e.Opened? && e.key == s.key && e.fromInitiator != s.isInitiator && e.nonce == h;
      if counter in s.window.accepted {
        var f :| f in log && f.Opened? && f.key == s.key && f.fromInitiator != s.isInitiator && f.nonce == counter;
      }
    }
  }
}
