/** Runs of the whole network: every step, and so every state of every run, keeps the invariant. */
module NetworkRuns {
  import opened Wrappers
  import opened Noise
  import opened Sessions
  import opened Network

  // ---------------------------------------------------------------------------
  // A step of the system.
  // ---------------------------------------------------------------------------

  /** A step that only removes things from the state and says nothing. */
  lemma RemovalStep(n: Node, node: NodeState, log: seq<Event>, outcome: Outcome)
    requires Local(n, node, log) && UseImpliesInstalled(log)
    requires outcome.events == [] && outcome.node == node.(st := outcome.node.st)
    requires Shrunk(node.st, outcome.node.st) && Invariant(outcome.node.st)
    ensures StepIsLocal(n, log, outcome)
  {
    NoEvents(n, log);
    ShrinkingIsLocal(n, node, log, outcome.node.st);
  }

  lemma AcceptShrinks(st: State, peer: Peer, remoteId: Id, passive: bool, now: Time)
    ensures Shrunk(st, AcceptInbound(st, peer, remoteId, passive, now).0)
  {
    var after := AcceptInbound(st, peer, remoteId, passive, now).0;
    assert after.sessions == st.sessions && after.previous == st.previous && after.candidates == st.candidates;
  }

  lemma AcceptStepOfNode(n: Node, node: NodeState, log: seq<Event>, a: Action, now: Time)
    requires Local(n, node, log) && UseImpliesInstalled(log) && a.Accept?
    ensures StepIsLocal(n, log, Act(n, node, a, now))
  {
    AcceptKeepsInvariant(node.st, a.peer, a.remoteId, a.passive, now);
    AcceptShrinks(node.st, a.peer, a.remoteId, a.passive, now);
    RemovalStep(n, node, log, Act(n, node, a, now));
  }

  lemma RepeatStepOfNode(n: Node, node: NodeState, log: seq<Event>, a: Action, now: Time)
    requires Local(n, node, log) && UseImpliesInstalled(log) && a.Repeat?
    ensures StepIsLocal(n, log, Act(n, node, a, now))
  {
    CachedKeepsInvariant(node.st, a.peer, a.handshakeId, a.request, now);
    RemovalStep(n, node, log, Act(n, node, a, now));
  }

  lemma ForgetStepOfNode(n: Node, node: NodeState, log: seq<Event>, a: Action, now: Time)
    requires Local(n, node, log) && UseImpliesInstalled(log) && a.Forget?
    ensures StepIsLocal(n, log, Act(n, node, a, now))
  {
    InvalidateKeepsInvariant(node.st, a.peer);
    RemovalStep(n, node, log, Act(n, node, a, now));
  }

  lemma DecryptStepOfNode(sys: System, n: Node, a: Action)
    requires SystemOk(sys) && n < |sys.nodes| && a.Decrypt? && Enabled(sys, n, a)
    ensures StepIsLocal(n, sys.log, Act(n, sys.nodes[n], a, sys.now))
  {
    assert Local(n, sys.nodes[n], sys.log);
    if a.cipher.Sealed? {
      var id, counter :| TransportPacket(id, counter, a.cipher) in sys.wire;
      assert PacketOk(sys.nodes, sys.log, TransportPacket(id, counter, a.cipher));
    }
    DecryptIsLocal(n, sys.nodes[n], sys.log, a, sys.now);
  }

  lemma StoreStepOfNode(sys: System, n: Node, a: Action)
    requires SystemOk(sys) && n < |sys.nodes| && a.Store? && Enabled(sys, n, a)
    ensures StepIsLocal(n, sys.log, Act(n, sys.nodes[n], a, sys.now))
  {
    assert Local(n, sys.nodes[n], sys.log);
    assert PacketOk(sys.nodes, sys.log, InitPacket(a.handshakeId, a.request));
    StoreIsLocal(n, sys.nodes, sys.log, a, sys.now);
  }

  lemma FinalizeStepOfNode(sys: System, n: Node, a: Action)
    requires SystemOk(sys) && n < |sys.nodes| && a.Finalize? && Enabled(sys, n, a)
    ensures StepIsLocal(n, sys.log, Act(n, sys.nodes[n], a, sys.now))
  {
    assert Local(n, sys.nodes[n], sys.log);
    if a.answer.Answer? {
      var header :| ResponsePacket(header, a.answer) in sys.wire;
      assert PacketOk(sys.nodes, sys.log, ResponsePacket(header, a.answer));
    }
    FinalizeIsLocal(n, sys.nodes[n], sys.log, a, sys.now);
  }

  lemma StepOfNode(sys: System, n: Node, a: Action)
    requires SystemOk(sys) && n < |sys.nodes| && Enabled(sys, n, a)
    ensures StepIsLocal(n, sys.log, Act(n, sys.nodes[n], a, sys.now))
  {
    assert Local(n, sys.nodes[n], sys.log);
    match a
    case Encrypt(_, _, _, _) => EncryptIsLocal(n, sys.nodes[n], sys.log, a, sys.now);
    case Decrypt(_, _, _) => DecryptStepOfNode(sys, n, a);
    case Store(_, _, _, _) => StoreStepOfNode(sys, n, a);
    case Start(_, _) => StartIsLocal(n, sys.nodes, sys.log, a, sys.now);
    case Finalize(_, _, _, _) => FinalizeStepOfNode(sys, n, a);
    case Accept(_, _, _) => AcceptStepOfNode(n, sys.nodes[n], sys.log, a, sys.now);
    case Repeat(_, _, _) => RepeatStepOfNode(n, sys.nodes[n], sys.log, a, sys.now);
    case Forget(_) => ForgetStepOfNode(n, sys.nodes[n], sys.log, a, sys.now);
    case Discard =>
      NoEvents(n, sys.log);
      DrawnMore(n, sys.nodes[n], sys.log, sys.nodes[n].st);
  }

  /** Everything a step emits refers to ephemerals that were drawn and to facts in the log. */
  ghost predicate OutputOk(sys: System, n: Node, outcome: Outcome)
    requires n < |sys.nodes|
  {
    var nodes := sys.nodes[n := outcome.node];
    && outcome.node.drawn >= sys.nodes[n].drawn
    && (forall e :: e in outcome.events ==> EventKnown(nodes, e))
    && (forall packet :: packet in outcome.packets ==> PacketOk(nodes, sys.log + outcome.events, packet))
    && CacheOk(outcome.node.st, sys.wire + outcome.packets)
  }

  /** The keys of a node's sessions were drawn by their owners. */
  lemma SessionKeyKnown(sys: System, n: Node, slot: Slot)
    requires SystemOk(sys) && n < |sys.nodes| && Has(sys.nodes[n].st, slot)
    ensures Known(sys.nodes, At(sys.nodes[n].st, slot).key.initiator)
    ensures Known(sys.nodes, At(sys.nodes[n].st, slot).key.responder)
  {
    var s := At(sys.nodes[n].st, slot);
    assert Local(n, sys.nodes[n], sys.log);
    assert SlotOk(n, sys.log, slot, s);
    assert EventKnown(sys.nodes, if s.isInitiator then Installed(s.key, s.id) else Stored(s.key, s.id));
  }

  /** What is emitted is about one known key, and the cache only shrinks. */
  lemma KeyedOutput(sys: System, n: Node, outcome: Outcome, key: Key)
    requires SystemOk(sys) && n < |sys.nodes| && outcome.node.drawn >= sys.nodes[n].drawn
    requires Known(sys.nodes, key.initiator) && Known(sys.nodes, key.responder)
    requires forall e :: e in outcome.events ==> !e.Transmitted? && e.key == key
    requires forall packet :: packet in outcome.packets ==> PacketOk(sys.nodes, outcome.events, packet)
    requires forall p :: p in outcome.node.st.cache ==>
               p in sys.nodes[n].st.cache && outcome.node.st.cache[p] == sys.nodes[n].st.cache[p]
    ensures OutputOk(sys, n, outcome)
  {
    var nodes := sys.nodes[n := outcome.node];
    forall packet | packet in outcome.packets ensures PacketOk(nodes, sys.log + outcome.events, packet) {
      assert PacketOk(sys.nodes, outcome.events, packet);
    }
    assert CacheOk(sys.nodes[n].st, sys.wire);
  }

  lemma SilentOutput(sys: System, n: Node, outcome: Outcome)
    requires SystemOk(sys) && n < |sys.nodes| && outcome.node.drawn >= sys.nodes[n].drawn
    requires outcome.events == [] && outcome.packets == {}
    requires forall p :: p in outcome.node.st.cache ==>
               p in sys.nodes[n].st.cache && outcome.node.st.cache[p] == sys.nodes[n].st.cache[p]
    ensures OutputOk(sys, n, outcome)
  {
    assert CacheOk(sys.nodes[n].st, sys.wire);
  }

  lemma EncryptOutput(sys: System, n: Node, a: Action)
    requires SystemOk(sys) && n < |sys.nodes| && a.Encrypt?
    ensures OutputOk(sys, n, Act(n, sys.nodes[n], a, sys.now))
  {
    var outcome := Act(n, sys.nodes[n], a, sys.now);
    if a.peer in DropExpiredFor(sys.nodes[n].st, a.peer, sys.now).sessions {
      SessionKeyKnown(sys, n, Active(a.peer));
      KeyedOutput(sys, n, outcome, At(sys.nodes[n].st, Active(a.peer)).key);
    } else {
      SilentOutput(sys, n, outcome);
    }
  }

  lemma DecryptOutput(sys: System, n: Node, a: Action)
    requires SystemOk(sys) && n < |sys.nodes| && a.Decrypt?
    ensures OutputOk(sys, n, Act(n, sys.nodes[n], a, sys.now))
  {
    var outcome := Act(n, sys.nodes[n], a, sys.now);
    var slot := DecryptEmits(n, sys.nodes[n], a, sys.now);
    if slot.None? {
      SilentOutput(sys, n, outcome);
    } else {
      SessionKeyKnown(sys, n, slot.value);
      KeyedOutput(sys, n, outcome, At(sys.nodes[n].st, slot.value).key);
    }
  }

  /** What a decryption says is about the key of one session, if it says anything. */
  lemma DecryptEmits(n: Node, node: NodeState, a: Action, now: Time) returns (slot: Option<Slot>)
    requires a.Decrypt?
    ensures var outcome := Act(n, node, a, now);
            && outcome.packets == {} && outcome.node.drawn == node.drawn
            && (forall p :: p in outcome.node.st.cache ==>
                  p in node.st.cache && outcome.node.st.cache[p] == node.st.cache[p])
            && if slot.None? then outcome.events == []
               else Has(node.st, slot.value)
                    && forall e :: e in outcome.events ==> !e.Transmitted? && e.key == At(node.st, slot.value).key
  {
    var kept := DropExpired(node.st, now);
    slot := Owner(kept, a.id);
    if slot.Some? {
      assert Has(node.st, slot.value) && At(kept, slot.value) == At(node.st, slot.value);
      DecryptAtKeepsCache(kept, slot.value, a.id, a.counter, a.cipher);
    }
  }

  lemma DecryptAtKeepsCache(st: State, slot: Slot, id: Id, counter: u64, cipher: Cipher)
    requires Has(st, slot)
    ensures var (after, result) := DecryptAt(st, slot, id, counter, cipher);
            && (forall p :: p in after.cache ==> p in st.cache && after.cache[p] == st.cache[p])
            && (result.Ok? ==> result.value.Some? && cipher.Sealed? && cipher.key == At(st, slot).key)
  {}

  lemma StoreOutput(sys: System, n: Node, a: Action)
    requires SystemOk(sys) && n < |sys.nodes| && a.Store? && Enabled(sys, n, a)
    ensures OutputOk(sys, n, Act(n, sys.nodes[n], a, sys.now))
  {
    assert PacketOk(sys.nodes, sys.log, InitPacket(a.handshakeId, a.request));
    var outcome := Act(n, sys.nodes[n], a, sys.now);
    var cache := outcome.node.st.cache;
    forall p | p in cache
      ensures cache[p].response.ResponsePacket? && cache[p].response in sys.wire + outcome.packets
    {
      if p in sys.nodes[n].st.cache {
        assert sys.nodes[n].st.cache[p].response in sys.wire;
      }
    }
  }

  /** A start only ever sends the first message of a pending exchange: the old one or a new one. */
  lemma StartSends(st: State, self: Node, peer: Peer, handshakeId: Id, ephemeral: Ephemeral, now: Time)
    ensures var (after, packet) := StartOrRetry(st, self, peer, handshakeId, ephemeral, now);
            && (forall p :: p in after.cache ==> p in st.cache && after.cache[p] == st.cache[p])
            && (packet.Some? ==>
                  || (peer in st.pending && packet.value == st.pending[peer].packet)
                  || packet.value == NewPending(self, peer, handshakeId, ephemeral, now).packet)
  {}

  lemma StartOutput(sys: System, n: Node, a: Action)
    requires SystemOk(sys) && n < |sys.nodes| && a.Start? && Enabled(sys, n, a)
    ensures OutputOk(sys, n, Act(n, sys.nodes[n], a, sys.now))
  {
    var node := sys.nodes[n];
    assert Local(n, node, sys.log) && CacheOk(node.st, sys.wire);
    if a.peer in node.st.pending {
      assert PendingOk(n, node.drawn, sys.log, a.peer, node.st.pending[a.peer]);
    }
    StartSends(node.st, n, a.peer, a.handshakeId, Ephemeral(n, node.drawn), sys.now);
    FirstMessageOutput(sys, n, Act(n, node, a, sys.now));
  }

  lemma FirstMessageOutput(sys: System, n: Node, outcome: Outcome)
    requires SystemOk(sys) && n < |sys.nodes| && outcome.node.drawn == sys.nodes[n].drawn + 1
    requires forall packet :: packet in outcome.packets ==>
               && packet.InitPacket? && packet.message.Init? && packet.message.from == n
               && packet.message.ephemeral.node == n && packet.message.ephemeral.number <= sys.nodes[n].drawn
    requires forall e :: e in outcome.events ==>
                             e.Transmitted? && exists id :: InitPacket(id, e.message) in outcome.packets
    requires forall p :: p in outcome.node.st.cache ==>
               p in sys.nodes[n].st.cache && outcome.node.st.cache[p] == sys.nodes[n].st.cache[p]
    ensures OutputOk(sys, n, outcome)
  {
    assert CacheOk(sys.nodes[n].st, sys.wire);
  }

  lemma FinalizeOutput(sys: System, n: Node, a: Action)
    requires SystemOk(sys) && n < |sys.nodes| && a.Finalize? && Enabled(sys, n, a)
    ensures OutputOk(sys, n, Act(n, sys.nodes[n], a, sys.now))
  {
    var node := sys.nodes[n];
    var outcome := Act(n, node, a, sys.now);
    var session := InitiatorFinalize(node.st.pending[a.peer].state, a.answer, sys.now);
    if session.Err? || IdInUse(node.st, session.value.id) {
      SilentOutput(sys, n, outcome);
    } else {
      AnswerKeyKnown(sys, a.answer);
      KeyedOutput(sys, n, outcome, session.value.key);
    }
  }

  lemma AnswerKeyKnown(sys: System, answer: Message2)
    requires SystemOk(sys) && answer.Answer? && answer.request.Init?
    requires exists header :: ResponsePacket(header, answer) in sys.wire
    ensures Known(sys.nodes, answer.request.ephemeral) && Known(sys.nodes, answer.ephemeral)
  {
    var header :| ResponsePacket(header, answer) in sys.wire;
    assert PacketOk(sys.nodes, sys.log, ResponsePacket(header, answer));
    assert EventKnown(sys.nodes, Stored(Key(answer.request.ephemeral, answer.ephemeral), answer.sessionId));
  }

  lemma OutputOfStep(sys: System, n: Node, a: Action)
    requires SystemOk(sys) && n < |sys.nodes| && Enabled(sys, n, a)
    ensures OutputOk(sys, n, Act(n, sys.nodes[n], a, sys.now))
  {
    match a
    case Encrypt(_, _, _, _) => EncryptOutput(sys, n, a);
    case Decrypt(_, _, _) => DecryptOutput(sys, n, a);
    case Repeat(_, _, _) => RepeatOutput(sys, n, a);
    case Store(_, _, _, _) => StoreOutput(sys, n, a);
    case Start(_, _) => StartOutput(sys, n, a);
    case Finalize(_, _, _, _) => FinalizeOutput(sys, n, a);
    case _ => QuietOutput(sys, n, a);
  }

  lemma QuietOutput(sys: System, n: Node, a: Action)
    requires SystemOk(sys) && n < |sys.nodes| && (a.Accept? || a.Forget? || a.Discard?)
    ensures OutputOk(sys, n, Act(n, sys.nodes[n], a, sys.now))
  {
    SilentOutput(sys, n, Act(n, sys.nodes[n], a, sys.now));
  }

  lemma RepeatOutput(sys: System, n: Node, a: Action)
    requires SystemOk(sys) && n < |sys.nodes| && a.Repeat?
    ensures OutputOk(sys, n, Act(n, sys.nodes[n], a, sys.now))
  {
    var outcome := Act(n, sys.nodes[n], a, sys.now);
    assert CacheOk(sys.nodes[n].st, sys.wire);
    assert outcome.packets <= sys.wire;
    forall packet | packet in outcome.packets
      ensures PacketOk(sys.nodes[n := outcome.node], sys.log + outcome.events, packet)
    {
      PacketStillOk(sys.nodes, sys.nodes[n := outcome.node], sys.log, outcome.events, packet);
    }
  }

  ghost predicate DrawnGrows(nodes: seq<NodeState>, later: seq<NodeState>) {
    |nodes| == |later| && forall n :: 0 <= n < |nodes| ==> nodes[n].drawn <= later[n].drawn
  }

  lemma PacketStillOk(nodes: seq<NodeState>, later: seq<NodeState>, log: seq<Event>, events: seq<Event>, packet: Packet)
    requires PacketOk(nodes, log, packet) && DrawnGrows(nodes, later)
    ensures PacketOk(later, log + events, packet)
  {}

  lemma LogStaysOk(n: Node, log: seq<Event>, events: seq<Event>)
    requires LogOk(log) && EventsAllowed(n, log, events)
    ensures LogOk(log + events)
  {
    if events == [] {
      assert log + events == log;
    } else {
      LogGrows(log, events[0]);
      if |events| == 2 {
        LogGrows(log + [events[0]], events[1]);
        assert log + [events[0]] + [events[1]] == log + events;
      } else {
        assert events == [events[0]];
      }
    }
  }

  lemma StepKeepsOk(sys: System, n: Node, a: Action)
    requires SystemOk(sys) && n < |sys.nodes| && Enabled(sys, n, a)
    ensures SystemOk(Do(sys, n, a))
  {
    var outcome := Act(n, sys.nodes[n], a, sys.now);
    StepOfNode(sys, n, a);
    OutputOfStep(sys, n, a);
    CombineStep(sys, n, outcome);
  }

  lemma WireStaysOk(sys: System, n: Node, outcome: Outcome)
    requires SystemOk(sys) && n < |sys.nodes| && OutputOk(sys, n, outcome)
    ensures forall packet :: packet in sys.wire + outcome.packets ==>
              PacketOk(sys.nodes[n := outcome.node], sys.log + outcome.events, packet)
  {
    forall packet | packet in sys.wire
      ensures PacketOk(sys.nodes[n := outcome.node], sys.log + outcome.events, packet)
    {
      PacketStillOk(sys.nodes, sys.nodes[n := outcome.node], sys.log, outcome.events, packet);
    }
  }

  lemma EventsStayKnown(sys: System, n: Node, outcome: Outcome)
    requires SystemOk(sys) && n < |sys.nodes| && OutputOk(sys, n, outcome)
    ensures forall e :: e in sys.log + outcome.events ==> EventKnown(sys.nodes[n := outcome.node], e)
  {
    forall e | e in sys.log ensures EventKnown(sys.nodes[n := outcome.node], e) {
      assert EventKnown(sys.nodes, e);
    }
  }

  lemma NodesStayLocal(sys: System, n: Node, outcome: Outcome, m: Node)
    requires SystemOk(sys) && n < |sys.nodes| && m < |sys.nodes|
    requires StepIsLocal(n, sys.log, outcome) && OutputOk(sys, n, outcome)
    ensures Local(m, sys.nodes[n := outcome.node][m], sys.log + outcome.events)
    ensures CacheOk(sys.nodes[n := outcome.node][m].st, sys.wire + outcome.packets)
  {
    if m != n {
      assert Local(m, sys.nodes[m], sys.log) && CacheOk(sys.nodes[m].st, sys.wire);
      OtherNodeStays(n, sys.nodes[m], sys.log, sys.wire, outcome, m);
    }
  }

  lemma OtherNodeStays(n: Node, other: NodeState, log: seq<Event>, wire: set<Packet>, outcome: Outcome, m: Node)
    requires m != n && Local(m, other, log) && CacheOk(other.st, wire) && EventsAllowed(n, log, outcome.events)
    ensures Local(m, other, log + outcome.events) && CacheOk(other.st, wire + outcome.packets)
  {
    forall e | e in outcome.events ensures By(n, e) {}
    OtherNodesUnaffected(m, other, log, outcome.events, n);
  }

  lemma CombineStep(sys: System, n: Node, outcome: Outcome)
    requires SystemOk(sys) && n < |sys.nodes|
    requires StepIsLocal(n, sys.log, outcome) && OutputOk(sys, n, outcome)
    ensures SystemOk(System(sys.now, sys.nodes[n := outcome.node], sys.wire + outcome.packets,
                            sys.log + outcome.events))
  {
    LogStaysOk(n, sys.log, outcome.events);
    WireStaysOk(sys, n, outcome);
    EventsStayKnown(sys, n, outcome);
    var nodes := sys.nodes[n := outcome.node];
    forall m | 0 <= m < |nodes|
      ensures Local(m, nodes[m], sys.log + outcome.events) && CacheOk(nodes[m].st, sys.wire + outcome.packets)
    {
      NodesStayLocal(sys, n, outcome, m);
    }
  }

  lemma InitialOk(sys: System)
    requires Initial(sys)
    ensures SystemOk(sys)
  {}

  /** Every state of every run keeps the invariant, at every node. */
  lemma {:induction false} RunKeepsOk(states: seq<System>, i: nat)
    requires Run(states) && i < |states|
    ensures SystemOk(states[i])
  {
    if i == 0 {
      InitialOk(states[0]);
    } else {
      RunKeepsOk(states, i - 1);
      var sys, next := states[i - 1], states[i];
      assert Step(sys, next);
      if !(next.now >= sys.now && next == sys.(now := next.now)) {
        var n: Node, a: Action :| n < |sys.nodes| && Enabled(sys, n, a) && next == Do(sys, n, a);
        StepKeepsOk(sys, n, a);
      }
    }
  }
}
