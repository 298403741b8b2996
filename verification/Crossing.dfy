/**
 Two nodes that start a handshake with each other at the same time
 (src/engine.rs). The five possible packets of the two exchanges are delivered
 once each, in any order in which each exists before it is delivered.
 */
module Crossings {
  import opened Wrappers
  import opened Wire
  import opened Replay
  import opened Noise
  import opened Sessions
  import opened SessionManagers
  import opened Engines

  /**
   The states in which both first messages are on their way, and what each side
   will draw when it answers. Side `a` has the smaller handshake identifier.
   `passiveA` says that `a` regards its peer as passive, and likewise `passiveB`.
   */
  datatype Crossing = Crossing(
    a: Node, b: Node, startA: State, startB: State, pendingA: PendingInitiator, pendingB: PendingInitiator,
    drawsA: Draws, drawsB: Draws, passiveA: bool, passiveB: bool)
  {
    ghost predicate Valid() {
      && a != b
      && Invariant(startA) && Invariant(startB)
      // both exchanges are pending, under distinct identifiers that no other pending exchange uses
      && b in startA.pending && startA.pending[b] == pendingA
      && a in startB.pending && startB.pending[a] == pendingB
      && pendingA.state.Init? && pendingA.state == Init(pendingA.handshakeId, a, b, pendingA.state.ephemeral)
      && pendingB.state.Init? && pendingB.state == Init(pendingB.handshakeId, b, a, pendingB.state.ephemeral)
      && pendingA.handshakeId < pendingB.handshakeId
      && (forall p :: PendingMatch(startA, p, pendingA.handshakeId) ==> p == b)
      && (forall p :: PendingMatch(startB, p, pendingB.handshakeId) ==> p == a)
      // no recovery preference in play, and neither first message was answered before
      && b !in startA.recovery && a !in startB.recovery
      && (b in startA.cache ==> startA.cache[b].request != pendingB.state)
      && (a in startB.cache ==> startB.cache[a].request != pendingA.state)
      // the session identifiers that the answers would carry are new
      && drawsA.sessionId != drawsB.sessionId
      && !IdInUse(startA, drawsA.sessionId) && !IdInUse(startA, drawsB.sessionId)
      && !IdInUse(startB, drawsA.sessionId) && !IdInUse(startB, drawsB.sessionId)
      && drawsA.sealingWorks
    }

    /** Both attempts are alive. */
    predicate Live(now: Time) {
      && pendingA.createdAt <= now < pendingA.createdAt + HANDSHAKE_ATTEMPT_LIFETIME
      && pendingB.createdAt <= now < pendingB.createdAt + HANDSHAKE_ATTEMPT_LIFETIME
    }

    /** The key of the exchange that `a` started. */
    function WinningKey(): Key
      requires pendingA.state.Init?
    {
      Key(pendingA.state.ephemeral, drawsB.ephemeral)
    }

    function WinningAnswer(): Packet {
      ResponsePacket(pendingA.handshakeId, Answer(pendingA.state, drawsB.sessionId, drawsB.ephemeral))
    }

    function WinningConfirmation(): Packet
      requires pendingA.state.Init?
    {
      TransportPacket(drawsB.sessionId, 0,
                      Sealed(WinningKey(), true, 0, TransportPlaintext(Keepalive, KEEPALIVE_PROBE_PAYLOAD)))
    }
  }

  datatype Delivery = FirstOfA | FirstOfB | AnswerToA | AnswerToB | ConfirmationOfA

  /** Both states and the packets that the deliveries so far gave rise to. */
  datatype World = World(
    a: State, b: State, answerToA: Option<Packet>, answerToB: Option<Packet>,
    confirmationOfA: Option<Packet>, confirmationOfB: Option<Packet>)

  function Start(c: Crossing): World {
    World(c.startA, c.startB, None, None, None, None)
  }

  predicate Exists(w: World, d: Delivery) {
    match d
    case FirstOfA => true
    case FirstOfB => true
    case AnswerToA => w.answerToA.Some?
    case AnswerToB => w.answerToB.Some?
    case ConfirmationOfA => w.confirmationOfA.Some?
  }

  /** The response handler of one node: the confirmation, if the response finalizes a pending exchange. */
  ghost function Respond(st: State, packet: Packet, now: Time, sealingWorks: bool): (State, Option<Packet>) {
    if packet.ResponsePacket? && exists p :: PendingMatch(st, p, packet.handshakeId) then
      var p :| PendingMatch(st, p, packet.handshakeId);
      var (after, result) := FinalizeFor(st, p, packet.answer, now, sealingWorks);
      (after, if result.Ok? && result.value.Some? then Some(result.value.value.1) else None)
    else (st, None)
  }

  /** The transport handler of one node: a probe is acknowledged under the session that is active then. */
  ghost function Receive(st: State, packet: Packet, now: Time, sealingWorks: bool): State {
    if !packet.TransportPacket? then st
    else
      var (after, result) := DecryptTransport(st, packet.sessionId, packet.counter, packet.cipher, now);
      if result.Ok? && result.value.Some? && result.value.value.payload == KEEPALIVE_PROBE_PAYLOAD
         && result.value.value.msgType.Keepalive? then
        EncryptForPeer(after, result.value.value.peer, Keepalive, KEEPALIVE_ACK_PAYLOAD, now, sealingWorks).0
      else after
  }

  ghost function Deliver(c: Crossing, w: World, d: Delivery, now: Time): World
    requires c.Valid() && Exists(w, d)
  {
    match d
    case FirstOfA =>
      var (after, answer) := AnswerInit(c.b, w.b, c.passiveB, c.pendingA.handshakeId, c.pendingA.state, now, c.drawsB);
      w.(b := after, answerToA := answer)
    case FirstOfB =>
      var (after, answer) := AnswerInit(c.a, w.a, c.passiveA, c.pendingB.handshakeId, c.pendingB.state, now, c.drawsA);
      w.(a := after, answerToB := answer)
    case AnswerToA =>
      var (after, confirmation) := Respond(w.a, w.answerToA.value, now, c.drawsA.sealingWorks);
      w.(a := after, confirmationOfA := confirmation)
    case AnswerToB =>
      var (after, confirmation) := Respond(w.b, w.answerToB.value, now, c.drawsB.sealingWorks);
      w.(b := after, confirmationOfB := confirmation)
    case ConfirmationOfA => w.(b := Receive(w.b, w.confirmationOfA.value, now, c.drawsB.sealingWorks))
  }

  /** The first `n` deliveries. */
  function Done(order: seq<(Delivery, Time)>, n: nat): set<Delivery>
    requires n <= |order|
  {
    if n == 0 then {} else Done(order, n - 1) + {order[n - 1].0}
  }

  /** An interleaving: each packet at most once, not before it exists, while both attempts are alive. */
  ghost predicate Interleaving(c: Crossing, worlds: seq<World>, order: seq<(Delivery, Time)>)
    requires c.Valid()
  {
    && |worlds| == |order| + 1 && worlds[0] == Start(c)
    && forall i :: 0 <= i < |order| ==> Delivered(c, worlds[i], order, i, worlds[i + 1])
  }

  ghost predicate Delivered(c: Crossing, w: World, order: seq<(Delivery, Time)>, i: nat, next: World)
    requires c.Valid() && i < |order|
  {
    && order[i].0 !in Done(order, i) && c.Live(order[i].1) && Exists(w, order[i].0)
    && next == Deliver(c, w, order[i].0, order[i].1)
  }

  // ---------------------------------------------------------------------------
  // The invariant of every interleaving.
  // ---------------------------------------------------------------------------

  ghost predicate SideA(c: Crossing, w: World, done: set<Delivery>)
    requires c.Valid()
  {
    if AnswerToA !in done then w.a == c.startA && w.answerToB == None && w.confirmationOfA == None
    else
      && HasInstalled(c, w.a)
      && w.confirmationOfA == Some(c.WinningConfirmation())
      && (FirstOfB !in done ==> w.answerToB == None)
      && (w.answerToB == None ==> c.b !in w.a.candidates && c.b !in w.a.cache && !IdInUse(w.a, c.drawsA.sessionId))
  }

  ghost predicate HasInstalled(c: Crossing, a: State)
    requires c.Valid()
  {
    && c.b in a.sessions && a.sessions[c.b].key == c.WinningKey()
    && a.sessions[c.b].id == c.drawsB.sessionId && a.sessions[c.b].isInitiator
    && c.b !in a.pending && c.b !in a.recovery
  }

  ghost predicate SideB(c: Crossing, w: World, done: set<Delivery>)
    requires c.Valid()
  {
    if FirstOfA !in done then w.b == c.startB && w.answerToA == None
    else
      && w.answerToA == Some(c.WinningAnswer())
      && (forall p :: !PendingMatch(w.b, p, c.pendingB.handshakeId))
      && if ConfirmationOfA !in done then Waiting(c, w.b) else Promoted(c, w.b)
  }

  ghost predicate Waiting(c: Crossing, b: State)
    requires c.Valid()
  {
    && Invariant(b) && c.a in b.candidates
    && c.Live(b.candidates[c.a].createdAt)
    && b.candidates[c.a] == NewSession(c.drawsB.sessionId, c.WinningKey(), false, b.candidates[c.a].createdAt)
  }

  ghost predicate Promoted(c: Crossing, b: State)
    requires c.Valid()
  {
    && c.a in b.sessions && b.sessions[c.a].key == c.WinningKey()
    && b.sessions[c.a].id == c.drawsB.sessionId && !b.sessions[c.a].isInitiator
  }

  ghost predicate Phase(c: Crossing, w: World, done: set<Delivery>)
    requires c.Valid()
  {
    && SideA(c, w, done) && SideB(c, w, done)
    && w.confirmationOfB == None
    && (w.answerToB.Some? ==>
        w.answerToB.value.ResponsePacket? && w.answerToB.value.handshakeId == c.pendingB.handshakeId)
    && (AnswerToA in done ==> FirstOfA in done)
    && (ConfirmationOfA in done ==> AnswerToA in done)
  }

  lemma FirstOfAPhase(c: Crossing, w: World, done: set<Delivery>, now: Time)
    requires c.Valid() && Phase(c, w, done) && c.Live(now) && FirstOfA !in done
    ensures Phase(c, Deliver(c, w, FirstOfA, now), done + {FirstOfA})
  {
    AnsweredByB(c, now);
    var after := Deliver(c, w, FirstOfA, now).b;
    forall p ensures !PendingMatch(after, p, c.pendingB.handshakeId) {
      assert PendingMatch(c.startB, p, c.pendingB.handshakeId) ==> p == c.a;
    }
  }

  /** `b` gives way: the smaller identifier stays the initiator. */
  lemma AcceptedByB(c: Crossing, now: Time)
    requires c.Valid() && c.Live(now)
    ensures AcceptInbound(c.startB, c.a, c.pendingA.handshakeId, c.passiveB, now) ==
            (c.startB.(pending := c.startB.pending - {c.a}), true)
  {}

  lemma AnsweredByB(c: Crossing, now: Time)
    requires c.Valid() && c.Live(now)
    ensures var (after, answer) := AnswerInit(c.b, c.startB, c.passiveB, c.pendingA.handshakeId, c.pendingA.state, now,
                                              c.drawsB);
            && answer == Some(c.WinningAnswer())
            && Waiting(c, after)
            && after.pending == c.startB.pending - {c.a}
  {
    var hid, m := c.pendingA.handshakeId, c.pendingA.state;
    AcceptKeepsInvariant(c.startB, c.a, hid, c.passiveB, now);
    AcceptedByB(c, now);
    var accepting := c.startB.(pending := c.startB.pending - {c.a});
    CachedKeepsInvariant(accepting, c.a, hid, m, now);
    NewCandidateWaits(c, CachedResponse(accepting, c.a, hid, m, now).0, now);
  }

  lemma NewCandidateWaits(c: Crossing, st: State, now: Time)
    requires c.Valid() && c.Live(now) && Invariant(st) && c.a !in st.pending && !IdInUse(st, c.drawsB.sessionId)
    ensures var session := NewSession(c.drawsB.sessionId, c.WinningKey(), false, now);
            var (after, stored) :=
              StoreCandidate(st, c.a, session, c.pendingA.handshakeId, c.pendingA.state, c.WinningAnswer(), now);
            stored && Waiting(c, after) && after.pending == st.pending
  {
    var session := NewSession(c.drawsB.sessionId, c.WinningKey(), false, now);
    StoreKeepsInvariant(st, c.a, session, c.pendingA.handshakeId, c.pendingA.state, c.WinningAnswer(), now);
    assert st.pending - {c.a} == st.pending;
  }

  lemma FirstOfBPhase(c: Crossing, w: World, done: set<Delivery>, now: Time)
    requires c.Valid() && Phase(c, w, done) && c.Live(now) && FirstOfB !in done
    ensures Phase(c, Deliver(c, w, FirstOfB, now), done + {FirstOfB})
    ensures Deliver(c, w, FirstOfB, now).answerToB.Some? <==> AnswerToA in done
  {
    if AnswerToA in done {
      LateFirstOfB(c, w.a, now);
    }
  }

  /** `a` has installed its session already, and answers the late message with a candidate. */
  lemma LateFirstOfB(c: Crossing, a: State, now: Time)
    requires c.Valid() && HasInstalled(c, a)
    requires c.b !in a.candidates && c.b !in a.cache && !IdInUse(a, c.drawsA.sessionId)
    ensures var (after, answer) := AnswerInit(c.a, a, c.passiveA, c.pendingB.handshakeId, c.pendingB.state, now,
                                              c.drawsA);
            && answer.Some? && answer.value.ResponsePacket? && answer.value.handshakeId == c.pendingB.handshakeId
            && HasInstalled(c, after)
  {}

  lemma AnswerToAPhase(c: Crossing, w: World, done: set<Delivery>, now: Time)
    requires c.Valid() && Phase(c, w, done) && c.Live(now) && AnswerToA !in done && Exists(w, AnswerToA)
    ensures Phase(c, Deliver(c, w, AnswerToA, now), done + {AnswerToA})
  {
    InstalledByA(c, now);
  }

  lemma InstalledByA(c: Crossing, now: Time)
    requires c.Valid()
    ensures var (after, confirmation) := Respond(c.startA, c.WinningAnswer(), now, true);
            && confirmation == Some(c.WinningConfirmation()) && HasInstalled(c, after)
            && c.b !in after.candidates && c.b !in after.cache && !IdInUse(after, c.drawsA.sessionId)
  {
    assert PendingMatch(c.startA, c.b, c.pendingA.handshakeId);
    var dropped := c.startA.(pending := c.startA.pending - {c.b});
    assert !IdInUse(dropped, c.drawsB.sessionId) && !IdInUse(dropped, c.drawsA.sessionId);
  }

  lemma AnswerToBPhase(c: Crossing, w: World, done: set<Delivery>, now: Time)
    requires c.Valid() && Phase(c, w, done) && AnswerToB !in done && Exists(w, AnswerToB)
    ensures Phase(c, Deliver(c, w, AnswerToB, now), done + {AnswerToB})
  {
    assert Deliver(c, w, AnswerToB, now) == w;
  }

  lemma ConfirmationPhase(c: Crossing, w: World, done: set<Delivery>, now: Time)
    requires c.Valid() && Phase(c, w, done) && c.Live(now) && ConfirmationOfA !in done && Exists(w, ConfirmationOfA)
    ensures Phase(c, Deliver(c, w, ConfirmationOfA, now), done + {ConfirmationOfA})
  {
    PromotedByB(c, w.b, now);
    var after := Receive(w.b, c.WinningConfirmation(), now, c.drawsB.sealingWorks);
    forall p ensures !PendingMatch(after, p, c.pendingB.handshakeId) {
      assert !PendingMatch(w.b, p, c.pendingB.handshakeId);
    }
  }

  lemma PromotedByB(c: Crossing, b: State, now: Time)
    requires c.Valid() && Waiting(c, b) && c.Live(now)
    ensures var after := Receive(b, c.WinningConfirmation(), now, c.drawsB.sealingWorks);
            && Promoted(c, after)
            && (forall p :: p in after.pending ==> p in b.pending && after.pending[p] == b.pending[p])
  {
    DecryptedByB(c, b, now);
    var packet := c.WinningConfirmation();
    var promoted := DecryptTransport(b, packet.sessionId, packet.counter, packet.cipher, now).0;
    AcknowledgedByB(promoted, c.a, now, c.drawsB.sealingWorks);
  }

  /** The confirmation opens under the waiting candidate, which becomes active. */
  lemma DecryptedByB(c: Crossing, b: State, now: Time)
    requires c.Valid() && Waiting(c, b) && c.Live(now)
    ensures var packet := c.WinningConfirmation();
            var (after, result) := DecryptTransport(b, packet.sessionId, packet.counter, packet.cipher, now);
            && result == Ok(Some(Decrypted(c.a, Keepalive, KEEPALIVE_PROBE_PAYLOAD, true)))
            && Promoted(c, after) && !after.sessions[c.a].IsExpired(now)
            && after.pending == b.pending - {c.a}
  {
    DropExpiredKeepsInvariant(b, now);
    var kept, slot := DropExpired(b, now), Candidate(c.a);
    var s := b.candidates[c.a];
    assert !s.IsExpired(now);
    assert Owns(kept, slot, c.drawsB.sessionId);
    OwnerIs(kept, slot, c.drawsB.sessionId);
    ConfirmationOpens(s);
  }

  /** An acknowledgement changes the counter of the session that sends it, and no pending exchange. */
  lemma AcknowledgedByB(st: State, peer: Peer, now: Time, sealingWorks: bool)
    requires peer in st.sessions && !st.sessions[peer].IsExpired(now)
    ensures var after := EncryptForPeer(st, peer, Keepalive, KEEPALIVE_ACK_PAYLOAD, now, sealingWorks).0;
            peer in after.sessions && SameEnd(st.sessions[peer], after.sessions[peer]) && after.pending == st.pending
  {}

  lemma ConfirmationOpens(s: Session)
    requires !s.isInitiator && s.window == EMPTY_WINDOW
    ensures var cipher := Sealed(s.key, true, 0, TransportPlaintext(Keepalive, KEEPALIVE_PROBE_PAYLOAD));
            var (after, result) := s.Decrypt(s.id, 0, cipher);
            result == Ok((Keepalive, KEEPALIVE_PROBE_PAYLOAD)) && SameEnd(s, after)
            && after == s.(window := after.window, receivedMessages := after.receivedMessages)
  {
    PlaintextRoundTrip(TransportPlaintext(Keepalive, KEEPALIVE_PROBE_PAYLOAD), Keepalive, KEEPALIVE_PROBE_PAYLOAD);
  }

  predicate SameEnd(s: Session, t: Session) {
    s.id == t.id && s.key == t.key && s.isInitiator == t.isInitiator
  }

  lemma DeliveryPhase(c: Crossing, w: World, done: set<Delivery>, d: Delivery, now: Time)
    requires c.Valid() && Phase(c, w, done) && c.Live(now) && d !in done && Exists(w, d)
    ensures Phase(c, Deliver(c, w, d, now), done + {d})
    ensures d != FirstOfB ==> Deliver(c, w, d, now).answerToB == w.answerToB
    ensures d == FirstOfB ==> (Deliver(c, w, d, now).answerToB.Some? <==> AnswerToA in done)
  {
    match d
    case FirstOfA => FirstOfAPhase(c, w, done, now);
    case FirstOfB => FirstOfBPhase(c, w, done, now);
    case AnswerToA => AnswerToAPhase(c, w, done, now);
    case AnswerToB => AnswerToBPhase(c, w, done, now);
    case ConfirmationOfA => ConfirmationPhase(c, w, done, now);
  }

  lemma {:induction false} PhaseAt(c: Crossing, worlds: seq<World>, order: seq<(Delivery, Time)>, n: nat)
    requires c.Valid() && Interleaving(c, worlds, order) && n <= |order|
    ensures Phase(c, worlds[n], Done(order, n))
  {
    if n > 0 {
      PhaseAt(c, worlds, order, n - 1);
      assert Delivered(c, worlds[n - 1], order, n - 1, worlds[n]);
      DeliveryPhase(c, worlds[n - 1], Done(order, n - 1), order[n - 1].0, order[n - 1].1);
    }
  }

  // ---------------------------------------------------------------------------
  // What every interleaving ends in.
  // ---------------------------------------------------------------------------

  /**
   Once the winning exchange went through, both sides are active on its session, whatever else was
   delivered and when.
   */
  lemma CrossedInitiationsConverge(c: Crossing, worlds: seq<World>, order: seq<(Delivery, Time)>, n: nat)
    requires c.Valid() && Interleaving(c, worlds, order) && n <= |order|
    requires {FirstOfA, AnswerToA, ConfirmationOfA} <= Done(order, n)
    ensures var a, b := worlds[n].a, worlds[n].b;
            && c.b in a.sessions && c.a in b.sessions
            && a.sessions[c.b].id == b.sessions[c.a].id == c.drawsB.sessionId
            && a.sessions[c.b].key == b.sessions[c.a].key == c.WinningKey()
            && a.sessions[c.b].isInitiator && !b.sessions[c.a].isInitiator
  {
    PhaseAt(c, worlds, order, n);
  }

  /** The exchange with the larger identifier never produces a session at its initiator. */
  lemma LoserInstallsNothing(c: Crossing, worlds: seq<World>, order: seq<(Delivery, Time)>, n: nat)
    requires c.Valid() && Interleaving(c, worlds, order) && n <= |order|
    ensures worlds[n].confirmationOfB == None
  {
    PhaseAt(c, worlds, order, n);
  }

  /** Among the first `n` deliveries, `second` came after `first`. */
  predicate Before(order: seq<(Delivery, Time)>, first: Delivery, second: Delivery, n: nat)
    requires n <= |order|
  {
    n > 0 && (Before(order, first, second, n - 1) || (order[n - 1].0 == second && first in Done(order, n - 1)))
  }

  lemma {:induction false} BeforeMeansDone(order: seq<(Delivery, Time)>, first: Delivery, second: Delivery, n: nat)
    requires n <= |order| && Before(order, first, second, n)
    ensures second in Done(order, n)
  {
    if Before(order, first, second, n - 1) {
      BeforeMeansDone(order, first, second, n - 1);
    }
  }

  /**
   The side with the smaller identifier accepts the other one's first message
   exactly when that arrives after it has finished its own exchange.
   */
  lemma {:induction false} WinnerAcceptsIff(c: Crossing, worlds: seq<World>, order: seq<(Delivery, Time)>, n: nat)
    requires c.Valid() && Interleaving(c, worlds, order) && n <= |order|
    ensures worlds[n].answerToB.Some? <==> Before(order, AnswerToA, FirstOfB, n)
  {
    if n > 0 {
      WinnerAcceptsIff(c, worlds, order, n - 1);
      PhaseAt(c, worlds, order, n - 1);
      var (d, now) := order[n - 1];
      assert Delivered(c, worlds[n - 1], order, n - 1, worlds[n]);
      DeliveryPhase(c, worlds[n - 1], Done(order, n - 1), d, now);
      if Before(order, AnswerToA, FirstOfB, n - 1) {
        BeforeMeansDone(order, AnswerToA, FirstOfB, n - 1);
      }
    }
  }

  /** Two fresh nodes whose first messages cross. */
  lemma FreshCrossing() returns (c: Crossing)
    ensures c.Valid() && c.Live(0)
  {
    var pendingA := NewPending(0, 1, 1, Ephemeral(0, 0), 0);
    var pendingB := NewPending(1, 0, 2, Ephemeral(1, 0), 0);
    c := Crossing(0, 1, EMPTY_STATE.(pending := map[1 := pendingA]), EMPTY_STATE.(pending := map[0 := pendingB]),
                  pendingA, pendingB,
                  Draws(3, 4, Ephemeral(0, 1), true), Draws(5, 6, Ephemeral(1, 1), true), false, false);
  }

  /** So both sides may accept the other's initiation, and do whenever they cross in this order. */
  lemma BothMayAccept(c: Crossing, now: Time) returns (worlds: seq<World>, order: seq<(Delivery, Time)>)
    requires c.Valid() && c.Live(now)
    ensures Interleaving(c, worlds, order) && |order| == 3
    ensures worlds[3].answerToA.Some? && worlds[3].answerToB.Some?
  {
    order := [(FirstOfA, now), (AnswerToA, now), (FirstOfB, now)];
    var w0 := Start(c);
    assert Done(order, 0) == {} && Phase(c, w0, {});
    DeliveryPhase(c, w0, {}, FirstOfA, now);
    var w1 := Deliver(c, w0, FirstOfA, now);
    assert Done(order, 1) == {FirstOfA};
    DeliveryPhase(c, w1, {FirstOfA}, AnswerToA, now);
    var w2 := Deliver(c, w1, AnswerToA, now);
    assert Done(order, 2) == {FirstOfA, AnswerToA};
    DeliveryPhase(c, w2, {FirstOfA, AnswerToA}, FirstOfB, now);
    worlds := [w0, w1, w2, Deliver(c, w2, FirstOfB, now)];
  }
}
