/**
 What a tick does for one peer, read off the state before the tick: who is
 retried, who is recovered and how, and who gets a keepalive; and over runs, that
 keepalives keep their interval and that a silent peer is recovered.
 */
module SchedulerPeers {
  import opened Wrappers
  import opened Wire
  import opened Noise
  import opened Sessions
  import opened Engines
  import opened EngineEffects
  import opened Schedulers
  import opened SchedulerRuns
  import RoutePlan

  // ---------------------------------------------------------------------------
  // Policies.
  // ---------------------------------------------------------------------------

  /**
   The policy of a peer from its options: over UDP a rebind, if one is configured; otherwise a session
   timeout, by default three keepalive intervals but at least fifteen seconds over TCP and none over UDP.
   */
  lemma PolicyOfOptions(options: PeerTiming, transport: TransportConfig)
    ensures var policy :=
              RecoveryPolicyFor(transport, options.udpRebindAfter, EffectiveSessionTimeout(options, transport));
            if transport == Udp && options.udpRebindAfter > 0 then
              policy == Some(RecoveryPolicy(options.udpRebindAfter * 1_000_000_000, true))
            else if options.sessionTimeout.Some? then
              policy == if options.sessionTimeout.value == 0 then None
                        else Some(RecoveryPolicy(options.sessionTimeout.value * 1_000_000_000, false))
            else if transport == Tcp && options.persistentKeepalive > 0 then
              policy == Some(RecoveryPolicy(if options.persistentKeepalive <= 5 then 15_000_000_000
                                            else options.persistentKeepalive * 3_000_000_000, false))
            else policy == None
  {}

  /**
   What the route planner demands of a protected peer is exactly that the scheduler recovers it: with a
   timeout longer than the keepalive interval, and over UDP by a rebind.
   */
  lemma ProtectedPeersRecover(interface: RoutePlan.InterfaceMetadata, route: RoutePlan.RouteMetadata)
    ensures var policy := RecoveryPolicyFor(interface.transport, route.udpRebindAfter, route.sessionTimeout);
            RoutePlan.RecoveryConfigured(interface, route) <==>
              && policy.Some? && policy.value.timeout > route.persistentKeepalive * 1_000_000_000
              && (policy.value.rebindUdp <==> interface.transport == Udp)
  {}

  // ---------------------------------------------------------------------------
  // Retries.
  // ---------------------------------------------------------------------------

  /** What a peer has under way, and its session, are not touched. */
  ghost predicate SamePeer(es: EngineState, after: EngineState, p: Peer) {
    && SameSession(es, after, p)
    && (p in after.st.pending <==> p in es.st.pending)
    && (p in es.st.pending ==> after.st.pending[p] == es.st.pending[p])
  }

  lemma HandshakeKeepsOthers(setup: Setup, es: EngineState, peer: Peer, now: Time, draws: Draws, p: Peer)
    requires setup.Valid() && p != peer
    ensures SamePeer(es, HandshakeFor(setup, es, peer, now, draws).0, p)
    ensures HandshakeFor(setup, es, peer, now, draws).0.stats == es.stats
  {
    if setup.Knows(peer) && ResolveEndpoint(setup, es, peer).Some? {
      StartLeavesOthers(es.st, setup.self, peer, now, draws);
      SameOutside(es.st, StartOrRetry(es.st, setup.self, peer, draws.handshakeId, draws.ephemeral, now).0, peer, p);
    }
  }

  lemma SameOutside(st: State, after: State, peer: Peer, p: Peer)
    requires OthersAsBefore(st, after, peer) && p != peer
    ensures p in after.sessions <==> p in st.sessions
    ensures p in st.sessions ==> after.sessions[p] == st.sessions[p]
    ensures p in after.pending <==> p in st.pending
    ensures p in st.pending ==> after.pending[p] == st.pending[p]
  {
    assert p in after.sessions <==> p in after.sessions - {peer};
    assert p in st.sessions <==> p in st.sessions - {peer};
    assert p in after.pending <==> p in after.pending - {peer};
    assert p in st.pending <==> p in st.pending - {peer};
    if p in st.sessions {
      assert (after.sessions - {peer})[p] == (st.sessions - {peer})[p];
    }
    if p in st.pending {
      assert (after.pending - {peer})[p] == (st.pending - {peer})[p];
    }
  }

  /** A start keeps a live session, and makes none. */
  lemma HandshakeKeepsLive(setup: Setup, es: EngineState, peer: Peer, now: Time, draws: Draws)
    requires setup.Valid()
    ensures HasLiveSession(HandshakeFor(setup, es, peer, now, draws).0.st, peer, now) <==>
            HasLiveSession(es.st, peer, now)
  {
    if setup.Knows(peer) {
      StartKeepsLive(es.st, setup.self, peer, draws.handshakeId, draws.ephemeral, now);
    }
  }

  lemma StartKeepsLive(st: State, self: Node, peer: Peer, handshakeId: Id, ephemeral: Ephemeral, now: Time)
    ensures HasLiveSession(StartOrRetry(st, self, peer, handshakeId, ephemeral, now).0, peer, now) <==>
            HasLiveSession(st, peer, now)
  {
    StartShape(st, self, peer, handshakeId, ephemeral, now);
    if peer in st.sessions {
      LimitsOfSession(st.sessions[peer], now);
    }
  }

  /** The names, in order, of the peers with an exchange under way. */
  function Waiting(peers: seq<ScheduledPeer>, st: State): seq<Peer> {
    if peers == [] then []
    else
      var last := peers[|peers| - 1].name;
      Waiting(peers[..|peers| - 1], st) + if last in st.pending then [last] else []
  }

  lemma {:induction false} RetriesKeepOthers(setup: Setup, peers: seq<ScheduledPeer>, es: EngineState, now: Time,
                                             draws: DrawTable, p: Peer)
    requires setup.Valid()
    ensures Retries(setup, peers, es, now, draws).0.stats == es.stats
    ensures HasLiveSession(Retries(setup, peers, es, now, draws).0.st, p, now) <==> HasLiveSession(es.st, p, now)
    ensures (forall i :: 0 <= i < |peers| ==> peers[i].name != p) ==>
              SamePeer(es, Retries(setup, peers, es, now, draws).0, p)
  {
    if peers != [] {
      var fewer, last := peers[..|peers| - 1], peers[|peers| - 1].name;
      var mid := Retries(setup, fewer, es, now, draws).0;
      RetriesKeepOthers(setup, fewer, es, now, draws, p);
      RetriesKeepOthers(setup, fewer, es, now, draws, last);
      if p != last {
        HandshakeKeepsOthers(setup, mid, last, now, draws(HandshakeRetry, last), p);
      } else {
        HandshakeKeepsLive(setup, mid, last, now, draws(HandshakeRetry, last));
      }
      StatsStay(setup, mid, last, now, draws(HandshakeRetry, last));
    }
  }

  lemma StatsStay(setup: Setup, es: EngineState, peer: Peer, now: Time, draws: Draws)
    requires setup.Valid()
    ensures HandshakeFor(setup, es, peer, now, draws).0.stats == es.stats
  {}

  /** A tick retries exactly the peers with an exchange under way, once each, in order. */
  lemma {:induction false} RetriedAreWaiting(setup: Setup, peers: seq<ScheduledPeer>, es: EngineState, now: Time,
                                             draws: DrawTable)
    requires setup.Valid() && DistinctNames(peers)
    ensures RanFor(Retries(setup, peers, es, now, draws).1, HandshakeRetry) == Waiting(peers, es.st)
  {
    if peers != [] {
      var fewer, last := peers[..|peers| - 1], peers[|peers| - 1].name;
      var (mid, trace) := Retries(setup, fewer, es, now, draws);
      RetriedAreWaiting(setup, fewer, es, now, draws);
      RetriesKeepOthers(setup, fewer, es, now, draws, last);
      var longer := Retries(setup, peers, es, now, draws).1;
      assert last in mid.st.pending ==> longer[..|longer| - 1] == trace;
    }
  }

  /** The retry of an attempt that is five seconds quiet repeats its first message. */
  lemma {:induction false} RetryRepeats(setup: Setup, peers: seq<ScheduledPeer>, es: EngineState, now: Time,
                                        draws: DrawTable, n: nat)
    requires setup.Valid() && DistinctNames(peers) && n < |peers|
    requires var peer := peers[n].name;
             && setup.Knows(peer) && ResolveEndpoint(setup, es, peer).Some?
             && Trying(es.st, peer, now) && now >= es.st.pending[peer].lastSent + 5_000_000_000
    ensures var peer := peers[n].name;
            Ran(HandshakeRetry, peer,
                Ok(EngineOutput([SendTransport(peer, ResolveEndpoint(setup, es, peer).value,
                                               es.st.pending[peer].packet)], [])))
            in Retries(setup, peers, es, now, draws).1
  {
    var fewer, last, peer := peers[..|peers| - 1], peers[|peers| - 1].name, peers[n].name;
    var mid := Retries(setup, fewer, es, now, draws).0;
    if n < |peers| - 1 {
      RetryRepeats(setup, fewer, es, now, draws, n);
    } else {
      RetriesKeepOthers(setup, fewer, es, now, draws, peer);
      ResolvedStays(setup, fewer, es, now, draws);
      HandshakeEffect(setup, mid, peer, now, draws(HandshakeRetry, peer));
    }
  }

  // ---------------------------------------------------------------------------
  // Recovery.
  // ---------------------------------------------------------------------------

  /** The attempt that holds back the recovery of this peer: the last rebind of all, or its own last one. */
  function LastTry(t: Timing, peer: ScheduledPeer): Option<Time>
    requires peer.recovery.Some?
  {
    if peer.recovery.value.rebindUdp then t.lastUdpRebind
    else if peer.name in t.lastRecovery then Some(t.lastRecovery[peer.name]) else None
  }

  /**
   A peer is to be recovered: it has been sent a keepalive, has a live session, and its timeout has passed
   both since the last sign of life and since the last attempt.
   */
  predicate Silent(t: Timing, es: EngineState, peer: ScheduledPeer, now: Time) {
    && peer.recovery.Some? && peer.name in t.lastSent && HasLiveSession(es.st, peer.name, now)
    && peer.name in es.stats && es.stats[peer.name].lastSeen.Some?
    && now >= es.stats[peer.name].lastSeen.value + peer.recovery.value.timeout
    && (LastTry(t, peer).Some? ==> now >= LastTry(t, peer).value + peer.recovery.value.timeout)
  }

  lemma NeedsMeansSilent(t: Timing, es: EngineState, peer: ScheduledPeer, now: Time)
    requires peer.recovery.Some? ==> peer.recovery.value.timeout > 0
    ensures NeedsRecovery(t, es, peer, now) <==> Silent(t, es, peer, now)
  {
    if peer.name in es.st.sessions {
      LimitsOfSession(es.st.sessions[peer.name], now);
    }
    if peer.recovery.Some? && peer.name in es.stats && es.stats[peer.name].lastSeen.Some? {
      DueMeansSilent(now, es.stats[peer.name].lastSeen.value, LastAttempt(t, peer), peer.recovery.value.timeout);
    }
  }

  lemma RetriesKeepSilent(setup: Setup, k: Tick, peer: ScheduledPeer)
    requires setup.Valid() && (peer.recovery.Some? ==> peer.recovery.value.timeout > 0)
    ensures NeedsRecovery(k.timing, Retried(setup, k), peer, k.now) <==> Silent(k.timing, k.before, peer, k.now)
  {
    NeedsMeansSilent(k.timing, Retried(setup, k), peer, k.now);
    RetriesKeepOthers(setup, k.peers, k.before, k.now, k.draws, peer.name);
  }

  /** A tick recovers the first peer that is silent, and nobody exactly when no peer is. */
  lemma FirstSilentIsRecovered(setup: Setup, k: Tick)
    requires setup.Valid() && PositiveTimeouts(k.peers)
    ensures RecoveredPeer(setup, k).Some? <==>
            exists i :: 0 <= i < |k.peers| && Silent(k.timing, k.before, k.peers[i], k.now)
    ensures RecoveredPeer(setup, k).Some? ==>
              exists i :: 0 <= i < |k.peers| && RecoveredPeer(setup, k).value == k.peers[i]
                          && Silent(k.timing, k.before, k.peers[i], k.now)
                          && forall j :: 0 <= j < i ==> !Silent(k.timing, k.before, k.peers[j], k.now)
  {
    forall i | 0 <= i < |k.peers|
      ensures NeedsRecovery(k.timing, Retried(setup, k), k.peers[i], k.now) <==>
              Silent(k.timing, k.before, k.peers[i], k.now)
    {
      assert k.peers[i] in k.peers;
      RetriesKeepSilent(setup, k, k.peers[i]);
    }
  }

  /**
   What a recovery does: the socket is rebound first, if that is the policy; everything of the peer is given
   up; and a new first message goes to its endpoint. The report tells how long the peer was silent.
   */
  lemma RecoveryEffect(setup: Setup, k: Tick)
    requires setup.Valid() && RecoveredPeer(setup, k).Some?
    ensures var name := RecoveredPeer(setup, k).value.name;
            name in k.before.stats && k.before.stats[name].lastSeen.Some?
    ensures var peer := RecoveredPeer(setup, k).value;
            var part := RecoveryPart(setup, k);
            var silence := k.now - k.before.stats[peer.name].lastSeen.value;
            var rebind := peer.recovery.value.rebindUdp;
            && part.rebound == (rebind && k.rebindWorks)
            && |part.trace| == (if rebind then 3 else 2)
            && (rebind && k.now >= k.before.stats[peer.name].lastSeen.value ==>
                  part.trace[0] == Rebind(peer.name, silence, k.rebindWorks))
            && part.timing == (if rebind then k.timing.(lastUdpRebind := Some(k.now))
                               else k.timing.(lastRecovery := k.timing.lastRecovery[peer.name := k.now]))
            && (k.now >= k.before.stats[peer.name].lastSeen.value ==>
                  part.trace[|part.trace| - 1] == Recovery(peer.name, silence, rebind, rebind && k.rebindWorks, true))
            && peer.name !in part.es.st.sessions && peer.name in part.es.st.recovery
  {
    var peer := RecoveredPeer(setup, k).value;
    RetriesKeepOthers(setup, k.peers, k.before, k.now, k.draws, peer.name);
    var retried := Retried(setup, k);
    var forgotten := retried.(st := Invalidate(retried.st, peer.name).0);
    HandshakeKeepsLive(setup, forgotten, peer.name, k.now, k.draws(SessionRecovery, peer.name));
    RecoveredIsGone(setup, forgotten, peer.name, k.now, k.draws(SessionRecovery, peer.name));
  }

  lemma RecoveredIsGone(setup: Setup, es: EngineState, peer: Peer, now: Time, draws: Draws)
    requires setup.Valid() && peer !in es.st.sessions && peer in es.st.recovery
    ensures var after := HandshakeFor(setup, es, peer, now, draws).0;
            peer !in after.st.sessions && peer in after.st.recovery
  {
    StartShape(es.st, setup.self, peer, draws.handshakeId, draws.ephemeral, now);
  }

  /** The replacement handshake of a recovery: a new first message to the endpoint of the peer. */
  lemma RecoverySendsFirstMessage(setup: Setup, k: Tick)
    requires setup.Valid() && RecoveredPeer(setup, k).Some?
    requires var name := RecoveredPeer(setup, k).value.name;
             setup.Knows(name) && ResolveEndpoint(setup, k.before, name).Some?
    ensures var name, trace := RecoveredPeer(setup, k).value.name, RecoveryPart(setup, k).trace;
            && |trace| >= 2
            && trace[|trace| - 2] ==
                 Ran(SessionRecovery, name, Ok(EngineOutput(
                   [SendTransport(name, ResolveEndpoint(setup, k.before, name).value,
                                  FirstMessage(setup.self, name, k.draws(SessionRecovery, name)))], [])))
  {
    var name, retried := RecoveredPeer(setup, k).value.name, Retried(setup, k);
    ResolvedStays(setup, k.peers, k.before, k.now, k.draws);
    HandshakeEffect(setup, retried.(st := Invalidate(retried.st, name).0), name, k.now,
                    k.draws(SessionRecovery, name));
  }

  lemma {:induction false} ResolvedStays(setup: Setup, peers: seq<ScheduledPeer>, es: EngineState, now: Time,
                                         draws: DrawTable)
    requires setup.Valid()
    ensures Retries(setup, peers, es, now, draws).0.resolved == es.resolved
    ensures Retries(setup, peers, es, now, draws).0.stats == es.stats
  {
    if peers != [] {
      ResolvedStays(setup, peers[..|peers| - 1], es, now, draws);
    }
  }

  // ---------------------------------------------------------------------------
  // Keepalives of one tick, from the state before it.
  // ---------------------------------------------------------------------------

  /** Recovery takes the session of the peer that is recovered, and no other. */
  lemma RecoveryTakesOne(setup: Setup, k: Tick, p: Peer)
    requires setup.Valid()
    ensures HasLiveSession(RecoveryPart(setup, k).es.st, p, k.now) <==>
            HasLiveSession(k.before.st, p, k.now) && !RecoversPeer(setup, k, p)
    ensures RecoveryPart(setup, k).timing.lastSent == k.timing.lastSent
  {
    RetriesKeepOthers(setup, k.peers, k.before, k.now, k.draws, p);
    if RecoveredPeer(setup, k).Some? {
      var peer, retried := RecoveredPeer(setup, k).value.name, Retried(setup, k);
      var forgotten := retried.(st := Invalidate(retried.st, peer).0);
      if p == peer {
        HandshakeKeepsLive(setup, forgotten, peer, k.now, k.draws(SessionRecovery, peer));
      } else {
        HandshakeKeepsOthers(setup, forgotten, peer, k.now, k.draws(SessionRecovery, peer), p);
      }
    }
  }

  /** The peer gets a keepalive in this tick. */
  ghost predicate SentTo(setup: Setup, k: Tick, peer: Peer)
    requires setup.Valid()
  {
    peer in RanFor(KeepalivePart(setup, k), KeepaliveSend)
  }

  /** The peer has a live session in this tick that is not given up in it. */
  ghost predicate StaysLive(setup: Setup, k: Tick, peer: Peer)
    requires setup.Valid()
  {
    HasLiveSession(k.before.st, peer, k.now) && !RecoversPeer(setup, k, peer)
  }

  /** A tick sends to a peer, and remembers that, as the time remembered before the tick and its session say. */
  lemma TickOfPeer(setup: Setup, k: Tick, n: nat)
    requires setup.Valid() && DistinctNames(k.peers) && n < |k.peers|
    ensures var peer, before := k.peers[n], LastSentTo(k.timing.lastSent, k.peers[n].name);
            var rebound := RecoveryPart(setup, k).rebound;
            && (SentTo(setup, k, peer.name) <==> Sends(peer, before, k.now, rebound))
            && LastSentTo(After(setup, k).timing.lastSent, peer.name) ==
               Remembered(peer, before, k.now, rebound, StaysLive(setup, k, peer.name))
  {
    RecoveryTakesOne(setup, k, k.peers[n].name);
    var recovered := RecoveryPart(setup, k);
    TurnOfPeer(setup, k.peers, recovered.es, recovered.timing.lastSent, k.now, recovered.rebound, k.draws, n);
  }

  /** What was learned and resolved stays as it is while keepalives are sent. */
  lemma {:induction false} EndpointsStay(setup: Setup, peers: seq<ScheduledPeer>, es: EngineState,
                                         sent: map<Peer, Time>, now: Time, rebound: bool, draws: DrawTable)
    requires setup.Valid()
    ensures var after := Keepalives(setup, peers, es, sent, now, rebound, draws).0;
            after.stats == es.stats && after.resolved == es.resolved
  {
    if peers != [] {
      EndpointsStay(setup, peers[..|peers| - 1], es, sent, now, rebound, draws);
    }
  }

  /** The entry is a keepalive for this peer that is sealed under the session: a probe if the peer has recovery. */
  predicate SealedKeepalive(e: Entry, peer: ScheduledPeer, endpoint: SocketAddress, s: Session) {
    && e.Ran? && e.operation == KeepaliveSend && e.peer == peer.name && e.result.Ok? && s.sendCounter < U64_MAX
    && var actions := e.result.value.actions;
       actions != [] && actions[|actions| - 1] ==
         SendTransport(peer.name, endpoint, Payload(s, Keepalive, if peer.recovery.Some? then [0x01] else []))
  }

  /** The peer can be sent a sealed packet. */
  ghost predicate Reachable(setup: Setup, es: EngineState, peer: Peer, now: Time)
    requires setup.Valid()
  {
    setup.Knows(peer) && ResolveEndpoint(setup, es, peer).Some? && HasLiveSession(es.st, peer, now)
  }

  lemma OneKeepalive(setup: Setup, es: EngineState, peer: ScheduledPeer, sent: map<Peer, Time>, now: Time,
                     rebound: bool, draws: DrawTable)
    requires setup.Valid() && Reachable(setup, es, peer.name, now) && draws(KeepaliveSend, peer.name).sealingWorks
    requires Sends(peer, LastSentTo(sent, peer.name), now, rebound)
    ensures var trace := KeepaliveOne(setup, peer, es, sent, now, rebound, draws).2;
            |trace| == 1
            && SealedKeepalive(trace[0], peer, ResolveEndpoint(setup, es, peer.name).value, es.st.sessions[peer.name])
  {
    SealEffect(setup, es, peer.name, Keepalive, if peer.recovery.Some? then [0x01] else [], now,
               draws(KeepaliveSend, peer.name));
  }

  /** The keepalive of a peer with a live session is sealed under it, whatever was sent to others before. */
  lemma {:induction false} KeepaliveIsSealed(setup: Setup, peers: seq<ScheduledPeer>, es: EngineState,
                                             sent: map<Peer, Time>, now: Time, rebound: bool, draws: DrawTable, n: nat)
    requires setup.Valid() && DistinctNames(peers) && n < |peers|
    requires Reachable(setup, es, peers[n].name, now) && draws(KeepaliveSend, peers[n].name).sealingWorks
    requires Sends(peers[n], LastSentTo(sent, peers[n].name), now, rebound)
    ensures exists e :: e in Keepalives(setup, peers, es, sent, now, rebound, draws).2
                        && SealedKeepalive(e, peers[n], ResolveEndpoint(setup, es, peers[n].name).value,
                                           es.st.sessions[peers[n].name])
  {
    var fewer, peer := peers[..|peers| - 1], peers[n];
    var (mid, times, trace) := Keepalives(setup, fewer, es, sent, now, rebound, draws);
    var longer := Keepalives(setup, peers, es, sent, now, rebound, draws).2;
    assert trace <= longer;
    if n < |peers| - 1 {
      KeepaliveIsSealed(setup, fewer, es, sent, now, rebound, draws, n);
      var e :| e in trace && SealedKeepalive(e, peer, ResolveEndpoint(setup, es, peer.name).value,
                                             es.st.sessions[peer.name]);
      assert e in longer;
    } else {
      OthersKeepTheirTime(setup, fewer, es, sent, now, rebound, draws, peer.name);
      EndpointsStay(setup, fewer, es, sent, now, rebound, draws);
      OneKeepalive(setup, mid, peer, times, now, rebound, draws);
      assert longer[|trace|] in longer;
    }
  }

  // ---------------------------------------------------------------------------
  // Runs.
  // ---------------------------------------------------------------------------

  /** From tick `i` to tick `j` the peers are the same and time does not go back. */
  ghost predicate Steady(setup: Setup, ticks: seq<Tick>, i: nat, j: nat)
    requires setup.Valid()
  {
    && Ticking(setup, ticks) && i <= j < |ticks| && DistinctNames(ticks[i].peers)
    && forall k :: i <= k <= j ==> ticks[k].peers == ticks[i].peers && ticks[i].now <= ticks[k].now
  }

  /**
   Two periodic keepalives to one peer are its interval apart, if it had a live session at the first or
   needs no recovery.
   */
  lemma PeriodicKeepalivesArePaced(setup: Setup, ticks: seq<Tick>, i: nat, j: nat, n: nat)
    requires setup.Valid() && Steady(setup, ticks, i, j) && i < j && n < |ticks[i].peers|
    requires SentTo(setup, ticks[i], ticks[i].peers[n].name)
    requires StaysLive(setup, ticks[i], ticks[i].peers[n].name) || ticks[i].peers[n].recovery.None?
    requires SentTo(setup, ticks[j], ticks[i].peers[n].name) && !RecoveryPart(setup, ticks[j]).rebound
    ensures ticks[j].now >= ticks[i].now + ticks[i].peers[n].persistentKeepalive
  {
    TickOfPeer(setup, ticks[i], n);
    KeepalivesArePaced(setup, ticks, i, j, n);
  }

  lemma {:induction false} SendIsRemembered(setup: Setup, ticks: seq<Tick>, i: nat, j: nat, n: nat)
    requires setup.Valid() && Steady(setup, ticks, i, j) && i < j && n < |ticks[i].peers|
    requires SentTo(setup, ticks[i], ticks[i].peers[n].name)
    requires StaysLive(setup, ticks[i], ticks[i].peers[n].name)
    ensures ticks[i].peers[n].name in ticks[j].timing.lastSent
  {
    TickOfPeer(setup, ticks[i], n);
    SentIsRemembered(setup, ticks, i, j - 1, n);
  }

  /** The tick makes an attempt that holds back the recovery of this peer. */
  ghost predicate Tries(setup: Setup, k: Tick, peer: ScheduledPeer)
    requires setup.Valid() && peer.recovery.Some?
  {
    && RecoveredPeer(setup, k).Some?
    && var recovered := RecoveredPeer(setup, k).value;
       if peer.recovery.value.rebindUdp then recovered.recovery.value.rebindUdp
       else recovered.name == peer.name && !recovered.recovery.value.rebindUdp
  }

  lemma TryIsNoted(setup: Setup, k: Tick, peer: ScheduledPeer)
    requires setup.Valid() && peer.recovery.Some?
    ensures LastTry(After(setup, k).timing, peer) ==
            if Tries(setup, k, peer) then Some(k.now) else LastTry(k.timing, peer)
  {}

  /** The last attempt that is remembered was made by an earlier tick. */
  lemma {:induction false} TryWasMade(setup: Setup, ticks: seq<Tick>, j: nat, peer: ScheduledPeer) returns (t: nat)
    requires setup.Valid() && Ticking(setup, ticks) && j < |ticks| && peer.recovery.Some?
    requires ticks[0].timing == Timing(map[], None, map[]) && LastTry(ticks[j].timing, peer).Some?
    ensures t < j && Tries(setup, ticks[t], peer) && LastTry(ticks[j].timing, peer) == Some(ticks[t].now)
  {
    TryIsNoted(setup, ticks[j - 1], peer);
    if Tries(setup, ticks[j - 1], peer) {
      t := j - 1;
    } else {
      t := TryWasMade(setup, ticks, j - 1, peer);
    }
  }

  /**
   A peer that was sent a keepalive under a live session, and has been silent for its timeout since the
   last sign of life and since every attempt that holds it back, is recovered in the next tick, unless a
   peer before it is.
   */
  lemma SilentPeerIsRecovered(setup: Setup, ticks: seq<Tick>, i: nat, j: nat, n: nat) returns (m: nat)
    requires setup.Valid() && Steady(setup, ticks, i, j) && i < j && n < |ticks[i].peers|
    requires ticks[0].timing == Timing(map[], None, map[])
    requires var peer := ticks[i].peers[n];
             && peer.recovery.Some?
             && SentTo(setup, ticks[i], peer.name) && StaysLive(setup, ticks[i], peer.name)
             && HasLiveSession(ticks[j].before.st, peer.name, ticks[j].now)
             && peer.name in ticks[j].before.stats && ticks[j].before.stats[peer.name].lastSeen.Some?
             && ticks[j].now >= ticks[j].before.stats[peer.name].lastSeen.value + peer.recovery.value.timeout
             && forall t :: 0 <= t < j && Tries(setup, ticks[t], peer) ==>
                  ticks[j].now >= ticks[t].now + peer.recovery.value.timeout
    ensures m <= n && RecoveredPeer(setup, ticks[j]) == Some(ticks[i].peers[m])
  {
    var peer, k := ticks[i].peers[n], ticks[j];
    SendIsRemembered(setup, ticks, i, j, n);
    if LastTry(k.timing, peer).Some? {
      var t := TryWasMade(setup, ticks, j, peer);
    }
    assert Silent(k.timing, k.before, k.peers[n], k.now);
    FirstSilentIsRecovered(setup, k);
    m :| 0 <= m < |k.peers| && RecoveredPeer(setup, k).value == k.peers[m]
         && forall l :: 0 <= l < m ==> !Silent(k.timing, k.before, k.peers[l], k.now);
  }

  // ---------------------------------------------------------------------------
  // The report.
  // ---------------------------------------------------------------------------

  /** Every engine call of a trace is reported once: its output, or its error. */
  lemma {:induction false} EverythingIsReported(trace: seq<Entry>, e: Entry)
    ensures e.Ran? && e.result.Ok? && e in trace ==> ScheduledOutput(e.operation, e.result.value) in Outputs(trace)
    ensures e.Ran? && e.result.Err? && e in trace ==>
              SchedulerError(e.peer, e.operation, e.result.error) in Errors(trace)
    ensures e.Recovery? ==> (e in trace <==> e in Events(trace))
    ensures forall o :: o in Outputs(trace) ==>
              exists f :: f in trace && f.Ran? && f.operation == o.operation && f.result == Ok(o.output)
    ensures forall o :: o in Errors(trace) ==>
              exists f :: f in trace && f.Ran? && f.operation == o.operation && f.peer == o.peer
                          && f.result == Err(o.error)
  {
    if trace != [] {
      EverythingIsReported(trace[..|trace| - 1], e);
      assert trace == trace[..|trace| - 1] + [trace[|trace| - 1]];
    }
  }

  /** The report keeps the order of the trace. */
  lemma {:induction false} ReportInOrder(a: seq<Entry>, b: seq<Entry>)
    ensures Outputs(a + b) == Outputs(a) + Outputs(b)
    ensures Errors(a + b) == Errors(a) + Errors(b)
    ensures Events(a + b) == Events(a) + Events(b)
  {
    if b == [] {
      assert a + b == a;
    } else {
      var front, last := b[..|b| - 1], b[|b| - 1];
      ReportInOrder(a, front);
      assert b == front + [last] && a + b == (a + front) + [last];
      ReportOfLast(front, last);
      ReportOfLast(a + front, last);
    }
  }

  lemma ReportOfLast(trace: seq<Entry>, e: Entry)
    ensures Outputs(trace + [e]) ==
            Outputs(trace) + if e.Ran? && e.result.Ok? then [ScheduledOutput(e.operation, e.result.value)] else []
    ensures Errors(trace + [e]) ==
            Errors(trace)
            + if e.Ran? && e.result.Err? then [SchedulerError(e.peer, e.operation, e.result.error)] else []
    ensures Events(trace + [e]) == Events(trace) + if e.Recovery? then [e] else []
  {
    assert (trace + [e])[..|trace + [e]| - 1] == trace;
  }
}
