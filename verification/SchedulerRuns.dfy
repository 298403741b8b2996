/**
 Whole runs of the scheduler: how often it recovers, how far rebinds are apart,
 what must lie between two recoveries of one peer, and what a rebind is followed by.
 */
module SchedulerRuns {
  import opened Wrappers
  import opened Wire
  import opened Noise
  import opened Sessions
  import opened Engines
  import opened EngineEffects
  import opened Schedulers

  // ---------------------------------------------------------------------------
  // One tick.
  // ---------------------------------------------------------------------------

  /** The three parts of a tick's trace, in order. */
  ghost function RetryPart(setup: Setup, k: Tick): seq<Entry>
    requires setup.Valid()
  {
    Retries(setup, k.peers, k.before, k.now, k.draws).1
  }

  ghost function Retried(setup: Setup, k: Tick): EngineState
    requires setup.Valid()
  {
    Retries(setup, k.peers, k.before, k.now, k.draws).0
  }

  ghost function RecoveryPart(setup: Setup, k: Tick): Recovered
    requires setup.Valid()
  {
    RecoverFirst(setup, k.peers, Retried(setup, k), k.timing, k.now, k.rebindWorks, k.draws)
  }

  ghost function KeepalivePart(setup: Setup, k: Tick): seq<Entry>
    requires setup.Valid()
  {
    var recovered := RecoveryPart(setup, k);
    Keepalives(setup, k.peers, recovered.es, recovered.timing.lastSent, k.now, recovered.rebound, k.draws).2
  }

  /** The inputs of one call of `Tick`. */
  datatype Tick = Tick(peers: seq<ScheduledPeer>, before: EngineState, timing: Timing, now: Time, rebindWorks: bool,
                       draws: DrawTable)

  ghost function After(setup: Setup, k: Tick): Ticked
    requires setup.Valid()
  {
    TickOf(setup, k.peers, k.before, k.timing, k.now, k.rebindWorks, k.draws)
  }

  /** The peer that the tick recovers, if it recovers one. */
  ghost function RecoveredPeer(setup: Setup, k: Tick): Option<ScheduledPeer>
    requires setup.Valid()
  {
    var i := FirstDue(k.peers, k.timing, Retried(setup, k), k.now, 0);
    if i < |k.peers| then Some(k.peers[i]) else None
  }

  /** The peers for which the trace runs this operation, in order. */
  function RanFor(trace: seq<Entry>, operation: ScheduledOperation): seq<Peer> {
    if trace == [] then []
    else
      var e := trace[|trace| - 1];
      RanFor(trace[..|trace| - 1], operation) + if e.Ran? && e.operation == operation then [e.peer] else []
  }

  lemma {:induction false} RanForSum(a: seq<Entry>, b: seq<Entry>, operation: ScheduledOperation)
    ensures RanFor(a + b, operation) == RanFor(a, operation) + RanFor(b, operation)
  {
    if b == [] {
      assert a + b == a;
    } else {
      RanForSum(a, b[..|b| - 1], operation);
      assert (a + b)[..|a + b| - 1] == a + b[..|b| - 1];
    }
  }

  /** Every entry of the trace runs this operation. */
  ghost predicate Only(trace: seq<Entry>, operation: ScheduledOperation) {
    forall e :: e in trace ==> e.Ran? && e.operation == operation
  }

  lemma {:induction false} OnlyMeansNoOther(trace: seq<Entry>, operation: ScheduledOperation, other: ScheduledOperation)
    requires Only(trace, operation) && other != operation
    ensures RanFor(trace, other) == []
  {
    if trace != [] {
      OnlyMeansNoOther(trace[..|trace| - 1], operation, other);
      assert trace[|trace| - 1] in trace;
    }
  }

  lemma {:induction false} RetriesOnly(setup: Setup, peers: seq<ScheduledPeer>, es: EngineState, now: Time,
                                       draws: DrawTable)
    requires setup.Valid()
    ensures Only(Retries(setup, peers, es, now, draws).1, HandshakeRetry)
  {
    if peers != [] {
      RetriesOnly(setup, peers[..|peers| - 1], es, now, draws);
    }
  }

  lemma {:induction false} KeepalivesOnly(setup: Setup, peers: seq<ScheduledPeer>, es: EngineState,
                                          sent: map<Peer, Time>, now: Time, rebound: bool, draws: DrawTable)
    requires setup.Valid()
    ensures Only(Keepalives(setup, peers, es, sent, now, rebound, draws).2, KeepaliveSend)
  {
    if peers != [] {
      KeepalivesOnly(setup, peers[..|peers| - 1], es, sent, now, rebound, draws);
    }
  }

  lemma TraceParts(setup: Setup, k: Tick)
    requires setup.Valid()
    ensures After(setup, k).trace == RetryPart(setup, k) + RecoveryPart(setup, k).trace + KeepalivePart(setup, k)
    ensures Only(RetryPart(setup, k), HandshakeRetry) && Only(KeepalivePart(setup, k), KeepaliveSend)
  {
    RetriesOnly(setup, k.peers, k.before, k.now, k.draws);
    var recovered := RecoveryPart(setup, k);
    KeepalivesOnly(setup, k.peers, recovered.es, recovered.timing.lastSent, k.now, recovered.rebound, k.draws);
  }

  /** What a recovery looks like: the rebind if there is one, the replacement handshake, the event. */
  ghost predicate RecoveryShape(recovery: seq<Entry>, peer: Option<ScheduledPeer>) {
    match peer
    case None => recovery == []
    case Some(p) =>
      && p.recovery.Some?
      && var n := if p.recovery.value.rebindUdp then 1 else 0;
         && |recovery| == n + 2
         && (n == 1 ==> recovery[0].Rebind? && recovery[0].peer == p.name)
         && recovery[n].Ran? && recovery[n].operation == SessionRecovery && recovery[n].peer == p.name
         && recovery[n + 1].Recovery?
  }

  lemma RecoveryHasShape(setup: Setup, k: Tick)
    requires setup.Valid()
    ensures RecoveryShape(RecoveryPart(setup, k).trace, RecoveredPeer(setup, k))
    ensures RecoveryPart(setup, k).rebound ==>
              RecoveredPeer(setup, k).Some? && RecoveredPeer(setup, k).value.recovery.value.rebindUdp
              && RecoveryPart(setup, k).trace[0].succeeded
  {}

  lemma RanForOfShape(recovery: seq<Entry>, peer: Option<ScheduledPeer>)
    requires RecoveryShape(recovery, peer)
    ensures RanFor(recovery, SessionRecovery) == if peer.Some? then [peer.value.name] else []
    ensures RanFor(recovery, KeepaliveSend) == []
  {
    if peer.Some? {
      var n := |recovery| - 2;
      assert recovery == recovery[..n] + ([recovery[n]] + [recovery[n + 1]]);
      assert n == 1 ==> recovery[..n] == [recovery[0]];
      forall operation | operation == SessionRecovery || operation == KeepaliveSend
        ensures RanFor(recovery, operation) == if operation == SessionRecovery then [peer.value.name] else []
      {
        RanForSum(recovery[..n], [recovery[n]] + [recovery[n + 1]], operation);
        RanForSum([recovery[n]], [recovery[n + 1]], operation);
        RanForOne(recovery[n], operation);
        RanForOne(recovery[n + 1], operation);
        RanForOne(recovery[0], operation);
      }
    }
  }

  lemma RanForOne(e: Entry, operation: ScheduledOperation)
    ensures RanFor([e], operation) == if e.Ran? && e.operation == operation then [e.peer] else []
  {
    assert [e][..|[e]| - 1] == [];
  }

  /** At most one recovery per tick, and it is that of the first peer that needs one. */
  lemma AtMostOneRecovery(setup: Setup, k: Tick)
    requires setup.Valid()
    ensures RanFor(After(setup, k).trace, SessionRecovery) ==
            if RecoveredPeer(setup, k).Some? then [RecoveredPeer(setup, k).value.name] else []
  {
    TraceParts(setup, k);
    RecoveryHasShape(setup, k);
    RanForParts(RetryPart(setup, k), RecoveryPart(setup, k).trace, KeepalivePart(setup, k), RecoveredPeer(setup, k));
  }

  lemma RanForParts(retries: seq<Entry>, recovery: seq<Entry>, keepalives: seq<Entry>, peer: Option<ScheduledPeer>)
    requires Only(retries, HandshakeRetry) && RecoveryShape(recovery, peer) && Only(keepalives, KeepaliveSend)
    ensures RanFor(retries + recovery + keepalives, SessionRecovery) == if peer.Some? then [peer.value.name] else []
    ensures RanFor(retries + recovery + keepalives, KeepaliveSend) == RanFor(keepalives, KeepaliveSend)
  {
    RanForOfShape(recovery, peer);
    RanForThree(retries, recovery, keepalives, SessionRecovery);
    RanForThree(retries, recovery, keepalives, KeepaliveSend);
    OnlyMeansNoOther(retries, HandshakeRetry, SessionRecovery);
    OnlyMeansNoOther(retries, HandshakeRetry, KeepaliveSend);
    OnlyMeansNoOther(keepalives, KeepaliveSend, SessionRecovery);
  }

  lemma RanForThree(a: seq<Entry>, b: seq<Entry>, c: seq<Entry>, operation: ScheduledOperation)
    ensures RanFor(a + b + c, operation) == RanFor(a, operation) + RanFor(b, operation) + RanFor(c, operation)
  {
    RanForSum(a + b, c, operation);
    RanForSum(a, b, operation);
  }

  // ---------------------------------------------------------------------------
  // After a successful rebind.
  // ---------------------------------------------------------------------------

  function Names(peers: seq<ScheduledPeer>): (names: seq<Peer>)
    ensures |names| == |peers| && forall i :: 0 <= i < |peers| ==> names[i] == peers[i].name
  {
    seq(|peers|, i requires 0 <= i < |peers| => peers[i].name)
  }

  lemma {:induction false} EveryoneIsSent(setup: Setup, peers: seq<ScheduledPeer>, es: EngineState,
                                          sent: map<Peer, Time>, now: Time, draws: DrawTable)
    requires setup.Valid()
    ensures RanFor(Keepalives(setup, peers, es, sent, now, true, draws).2, KeepaliveSend) == Names(peers)
  {
    if peers != [] {
      var fewer := peers[..|peers| - 1];
      EveryoneIsSent(setup, fewer, es, sent, now, draws);
      var trace := Keepalives(setup, fewer, es, sent, now, true, draws).2;
      var longer := Keepalives(setup, peers, es, sent, now, true, draws).2;
      assert longer[..|longer| - 1] == trace;
      assert Names(peers) == Names(fewer) + [peers[|peers| - 1].name];
    }
  }

  /**
   At `r` the socket is rebound, right before the replacement handshake; no other rebind, and every
   keepalive later.
   */
  ghost predicate RebindComesFirst(trace: seq<Entry>, r: nat) {
    && r + 1 < |trace|
    && trace[r].Rebind? && trace[r].succeeded
    && trace[r + 1].Ran? && trace[r + 1].operation == SessionRecovery && trace[r + 1].peer == trace[r].peer
    && (forall j :: 0 <= j < |trace| && trace[j].Ran? && trace[j].operation == KeepaliveSend ==> j > r + 1)
    && (forall j :: 0 <= j < |trace| && trace[j].Rebind? ==> j == r)
  }

  /**
   After a successful rebind every peer gets exactly one keepalive operation in
   the same tick; the rebind comes right before the replacement handshake, and
   both come before the first keepalive.
   */
  lemma RebindReachesEveryone(setup: Setup, k: Tick)
    requires setup.Valid() && RecoveryPart(setup, k).rebound
    ensures RanFor(After(setup, k).trace, KeepaliveSend) == Names(k.peers)
    ensures RebindComesFirst(After(setup, k).trace, |RetryPart(setup, k)|)
  {
    TraceParts(setup, k);
    RecoveryHasShape(setup, k);
    var recovered := RecoveryPart(setup, k);
    EveryoneIsSent(setup, k.peers, recovered.es, recovered.timing.lastSent, k.now, k.draws);
    RanForParts(RetryPart(setup, k), recovered.trace, KeepalivePart(setup, k), RecoveredPeer(setup, k));
    PositionsOfParts(RetryPart(setup, k), recovered.trace, KeepalivePart(setup, k), RecoveredPeer(setup, k).value);
  }

  lemma PositionsOfParts(retries: seq<Entry>, recovery: seq<Entry>, keepalives: seq<Entry>, peer: ScheduledPeer)
    requires Only(retries, HandshakeRetry) && RecoveryShape(recovery, Some(peer)) && Only(keepalives, KeepaliveSend)
    requires peer.recovery.value.rebindUdp && recovery[0].succeeded
    ensures RebindComesFirst(retries + recovery + keepalives, |retries|)
  {
    var trace := retries + recovery + keepalives;
    forall j | 0 <= j < |retries| ensures trace[j] in retries {}
    forall j | |retries| + 3 <= j < |trace| ensures trace[j] in keepalives {}
  }

  // ---------------------------------------------------------------------------
  // A tick installs no session.
  // ---------------------------------------------------------------------------

  ghost predicate NoneInstalled(es: EngineState, after: EngineState) {
    forall p :: p in after.st.sessions ==> p in es.st.sessions && after.st.sessions[p].id == es.st.sessions[p].id
  }

  lemma StartInstallsNone(st: State, self: Node, peer: Peer, handshakeId: Id, ephemeral: Ephemeral, now: Time)
    ensures var after := StartOrRetry(st, self, peer, handshakeId, ephemeral, now).0;
            after.sessions == st.sessions || after.sessions == st.sessions - {peer}
  {
    StartShape(st, self, peer, handshakeId, ephemeral, now);
    ReadyInstallsNone(DropStalePending(st, peer, now), peer, now);
  }

  lemma ReadyInstallsNone(st: State, peer: Peer, now: Time)
    ensures var after := ReadyToStart(st, peer, now);
            after.sessions == st.sessions || after.sessions == st.sessions - {peer}
  {}

  lemma InitiateInstallsNone(setup: Setup, es: EngineState, peer: Peer, now: Time, draws: Draws)
    requires peer in setup.configured
    ensures NoneInstalled(es, InitiatePeer(setup, es, peer, now, draws).0)
  {
    StartInstallsNone(es.st, setup.self, peer, draws.handshakeId, draws.ephemeral, now);
  }

  lemma HandshakeInstallsNone(setup: Setup, es: EngineState, peer: Peer, now: Time, draws: Draws)
    requires setup.Valid()
    ensures NoneInstalled(es, HandshakeFor(setup, es, peer, now, draws).0)
  {
    if setup.Knows(peer) {
      InitiateInstallsNone(setup, es, peer, now, draws);
    }
  }

  lemma KeepaliveInstallsNone(setup: Setup, es: EngineState, peer: Peer, payload: seq<byte>, now: Time, draws: Draws)
    requires setup.Valid()
    ensures NoneInstalled(es, KeepaliveFor(setup, es, peer, payload, now, draws).0)
  {
    if setup.Knows(peer) {
      var (after, result) := EncryptForPeer(es.st, peer, Keepalive, payload, now, draws.sealingWorks);
      InitiateInstallsNone(setup, es.(st := if result.Err? then Invalidate(after, peer).0 else after), peer, now,
                           draws);
    }
  }

  lemma {:induction false} RetriesInstallNone(setup: Setup, peers: seq<ScheduledPeer>, es: EngineState, now: Time,
                                              draws: DrawTable)
    requires setup.Valid()
    ensures NoneInstalled(es, Retries(setup, peers, es, now, draws).0)
  {
    if peers != [] {
      var fewer, peer := peers[..|peers| - 1], peers[|peers| - 1].name;
      RetriesInstallNone(setup, fewer, es, now, draws);
      HandshakeInstallsNone(setup, Retries(setup, fewer, es, now, draws).0, peer, now, draws(HandshakeRetry, peer));
    }
  }

  lemma {:induction false} KeepalivesInstallNone(setup: Setup, peers: seq<ScheduledPeer>, es: EngineState,
                                                 sent: map<Peer, Time>, now: Time, rebound: bool, draws: DrawTable)
    requires setup.Valid()
    ensures NoneInstalled(es, Keepalives(setup, peers, es, sent, now, rebound, draws).0)
  {
    if peers != [] {
      var fewer, peer := peers[..|peers| - 1], peers[|peers| - 1];
      KeepalivesInstallNone(setup, fewer, es, sent, now, rebound, draws);
      var mid := Keepalives(setup, fewer, es, sent, now, rebound, draws).0;
      KeepaliveInstallsNone(setup, mid, peer.name, ProbePayload(peer), now, draws(KeepaliveSend, peer.name));
    }
  }

  /** No tick installs a session; the recovered peer had an active one, and has none afterwards. */
  lemma TickInstallsNone(setup: Setup, k: Tick)
    requires setup.Valid()
    ensures NoneInstalled(k.before, After(setup, k).es)
    ensures RecoveredPeer(setup, k).Some? ==>
              && RecoveredPeer(setup, k).value.name in k.before.st.sessions
              && RecoveredPeer(setup, k).value.name !in After(setup, k).es.st.sessions
  {
    var retried, recovered := Retried(setup, k), RecoveryPart(setup, k);
    RetriesInstallNone(setup, k.peers, k.before, k.now, k.draws);
    KeepalivesInstallNone(setup, k.peers, recovered.es, recovered.timing.lastSent, k.now, recovered.rebound, k.draws);
    if RecoveredPeer(setup, k).Some? {
      var peer := RecoveredPeer(setup, k).value.name;
      HandshakeInstallsNone(setup, retried.(st := Invalidate(retried.st, peer).0), peer, k.now,
                            k.draws(SessionRecovery, peer));
    }
  }

  // ---------------------------------------------------------------------------
  // Runs: between two ticks the engine may do anything.
  // ---------------------------------------------------------------------------

  ghost predicate Ticking(setup: Setup, ticks: seq<Tick>)
    requires setup.Valid()
  {
    && (forall i :: 0 <= i < |ticks| ==> PositiveTimeouts(ticks[i].peers))
    && (forall i :: 0 <= i < |ticks| - 1 ==> ticks[i + 1].timing == After(setup, ticks[i]).timing)
  }

  /** The tick tries to rebind the UDP socket. */
  ghost predicate Rebinds(setup: Setup, k: Tick)
    requires setup.Valid()
  {
    RecoveredPeer(setup, k).Some? && RecoveredPeer(setup, k).value.recovery.value.rebindUdp
  }

  /** A tick leaves the time of the last rebind attempt alone, except to move it forward to its own time. */
  lemma RebindMovesForward(setup: Setup, k: Tick)
    requires setup.Valid() && PositiveTimeouts(k.peers)
    ensures After(setup, k).timing.lastUdpRebind == if Rebinds(setup, k) then Some(k.now) else k.timing.lastUdpRebind
    ensures Rebinds(setup, k) && k.timing.lastUdpRebind.Some? ==>
              k.now >= k.timing.lastUdpRebind.value + RecoveredPeer(setup, k).value.recovery.value.timeout
  {
    if Rebinds(setup, k) {
      var peer := RecoveredPeer(setup, k).value;
      assert peer in k.peers;
      DueMeansSilent(k.now, Retried(setup, k).stats[peer.name].lastSeen.value, LastAttempt(k.timing, peer),
                     peer.recovery.value.timeout);
    }
  }

  lemma {:induction false} LastRebindIsRemembered(setup: Setup, ticks: seq<Tick>, i: nat, j: nat)
    requires setup.Valid() && Ticking(setup, ticks) && i < j < |ticks| && Rebinds(setup, ticks[i])
    ensures ticks[j].timing.lastUdpRebind.Some? && ticks[j].timing.lastUdpRebind.value >= ticks[i].now
  {
    RebindMovesForward(setup, ticks[j - 1]);
    if i < j - 1 {
      LastRebindIsRemembered(setup, ticks, i, j - 1);
    }
  }

  /** A rebind attempt is at least the triggering peer's timeout after every earlier attempt, whoever triggered that. */
  lemma RebindsAreSpaced(setup: Setup, ticks: seq<Tick>, i: nat, j: nat)
    requires setup.Valid() && Ticking(setup, ticks) && i < j < |ticks|
    requires Rebinds(setup, ticks[i]) && Rebinds(setup, ticks[j])
    ensures ticks[j].now >= ticks[i].now + RecoveredPeer(setup, ticks[j]).value.recovery.value.timeout
    ensures ticks[j].now > ticks[i].now
  {
    LastRebindIsRemembered(setup, ticks, i, j);
    RebindMovesForward(setup, ticks[j]);
    assert RecoveredPeer(setup, ticks[j]).value in ticks[j].peers;
  }

  ghost predicate RecoversPeer(setup: Setup, k: Tick, peer: Peer)
    requires setup.Valid()
  {
    RecoveredPeer(setup, k).Some? && RecoveredPeer(setup, k).value.name == peer
  }

  /** Between the ticks `k` and `k + 1` the peer went from no active session to one. */
  ghost predicate InstalledAfter(setup: Setup, ticks: seq<Tick>, k: nat, peer: Peer)
    requires setup.Valid() && k + 1 < |ticks|
  {
    peer !in After(setup, ticks[k]).es.st.sessions && peer in ticks[k + 1].before.st.sessions
  }

  /** Two recoveries of one peer always have a newly installed session between them. */
  lemma {:induction false} RecoveriesNeedNewSession(setup: Setup, ticks: seq<Tick>, i: nat, j: nat, peer: Peer)
    returns (k: nat)
    requires setup.Valid() && i < j < |ticks|
    requires peer !in After(setup, ticks[i]).es.st.sessions || RecoversPeer(setup, ticks[i], peer)
    requires RecoversPeer(setup, ticks[j], peer)
    ensures i <= k < j && InstalledAfter(setup, ticks, k, peer)
    decreases j - i
  {
    TickInstallsNone(setup, ticks[i]);
    TickInstallsNone(setup, ticks[j]);
    TickInstallsNone(setup, ticks[i + 1]);
    if peer in ticks[i + 1].before.st.sessions {
      k := i;
    } else {
      k := RecoveriesNeedNewSession(setup, ticks, i + 1, j, peer);
    }
  }

  // ---------------------------------------------------------------------------
  // The pace of keepalives.
  // ---------------------------------------------------------------------------

  /** Configured peers have different names. */
  ghost predicate DistinctNames(peers: seq<ScheduledPeer>) {
    forall i, j :: 0 <= i < j < |peers| ==> peers[i].name != peers[j].name
  }

  /** Whether the last peer of the list gets a keepalive in its turn. */
  ghost predicate LastSends(setup: Setup, peers: seq<ScheduledPeer>, es: EngineState, sent: map<Peer, Time>, now: Time,
                            rebound: bool, draws: DrawTable)
    requires setup.Valid() && peers != []
  {
    var last := peers[|peers| - 1];
    var times := Keepalives(setup, peers[..|peers| - 1], es, sent, now, rebound, draws).1;
    KeepaliveShouldSend(now, LastSentTo(times, last.name), last.persistentKeepalive, last.recovery.Some?, rebound)
  }

  lemma LastTurnSends(setup: Setup, peers: seq<ScheduledPeer>, es: EngineState, sent: map<Peer, Time>, now: Time,
                      rebound: bool, draws: DrawTable)
    requires setup.Valid() && peers != []
    ensures RanFor(Keepalives(setup, peers, es, sent, now, rebound, draws).2, KeepaliveSend) ==
            RanFor(Keepalives(setup, peers[..|peers| - 1], es, sent, now, rebound, draws).2, KeepaliveSend)
            + if LastSends(setup, peers, es, sent, now, rebound, draws) then [peers[|peers| - 1].name] else []
  {
    var trace := Keepalives(setup, peers[..|peers| - 1], es, sent, now, rebound, draws).2;
    var longer := Keepalives(setup, peers, es, sent, now, rebound, draws).2;
    if LastSends(setup, peers, es, sent, now, rebound, draws) {
      assert longer[..|longer| - 1] == trace;
    } else {
      assert longer == trace;
    }
  }

  /** Whether a peer gets a keepalive: after a rebind, or when its interval has passed since the time remembered. */
  predicate Sends(peer: ScheduledPeer, before: Option<Time>, now: Time, rebound: bool) {
    || rebound
    || (peer.persistentKeepalive > 0
        && if before.Some? then now >= before.value + peer.persistentKeepalive else peer.recovery.Some?)
  }

  /**
   The time remembered after a turn: a keepalive is remembered unless it went to a peer with recovery and
   no live session; the first turn of a peer that is not sent to starts its interval.
   */
  function Remembered(peer: ScheduledPeer, before: Option<Time>, now: Time, rebound: bool, live: bool): Option<Time> {
    if Sends(peer, before, now, rebound) then (if live || peer.recovery.None? then Some(now) else before)
    else if peer.persistentKeepalive > 0 && before.None? then Some(now)
    else before
  }

  /** The last turn touches the time of its own peer only, and as it should. */
  lemma LastTurnTimes(setup: Setup, peers: seq<ScheduledPeer>, es: EngineState, sent: map<Peer, Time>, now: Time,
                      rebound: bool, draws: DrawTable, name: Peer)
    requires setup.Valid() && peers != []
    ensures var last := peers[|peers| - 1];
            var mid := Keepalives(setup, peers[..|peers| - 1], es, sent, now, rebound, draws);
            var before := LastSentTo(mid.1, name);
            var later := LastSentTo(Keepalives(setup, peers, es, sent, now, rebound, draws).1, name);
            if name != last.name then later == before
            else
              && (LastSends(setup, peers, es, sent, now, rebound, draws) <==> Sends(last, before, now, rebound))
              && later == Remembered(last, before, now, rebound, HasLiveSession(mid.0.st, name, now))
  {
    var mid := Keepalives(setup, peers[..|peers| - 1], es, sent, now, rebound, draws).0;
    if name in mid.st.sessions {
      LimitsOfSession(mid.st.sessions[name], now);
    }
  }

  /** The session of a peer is not touched. */
  ghost predicate SameSession(es: EngineState, after: EngineState, p: Peer) {
    && (p in after.st.sessions <==> p in es.st.sessions)
    && (p in es.st.sessions ==> after.st.sessions[p] == es.st.sessions[p])
  }

  lemma KeepaliveKeepsOthers(setup: Setup, es: EngineState, peer: Peer, payload: seq<byte>, now: Time, draws: Draws,
                             p: Peer)
    requires setup.Valid() && p != peer
    ensures SameSession(es, KeepaliveFor(setup, es, peer, payload, now, draws).0, p)
  {
    if setup.Knows(peer) {
      var (after, result) := EncryptForPeer(es.st, peer, Keepalive, payload, now, draws.sealingWorks);
      var ready := es.(st := if result.Err? then Invalidate(after, peer).0 else after);
      assert SameSession(es, ready, p);
      InitiateKeepsOthers(setup, ready, peer, now, draws, p);
    }
  }

  lemma InitiateKeepsOthers(setup: Setup, es: EngineState, peer: Peer, now: Time, draws: Draws, p: Peer)
    requires peer in setup.configured && p != peer
    ensures SameSession(es, InitiatePeer(setup, es, peer, now, draws).0, p)
  {
    StartInstallsNone(es.st, setup.self, peer, draws.handshakeId, draws.ephemeral, now);
  }

  /** The turns of others touch neither the time nor the keepalive nor the session of a peer. */
  lemma {:induction false} OthersKeepTheirTime(setup: Setup, peers: seq<ScheduledPeer>, es: EngineState,
                                               sent: map<Peer, Time>, now: Time,
                                               rebound: bool, draws: DrawTable, name: Peer)
    requires setup.Valid() && forall i :: 0 <= i < |peers| ==> peers[i].name != name
    ensures LastSentTo(Keepalives(setup, peers, es, sent, now, rebound, draws).1, name) == LastSentTo(sent, name)
    ensures name !in RanFor(Keepalives(setup, peers, es, sent, now, rebound, draws).2, KeepaliveSend)
    ensures SameSession(es, Keepalives(setup, peers, es, sent, now, rebound, draws).0, name)
  {
    if peers != [] {
      var fewer, last := peers[..|peers| - 1], peers[|peers| - 1];
      OthersKeepTheirTime(setup, fewer, es, sent, now, rebound, draws, name);
      LastTurnSends(setup, peers, es, sent, now, rebound, draws);
      LastTurnTimes(setup, peers, es, sent, now, rebound, draws, name);
      KeepaliveKeepsOthers(setup, Keepalives(setup, fewer, es, sent, now, rebound, draws).0, last.name,
                           ProbePayload(last), now, draws(KeepaliveSend, last.name), name);
    }
  }

  /** What one tick decides for one peer: from the time remembered, and whether it has a live session. */
  ghost predicate Decided(peer: ScheduledPeer, before: Option<Time>, later: Option<Time>, now: Time, rebound: bool,
                          live: bool, ran: seq<Peer>) {
    && (peer.name in ran <==> Sends(peer, before, now, rebound))
    && later == Remembered(peer, before, now, rebound, live)
  }

  lemma {:induction false} TurnOfPeer(setup: Setup, peers: seq<ScheduledPeer>, es: EngineState, sent: map<Peer, Time>,
                                      now: Time,
                                      rebound: bool, draws: DrawTable, n: nat)
    requires setup.Valid() && DistinctNames(peers) && n < |peers|
    ensures var done := Keepalives(setup, peers, es, sent, now, rebound, draws);
            Decided(peers[n], LastSentTo(sent, peers[n].name), LastSentTo(done.1, peers[n].name), now, rebound,
                    HasLiveSession(es.st, peers[n].name, now), RanFor(done.2, KeepaliveSend))
  {
    var fewer := peers[..|peers| - 1];
    if n == |peers| - 1 {
      OthersKeepTheirTime(setup, fewer, es, sent, now, rebound, draws, peers[n].name);
    } else {
      TurnOfPeer(setup, fewer, es, sent, now, rebound, draws, n);
    }
    LastTurnSends(setup, peers, es, sent, now, rebound, draws);
    LastTurnTimes(setup, peers, es, sent, now, rebound, draws, peers[n].name);
  }

  /**
   The time remembered for a peer never goes back, and a keepalive without a rebind waits a whole
   interval after it.
   */
  lemma TickPacesKeepalives(setup: Setup, k: Tick, n: nat)
    requires setup.Valid() && DistinctNames(k.peers) && n < |k.peers|
    ensures var name := k.peers[n].name;
            var before, later := LastSentTo(k.timing.lastSent, name), LastSentTo(After(setup, k).timing.lastSent, name);
            && (later == before || later == Some(k.now))
            && (name in RanFor(KeepalivePart(setup, k), KeepaliveSend)
                && !RecoveryPart(setup, k).rebound && before.Some? ==>
                  k.peers[n].persistentKeepalive > 0 && k.now >= before.value + k.peers[n].persistentKeepalive)
  {
    var recovered := RecoveryPart(setup, k);
    TurnOfPeer(setup, k.peers, recovered.es, recovered.timing.lastSent, k.now, recovered.rebound, k.draws, n);
  }

  lemma {:induction false} SentIsRemembered(setup: Setup, ticks: seq<Tick>, i: nat, j: nat, n: nat)
    requires setup.Valid() && Ticking(setup, ticks) && i <= j < |ticks| && n < |ticks[i].peers|
    requires DistinctNames(ticks[i].peers)
    requires forall k :: i <= k <= j ==> ticks[k].peers == ticks[i].peers && ticks[i].now <= ticks[k].now
    requires LastSentTo(After(setup, ticks[i]).timing.lastSent, ticks[i].peers[n].name) == Some(ticks[i].now)
    ensures var later := LastSentTo(After(setup, ticks[j]).timing.lastSent, ticks[i].peers[n].name);
            later.Some? && later.value >= ticks[i].now
  {
    if i < j {
      SentIsRemembered(setup, ticks, i, j - 1, n);
      TickPacesKeepalives(setup, ticks[j], n);
    }
  }

  /** After a keepalive was recorded as sent, the next periodic one to that peer is at least its interval later. */
  lemma KeepalivesArePaced(setup: Setup, ticks: seq<Tick>, i: nat, j: nat, n: nat)
    requires setup.Valid() && Ticking(setup, ticks) && i < j < |ticks| && n < |ticks[i].peers|
    requires DistinctNames(ticks[i].peers)
    requires forall k :: i <= k <= j ==> ticks[k].peers == ticks[i].peers && ticks[i].now <= ticks[k].now
    requires LastSentTo(After(setup, ticks[i]).timing.lastSent, ticks[i].peers[n].name) == Some(ticks[i].now)
    requires ticks[i].peers[n].name in RanFor(KeepalivePart(setup, ticks[j]), KeepaliveSend)
    requires !RecoveryPart(setup, ticks[j]).rebound
    ensures ticks[j].now >= ticks[i].now + ticks[i].peers[n].persistentKeepalive
  {
    SentIsRemembered(setup, ticks, i, j - 1, n);
    TickPacesKeepalives(setup, ticks[j], n);
  }
}
