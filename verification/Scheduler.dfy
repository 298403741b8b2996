/**
 Session maintenance of src/scheduler.rs: handshake retries, one recovery per
 tick, and keepalives. A trace records the engine and socket calls in order.
 */
module Schedulers {
  import opened Wrappers
  import opened Wire
  import opened Noise
  import opened Sessions
  import opened Engines

  datatype RecoveryPolicy = RecoveryPolicy(timeout: nat, rebindUdp: bool)

  datatype ScheduledPeer = ScheduledPeer(name: Peer, persistentKeepalive: nat, recovery: Option<RecoveryPolicy>)

  /** The timing options of one peer, in seconds. */
  datatype PeerTiming = PeerTiming(name: Peer, persistentKeepalive: nat, udpRebindAfter: nat,
                                   sessionTimeout: Option<nat>)

  datatype ScheduledOperation = HandshakeRetry | SessionRecovery | KeepaliveSend

  datatype Entry =
    | Ran(operation: ScheduledOperation, peer: Peer, result: Result<EngineOutput, EngineError>)
    | Rebind(peer: Peer, silence: nat, succeeded: bool)
    | Recovery(peer: Peer, silence: nat, rebindUdp: bool, rebindSucceeded: bool, hadStaleState: bool)

  datatype Timing = Timing(lastSent: map<Peer, Time>, lastUdpRebind: Option<Time>, lastRecovery: map<Peer, Time>)

  /** What is random in each engine call of a tick. */
  type DrawTable = (ScheduledOperation, Peer) -> Draws

  datatype ScheduledOutput = ScheduledOutput(operation: ScheduledOperation, output: EngineOutput)

  datatype SchedulerError = SchedulerError(peer: Peer, operation: ScheduledOperation, error: EngineError)

  datatype SchedulerTick = SchedulerTick(outputs: seq<ScheduledOutput>, events: seq<Entry>, errors: seq<SchedulerError>)

  // ---------------------------------------------------------------------------
  // Decisions.
  // ---------------------------------------------------------------------------

  function EffectiveSessionTimeout(peer: PeerTiming, transport: TransportConfig): nat {
    match peer.sessionTimeout
    case Some(timeout) => timeout
    case None =>
      if transport == Tcp && peer.persistentKeepalive > 0 then
        if peer.persistentKeepalive * 3 > 15 then peer.persistentKeepalive * 3 else 15
      else 0
  }

  function RecoveryPolicyFor(transport: TransportConfig, udpRebindAfter: nat,
                             sessionTimeout: nat): (policy: Option<RecoveryPolicy>)
    ensures policy.Some? ==> policy.value.timeout > 0 && (policy.value.rebindUdp ==> transport == Udp)
    ensures policy.None? <==> sessionTimeout == 0 && !(transport == Udp && udpRebindAfter > 0)
  {
    if transport == Udp && udpRebindAfter > 0 then Some(RecoveryPolicy(udpRebindAfter * SECOND, true))
    else if sessionTimeout > 0 then Some(RecoveryPolicy(sessionTimeout * SECOND, false))
    else None
  }

  predicate RecoveryDue(now: Time, lastSeen: Time, lastAttempt: Option<Time>, timeout: nat) {
    var baseline := if lastAttempt.Some? && lastAttempt.value >= lastSeen then lastAttempt.value else lastSeen;
    Elapsed(now, baseline) >= timeout
  }

  /** A due recovery is at least the timeout after the last sign of life and after the last attempt. */
  lemma DueMeansSilent(now: Time, lastSeen: Time, lastAttempt: Option<Time>, timeout: nat)
    requires timeout > 0
    ensures RecoveryDue(now, lastSeen, lastAttempt, timeout) <==>
            now >= lastSeen + timeout && (lastAttempt.Some? ==> now >= lastAttempt.value + timeout)
  {}

  predicate KeepaliveShouldSend(now: Time, lastSent: Option<Time>, interval: nat, recoveryEnabled: bool,
                                rebound: bool) {
    if rebound then true
    else if interval == 0 then false
    else match lastSent
      case Some(sent) => Elapsed(now, sent) >= interval
      case None => recoveryEnabled
  }

  function LastAttempt(t: Timing, peer: ScheduledPeer): Option<Time>
    requires peer.recovery.Some?
  {
    if peer.recovery.value.rebindUdp then t.lastUdpRebind
    else if peer.name in t.lastRecovery then Some(t.lastRecovery[peer.name])
    else None
  }

  /** This peer is to be recovered now. */
  predicate NeedsRecovery(t: Timing, es: EngineState, peer: ScheduledPeer, now: Time) {
    && peer.recovery.Some?
    && peer.name in t.lastSent && HasActive(es, peer.name, now)
    && peer.name in es.stats && es.stats[peer.name].lastSeen.Some?
    && RecoveryDue(now, es.stats[peer.name].lastSeen.value, LastAttempt(t, peer), peer.recovery.value.timeout)
  }

  /** The first peer from position `k` on that is to be recovered, or the number of peers. */
  function FirstDue(peers: seq<ScheduledPeer>, t: Timing, es: EngineState, now: Time, k: nat): (i: nat)
    requires k <= |peers|
    ensures k <= i <= |peers| && (i < |peers| ==> NeedsRecovery(t, es, peers[i], now))
    ensures forall j :: k <= j < i ==> !NeedsRecovery(t, es, peers[j], now)
    decreases |peers| - k
  {
    if k == |peers| || NeedsRecovery(t, es, peers[k], now) then k else FirstDue(peers, t, es, now, k + 1)
  }

  // ---------------------------------------------------------------------------
  // One tick as a function.
  // ---------------------------------------------------------------------------

  ghost function Retries(setup: Setup, peers: seq<ScheduledPeer>, es: EngineState, now: Time,
                         draws: DrawTable): (EngineState, seq<Entry>)
    requires setup.Valid()
  {
    if peers == [] then (es, [])
    else
      var (mid, trace) := Retries(setup, peers[..|peers| - 1], es, now, draws);
      var peer := peers[|peers| - 1].name;
      if peer !in mid.st.pending then (mid, trace)
      else
        var (after, result) := HandshakeFor(setup, mid, peer, now, draws(HandshakeRetry, peer));
        (after, trace + [Ran(HandshakeRetry, peer, result)])
  }

  datatype Recovered = Recovered(es: EngineState, timing: Timing, trace: seq<Entry>, rebound: bool)

  /** A rebind is remembered for all peers, any other recovery for its peer alone. */
  function Attempted(t: Timing, peer: ScheduledPeer, now: Time): Timing
    requires peer.recovery.Some?
  {
    if peer.recovery.value.rebindUdp then t.(lastUdpRebind := Some(now))
    else t.(lastRecovery := t.lastRecovery[peer.name := now])
  }

  ghost function Recover(setup: Setup, peer: ScheduledPeer, es: EngineState, t: Timing, now: Time, rebindWorks: bool,
                         draws: DrawTable): Recovered
    requires setup.Valid() && NeedsRecovery(t, es, peer, now)
  {
    var silence := Elapsed(now, es.stats[peer.name].lastSeen.value);
    var rebind := peer.recovery.value.rebindUdp;
    var (forgotten, stale) := Invalidate(es.st, peer.name);
    var (after, result) := HandshakeFor(setup, es.(st := forgotten), peer.name, now, draws(SessionRecovery, peer.name));
    Recovered(after, Attempted(t, peer, now),
              (if rebind then [Rebind(peer.name, silence, rebindWorks)] else [])
              + [Ran(SessionRecovery, peer.name, result),
                 Recovery(peer.name, silence, rebind, rebind && rebindWorks, stale)],
              rebind && rebindWorks)
  }

  ghost function RecoverFirst(setup: Setup, peers: seq<ScheduledPeer>, es: EngineState, t: Timing, now: Time,
                              rebindWorks: bool, draws: DrawTable): Recovered
    requires setup.Valid()
  {
    var i := FirstDue(peers, t, es, now, 0);
    if i == |peers| then Recovered(es, t, [], false) else Recover(setup, peers[i], es, t, now, rebindWorks, draws)
  }

  function ProbePayload(peer: ScheduledPeer): seq<byte> {
    if peer.recovery.Some? then KEEPALIVE_PROBE_PAYLOAD else []
  }

  function LastSentTo(lastSent: map<Peer, Time>, peer: Peer): Option<Time> {
    if peer in lastSent then Some(lastSent[peer]) else None
  }

  ghost function KeepaliveOne(setup: Setup, peer: ScheduledPeer, es: EngineState, lastSent: map<Peer, Time>, now: Time,
                              rebound: bool, draws: DrawTable)
    : (EngineState, map<Peer, Time>, seq<Entry>)
    requires setup.Valid()
  {
    if !KeepaliveShouldSend(now, LastSentTo(lastSent, peer.name), peer.persistentKeepalive, peer.recovery.Some?,
                            rebound) then
      (es, if peer.persistentKeepalive != 0 && peer.name !in lastSent then lastSent[peer.name := now] else lastSent, [])
    else
      var (after, result) :=
        KeepaliveFor(setup, es, peer.name, ProbePayload(peer), now, draws(KeepaliveSend, peer.name));
      (after,
       if HasActive(es, peer.name, now) || peer.recovery.None? then lastSent[peer.name := now] else lastSent,
       [Ran(KeepaliveSend, peer.name, result)])
  }

  ghost function Keepalives(setup: Setup, peers: seq<ScheduledPeer>, es: EngineState, lastSent: map<Peer, Time>,
                            now: Time, rebound: bool, draws: DrawTable)
    : (EngineState, map<Peer, Time>, seq<Entry>)
    requires setup.Valid()
  {
    if peers == [] then (es, lastSent, [])
    else
      var (mid, sent, trace) := Keepalives(setup, peers[..|peers| - 1], es, lastSent, now, rebound, draws);
      var (after, sentAfter, more) := KeepaliveOne(setup, peers[|peers| - 1], mid, sent, now, rebound, draws);
      (after, sentAfter, trace + more)
  }

  datatype Ticked = Ticked(es: EngineState, timing: Timing, trace: seq<Entry>)

  ghost function TickOf(setup: Setup, peers: seq<ScheduledPeer>, es: EngineState, t: Timing, now: Time,
                        rebindWorks: bool, draws: DrawTable): Ticked
    requires setup.Valid()
  {
    var (retried, retries) := Retries(setup, peers, es, now, draws);
    var recovered := RecoverFirst(setup, peers, retried, t, now, rebindWorks, draws);
    var (after, lastSent, keepalives) :=
      Keepalives(setup, peers, recovered.es, recovered.timing.lastSent, now, recovered.rebound, draws);
    Ticked(after, recovered.timing.(lastSent := lastSent), retries + recovered.trace + keepalives)
  }

  // What the adapter is given.

  function Outputs(trace: seq<Entry>): seq<ScheduledOutput> {
    if trace == [] then []
    else
      var e := trace[|trace| - 1];
      Outputs(trace[..|trace| - 1])
      + if e.Ran? && e.result.Ok? then [ScheduledOutput(e.operation, e.result.value)] else []
  }

  function Errors(trace: seq<Entry>): seq<SchedulerError> {
    if trace == [] then []
    else
      var e := trace[|trace| - 1];
      Errors(trace[..|trace| - 1])
      + if e.Ran? && e.result.Err? then [SchedulerError(e.peer, e.operation, e.result.error)] else []
  }

  function Events(trace: seq<Entry>): seq<Entry> {
    if trace == [] then []
    else
      var e := trace[|trace| - 1];
      Events(trace[..|trace| - 1]) + if e.Recovery? then [e] else []
  }

  function Report(trace: seq<Entry>): SchedulerTick {
    SchedulerTick(Outputs(trace), Events(trace), Errors(trace))
  }

  // ---------------------------------------------------------------------------
  // The scheduler object.
  // ---------------------------------------------------------------------------

  predicate PositiveTimeouts(peers: seq<ScheduledPeer>) {
    forall p :: p in peers && p.recovery.Some? ==> p.recovery.value.timeout > 0
  }

  class EngineScheduler {
    const peers: seq<ScheduledPeer>
    var lastSent: map<Peer, Time>
    var lastUdpRebindAttempt: Option<Time>
    var lastSessionRecoveryAttempt: map<Peer, Time>

    ghost function View(): Timing
      reads this
    {
      Timing(lastSent, lastUdpRebindAttempt, lastSessionRecoveryAttempt)
    }

    constructor (transport: TransportConfig, config: seq<PeerTiming>)
      ensures View() == Timing(map[], None, map[])
      ensures |peers| == |config| && PositiveTimeouts(peers)
      ensures forall i :: 0 <= i < |config| ==>
                peers[i] == ScheduledPeer(config[i].name, config[i].persistentKeepalive * SECOND,
                  RecoveryPolicyFor(transport, config[i].udpRebindAfter, EffectiveSessionTimeout(config[i], transport)))
    {
      peers := seq(|config|, i requires 0 <= i < |config| =>
        ScheduledPeer(config[i].name, config[i].persistentKeepalive * SECOND,
          RecoveryPolicyFor(transport, config[i].udpRebindAfter, EffectiveSessionTimeout(config[i], transport))));
      lastSent, lastUdpRebindAttempt, lastSessionRecoveryAttempt := map[], None, map[];
    }

    /** `rebindWorks` is the answer the socket would give if it were asked to rebind. */
    method Tick(engine: Engine, now: Time, rebindWorks: bool, draws: DrawTable)
      returns (tick: SchedulerTick, ghost trace: seq<Entry>)
      requires engine.Valid()
      modifies this, engine, engine.sessions
      ensures engine.Valid()
      ensures Ticked(engine.View(), View(), trace) ==
          TickOf(engine.setup, peers, old(engine.View()), old(View()), now, rebindWorks, draws)
      ensures tick == Report(trace)
    {
      tick, trace := RetryPending(engine, now, draws);
      var rebound;
      tick, rebound, trace := RecoverOne(engine, now, rebindWorks, draws, tick, trace);
      tick, trace := SendKeepalives(engine, now, rebound, draws, tick, trace);
    }

    method RetryPending(engine: Engine, now: Time, draws: DrawTable)
      returns (tick: SchedulerTick, ghost trace: seq<Entry>)
      requires engine.Valid()
      modifies engine, engine.sessions
      ensures engine.Valid()
      ensures (engine.View(), trace) == Retries(engine.setup, peers, old(engine.View()), now, draws)
      ensures tick == Report(trace)
    {
      tick, trace := SchedulerTick([], [], []), [];
      for i := 0 to |peers|
        invariant engine.Valid()
        invariant (engine.View(), trace) == Retries(engine.setup, peers[..i], old(engine.View()), now, draws)
        invariant tick == Report(trace)
      {
        assert peers[..i + 1][..i] == peers[..i];
        var pending := engine.HasPendingHandshake(peers[i].name);
        if !pending {
          continue;
        }
        var result := engine.InitiateHandshake(peers[i].name, now, draws(HandshakeRetry, peers[i].name));
        tick := PushEngineOutput(tick, peers[i].name, HandshakeRetry, result, trace);
        trace := trace + [Ran(HandshakeRetry, peers[i].name, result)];
      }
      assert peers[..|peers|] == peers;
    }

    method RecoverOne(engine: Engine, now: Time, rebindWorks: bool, draws: DrawTable, before: SchedulerTick,
                      ghost earlier: seq<Entry>)
      returns (tick: SchedulerTick, rebound: bool, ghost trace: seq<Entry>)
      requires engine.Valid() && before == Report(earlier)
      modifies this, engine, engine.sessions
      ensures engine.Valid()
      ensures var recovered := RecoverFirst(engine.setup, peers, old(engine.View()), old(View()), now, rebindWorks,
                                            draws);
              && engine.View() == recovered.es && View() == recovered.timing
              && trace == earlier + recovered.trace && rebound == recovered.rebound
      ensures tick == Report(trace)
    {
      tick, rebound, trace := before, false, earlier;
      ghost var t, es := View(), engine.View();
      var snapshot := engine.stats;
      var i := 0;
      while i < |peers|
        invariant 0 <= i <= |peers|
        invariant engine.Valid() && View() == t && engine.View() == es
        invariant forall j :: 0 <= j < i ==> !NeedsRecovery(t, es, peers[j], now)
        invariant FirstDue(peers, t, es, now, 0) == FirstDue(peers, t, es, now, i)
      {
        var peer := peers[i];
        var active := engine.HasActiveSession(peer.name, now);
        if peer.recovery.Some? && peer.name in lastSent && active && peer.name in snapshot
           && snapshot[peer.name].lastSeen.Some? {
          var policy, lastSeen := peer.recovery.value, snapshot[peer.name].lastSeen.value;
          var lastAttempt := if policy.rebindUdp then lastUdpRebindAttempt
            else if peer.name in lastSessionRecoveryAttempt then Some(lastSessionRecoveryAttempt[peer.name]) else None;
          if RecoveryDue(now, lastSeen, lastAttempt, policy.timeout) {
            tick, rebound, trace := RecoverThis(engine, peer, now, rebindWorks, draws, tick, trace);
            break;
          }
        }
        i := i + 1;
      }
      assert i == |peers| ==> trace == earlier + [];
    }

    method RecoverThis(engine: Engine, peer: ScheduledPeer, now: Time, rebindWorks: bool, draws: DrawTable,
                       before: SchedulerTick, ghost earlier: seq<Entry>)
      returns (tick: SchedulerTick, rebound: bool, ghost trace: seq<Entry>)
      requires engine.Valid() && before == Report(earlier) && NeedsRecovery(View(), engine.View(), peer, now)
      modifies this, engine, engine.sessions
      ensures engine.Valid()
      ensures var recovered := Recover(engine.setup, peer, old(engine.View()), old(View()), now, rebindWorks, draws);
              && engine.View() == recovered.es && View() == recovered.timing
              && trace == earlier + recovered.trace && rebound == recovered.rebound
      ensures tick == Report(trace)
    {
      var silence := Elapsed(now, engine.stats[peer.name].lastSeen.value);
      rebound := NoteAttempt(peer, now, rebindWorks);
      ghost var asked := if peer.recovery.value.rebindUdp then [Rebind(peer.name, silence, rebindWorks)] else [];
      AskedIsNotReported(earlier, asked);
      var stale := engine.InvalidatePeer(peer.name);
      var result := engine.InitiateHandshake(peer.name, now, draws(SessionRecovery, peer.name));
      tick := PushEngineOutput(before, peer.name, SessionRecovery, result, earlier + asked);
      ghost var ran := Ran(SessionRecovery, peer.name, result);
      var event := Recovery(peer.name, silence, peer.recovery.value.rebindUdp, rebound, stale);
      ReportOfEvent(earlier + asked + [ran], event);
      tick := tick.(events := tick.events + [event]);
      trace := earlier + asked + [ran] + [event];
      assert trace == earlier + (asked + [ran, event]);
    }

    method NoteAttempt(peer: ScheduledPeer, now: Time, rebindWorks: bool) returns (rebound: bool)
      requires peer.recovery.Some?
      modifies this
      ensures View() == Attempted(old(View()), peer, now)
      ensures rebound == (peer.recovery.value.rebindUdp && rebindWorks)
    {
      if peer.recovery.value.rebindUdp {
        lastUdpRebindAttempt := Some(now);
        rebound := rebindWorks;
      } else {
        lastSessionRecoveryAttempt := lastSessionRecoveryAttempt[peer.name := now];
        rebound := false;
      }
    }

    method SendKeepalives(engine: Engine, now: Time, rebound: bool, draws: DrawTable, before: SchedulerTick,
                          ghost earlier: seq<Entry>)
      returns (tick: SchedulerTick, ghost trace: seq<Entry>)
      requires engine.Valid() && before == Report(earlier)
      modifies this`lastSent, engine, engine.sessions
      ensures engine.Valid()
      ensures var (es, sent, keepalives) := Keepalives(engine.setup, peers, old(engine.View()), old(lastSent), now,
                                                       rebound, draws);
              engine.View() == es && lastSent == sent && trace == earlier + keepalives
      ensures tick == Report(trace)
    {
      tick := before;
      ghost var keepalives: seq<Entry> := [];
      assert earlier + keepalives == earlier;
      for i := 0 to |peers|
        invariant engine.Valid()
        invariant (engine.View(), lastSent, keepalives) ==
            Keepalives(engine.setup, peers[..i], old(engine.View()), old(lastSent), now, rebound, draws)
        invariant tick == Report(earlier + keepalives)
      {
        assert peers[..i + 1][..i] == peers[..i];
        ghost var more;
        tick, more := SendKeepalive(engine, peers[i], now, rebound, draws, tick, earlier + keepalives);
        assert earlier + keepalives + more == earlier + (keepalives + more);
        keepalives := keepalives + more;
      }
      assert peers[..|peers|] == peers;
      trace := earlier + keepalives;
    }

    method SendKeepalive(engine: Engine, peer: ScheduledPeer, now: Time, rebound: bool, draws: DrawTable,
                         before: SchedulerTick, ghost earlier: seq<Entry>)
      returns (tick: SchedulerTick, ghost more: seq<Entry>)
      requires engine.Valid() && before == Report(earlier)
      modifies this`lastSent, engine, engine.sessions
      ensures engine.Valid()
      ensures (engine.View(), lastSent, more) ==
          KeepaliveOne(engine.setup, peer, old(engine.View()), old(lastSent), now, rebound, draws)
      ensures tick == Report(earlier + more)
    {
      var recoveryEnabled := peer.recovery.Some?;
      var sent := if peer.name in lastSent then Some(lastSent[peer.name]) else None;
      if !KeepaliveShouldSend(now, sent, peer.persistentKeepalive, recoveryEnabled, rebound) {
        if peer.persistentKeepalive != 0 && peer.name !in lastSent {
          lastSent := lastSent[peer.name := now];
        }
        tick, more := before, [];
        assert earlier + more == earlier;
        return;
      }
      var hadActive := engine.HasActiveSession(peer.name, now);
      var payload := if recoveryEnabled then KEEPALIVE_PROBE_PAYLOAD else [];
      var result := engine.CreateKeepalive(peer.name, payload, now, draws(KeepaliveSend, peer.name));
      tick := PushEngineOutput(before, peer.name, KeepaliveSend, result, earlier);
      more := [Ran(KeepaliveSend, peer.name, result)];
      if hadActive || !recoveryEnabled {
        lastSent := lastSent[peer.name := now];
      }
    }
  }

  method PushEngineOutput(before: SchedulerTick, peer: Peer, operation: ScheduledOperation,
                          result: Result<EngineOutput, EngineError>, ghost trace: seq<Entry>)
    returns (tick: SchedulerTick)
    requires before == Report(trace)
    ensures tick == Report(trace + [Ran(operation, peer, result)])
  {
    ghost var longer := trace + [Ran(operation, peer, result)];
    assert longer[..|longer| - 1] == trace;
    match result {
      case Ok(output) => tick := before.(outputs := before.outputs + [ScheduledOutput(operation, output)]);
      case Err(error) => tick := before.(errors := before.errors + [SchedulerError(peer, operation, error)]);
    }
  }

  lemma AskedIsNotReported(trace: seq<Entry>, asked: seq<Entry>)
    requires |asked| <= 1 && forall e :: e in asked ==> e.Rebind?
    ensures Report(trace + asked) == Report(trace)
  {
    if asked == [] {
      assert trace + asked == trace;
    } else {
      assert asked[0] in asked;
      assert (trace + asked)[..|trace + asked| - 1] == trace;
    }
  }

  lemma ReportOfEvent(trace: seq<Entry>, e: Entry)
    requires e.Recovery?
    ensures Report(trace + [e]) == Report(trace).(events := Events(trace) + [e])
  {
    assert (trace + [e])[..|trace + [e]| - 1] == trace;
  }
}
