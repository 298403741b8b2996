/**
 The start, stop and call protocol of src/ffi.rs over its two locks and its
 condition variable. Each method is what one thread does without giving up a
 lock; any interleaving of such sections of any number of threads is a run.
 */
module Ffi {
  import opened Wrappers

  type Thread = nat

  /** A number for each engine that was ever created. */
  type EngineId = nat

  /** Where a thread is between two sections. */
  datatype Place =
    | Outside
    | Installing                     // in start, holds the lifecycle lock, wants the scheduler lock
    | Erasing                        // in stop, holds the lifecycle lock, wants the scheduler lock
    | Waiting(notified: bool)        // in stop, waits on the condition variable
    | InCall(engine: EngineId)       // has begun a call
    | Ticking(engine: EngineId)      // in a tick, holds the scheduler lock

  datatype Status = Success | InvalidState | EngineError

  datatype State = State(
    engine: Option<EngineId>, scheduler: Option<EngineId>, activeCalls: nat, stopping: bool, created: nat,
    threads: seq<Place>)

  predicate HoldsLifecycle(p: Place) {
    p.Installing? || p.Erasing?
  }

  predicate Outstanding(p: Place) {
    p.InCall? || p.Ticking?
  }

  predicate LifecycleFree(s: State) {
    forall t :: 0 <= t < |s.threads| ==> !HoldsLifecycle(s.threads[t])
  }

  predicate SchedulerFree(s: State) {
    forall t :: 0 <= t < |s.threads| ==> !s.threads[t].Ticking?
  }

  predicate At(s: State, t: Thread, p: Place) {
    t < |s.threads| && s.threads[t] == p
  }

  function Move(s: State, t: Thread, p: Place): State
    requires t < |s.threads|
  {
    s.(threads := s.threads[t := p])
  }

  /** `notify_all`: every waiting thread may look again. */
  function NotifyAll(s: State): State {
    s.(threads := seq(|s.threads|, t requires 0 <= t < |s.threads| =>
      if s.threads[t].Waiting? then Waiting(true) else s.threads[t]))
  }

  // ---------------------------------------------------------------------------
  // The sections.
  // ---------------------------------------------------------------------------

  /** `works` is whether the engine can be built from its configuration. */
  function Start(s: State, t: Thread, works: bool): (State, Status)
    requires t < |s.threads|
  {
    if s.stopping then (s, InvalidState)
    else if s.engine.Some? then (s, Success)
    else if !works then (s, EngineError)
    else (Move(s.(engine := Some(s.created), created := s.created + 1), t, Installing), Success)
  }

  function FinishStart(s: State, t: Thread): State
    requires t < |s.threads|
  {
    Move(s.(scheduler := s.engine), t, Outside)
  }

  /** The head of the waiting loop, with the lifecycle lock held. */
  function TryErase(s: State, t: Thread): State
    requires t < |s.threads|
  {
    if s.activeCalls != 0 then Move(s, t, Waiting(false)) else Move(s.(engine := None), t, Erasing)
  }

  function Stop(s: State, t: Thread): State
    requires t < |s.threads|
  {
    if s.engine.None? then s else TryErase(s.(stopping := true), t)
  }

  function FinishStop(s: State, t: Thread): State
    requires t < |s.threads|
  {
    NotifyAll(Move(s.(scheduler := None, stopping := false), t, Outside))
  }

  function BeginCall(s: State, t: Thread): (State, Status)
    requires t < |s.threads|
  {
    if s.engine.Some? && !s.stopping then
      (Move(s.(activeCalls := s.activeCalls + 1), t, InCall(s.engine.value)), Success)
    else (s, InvalidState)
  }

  /** The counter never goes below zero, as a saturating subtraction. */
  function EndCall(s: State, t: Thread): State
    requires t < |s.threads|
  {
    var left := if s.activeCalls == 0 then 0 else s.activeCalls - 1;
    var ended := Move(s.(activeCalls := left), t, Outside);
    if left == 0 then NotifyAll(ended) else ended
  }

  datatype Section = StartS(works: bool) | FinishStartS | StopS | WakeS | FinishStopS | BeginS | LockS | UnlockS | EndS

  /**
   The thread is where the section begins, and the lock it takes is free. A waiting thread may wake
   without a notification.
   */
  predicate Enabled(s: State, t: Thread, a: Section) {
    t < |s.threads| &&
    match a
    case StartS(_) => s.threads[t].Outside? && LifecycleFree(s)
    case FinishStartS => s.threads[t].Installing? && SchedulerFree(s)
    case StopS => s.threads[t].Outside? && LifecycleFree(s)
    case WakeS => s.threads[t].Waiting? && LifecycleFree(s)
    case FinishStopS => s.threads[t].Erasing? && SchedulerFree(s)
    case BeginS => s.threads[t].Outside? && LifecycleFree(s)
    case LockS => s.threads[t].InCall? && SchedulerFree(s)
    case UnlockS => s.threads[t].Ticking?
    case EndS => s.threads[t].InCall? && LifecycleFree(s)
  }

  function Do(s: State, t: Thread, a: Section): State
    requires Enabled(s, t, a)
  {
    match a
    case StartS(works) => Start(s, t, works).0
    case FinishStartS => FinishStart(s, t)
    case StopS => Stop(s, t)
    case WakeS => TryErase(s, t)
    case FinishStopS => FinishStop(s, t)
    case BeginS => BeginCall(s, t).0
    case LockS => Move(s, t, Ticking(s.threads[t].engine))
    case UnlockS => Move(s, t, InCall(s.threads[t].engine))
    case EndS => EndCall(s, t)
  }

  // ---------------------------------------------------------------------------
  // The runtime object.
  // ---------------------------------------------------------------------------

  class HwRuntime {
    var engine: Option<EngineId>
    var activeCalls: nat
    var stopping: bool
    var scheduler: Option<EngineId>
    var created: nat
    ghost var threads: seq<Place>

    ghost function View(): State
      reads this
    {
      State(engine, scheduler, activeCalls, stopping, created, threads)
    }

    constructor (ghost threadCount: nat)
      ensures View() == State(None, None, 0, false, 0, seq(threadCount, _ => Outside))
    {
      engine, activeCalls, stopping, scheduler, created := None, 0, false, None, 0;
      threads := seq(threadCount, _ => Outside);
    }

    method BeginStart(ghost t: Thread, works: bool) returns (status: Status)
      requires Enabled(View(), t, StartS(works))
      modifies this
      ensures (View(), status) == Start(old(View()), t, works)
    {
      if stopping {
        return InvalidState;
      }
      if engine.None? {
        if !works {
          return EngineError;
        }
        engine := Some(created);
        created := created + 1;
        threads := threads[t := Installing];
      }
      status := Success;
    }

    method InstallScheduler(ghost t: Thread)
      requires Enabled(View(), t, FinishStartS)
      modifies this
      ensures View() == FinishStart(old(View()), t)
    {
      scheduler := engine;
      threads := threads[t := Outside];
    }

    method BeginStop(ghost t: Thread)
      requires Enabled(View(), t, StopS)
      modifies this
      ensures View() == Stop(old(View()), t)
    {
      if engine.None? {
        return;
      }
      stopping := true;
      EraseOrWait(t);
    }

    /** One turn of the waiting loop. */
    method EraseOrWait(ghost t: Thread)
      requires t < |threads|
      modifies this
      ensures View() == TryErase(old(View()), t)
    {
      if activeCalls != 0 {
        threads := threads[t := Waiting(false)];
      } else {
        engine := None;
        threads := threads[t := Erasing];
      }
    }

    method EraseScheduler(ghost t: Thread)
      requires Enabled(View(), t, FinishStopS)
      modifies this
      ensures View() == FinishStop(old(View()), t)
    {
      scheduler := None;
      stopping := false;
      threads := NotifyAll(View().(threads := threads[t := Outside])).threads;
    }

    method Begin(ghost t: Thread) returns (call: Option<EngineId>)
      requires Enabled(View(), t, BeginS)
      modifies this
      ensures View() == BeginCall(old(View()), t).0
      ensures call.Some? <==> BeginCall(old(View()), t).1 == Success
      ensures call.Some? ==> threads[t] == InCall(call.value)
    {
      if engine.Some? && !stopping {
        activeCalls := activeCalls + 1;
        threads := threads[t := InCall(engine.value)];
        call := engine;
      } else {
        call := None;
      }
    }

    method End(ghost t: Thread)
      requires Enabled(View(), t, EndS)
      modifies this
      ensures View() == EndCall(old(View()), t)
    {
      activeCalls := if activeCalls == 0 then 0 else activeCalls - 1;
      threads := threads[t := Outside];
      if activeCalls == 0 {
        threads := NotifyAll(View()).threads;
      }
    }

    method LockScheduler(ghost t: Thread) returns (found: Option<EngineId>)
      requires Enabled(View(), t, LockS)
      modifies this`threads
      ensures View() == Do(old(View()), t, LockS)
      ensures found == scheduler
    {
      threads := threads[t := Ticking(threads[t].engine)];
      found := scheduler;
    }

    method UnlockScheduler(ghost t: Thread)
      requires Enabled(View(), t, UnlockS)
      modifies this`threads
      ensures View() == Do(old(View()), t, UnlockS)
    {
      threads := threads[t := InCall(threads[t].engine)];
    }
  }

  // ---------------------------------------------------------------------------
  // The invariant of every interleaving.
  // ---------------------------------------------------------------------------

  function Calls(threads: seq<Place>): set<Thread> {
    set t: Thread | t < |threads| && Outstanding(threads[t])
  }

  ghost predicate Counted(s: State) {
    // the counter counts the calls that have begun and not ended, and each of them uses the current engine
    && s.activeCalls == |Calls(s.threads)|
    && (forall t :: 0 <= t < |s.threads| && Outstanding(s.threads[t]) ==> Some(s.threads[t].engine) == s.engine)
  }

  ghost predicate Exclusive(s: State) {
    && (forall t, u :: 0 <= t < u < |s.threads| ==> !(HoldsLifecycle(s.threads[t]) && HoldsLifecycle(s.threads[u])))
    && (forall t, u :: 0 <= t < u < |s.threads| ==> !(s.threads[t].Ticking? && s.threads[u].Ticking?))
  }

  ghost predicate Paired(s: State) {
    // unless a thread is between the two locks, the scheduler is the engine's
    && (LifecycleFree(s) ==> s.scheduler == s.engine)
    && (forall t :: 0 <= t < |s.threads| && s.threads[t].Installing? ==> s.engine.Some? && s.activeCalls == 0)
    && (forall t :: 0 <= t < |s.threads| && s.threads[t].Erasing? ==> s.engine.None?)
  }

  /** A thread that waits without having been notified waits for a call to end. */
  ghost predicate NoneForgotten(s: State) {
    forall t :: 0 <= t < |s.threads| && s.threads[t] == Waiting(false) ==> s.activeCalls != 0
  }

  ghost predicate Consistent(s: State) {
    Counted(s) && Exclusive(s) && Paired(s) && NoneForgotten(s)
  }

  lemma CallsAfterMove(threads: seq<Place>, t: Thread, p: Place)
    requires t < |threads|
    ensures Calls(threads[t := p]) == if Outstanding(p) then Calls(threads) + {t} else Calls(threads) - {t}
  {}

  lemma NobodyCallsAtZero(s: State)
    requires Counted(s) && s.activeCalls == 0
    ensures forall t :: 0 <= t < |s.threads| ==> !Outstanding(s.threads[t])
  {
    forall t | 0 <= t < |s.threads| ensures !Outstanding(s.threads[t]) {
      assert Calls(s.threads) == {};
      assert Outstanding(s.threads[t]) ==> t in Calls(s.threads);
    }
  }

  lemma NotifyingKeeps(s: State)
    requires Counted(s) && Exclusive(s) && Paired(s)
    ensures Consistent(NotifyAll(s))
  {
    var after := NotifyAll(s);
    assert Calls(after.threads) == Calls(s.threads);
    forall t | 0 <= t < |s.threads| ensures HoldsLifecycle(after.threads[t]) == HoldsLifecycle(s.threads[t]) {}
    assert LifecycleFree(after) ==> LifecycleFree(s) by {
      if LifecycleFree(after) {
        forall t | 0 <= t < |s.threads| ensures !HoldsLifecycle(s.threads[t]) {
          assert !HoldsLifecycle(after.threads[t]);
        }
      }
    }
  }

  lemma StartKeeps(s: State, t: Thread, works: bool)
    requires Consistent(s) && Enabled(s, t, StartS(works))
    ensures Consistent(Start(s, t, works).0)
  {
    CallsAfterMove(s.threads, t, Installing);
    assert s.engine.None? ==> Calls(s.threads) == {};
  }

  lemma FinishStartKeeps(s: State, t: Thread)
    requires Consistent(s) && Enabled(s, t, FinishStartS)
    ensures Consistent(FinishStart(s, t))
  {
    CallsAfterMove(s.threads, t, Outside);
    assert t !in Calls(s.threads);
  }

  lemma WaitKeeps(s: State, t: Thread)
    requires Consistent(s) && t < |s.threads| && LifecycleFree(s) && !Outstanding(s.threads[t]) && s.activeCalls != 0
    ensures Consistent(Move(s, t, Waiting(false)))
  {
    var after := Move(s, t, Waiting(false));
    CallsAfterMove(s.threads, t, Waiting(false));
    assert Calls(s.threads) - {t} == Calls(s.threads);
    LifecycleStaysFree(s, t, Waiting(false));
    assert Counted(after) && Exclusive(after);
  }

  lemma EraseKeeps(s: State, t: Thread)
    requires Consistent(s) && t < |s.threads| && LifecycleFree(s) && !Outstanding(s.threads[t]) && s.activeCalls == 0
    ensures Consistent(Move(s.(engine := None), t, Erasing))
  {
    NobodyCallsAtZero(s);
    CallsAfterMove(s.threads, t, Erasing);
    assert t !in Calls(s.threads);
  }

  lemma TryEraseKeeps(s: State, t: Thread)
    requires Consistent(s) && t < |s.threads| && LifecycleFree(s) && !Outstanding(s.threads[t])
    ensures Consistent(TryErase(s, t))
  {
    if s.activeCalls == 0 {
      EraseKeeps(s, t);
    } else {
      WaitKeeps(s, t);
    }
  }

  /** A thread that comes from a place outside the lifecycle lock gives it to nobody. */
  lemma LifecycleStaysFree(s: State, t: Thread, p: Place)
    requires t < |s.threads| && !HoldsLifecycle(s.threads[t]) && !HoldsLifecycle(p)
    ensures LifecycleFree(s.(threads := s.threads[t := p])) <==> LifecycleFree(s)
  {
    var moved := s.threads[t := p];
    if LifecycleFree(s.(threads := moved)) {
      forall u | 0 <= u < |s.threads| ensures !HoldsLifecycle(s.threads[u]) {
        assert !HoldsLifecycle(moved[u]);
      }
    }
  }

  lemma FinishStopKeeps(s: State, t: Thread)
    requires Consistent(s) && Enabled(s, t, FinishStopS)
    ensures Consistent(FinishStop(s, t))
  {
    CallsAfterMove(s.threads, t, Outside);
    assert t !in Calls(s.threads);
    NotifyingKeeps(Move(s.(scheduler := None, stopping := false), t, Outside));
  }

  lemma BeginKeeps(s: State, t: Thread)
    requires Consistent(s) && Enabled(s, t, BeginS)
    ensures Consistent(BeginCall(s, t).0)
  {
    if s.engine.Some? {
      CallsAfterMove(s.threads, t, InCall(s.engine.value));
      assert t !in Calls(s.threads);
    }
  }

  lemma SchedulerLockKeeps(s: State, t: Thread, p: Place)
    requires Consistent(s) && t < |s.threads| && Outstanding(s.threads[t]) && Outstanding(p)
    requires p.engine == s.threads[t].engine
    requires p.Ticking? ==> SchedulerFree(s)
    ensures Consistent(Move(s, t, p))
  {
    CallsAfterMove(s.threads, t, p);
    assert t in Calls(s.threads) && Calls(s.threads) + {t} == Calls(s.threads);
    LifecycleStaysFree(s, t, p);
  }

  lemma EndKeeps(s: State, t: Thread)
    requires Consistent(s) && Enabled(s, t, EndS)
    ensures Consistent(EndCall(s, t))
  {
    CallsAfterMove(s.threads, t, Outside);
    assert t in Calls(s.threads);
    var ended := Move(s.(activeCalls := s.activeCalls - 1), t, Outside);
    LifecycleStaysFree(s, t, Outside);
    assert Counted(ended) && Exclusive(ended) && Paired(ended);
    if ended.activeCalls == 0 {
      NotifyingKeeps(ended);
    }
  }

  lemma SectionKeeps(s: State, t: Thread, a: Section)
    requires Consistent(s) && Enabled(s, t, a)
    ensures Consistent(Do(s, t, a))
  {
    match a
    case StartS(works) => StartKeeps(s, t, works);
    case FinishStartS => FinishStartKeeps(s, t);
    case StopS =>
      if s.engine.Some? {
        StoppingKeeps(s);
        TryEraseKeeps(s.(stopping := true), t);
      }
    case WakeS => TryEraseKeeps(s, t);
    case FinishStopS => FinishStopKeeps(s, t);
    case BeginS => BeginKeeps(s, t);
    case LockS => SchedulerLockKeeps(s, t, Ticking(s.threads[t].engine));
    case UnlockS => SchedulerLockKeeps(s, t, InCall(s.threads[t].engine));
    case EndS => EndKeeps(s, t);
  }

  lemma StoppingKeeps(s: State)
    requires Consistent(s)
    ensures Consistent(s.(stopping := true)) && (LifecycleFree(s) ==> LifecycleFree(s.(stopping := true)))
  {}

  // ---------------------------------------------------------------------------
  // Every interleaving.
  // ---------------------------------------------------------------------------

  ghost predicate Initial(s: State) {
    && s.engine == None && s.scheduler == None && s.activeCalls == 0 && !s.stopping
    && forall t :: 0 <= t < |s.threads| ==> s.threads[t] == Outside
  }

  ghost predicate Run(states: seq<State>, moves: seq<(Thread, Section)>) {
    && |states| == |moves| + 1 && Initial(states[0])
    && forall i :: 0 <= i < |moves| ==>
         Enabled(states[i], moves[i].0, moves[i].1) && states[i + 1] == Do(states[i], moves[i].0, moves[i].1)
  }

  lemma {:induction false} RunIsConsistent(states: seq<State>, moves: seq<(Thread, Section)>, i: nat)
    requires Run(states, moves) && i <= |moves|
    ensures Consistent(states[i])
  {
    if i == 0 {
      assert Calls(states[0].threads) == {};
    } else {
      RunIsConsistent(states, moves, i - 1);
      SectionKeeps(states[i - 1], moves[i - 1].0, moves[i - 1].1);
    }
  }

  /**
   In every interleaving the counter is the number of outstanding calls, and each of them holds the
   current engine.
   */
  lemma CallsHoldTheEngine(states: seq<State>, moves: seq<(Thread, Section)>, i: nat)
    requires Run(states, moves) && i <= |moves|
    ensures states[i].activeCalls == |Calls(states[i].threads)|
    ensures forall t :: t in Calls(states[i].threads) ==> Some(states[i].threads[t].engine) == states[i].engine
  {
    RunIsConsistent(states, moves, i);
  }

  /** The engine goes away only when no call is outstanding, whatever `stopping` says. */
  lemma ClearedOnlyAtZero(states: seq<State>, moves: seq<(Thread, Section)>, i: nat)
    requires Run(states, moves) && i < |moves|
    requires states[i].engine.Some? && states[i + 1].engine != states[i].engine
    ensures states[i + 1].engine == None && states[i].activeCalls == 0 && Calls(states[i].threads) == {}
  {
    RunIsConsistent(states, moves, i);
    NobodyCallsAtZero(states[i]);
  }

  /** A tick that has begun always finds the scheduler, and it is the one of its own engine. */
  lemma BegunTickFindsItsScheduler(states: seq<State>, moves: seq<(Thread, Section)>, i: nat, t: Thread)
    requires Run(states, moves) && i <= |moves| && t < |states[i].threads| && Outstanding(states[i].threads[t])
    ensures states[i].scheduler == Some(states[i].threads[t].engine) == states[i].engine
  {
    RunIsConsistent(states, moves, i);
    var s := states[i];
    assert t in Calls(s.threads);
    forall u | 0 <= u < |s.threads| ensures !HoldsLifecycle(s.threads[u]) {
      if s.threads[u].Installing? {
        NobodyCallsAtZero(s);
      }
    }
  }

  /** Seen from outside the locks, engine and scheduler exist together. */
  lemma EngineAndSchedulerTogether(states: seq<State>, moves: seq<(Thread, Section)>, i: nat)
    requires Run(states, moves) && i <= |moves| && LifecycleFree(states[i])
    ensures states[i].engine == states[i].scheduler
  {
    RunIsConsistent(states, moves, i);
  }

  // ---------------------------------------------------------------------------
  // No deadlock and no lost wakeup.
  // ---------------------------------------------------------------------------

  /** The section with which a thread at this place goes on. */
  function Next(p: Place): Section {
    match p
    case Outside => BeginS
    case Installing => FinishStartS
    case Erasing => FinishStopS
    case Waiting(_) => WakeS
    case InCall(_) => EndS
    case Ticking(_) => UnlockS
  }

  /**
   While some thread is inside, one of the threads inside can go on, and not only by
   waking without a notification: nobody waits for a lock in a circle, and no
   waiting stop is forgotten.
   */
  lemma SomeoneCanGoOn(states: seq<State>, moves: seq<(Thread, Section)>, i: nat, t: Thread) returns (u: Thread)
    requires Run(states, moves) && i <= |moves| && t < |states[i].threads| && states[i].threads[t] != Outside
    ensures u < |states[i].threads| && states[i].threads[u] != Outside && states[i].threads[u] != Waiting(false)
    ensures Enabled(states[i], u, Next(states[i].threads[u]))
  {
    RunIsConsistent(states, moves, i);
    var s := states[i];
    if v :| 0 <= v < |s.threads| && s.threads[v].Ticking? {
      u := v;
    } else if v :| 0 <= v < |s.threads| && HoldsLifecycle(s.threads[v]) {
      u := v;
    } else if v :| 0 <= v < |s.threads| && s.threads[v].InCall? {
      u := v;
    } else {
      assert Calls(s.threads) == {};
      u := t;
    }
  }

  // ---------------------------------------------------------------------------
  // What a waiting stop may rely on.
  // ---------------------------------------------------------------------------

  /** Move `f` finished a stop while the other thread `t` was waiting in its own. */
  ghost predicate FinishedWhileWaiting(states: seq<State>, moves: seq<(Thread, Section)>, f: nat, t: Thread)
    requires Run(states, moves)
  {
    f < |moves| && moves[f].1 == FinishStopS && moves[f].0 != t && t < |states[f].threads|
    && states[f].threads[t].Waiting?
  }

  /** Move `k` is a stop that takes effect. */
  ghost predicate Stops(states: seq<State>, moves: seq<(Thread, Section)>, k: nat)
    requires Run(states, moves)
  {
    k < |moves| && moves[k].1 == StopS && states[k].engine.Some?
  }

  /** Before move `i`, another stop finished while `t` waited, and none took effect since. */
  ghost predicate Overtaken(states: seq<State>, moves: seq<(Thread, Section)>, i: nat, t: Thread)
    requires Run(states, moves)
  {
    exists f ::
      && 0 <= f < i && FinishedWhileWaiting(states, moves, f, t)
      && forall k :: f < k < i ==> !Stops(states, moves, k)
  }

  /** How one section changes what a waiting thread sees. */
  lemma WaitingSees(s: State, u: Thread, a: Section, t: Thread)
    requires Consistent(s) && Enabled(s, u, a) && t < |s.threads| && Do(s, u, a).threads[t].Waiting?
    ensures s.threads[t].Waiting? || (u == t && a == StopS && s.engine.Some?)
    ensures a == FinishStopS ==> u != t && s.threads[t].Waiting?
    ensures Do(s, u, a).stopping ==
            if a == FinishStopS then false else if a == StopS && s.engine.Some? then true else s.stopping
  {}

  lemma OvertakenGrows(states: seq<State>, moves: seq<(Thread, Section)>, i: nat, t: Thread)
    requires Run(states, moves) && 0 < i <= |moves|
    ensures Overtaken(states, moves, i, t) <==>
            || FinishedWhileWaiting(states, moves, i - 1, t)
            || (Overtaken(states, moves, i - 1, t) && !Stops(states, moves, i - 1))
  {
    if Overtaken(states, moves, i - 1, t) && !Stops(states, moves, i - 1) {
      var f :|
        && 0 <= f < i - 1 && FinishedWhileWaiting(states, moves, f, t)
        && forall k :: f < k < i - 1 ==> !Stops(states, moves, k);
      assert f < i;
    }
  }

  /**
   Exactly when a waiting stop finds `stopping` cleared: another stop finished
   while it waited, and no stop took effect since.
   */
  lemma {:induction false} WaitingWithoutStoppingIff(states: seq<State>, moves: seq<(Thread, Section)>, i: nat,
                                                     t: Thread)
    requires Run(states, moves) && i <= |moves| && t < |states[i].threads| && states[i].threads[t].Waiting?
    ensures !states[i].stopping <==> Overtaken(states, moves, i, t)
  {
    if i > 0 {
      RunIsConsistent(states, moves, i - 1);
      var s, u, a := states[i - 1], moves[i - 1].0, moves[i - 1].1;
      SameThreads(s, u, a);
      WaitingSees(s, u, a, t);
      OvertakenGrows(states, moves, i, t);
      if s.threads[t].Waiting? {
        WaitingWithoutStoppingIff(states, moves, i - 1, t);
      }
    }
  }

  lemma SameThreads(s: State, t: Thread, a: Section)
    requires Enabled(s, t, a)
    ensures |Do(s, t, a).threads| == |s.threads|
  {}

  /**
   While a stop is under way no call begins: every call that is outstanding was outstanding before, so the
   stop waits for no others.
   */
  lemma {:induction false} CallsDrain(states: seq<State>, moves: seq<(Thread, Section)>, i: nat, j: nat)
    requires Run(states, moves) && i <= j <= |moves| && forall k :: i <= k < j ==> states[k].stopping
    ensures Calls(states[j].threads) <= Calls(states[i].threads)
  {
    if i < j {
      CallsDrain(states, moves, i, j - 1);
      StepOfRunDrains(states, moves, j - 1);
    }
  }

  lemma StepOfRunDrains(states: seq<State>, moves: seq<(Thread, Section)>, k: nat)
    requires Run(states, moves) && k < |moves| && states[k].stopping
    ensures Calls(states[k + 1].threads) <= Calls(states[k].threads)
  {
    StepDrains(states[k], moves[k].0, moves[k].1);
  }

  lemma StepDrains(s: State, t: Thread, a: Section)
    requires Enabled(s, t, a) && s.stopping
    ensures Calls(Do(s, t, a).threads) <= Calls(s.threads)
  {}

  /** A start that succeeds leaves an engine that no stop is erasing; it keeps one that runs; it fails for a reason. */
  lemma StartOutcome(s: State, t: Thread, works: bool)
    requires t < |s.threads|
    ensures var (after, status) := Start(s, t, works);
            && (status == Success ==> after.engine.Some? && !after.stopping)
            && (s.engine.Some? ==> after.engine == s.engine)
            && (status == InvalidState <==> s.stopping)
            && (status == EngineError <==> !s.stopping && s.engine.None? && !works)
            && (status != Success ==> after == s)
  {}

  /** For a caller: while no stop finishes beside a waiting one, a waiting stop means that the runtime is stopping. */
  lemma WaitingMeansStopping(states: seq<State>, moves: seq<(Thread, Section)>, i: nat, t: Thread)
    requires Run(states, moves) && i <= |moves| && t < |states[i].threads| && states[i].threads[t].Waiting?
    requires forall f :: 0 <= f < i ==> !FinishedWhileWaiting(states, moves, f, t)
    ensures states[i].stopping
  {
    WaitingWithoutStoppingIff(states, moves, i, t);
  }

  lemma Extend(states: seq<State>, moves: seq<(Thread, Section)>, t: Thread, a: Section, next: State)
    returns (longer: seq<State>, more: seq<(Thread, Section)>)
    requires Run(states, moves) && Enabled(states[|moves|], t, a) && next == Do(states[|moves|], t, a)
    ensures Run(longer, more) && longer[|more|] == next
  {
    longer, more := states + [next], moves + [(t, a)];
  }

  /**
   Two stops with a start between them: a waiting stop may find `stopping` cleared, so only the
   counter protects the engine.
   */
  lemma StopMayWaitWithoutStopping() returns (states: seq<State>, moves: seq<(Thread, Section)>)
    ensures Run(states, moves)
    ensures var last := states[|moves|];
            last.threads == [Waiting(true), Outside, InCall(1)] && !last.stopping && last.activeCalls == 1
  {
    states, moves := OneStopErases();
    states, moves :=
      Extend(states, moves, 1, StartS(true), State(Some(1), None, 0, false, 2, [Waiting(true), Installing, Outside]));
    states, moves :=
      Extend(states, moves, 1, FinishStartS, State(Some(1), Some(1), 0, false, 2, [Waiting(true), Outside, Outside]));
    states, moves :=
      Extend(states, moves, 2, BeginS, State(Some(1), Some(1), 1, false, 2, [Waiting(true), Outside, InCall(1)]));
  }

  lemma OneStopErases() returns (states: seq<State>, moves: seq<(Thread, Section)>)
    ensures Run(states, moves)
    ensures states[|moves|] == State(None, None, 0, false, 1, [Waiting(true), Outside, Outside])
  {
    states, moves := TwoStopsWait();
    states, moves :=
      Extend(states, moves, 2, EndS, State(Some(0), Some(0), 0, true, 1, [Waiting(true), Waiting(true), Outside]));
    states, moves :=
      Extend(states, moves, 1, WakeS, State(None, Some(0), 0, true, 1, [Waiting(true), Erasing, Outside]));
    states, moves :=
      Extend(states, moves, 1, FinishStopS, State(None, None, 0, false, 1, [Waiting(true), Outside, Outside]));
  }

  lemma TwoStopsWait() returns (states: seq<State>, moves: seq<(Thread, Section)>)
    ensures Run(states, moves)
    ensures states[|moves|] == State(Some(0), Some(0), 1, true, 1, [Waiting(false), Waiting(false), InCall(0)])
  {
    states, moves := OneCallBegins();
    states, moves :=
      Extend(states, moves, 0, StopS, State(Some(0), Some(0), 1, true, 1, [Waiting(false), Outside, InCall(0)]));
    states, moves :=
      Extend(states, moves, 1, StopS, State(Some(0), Some(0), 1, true, 1, [Waiting(false), Waiting(false), InCall(0)]));
  }

  lemma OneCallBegins() returns (states: seq<State>, moves: seq<(Thread, Section)>)
    ensures Run(states, moves)
    ensures states[|moves|] == State(Some(0), Some(0), 1, false, 1, [Outside, Outside, InCall(0)])
  {
    states, moves := [State(None, None, 0, false, 0, [Outside, Outside, Outside])], [];
    states, moves :=
      Extend(states, moves, 2, StartS(true), State(Some(0), None, 0, false, 1, [Outside, Outside, Installing]));
    states, moves :=
      Extend(states, moves, 2, FinishStartS, State(Some(0), Some(0), 0, false, 1, [Outside, Outside, Outside]));
    states, moves :=
      Extend(states, moves, 2, BeginS, State(Some(0), Some(0), 1, false, 1, [Outside, Outside, InCall(0)]));
  }
}
