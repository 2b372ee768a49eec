/**
 Deadlock freedom of the thread pool: every nested acquisition follows the rank tasks, monitor, pool, other
 thread, so nobody waits in a circle; and a pool in which nothing can move has done its work.
 */
module PoolDeadlock {
  import opened Common
  import opened ThreadPool
  import opened PoolInvariant
  import opened PoolTheorems
  import opened PoolWakeUps
  import PoolMonitor

  // ---- Who waits for whom ----

  ghost predicate Exists(s: State, a: Actor) {
    match a
    case Worker(t) => t < |s.workers|
    case Client(c) => c < |s.clients|
    case Monitor => true
  }

  /** The thread that `a` is blocked on: the owner of a mutex it wants, or a thread it joins or starts. */
  function WaitsFor(s: State, a: Actor): Option<Actor>
    requires a.Worker? ==> a.t < |s.workers|
    requires a.Client? ==> a.c < |s.clients|
  {
    match a
    case Worker(t) =>
      (match s.workers[t]
       case LockTasks => s.tasksOwner
       case Woken(_) => s.tasksOwner
       case LockMon => s.monOwner
       case _ => None)
    case Client(c) =>
      (match s.clients[c]
       case ComLock => s.tasksOwner
       case AddLock(_) => s.poolOwner
       case AddWait(_, t) => if Started(s, t) then None else Some(Worker(t))
       case _ => None)
    case Monitor =>
      (match s.monitor
       case MonLock => s.monOwner
       case MonWoken => s.monOwner
       case MonLockPool => s.poolOwner
       case MonFind =>
         if s.free != [] && s.free[0] < |s.workers| && !s.workers[s.free[0]].Left?
         then Some(Worker(s.free[0])) else None
       case _ => None)
  }

  /** The rank of what a thread wants next: task mutex, monitor mutex, pool mutex, another thread, nothing. */
  function Rank(s: State, a: Actor): nat
    requires a.Worker? ==> a.t < |s.workers|
    requires a.Client? ==> a.c < |s.clients|
  {
    match a
    case Worker(t) =>
      (match s.workers[t]
       case LockTasks => 0
       case Woken(_) => 0
       case LockMon => 1
       case _ => 4)
    case Client(c) =>
      (match s.clients[c]
       case ComLock => 0
       case AddLock(_) => 2
       case AddWait(_, t) => if Started(s, t) then 4 else 3
       case _ => 4)
    case Monitor =>
      (match s.monitor
       case MonLock => 1
       case MonWoken => 1
       case MonLockPool => 2
       case MonFind => 3
       case _ => 4)
  }

  /** A thread whose program has nothing more to do on its own. */
  ghost predicate AtRest(s: State, a: Actor)
    requires Exists(s, a)
  {
    match a
    case Worker(t) =>
      var pc := s.workers[t];
      Unborn(pc) || pc.Asleep? || pc.Left? || pc.Reaped? || pc.Stopped?
    case Client(c) => s.clients[c] == Done
    case Monitor => s.monitor == MonAsleep || s.monitor == MonExited
  }

  /** Whoever is waited for wants something of a strictly higher rank, and is not at rest. */
  ghost predicate Rises(s: State, a: Actor)
    requires Exists(s, a)
  {
    WaitsFor(s, a).Some? ==>
      var b := WaitsFor(s, a).value;
      Exists(s, b) && Rank(s, a) < Rank(s, b) && !AtRest(s, b)
  }

  lemma RankRises(cfg: Config, s: State, a: Actor)
    requires Inv(cfg, s) && Exists(s, a)
    ensures Rises(s, a)
  {
    match a
    case Worker(t) => WorkerRises(s, t);
    case Client(c) => ClientRises(s, c);
    case Monitor => MonitorRises(s);
  }

  lemma WorkerRises(s: State, t: nat)
    requires Ownership(s) && t < |s.workers|
    ensures Rises(s, Worker(t))
  {
  }

  lemma ClientRises(s: State, c: nat)
    requires Ownership(s) && Births(s) && Handshake(s) && c < |s.clients|
    ensures Rises(s, Client(c))
  {
    assert Spawning(s, s.clients[c]);
  }

  lemma MonitorRises(s: State)
    requires Ownership(s) && Reaping(s)
    ensures Rises(s, Monitor)
  {
  }

  /** A chain of threads, each blocked on the next. */
  ghost predicate IsChain(s: State, chain: seq<Actor>) {
    && (forall i :: 0 <= i < |chain| ==> Exists(s, chain[i]))
    && (forall i :: 0 <= i < |chain| - 1 ==> WaitsFor(s, chain[i]) == Some(chain[i + 1]))
  }

  lemma {:induction false} ChainRises(s: State, chain: seq<Actor>)
    requires IsChain(s, chain) && |chain| >= 2
    requires forall a :: Exists(s, a) ==> Rises(s, a)
    ensures Rank(s, chain[0]) < Rank(s, chain[|chain| - 1])
  {
    var n := |chain| - 1;
    assert Rises(s, chain[n - 1]);
    assert WaitsFor(s, chain[n - 1]) == Some(chain[n - 1 + 1]);
    if n == 1 {
    } else {
      ChainRises(s, chain[..n]);
    }
  }

  /** No reachable state has a cycle of threads that wait for each other, however many there are. */
  lemma NoWaitCycle(cfg: Config, states: seq<State>, actions: seq<Action>, k: nat, chain: seq<Actor>)
    requires cfg.Valid() && IsPoolRun(cfg, states, actions) && k < |states|
    requires IsChain(states[k], chain) && |chain| >= 2
    ensures chain[0] != chain[|chain| - 1]
  {
    RunKeepsInv(cfg, states, actions, k);
    forall a | Exists(states[k], a)
      ensures Rises(states[k], a)
    {
      RankRises(cfg, states[k], a);
    }
    ChainRises(states[k], chain);
  }

  // ---- Quiescence ----

  /** Some thread can take a step of its program (a timeout or a new call is not one). */
  ghost predicate CanMove(cfg: Config, s: State) {
    || (exists t: nat :: t < |s.workers| && WorkerNext(cfg, s, t).Some?)
    || (exists c: nat, pick: nat, late: bool :: c < |s.clients| && ClientNext(cfg, s, c, pick, late).Some?)
    || MonitorNext(s).Some?
  }

  /** A thread that waits for nobody and is not at rest can move. */
  ghost predicate MovesUnlessBlocked(cfg: Config, s: State, a: Actor)
    requires Exists(s, a)
  {
    WaitsFor(s, a).None? && !AtRest(s, a) ==> CanMove(cfg, s)
  }

  lemma UnblockedMoves(cfg: Config, s: State, a: Actor)
    requires Inv(cfg, s) && Exists(s, a)
    ensures MovesUnlessBlocked(cfg, s, a)
  {
    if WaitsFor(s, a).None? && !AtRest(s, a) {
      match a
      case Worker(t) => WorkerMoves(cfg, s, t);
      case Client(c) =>
        ClientMoves(cfg, s, c);
        var pick: nat :| ClientNext(cfg, s, c, pick, false).Some?;
      case Monitor => MonitorMoves(s);
    }
  }

  lemma WorkerMoves(cfg: Config, s: State, t: nat)
    requires t < |s.workers| && WaitsFor(s, Worker(t)).None? && !AtRest(s, Worker(t))
    ensures WorkerNext(cfg, s, t).Some?
  {
  }

  lemma ClientMoves(cfg: Config, s: State, c: nat)
    requires Ownership(s) && Births(s) && c < |s.clients|
    requires WaitsFor(s, Client(c)).None? && !AtRest(s, Client(c))
    ensures exists pick: nat :: ClientNext(cfg, s, c, pick, false).Some?
  {
    var pick: nat := 0;
    if SomeAsleep(s) {
      pick :| pick < |s.workers| && s.workers[pick] == Asleep;
    }
    assert Spawning(s, s.clients[c]);
    assert ClientNext(cfg, s, c, pick, false).Some?;
  }

  lemma MonitorMoves(s: State)
    requires Reaping(s) && WaitsFor(s, Monitor).None? && !AtRest(s, Monitor)
    ensures MonitorNext(s).Some?
  {
    if s.monitor.MonFind? {
      PoolMonitor.FindIsFirst(s.list, s.free[0]);
    }
  }

  /** From any blocked or busy thread, following the waits ends at a thread that can move. */
  lemma {:induction false} SomeoneMoves(cfg: Config, s: State, a: Actor)
    requires forall b :: Exists(s, b) ==> Rises(s, b)
    requires forall b :: Exists(s, b) ==> MovesUnlessBlocked(cfg, s, b)
    requires Exists(s, a) && !AtRest(s, a)
    ensures CanMove(cfg, s)
    decreases 4 - Rank(s, a)
  {
    assert Rises(s, a) && MovesUnlessBlocked(cfg, s, a);
    if WaitsFor(s, a).None? {
    } else {
      SomeoneMoves(cfg, s, WaitsFor(s, a).value);
    }
  }

  /**
   Deadlock freedom and complete service. In every reachable state in which no thread can move, running or
   shut down: every call has returned, no thread is stuck half-way, every thread that timed out has been
   joined, and while the pool runs both counters agree and the remaining threads are all asleep. With a
   non-empty core, the queue is then empty and every task ever committed has finished, provided no
   wake-up was lost; without wake-ups that come after the deadline, none is.
   */
  lemma QuiescentMeansDone(cfg: Config, states: seq<State>, actions: seq<Action>, k: nat)
    requires cfg.Valid() && IsPoolRun(cfg, states, actions) && k < |states|
    requires !CanMove(cfg, states[k])
    ensures var s := states[k];
      && (forall c :: 0 <= c < |s.clients| ==> s.clients[c] == Done)
      && (forall t :: 0 <= t < |s.workers| ==>
            s.workers[t] == Asleep || s.workers[t] == Left || s.workers[t] == Reaped || s.workers[t] == Stopped)
      && (s.status == Running ==> s.free == [] && s.monitor == MonAsleep && s.now == s.idle >= cfg.corePool)
      && (s.status == Running ==> forall t :: 0 <= t < |s.workers| ==> s.workers[t] == Asleep || s.workers[t] == Reaped)
    ensures cfg.corePool >= 1 && NoDesertion(cfg, states, actions, k) ==>
              states[k].tasks == [] && |states[k].finished| == states[k].committed
  {
    var s := states[k];
    RunKeepsInv(cfg, states, actions, k);
    EveryoneRests(cfg, s);
    RestingCalls(cfg, s);
    RestingPool(cfg, s);
    if cfg.corePool >= 1 && NoDesertion(cfg, states, actions, k) {
      AttendedExactlyWithoutDesertion(cfg, states, actions, k);
      assert Covered(states[k], true);
      RestingQueue(cfg, s);
      EverythingFinished(s);
    }
  }

  lemma EveryoneRests(cfg: Config, s: State)
    requires Inv(cfg, s) && !CanMove(cfg, s)
    ensures forall a :: Exists(s, a) ==> AtRest(s, a)
  {
    forall a | Exists(s, a)
      ensures Rises(s, a) && MovesUnlessBlocked(cfg, s, a)
    {
      RankRises(cfg, s, a);
      UnblockedMoves(cfg, s, a);
    }
    forall a | Exists(s, a)
      ensures AtRest(s, a)
    {
      if !AtRest(s, a) {
        SomeoneMoves(cfg, s, a);
      }
    }
  }

  /** When every thread is at rest no call is open, no thread is half-started and no task is held. */
  lemma RestingCalls(cfg: Config, s: State)
    requires Inv(cfg, s) && forall a :: Exists(s, a) ==> AtRest(s, a)
    ensures forall c :: 0 <= c < |s.clients| ==> s.clients[c] == Done
    ensures forall t :: 0 <= t < |s.workers| ==>
              s.workers[t] == Asleep || s.workers[t] == Left || s.workers[t] == Reaped || s.workers[t] == Stopped
    ensures s.monitor == MonAsleep || s.monitor == MonExited
  {
    forall c | 0 <= c < |s.clients|
      ensures s.clients[c] == Done
    {
      assert AtRest(s, Client(c));
    }
    forall t | 0 <= t < |s.workers|
      ensures !Unborn(s.workers[t]) && AtRest(s, Worker(t))
    {
      assert AtRest(s, Worker(t));
    }
    assert AtRest(s, Monitor);
  }

  ghost predicate Resting(s: State) {
    && (forall c :: 0 <= c < |s.clients| ==> s.clients[c] == Done)
    && (forall t :: 0 <= t < |s.workers| ==>
          s.workers[t] == Asleep || s.workers[t] == Left || s.workers[t] == Reaped || s.workers[t] == Stopped)
    && (s.monitor == MonAsleep || s.monitor == MonExited)
  }

  lemma RestingPool(cfg: Config, s: State)
    requires Inv(cfg, s) && Resting(s)
    ensures s.status == Running ==> s.free == [] && s.monitor == MonAsleep && s.now == s.idle >= cfg.corePool
    ensures s.status == Running ==>
              forall t :: 0 <= t < |s.workers| ==> s.workers[t] == Asleep || s.workers[t] == Reaped
  {
    RestingCounters(s);
    if s.status == Running {
      RestingMonitor(s);
    }
  }

  /** While the pool runs, everybody who left has been reaped: the monitor would otherwise not sleep. */
  lemma RestingMonitor(s: State)
    requires Drain(s) && Reaping(s) && MonitorAwake(s) && Resting(s) && s.status == Running
    ensures s.free == [] && s.monitor == MonAsleep
    ensures forall t :: 0 <= t < |s.workers| ==> s.workers[t] == Asleep || s.workers[t] == Reaped
  {
  }

  lemma NobodyUndecided(s: State)
    requires Resting(s)
    ensures Count(s.workers, Undecided) == 0
  {
    if Count(s.workers, Undecided) > 0 {
      var t := CountWitness(s.workers, Undecided);
    }
  }

  /** A queue that is attended to is empty when everybody rests. */
  lemma NobodyLooks(s: State)
    requires Resting(s)
    ensures !SomeBaton(s, true) && !NotifyPending(s) && !SomeAttentive(s)
  {
  }

  lemma RestingQueue(cfg: Config, s: State)
    requires Inv(cfg, s) && Resting(s) && cfg.corePool >= 1 && Covered(s, true)
    ensures s.tasks == []
  {
    NobodyLooks(s);
    if s.tasks != [] {
      CountUndecided(cfg, s);
      NobodyUndecided(s);
    }
  }

  lemma EverythingFinished(s: State)
    requires Tasks(s) && Resting(s) && s.tasks == []
    ensures |s.finished| == s.committed
  {
    assert forall j: nat :: !SomeoneHolds(s, j);
    AllBelow(s.finished, s.committed);
  }

  lemma RestingCounters(s: State)
    requires Counters(s) && Resting(s)
    ensures s.now == s.idle
  {
    CountSplit(s.workers, InNow, InIdle, (pc: WorkerPc) => false);
    CountSplit(s.workers, InIdle, InNow, (pc: WorkerPc) => false);
    CountNone(s.workers);
  }

  lemma {:induction false} CountNone(ws: seq<WorkerPc>)
    ensures Count(ws, (pc: WorkerPc) => false) == 0
  {
    if Count(ws, (pc: WorkerPc) => false) > 0 {
      var t := CountWitness(ws, (pc: WorkerPc) => false);
    }
  }

  /** The values of a sequence, and the numbers below `n`, as sets. */
  function Values(s: seq<nat>): set<nat> {
    set x | x in s
  }

  function Below(n: nat): set<nat> {
    if n == 0 then {} else Below(n - 1) + {n - 1}
  }

  lemma {:induction false} ValuesSize(s: seq<nat>)
    requires NoDuplicates(s)
    ensures |Values(s)| == |s|
  {
    if s == [] {
    } else {
      var n := |s| - 1;
      ValuesSize(s[..n]);
      assert s == s[..n] + [s[n]];
      assert Values(s) == Values(s[..n]) + {s[n]};
    }
  }

  lemma {:induction false} BelowSize(n: nat)
    ensures |Below(n)| == n && forall j: nat :: j in Below(n) <==> j < n
  {
    if n == 0 {
    } else {
      BelowSize(n - 1);
    }
  }

  /** A sequence without duplicates whose values are exactly 0 .. n - 1 has length n. */
  lemma AllBelow(s: seq<nat>, n: nat)
    requires NoDuplicates(s)
    requires forall j: nat :: j < n <==> j in s
    ensures |s| == n
  {
    ValuesSize(s);
    BelowSize(n);
    assert Values(s) == Below(n);
  }
}
