/** What every atomic step of the thread pool keeps. */
module PoolInvariant {
  import opened Common
  import opened ThreadPool

  // ---- Who holds which mutex at which program counter ----

  predicate WorkerHoldsTasks(pc: WorkerPc) {
    pc.Popped? || pc.Test? || pc.TimedOut? || Leaving(pc) || (Stopping(pc) && !pc.Stopped?)
  }

  predicate WorkerHoldsMon(pc: WorkerPc) {
    pc.PushFree? || pc.NotifyMon? || pc.UnlockMon?
  }

  predicate Adding(pc: ClientPc) {
    InAddThread(pc) && !pc.AddLock?
  }

  predicate ClientHoldsTasks(c: nat, pc: ClientPc) {
    pc.ComCheck? || pc.ComPush? || pc.ComUnlock? || (c != 0 && InAddThread(pc))
  }

  predicate MonitorHoldsMon(pc: MonitorPc) {
    pc.MonTest? || pc.MonRecheck? || pc.MonScan? || pc.MonLockPool? || MonitorHoldsPool(pc) || pc.MonErase?
  }

  predicate MonitorHoldsPool(pc: MonitorPc) {
    pc.MonFind? || pc.MonUnlockPool?
  }

  ghost predicate TaskMutex(s: State) {
    && (forall t :: 0 <= t < |s.workers| ==>
          (WorkerHoldsTasks(s.workers[t]) <==> s.tasksOwner == Some(Worker(t))))
    && (forall c :: 0 <= c < |s.clients| ==>
          (ClientHoldsTasks(c, s.clients[c]) <==> s.tasksOwner == Some(Client(c))))
    && match s.tasksOwner
       case None => true
       case Some(Worker(t)) => t < |s.workers|
       case Some(Client(c)) => c < |s.clients|
       case Some(Monitor) => false
  }

  ghost predicate MonitorMutex(s: State) {
    && (forall t :: 0 <= t < |s.workers| ==>
          (WorkerHoldsMon(s.workers[t]) <==> s.monOwner == Some(Worker(t))))
    && (MonitorHoldsMon(s.monitor) <==> s.monOwner == Some(Monitor))
    && match s.monOwner
       case None | Some(Monitor) => true
       case Some(Worker(t)) => t < |s.workers|
       case Some(Client(_)) => false
  }

  ghost predicate PoolMutex(s: State) {
    && (forall c :: 0 <= c < |s.clients| ==>
          (Adding(s.clients[c]) <==> s.poolOwner == Some(Client(c))))
    && (MonitorHoldsPool(s.monitor) <==> s.poolOwner == Some(Monitor))
    && match s.poolOwner
       case None | Some(Monitor) => true
       case Some(Client(c)) => c < |s.clients|
       case Some(Worker(_)) => false
  }

  /** A mutex is owned by exactly the thread whose program counter is inside its critical section. */
  ghost predicate Ownership(s: State) {
    TaskMutex(s) && MonitorMutex(s) && PoolMutex(s)
  }

  // ---- Calls: nobody commits before construction ends or after ShutDown ----

  /** The threads that an AddThread call in progress still has to start, if it is one. */
  function Remaining(pc: ClientPc): nat {
    match pc
    case AddLock(size) => size
    case AddTest(size) => size
    case AddIdle(size, _) => size
    case AddNow(size, _) => size
    case AddStart(size, _) => if size == 0 then 0 else size - 1
    case AddWait(size, _) => if size == 0 then 0 else size - 1
    case _ => 0
  }

  ghost predicate Calls(s: State) {
    && |s.clients| > 0
    && (s.clients[0] == Done || InAddThread(s.clients[0]))
    && (s.clients[0] != Done ==> |s.clients| == 1)
    && (s.status != Running ==> forall c :: 0 <= c < |s.clients| ==> s.clients[c] == Done)
  }

  /** The thread that an AddThread call in progress is about to start, and how far it got. */
  ghost predicate Spawning(s: State, pc: ClientPc) {
    match pc
    case AddIdle(size, t) => size > 0 && t < |s.workers| && s.workers[t] == Emplaced
    case AddNow(size, t) => size > 0 && t < |s.workers| && s.workers[t] == IdleCounted
    case AddStart(size, t) => size > 0 && t < |s.workers| && s.workers[t] == Counted
    case AddWait(size, t) => size > 0 && t < |s.workers| && !Unborn(s.workers[t])
    case _ => true
  }

  /** The thread not yet started that a program counter stands for. */
  predicate Spawns(pc: ClientPc, t: nat) {
    match pc
    case AddIdle(_, u) => u == t
    case AddNow(_, u) => u == t
    case AddStart(_, u) => u == t
    case _ => false
  }

  /** A thread that is registered but not started belongs to the AddThread call that holds the pool. */
  ghost predicate Births(s: State) {
    && (forall c :: 0 <= c < |s.clients| ==> Spawning(s, s.clients[c]))
    && (forall t :: 0 <= t < |s.workers| && Unborn(s.workers[t]) ==>
          && s.poolOwner.Some? && s.poolOwner.value.Client? && s.poolOwner.value.c < |s.clients|
          && Spawns(s.clients[s.poolOwner.value.c], t))
  }

  // ---- The start of a thread ----

  /** A thread that is past line 32 of src/base/thread.cpp, and one that is past line 35. */
  predicate TidSet(pc: WorkerPc) {
    !Unborn(pc) && !pc.Boot?
  }

  predicate Announced(pc: WorkerPc) {
    TidSet(pc) && !pc.Announce?
  }

  ghost predicate Handshake(s: State) {
    && (forall t :: t in s.tids <==> 0 <= t < |s.workers| && TidSet(s.workers[t]))
    && (forall t :: t in s.latched <==> 0 <= t < |s.workers| && Announced(s.workers[t]))
  }

  /** What moves no thread past these two lines keeps all that is said about them. */
  lemma HandshakeKept(s: State, s': State)
    requires Handshake(s) && s'.tids == s.tids && s'.latched == s.latched && |s.workers| <= |s'.workers|
    requires forall t :: 0 <= t < |s.workers| ==>
               TidSet(s'.workers[t]) == TidSet(s.workers[t]) && Announced(s'.workers[t]) == Announced(s.workers[t])
    requires forall t :: |s.workers| <= t < |s'.workers| ==> !TidSet(s'.workers[t])
    ensures Handshake(s')
  {
  }

  lemma SameWorkersKeepHandshake(s: State, s': State)
    requires Handshake(s) && s'.workers == s.workers && s'.tids == s.tids && s'.latched == s.latched
    ensures Handshake(s')
  {
  }

  // ---- Counters ----

  /** A worker that now_thread_num_ counts: registered there and not yet past its decrement. */
  predicate InNow(pc: WorkerPc) {
    !(pc.Emplaced? || pc.IdleCounted? || pc.LockMon? || pc.PushFree? || pc.NotifyMon? || pc.UnlockMon?
      || pc.UnlockTasks? || pc.Left? || pc.Reaped? || pc.StopUnlock? || pc.Stopped?)
  }

  /** A worker that idle_thread_num_ counts: alive and outside lines 68 to 70. */
  predicate InIdle(pc: WorkerPc) {
    && (pc.IdleCounted? || InNow(pc))
    && !(pc.LeaveNow? || pc.StopNow? || pc.Busy? || pc.Finished?)
  }

  ghost predicate Counters(s: State) {
    && s.now == Count(s.workers, InNow)
    && s.idle == Count(s.workers, InIdle)
  }

  /** now_thread_num_ stays between the core and the maximum. */
  ghost predicate Bounds(cfg: Config, s: State) {
    && s.now <= cfg.maxPool
    && (forall c :: 0 <= c < |s.clients| && (s.clients[c].AddIdle? || s.clients[c].AddNow?) ==>
          s.now < cfg.maxPool)
    && (forall t :: 0 <= t < |s.workers| && (s.workers[t].LeaveIdle? || s.workers[t].LeaveNow?) ==>
          s.now > cfg.corePool)
    && ((s.status == Running || s.tasks != []) && |s.clients| > 0 ==>
          s.now + Remaining(s.clients[0]) >= cfg.corePool)
  }

  // ---- Shutdown ----

  /** A worker takes the shutdown exit only when nothing is queued, and nothing is queued after. */
  ghost predicate Drain(s: State) {
    && (forall t :: 0 <= t < |s.workers| && Stopping(s.workers[t]) ==> s.status != Running && s.tasks == [])
    && (s.monitor.MonExited? ==> s.status != Running)
  }

  // ---- Tasks ----

  /** The task in the hands of a worker. */
  function Held(pc: WorkerPc): Option<nat> {
    match pc
    case Popped(k) => Some(k)
    case Picked(k) => Some(k)
    case Busy(k) => Some(k)
    case _ => None
  }

  /** How many tasks have left the queue. */
  function Taken(s: State): int {
    s.committed - |s.tasks|
  }

  /** The queue holds the latest commits in order; every earlier one is held once or finished once. */
  ghost predicate Tasks(s: State) {
    && Taken(s) >= 0
    && (forall i :: 0 <= i < |s.tasks| ==> s.tasks[i] == Taken(s) + i)
    && (forall t :: 0 <= t < |s.workers| && Held(s.workers[t]).Some? ==>
          Held(s.workers[t]).value < Taken(s) && Held(s.workers[t]).value !in s.finished)
    && (forall t, u :: 0 <= t < |s.workers| && 0 <= u < |s.workers| ==>
          (Held(s.workers[t]).Some? && Held(s.workers[t]) == Held(s.workers[u]) ==> t == u))
    && (forall k :: k in s.finished ==> k < Taken(s))
    && NoDuplicates(s.finished)
    && (forall k: nat :: k < Taken(s) ==> k in s.finished || SomeoneHolds(s, k))
  }

  ghost predicate SomeoneHolds(s: State, k: nat) {
    exists t :: 0 <= t < |s.workers| && Held(s.workers[t]) == Some(k)
  }

  /** What leaves the queue and every worker's hands alone keeps all that is said about tasks. */
  lemma HeldKeepsTasks(s: State, s': State)
    requires Tasks(s) && |s.workers| <= |s'.workers|
    requires forall t :: 0 <= t < |s.workers| ==> Held(s'.workers[t]) == Held(s.workers[t])
    requires forall t :: |s.workers| <= t < |s'.workers| ==> Held(s'.workers[t]) == None
    requires s'.tasks == s.tasks && s'.committed == s.committed && s'.finished == s.finished
    ensures Tasks(s')
  {
    forall k: nat | k < Taken(s') && k !in s'.finished
      ensures SomeoneHolds(s', k)
    {
      var u :| 0 <= u < |s.workers| && Held(s.workers[u]) == Some(k);
      assert Held(s'.workers[u]) == Some(k);
    }
  }

  // ---- Reaping ----

  /** A worker that has put itself on the monitor's list. */
  predicate Reported(pc: WorkerPc) {
    pc.NotifyMon? || pc.UnlockMon? || pc.UnlockTasks? || pc.Left?
  }

  /** The first entry of the free list has already been joined. */
  predicate HeadJoined(pc: MonitorPc) {
    pc.MonUnlockPool? || pc.MonErase?
  }

  ghost predicate Reaping(s: State) {
    && NoDuplicates(s.list)
    && (forall t :: t in s.list <==> 0 <= t < |s.workers| && s.workers[t] != Reaped)
    && NoDuplicates(s.free)
    && (HeadJoined(s.monitor) ==> s.free != [] && s.free[0] < |s.workers| && s.workers[s.free[0]] == Reaped)
    && (forall t :: 0 <= t < |s.workers| && Reported(s.workers[t]) ==> t in s.free)
    && (forall i :: (if HeadJoined(s.monitor) then 1 else 0) <= i < |s.free| ==>
          s.free[i] < |s.workers| && Reported(s.workers[s.free[i]]))
    && (s.monitor.MonLockPool? || s.monitor.MonFind? ==> s.free != [])
  }

  /** What leaves the two lists, the monitor and every worker's report alone keeps all that is said about reaping. */
  lemma ReportsKeepReaping(s: State, s': State)
    requires Reaping(s) && |s'.workers| == |s.workers|
    requires s'.list == s.list && s'.free == s.free && s'.monitor == s.monitor
    requires forall t :: 0 <= t < |s.workers| ==>
               && (s'.workers[t] == Reaped <==> s.workers[t] == Reaped)
               && Reported(s'.workers[t]) == Reported(s.workers[t])
    ensures Reaping(s')
  {
  }

  /** The monitor sleeps un-notified only while its list is empty or its notifier is on the way. */
  ghost predicate MonitorAwake(s: State) {
    s.monitor == MonAsleep && s.free != [] ==>
      exists t :: 0 <= t < |s.workers| && s.workers[t] == NotifyMon
  }

  // ---- Wake-ups ----

  /** A worker that is awake and will look at the queue before it can leave or sleep. */
  predicate Attentive(pc: WorkerPc) {
    Serving(pc) || pc.Boot? || pc.Announce? || pc.LockTasks? || pc.Test? || pc == Woken(false)
  }

  /** A commit is between its push and its Notify. */
  predicate OwesNotify(pc: ClientPc) {
    pc.ComUnlock? || pc.ComNotify?
  }

  ghost predicate SomeAttentive(s: State) {
    exists t :: 0 <= t < |s.workers| && Attentive(s.workers[t])
  }

  ghost predicate NotifyPending(s: State) {
    exists c :: 0 <= c < |s.clients| && OwesNotify(s.clients[c])
  }

  // ---- The invariant ----

  ghost predicate Inv(cfg: Config, s: State) {
    && Ownership(s) && Calls(s) && Births(s) && Counters(s) && Bounds(cfg, s)
    && Drain(s) && Tasks(s) && Reaping(s) && MonitorAwake(s) && Handshake(s)
  }

  lemma InitInv(cfg: Config)
    requires cfg.Valid()
    ensures Inv(cfg, Init(cfg))
  {
  }

  /** A mutex changes hands only by being acquired when free or released by its owner. */
  predicate LockMoves(had: bool, has: bool, me: Actor, before: Option<Actor>, after: Option<Actor>) {
    if has && !had then before == None && after == Some(me)
    else if had && !has then after == None
    else after == before
  }
}
