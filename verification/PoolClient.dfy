/** Steps of the constructor, of Commit and of ShutDown keep the invariant of the pool. */
module PoolClient {
  import opened Common
  import opened ThreadPool
  import opened PoolInvariant

  // ---- AddThread ----

  /** The part of the state that no step of AddThread touches. */
  ghost predicate AddLeaves(s: State, s': State) {
    && s'.status == s.status && s'.tasks == s.tasks && s'.free == s.free
    && s'.tasksOwner == s.tasksOwner && s'.monOwner == s.monOwner && s'.monitor == s.monitor
    && s'.committed == s.committed && s'.finished == s.finished
    && s'.tids == s.tids && s'.latched == s.latched
  }

  /** The worker that a step of AddThread changes, or creates. */
  function Touched(s: State, c: nat): nat
    requires c < |s.clients|
  {
    match s.clients[c]
    case AddIdle(_, t) => t
    case AddNow(_, t) => t
    case AddStart(_, t) => t
    case _ => |s.workers|
  }

  ghost predicate Adds(cfg: Config, s: State, c: nat, s': State) {
    && c < |s.clients| == |s'.clients|
    && AddLeaves(s, s')
    && var pc, pc', u := s.clients[c], s'.clients[c], Touched(s, c);
    && InAddThread(pc)
    && s'.clients == s.clients[c := pc']
    && (pc' == Done <==> c == 0 && pc.AddUnlock?) && (pc' == ComPush <==> c != 0 && pc.AddUnlock?)
    && (pc' == Done || pc' == ComPush || InAddThread(pc'))
    && LockMoves(Adding(pc), Adding(pc'), Client(c), s.poolOwner, s'.poolOwner)
    && (match pc
        case AddTest(size) =>
          if s.now < cfg.maxPool && size > 0
          then s'.workers == s.workers + [Emplaced] && s'.list == s.list + [u] && pc' == AddIdle(size, u)
          else s'.workers == s.workers && s'.list == s.list && pc' == AddUnlock
        case AddIdle(size, t) =>
          u < |s.workers| && s'.workers == s.workers[u := IdleCounted] && s'.list == s.list && pc' == AddNow(size, t)
        case AddNow(size, t) =>
          u < |s.workers| && s'.workers == s.workers[u := Counted] && s'.list == s.list && pc' == AddStart(size, t)
        case AddStart(size, t) =>
          u < |s.workers| && s'.workers == s.workers[u := Boot] && s'.list == s.list && pc' == AddWait(size, t)
        case AddWait(size, t) =>
          Started(s, t) && s'.workers == s.workers && s'.list == s.list && size > 0 && pc' == AddTest(size - 1)
        case AddLock(size) => s'.workers == s.workers && s'.list == s.list && pc' == AddTest(size)
        case _ => s'.workers == s.workers && s'.list == s.list)
    && s'.idle == (if pc.AddIdle? then Inc32(s.idle) else s.idle)
    && s'.now == (if pc.AddNow? then Inc32(s.now) else s.now)
  }

  lemma AddEffect(cfg: Config, s: State, c: nat, s': State)
    requires c < |s.clients| && AddNext(cfg, s, c) == Some(s')
    ensures Adds(cfg, s, c, s')
  {
  }

  /** The worker that AddThread changes holds no mutex, neither before nor after. */
  lemma AddTouchesUnborn(cfg: Config, s: State, c: nat, s': State)
    requires Births(s) && Adds(cfg, s, c, s')
    ensures |s.workers| <= |s'.workers| <= |s.workers| + 1
    ensures forall t :: 0 <= t < |s.workers| ==> WorkerHoldsTasks(s'.workers[t]) == WorkerHoldsTasks(s.workers[t])
    ensures |s'.workers| > |s.workers| ==> !WorkerHoldsTasks(s'.workers[|s.workers|])
  {
  }

  lemma AddKeepsTaskMutex(cfg: Config, s: State, c: nat, s': State)
    requires TaskMutex(s) && Births(s) && Adds(cfg, s, c, s')
    ensures TaskMutex(s')
  {
    AddTouchesUnborn(cfg, s, c, s');
    forall d | 0 <= d < |s'.clients|
      ensures ClientHoldsTasks(d, s'.clients[d]) <==> s'.tasksOwner == Some(Client(d))
    {
      assert d != c ==> s'.clients[d] == s.clients[d];
    }
  }

  lemma AddKeepsPoolMutex(cfg: Config, s: State, c: nat, s': State)
    requires PoolMutex(s) && Adds(cfg, s, c, s')
    ensures PoolMutex(s')
  {
  }

  lemma AddKeepsMonitorMutex(cfg: Config, s: State, c: nat, s': State)
    requires MonitorMutex(s) && Births(s) && Adds(cfg, s, c, s')
    ensures MonitorMutex(s')
  {
  }

  lemma AddKeepsCalls(cfg: Config, s: State, c: nat, s': State)
    requires Calls(s) && Adds(cfg, s, c, s')
    ensures Calls(s')
  {
  }

  lemma AddKeepsBirths(cfg: Config, s: State, c: nat, s': State)
    requires Ownership(s) && Births(s) && Adds(cfg, s, c, s')
    ensures Births(s')
  {
  }

  lemma AddKeepsCounters(cfg: Config, s: State, c: nat, s': State)
    requires cfg.Valid() && Ownership(s) && Births(s) && Counters(s) && Bounds(cfg, s)
    requires Adds(cfg, s, c, s')
    ensures Counters(s')
  {
    var pc := s.clients[c];
    if pc.AddIdle? || pc.AddNow? || pc.AddStart? {
      if pc.AddIdle? {
        IdleBelowRange(cfg, s, c);
      }
      SpawnKeepsCounters(cfg, s, c, s');
    } else if pc.AddTest? {
      RegisterKeepsCounters(cfg, s, c, s');
    }
  }

  lemma SpawnKeepsCounters(cfg: Config, s: State, c: nat, s': State)
    requires cfg.Valid() && Births(s) && Counters(s) && Bounds(cfg, s) && Adds(cfg, s, c, s')
    requires s.clients[c].AddIdle? || s.clients[c].AddNow? || s.clients[c].AddStart?
    requires s.clients[c].AddIdle? ==> s.idle + 1 < UINT_RANGE
    ensures Counters(s')
  {
    var u := Touched(s, c);
    assert Spawning(s, s.clients[c]);
    CountMoves(s.workers, u, s'.workers[u]);
  }

  lemma RegisterKeepsCounters(cfg: Config, s: State, c: nat, s': State)
    requires Counters(s) && Adds(cfg, s, c, s') && s.clients[c].AddTest?
    ensures Counters(s')
  {
    CountAppend(s.workers, Emplaced, InNow);
    CountAppend(s.workers, Emplaced, InIdle);
  }

  lemma CountMoves(workers: seq<WorkerPc>, t: nat, pc: WorkerPc)
    requires t < |workers|
    ensures Count(workers[t := pc], InNow) ==
            Count(workers, InNow) - (if InNow(workers[t]) then 1 else 0) + (if InNow(pc) then 1 else 0)
    ensures Count(workers[t := pc], InIdle) ==
            Count(workers, InIdle) - (if InIdle(workers[t]) then 1 else 0) + (if InIdle(pc) then 1 else 0)
  {
    CountUpdate(workers, t, pc, InNow);
    CountUpdate(workers, t, pc, InIdle);
  }

  /** idle_thread_num_ does not wrap when a new thread is counted. */
  lemma IdleBelowRange(cfg: Config, s: State, c: nat)
    requires cfg.Valid() && Ownership(s) && Births(s) && Counters(s) && Bounds(cfg, s)
    requires c < |s.clients| && s.clients[c].AddIdle?
    ensures s.idle + 1 < UINT_RANGE
  {
    forall t | 0 <= t < |s.workers|
      ensures !s.workers[t].IdleCounted?
    {
      if Unborn(s.workers[t]) {
        assert Spawns(s.clients[c], t);
      }
    }
    CountSplit(s.workers, InIdle, InNow, (pc: WorkerPc) => false);
    CountAtMostOne(s.workers, (pc: WorkerPc) => false);
    if Count(s.workers, (pc: WorkerPc) => false) > 0 {
      var t := CountWitness(s.workers, (pc: WorkerPc) => false);
    }
  }

  lemma AddKeepsBounds(cfg: Config, s: State, c: nat, s': State)
    requires cfg.Valid() && Ownership(s) && Births(s) && Calls(s) && Counters(s) && Bounds(cfg, s)
    requires Adds(cfg, s, c, s')
    ensures Bounds(cfg, s')
  {
  }

  lemma AddKeepsTasks(cfg: Config, s: State, c: nat, s': State)
    requires Births(s) && Drain(s) && Tasks(s) && Adds(cfg, s, c, s')
    ensures Drain(s') && Tasks(s')
  {
    HeldKeepsTasks(s, s');
  }

  lemma AddKeepsReaping(cfg: Config, s: State, c: nat, s': State)
    requires Births(s) && Reaping(s) && Adds(cfg, s, c, s')
    ensures Reaping(s')
  {
    if s.clients[c].AddTest? {
      RegisterKeepsReaping(cfg, s, c, s');
    } else {
      ReportsKeepReaping(s, s');
    }
  }

  lemma RegisterKeepsReaping(cfg: Config, s: State, c: nat, s': State)
    requires Reaping(s) && Adds(cfg, s, c, s') && s.clients[c].AddTest?
    ensures Reaping(s')
  {
    assert |s.workers| !in s.list;
  }

  lemma AddKeepsMonitorAwake(cfg: Config, s: State, c: nat, s': State)
    requires Births(s) && MonitorAwake(s) && Adds(cfg, s, c, s')
    ensures MonitorAwake(s')
  {
    if s'.monitor == MonAsleep && s'.free != [] {
      var u :| 0 <= u < |s.workers| && s.workers[u] == NotifyMon;
      assert s'.workers[u] == NotifyMon;
    }
  }

  lemma AddKeepsHandshake(cfg: Config, s: State, c: nat, s': State)
    requires Births(s) && Handshake(s) && Adds(cfg, s, c, s')
    ensures Handshake(s')
  {
    HandshakeKept(s, s');
  }

  lemma AddKeepsInv(cfg: Config, s: State, c: nat, s': State)
    requires cfg.Valid() && Inv(cfg, s) && c < |s.clients| && AddNext(cfg, s, c) == Some(s')
    ensures Inv(cfg, s')
  {
    AddEffect(cfg, s, c, s');
    AddKeepsTaskMutex(cfg, s, c, s');
    AddKeepsPoolMutex(cfg, s, c, s');
    AddKeepsMonitorMutex(cfg, s, c, s');
    AddKeepsCalls(cfg, s, c, s');
    AddKeepsBirths(cfg, s, c, s');
    AddKeepsCounters(cfg, s, c, s');
    AddKeepsBounds(cfg, s, c, s');
    AddKeepsTasks(cfg, s, c, s');
    AddKeepsReaping(cfg, s, c, s');
    AddKeepsMonitorAwake(cfg, s, c, s');
    AddKeepsHandshake(cfg, s, c, s');
  }

  // ---- Commit outside AddThread ----

  /** A step of Commit that wakes nobody: only the queue, the task mutex and the caller change. */
  ghost predicate Commits(s: State, c: nat, s': State) {
    && c < |s.clients| == |s'.clients|
    && var pc, pc' := s.clients[c], s'.clients[c];
    && s' == s.(clients := s.clients[c := pc'], tasks := s'.tasks, committed := s'.committed,
                tasksOwner := s'.tasksOwner)
    && !InAddThread(pc) && pc != Done && !Adding(pc') && pc' != ComLock
    && (pc'.AddLock? ==> ClientHoldsTasks(c, pc))
    && (c != 0 ==> LockMoves(ClientHoldsTasks(c, pc), ClientHoldsTasks(c, pc'), Client(c),
                             s.tasksOwner, s'.tasksOwner))
    && (if s'.tasks == s.tasks then s'.committed == s.committed
        else s'.tasks == s.tasks + [s.committed] && s'.committed == s.committed + 1 && pc' == ComUnlock)
    && (OwesNotify(pc) && !OwesNotify(pc') ==> !SomeAsleep(s))
  }

  lemma CommitEffect(cfg: Config, s: State, c: nat, pick: nat, late: bool, s': State)
    requires c < |s.clients| && !InAddThread(s.clients[c]) && CommitNext(cfg, s, c, pick, late) == Some(s')
    ensures Commits(s, c, s')
            || (s.clients[c] == ComNotify && Notifies(s, c, pick, late, s'))
  {
  }

  ghost predicate Notifies(s: State, c: nat, pick: nat, late: bool, s': State) {
    && c < |s.clients| && s.clients[c] == ComNotify
    && pick < |s.workers| && s.workers[pick] == Asleep
    && s' == s.(clients := s.clients[c := Done], workers := s.workers[pick := Woken(late)])
  }

  lemma CommitKeepsLocks(s: State, c: nat, s': State)
    requires Ownership(s) && Births(s) && Calls(s) && Commits(s, c, s')
    ensures Ownership(s') && Births(s') && Calls(s')
  {
  }

  lemma CommitKeepsTasks(s: State, c: nat, s': State)
    requires Calls(s) && Drain(s) && Tasks(s) && Commits(s, c, s')
    ensures Drain(s') && Tasks(s')
  {
    forall k: nat | k < Taken(s') && k !in s'.finished
      ensures SomeoneHolds(s', k)
    {
      assert SomeoneHolds(s, k);
    }
  }

  lemma CommitKeepsRest(cfg: Config, s: State, c: nat, s': State)
    requires Calls(s) && Commits(s, c, s')
    requires Counters(s) && Bounds(cfg, s) && Reaping(s) && MonitorAwake(s)
    ensures Counters(s') && Bounds(cfg, s') && Reaping(s') && MonitorAwake(s')
  {
  }

  lemma NotifyKeepsInv(cfg: Config, s: State, c: nat, pick: nat, late: bool, s': State)
    requires Inv(cfg, s) && Notifies(s, c, pick, late, s')
    ensures Inv(cfg, s')
  {
    NotifyKeepsLocks(s, c, pick, late, s');
    NotifyKeepsCalls(s, c, pick, late, s');
    NotifyKeepsCounters(cfg, s, c, pick, late, s');
    NotifyKeepsTasks(s, c, pick, late, s');
    NotifyKeepsReaping(s, c, pick, late, s');
    NotifyKeepsHandshake(s, c, pick, late, s');
  }

  lemma NotifyKeepsLocks(s: State, c: nat, pick: nat, late: bool, s': State)
    requires Ownership(s) && Notifies(s, c, pick, late, s')
    ensures Ownership(s')
  {
  }

  lemma NotifyKeepsCalls(s: State, c: nat, pick: nat, late: bool, s': State)
    requires Births(s) && Calls(s) && Notifies(s, c, pick, late, s')
    ensures Births(s') && Calls(s')
  {
  }

  lemma NotifyKeepsCounters(cfg: Config, s: State, c: nat, pick: nat, late: bool, s': State)
    requires Calls(s) && Counters(s) && Bounds(cfg, s) && Notifies(s, c, pick, late, s')
    ensures Counters(s') && Bounds(cfg, s')
  {
    CountUpdate(s.workers, pick, Woken(late), InNow);
    CountUpdate(s.workers, pick, Woken(late), InIdle);
  }

  lemma NotifyKeepsTasks(s: State, c: nat, pick: nat, late: bool, s': State)
    requires Drain(s) && Tasks(s) && Notifies(s, c, pick, late, s')
    ensures Drain(s') && Tasks(s')
  {
    HeldKeepsTasks(s, s');
  }

  lemma NotifyKeepsReaping(s: State, c: nat, pick: nat, late: bool, s': State)
    requires Reaping(s) && MonitorAwake(s) && Notifies(s, c, pick, late, s')
    ensures Reaping(s') && MonitorAwake(s')
  {
    if s'.monitor == MonAsleep && s'.free != [] {
      var u :| 0 <= u < |s.workers| && s.workers[u] == NotifyMon;
      assert s'.workers[u] == NotifyMon;
    }
  }

  lemma NotifyKeepsHandshake(s: State, c: nat, pick: nat, late: bool, s': State)
    requires Handshake(s) && Notifies(s, c, pick, late, s')
    ensures Handshake(s')
  {
    HandshakeKept(s, s');
  }

  lemma CommitKeepsInv(cfg: Config, s: State, c: nat, pick: nat, late: bool, s': State)
    requires Inv(cfg, s) && c < |s.clients| && !InAddThread(s.clients[c])
    requires CommitNext(cfg, s, c, pick, late) == Some(s')
    ensures Inv(cfg, s')
  {
    CommitEffect(cfg, s, c, pick, late, s');
    if Commits(s, c, s') {
      CommitKeepsLocks(s, c, s');
      CommitKeepsTasks(s, c, s');
      CommitKeepsRest(cfg, s, c, s');
      SameWorkersKeepHandshake(s, s');
    } else {
      NotifyKeepsInv(cfg, s, c, pick, late, s');
    }
  }

  // ---- New calls, and ShutDown ----

  /** `s'` differs from `s` only in one new call of Commit that has not done anything yet. */
  ghost predicate Arrives(s: State, s': State) {
    && |s.clients| > 0 && s.clients[0] == Done && s.status == Running
    && s' == s.(clients := s.clients + [ComLock])
  }

  lemma ArrivalKeepsCalls(cfg: Config, s: State, s': State)
    requires Ownership(s) && Calls(s) && Births(s) && Bounds(cfg, s) && Arrives(s, s')
    ensures Ownership(s') && Calls(s') && Births(s') && Bounds(cfg, s')
  {
    assert forall c :: 0 <= c < |s.clients| ==> s'.clients[c] == s.clients[c];
    assert s'.clients[|s.clients|] == ComLock;
  }

  /** A change that leaves workers, queue and lists alone keeps everything that is said about them. */
  lemma SameWorkersKeepsTasks(s: State, s': State)
    requires Counters(s) && Tasks(s) && Reaping(s) && MonitorAwake(s)
    requires s' == s.(clients := s'.clients, status := s'.status)
    ensures Counters(s') && Tasks(s') && Reaping(s') && MonitorAwake(s')
  {
    HeldKeepsTasks(s, s');
  }

  lemma NewCommitKeepsInv(cfg: Config, s: State, s': State)
    requires Inv(cfg, s) && Step(cfg, s, NewCommit) == Some(s')
    ensures Inv(cfg, s')
  {
    ArrivalKeepsCalls(cfg, s, s');
    SameWorkersKeepsTasks(s, s');
    SameWorkersKeepHandshake(s, s');
  }

  lemma ShutDownKeepsCalls(cfg: Config, s: State, s': State)
    requires Ownership(s) && Calls(s) && Births(s) && Bounds(cfg, s) && Drain(s)
    requires Step(cfg, s, CallShutDown) == Some(s')
    ensures Ownership(s') && Calls(s') && Births(s') && Bounds(cfg, s') && Drain(s')
  {
  }

  lemma ShutDownKeepsInv(cfg: Config, s: State, s': State)
    requires Inv(cfg, s) && Step(cfg, s, CallShutDown) == Some(s')
    ensures Inv(cfg, s')
  {
    ShutDownKeepsCalls(cfg, s, s');
    SameWorkersKeepsTasks(s, s');
    SameWorkersKeepHandshake(s, s');
  }
}
