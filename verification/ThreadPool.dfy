/**
 The thread pool as an interleaved step machine; the class beside it is in module ThreadPools.

 Each transition is one atomic action of one thread: acquiring or releasing a mutex, going to
 sleep on a condition variable, being woken, changing one atomic counter, or a test of data that
 the acting thread's mutex protects. Worker threads are numbered in the order in which their
 Thread objects are created; client 0 is the constructor and every other client is one call of
 Commit; the monitor is the reaper thread.
 */
module ThreadPool {
  import opened Common

  /** The three constants of a pool that the protocol depends on. */
  datatype Config = Config(maxPool: nat, corePool: nat, maxTask: nat) {
    /** The sizes are 32-bit unsigned, and the pool is meant to hold at least its core. */
    predicate Valid() {
      corePool <= maxPool < UINT_RANGE
    }
  }

  const UINT_RANGE: nat := 0x1_0000_0000

  /** ++ and -- of a 32-bit unsigned atomic. */
  function Inc32(x: nat): nat {
    if x + 1 == UINT_RANGE then 0 else x + 1
  }

  function Dec32(x: nat): nat {
    if x == 0 then UINT_RANGE - 1 else x - 1
  }

  datatype Status = Running | ShutDown | Terminated

  datatype Actor = Worker(t: nat) | Client(c: nat) | Monitor

  /** Where a worker thread stands. Numbers are lines of src/base/thread_pool.cpp. */
  datatype WorkerPc =
    | Emplaced             // 75: in the thread list, not counted
    | IdleCounted          // 76: counted as idle only
    | Counted              // 77: counted in both counters, not started
    | Boot                 // started; thread.cpp:32: has to set its tid
    | Announce             // thread.cpp:35: has to count its latch down
    | LockTasks            // 46: wants the task mutex
    | Test                 // 47, 59: has the task mutex
    | Asleep               // 48: in the wait set
    | Woken(late: bool)    // 48: out of the wait set, wants the task mutex back; late: will report a timeout
    | TimedOut             // 49
    | LeaveIdle            // 50
    | LeaveNow             // 51
    | LockMon              // 52: wants the monitor mutex
    | PushFree             // 53
    | NotifyMon            // 54
    | UnlockMon            // 55: return, monitor mutex first
    | UnlockTasks          // 55: then the task mutex
    | Left                 // the thread function has returned after a timeout
    | Reaped               // joined and erased by the monitor
    | StopStatus           // 60
    | StopIdle             // 61
    | StopNow              // 62
    | StopUnlock           // 63
    | Stopped              // the thread function has returned after a shutdown
    | Popped(task: nat)    // 67: holds a task and still the mutex
    | Picked(task: nat)    // 68
    | Busy(task: nat)      // 69
    | Finished             // 70

  /** Where the constructor or a call of Commit stands (src/base/thread_pool.h and .cpp). */
  datatype ClientPc =
    | ComLock                     // h:99
    | ComCheck                    // h:100
    | AddLock(size: nat)          // cpp:39
    | AddTest(size: nat)          // cpp:40
    | AddIdle(size: nat, t: nat)  // cpp:76
    | AddNow(size: nat, t: nat)   // cpp:77
    | AddStart(size: nat, t: nat) // cpp:78
    | AddWait(size: nat, t: nat)  // cpp:78: Start waits for the new thread's latch
    | AddUnlock                   // cpp:80
    | ComPush                     // h:107
    | ComUnlock                   // h:112
    | ComNotify                   // h:113
    | Done

  /** Where the monitor thread stands. */
  datatype MonitorPc =
    | MonLock       // 86
    | MonTest       // 87
    | MonAsleep     // 88
    | MonWoken      // 88: wants the monitor mutex back
    | MonRecheck    // 89
    | MonExited     // 90
    | MonScan       // 93
    | MonLockPool   // 95
    | MonFind       // 96-105
    | MonUnlockPool // 107
    | MonErase      // 108

  datatype State = State(
    status: Status,
    tasks: seq<nat>,        // tasks_; a task is named by its position in commit order
    workers: seq<WorkerPc>,
    list: seq<nat>,         // thread_pool_
    free: seq<nat>,         // monitor_thread_free_
    idle: nat,              // idle_thread_num_
    now: nat,               // now_thread_num_
    tasksOwner: Option<Actor>,
    monOwner: Option<Actor>,
    poolOwner: Option<Actor>,
    clients: seq<ClientPc>,
    monitor: MonitorPc,
    committed: nat,         // how many tasks were ever queued
    finished: seq<nat>,     // tasks in the order in which they finished
    tids: set<nat>,         // the threads whose tid_ is set
    latched: set<nat>       // the threads whose latch_ has been counted down
  )

  datatype Action =
    | WorkerStep(t: nat)
    | WorkerWake(t: nat, late: bool)     // the timeout, or a spurious wake-up
    | ClientStep(c: nat, pick: nat, late: bool) // pick: the sleeper that Notify wakes; late: after its deadline
    | NewCommit
    | MonitorStep
    | MonitorWake                        // a spurious wake-up
    | CallShutDown

  function Init(cfg: Config): State {
    State(Running, [], [], [], [], 0, 0, None, None, None,
          [AddLock(cfg.corePool)], MonLock, 0, [], {}, {})
  }

  function Move(s: State, t: nat, pc: WorkerPc): State
    requires t < |s.workers|
  {
    s.(workers := s.workers[t := pc])
  }

  /** A worker on the way out after a timeout (lines 50 to 55). */
  predicate Leaving(pc: WorkerPc) {
    pc.LeaveIdle? || pc.LeaveNow? || pc.LockMon? || pc.PushFree? || pc.NotifyMon? || pc.UnlockMon?
    || pc.UnlockTasks?
  }

  /** A worker on the way out after a shutdown (lines 60 to 63), or gone that way. */
  predicate Stopping(pc: WorkerPc) {
    pc.StopStatus? || pc.StopIdle? || pc.StopNow? || pc.StopUnlock? || pc.Stopped?
  }

  /** A worker between taking a task and coming back for the next one (lines 67 to 70). */
  predicate Serving(pc: WorkerPc) {
    pc.Popped? || pc.Picked? || pc.Busy? || pc.Finished?
  }

  /** A thread that is registered but not yet started. */
  predicate Unborn(pc: WorkerPc) {
    pc.Emplaced? || pc.IdleCounted? || pc.Counted?
  }

  /** Lines 46 to 49 and 59: looking at the queue. */
  function LookNext(cfg: Config, s: State, t: nat): Option<State>
    requires t < |s.workers|
  {
    var me := Some(Worker(t));
    match s.workers[t]
    case Boot => Some(Move(s.(tids := s.tids + {t}), t, Announce))
    case Announce => Some(Move(s.(latched := s.latched + {t}), t, LockTasks))
    case LockTasks =>
      if s.tasksOwner.None? then Some(Move(s.(tasksOwner := me), t, Test)) else None
    case Woken(late) =>
      if s.tasksOwner.None?
      then Some(Move(s.(tasksOwner := me), t, if late then TimedOut else Test))
      else None
    case Test =>
      if s.tasks != [] then Some(Move(s.(tasks := s.tasks[1..]), t, Popped(s.tasks[0])))
      else if s.status == Running then Some(Move(s.(tasksOwner := None), t, Asleep))
      else Some(Move(s, t, StopStatus))
    case TimedOut => Some(Move(s, t, if s.now > cfg.corePool then LeaveIdle else Test))
    case _ => None
  }

  /** Lines 50 to 55: leaving after a timeout. */
  function LeaveNext(s: State, t: nat): Option<State>
    requires t < |s.workers|
  {
    match s.workers[t]
    case LeaveIdle => Some(Move(s.(idle := Dec32(s.idle)), t, LeaveNow))
    case LeaveNow => Some(Move(s.(now := Dec32(s.now)), t, LockMon))
    case LockMon =>
      if s.monOwner.None? then Some(Move(s.(monOwner := Some(Worker(t))), t, PushFree)) else None
    case PushFree => Some(Move(s.(free := s.free + [t]), t, NotifyMon))
    case NotifyMon =>
      Some(Move(s.(monitor := if s.monitor == MonAsleep then MonWoken else s.monitor), t, UnlockMon))
    case UnlockMon => Some(Move(s.(monOwner := None), t, UnlockTasks))
    case UnlockTasks => Some(Move(s.(tasksOwner := None), t, Left))
    case _ => None
  }

  /** Lines 60 to 63: leaving after a shutdown. */
  function StopNext(s: State, t: nat): Option<State>
    requires t < |s.workers|
  {
    match s.workers[t]
    case StopStatus => Some(Move(s.(status := Terminated), t, StopIdle))
    case StopIdle => Some(Move(s.(idle := Dec32(s.idle)), t, StopNow))
    case StopNow => Some(Move(s.(now := Dec32(s.now)), t, StopUnlock))
    case StopUnlock => Some(Move(s.(tasksOwner := None), t, Stopped))
    case _ => None
  }

  /** Lines 67 to 70: running a task. */
  function ServeNext(s: State, t: nat): Option<State>
    requires t < |s.workers|
  {
    match s.workers[t]
    case Popped(k) => Some(Move(s.(tasksOwner := None), t, Picked(k)))
    case Picked(k) => Some(Move(s.(idle := Dec32(s.idle)), t, Busy(k)))
    case Busy(k) => Some(Move(s.(finished := s.finished + [k]), t, Finished))
    case Finished => Some(Move(s.(idle := Inc32(s.idle)), t, LockTasks))
    case _ => None
  }

  /** One step of worker `t`; None when it is blocked, asleep, gone or not yet started. */
  function WorkerNext(cfg: Config, s: State, t: nat): Option<State>
    requires t < |s.workers|
  {
    var pc := s.workers[t];
    if Serving(pc) then ServeNext(s, t)
    else if Leaving(pc) then LeaveNext(s, t)
    else if Stopping(pc) then StopNext(s, t)
    else LookNext(cfg, s, t)
  }

  /** The wait set of task_cv_ is non-empty. */
  ghost predicate SomeAsleep(s: State) {
    exists t :: 0 <= t < |s.workers| && s.workers[t] == Asleep
  }

  function Go(s: State, c: nat, pc: ClientPc): State
    requires c < |s.clients|
  {
    s.(clients := s.clients[c := pc])
  }

  function Enqueue(s: State): State {
    s.(tasks := s.tasks + [s.committed], committed := s.committed + 1)
  }

  /** The latch of thread `t` has been counted down. */
  predicate Started(s: State, t: nat) {
    t in s.latched
  }

  /** AddThread (cpp:39 to cpp:80) in the hands of client `c`. */
  function AddNext(cfg: Config, s: State, c: nat): Option<State>
    requires c < |s.clients|
  {
    match s.clients[c]
    case AddLock(size) =>
      if s.poolOwner.None? then Some(Go(s.(poolOwner := Some(Client(c))), c, AddTest(size))) else None
    case AddTest(size) =>
      var t := |s.workers|;
      if s.now < cfg.maxPool && size > 0
      then Some(Go(s.(workers := s.workers + [Emplaced], list := s.list + [t]), c, AddIdle(size, t)))
      else Some(Go(s, c, AddUnlock))
    case AddIdle(size, t) =>
      if t < |s.workers|
      then Some(Go(s.(workers := s.workers[t := IdleCounted], idle := Inc32(s.idle)), c, AddNow(size, t)))
      else None
    case AddNow(size, t) =>
      if t < |s.workers|
      then Some(Go(s.(workers := s.workers[t := Counted], now := Inc32(s.now)), c, AddStart(size, t)))
      else None
    case AddStart(size, t) =>
      if t < |s.workers|
      then Some(Go(s.(workers := s.workers[t := Boot]), c, AddWait(size, t)))
      else None
    case AddWait(size, t) =>
      if Started(s, t) && size > 0 then Some(Go(s, c, AddTest(size - 1))) else None
    case AddUnlock => Some(Go(s.(poolOwner := None), c, if c == 0 then Done else ComPush))
    case _ => None
  }

  /**
   Commit (h:99 to h:113) outside its call of AddThread. A waiter that is notified after its deadline
   reports a timeout all the same.
   */
  ghost function CommitNext(cfg: Config, s: State, c: nat, pick: nat, late: bool): Option<State>
    requires c < |s.clients|
  {
    match s.clients[c]
    case ComLock =>
      if s.tasksOwner.None? then Some(Go(s.(tasksOwner := Some(Client(c))), c, ComCheck)) else None
    case ComCheck =>
      Some(if cfg.maxTask > |s.tasks| then Go(Enqueue(s), c, ComUnlock) else Go(s, c, AddLock(1)))
    case ComPush => Some(Go(Enqueue(s), c, ComUnlock))
    case ComUnlock => Some(Go(s.(tasksOwner := None), c, ComNotify))
    case ComNotify =>
      if pick < |s.workers| && s.workers[pick] == Asleep
      then Some(Go(Move(s, pick, Woken(late)), c, Done))
      else if SomeAsleep(s) then None
      else Some(Go(s, c, Done))
    case _ => None
  }

  /** A program counter inside AddThread. */
  predicate InAddThread(pc: ClientPc) {
    pc.AddLock? || pc.AddTest? || pc.AddIdle? || pc.AddNow? || pc.AddStart? || pc.AddWait? || pc.AddUnlock?
  }

  /** One step of client `c`: the constructor when c is 0, a call of Commit otherwise. */
  ghost function ClientNext(cfg: Config, s: State, c: nat, pick: nat, late: bool): Option<State>
    requires c < |s.clients|
  {
    if InAddThread(s.clients[c]) then AddNext(cfg, s, c) else CommitNext(cfg, s, c, pick, late)
  }

  /** std::find_if over the thread list. */
  function Find(list: seq<nat>, t: nat): Option<nat> {
    if list == [] then None
    else if list[0] == t then Some(0)
    else match Find(list[1..], t)
         case None => None
         case Some(i) => Some(i + 1)
  }

  /** One step of the monitor; None when it is blocked, asleep or gone. */
  function MonitorNext(s: State): Option<State> {
    match s.monitor
    case MonLock =>
      if s.monOwner.None? then Some(s.(monitor := MonTest, monOwner := Some(Monitor))) else None
    case MonTest =>
      Some(if s.free == [] then s.(monitor := MonAsleep, monOwner := None) else s.(monitor := MonScan))
    case MonAsleep | MonExited => None
    case MonWoken =>
      if s.monOwner.None? then Some(s.(monitor := MonRecheck, monOwner := Some(Monitor))) else None
    case MonRecheck =>
      Some(if s.status != Running then s.(monitor := MonExited, monOwner := None)
           else s.(monitor := MonTest))
    case MonScan =>
      Some(if s.free == [] then s.(monitor := MonLock, monOwner := None) else s.(monitor := MonLockPool))
    case MonLockPool =>
      if s.poolOwner.None? then Some(s.(monitor := MonFind, poolOwner := Some(Monitor))) else None
    case MonFind =>
      if s.free == [] then None
      else
        var t := s.free[0];
        (match Find(s.list, t)
         case None => Some(s.(monitor := MonUnlockPool))
         case Some(i) =>
           // Join blocks until the thread function has returned.
           if t < |s.workers| && i < |s.list| && (s.workers[t].Left? || s.workers[t].Stopped?)
           then Some(Move(s, t, Reaped).(list := s.list[..i] + s.list[i + 1..], monitor := MonUnlockPool))
           else None)
    case MonUnlockPool => Some(s.(monitor := MonErase, poolOwner := None))
    case MonErase => if s.free == [] then None else Some(s.(monitor := MonScan, free := s.free[1..]))
  }

  /**
   One step of the whole system. Commit is called only on a constructed pool that is running, and
   ShutDown only when no call is in progress: the source asserts the status at the start of a call
   and leaves it to the callers not to race with ShutDown.
   */
  ghost function Step(cfg: Config, s: State, a: Action): Option<State> {
    match a
    case WorkerStep(t) => if t < |s.workers| then WorkerNext(cfg, s, t) else None
    case WorkerWake(t, late) =>
      if t < |s.workers| && s.workers[t] == Asleep then Some(Move(s, t, Woken(late))) else None
    case ClientStep(c, pick, late) => if c < |s.clients| then ClientNext(cfg, s, c, pick, late) else None
    case NewCommit =>
      if |s.clients| > 0 && s.clients[0] == Done && s.status == Running
      then Some(s.(clients := s.clients + [ComLock])) else None
    case MonitorStep => MonitorNext(s)
    case MonitorWake => if s.monitor == MonAsleep then Some(s.(monitor := MonWoken)) else None
    case CallShutDown =>
      if forall c :: 0 <= c < |s.clients| ==> s.clients[c] == Done
      then Some(s.(status := ShutDown)) else None
  }

  /** A finite run of the pool from the start of its construction. */
  ghost predicate IsPoolRun(cfg: Config, states: seq<State>, actions: seq<Action>) {
    IsRun(Init(cfg), (s: State, a: Action) => Step(cfg, s, a), states, actions)
  }
}
