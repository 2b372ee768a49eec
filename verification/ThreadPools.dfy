/**
 The class ThreadPool of src/base/thread_pool.cpp and src/base/thread_pool.h, with its fields updated in
 place; module ThreadPool is the step machine beside it. The two counters are 32-bit unsigned here, and plain
 ++ and --: that none of them wraps, that no assert fails and that no thread is looked for in vain is proved
 where it happens. The object keeps the run of the machine that it has gone through, so that whatever holds of
 all runs holds of the object.
 */
module ThreadPools {
  import opened Common
  import opened ThreadPool
  import opened PoolInvariant
  import opened PoolTheorems
  import PoolWorker
  import PoolClient
  import PoolMonitor

  newtype Uint32 = x: int | 0 <= x < 0x1_0000_0000

  /** The actions of a schedule that can be taken when their turn comes. */
  ghost function Performed(cfg: Config, s: State, schedule: seq<Action>): seq<Action>
    decreases |schedule|
  {
    if schedule == [] then []
    else
      match Step(cfg, s, schedule[0])
      case None => Performed(cfg, s, schedule[1..])
      case Some(s') => [schedule[0]] + Performed(cfg, s', schedule[1..])
  }

  lemma PerformedFrom(cfg: Config, s: State, schedule: seq<Action>, i: nat)
    requires i < |schedule|
    ensures var step := Step(cfg, s, schedule[i]);
      Performed(cfg, s, schedule[i..]) ==
      if step.None? then Performed(cfg, s, schedule[i + 1..])
      else [schedule[i]] + Performed(cfg, step.value, schedule[i + 1..])
  {
    assert schedule[i..][1..] == schedule[i + 1..];
  }

  lemma MoveOver(done: seq<Action>, a: Action, rest: seq<Action>)
    ensures done + ([a] + rest) == (done + [a]) + rest
  {
  }

  // ---- What the invariant says at the lines where it is needed ----

  lemma AtTest(cfg: Config, s: State, t: nat)
    requires Inv(cfg, s) && t < |s.workers| && s.workers[t].Test?
    ensures s.tasksOwner == Some(Worker(t))
    ensures s.tasks != [] ==> s.tasks[0] == s.committed - |s.tasks|
  {
  }

  lemma AtAnnounce(cfg: Config, s: State, t: nat)
    requires Inv(cfg, s) && t < |s.workers| && s.workers[t].Announce?
    ensures t in s.tids
  {
  }

  lemma AtDecrement(cfg: Config, s: State, t: nat)
    requires Inv(cfg, s) && t < |s.workers|
    ensures InIdle(s.workers[t]) ==> s.idle > 0
    ensures InNow(s.workers[t]) ==> s.now > 0
    ensures s.workers[t].LeaveNow? ==> s.now > cfg.corePool
  {
    if InIdle(s.workers[t]) {
      CountPositive(s.workers, t, InIdle);
    }
    if InNow(s.workers[t]) {
      CountPositive(s.workers, t, InNow);
    }
  }

  lemma AtReport(cfg: Config, s: State, t: nat)
    requires Inv(cfg, s) && t < |s.workers| && s.workers[t].PushFree?
    ensures s.monOwner == Some(Worker(t)) && t !in s.free
  {
    assert !HeadJoined(s.monitor);
  }

  lemma WhenLeft(cfg: Config, s: State, t: nat)
    requires Inv(cfg, s) && t < |s.workers| && s.workers[t].Left?
    ensures s.tasksOwner != Some(Worker(t)) && s.monOwner != Some(Worker(t)) && t in s.free
  {
  }

  lemma WhenStopping(cfg: Config, s: State, t: nat)
    requires Inv(cfg, s) && t < |s.workers| && Stopping(s.workers[t])
    ensures s.tasks == [] && s.status != Running
  {
  }

  lemma WhenServing(cfg: Config, s: State, t: nat)
    requires Inv(cfg, s) && t < |s.workers|
    ensures s.workers[t].Busy? ==> s.workers[t].task !in s.finished
    ensures s.workers[t].Finished? && cfg.Valid() ==> s.idle + 1 < UINT_RANGE
  {
    if s.workers[t].Finished? && cfg.Valid() {
      PoolWorker.IdleBelowRange(cfg, s, t);
    }
  }

  lemma CountersExact(cfg: Config, s: State)
    requires Inv(cfg, s)
    ensures s.now == Count(s.workers, InNow) <= cfg.maxPool && s.idle == Count(s.workers, InIdle)
  {
  }

  lemma WhenAdding(cfg: Config, s: State, c: nat)
    requires cfg.Valid() && Inv(cfg, s) && c < |s.clients| && InAddThread(s.clients[c])
    ensures s.status == Running && |s.workers| !in s.list && s.now <= cfg.maxPool
    ensures Spawning(s, s.clients[c])
    ensures s.clients[c].AddIdle? ==> s.idle + 1 < UINT_RANGE
    ensures s.clients[c].AddNow? ==> s.now < cfg.maxPool
    ensures s.clients[c].AddWait? && s.clients[c].t in s.latched ==> s.clients[c].t in s.tids
  {
    if s.clients[c].AddIdle? {
      PoolClient.IdleBelowRange(cfg, s, c);
    }
  }

  lemma AtErase(cfg: Config, s: State)
    requires Inv(cfg, s) && s.monitor.MonErase?
    ensures s.free != [] && s.free[0] < |s.workers| && s.workers[s.free[0]] == Reaped
  {
  }

  lemma AtJoin(cfg: Config, s: State)
    requires Inv(cfg, s) && s.monitor.MonFind?
    ensures s.free != [] && s.free[0] < |s.workers| && Reported(s.workers[s.free[0]])
    ensures match Find(s.list, s.free[0]) case None => false case Some(i) => i < |s.list| && s.list[i] == s.free[0]
  {
    PoolMonitor.FindIsFirst(s.list, s.free[0]);
  }

  class Pool {
    const config: Config
    var status: Status
    var tasks: seq<nat>
    var threadPool: seq<nat>
    var monitorThreadFree: seq<nat>
    var idleThreadNum: Uint32
    var nowThreadNum: Uint32
    var tasksMutex: Option<Actor>
    var monitorMutex: Option<Actor>
    var threadPoolMutex: Option<Actor>
    var workers: seq<WorkerPc>
    var clients: seq<ClientPc>
    var monitor: MonitorPc
    var committed: nat
    var finished: seq<nat>
    var tids: set<nat>
    var latched: set<nat>

    ghost var states: seq<State>   // the run so far
    ghost var actions: seq<Action>

    ghost function View(): State
      reads this
    {
      State(status, tasks, workers, threadPool, monitorThreadFree, idleThreadNum as int, nowThreadNum as int,
            tasksMutex, monitorMutex, threadPoolMutex, clients, monitor, committed, finished, tids, latched)
    }

    /** The object is the last state of a run of the machine from its construction. */
    ghost predicate Valid()
      reads this
    {
      config.Valid() && IsPoolRun(config, states, actions) && states[|actions|] == View()
    }

    /** The run has gone on by action `a`, or the object is untouched because `a` cannot be taken. */
    twostate predicate Took(a: Action, moved: bool)
      reads this
    {
      if moved then Step(config, old(View()), a) == Some(View()) && actions == old(actions) + [a]
      else Step(config, View(), a).None? && View() == old(View()) && actions == old(actions)
    }

    lemma Invariant()
      requires Valid()
      ensures Inv(config, View())
    {
      RunKeepsInv(config, states, actions, |actions|);
    }

    constructor (config: Config)
      requires config.Valid()
      ensures Valid() && this.config == config && View() == Init(config) && actions == []
    {
      this.config := config;
      status, tasks, threadPool, monitorThreadFree := Running, [], [], [];
      idleThreadNum, nowThreadNum := 0, 0;
      tasksMutex, monitorMutex, threadPoolMutex := None, None, None;
      workers, clients, monitor := [], [AddLock(config.corePool)], MonLock;
      committed, finished, tids, latched := 0, [], {}, {};
      states, actions := [Init(config)], [];
    }

    ghost method Record(a: Action, was: State)
      requires config.Valid() && IsPoolRun(config, states, actions) && states[|actions|] == was
      requires Step(config, was, a) == Some(View())
      modifies this`states, this`actions
      ensures Valid() && actions == old(actions) + [a]
    {
      states, actions := states + [View()], actions + [a];
    }

    // ---- A worker thread ----

    /** Any step of a worker. */
    method RunWorker(t: nat) returns (moved: bool)
      requires Valid() && t < |workers|
      modifies this
      ensures Valid() && Took(WorkerStep(t), moved)
    {
      if Serving(workers[t]) {
        moved := Serve(t);
      } else if Leaving(workers[t]) {
        moved := Leave(t);
      } else if Stopping(workers[t]) {
        moved := Stop(t);
      } else {
        moved := Look(t);
      }
    }

    /**
     thread_pool.cpp:46-49 and 59. A worker takes the task at the front, which is the next one in commit order;
     it sleeps only on an empty queue of a running pool, and takes the shutdown exit only on an empty one; and
     it goes away after a timeout only if more than the core are alive.
     */
    method Look(t: nat) returns (moved: bool)
      requires Valid() && t < |workers|
      requires !Serving(workers[t]) && !Leaving(workers[t]) && !Stopping(workers[t])
      modifies this
      ensures Valid() && Took(WorkerStep(t), moved) && |workers| == |old(workers)|
      ensures moved && workers[t].Popped? ==>
                old(tasks) == [workers[t].task] + tasks && workers[t].task == old(committed) - |old(tasks)|
      ensures moved && workers[t].Asleep? ==> status == Running && tasks == [] && tasksMutex.None?
      ensures moved && workers[t].StopStatus? ==> status != Running && tasks == []
      ensures moved && workers[t].LeaveIdle? ==> nowThreadNum as int > config.corePool
      ensures !moved && (workers[t].LockTasks? || workers[t].Woken?) ==> tasksMutex.Some?
    {
      if workers[t].LockTasks? || workers[t].Woken? {
        moved := LockForLook(t);
        return;
      }
      if workers[t].Boot? || workers[t].Announce? {
        Begin(t);
        return true;
      }
      ghost var was := View();
      if workers[t].Test? {
        TestFacts(t);
      }
      moved := true;
      match workers[t] {
        case Test =>
          assert tasksMutex == Some(Worker(t));
          if tasks != [] {
            workers := workers[t := Popped(tasks[0])];
            tasks := tasks[1..];
          } else if status == Running {
            tasksMutex := None;
            workers := workers[t := Asleep];
          } else {
            workers := workers[t := StopStatus];
          }
        case TimedOut =>
          workers := workers[t := if nowThreadNum as int > config.corePool then LeaveIdle else Test];
        case _ =>
          return false;
      }
      Record(WorkerStep(t), was);
    }

    /** thread.cpp:32 and 35. A thread sets its tid, and counts its latch down when the tid is set. */
    method Begin(t: nat)
      requires Valid() && t < |workers| && (workers[t].Boot? || workers[t].Announce?)
      modifies this
      ensures Valid() && Took(WorkerStep(t), true) && |workers| == |old(workers)|
      ensures workers[t] == (if old(workers)[t].Boot? then Announce else LockTasks)
      ensures t in tids && (workers[t].LockTasks? ==> t in latched)
    {
      ghost var was := View();
      if workers[t].Boot? {
        tids := tids + {t};
        workers := workers[t := Announce];
      } else {
        AtAnnounce(config, was, t) by { Invariant(); }
        latched := latched + {t};
        workers := workers[t := LockTasks];
      }
      Record(WorkerStep(t), was);
    }

    /** Line 46, and the end of the wait at line 48: the task mutex is taken if it is free. */
    method LockForLook(t: nat) returns (moved: bool)
      requires Valid() && t < |workers| && (workers[t].LockTasks? || workers[t].Woken?)
      modifies this
      ensures Valid() && Took(WorkerStep(t), moved) && |workers| == |old(workers)|
      ensures if moved then tasksMutex == Some(Worker(t)) && (workers[t].Test? || workers[t].TimedOut?)
              else tasksMutex.Some?
    {
      if tasksMutex.Some? {
        return false;
      }
      ghost var was := View();
      tasksMutex := Some(Worker(t));
      workers := workers[t := if workers[t] == Woken(true) then TimedOut else Test];
      Record(WorkerStep(t), was);
      return true;
    }

    lemma TestFacts(t: nat)
      requires Valid() && t < |workers| && workers[t].Test?
      ensures tasksMutex == Some(Worker(t)) && (tasks != [] ==> tasks[0] == committed - |tasks|)
    {
      Invariant();
      AtTest(config, View(), t);
    }

    /**
     thread_pool.cpp:50-55. At least the core stays; the worker reports itself once, and the monitor is awake
     from then on; and when it is gone it owns no mutex.
     */
    method Leave(t: nat) returns (moved: bool)
      requires Valid() && t < |workers| && Leaving(workers[t])
      modifies this
      ensures Valid() && Took(WorkerStep(t), moved) && |workers| == |old(workers)|
      ensures moved && old(workers)[t].LeaveNow? ==>
                nowThreadNum as int == old(nowThreadNum) as int - 1 >= config.corePool
      ensures moved && old(workers)[t].PushFree? ==>
                t !in old(monitorThreadFree) && monitorThreadFree == old(monitorThreadFree) + [t]
      ensures moved && old(workers)[t].NotifyMon? ==> monitor != MonAsleep
      ensures moved && workers[t].Left? ==>
                tasksMutex != Some(Worker(t)) && monitorMutex != Some(Worker(t)) && t in monitorThreadFree
      ensures !moved ==> workers[t].LockMon? && monitorMutex.Some?
    {
      if workers[t].LeaveIdle? || workers[t].LeaveNow? {
        Uncount(t);
        moved := true;
      } else if workers[t].UnlockMon? || workers[t].UnlockTasks? {
        UnlockBoth(t);
        moved := true;
      } else {
        moved := Report(t);
      }
    }

    /** Lines 50 and 51. */
    method Uncount(t: nat)
      requires Valid() && t < |workers| && (workers[t].LeaveIdle? || workers[t].LeaveNow?)
      modifies this
      ensures Valid() && Took(WorkerStep(t), true)
      ensures workers == old(workers)[t := if old(workers)[t].LeaveIdle? then LeaveNow else LockMon]
      ensures old(workers)[t].LeaveNow? ==> nowThreadNum as int == old(nowThreadNum) as int - 1 >= config.corePool
    {
      ghost var was := View();
      LeaveFacts(t);
      if workers[t].LeaveIdle? {
        idleThreadNum := idleThreadNum - 1;
        workers := workers[t := LeaveNow];
      } else {
        nowThreadNum := nowThreadNum - 1;
        workers := workers[t := LockMon];
      }
      Record(WorkerStep(t), was);
    }

    /** Lines 52 to 54. */
    method Report(t: nat) returns (moved: bool)
      requires Valid() && t < |workers| && (workers[t].LockMon? || workers[t].PushFree? || workers[t].NotifyMon?)
      modifies this
      ensures Valid() && Took(WorkerStep(t), moved) && |workers| == |old(workers)| && !workers[t].Left?
      ensures moved && old(workers)[t].PushFree? ==>
                t !in old(monitorThreadFree) && monitorThreadFree == old(monitorThreadFree) + [t]
      ensures moved && old(workers)[t].NotifyMon? ==> monitor != MonAsleep
      ensures !moved ==> workers[t].LockMon? && monitorMutex.Some?
    {
      ghost var was := View();
      LeaveFacts(t);
      if workers[t].LockMon? {
        if monitorMutex.Some? {
          return false;
        }
        monitorMutex := Some(Worker(t));
        workers := workers[t := PushFree];
      } else if workers[t].PushFree? {
        assert monitorMutex == Some(Worker(t));
        monitorThreadFree := monitorThreadFree + [t];
        workers := workers[t := NotifyMon];
      } else {
        if monitor == MonAsleep {
          monitor := MonWoken;
        }
        workers := workers[t := UnlockMon];
      }
      Record(WorkerStep(t), was);
      return true;
    }

    /** Line 55: the two guards are left, the inner one first. */
    method UnlockBoth(t: nat)
      requires Valid() && t < |workers| && (workers[t].UnlockMon? || workers[t].UnlockTasks?)
      modifies this
      ensures Valid() && Took(WorkerStep(t), true)
      ensures workers == old(workers)[t := if old(workers)[t].UnlockMon? then UnlockTasks else Left]
      ensures workers[t].Left? ==>
                tasksMutex != Some(Worker(t)) && monitorMutex != Some(Worker(t)) && t in monitorThreadFree
    {
      ghost var was := View();
      if workers[t].UnlockMon? {
        monitorMutex := None;
        workers := workers[t := UnlockTasks];
      } else {
        tasksMutex := None;
        workers := workers[t := Left];
      }
      Record(WorkerStep(t), was);
      if workers[t].Left? {
        LeftFacts(t);
      }
    }

    lemma LeaveFacts(t: nat)
      requires Valid() && t < |workers|
      ensures InIdle(workers[t]) ==> idleThreadNum > 0
      ensures InNow(workers[t]) ==> nowThreadNum > 0
      ensures workers[t].LeaveNow? ==> nowThreadNum as int > config.corePool
      ensures workers[t].PushFree? ==> monitorMutex == Some(Worker(t)) && t !in monitorThreadFree
    {
      Invariant();
      AtDecrement(config, View(), t);
      if workers[t].PushFree? {
        AtReport(config, View(), t);
      }
    }

    lemma IdleExact()
      requires Valid()
      ensures idleThreadNum as int == Count(workers, InIdle)
    {
      Invariant();
      CountersExact(config, View());
    }

    lemma ServeFacts(t: nat)
      requires Valid() && t < |workers|
      ensures workers[t].Busy? ==> workers[t].task !in finished
      ensures workers[t].Finished? ==> idleThreadNum as int + 1 < UINT_RANGE
    {
      Invariant();
      WhenServing(config, View(), t);
    }

    lemma LeftFacts(t: nat)
      requires Valid() && t < |workers| && workers[t].Left?
      ensures tasksMutex != Some(Worker(t)) && monitorMutex != Some(Worker(t)) && t in monitorThreadFree
    {
      Invariant();
      WhenLeft(config, View(), t);
    }

    /** thread_pool.cpp:60-63. Never blocked, and nothing is left behind in the queue. */
    method Stop(t: nat) returns (moved: bool)
      requires Valid() && t < |workers| && Stopping(workers[t])
      modifies this
      ensures Valid() && Took(WorkerStep(t), moved) && |workers| == |old(workers)|
      ensures tasks == [] && status != Running
      ensures moved <==> !old(workers)[t].Stopped?
      ensures moved && workers[t].Stopped? ==> tasksMutex.None?
    {
      StopFacts(t);
      if workers[t].Stopped? {
        return false;
      }
      if workers[t].StopIdle? || workers[t].StopNow? {
        UncountStopped(t);
      } else {
        ghost var was := View();
        if workers[t].StopStatus? {
          status := Terminated;
          workers := workers[t := StopIdle];
        } else {
          tasksMutex := None;
          workers := workers[t := Stopped];
        }
        Record(WorkerStep(t), was);
      }
      return true;
    }

    /** Lines 61 and 62. */
    method UncountStopped(t: nat)
      requires Valid() && t < |workers| && (workers[t].StopIdle? || workers[t].StopNow?)
      modifies this
      ensures Valid() && Took(WorkerStep(t), true) && tasks == old(tasks) && status == old(status)
      ensures workers == old(workers)[t := if old(workers)[t].StopIdle? then StopNow else StopUnlock]
    {
      ghost var was := View();
      LeaveFacts(t);
      if workers[t].StopIdle? {
        idleThreadNum := idleThreadNum - 1;
        workers := workers[t := StopNow];
      } else {
        nowThreadNum := nowThreadNum - 1;
        workers := workers[t := StopUnlock];
      }
      Record(WorkerStep(t), was);
    }

    lemma StopFacts(t: nat)
      requires Valid() && t < |workers| && Stopping(workers[t])
      ensures tasks == [] && status != Running
    {
      Invariant();
      WhenStopping(config, View(), t);
    }

    /** thread_pool.cpp:67-70. Never blocked, and no task is finished a second time. */
    method Serve(t: nat) returns (moved: bool)
      requires Valid() && t < |workers| && Serving(workers[t])
      modifies this
      ensures Valid() && Took(WorkerStep(t), moved) && moved && |workers| == |old(workers)|
      ensures old(workers)[t].Busy? ==>
                finished == old(finished) + [old(workers)[t].task] && old(workers)[t].task !in old(finished)
      ensures !old(workers)[t].Busy? ==> finished == old(finished) && Held(workers[t]) == Held(old(workers)[t])
      ensures idleThreadNum as int == Count(workers, InIdle)
    {
      if workers[t].Popped? || workers[t].Picked? {
        PickUp(t);
      } else {
        Finish(t);
      }
      IdleExact();
      moved := true;
    }

    /** Lines 67 and 68: the guard is left, and the worker is no longer idle. */
    method PickUp(t: nat)
      requires Valid() && t < |workers| && (workers[t].Popped? || workers[t].Picked?)
      modifies this
      ensures Valid() && Took(WorkerStep(t), true) && finished == old(finished)
      ensures var task := old(workers)[t].task;
        workers == old(workers)[t := if old(workers)[t].Popped? then Picked(task) else Busy(task)]
    {
      ghost var was := View();
      LeaveFacts(t);
      var task := workers[t].task;
      if workers[t].Popped? {
        tasksMutex := None;
        workers := workers[t := Picked(task)];
      } else {
        idleThreadNum := idleThreadNum - 1;
        workers := workers[t := Busy(task)];
      }
      Record(WorkerStep(t), was);
    }

    /** Lines 69 and 70: the task is run, and the worker is idle again. */
    method Finish(t: nat)
      requires Valid() && t < |workers| && (workers[t].Busy? || workers[t].Finished?)
      modifies this
      ensures Valid() && Took(WorkerStep(t), true)
      ensures |workers| == |old(workers)| && Held(workers[t]) == None
      ensures old(workers)[t].Busy? ==>
                finished == old(finished) + [old(workers)[t].task] && old(workers)[t].task !in old(finished)
      ensures old(workers)[t].Finished? ==> finished == old(finished)
    {
      ghost var was := View();
      ServeFacts(t);
      if workers[t].Busy? {
        finished := finished + [workers[t].task];
        workers := workers[t := Finished];
      } else {
        idleThreadNum := idleThreadNum + 1;
        workers := workers[t := LockTasks];
      }
      Record(WorkerStep(t), was);
    }

    /** The timed wait runs out, or ends for no reason. */
    method WakeWorker(t: nat, late: bool)
      requires Valid() && t < |workers| && workers[t] == Asleep
      modifies this
      ensures Valid() && Took(WorkerWake(t, late), true)
    {
      ghost var was := View();
      workers := workers[t := Woken(late)];
      Record(WorkerWake(t, late), was);
    }

    // ---- AddThread and Commit ----

    /**
     thread_pool.cpp:37-80. The pool is running; no more than the maximum are ever counted; a new thread is put
     behind the others under a number nobody had; and Start, which finds its thread not started, is passed only
     when the thread has set its tid.
     */
    method AddThread(c: nat, ghost pick: nat, ghost late: bool) returns (moved: bool)
      requires Valid() && c < |clients| && InAddThread(clients[c])
      modifies this
      ensures Valid() && Took(ClientStep(c, pick, late), moved) && status == Running
      ensures nowThreadNum as int <= config.maxPool && tasks == old(tasks) && |clients| == |old(clients)|
      ensures |workers| > |old(workers)| ==>
                && old(nowThreadNum) as int < config.maxPool
                && |old(workers)| !in old(threadPool) && threadPool == old(threadPool) + [|old(workers)|]
      ensures |workers| == |old(workers)| ==> threadPool == old(threadPool)
      ensures moved && old(clients)[c].AddWait? ==> old(clients)[c].t in tids
      ensures !moved ==> (clients[c].AddLock? && threadPoolMutex.Some?)
                         || (clients[c].AddWait? && clients[c].t !in latched)
    {
      AddFacts(c);
      if clients[c].AddIdle? || clients[c].AddNow? {
        CountIn(c, pick, late);
        return true;
      }
      ghost var was := View();
      moved := true;
      match clients[c] {
        case AddLock(size) =>
          if threadPoolMutex.Some? {
            return false;
          }
          threadPoolMutex := Some(Client(c));
          clients := clients[c := AddTest(size)];
        case AddTest(size) =>
          if nowThreadNum as int < config.maxPool && size > 0 {
            clients := clients[c := AddIdle(size, |workers|)];
            threadPool := threadPool + [|workers|];
            workers := workers + [Emplaced];
          } else {
            clients := clients[c := AddUnlock];
          }
        case AddStart(size, t) =>
          assert Unborn(workers[t]);
          workers := workers[t := Boot];
          clients := clients[c := AddWait(size, t)];
        case AddWait(size, t) =>
          if t !in latched {
            return false;
          }
          assert t in tids;
          clients := clients[c := AddTest(size - 1)];
        case AddUnlock =>
          threadPoolMutex := None;
          clients := clients[c := if c == 0 then Done else ComPush];
      }
      Record(ClientStep(c, pick, late), was);
    }

    /** Lines 76 and 77: the new thread is counted. */
    method CountIn(c: nat, ghost pick: nat, ghost late: bool)
      requires Valid() && c < |clients| && (clients[c].AddIdle? || clients[c].AddNow?)
      modifies this
      ensures Valid() && Took(ClientStep(c, pick, late), true) && status == old(status) && tasks == old(tasks)
      ensures |clients| == |old(clients)| && |workers| == |old(workers)| && threadPool == old(threadPool)
      ensures nowThreadNum as int <= config.maxPool
    {
      ghost var was := View();
      AddFacts(c);
      var t := clients[c].t;
      if clients[c].AddIdle? {
        idleThreadNum := idleThreadNum + 1;
        workers := workers[t := IdleCounted];
        clients := clients[c := AddNow(clients[c].size, t)];
      } else {
        nowThreadNum := nowThreadNum + 1;
        workers := workers[t := Counted];
        clients := clients[c := AddStart(clients[c].size, t)];
      }
      Record(ClientStep(c, pick, late), was);
    }

    lemma AddFacts(c: nat)
      requires Valid() && c < |clients| && InAddThread(clients[c])
      ensures status == Running && |workers| !in threadPool && nowThreadNum as int <= config.maxPool
      ensures Spawning(View(), clients[c])
      ensures clients[c].AddIdle? ==> idleThreadNum as int + 1 < UINT_RANGE
      ensures clients[c].AddNow? ==> nowThreadNum as int < config.maxPool
      ensures clients[c].AddWait? && clients[c].t in latched ==> clients[c].t in tids
    {
      Invariant();
      WhenAdding(config, View(), c);
    }

    /** Whether the wait set of task_cv_ is empty. */
    method NobodyAsleep() returns (none: bool)
      ensures none <==> !SomeAsleep(View())
    {
      for i := 0 to |workers|
        invariant forall j :: 0 <= j < i ==> workers[j] != Asleep
      {
        if workers[i] == Asleep {
          return false;
        }
      }
      return true;
    }

    /**
     thread_pool.h:98-113, around the call of AddThread. `pick` is the sleeper that the system wakes. A task goes
     to the back of the queue under the next number; and Notify leaves a sleeper asleep only if it woke another.
     */
    method Commit(c: nat, pick: nat, late: bool) returns (moved: bool)
      requires Valid() && c < |clients| && !InAddThread(clients[c])
      modifies this
      ensures Valid() && Took(ClientStep(c, pick, late), moved) && |clients| == |old(clients)|
      ensures tasks == old(tasks) || (tasks == old(tasks) + [old(committed)] && committed == old(committed) + 1)
      ensures moved && clients[c] == ComUnlock ==> tasks == old(tasks) + [old(committed)]
      ensures moved && clients[c] == AddLock(1) ==> |tasks| >= config.maxTask && tasks == old(tasks)
      ensures moved && clients[c] == Done ==>
                (pick < |old(workers)| == |workers| && old(workers)[pick] == Asleep && workers[pick] == Woken(late))
                || !SomeAsleep(View())
    {
      if clients[c].ComNotify? {
        moved := Notify(c, pick, late);
        return;
      }
      ghost var was := View();
      moved := true;
      match clients[c] {
        case ComLock =>
          if tasksMutex.Some? {
            return false;
          }
          tasksMutex := Some(Client(c));
          clients := clients[c := ComCheck];
        case ComCheck =>
          if config.maxTask > |tasks| {
            tasks, committed := tasks + [committed], committed + 1;
            clients := clients[c := ComUnlock];
          } else {
            clients := clients[c := AddLock(1)];
          }
        case ComPush =>
          tasks, committed := tasks + [committed], committed + 1;
          clients := clients[c := ComUnlock];
        case ComUnlock =>
          tasksMutex := None;
          clients := clients[c := ComNotify];
        case _ =>
          return false;
      }
      Record(ClientStep(c, pick, late), was);
    }

    /** Condition::Notify: one sleeper is woken, if there is any. */
    method Notify(c: nat, pick: nat, late: bool) returns (moved: bool)
      requires Valid() && c < |clients| && clients[c].ComNotify?
      modifies this
      ensures Valid() && Took(ClientStep(c, pick, late), moved)
      ensures clients == if moved then old(clients)[c := Done] else old(clients)
      ensures tasks == old(tasks) && committed == old(committed)
      ensures moved ==>
                (pick < |old(workers)| == |workers| && old(workers)[pick] == Asleep && workers[pick] == Woken(late))
                || !SomeAsleep(View())
    {
      ghost var was := View();
      if pick < |workers| && workers[pick] == Asleep {
        workers := workers[pick := Woken(late)];
      } else {
        var none := NobodyAsleep();
        if !none {
          return false;
        }
      }
      clients := clients[c := Done];
      Record(ClientStep(c, pick, late), was);
      return true;
    }

    /** Any step of the constructor or of a call of Commit. */
    method RunClient(c: nat, pick: nat, late: bool) returns (moved: bool)
      requires Valid() && c < |clients|
      modifies this
      ensures Valid() && Took(ClientStep(c, pick, late), moved)
    {
      if InAddThread(clients[c]) {
        moved := AddThread(c, pick, late);
      } else {
        moved := Commit(c, pick, late);
      }
    }

    /** A new call of Commit, on a constructed pool that is running. */
    method Arrive()
      requires Valid() && Constructed(View()) && status == Running
      modifies this
      ensures Valid() && Took(NewCommit, true)
    {
      ghost var was := View();
      clients := clients + [ComLock];
      Record(NewCommit, was);
    }

    // ---- The monitor thread ----

    /** std::find_if, from the front of the thread list. */
    method FindThread(t: nat) returns (found: Option<nat>)
      ensures found == Find(threadPool, t)
    {
      var i := 0;
      while i < |threadPool|
        invariant i <= |threadPool|
        invariant Find(threadPool, t) == match Find(threadPool[i..], t) case None => None case Some(j) => Some(i + j)
      {
        if threadPool[i] == t {
          return Some(i);
        }
        assert threadPool[i..][1..] == threadPool[i + 1..];
        i := i + 1;
      }
      return None;
    }

    /** Lines 95, 107 and 108: the pool is locked, and unlocked again, and the entry is erased. */
    method GoOn() returns (moved: bool)
      requires Valid() && (monitor == MonLockPool || monitor == MonUnlockPool || monitor == MonErase)
      modifies this
      ensures Valid() && Took(MonitorStep, moved)
      ensures monitor == if !moved then old(monitor)
                         else if old(monitor) == MonLockPool then MonFind
                         else if old(monitor) == MonUnlockPool then MonErase else MonScan
      ensures moved && old(monitor) == MonErase ==>
                && |old(monitorThreadFree)| > 0 && monitorThreadFree == old(monitorThreadFree)[1..]
                && old(monitorThreadFree)[0] < |workers| && workers[old(monitorThreadFree)[0]] == Reaped
      ensures !moved ==> monitor == MonLockPool && threadPoolMutex.Some?
    {
      ghost var was := View();
      if monitor == MonErase {
        AtErase(config, was) by { Invariant(); }
        monitorThreadFree, monitor := monitorThreadFree[1..], MonScan;
      } else if monitor == MonUnlockPool {
        threadPoolMutex, monitor := None, MonErase;
      } else {
        if threadPoolMutex.Some? {
          return false;
        }
        threadPoolMutex, monitor := Some(Monitor), MonFind;
      }
      Record(MonitorStep, was);
      return true;
    }

    /** Lines 88 to 90: the mutex is taken back, and the monitor returns if the pool has been shut down. */
    method EndWait() returns (moved: bool)
      requires Valid() && (monitor == MonWoken || monitor == MonRecheck)
      modifies this
      ensures Valid() && Took(MonitorStep, moved)
      ensures old(monitor) == MonRecheck ==>
                moved && (if status != Running then monitor == MonExited && monitorMutex.None? else monitor == MonTest)
      ensures old(monitor) == MonWoken ==>
                if moved then monitor == MonRecheck && monitorMutex == Some(Monitor) else monitorMutex.Some?
    {
      ghost var was := View();
      if monitor == MonWoken {
        if monitorMutex.Some? {
          return false;
        }
        monitorMutex, monitor := Some(Monitor), MonRecheck;
      } else if status != Running {
        monitorMutex, monitor := None, MonExited;
      } else {
        monitor := MonTest;
      }
      Record(MonitorStep, was);
      return true;
    }

    /**
     thread_pool.cpp:86-109. The monitor falls asleep only with nothing to reap, and what it takes off its list
     is a thread that has been joined. When it has its mutex back after a wait it returns if the pool has been shut
     down, and only then; and it is stopped only by its sleep, its return, a mutex, or a thread that has not left.
     */
    method RunMonitor() returns (moved: bool)
      requires Valid()
      modifies this
      ensures Valid() && Took(MonitorStep, moved)
      ensures moved && monitor == MonAsleep ==> monitorThreadFree == [] && monitorMutex.None?
      ensures moved && old(monitor) == MonErase ==>
                && |old(monitorThreadFree)| > 0 && monitorThreadFree == old(monitorThreadFree)[1..]
                && old(monitorThreadFree)[0] < |workers| && workers[old(monitorThreadFree)[0]] == Reaped
      ensures old(monitor) == MonRecheck ==>
                moved && (monitor == MonExited <==> status != Running) && (monitor == MonExited ==> monitorMutex.None?)
      ensures moved && monitor == MonExited ==> old(monitor) == MonRecheck
      ensures !moved ==>
                || monitor == MonAsleep || monitor == MonExited
                || ((monitor == MonLock || monitor == MonWoken) && monitorMutex.Some?)
                || (monitor == MonLockPool && threadPoolMutex.Some?)
                || (monitor == MonFind && monitorThreadFree != [] && monitorThreadFree[0] < |workers|
                    && workers[monitorThreadFree[0]] != Left)
    {
      if monitor == MonWoken || monitor == MonRecheck {
        moved := EndWait();
        return;
      }
      if monitor == MonErase || monitor == MonLockPool || monitor == MonUnlockPool {
        moved := GoOn();
        return;
      }
      ghost var was := View();
      moved := true;
      match monitor {
        case MonLock =>
          if monitorMutex.Some? {
            return false;
          }
          monitorMutex, monitor := Some(Monitor), MonTest;
        case MonTest =>
          if monitorThreadFree == [] {
            monitorMutex, monitor := None, MonAsleep;
          } else {
            monitor := MonScan;
          }
        case MonAsleep =>
          return false;
        case MonExited =>
          return false;
        case MonScan =>
          if monitorThreadFree == [] {
            monitorMutex, monitor := None, MonLock;
          } else {
            monitor := MonLockPool;
          }
        case MonFind =>
          moved := JoinAndErase();
          return;
      }
      Record(MonitorStep, was);
    }

    /** Lines 103 and 104, for a thread whose function has returned. */
    method Reap(t: nat, i: nat)
      requires Valid() && monitor == MonFind && monitorThreadFree != [] && t == monitorThreadFree[0]
      requires t < |workers| && workers[t] == Left
      requires Find(threadPool, t) == Some(i) && i < |threadPool| && threadPool[i] == t
      modifies this
      ensures Valid() && Took(MonitorStep, true)
      ensures monitorThreadFree == old(monitorThreadFree) && monitor == MonUnlockPool
      ensures workers == old(workers)[t := Reaped]
      ensures threadPool == old(threadPool)[..i] + old(threadPool)[i + 1..]
    {
      ghost var was := View();
      workers := workers[t := Reaped];
      threadPool := threadPool[..i] + threadPool[i + 1..];
      monitor := MonUnlockPool;
      Record(MonitorStep, was);
    }

    /**
     thread_pool.cpp:96-105. The thread is in the list; it has been started and not been joined, as Join asserts;
     Join blocks exactly until its function has returned; and then it, and nothing else, is gone from the list.
     */
    method JoinAndErase() returns (moved: bool)
      requires Valid() && monitor == MonFind
      modifies this
      ensures Valid() && Took(MonitorStep, moved) && monitorThreadFree == old(monitorThreadFree) != []
      ensures monitor == if moved then MonUnlockPool else MonFind
      ensures var t := monitorThreadFree[0];
        && t < |old(workers)| && t in old(threadPool) && !Unborn(old(workers)[t]) && old(workers)[t] != Reaped
        && (moved <==> old(workers)[t] == Left)
        && (moved ==> workers == old(workers)[t := Reaped]
                      && exists i :: 0 <= i < |old(threadPool)| && old(threadPool)[i] == t
                                     && threadPool == old(threadPool)[..i] + old(threadPool)[i + 1..])
    {
      ghost var was := View();
      AtJoin(config, was) by { Invariant(); }
      var t := monitorThreadFree[0];
      var found := FindThread(t);
      assert found.Some?;
      if workers[t] != Left {
        return false;
      }
      Reap(t, found.value);
      return true;
    }

    /** The wait of the monitor ends for no reason. */
    method WakeMonitor()
      requires Valid() && monitor == MonAsleep
      modifies this
      ensures Valid() && Took(MonitorWake, true)
    {
      ghost var was := View();
      monitor := MonWoken;
      Record(MonitorWake, was);
    }

    /** Whether no call of the constructor or of Commit is in progress. */
    method NoCallOpen() returns (none: bool)
      ensures none <==> forall c :: 0 <= c < |clients| ==> clients[c] == Done
    {
      for i := 0 to |clients|
        invariant forall j :: 0 <= j < i ==> clients[j] == Done
      {
        if clients[i] != Done {
          return false;
        }
      }
      return true;
    }

    /**
     thread_pool.cpp:129-131, when no call of Commit is in progress. Nothing but the status changes, and nobody is
     woken; however the run goes on from here, it stays shut down and no commit arrives.
     */
    method ShutDown()
      requires Valid() && forall c :: 0 <= c < |clients| ==> clients[c] == Done
      modifies this
      ensures Valid() && Took(CallShutDown, true)
      ensures View() == old(View()).(status := ThreadPool.ShutDown)
      ensures forall ss: seq<State>, aa: seq<Action>, k: nat ::
                IsPoolRun(config, ss, aa) && actions <= aa && ss[|actions|] == View() && |actions| <= k < |aa| ==>
                  ss[k].status != Running && aa[k] != NewCommit
    {
      ghost var was := View();
      status := ThreadPool.ShutDown;
      Record(CallShutDown, was);
      forall ss: seq<State>, aa: seq<Action>, k: nat |
        IsPoolRun(config, ss, aa) && actions <= aa && ss[|actions|] == View() && |actions| <= k < |aa|
        ensures ss[k].status != Running && aa[k] != NewCommit
      {
        ShutDownIsFinal(config, ss, aa, |actions|, k);
      }
    }

    // ---- Whole schedules ----

    /** One action, if it can be taken. */
    method Do(a: Action) returns (moved: bool)
      requires Valid()
      modifies this
      ensures Valid() && Took(a, moved)
    {
      moved := false;
      match a {
        case WorkerStep(t) =>
          if t < |workers| {
            moved := RunWorker(t);
          }
        case WorkerWake(t, late) =>
          if t < |workers| && workers[t] == Asleep {
            WakeWorker(t, late);
            moved := true;
          }
        case ClientStep(c, pick, late) =>
          if c < |clients| {
            moved := RunClient(c, pick, late);
          }
        case NewCommit =>
          if |clients| > 0 && clients[0] == Done && status == Running {
            Arrive();
            moved := true;
          }
        case MonitorStep =>
          moved := RunMonitor();
        case MonitorWake =>
          if monitor == MonAsleep {
            WakeMonitor();
            moved := true;
          }
        case CallShutDown =>
          moved := NoCallOpen();
          if moved {
            ShutDown();
          }
      }
    }

    /** What holds of the object whatever it has been through. */
    ghost predicate Sound()
      reads this
    {
      && nowThreadNum as int == Count(workers, InNow) <= config.maxPool
      && idleThreadNum as int == Count(workers, InIdle)
      && (Constructed(View()) && status == Running ==> nowThreadNum as int >= config.corePool)
      && (forall task: nat :: task < committed ==>
            ExactlyOne(task in tasks, SomeoneHolds(View(), task), task in finished))
      && NoDuplicates(tasks) && NoDuplicates(finished)
      && NoDuplicates(threadPool) && NoDuplicates(monitorThreadFree)
      && (forall t :: t in threadPool <==> 0 <= t < |workers| && workers[t] != Reaped)
      && (forall t :: 0 <= t < |workers| && workers[t] == Left ==> t in monitorThreadFree)
    }

    lemma ValidIsSound()
      requires Valid()
      ensures Sound()
    {
      var n := |actions|;
      Invariant();
      CountersAreExact(config, states, actions, n);
      ListIsExact(config, states, actions, n);
      forall task: nat | task < committed
        ensures ExactlyOne(task in tasks, SomeoneHolds(View(), task), task in finished)
      {
        EveryTaskOnce(config, states, actions, n, task);
      }
    }

    /**
     Any schedule whatever, carried out on the object: it goes through exactly the actions that can be taken when
     their turn comes, and is left with exact counters, every committed task queued, held or finished once, and
     a thread list of exactly the threads that are not reaped.
     */
    method Execute(schedule: seq<Action>)
      requires Valid()
      modifies this
      ensures Valid() && Sound()
      ensures actions == old(actions) + Performed(config, old(View()), schedule)
    {
      ghost var rest := Performed(config, View(), schedule);
      var i := 0;
      assert schedule[0..] == schedule;
      while i < |schedule|
        invariant i <= |schedule| && Valid()
        invariant actions + Performed(config, View(), schedule[i..]) == old(actions) + rest
      {
        ghost var done := actions;
        PerformedFrom(config, View(), schedule, i);
        var moved := Do(schedule[i]);
        MoveOver(done, schedule[i], Performed(config, View(), schedule[i + 1..]));
        i := i + 1;
      }
      assert actions + [] == actions;
      ValidIsSound();
    }
  }
}
