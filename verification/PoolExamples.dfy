/** Concrete runs of the thread pool: the inputs on which two properties that one might expect fail. */
module PoolExamples {
  import opened Common
  import opened ThreadPool
  import opened PoolInvariant
  import opened PoolTheorems
  import opened PoolWakeUps
  import opened PoolDeadlock
  import opened PoolTimeouts

  /** A run that ends in `s`. */
  ghost predicate Reaches(cfg: Config, states: seq<State>, actions: seq<Action>, s: State) {
    IsPoolRun(cfg, states, actions) && states[|actions|] == s
  }

  lemma Extend(cfg: Config, states: seq<State>, actions: seq<Action>, s: State, a: Action)
      returns (longer: seq<State>, more: seq<Action>, next: State)
    requires Reaches(cfg, states, actions, s) && Step(cfg, s, a).Some?
    ensures Reaches(cfg, longer, more, next) && Some(next) == Step(cfg, s, a)
    ensures longer == states + [next] && more == actions + [a]
  {
    next := Step(cfg, s, a).value;
    longer, more := states + [next], actions + [a];
  }

  /** A step of client `c` that is no late notify. */
  ghost function By(c: nat): Action {
    ClientStep(c, 0, false)
  }

  /** A constructed pool whose one core thread is about to look at the queue. */
  ghost predicate Fresh(s: State) {
    && s.status == Running && s.clients == [Done] && s.workers == [LockTasks] && s.tasks == [] && s.now == 1
    && s.tasksOwner.None? && s.monOwner.None? && s.poolOwner.None? && s.committed == 0
    && s.list == [0] && s.free == [] && s.monitor == MonLock
  }

  lemma Construct(cfg: Config) returns (states: seq<State>, actions: seq<Action>, s: State)
    requires cfg.corePool == 1 <= cfg.maxPool
    ensures Reaches(cfg, states, actions, s) && Fresh(s)
  {
    s := Init(cfg);
    states, actions := [s], [];
    states, actions, s := Extend(cfg, states, actions, s, By(0));
    states, actions, s := Extend(cfg, states, actions, s, By(0));
    states, actions, s := Extend(cfg, states, actions, s, By(0));
    states, actions, s := Extend(cfg, states, actions, s, By(0));
    states, actions, s := Extend(cfg, states, actions, s, By(0));
    states, actions, s := Extend(cfg, states, actions, s, WorkerStep(0));
    states, actions, s := Extend(cfg, states, actions, s, WorkerStep(0));
    states, actions, s := Extend(cfg, states, actions, s, By(0));
    states, actions, s := Extend(cfg, states, actions, s, By(0));
    states, actions, s := Extend(cfg, states, actions, s, By(0));
  }

  // ---- The queue over its limit ----

  const SMALL: Config := Config(1, 1, 1)

  /** One commit has queued its task, and the thread has not looked at the queue yet. */
  lemma QueueFull() returns (states: seq<State>, actions: seq<Action>, s: State)
    ensures Reaches(SMALL, states, actions, s) && OneQueued(s)
  {
    var cfg := SMALL;
    states, actions, s := Construct(cfg);
    states, actions, s := Extend(cfg, states, actions, s, NewCommit);
    states, actions, s := Extend(cfg, states, actions, s, By(1));
    states, actions, s := Extend(cfg, states, actions, s, By(1));
    states, actions, s := Extend(cfg, states, actions, s, By(1));
  }

  ghost predicate OneQueued(s: State) {
    && s.status == Running && s.clients == [Done, ComNotify] && s.workers == [LockTasks] && s.tasks == [0]
    && s.committed == 1 && s.now == 1 && s.tasksOwner.None? && s.poolOwner.None?
  }

  /** A pool with one thread and room for one task, and two commits: the second finds the queue full. */
  lemma QueueOverLimit() returns (states: seq<State>, actions: seq<Action>)
    ensures SMALL.Valid() && SMALL.corePool >= 1 && IsPoolRun(SMALL, states, actions)
    ensures |states[|actions|].tasks| > SMALL.maxTask >= 1
  {
    var cfg, s := SMALL, Init(SMALL);
    states, actions, s := QueueFull();
    states, actions, s := Extend(cfg, states, actions, s, NewCommit);
    states, actions, s := Extend(cfg, states, actions, s, By(2));
    states, actions, s := Extend(cfg, states, actions, s, By(2));
    states, actions, s := Extend(cfg, states, actions, s, By(2));
    states, actions, s := Extend(cfg, states, actions, s, By(2));
    states, actions, s := Extend(cfg, states, actions, s, By(2));
    states, actions, s := Extend(cfg, states, actions, s, By(2));
  }

  // ---- A task that waits for a timeout ----

  const CFG: Config := Config(2, 1, 0)

  /** The monitor has nothing to do and no mutex is taken. */
  ghost predicate Calm(s: State) {
    && s.status == Running && s.free == [] && s.monitor == MonLock
    && s.tasksOwner.None? && s.monOwner.None? && s.poolOwner.None?
  }

  /** The first commit has found the queue full and is starting a second thread. */
  ghost predicate Starting(s: State) {
    && s.status == Running && s.clients == [Done, AddWait(1, 1)] && s.workers == [LockTasks, Boot]
    && s.tasks == [] && s.committed == 0 && s.now == 2 && s.list == [0, 1] && s.free == []
    && s.monitor == MonLock && s.monOwner.None?
    && s.tasksOwner == Some(Client(1)) == s.poolOwner
  }

  /** Two threads that are about to look at the queue, and one task in it. */
  ghost predicate TwoAwake(s: State) {
    && Calm(s) && s.clients == [Done, Done] && s.workers == [LockTasks, LockTasks] && s.tasks == [0]
    && s.committed == 1 && s.now == 2 && s.list == [0, 1]
  }

  /** One task done, and both threads asleep. */
  ghost predicate BothAsleep(s: State) {
    && Calm(s) && s.clients == [Done, Done] && s.workers == [Asleep, Asleep] && s.tasks == []
    && s.committed == 1 && s.now == 2 && s.list == [0, 1]
  }

  /** The second commit has queued its task. */
  ghost predicate Notifying(s: State) {
    && Calm(s) && s.clients == [Done, Done, ComNotify] && s.workers == [Asleep, Asleep] && s.tasks == [1]
    && s.committed == 2 && s.now == 2 && s.list == [0, 1]
  }

  /** Thread 0 was woken too late, and has left because two threads were alive. */
  ghost predicate Gone(s: State) {
    && s.status == Running && s.clients == [Done, Done, Done] && s.workers == [Left, Asleep] && s.tasks == [1]
    && s.now == 1 && s.list == [0, 1] && s.free == [0] && s.monitor == MonLock
    && s.tasksOwner.None? && s.monOwner.None? && s.poolOwner.None?
  }

  lemma AddSecond() returns (states: seq<State>, actions: seq<Action>, s: State)
    ensures Reaches(CFG, states, actions, s) && Starting(s)
  {
    var cfg := CFG;
    states, actions, s := Construct(cfg);
    states, actions, s := Extend(cfg, states, actions, s, NewCommit);
    states, actions, s := Extend(cfg, states, actions, s, By(1));
    states, actions, s := Extend(cfg, states, actions, s, By(1));
    states, actions, s := Extend(cfg, states, actions, s, By(1));
    states, actions, s := Extend(cfg, states, actions, s, By(1));
    states, actions, s := Extend(cfg, states, actions, s, By(1));
    states, actions, s := Extend(cfg, states, actions, s, By(1));
    states, actions, s := Extend(cfg, states, actions, s, By(1));
  }

  lemma FirstCommit() returns (states: seq<State>, actions: seq<Action>, s: State)
    ensures Reaches(CFG, states, actions, s) && TwoAwake(s)
  {
    var cfg := CFG;
    states, actions, s := AddSecond();
    states, actions, s := Extend(cfg, states, actions, s, WorkerStep(1));
    states, actions, s := Extend(cfg, states, actions, s, WorkerStep(1));
    states, actions, s := Extend(cfg, states, actions, s, By(1));
    states, actions, s := Extend(cfg, states, actions, s, By(1));
    states, actions, s := Extend(cfg, states, actions, s, By(1));
    states, actions, s := Extend(cfg, states, actions, s, By(1));
    states, actions, s := Extend(cfg, states, actions, s, By(1));
    states, actions, s := Extend(cfg, states, actions, s, By(1));
  }

  lemma FallAsleep() returns (states: seq<State>, actions: seq<Action>, s: State)
    ensures Reaches(CFG, states, actions, s) && BothAsleep(s)
  {
    var cfg := CFG;
    states, actions, s := FirstCommit();
    states, actions, s := Extend(cfg, states, actions, s, WorkerStep(0));
    states, actions, s := Extend(cfg, states, actions, s, WorkerStep(0));
    states, actions, s := Extend(cfg, states, actions, s, WorkerStep(0));
    states, actions, s := Extend(cfg, states, actions, s, WorkerStep(0));
    states, actions, s := Extend(cfg, states, actions, s, WorkerStep(0));
    states, actions, s := Extend(cfg, states, actions, s, WorkerStep(0));
    states, actions, s := Extend(cfg, states, actions, s, WorkerStep(0));
    states, actions, s := Extend(cfg, states, actions, s, WorkerStep(0));
    states, actions, s := Extend(cfg, states, actions, s, WorkerStep(1));
    states, actions, s := Extend(cfg, states, actions, s, WorkerStep(1));
  }

  lemma SecondCommit() returns (states: seq<State>, actions: seq<Action>, s: State)
    ensures Reaches(CFG, states, actions, s) && Notifying(s)
  {
    var cfg := CFG;
    states, actions, s := FallAsleep();
    states, actions, s := Extend(cfg, states, actions, s, NewCommit);
    states, actions, s := Extend(cfg, states, actions, s, By(2));
    states, actions, s := Extend(cfg, states, actions, s, By(2));
    states, actions, s := Extend(cfg, states, actions, s, By(2));
    states, actions, s := Extend(cfg, states, actions, s, By(2));
    states, actions, s := Extend(cfg, states, actions, s, By(2));
    states, actions, s := Extend(cfg, states, actions, s, By(2));
    states, actions, s := Extend(cfg, states, actions, s, By(2));
  }

  /** Thread 0 is woken too late, and is about to go through line 49 with two threads alive. */
  ghost predicate AtLine49(s: State) {
    && s.status == Running && s.clients == [Done, Done, Done] && s.workers == [TimedOut, Asleep] && s.tasks == [1]
    && s.now == 2 && s.list == [0, 1] && s.free == [] && s.monitor == MonLock
    && s.tasksOwner == Some(Worker(0)) && s.monOwner.None? && s.poolOwner.None?
  }

  lemma LateNotify() returns (states: seq<State>, actions: seq<Action>, s: State)
    ensures Reaches(CFG, states, actions, s) && AtLine49(s) && Deserts(CFG, s, WorkerStep(0))
  {
    var cfg := CFG;
    states, actions, s := SecondCommit();
    states, actions, s := Extend(cfg, states, actions, s, ClientStep(2, 0, true));
    states, actions, s := Extend(cfg, states, actions, s, WorkerStep(0));
    assert s.workers[1] == Asleep;
  }

  /** Thread 0 is about to put itself on the monitor's list. */
  ghost predicate AtLine53(s: State) {
    && s.status == Running && s.clients == [Done, Done, Done] && s.workers == [PushFree, Asleep] && s.tasks == [1]
    && s.now == 1 && s.list == [0, 1] && s.free == [] && s.monitor == MonLock
    && s.tasksOwner == Some(Worker(0)) == s.monOwner && s.poolOwner.None?
  }

  lemma StartLeaving() returns (states: seq<State>, actions: seq<Action>, s: State)
    ensures Reaches(CFG, states, actions, s) && AtLine53(s)
  {
    var cfg := CFG;
    states, actions, s := LateNotify();
    states, actions, s := Extend(cfg, states, actions, s, WorkerStep(0));
    states, actions, s := Extend(cfg, states, actions, s, WorkerStep(0));
    states, actions, s := Extend(cfg, states, actions, s, WorkerStep(0));
    states, actions, s := Extend(cfg, states, actions, s, WorkerStep(0));
  }

  lemma LeaveLate() returns (states: seq<State>, actions: seq<Action>, s: State)
    ensures Reaches(CFG, states, actions, s) && Gone(s)
  {
    var cfg := CFG;
    states, actions, s := StartLeaving();
    states, actions, s := Extend(cfg, states, actions, s, WorkerStep(0));
    states, actions, s := Extend(cfg, states, actions, s, WorkerStep(0));
    states, actions, s := Extend(cfg, states, actions, s, WorkerStep(0));
    states, actions, s := Extend(cfg, states, actions, s, WorkerStep(0));
  }

  /** The monitor is about to join thread 0. */
  ghost predicate Joining(s: State) {
    && s.status == Running && s.clients == [Done, Done, Done] && s.workers == [Left, Asleep] && s.tasks == [1]
    && s.now == 1 && s.list == [0, 1] && s.free == [0] && s.monitor == MonFind
    && s.tasksOwner.None? && s.monOwner == Some(Monitor) == s.poolOwner
  }

  lemma FindLate() returns (states: seq<State>, actions: seq<Action>, s: State)
    ensures Reaches(CFG, states, actions, s) && Joining(s)
  {
    var cfg := CFG;
    states, actions, s := LeaveLate();
    states, actions, s := Extend(cfg, states, actions, s, MonitorStep);
    states, actions, s := Extend(cfg, states, actions, s, MonitorStep);
    states, actions, s := Extend(cfg, states, actions, s, MonitorStep);
    states, actions, s := Extend(cfg, states, actions, s, MonitorStep);
  }

  lemma ReapLate() returns (states: seq<State>, actions: seq<Action>, s: State)
    ensures Reaches(CFG, states, actions, s) && Stuck(s)
  {
    var cfg := CFG;
    states, actions, s := FindLate();
    states, actions, s := Extend(cfg, states, actions, s, MonitorStep);
    states, actions, s := Extend(cfg, states, actions, s, MonitorStep);
    states, actions, s := Extend(cfg, states, actions, s, MonitorStep);
    states, actions, s := Extend(cfg, states, actions, s, MonitorStep);
    states, actions, s := Extend(cfg, states, actions, s, MonitorStep);
    states, actions, s := Extend(cfg, states, actions, s, MonitorStep);
  }

  ghost predicate Stuck(s: State) {
    && s.status == Running && s.clients == [Done, Done, Done] && s.workers == [Reaped, Asleep] && s.tasks == [1]
    && s.monitor == MonAsleep && s.tasksOwner.None? && s.now == 1
  }

  lemma NobodyMoves(s: State)
    requires Stuck(s)
    ensures !CanMove(CFG, s)
  {
  }

  /**
   One late wake-up is enough to leave a task in the queue of a running pool with a core of one, in a state
   in which no thread can move before the remaining sleeper times out; and when it does, it takes the task.
   */
  lemma LateWakeUpDelaysTask() returns (states: seq<State>, actions: seq<Action>, more: seq<State>)
    ensures CFG.Valid() && CFG.corePool >= 1 && IsPoolRun(CFG, states, actions)
    ensures var s := states[|actions|];
      s.status == Running && s.tasks == [1] && !CanMove(CFG, s) && TimesOut(CFG, s, 1, more)
    ensures more[4].tasks == [] && |more[4].workers| == 2 && more[4].workers[1] == Popped(1)
  {
    var s;
    states, actions, s := ReapLate();
    NobodyMoves(s);
    more := TimeoutRuns(CFG, s, 1);
  }
}
