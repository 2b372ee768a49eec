/**
 The pool takes and releases its mutexes in single steps and does not note who holds them. Here each run of the
 pool is related to the line-by-line machine of module Guards: what the threads of the pool do with a mutex and
 its condition variable is one of the uses considered there, so that the assert in every wait holds.
 */
module PoolGuards {
  import opened Common
  import opened ThreadPool
  import opened PoolInvariant
  import opened PoolTheorems
  import Guards
  import PoolWorker
  import PoolClient
  import PoolMonitor

  /** The two mutexes on which a condition variable is made: task_mutex_ and monitor_mutex_. */
  datatype Mutex = Tasks | Reports

  function OwnerOf(m: Mutex, s: State): Option<Actor> {
    match m
    case Tasks => s.tasksOwner
    case Reports => s.monOwner
  }

  /** Threads under one numbering: the monitor, the workers, the constructor and the calls of Commit. */
  function Id(a: Actor): nat {
    match a
    case Monitor => 0
    case Worker(t) => 2 * t + 1
    case Client(c) => 2 * c + 2
  }

  function WorkerUse(m: Mutex, pc: WorkerPc): Guards.Pc {
    match m
    case Tasks =>
      if WorkerHoldsTasks(pc) then Guards.Inside
      else if pc.Asleep? then Guards.Sleeping(0, true)
      else if pc.Woken? then Guards.Waking
      else Guards.Outside
    case Reports => if WorkerHoldsMon(pc) then Guards.Inside else Guards.Outside
  }

  function ClientUse(m: Mutex, c: nat, pc: ClientPc): Guards.Pc {
    if m.Tasks? && ClientHoldsTasks(c, pc) then Guards.Inside else Guards.Outside
  }

  function MonitorUse(m: Mutex, pc: MonitorPc): Guards.Pc {
    match m
    case Tasks => Guards.Outside
    case Reports =>
      if MonitorHoldsMon(pc) then Guards.Inside
      else if pc.MonAsleep? then Guards.Sleeping(0, false)
      else if pc.MonWoken? then Guards.Waking
      else Guards.Outside
  }

  /** Where the thread of a number stands with respect to the mutex; outside if there is no such thread yet. */
  function ThreadUse(m: Mutex, s: State, i: nat): Guards.Pc {
    if i == 0 then MonitorUse(m, s.monitor)
    else if i % 2 == 1 then
      if i / 2 < |s.workers| then WorkerUse(m, s.workers[i / 2]) else Guards.Outside
    else
      if i / 2 - 1 < |s.clients| then ClientUse(m, i / 2 - 1, s.clients[i / 2 - 1]) else Guards.Outside
  }

  function Threads(s: State): nat {
    2 * (|s.workers| + |s.clients|) + 1
  }

  function Uses(m: Mutex, s: State, n: nat): seq<Guards.Pc> {
    seq(n, i requires 0 <= i < n => ThreadUse(m, s, i))
  }

  /** The state of the mutex between two steps of the pool: its owner is noted as its holder. */
  function Use(m: Mutex, s: State): Guards.State {
    var owner := match OwnerOf(m, s) case None => None case Some(a) => Some(Id(a));
    Guards.State(owner, owner, Uses(m, s, Threads(s)))
  }

  // ---- The threads of the pool own what they should ----

  lemma OwnsExactly(m: Mutex, s: State, i: nat)
    requires Ownership(s) && i < Threads(s)
    ensures ThreadUse(m, s, i) == Guards.Inside <==> Use(m, s).owner == Some(i)
  {
    if i == 0 {
    } else if i % 2 == 1 {
      assert Id(Worker(i / 2)) == i;
    } else {
      assert Id(Client(i / 2 - 1)) == i;
    }
  }

  lemma UseIsSound(m: Mutex, s: State)
    requires Ownership(s)
    ensures Guards.Inv(Use(m, s))
  {
    forall i | 0 <= i < Threads(s)
      ensures Guards.Owns(Use(m, s).threads[i]) <==> Use(m, s).owner == Some(i)
      ensures Guards.Holds(Use(m, s).threads[i]) <==> Use(m, s).owner == Some(i)
    {
      OwnsExactly(m, s, i);
    }
  }

  // ---- One step of the pool ----

  /** What a thread does with a mutex in one step: nothing, lock, unlock, fall asleep, wake up, lock again. */
  predicate Changes(before: Guards.Pc, after: Guards.Pc) {
    || after == before
    || (before.Outside? && after.Inside?)
    || (before.Inside? && (after.Outside? || after.Sleeping?))
    || (before.Sleeping? && after.Waking?)
    || (before.Waking? && after.Inside?)
  }

  /** Only the thread of number `i` does anything with the mutex. */
  ghost predicate OnlyChanges(m: Mutex, s: State, i: nat, s': State) {
    && Threads(s) <= Threads(s') && i < Threads(s')
    && Changes(ThreadUse(m, s, i), ThreadUse(m, s', i))
    && forall j: nat :: j != i ==> ThreadUse(m, s', j) == ThreadUse(m, s, j)
  }

  lemma WorkerChanges(m: Mutex, cfg: Config, s: State, t: nat, s': State)
    requires t < |s.workers| && WorkerNext(cfg, s, t) == Some(s')
    ensures t < |s'.workers| && Changes(WorkerUse(m, s.workers[t]), WorkerUse(m, s'.workers[t]))
  {
    if Serving(s.workers[t]) || Leaving(s.workers[t]) || Stopping(s.workers[t]) {
    } else {
      LookChanges(m, cfg, s, t, s');
    }
  }

  lemma LookChanges(m: Mutex, cfg: Config, s: State, t: nat, s': State)
    requires t < |s.workers| && LookNext(cfg, s, t) == Some(s')
    ensures t < |s'.workers| && Changes(WorkerUse(m, s.workers[t]), WorkerUse(m, s'.workers[t]))
  {
  }

  /** A worker that notifies the monitor does nothing with a mutex itself. */
  lemma NotifyMonUses(m: Mutex, s: State, t: nat, s': State)
    requires t < |s.workers| && s.workers[t].NotifyMon? && LeaveNext(s, t) == Some(s')
    ensures OnlyChanges(m, s, 0, s')
  {
  }

  lemma OneWorkerUses(m: Mutex, s: State, t: nat, s': State)
    requires PoolWorker.MovesLocks(s, t, s') && !s.workers[t].NotifyMon?
    requires Changes(WorkerUse(m, s.workers[t]), WorkerUse(m, s'.workers[t]))
    ensures OnlyChanges(m, s, Id(Worker(t)), s')
  {
  }

  lemma WorkerUses(m: Mutex, cfg: Config, s: State, t: nat, s': State) returns (i: nat)
    requires t < |s.workers| && WorkerNext(cfg, s, t) == Some(s')
    ensures OnlyChanges(m, s, i, s')
  {
    if s.workers[t].NotifyMon? {
      NotifyMonUses(m, s, t, s');
      i := 0;
    } else {
      PoolWorker.WorkerEffect(cfg, s, t, s');
      WorkerChanges(m, cfg, s, t, s');
      OneWorkerUses(m, s, t, s');
      i := Id(Worker(t));
    }
  }

  lemma AddUses(m: Mutex, cfg: Config, s: State, c: nat, s': State)
    requires Ownership(s) && Births(s) && c < |s.clients| && AddNext(cfg, s, c) == Some(s')
    ensures OnlyChanges(m, s, Id(Client(c)), s')
  {
    PoolClient.AddEffect(cfg, s, c, s');
    PoolClient.AddTouchesUnborn(cfg, s, c, s');
    AddLeavesWorkers(m, cfg, s, c, s');
  }

  lemma AddLeavesWorkers(m: Mutex, cfg: Config, s: State, c: nat, s': State)
    requires Births(s) && PoolClient.Adds(cfg, s, c, s')
    ensures |s.workers| <= |s'.workers|
    ensures forall t :: 0 <= t < |s.workers| ==> WorkerUse(m, s'.workers[t]) == WorkerUse(m, s.workers[t])
    ensures forall t :: |s.workers| <= t < |s'.workers| ==> WorkerUse(m, s'.workers[t]) == Guards.Outside
  {
  }

  lemma CommitUses(m: Mutex, cfg: Config, s: State, c: nat, pick: nat, late: bool, s': State) returns (i: nat)
    requires Calls(s) && c < |s.clients| && !InAddThread(s.clients[c])
    requires CommitNext(cfg, s, c, pick, late) == Some(s')
    ensures OnlyChanges(m, s, i, s')
  {
    PoolClient.CommitEffect(cfg, s, c, pick, late, s');
    if PoolClient.Commits(s, c, s') {
      i := Id(Client(c));
    } else {
      NotifyUses(m, s, c, pick, late, s');
      i := Id(Worker(pick));
    }
  }

  lemma NotifyUses(m: Mutex, s: State, c: nat, pick: nat, late: bool, s': State)
    requires PoolClient.Notifies(s, c, pick, late, s')
    ensures OnlyChanges(m, s, Id(Worker(pick)), s')
  {
  }

  lemma MonitorChanges(m: Mutex, s: State, s': State)
    requires MonitorNext(s) == Some(s')
    ensures Changes(MonitorUse(m, s.monitor), MonitorUse(m, s'.monitor))
  {
  }

  lemma ReapUses(m: Mutex, s: State, t: nat, i: nat, s': State)
    requires PoolMonitor.Reaps(s, t, i, s')
    ensures OnlyChanges(m, s, 0, s')
  {
  }

  lemma MonitorUses(m: Mutex, s: State, s': State)
    requires Reaping(s) && MonitorNext(s) == Some(s')
    ensures OnlyChanges(m, s, 0, s')
  {
    PoolMonitor.MonitorEffect(s, s');
    if PoolMonitor.Scans(s, s') {
      MonitorChanges(m, s, s');
    } else {
      var i :| PoolMonitor.Reaps(s, s.free[0], i, s');
      ReapUses(m, s, s.free[0], i, s');
    }
  }

  lemma ClientUses(m: Mutex, cfg: Config, s: State, c: nat, pick: nat, late: bool, s': State) returns (i: nat)
    requires Ownership(s) && Births(s) && Calls(s)
    requires c < |s.clients| && ClientNext(cfg, s, c, pick, late) == Some(s')
    ensures OnlyChanges(m, s, i, s')
  {
    if InAddThread(s.clients[c]) {
      AddUses(m, cfg, s, c, s');
      i := Id(Client(c));
    } else {
      i := CommitUses(m, cfg, s, c, pick, late, s');
    }
  }

  lemma WakeUses(m: Mutex, s: State, t: nat, late: bool)
    requires t < |s.workers| && s.workers[t] == Asleep
    ensures OnlyChanges(m, s, Id(Worker(t)), Move(s, t, Woken(late)))
  {
  }

  lemma ArrivalUses(m: Mutex, s: State)
    requires |s.clients| > 0
    ensures OnlyChanges(m, s, 0, s.(clients := s.clients + [ComLock]))
  {
  }

  lemma StepUses(m: Mutex, cfg: Config, s: State, a: Action, s': State) returns (i: nat)
    requires Ownership(s) && Births(s) && Calls(s) && Reaping(s) && Step(cfg, s, a) == Some(s')
    ensures OnlyChanges(m, s, i, s')
  {
    i := 0;
    match a
    case WorkerStep(t) => i := WorkerUses(m, cfg, s, t, s');
    case WorkerWake(t, late) =>
      WakeUses(m, s, t, late);
      i := Id(Worker(t));
    case ClientStep(c, pick, late) => i := ClientUses(m, cfg, s, c, pick, late, s');
    case NewCommit => ArrivalUses(m, s);
    case MonitorStep => MonitorUses(m, s, s');
    case _ =>
  }

  // ---- The same step of the mutex, line by line ----

  /** A run of the mutex that ends in `g`. */
  ghost predicate Reaches(uses: seq<Guards.State>, used: seq<Guards.Action>, g: Guards.State) {
    Guards.IsGuardRun(uses, used) && uses[|used|] == g
  }

  lemma Extend(uses: seq<Guards.State>, used: seq<Guards.Action>, g: Guards.State, a: Guards.Action)
      returns (longer: seq<Guards.State>, more: seq<Guards.Action>, next: Guards.State)
    requires Reaches(uses, used, g) && Guards.Step(g, a).Some?
    ensures Reaches(longer, more, next) && Some(next) == Guards.Step(g, a)
  {
    next := Guards.Step(g, a).value;
    longer, more := uses + [next], used + [a];
  }

  /** Threads that have not appeared yet appear, outside. */
  lemma {:induction false} Appear(uses: seq<Guards.State>, used: seq<Guards.Action>, g: Guards.State, n: nat)
      returns (longer: seq<Guards.State>, more: seq<Guards.Action>)
    requires Reaches(uses, used, g)
    ensures Reaches(longer, more, g.(threads := g.threads + seq(n, _ => Guards.Outside)))
  {
    if n == 0 {
      longer, more := uses, used;
      assert g.threads + seq(n, _ => Guards.Outside) == g.threads;
    } else {
      var next;
      longer, more := Appear(uses, used, g, n - 1);
      longer, more, next := Extend(longer, more, longer[|more|], Guards.Spawn);
      assert g.threads + seq(n - 1, _ => Guards.Outside) + [Guards.Outside] == g.threads + seq(n, _ => Guards.Outside);
    }
  }

  /** The holder is noted and the mutex is owned by the same thread, or by none. */
  predicate Settled(g: Guards.State) {
    g.owner == g.holder
  }

  /**
   What one thread does with the mutex in one step of the pool is done line by line. Who ends a wait makes no
   difference to the mutex, so every wake-up appears as one without a reason.
   */
  lemma Advance(uses: seq<Guards.State>, used: seq<Guards.Action>, g: Guards.State, t: nat, g': Guards.State)
      returns (longer: seq<Guards.State>, more: seq<Guards.Action>)
    requires Reaches(uses, used, g) && Guards.Inv(g) && Settled(g) && Guards.Inv(g') && Settled(g')
    requires t < |g.threads| == |g'.threads| && g'.threads == g.threads[t := g'.threads[t]]
    requires Changes(g.threads[t], g'.threads[t])
    ensures Reaches(longer, more, g')
  {
    var next := g;
    longer, more := uses, used;
    OwnerFollows(g, t, g');
    var pc, pc' := g.threads[t], g'.threads[t];
    if pc == pc' {
    } else if pc.Outside? {
      longer, more, next := Extend(longer, more, next, Guards.Choose(t, Guards.Lock));
      longer, more, next := Extend(longer, more, next, Guards.Go(t));
    } else if pc.Inside? && pc'.Outside? {
      longer, more, next := Extend(longer, more, next, Guards.Choose(t, Guards.Unlock));
      longer, more, next := Extend(longer, more, next, Guards.Go(t));
    } else if pc.Inside? {
      longer, more, next := Extend(longer, more, next, Guards.Choose(t, Guards.Wait(pc'.cond, pc'.timed)));
      longer, more, next := Extend(longer, more, next, Guards.Go(t));
      longer, more, next := Extend(longer, more, next, Guards.Go(t));
    } else if pc.Sleeping? {
      longer, more, next := Extend(longer, more, next, Guards.Spurious(t));
    } else {
      longer, more, next := Extend(longer, more, next, Guards.Go(t));
      longer, more, next := Extend(longer, more, next, Guards.Go(t));
    }
    assert next.threads == g'.threads;
  }

  /** Who owns the mutex afterwards follows from who is inside. */
  lemma OwnerFollows(g: Guards.State, t: nat, g': Guards.State)
    requires Guards.Inv(g) && Guards.Inv(g')
    requires t < |g.threads| == |g'.threads| && g'.threads == g.threads[t := g'.threads[t]]
    requires Changes(g.threads[t], g'.threads[t])
    ensures g'.owner == (if g'.threads[t].Inside? then Some(t) else if g.threads[t].Inside? then None else g.owner)
    ensures g'.threads[t].Inside? && !g.threads[t].Inside? ==> g.owner == None
  {
    if g.owner.Some? {
      Guards.OwnerOwns(g);
    }
    if g'.owner.Some? {
      Guards.OwnerOwns(g');
    }
  }

  // ---- Whole runs ----

  lemma StartIsGuarded(m: Mutex, cfg: Config) returns (uses: seq<Guards.State>, used: seq<Guards.Action>)
    ensures Reaches(uses, used, Use(m, Init(cfg)))
  {
    uses, used := [Guards.Init()], [];
    uses, used := Appear(uses, used, Guards.Init(), Threads(Init(cfg)));
    StartsOutside(m, cfg);
  }

  lemma StartsOutside(m: Mutex, cfg: Config)
    ensures Use(m, Init(cfg)) == Guards.State(None, None, [] + seq(Threads(Init(cfg)), _ => Guards.Outside))
  {
  }

  lemma StepIsGuarded(m: Mutex, cfg: Config, s: State, a: Action, s': State,
                      before: seq<Guards.State>, done: seq<Guards.Action>)
      returns (uses: seq<Guards.State>, used: seq<Guards.Action>)
    requires Inv(cfg, s) && Step(cfg, s, a) == Some(s') && Inv(cfg, s') && Reaches(before, done, Use(m, s))
    ensures Reaches(uses, used, Use(m, s'))
  {
    var i := StepUses(m, cfg, s, a, s');
    UseIsSound(m, s);
    UseIsSound(m, s');
    var g := Use(m, s).(threads := Uses(m, s, Threads(s')));
    uses, used := Appear(before, done, Use(m, s), Threads(s') - Threads(s));
    NewThreadsAreOutside(m, s, Threads(s'));
    MoreThreadsAreSound(m, s, Threads(s'));
    UseFollows(m, s, i, s');
    uses, used := Advance(uses, used, g, i, Use(m, s'));
  }

  lemma UseFollows(m: Mutex, s: State, i: nat, s': State)
    requires OnlyChanges(m, s, i, s')
    ensures Uses(m, s', Threads(s')) == Uses(m, s, Threads(s'))[i := Uses(m, s', Threads(s'))[i]]
    ensures Changes(Uses(m, s, Threads(s'))[i], Uses(m, s', Threads(s'))[i])
  {
  }

  /** Numbers without a thread stand for threads that are outside. */
  lemma NewThreadsAreOutside(m: Mutex, s: State, n: nat)
    requires Threads(s) <= n
    ensures Uses(m, s, n) == Uses(m, s, Threads(s)) + seq(n - Threads(s), _ => Guards.Outside)
  {
  }

  lemma MoreThreadsAreSound(m: Mutex, s: State, n: nat)
    requires Guards.Inv(Use(m, s)) && Threads(s) <= n
    ensures Guards.Inv(Use(m, s).(threads := Uses(m, s, n)))
  {
    NewThreadsAreOutside(m, s, n);
  }

  lemma StepOfRun(cfg: Config, states: seq<State>, actions: seq<Action>, i: nat)
    requires cfg.Valid() && IsPoolRun(cfg, states, actions) && i < |actions|
    ensures Inv(cfg, states[i]) && Step(cfg, states[i], actions[i]) == Some(states[i + 1]) && Inv(cfg, states[i + 1])
  {
    RunKeepsInv(cfg, states, actions, i);
    RunKeepsInv(cfg, states, actions, i + 1);
  }

  // ---- Main results ----

  /**
   What the threads of the pool do with a mutex and its condition, in any run, is one of the uses that module
   Guards considers: locks, waits and wake-ups line by line, with the holder noted and cleared where it is.
   */
  lemma {:induction false} PoolRunIsGuardRun(
      m: Mutex, cfg: Config, states: seq<State>, actions: seq<Action>, k: nat)
      returns (uses: seq<Guards.State>, used: seq<Guards.Action>)
    requires cfg.Valid() && IsPoolRun(cfg, states, actions) && k < |states|
    ensures Reaches(uses, used, Use(m, states[k]))
  {
    if k == 0 {
      uses, used := StartIsGuarded(m, cfg);
    } else {
      var i := k - 1;
      StepOfRun(cfg, states, actions, i);
      uses, used := PoolRunIsGuardRun(m, cfg, states, actions, i);
      uses, used := StepIsGuarded(m, cfg, states[i], actions[i], states[i + 1], uses, used);
    }
  }

  /** AssertLocked, called by a thread of the pool on the holder that such a run has noted, does not fail. */
  ghost predicate Locked(m: Mutex, s: State, a: Actor) {
    Id(a) < Threads(s)
    && Guards.ChooseNext(Use(m, s), Id(a), Guards.AssertLocked) == Some(Use(m, s))
  }

  /** The asserts at condition.cpp:16 and 30 hold: every thread of the pool that comes to a wait is the holder. */
  lemma WaitsAreLocked(cfg: Config, states: seq<State>, actions: seq<Action>, k: nat)
    requires cfg.Valid() && IsPoolRun(cfg, states, actions) && k < |states|
    ensures forall t :: 0 <= t < |states[k].workers| && states[k].workers[t].Test? ==>
              Locked(Tasks, states[k], Worker(t))
    ensures states[k].monitor.MonTest? ==> Locked(Reports, states[k], Monitor)
  {
    RunKeepsInv(cfg, states, actions, k);
    forall t | 0 <= t < |states[k].workers| && states[k].workers[t].Test?
      ensures Locked(Tasks, states[k], Worker(t))
    {
      OwnsExactly(Tasks, states[k], Id(Worker(t)));
    }
    OwnsExactly(Reports, states[k], 0);
  }
}
