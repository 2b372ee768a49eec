/** Safety of the thread pool over whole runs. */
module PoolTheorems {
  import opened Common
  import opened ThreadPool
  import opened PoolInvariant
  import PoolWorker
  import PoolClient
  import PoolMonitor

  lemma StepKeepsInv(cfg: Config, s: State, a: Action, s': State)
    requires cfg.Valid() && Inv(cfg, s) && Step(cfg, s, a) == Some(s')
    ensures Inv(cfg, s')
  {
    match a
    case WorkerStep(t) => PoolWorker.WorkerKeepsInv(cfg, s, t, s');
    case WorkerWake(t, late) => PoolWorker.WakeKeepsInv(cfg, s, t, late, s');
    case ClientStep(c, pick, late) =>
      if InAddThread(s.clients[c]) {
        PoolClient.AddKeepsInv(cfg, s, c, s');
      } else {
        PoolClient.CommitKeepsInv(cfg, s, c, pick, late, s');
      }
    case NewCommit => PoolClient.NewCommitKeepsInv(cfg, s, s');
    case MonitorStep => PoolMonitor.MonitorKeepsInv(cfg, s, s');
    case MonitorWake => SpuriousKeepsInv(cfg, s, s');
    case CallShutDown => PoolClient.ShutDownKeepsInv(cfg, s, s');
  }

  lemma SpuriousKeepsInv(cfg: Config, s: State, s': State)
    requires Inv(cfg, s) && s.monitor == MonAsleep && s' == s.(monitor := MonWoken)
    ensures Inv(cfg, s')
  {
    SpuriousKeepsLists(s, s');
    SpuriousKeepsRest(cfg, s, s');
    SameWorkersKeepHandshake(s, s');
  }

  lemma SpuriousKeepsLists(s: State, s': State)
    requires Ownership(s) && Reaping(s) && s.monitor == MonAsleep && s' == s.(monitor := MonWoken)
    ensures Ownership(s') && Reaping(s') && MonitorAwake(s')
  {
  }

  lemma SpuriousKeepsRest(cfg: Config, s: State, s': State)
    requires s.monitor == MonAsleep && s' == s.(monitor := MonWoken)
    requires Calls(s) && Births(s) && Counters(s) && Bounds(cfg, s) && Drain(s) && Tasks(s)
    ensures Calls(s') && Births(s') && Counters(s') && Bounds(cfg, s') && Drain(s') && Tasks(s')
  {
    HeldKeepsTasks(s, s');
  }

  /** The invariant holds in every reachable state, whatever the interleaving. */
  lemma RunKeepsInv(cfg: Config, states: seq<State>, actions: seq<Action>, k: nat)
    requires cfg.Valid() && IsPoolRun(cfg, states, actions) && k < |states|
    ensures Inv(cfg, states[k])
  {
    InitInv(cfg);
    forall s, a | Inv(cfg, s) && Step(cfg, s, a).Some?
      ensures Inv(cfg, Step(cfg, s, a).value)
    {
      StepKeepsInv(cfg, s, a, Step(cfg, s, a).value);
    }
    RunInvariant(Init(cfg), (s: State, a: Action) => Step(cfg, s, a), s => Inv(cfg, s), states, actions, k);
  }

  // ---- Counters ----

  predicate Constructed(s: State) {
    |s.clients| > 0 && s.clients[0] == Done
  }

  /**
   Both counters are exact in every reachable state, now_thread_num_ never exceeds the maximum, and
   a constructed pool that is running, or still has work, never falls below its core.
   */
  lemma CountersAreExact(cfg: Config, states: seq<State>, actions: seq<Action>, k: nat)
    requires cfg.Valid() && IsPoolRun(cfg, states, actions) && k < |states|
    ensures var s := states[k];
      && s.now == Count(s.workers, InNow) <= cfg.maxPool
      && s.idle == Count(s.workers, InIdle)
      && (Constructed(s) && (s.status == Running || s.tasks != []) ==> s.now >= cfg.corePool)
  {
    RunKeepsInv(cfg, states, actions, k);
  }

  /** At most one worker is new or has moved. */
  ghost predicate OneMoved(ws: seq<WorkerPc>, ws': seq<WorkerPc>) {
    || ws' == ws
    || (|ws| < |ws'| && ws' == ws + [ws'[|ws|]])
    || exists t :: 0 <= t < |ws| && |ws'| == |ws| && ws' == ws[t := ws'[t]]
  }

  lemma CountMovesByOne(ws: seq<WorkerPc>, ws': seq<WorkerPc>, p: WorkerPc -> bool)
    requires OneMoved(ws, ws')
    ensures Count(ws, p) - 1 <= Count(ws', p) <= Count(ws, p) + 1
  {
    if ws' == ws {
    } else if |ws| < |ws'| {
      CountAppend(ws, ws'[|ws|], p);
    } else {
      var t :| 0 <= t < |ws| && ws' == ws[t := ws'[t]];
      CountUpdate(ws, t, ws'[t], p);
    }
  }

  lemma AddMovesOne(cfg: Config, s: State, c: nat, s': State)
    requires c < |s.clients| && AddNext(cfg, s, c) == Some(s')
    ensures OneMoved(s.workers, s'.workers)
  {
    PoolClient.AddEffect(cfg, s, c, s');
    var u := PoolClient.Touched(s, c);
    assert u < |s.workers| ==> s'.workers == s.workers || s'.workers == s.workers[u := s'.workers[u]];
  }

  lemma MonitorMovesOne(s: State, s': State)
    requires Reaping(s) && MonitorNext(s) == Some(s')
    ensures OneMoved(s.workers, s'.workers)
  {
    PoolMonitor.MonitorEffect(s, s');
    if !PoolMonitor.Scans(s, s') {
      var t := s.free[0];
      assert s'.workers == s.workers[t := s'.workers[t]];
    }
  }

  lemma OneWorkerMoves(cfg: Config, s: State, a: Action, s': State)
    requires Reaping(s) && Step(cfg, s, a) == Some(s')
    ensures OneMoved(s.workers, s'.workers)
  {
    match a
    case WorkerStep(t) => PoolWorker.WorkerEffect(cfg, s, t, s');
    case ClientStep(c, pick, late) =>
      if InAddThread(s.clients[c]) {
        AddMovesOne(cfg, s, c, s');
      } else {
        PoolClient.CommitEffect(cfg, s, c, pick, late, s');
      }
    case MonitorStep => MonitorMovesOne(s, s');
    case _ =>
  }

  /** No step wraps an unsigned counter: each changes by at most one, as an integer. */
  lemma CountersNeverWrap(cfg: Config, states: seq<State>, actions: seq<Action>, k: nat)
    requires cfg.Valid() && IsPoolRun(cfg, states, actions) && k < |actions|
    ensures states[k].now - 1 <= states[k + 1].now <= states[k].now + 1
    ensures states[k].idle - 1 <= states[k + 1].idle <= states[k].idle + 1
  {
    var s, s' := states[k], states[k + 1];
    RunKeepsInv(cfg, states, actions, k);
    RunKeepsInv(cfg, states, actions, k + 1);
    OneWorkerMoves(cfg, s, actions[k], s');
    CountMovesByOne(s.workers, s'.workers, InNow);
    CountMovesByOne(s.workers, s'.workers, InIdle);
  }

  // ---- Tasks ----

  /** Exactly one of three. */
  predicate ExactlyOne(a: bool, b: bool, c: bool) {
    (a && !b && !c) || (!a && b && !c) || (!a && !b && c)
  }

  /** Every committed task is queued once, held by one worker, or finished once; and only one of these. */
  lemma EveryTaskOnce(cfg: Config, states: seq<State>, actions: seq<Action>, k: nat, task: nat)
    requires cfg.Valid() && IsPoolRun(cfg, states, actions) && k < |states|
    requires task < states[k].committed
    ensures var s := states[k];
      && ExactlyOne(task in s.tasks, SomeoneHolds(s, task), task in s.finished)
      && NoDuplicates(s.tasks) && NoDuplicates(s.finished)
      && forall t, u :: 0 <= t < |s.workers| && 0 <= u < |s.workers| ==>
           (Held(s.workers[t]) == Some(task) && Held(s.workers[u]) == Some(task) ==> t == u)
  {
    RunKeepsInv(cfg, states, actions, k);
    var s := states[k];
    if task >= Taken(s) {
      assert s.tasks[task - Taken(s)] == task;
    }
  }

  /** Tasks leave the queue in commit order: the n-th to be taken is the n-th committed. */
  lemma TakenInCommitOrder(cfg: Config, states: seq<State>, actions: seq<Action>, k: nat, t: nat)
    requires cfg.Valid() && IsPoolRun(cfg, states, actions) && k < |actions|
    requires actions[k] == WorkerStep(t) && t < |states[k].workers| && states[k].workers[t] == Test
    requires states[k].tasks != []
    ensures Taken(states[k]) >= 0 && states[k + 1].workers == states[k].workers[t := Popped(Taken(states[k]))]
    ensures Taken(states[k + 1]) == Taken(states[k]) + 1
  {
    RunKeepsInv(cfg, states, actions, k);
    TakesFront(cfg, states[k], t, states[k + 1]);
  }

  lemma TakesFront(cfg: Config, s: State, t: nat, s': State)
    requires Tasks(s) && t < |s.workers| && s.workers[t] == Test && s.tasks != []
    requires WorkerNext(cfg, s, t) == Some(s')
    ensures s'.workers == s.workers[t := Popped(Taken(s))] && Taken(s') == Taken(s) + 1
  {
    assert s.tasks[0] == Taken(s);
  }

  ghost predicate Drained(s: State) {
    s.status != Running && s.tasks == []
  }

  lemma StepKeepsDrained(cfg: Config, s: State, a: Action, s': State)
    requires Inv(cfg, s) && Drained(s) && Step(cfg, s, a) == Some(s')
    ensures Drained(s') && s'.committed == s.committed
  {
    match a
    case WorkerStep(t) => PoolWorker.WorkerEffect(cfg, s, t, s');
    case MonitorStep => PoolMonitor.MonitorEffect(s, s');
    case _ =>
  }

  /** Once a worker has taken the shutdown exit the queue is empty, and it stays empty for ever. */
  lemma ExitMeansDrained(cfg: Config, states: seq<State>, actions: seq<Action>, j: nat, k: nat, t: nat)
    requires cfg.Valid() && IsPoolRun(cfg, states, actions) && j <= k < |states|
    requires t < |states[j].workers| && Stopping(states[j].workers[t])
    ensures Drained(states[k]) && states[k].committed == states[j].committed
  {
    var committed := states[j].committed;
    forall i | j <= i < k && Drained(states[i]) && states[i].committed == committed
      ensures Drained(states[i + 1]) && states[i + 1].committed == committed
    {
      RunKeepsInv(cfg, states, actions, i);
      StepKeepsDrained(cfg, states[i], actions[i], states[i + 1]);
    }
    RunKeepsInv(cfg, states, actions, j);
    RunStable((s: State) => Drained(s) && s.committed == committed, states, j, k);
  }

  /** A step after ShutDown: the pool never runs again, no call is open or arrives, and nothing is queued. */
  lemma StepKeepsShutDown(cfg: Config, s: State, a: Action, s': State)
    requires Inv(cfg, s) && s.status != Running && Step(cfg, s, a) == Some(s')
    ensures s'.status != Running && s'.clients == s.clients
    ensures s'.committed == s.committed && |s'.workers| == |s.workers|
  {
    match a
    case WorkerStep(t) => PoolWorker.WorkerEffect(cfg, s, t, s');
    case MonitorStep => PoolMonitor.MonitorEffect(s, s');
    case _ =>
  }

  /** ShutDown is for good: from then on the pool does not run, no commit arrives and no thread is added. */
  lemma ShutDownIsFinal(cfg: Config, states: seq<State>, actions: seq<Action>, j: nat, k: nat)
    requires cfg.Valid() && IsPoolRun(cfg, states, actions) && j <= k < |states| && states[j].status != Running
    ensures states[k].status != Running && states[k].clients == states[j].clients
    ensures states[k].committed == states[j].committed && |states[k].workers| == |states[j].workers|
    ensures k < |actions| ==> actions[k] != NewCommit
  {
    var s := states[j];
    var same := (t: State) => t.status != Running && t.clients == s.clients && t.committed == s.committed
                              && |t.workers| == |s.workers|;
    forall i | j <= i < k && same(states[i])
      ensures same(states[i + 1])
    {
      RunKeepsInv(cfg, states, actions, i);
      StepKeepsShutDown(cfg, states[i], actions[i], states[i + 1]);
    }
    RunStable(same, states, j, k);
    if k < |actions| {
      assert Step(cfg, states[k], actions[k]) == Some(states[k + 1]);
    }
  }

  // ---- Reaping ----

  /**
   The thread list is exactly the threads not yet reaped, each once; every thread that left after a
   timeout and is not yet joined is on the monitor's list exactly once.
   */
  lemma ListIsExact(cfg: Config, states: seq<State>, actions: seq<Action>, k: nat)
    requires cfg.Valid() && IsPoolRun(cfg, states, actions) && k < |states|
    ensures var s := states[k];
      && NoDuplicates(s.list) && NoDuplicates(s.free)
      && (forall t :: t in s.list <==> 0 <= t < |s.workers| && s.workers[t] != Reaped)
      && (forall t :: 0 <= t < |s.workers| && s.workers[t] == Left ==> t in s.free)
  {
    RunKeepsInv(cfg, states, actions, k);
  }

  /** Reaped is entered by the front of the monitor's list only, from Left, and is final. */
  ghost predicate ReapsFront(s: State, s': State) {
    && |s.workers| <= |s'.workers|
    && forall t :: 0 <= t < |s.workers| ==>
         && (s.workers[t] == Reaped ==> s'.workers[t] == Reaped)
         && (s.workers[t] != Reaped && s'.workers[t] == Reaped ==>
               s.workers[t] == Left && s.free != [] && s.free[0] == t)
  }

  lemma ClientReapsNobody(cfg: Config, s: State, c: nat, pick: nat, late: bool, s': State)
    requires Births(s) && c < |s.clients| && ClientNext(cfg, s, c, pick, late) == Some(s')
    ensures ReapsFront(s, s')
  {
    if InAddThread(s.clients[c]) {
      PoolClient.AddEffect(cfg, s, c, s');
    } else {
      PoolClient.CommitEffect(cfg, s, c, pick, late, s');
    }
  }

  lemma MonitorReapsFront(s: State, s': State)
    requires Reaping(s) && MonitorNext(s) == Some(s')
    ensures ReapsFront(s, s')
  {
    PoolMonitor.MonitorEffect(s, s');
  }

  lemma WorkerReapsNobody(cfg: Config, s: State, t: nat, s': State)
    requires t < |s.workers| && WorkerNext(cfg, s, t) == Some(s')
    ensures ReapsFront(s, s')
  {
    PoolWorker.WorkerEffect(cfg, s, t, s');
  }

  lemma StepReapsFront(cfg: Config, s: State, a: Action, s': State)
    requires Births(s) && Reaping(s) && Step(cfg, s, a) == Some(s')
    ensures ReapsFront(s, s')
  {
    match a
    case WorkerWake(t, late) => assert s' == Move(s, t, Woken(late));
    case WorkerStep(u) => WorkerReapsNobody(cfg, s, u, s');
    case ClientStep(c, pick, late) => ClientReapsNobody(cfg, s, c, pick, late, s');
    case MonitorStep => MonitorReapsFront(s, s');
    case _ =>
  }

  /** A thread is joined only after it has left, exactly once: Reaped is entered from Left and is final. */
  lemma ReapedOnce(cfg: Config, states: seq<State>, actions: seq<Action>, k: nat, t: nat)
    requires cfg.Valid() && IsPoolRun(cfg, states, actions) && k < |actions|
    requires t < |states[k].workers|
    ensures t < |states[k + 1].workers|
    ensures states[k].workers[t] == Reaped ==> states[k + 1].workers[t] == Reaped
    ensures states[k].workers[t] != Reaped && states[k + 1].workers[t] == Reaped ==>
              states[k].workers[t] == Left && states[k].free != [] && states[k].free[0] == t
  {
    RunKeepsInv(cfg, states, actions, k);
    StepReapsFront(cfg, states[k], actions[k], states[k + 1]);
  }

  /** Whenever the monitor's mutex is free, the monitor sleeps un-notified only if it has nothing to reap. */
  lemma MonitorIsNotified(cfg: Config, states: seq<State>, actions: seq<Action>, k: nat)
    requires cfg.Valid() && IsPoolRun(cfg, states, actions) && k < |states|
    requires states[k].monOwner.None? && states[k].free != []
    ensures states[k].monitor != MonAsleep
  {
    RunKeepsInv(cfg, states, actions, k);
  }

  // ---- Asserts ----

  /**
   What the asserts on the way of an AddThread call demand: the pool is running (thread_pool.cpp:38), Start
   finds its thread not started (thread.cpp:28), and when the latch has been counted down the tid is set (51).
   */
  ghost predicate ClientAsserts(s: State, pc: ClientPc) {
    && (InAddThread(pc) ==> s.status == Running)
    && (pc.AddStart? ==> pc.t < |s.workers| && Unborn(s.workers[pc.t]))
    && (pc.AddWait? && pc.t in s.latched ==> pc.t in s.tids)
  }

  /**
   What the asserts on the way of the monitor demand: the thread that is to be joined is in the list, has been
   started, and is not joined yet (thread.cpp:56); and whoever waits has locked (condition.cpp:16 and 30).
   */
  ghost predicate MonitorAsserts(s: State) {
    && (s.monitor.MonFind? ==>
          && s.free != [] && s.free[0] < |s.workers| && Find(s.list, s.free[0]).Some?
          && s.free[0] in s.tids && !Unborn(s.workers[s.free[0]]) && s.workers[s.free[0]] != Reaped)
    && (s.monitor.MonTest? ==> s.monOwner == Some(Monitor))
    && forall t :: 0 <= t < |s.workers| && s.workers[t].Test? ==> s.tasksOwner == Some(Worker(t))
  }

  /** No assert of the pool, of its threads or of its condition variables fails, in any interleaving. */
  lemma NoAssertFails(cfg: Config, states: seq<State>, actions: seq<Action>, k: nat)
    requires cfg.Valid() && IsPoolRun(cfg, states, actions) && k < |states|
    ensures MonitorAsserts(states[k])
    ensures forall c :: 0 <= c < |states[k].clients| ==> ClientAsserts(states[k], states[k].clients[c])
  {
    var s := states[k];
    RunKeepsInv(cfg, states, actions, k);
    forall c | 0 <= c < |s.clients|
      ensures ClientAsserts(s, s.clients[c])
    {
      assert Spawning(s, s.clients[c]);
    }
    if s.monitor.MonFind? {
      PoolMonitor.FindIsFirst(s.list, s.free[0]);
    }
  }
}
