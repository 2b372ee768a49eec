/**
 Which pools can lose a wake-up at all: with a non-empty core, exactly those that may have more threads than
 their core. This is what a caller can see before the pool is made.
 */
module PoolSpare {
  import opened Common
  import opened ThreadPool
  import opened PoolInvariant
  import opened PoolTheorems
  import opened PoolWakeUps
  import opened PoolDeadlock
  import opened PoolTimeouts
  import opened PoolExamples
  import PoolProgress
  import PoolWorker
  import PoolClient
  import PoolMonitor

  /** No run of the pool, of any length, has a desertion. */
  ghost predicate NeverDeserts(cfg: Config) {
    forall states: seq<State>, actions: seq<Action> :: IsPoolRun(cfg, states, actions) ==>
      NoDesertion(cfg, states, actions, |actions|)
  }

  lemma FullCoreNeverDeserts(cfg: Config)
    requires cfg.Valid() && cfg.corePool == cfg.maxPool
    ensures NeverDeserts(cfg)
  {
    forall states: seq<State>, actions: seq<Action>, i | IsPoolRun(cfg, states, actions) && 0 <= i < |actions|
      ensures !Deserts(cfg, states[i], actions[i])
    {
      CountersAreExact(cfg, states, actions, i);
    }
  }

  // ---- A running pool that nobody leaves ----

  predicate GoingAway(pc: WorkerPc) {
    pc == Woken(true) || pc.TimedOut? || Leaving(pc)
  }

  ghost predicate Settled(s: State) {
    s.status == Running && forall t :: 0 <= t < |s.workers| ==> !GoingAway(s.workers[t])
  }

  lemma WorkerStaysSettled(cfg: Config, s: State, t: nat, s': State)
    requires Drain(s) && Settled(s) && PoolWorker.Effect(cfg, s, t, s') && WorkerNext(cfg, s, t) == Some(s')
    ensures Settled(s') && s'.now == s.now
  {
    assert !Stopping(s.workers[t]);
  }

  lemma AddStaysSettled(cfg: Config, s: State, c: nat, s': State)
    requires cfg.Valid() && Births(s) && Bounds(cfg, s) && Settled(s)
    requires c < |s.clients| && AddNext(cfg, s, c) == Some(s')
    ensures Settled(s') && s'.now >= s.now
  {
    PoolClient.AddEffect(cfg, s, c, s');
  }

  lemma ClientStaysSettled(cfg: Config, s: State, c: nat, pick: nat, s': State)
    requires cfg.Valid() && Births(s) && Bounds(cfg, s) && Settled(s)
    requires c < |s.clients| && ClientNext(cfg, s, c, pick, false) == Some(s')
    ensures Settled(s') && s'.now >= s.now
  {
    if InAddThread(s.clients[c]) {
      AddStaysSettled(cfg, s, c, s');
    } else {
      PoolClient.CommitEffect(cfg, s, c, pick, false, s');
    }
  }

  /** Prompt steps of the pool's own threads make nobody go away, so now_thread_num_ does not fall. */
  lemma StepStaysSettled(cfg: Config, s: State, a: Action, s': State)
    requires cfg.Valid() && Inv(cfg, s) && Settled(s) && Step(cfg, s, a) == Some(s')
    requires PoolProgress.Internal(a) && Prompt(a)
    ensures Settled(s') && s'.now >= s.now
  {
    match a
    case WorkerStep(t) =>
      PoolWorker.WorkerEffect(cfg, s, t, s');
      WorkerStaysSettled(cfg, s, t, s');
    case ClientStep(c, pick, late) => ClientStaysSettled(cfg, s, c, pick, s');
    case MonitorStep => PoolMonitor.MonitorEffect(s, s');
    case _ =>
  }

  lemma {:induction false} RunStaysSettled(cfg: Config, states: seq<State>, actions: seq<Action>, j: nat, k: nat)
    requires cfg.Valid() && IsPoolRun(cfg, states, actions) && j <= k < |states| && Settled(states[j])
    requires forall i :: j <= i < k ==> PoolProgress.Internal(actions[i]) && Prompt(actions[i])
    ensures Settled(states[k]) && states[k].now >= states[j].now
    decreases k
  {
    if j == k {
    } else {
      var i := k - 1;
      RunStaysSettled(cfg, states, actions, j, i);
      RunKeepsInv(cfg, states, actions, i);
      StepStaysSettled(cfg, states[i], actions[i], states[i + 1]);
    }
  }

  // ---- Between rest and rest ----

  /** Every worker is asleep or gone, nothing is queued, no call is open, and no mutex is taken that matters. */
  ghost predicate AtEase(s: State) {
    && s.status == Running && s.tasks == [] && |s.clients| > 0
    && (forall c :: 0 <= c < |s.clients| ==> s.clients[c] == Done)
    && (forall t :: 0 <= t < |s.workers| ==> s.workers[t] == Asleep || s.workers[t] == Reaped)
    && s.tasksOwner.None? && s.poolOwner.None?
  }

  lemma RestIsEase(cfg: Config, states: seq<State>, actions: seq<Action>)
    requires cfg.Valid() && cfg.corePool >= 1 && IsPoolRun(cfg, states, actions)
    requires NoDesertion(cfg, states, actions, |actions|)
    requires states[|actions|].status == Running && !CanMove(cfg, states[|actions|])
    ensures AtEase(states[|actions|])
  {
    var s := states[|actions|];
    RunKeepsInv(cfg, states, actions, |actions|);
    QuiescentMeansDone(cfg, states, actions, |actions|);
    FreeMutexes(s);
  }

  lemma FreeMutexes(s: State)
    requires Ownership(s) && s.monitor == MonAsleep
    requires forall c :: 0 <= c < |s.clients| ==> s.clients[c] == Done
    requires forall t :: 0 <= t < |s.workers| ==> s.workers[t] == Asleep || s.workers[t] == Reaped
    ensures s.tasksOwner.None? && s.poolOwner.None?
  {
  }

  ghost predicate AllPrompt(actions: seq<Action>) {
    forall i :: 0 <= i < |actions| ==> Prompt(actions[i])
  }

  /** From a settled state the pool comes to ease, with at least as many threads. */
  lemma ComeToEase(cfg: Config, past: seq<State>, steps: seq<Action>, start: State)
      returns (states: seq<State>, actions: seq<Action>, s: State)
    requires cfg.Valid() && cfg.corePool >= 1 && Reaches(cfg, past, steps, start)
    requires Settled(start) && AllPrompt(steps)
    ensures Reaches(cfg, states, actions, s) && AllPrompt(actions)
    ensures AtEase(s) && s.now >= start.now
  {
    states, actions := PoolProgress.CanBeFinished(cfg, past, steps);
    s := states[|actions|];
    var j := |steps|;
    assert past[j] == states[j];
    forall i | 0 <= i < |actions|
      ensures Prompt(actions[i])
    {
      assert i < j ==> actions[i] == steps[i];
    }
    RunStaysSettled(cfg, states, actions, j, |actions|);
    PromptRunHasNoDesertion(cfg, states, actions, |actions|);
    RestIsEase(cfg, states, actions);
  }

  // ---- One more thread ----

  /** Calls of Commit that have queued a task each and have not notified anybody yet; nobody is awake. */
  ghost predicate Filling(s: State, threads: seq<WorkerPc>, now: nat, queued: nat) {
    && s.status == Running && s.workers == threads && s.now == now && |s.tasks| == queued
    && |s.clients| > 0 && s.clients[0] == Done
    && s.tasksOwner.None? && s.poolOwner.None?
  }

  /** A commit to a queue that has room, up to its notify. */
  lemma QueueOne(cfg: Config, past: seq<State>, steps: seq<Action>, start: State,
                 threads: seq<WorkerPc>, now: nat, queued: nat)
      returns (states: seq<State>, actions: seq<Action>, s: State)
    requires Reaches(cfg, past, steps, start) && AllPrompt(steps)
    requires Filling(start, threads, now, queued) && queued < cfg.maxTask
    ensures Reaches(cfg, states, actions, s) && AllPrompt(actions) && Filling(s, threads, now, queued + 1)
    ensures |s.clients| == |start.clients| + 1 && s.clients == start.clients + [ComNotify]
  {
    var c := |start.clients|;
    states, actions, s := Extend(cfg, past, steps, start, NewCommit);
    states, actions, s := Extend(cfg, states, actions, s, By(c));
    states, actions, s := Extend(cfg, states, actions, s, By(c));
    states, actions, s := Extend(cfg, states, actions, s, By(c));
  }

  lemma FillQueue(cfg: Config, past: seq<State>, steps: seq<Action>, start: State)
      returns (states: seq<State>, actions: seq<Action>, s: State)
    requires Reaches(cfg, past, steps, start) && AllPrompt(steps) && AtEase(start)
    ensures Reaches(cfg, states, actions, s) && AllPrompt(actions)
    ensures Filling(s, start.workers, start.now, cfg.maxTask)
  {
    states, actions, s := past, steps, start;
    var i := 0;
    while i < cfg.maxTask
      invariant i <= cfg.maxTask && Reaches(cfg, states, actions, s) && AllPrompt(actions)
      invariant Filling(s, start.workers, start.now, i)
    {
      states, actions, s := QueueOne(cfg, states, actions, s, start.workers, start.now, i);
      i := i + 1;
    }
  }

  /** A commit that finds the queue full. */
  lemma FindFull(cfg: Config, past: seq<State>, steps: seq<Action>, start: State, threads: seq<WorkerPc>, now: nat)
      returns (states: seq<State>, actions: seq<Action>, s: State)
    requires Reaches(cfg, past, steps, start) && AllPrompt(steps) && Filling(start, threads, now, cfg.maxTask)
    ensures Reaches(cfg, states, actions, s) && AllPrompt(actions)
    ensures s.status == Running && s.workers == threads && s.now == now && s.poolOwner.None?
    ensures s.clients == start.clients + [AddLock(1)] && |start.clients| > 0
  {
    var c := |start.clients|;
    states, actions, s := Extend(cfg, past, steps, start, NewCommit);
    states, actions, s := Extend(cfg, states, actions, s, By(c));
    states, actions, s := Extend(cfg, states, actions, s, By(c));
  }

  /** A commit that finds the queue full registers and counts one more thread. */
  lemma CountOneMore(cfg: Config, past: seq<State>, steps: seq<Action>, start: State, threads: seq<WorkerPc>, now: nat)
      returns (states: seq<State>, actions: seq<Action>, s: State)
    requires cfg.Valid() && Reaches(cfg, past, steps, start) && AllPrompt(steps)
    requires Filling(start, threads, now, cfg.maxTask) && now < cfg.maxPool
    ensures Reaches(cfg, states, actions, s) && AllPrompt(actions)
    ensures s.status == Running && s.workers == threads + [Counted] && s.now == now + 1
  {
    var c := |start.clients|;
    states, actions, s := FindFull(cfg, past, steps, start, threads, now);
    states, actions, s := Extend(cfg, states, actions, s, By(c));
    states, actions, s := Extend(cfg, states, actions, s, By(c));
    states, actions, s := Extend(cfg, states, actions, s, By(c));
    states, actions, s := Extend(cfg, states, actions, s, By(c));
  }

  /** At ease with the largest number of threads: commits to full queues add them one by one. */
  lemma GrowToMax(cfg: Config) returns (states: seq<State>, actions: seq<Action>, s: State)
    requires cfg.Valid() && 1 <= cfg.corePool
    ensures Reaches(cfg, states, actions, s) && AllPrompt(actions) && AtEase(s) && s.now == cfg.maxPool
  {
    states, actions, s := ComeToEase(cfg, [Init(cfg)], [], Init(cfg));
    NowInBounds(cfg, states, actions);
    while s.now < cfg.maxPool
      invariant Reaches(cfg, states, actions, s) && AllPrompt(actions) && AtEase(s) && s.now <= cfg.maxPool
      decreases cfg.maxPool - s.now
    {
      var threads, now := s.workers, s.now;
      states, actions, s := FillQueue(cfg, states, actions, s);
      states, actions, s := CountOneMore(cfg, states, actions, s, threads, now);
      states, actions, s := ComeToEase(cfg, states, actions, s);
      NowInBounds(cfg, states, actions);
    }
  }

  lemma NowInBounds(cfg: Config, states: seq<State>, actions: seq<Action>)
    requires cfg.Valid() && IsPoolRun(cfg, states, actions)
    ensures states[|actions|].now <= cfg.maxPool
  {
    CountersAreExact(cfg, states, actions, |actions|);
  }

  // ---- The desertion ----

  /** A commit up to its notify, when no thread can be added. */
  lemma CommitAtMax(cfg: Config, past: seq<State>, steps: seq<Action>, start: State)
      returns (states: seq<State>, actions: seq<Action>, s: State)
    requires Reaches(cfg, past, steps, start) && AtEase(start) && start.now == cfg.maxPool
    ensures Reaches(cfg, states, actions, s) && s.clients == start.clients + [ComNotify]
    ensures Filling(s, start.workers, start.now, 1)
  {
    var c := |start.clients|;
    states, actions, s := Extend(cfg, past, steps, start, NewCommit);
    states, actions, s := Extend(cfg, states, actions, s, By(c));
    states, actions, s := Extend(cfg, states, actions, s, By(c));
    if cfg.maxTask == 0 {
      states, actions, s := PassAddThread(cfg, states, actions, s, c);
    }
    states, actions, s := Extend(cfg, states, actions, s, By(c));
  }

  lemma PassAddThread(cfg: Config, past: seq<State>, steps: seq<Action>, start: State, c: nat)
      returns (states: seq<State>, actions: seq<Action>, s: State)
    requires Reaches(cfg, past, steps, start) && start.now == cfg.maxPool && start.poolOwner.None?
    requires 0 < c < |start.clients| && start.clients[c] == AddLock(1)
    ensures Reaches(cfg, states, actions, s)
    ensures s == start.(clients := start.clients[c := ComUnlock], tasks := start.tasks + [start.committed],
                        committed := start.committed + 1)
  {
    states, actions, s := Extend(cfg, past, steps, start, By(c));
    states, actions, s := Extend(cfg, states, actions, s, By(c));
    states, actions, s := Extend(cfg, states, actions, s, By(c));
    states, actions, s := Extend(cfg, states, actions, s, By(c));
    assert s.clients == start.clients[c := ComUnlock];
  }

  lemma TwoSleepers(s: State) returns (t: nat, u: nat)
    requires Counters(s) && AtEase(s) && s.now >= 2
    ensures t < |s.workers| && u < |s.workers| && t != u && s.workers[t] == Asleep && s.workers[u] == Asleep
  {
    CountSplit(s.workers, InNow, IsAsleep, (pc: WorkerPc) => false);
    CountNone(s.workers);
    if forall i, j :: 0 <= i < |s.workers| && 0 <= j < |s.workers| && IsAsleep(s.workers[i]) && IsAsleep(s.workers[j])
                      ==> i == j {
      CountAtMostOne(s.workers, IsAsleep);
      assert false;
    }
    t, u :| t < |s.workers| && u < |s.workers| && IsAsleep(s.workers[t]) && IsAsleep(s.workers[u]) && t != u;
  }

  /** A late waiter among sleepers that goes through line 49 deserts if more than the core are alive. */
  lemma LateWaiterDeserts(cfg: Config, s: State, t: nat, u: nat)
    requires cfg.corePool < s.now && s.tasks != [] && t < |s.workers| && s.workers[t] == TimedOut
    requires forall d :: 0 <= d < |s.clients| ==> s.clients[d] == Done
    requires forall v :: 0 <= v < |s.workers| && v != t ==> s.workers[v] == Asleep || s.workers[v] == Reaped
    requires u < |s.workers| && s.workers[u] == Asleep
    ensures Deserts(cfg, s, WorkerStep(t)) && Step(cfg, s, WorkerStep(t)).Some?
  {
  }

  /** One sleeper is notified late, and the pool has more than its core: the sleeper deserts. */
  lemma NotifyLate(cfg: Config, past: seq<State>, steps: seq<Action>, start: State, c: nat, t: nat, u: nat)
      returns (states: seq<State>, actions: seq<Action>, s: State)
    requires Reaches(cfg, past, steps, start) && cfg.corePool < start.now && |start.tasks| == 1
    requires start.tasksOwner.None? && c < |start.clients| && start.clients[c] == ComNotify
    requires forall d :: 0 <= d < |start.clients| && d != c ==> start.clients[d] == Done
    requires forall v :: 0 <= v < |start.workers| ==> start.workers[v] == Asleep || start.workers[v] == Reaped
    requires t < |start.workers| && u < |start.workers| && t != u
    requires start.workers[t] == Asleep && start.workers[u] == Asleep
    ensures Reaches(cfg, states, actions, s) && Deserts(cfg, s, WorkerStep(t)) && Step(cfg, s, WorkerStep(t)).Some?
  {
    states, actions, s := Extend(cfg, past, steps, start, ClientStep(c, t, true));
    states, actions, s := Extend(cfg, states, actions, s, WorkerStep(t));
    assert s.workers == start.workers[t := TimedOut] && s.clients == start.clients[c := Done];
    LateWaiterDeserts(cfg, s, t, u);
  }

  lemma SpareDeserts(cfg: Config)
    requires cfg.Valid() && 1 <= cfg.corePool < cfg.maxPool
    ensures !NeverDeserts(cfg)
  {
    var states, actions, s := GrowToMax(cfg);
    RunKeepsInv(cfg, states, actions, |actions|);
    var t, u := TwoSleepers(s);
    var c := |s.clients|;
    states, actions, s := CommitAtMax(cfg, states, actions, s);
    states, actions, s := NotifyLate(cfg, states, actions, s, c, t, u);
    var n := |actions|;
    var longer, more, next := Extend(cfg, states, actions, s, WorkerStep(t));
    assert longer[n] == s && Deserts(cfg, longer[n], more[n]);
    assert !NoDesertion(cfg, longer, more, |more|);
  }

  /**
   With a non-empty core, no run of a pool has a desertion if and only if the pool has no room for threads beyond
   its core.
   */
  lemma DesertsExactlyWithSpareThreads(cfg: Config)
    requires cfg.Valid() && cfg.corePool >= 1
    ensures NeverDeserts(cfg) <==> cfg.corePool == cfg.maxPool
  {
    if cfg.corePool == cfg.maxPool {
      FullCoreNeverDeserts(cfg);
    } else {
      SpareDeserts(cfg);
    }
  }
}
