/**
 What a lost wake-up costs. A task that was left in the queue while the workers sleep waits for their timeouts,
 and no longer: each timeout either takes it or makes one worker fewer, and the core does not go away.
 */
module PoolTimeouts {
  import opened Common
  import opened ThreadPool
  import opened PoolInvariant
  import opened PoolTheorems
  import opened PoolDeadlock
  import PoolWorker
  import PoolClient
  import PoolMonitor

  predicate IsAsleep(pc: WorkerPc) {
    pc.Asleep?
  }

  function Sleepers(s: State): nat {
    Count(s.workers, IsAsleep)
  }

  /** The sleepers that were woken, by a timeout or for no reason, among the actions from `j` up to `k`. */
  function Wakes(actions: seq<Action>, j: nat, k: nat): nat
    requires j <= k <= |actions|
    decreases k
  {
    if j == k then 0 else Wakes(actions, j, k - 1) + (if actions[k - 1].WorkerWake? then 1 else 0)
  }

  /** Nobody falls asleep while a task is queued, and whoever is woken does not sleep any more. */
  lemma StepWakes(cfg: Config, s: State, a: Action, s': State)
    requires Inv(cfg, s) && Step(cfg, s, a) == Some(s') && s.tasks != []
    ensures Sleepers(s') + (if a.WorkerWake? then 1 else 0) <= Sleepers(s)
  {
    match a
    case WorkerStep(t) => WorkerWakesNobody(cfg, s, t, s');
    case WorkerWake(t, late) => CountUpdate(s.workers, t, Woken(late), IsAsleep);
    case ClientStep(c, pick, late) => ClientLullsNobody(cfg, s, c, pick, late, s');
    case MonitorStep => MonitorLullsNobody(s, s');
    case _ =>
  }

  lemma WorkerWakesNobody(cfg: Config, s: State, t: nat, s': State)
    requires t < |s.workers| && WorkerNext(cfg, s, t) == Some(s') && s.tasks != []
    ensures Sleepers(s') <= Sleepers(s)
  {
    PoolWorker.WorkerEffect(cfg, s, t, s');
    CountUpdate(s.workers, t, s'.workers[t], IsAsleep);
  }

  lemma ClientLullsNobody(cfg: Config, s: State, c: nat, pick: nat, late: bool, s': State)
    requires Births(s) && c < |s.clients| && ClientNext(cfg, s, c, pick, late) == Some(s')
    ensures Sleepers(s') <= Sleepers(s)
  {
    if InAddThread(s.clients[c]) {
      PoolClient.AddEffect(cfg, s, c, s');
      AddLullsNobody(cfg, s, c, s');
    } else {
      PoolClient.CommitEffect(cfg, s, c, pick, late, s');
      if !PoolClient.Commits(s, c, s') {
        CountUpdate(s.workers, pick, Woken(late), IsAsleep);
      }
    }
  }

  lemma AddLullsNobody(cfg: Config, s: State, c: nat, s': State)
    requires Births(s) && PoolClient.Adds(cfg, s, c, s')
    ensures Sleepers(s') == Sleepers(s)
  {
    var u := PoolClient.Touched(s, c);
    assert Spawning(s, s.clients[c]);
    if u < |s.workers| {
      CountUpdate(s.workers, u, s'.workers[u], IsAsleep);
    } else if |s'.workers| > |s.workers| {
      CountAppend(s.workers, Emplaced, IsAsleep);
    }
  }

  lemma MonitorLullsNobody(s: State, s': State)
    requires Reaping(s) && MonitorNext(s) == Some(s')
    ensures Sleepers(s') == Sleepers(s)
  {
    PoolMonitor.MonitorEffect(s, s');
    if !PoolMonitor.Scans(s, s') {
      CountUpdate(s.workers, s.free[0], Reaped, IsAsleep);
    }
  }

  /** A task is queued in every state from `j` to `k`. */
  ghost predicate Backlog(states: seq<State>, j: nat, k: nat)
    requires j <= k < |states|
  {
    forall i :: j <= i <= k ==> states[i].tasks != []
  }

  lemma LastWake(cfg: Config, states: seq<State>, actions: seq<Action>, i: nat)
    requires cfg.Valid() && IsPoolRun(cfg, states, actions) && i < |actions| && states[i].tasks != []
    ensures Sleepers(states[i + 1]) + (if actions[i].WorkerWake? then 1 else 0) <= Sleepers(states[i])
  {
    RunKeepsInv(cfg, states, actions, i);
    StepWakes(cfg, states[i], actions[i], states[i + 1]);
  }

  /** A number that every wake-up lowers and that no other step raises. */
  lemma {:induction false} WakesLower(actions: seq<Action>, sleepers: seq<nat>, j: nat, k: nat)
    requires j <= k <= |actions| && |sleepers| == |actions| + 1
    requires forall i :: j <= i < k ==> sleepers[i + 1] + (if actions[i].WorkerWake? then 1 else 0) <= sleepers[i]
    ensures sleepers[k] + Wakes(actions, j, k) <= sleepers[j]
    decreases k
  {
    if j == k {
    } else {
      var last := actions[k - 1];
      assert sleepers[k - 1 + 1] + (if last.WorkerWake? then 1 else 0) <= sleepers[k - 1];
      WakesLower(actions, sleepers, j, k - 1);
    }
  }

  lemma WakesAreBounded(cfg: Config, states: seq<State>, actions: seq<Action>, j: nat, k: nat)
    requires cfg.Valid() && IsPoolRun(cfg, states, actions) && j <= k < |states| && Backlog(states, j, k)
    ensures Sleepers(states[k]) + Wakes(actions, j, k) <= Sleepers(states[j])
  {
    var sleepers := seq(|states|, i requires 0 <= i < |states| => Sleepers(states[i]));
    forall i | j <= i < k
      ensures sleepers[i + 1] + (if actions[i].WorkerWake? then 1 else 0) <= sleepers[i]
    {
      LastWake(cfg, states, actions, i);
    }
    WakesLower(actions, sleepers, j, k);
  }

  lemma SleepersAreAlive(cfg: Config, s: State)
    requires Inv(cfg, s)
    ensures Sleepers(s) <= s.now
  {
    CountSplit(s.workers, IsAsleep, InNow, (pc: WorkerPc) => false);
    CountNone(s.workers);
  }

  /** At rest with a task in the queue, at least the core are asleep, and nobody else is alive. */
  lemma RestingSleepers(cfg: Config, s: State)
    requires Inv(cfg, s) && Resting(s) && s.tasks != []
    ensures Sleepers(s) == s.now >= cfg.corePool
  {
    CountSplit(s.workers, InNow, IsAsleep, (pc: WorkerPc) => false);
    CountNone(s.workers);
    SleepersAreAlive(cfg, s);
  }

  // ---- Main results ----

  /**
   A lost wake-up only delays. Take any stretch of any run at whose end no thread can move. If more sleepers
   were woken in it than the pool had threads beyond its core at its beginning, the queue was empty in some
   state of the stretch: every task that was left lying at its beginning has been taken.
   */
  lemma TimeoutsEmptyTheQueue(cfg: Config, states: seq<State>, actions: seq<Action>, j: nat, k: nat)
    requires cfg.Valid() && IsPoolRun(cfg, states, actions) && j <= k < |states| && !CanMove(cfg, states[k])
    requires Wakes(actions, j, k) > states[j].now - cfg.corePool
    ensures exists i :: j <= i <= k && states[i].tasks == []
  {
    if Backlog(states, j, k) {
      RunKeepsInv(cfg, states, actions, j);
      RunKeepsInv(cfg, states, actions, k);
      WakesAreBounded(cfg, states, actions, j, k);
      SleepersAreAlive(cfg, states[j]);
      EveryoneRests(cfg, states[k]);
      RestingCalls(cfg, states[k]);
      RestingSleepers(cfg, states[k]);
      assert false;
    }
  }

  /** And there is always one more to be woken: a pool with a core that rests with a task queued has a sleeper. */
  lemma SomebodyTimesOut(cfg: Config, states: seq<State>, actions: seq<Action>, k: nat) returns (t: nat)
    requires cfg.Valid() && cfg.corePool >= 1 && IsPoolRun(cfg, states, actions) && k < |states|
    requires states[k].tasks != [] && !CanMove(cfg, states[k])
    ensures t < |states[k].workers| && states[k].workers[t] == Asleep
    ensures forall late :: Step(cfg, states[k], WorkerWake(t, late)).Some?
  {
    var s := states[k];
    RunKeepsInv(cfg, states, actions, k);
    EveryoneRests(cfg, s);
    RestingCalls(cfg, s);
    RestingSleepers(cfg, s);
    t := CountWitness(s.workers, IsAsleep);
  }

  /** A timeout of worker `t`, and three steps of it. */
  ghost predicate TimesOut(cfg: Config, s: State, t: nat, more: seq<State>) {
    && |more| == 5 && more[0] == s && Step(cfg, s, WorkerWake(t, true)) == Some(more[1])
    && Step(cfg, more[1], WorkerStep(t)) == Some(more[2])
    && Step(cfg, more[2], WorkerStep(t)) == Some(more[3])
    && Step(cfg, more[3], WorkerStep(t)) == Some(more[4])
  }

  lemma TimeoutRuns(cfg: Config, s: State, t: nat) returns (more: seq<State>)
    requires t < |s.workers| && s.workers[t] == Asleep && s.tasksOwner.None? && s.tasks != []
    ensures TimesOut(cfg, s, t, more) && |more[4].workers| == |s.workers|
    ensures if s.now > cfg.corePool then more[4].workers[t] == LeaveNow && more[4].tasks == s.tasks
            else more[4].workers[t] == Popped(s.tasks[0]) && more[4].tasks == s.tasks[1..]
  {
    var s1 := Move(s, t, Woken(true));
    var s2 := LookNext(cfg, s1, t).value;
    var s3 := LookNext(cfg, s2, t).value;
    var s4 := if s.now > cfg.corePool then LeaveNext(s3, t).value else LookNext(cfg, s3, t).value;
    more := [s, s1, s2, s3, s4];
  }

  lemma RestingMutex(s: State)
    requires Ownership(s) && Resting(s)
    ensures s.tasksOwner.None?
  {
  }

  /**
   What one timeout does to a pool that rests with a task in its queue: the sleeper takes the front of the queue
   if no more than the core are alive, and otherwise it is on its way out.
   */
  lemma TimeoutAtRest(cfg: Config, states: seq<State>, actions: seq<Action>, k: nat, t: nat)
      returns (more: seq<State>)
    requires cfg.Valid() && IsPoolRun(cfg, states, actions) && k < |states| && !CanMove(cfg, states[k])
    requires states[k].tasks != [] && t < |states[k].workers| && states[k].workers[t] == Asleep
    ensures TimesOut(cfg, states[k], t, more) && t < |more[4].workers|
    ensures states[k].now >= cfg.corePool
    ensures if states[k].now > cfg.corePool
            then more[4].workers[t] == LeaveNow && more[4].tasks == states[k].tasks
            else more[4].workers[t] == Popped(states[k].tasks[0]) && more[4].tasks == states[k].tasks[1..]
  {
    var s := states[k];
    RunKeepsInv(cfg, states, actions, k);
    EveryoneRests(cfg, s);
    RestingCalls(cfg, s);
    RestingSleepers(cfg, s);
    RestingMutex(s);
    more := TimeoutRuns(cfg, s, t);
  }
}
