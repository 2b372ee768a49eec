/**
 How many threads a pool makes: the constructor exactly the core, and a commit one if it finds the queue full and
 the pool below its maximum, and none otherwise. Whoever starts a thread goes on only when its tid is set.
 */
module PoolGrowth {
  import opened Common
  import opened ThreadPool
  import opened PoolInvariant
  import opened PoolTheorems
  import opened PoolQueue
  import PoolWorker
  import PoolClient
  import PoolMonitor

  // ---- The start of one thread ----

  /** When Start comes back, thread.cpp:51 finds the tid set: the latch has been counted down by then. */
  lemma StartReturnsWithTid(cfg: Config, states: seq<State>, actions: seq<Action>, k: nat, c: nat)
    requires cfg.Valid() && IsPoolRun(cfg, states, actions) && k < |actions| && c < |states[k].clients|
    requires states[k].clients[c].AddWait?
    ensures c < |states[k + 1].clients|
    ensures states[k + 1].clients[c] != states[k].clients[c] ==>
              states[k].clients[c].t in states[k].latched && states[k].clients[c].t in states[k].tids
  {
    RunKeepsInv(cfg, states, actions, k);
    StepMovesClient(cfg, states[k], actions[k], states[k + 1], c);
    assert Spawning(states[k], states[k].clients[c]);
  }

  // ---- The constructor ----

  /** The threads that AddThread still has to register. */
  function ToRegister(pc: ClientPc): nat {
    match pc
    case AddLock(size) => size
    case AddTest(size) => size
    case AddIdle(size, _) => if size == 0 then 0 else size - 1
    case AddNow(size, _) => if size == 0 then 0 else size - 1
    case AddStart(size, _) => if size == 0 then 0 else size - 1
    case AddWait(size, _) => if size == 0 then 0 else size - 1
    case _ => 0
  }

  /** Before the first commit the pool has, or is about to get, as many threads as its core. */
  ghost predicate Founding(cfg: Config, s: State) {
    |s.clients| == 1 ==> |s.workers| + ToRegister(s.clients[0]) == cfg.corePool
  }

  lemma AddKeepsFounding(cfg: Config, s: State, c: nat, s': State)
    requires cfg.Valid() && Inv(cfg, s) && Founding(cfg, s)
    requires c < |s.clients| && AddNext(cfg, s, c) == Some(s')
    ensures Founding(cfg, s')
  {
    assert Spawning(s, s.clients[c]);
    CountBounded(s.workers, InNow);
  }

  lemma {:induction false} CountBounded(ws: seq<WorkerPc>, p: WorkerPc -> bool)
    ensures Count(ws, p) <= |ws|
  {
    if ws == [] {
    } else {
      CountBounded(ws[..|ws| - 1], p);
    }
  }

  lemma StepKeepsFounding(cfg: Config, s: State, a: Action, s': State)
    requires cfg.Valid() && Inv(cfg, s) && Founding(cfg, s) && Step(cfg, s, a) == Some(s')
    ensures Founding(cfg, s')
  {
    match a
    case WorkerStep(t) => PoolWorker.WorkerEffect(cfg, s, t, s');
    case ClientStep(c, pick, late) =>
      if InAddThread(s.clients[c]) {
        AddKeepsFounding(cfg, s, c, s');
      } else {
        PoolClient.CommitEffect(cfg, s, c, pick, late, s');
      }
    case MonitorStep => PoolMonitor.MonitorEffect(s, s');
    case _ =>
  }

  /** When the constructor has returned, and nobody has committed anything yet, there are as many as the core. */
  lemma ConstructorMakesTheCore(cfg: Config, states: seq<State>, actions: seq<Action>, k: nat)
    requires cfg.Valid() && IsPoolRun(cfg, states, actions) && k < |states|
    requires states[k].clients == [Done]
    ensures |states[k].workers| == cfg.corePool
  {
    InitInv(cfg);
    forall s, a | Inv(cfg, s) && Founding(cfg, s) && Step(cfg, s, a).Some?
      ensures Inv(cfg, Step(cfg, s, a).value) && Founding(cfg, Step(cfg, s, a).value)
    {
      StepKeepsInv(cfg, s, a, Step(cfg, s, a).value);
      StepKeepsFounding(cfg, s, a, Step(cfg, s, a).value);
    }
    RunInvariant(Init(cfg), (s: State, a: Action) => Step(cfg, s, a), s => Inv(cfg, s) && Founding(cfg, s),
                 states, actions, k);
  }

  // ---- Commits ----

  /** How far a commit has come that found the queue full with `made` threads made and `now` alive. */
  predicate Grown(cfg: Config, s: State, c: nat, made: nat, now: nat)
    requires c < |s.clients|
  {
    match s.clients[c]
    case AddLock(size) => size == 1 && |s.workers| == made && s.now == now
    case AddTest(size) =>
      if size == 1 then |s.workers| == made && s.now == now
      else size == 0 && now < cfg.maxPool && |s.workers| == made + 1 && s.now == now + 1
    case AddIdle(size, _) => size == 1 && now < cfg.maxPool && |s.workers| == made + 1 && s.now == now
    case AddNow(size, _) => size == 1 && now < cfg.maxPool && |s.workers| == made + 1 && s.now == now
    case AddStart(size, _) => size == 1 && now < cfg.maxPool && |s.workers| == made + 1 && s.now == now + 1
    case AddWait(size, _) => size == 1 && now < cfg.maxPool && |s.workers| == made + 1 && s.now == now + 1
    case AddUnlock => HasGrown(cfg, s, made, now)
    case ComPush => HasGrown(cfg, s, made, now)
    case _ => true
  }

  predicate HasGrown(cfg: Config, s: State, made: nat, now: nat) {
    && |s.workers| == made + (if now < cfg.maxPool then 1 else 0)
    && s.now == now + (if now < cfg.maxPool then 1 else 0)
  }

  lemma OwnStepGrows(cfg: Config, s: State, c: nat, pick: nat, late: bool, s': State, made: nat, now: nat)
    requires cfg.Valid() && Bounds(cfg, s) && Births(s) && c != 0 && c < |s.clients| && FoundFull(c, s.clients[c])
    requires Grown(cfg, s, c, made, now) && ClientNext(cfg, s, c, pick, late) == Some(s')
    ensures c < |s'.clients| && Grown(cfg, s', c, made, now)
  {
    assert Spawning(s, s.clients[c]);
  }

  /** While a commit is in AddThread, or about to queue its task, nobody else adds a thread or makes one leave. */
  lemma OthersLeaveGrowth(cfg: Config, s: State, a: Action, s': State, c: nat)
    requires Inv(cfg, s) && c != 0 && c < |s.clients| && FoundFull(c, s.clients[c]) && Step(cfg, s, a) == Some(s')
    requires !(a.ClientStep? && a.c == c)
    ensures |s'.workers| == |s.workers| && s'.now == s.now && c < |s'.clients| && s'.clients[c] == s.clients[c]
  {
    StepMovesClient(cfg, s, a, s', c);
    match a
    case WorkerStep(t) => PoolWorker.WorkerEffect(cfg, s, t, s');
    case ClientStep(d, pick, late) => OtherCommitLeavesGrowth(cfg, s, d, pick, late, s', c);
    case MonitorStep => PoolMonitor.MonitorEffect(s, s');
    case _ =>
  }

  lemma OtherCommitLeavesGrowth(cfg: Config, s: State, d: nat, pick: nat, late: bool, s': State, c: nat)
    requires TaskMutex(s) && Calls(s) && c != 0 && c < |s.clients| && FoundFull(c, s.clients[c])
    requires d != c && d < |s.clients| && ClientNext(cfg, s, d, pick, late) == Some(s')
    ensures |s'.workers| == |s.workers| && s'.now == s.now
  {
    PoolClient.CommitEffect(cfg, s, d, pick, late, s');
  }

  lemma StepGrows(cfg: Config, s: State, a: Action, s': State, c: nat, made: nat, now: nat)
    requires cfg.Valid() && Inv(cfg, s) && c != 0 && c < |s.clients| && Step(cfg, s, a) == Some(s')
    requires FoundFull(c, s.clients[c]) && Grown(cfg, s, c, made, now)
    ensures c < |s'.clients| && (FoundFull(c, s'.clients[c]) ==> Grown(cfg, s', c, made, now))
  {
    StepMovesClient(cfg, s, a, s', c);
    if a.ClientStep? && a.c == c {
      OwnStepGrows(cfg, s, c, a.pick, a.late, s', made, now);
    } else {
      OthersLeaveGrowth(cfg, s, a, s', c);
    }
  }

  lemma {:induction false} GrownSinceTest(
      cfg: Config, states: seq<State>, actions: seq<Action>, c: nat, j: nat, k: nat)
    requires cfg.Valid() && IsPoolRun(cfg, states, actions) && j < k < |states| && c != 0
    requires TestsAt(states, actions, c, j) && c < |states[k].clients| && FoundFull(c, states[k].clients[c])
    ensures Grown(cfg, states[k], c, |states[j].workers|, states[j].now)
  {
    var i := k - 1;
    RunKeepsInv(cfg, states, actions, i);
    if i == j {
      CommitMoves(cfg, states[j], c, actions[j].pick, actions[j].late, states[j + 1]);
    } else {
      AfterTheTest(cfg, states, actions, c, j, i);
      StepMovesClient(cfg, states[i], actions[i], states[i + 1], c);
      GrownSinceTest(cfg, states, actions, c, j, i);
      StepGrows(cfg, states[i], actions[i], states[i + 1], c, |states[j].workers|, states[j].now);
    }
  }

  /**
   The threads that a commit makes, between its test at line 100 and the push of its task, whatever the workers do
   meanwhile: exactly one if the queue was full at the test and fewer than the maximum were alive, and none otherwise.
   */
  lemma CommitMakesOneExactlyWhenFull(
      cfg: Config, states: seq<State>, actions: seq<Action>, c: nat, j: nat, k: nat)
    requires cfg.Valid() && IsPoolRun(cfg, states, actions)
    requires j <= k && TestsAt(states, actions, c, j) && PushesAt(states, actions, c, k)
    ensures |states[k + 1].workers| == |states[j].workers| +
              (if |states[j].tasks| >= cfg.maxTask && states[j].now < cfg.maxPool then 1 else 0)
  {
    PushesWhere(cfg, states, actions, c, k);
    RunKeepsInv(cfg, states, actions, k);
    CommitMoves(cfg, states[k], c, actions[k].pick, actions[k].late, states[k + 1]);
    OverLimitExactlyWhenFull(cfg, states, actions, c, j, k);
    PushKeepsWorkers(cfg, states[k], c, actions[k].pick, actions[k].late, states[k + 1]);
    if j < k {
      AfterTheTest(cfg, states, actions, c, j, k);
      GrownSinceTest(cfg, states, actions, c, j, k);
    }
  }

  lemma PushKeepsWorkers(cfg: Config, s: State, c: nat, pick: nat, late: bool, s': State)
    requires c < |s.clients| && (s.clients[c] == ComCheck || s.clients[c] == ComPush)
    requires ClientNext(cfg, s, c, pick, late) == Some(s')
    ensures s'.workers == s.workers
  {
  }
}
