/**
 How the threads of a pool end. ShutDown wakes nobody, but whoever is awake or woken afterwards goes on to return:
 the workers through line 59 or line 49, the monitor through line 89.
 */
module PoolEnding {
  import opened Common
  import opened ThreadPool
  import opened PoolInvariant
  import opened PoolTheorems
  import opened PoolDeadlock
  import PoolWorker
  import PoolClient
  import PoolMonitor

  // ---- The monitor ----

  /** The monitor has been woken and has not begun to look at its list again. */
  predicate Roused(pc: MonitorPc) {
    pc == MonWoken || pc == MonRecheck || pc == MonExited
  }

  /** After ShutDown a wake-up of the monitor leads out of its loop and nowhere else. */
  lemma StepKeepsRoused(cfg: Config, s: State, a: Action, s': State)
    requires Inv(cfg, s) && s.status != Running && Roused(s.monitor) && Step(cfg, s, a) == Some(s')
    ensures Roused(s'.monitor) && s'.status != Running
  {
    match a
    case WorkerStep(t) => PoolWorker.WorkerEffect(cfg, s, t, s');
    case _ =>
  }

  lemma StaysRoused(cfg: Config, states: seq<State>, actions: seq<Action>, j: nat, k: nat)
    requires cfg.Valid() && IsPoolRun(cfg, states, actions) && j <= k < |states|
    requires states[j].status != Running && Roused(states[j].monitor)
    ensures Roused(states[k].monitor)
  {
    forall i | j <= i < k && states[i].status != Running && Roused(states[i].monitor)
      ensures states[i + 1].status != Running && Roused(states[i + 1].monitor)
    {
      RunKeepsInv(cfg, states, actions, i);
      StepKeepsRoused(cfg, states[i], actions[i], states[i + 1]);
    }
    RunStable((s: State) => s.status != Running && Roused(s.monitor), states, j, k);
  }

  /**
   A step of the monitor after ShutDown, once it was woken: it takes its mutex back, and with that it returns and
   leaves the mutex free.
   */
  lemma WokenMonitorReturns(cfg: Config, states: seq<State>, actions: seq<Action>, k: nat)
    requires cfg.Valid() && IsPoolRun(cfg, states, actions) && k < |actions| && actions[k] == MonitorStep
    requires states[k].status != Running && Roused(states[k].monitor)
    ensures states[k].monitor == MonWoken ==> states[k + 1].monitor == MonRecheck
    ensures states[k].monitor == MonRecheck ==> states[k + 1].monitor == MonExited && states[k + 1].monOwner.None?
    ensures states[k].monitor != MonExited
    ensures states[k + 1].free == states[k].free && states[k + 1].list == states[k].list
  {
    assert Step(cfg, states[k], actions[k]) == Some(states[k + 1]);
  }

  /** The monitor returns from line 90 only. */
  lemma ReturnsFromRecheck(cfg: Config, s: State, a: Action, s': State)
    requires s.monitor != MonExited && Step(cfg, s, a) == Some(s') && s'.monitor == MonExited
    ensures s.monitor == MonRecheck
  {
    match a
    case WorkerStep(t) => PoolWorker.WorkerEffect(cfg, s, t, s');
    case ClientStep(c, pick, late) => ClientLeavesMonitor(cfg, s, c, pick, late, s');
    case _ =>
  }

  lemma ClientLeavesMonitor(cfg: Config, s: State, c: nat, pick: nat, late: bool, s': State)
    requires c < |s.clients| && ClientNext(cfg, s, c, pick, late) == Some(s')
    ensures s'.monitor == s.monitor
  {
    if InAddThread(s.clients[c]) {
      PoolClient.AddEffect(cfg, s, c, s');
    } else {
      PoolClient.CommitEffect(cfg, s, c, pick, late, s');
    }
  }

  /** The monitor has been woken at some point from `j` on, before `k`. */
  ghost predicate WokenBetween(states: seq<State>, j: nat, k: nat)
    requires j <= k <= |states|
  {
    exists i :: j <= i < k && (states[i].monitor == MonWoken || states[i].monitor == MonRecheck)
  }

  lemma {:induction false} ReturnedWasWoken(cfg: Config, states: seq<State>, actions: seq<Action>, j: nat, k: nat)
    requires IsPoolRun(cfg, states, actions) && j <= k < |states|
    requires states[j].monitor != MonExited && states[k].monitor == MonExited
    ensures WokenBetween(states, j, k)
    decreases k
  {
    if j == k {
      assert false;
    } else {
      var i := k - 1;
      if states[i].monitor == MonExited {
        ReturnedWasWoken(cfg, states, actions, j, i);
      } else {
        ReturnsFromRecheck(cfg, states[i], actions[i], states[i + 1]);
      }
    }
  }

  /**
   Over any run, take a state in which the pool has been shut down and a later one in which no thread can move.
   The monitor has returned by then if and only if it was woken in between, or had returned before.
   */
  lemma MonitorReturnsExactlyIfWoken(cfg: Config, states: seq<State>, actions: seq<Action>, j: nat, k: nat)
    requires cfg.Valid() && IsPoolRun(cfg, states, actions) && j <= k < |states|
    requires states[j].status != Running && !CanMove(cfg, states[k])
    ensures states[k].monitor == MonExited <==> states[j].monitor == MonExited || WokenBetween(states, j, k)
  {
    RunKeepsInv(cfg, states, actions, k);
    EveryoneRests(cfg, states[k]);
    RestingCalls(cfg, states[k]);
    if states[j].monitor == MonExited {
      StaysRoused(cfg, states, actions, j, k);
    } else if WokenBetween(states, j, k) {
      var i :| j <= i < k && (states[i].monitor == MonWoken || states[i].monitor == MonRecheck);
      ShutDownIsFinal(cfg, states, actions, j, i);
      StaysRoused(cfg, states, actions, i, k);
    } else if states[k].monitor == MonExited {
      ReturnedWasWoken(cfg, states, actions, j, k);
    }
  }

  // ---- The workers ----

  /** After ShutDown nobody falls asleep. */
  lemma StepLullsNobody(cfg: Config, s: State, a: Action, s': State, t: nat)
    requires Reaping(s) && s.status != Running && Step(cfg, s, a) == Some(s')
    requires t < |s.workers| && s.workers[t] != Asleep
    ensures t < |s'.workers| && s'.workers[t] != Asleep && s'.status != Running
  {
    match a
    case WorkerStep(u) => WorkerStaysAwake(cfg, s, u, s', t);
    case ClientStep(c, pick, late) => ClientLullsNobody(cfg, s, c, pick, late, s', t);
    case MonitorStep => PoolMonitor.MonitorEffect(s, s');
    case _ =>
  }

  lemma ClientLullsNobody(cfg: Config, s: State, c: nat, pick: nat, late: bool, s': State, t: nat)
    requires c < |s.clients| && ClientNext(cfg, s, c, pick, late) == Some(s')
    requires t < |s.workers| && s.workers[t] != Asleep
    ensures t < |s'.workers| && s'.workers[t] != Asleep && s'.status == s.status
  {
    if InAddThread(s.clients[c]) {
      PoolClient.AddEffect(cfg, s, c, s');
    } else {
      PoolClient.CommitEffect(cfg, s, c, pick, late, s');
    }
  }

  lemma WorkerStaysAwake(cfg: Config, s: State, u: nat, s': State, t: nat)
    requires s.status != Running && u < |s.workers| && WorkerNext(cfg, s, u) == Some(s')
    requires t < |s.workers| && s.workers[t] != Asleep
    ensures t < |s'.workers| && s'.workers[t] != Asleep && s'.status != Running
  {
    PoolWorker.WorkerEffect(cfg, s, u, s');
  }

  lemma StaysAwake(cfg: Config, states: seq<State>, actions: seq<Action>, i: nat, k: nat, t: nat)
    requires cfg.Valid() && IsPoolRun(cfg, states, actions) && i <= k < |states|
    requires states[i].status != Running && t < |states[i].workers| && states[i].workers[t] != Asleep
    ensures t < |states[k].workers| && states[k].workers[t] != Asleep
  {
    var awake := (s: State) => s.status != Running && t < |s.workers| && s.workers[t] != Asleep;
    forall l | i <= l < k && awake(states[l])
      ensures awake(states[l + 1])
    {
      RunKeepsInv(cfg, states, actions, l);
      StepLullsNobody(cfg, states[l], actions[l], states[l + 1], t);
    }
    RunStable(awake, states, i, k);
  }

  /**
   The same for the workers: when no thread can move, the function of a thread has returned if and only if the
   thread was awake at some point since the pool was shut down; it sleeps if it has been asleep all along.
   */
  lemma WorkersReturnExactlyIfAwake(cfg: Config, states: seq<State>, actions: seq<Action>, j: nat, k: nat, t: nat)
    requires cfg.Valid() && IsPoolRun(cfg, states, actions) && j <= k < |states|
    requires states[j].status != Running && !CanMove(cfg, states[k]) && t < |states[j].workers|
    ensures t < |states[k].workers|
    ensures forall i :: j <= i <= k ==> t < |states[i].workers|
    ensures var pc := states[k].workers[t];
      (pc == Left || pc == Reaped || pc == Stopped) <==> exists i :: j <= i <= k && states[i].workers[t] != Asleep
  {
    forall i | j <= i <= k
      ensures t < |states[i].workers|
    {
      ShutDownIsFinal(cfg, states, actions, j, i);
    }
    RunKeepsInv(cfg, states, actions, k);
    EveryoneRests(cfg, states[k]);
    RestingCalls(cfg, states[k]);
    if i :| j <= i <= k && states[i].workers[t] != Asleep {
      ShutDownIsFinal(cfg, states, actions, j, i);
      StaysAwake(cfg, states, actions, i, k, t);
    }
  }

  // ---- The status ----

  /** ShutDown has been called before step `k`. */
  ghost predicate WasShutDown(actions: seq<Action>, k: nat)
    requires k <= |actions|
  {
    exists i :: 0 <= i < k && actions[i] == CallShutDown
  }

  /** A worker sets the status on its way out. */
  predicate PassesLine60(s: State, a: Action) {
    a.WorkerStep? && a.t < |s.workers| && s.workers[a.t] == StopStatus
  }

  /** Since the last call of ShutDown, if any, a worker has gone through line 60. */
  ghost predicate WasTerminated(states: seq<State>, actions: seq<Action>, k: nat)
    requires |states| == |actions| + 1 && k <= |actions|
  {
    exists i :: 0 <= i < k && PassesLine60(states[i], actions[i])
                && forall j :: i < j < k ==> actions[j] != CallShutDown
  }

  lemma StepMovesStatus(cfg: Config, s: State, a: Action, s': State)
    requires Reaping(s) && Step(cfg, s, a) == Some(s')
    ensures s'.status == if a == CallShutDown then ShutDown else if PassesLine60(s, a) then Terminated else s.status
  {
    match a
    case WorkerStep(t) => WorkerMovesStatus(cfg, s, t, s');
    case ClientStep(c, pick, late) => ClientKeepsStatus(cfg, s, c, pick, late, s');
    case MonitorStep => PoolMonitor.MonitorEffect(s, s');
    case _ =>
  }

  lemma WorkerMovesStatus(cfg: Config, s: State, t: nat, s': State)
    requires t < |s.workers| && WorkerNext(cfg, s, t) == Some(s')
    ensures s'.status == if s.workers[t] == StopStatus then Terminated else s.status
  {
    PoolWorker.WorkerEffect(cfg, s, t, s');
  }

  lemma ClientKeepsStatus(cfg: Config, s: State, c: nat, pick: nat, late: bool, s': State)
    requires c < |s.clients| && ClientNext(cfg, s, c, pick, late) == Some(s')
    ensures s'.status == s.status
  {
    if InAddThread(s.clients[c]) {
      PoolClient.AddEffect(cfg, s, c, s');
    } else {
      PoolClient.CommitEffect(cfg, s, c, pick, late, s');
    }
  }

  /**
   What the status tells, over any run: the pool is running if and only if ShutDown has not been called, and it is
   terminated if and only if a worker has taken the shutdown exit since the last call.
   */
  lemma {:induction false} StatusTells(cfg: Config, states: seq<State>, actions: seq<Action>, k: nat)
    requires cfg.Valid() && IsPoolRun(cfg, states, actions) && k < |states|
    ensures states[k].status == Running <==> !WasShutDown(actions, k)
    ensures states[k].status == Terminated <==> WasTerminated(states, actions, k)
  {
    if k == 0 {
    } else {
      var i := k - 1;
      StatusTells(cfg, states, actions, i);
      RunKeepsInv(cfg, states, actions, i);
      StepMovesStatus(cfg, states[i], actions[i], states[i + 1]);
      if PassesLine60(states[i], actions[i]) {
        ExitOnlyShutDown(states[i], actions[i]);
      }
      LastMatters(states, actions, i);
    }
  }

  lemma ExitOnlyShutDown(s: State, a: Action)
    requires Drain(s) && PassesLine60(s, a)
    ensures s.status != Running
  {
  }

  lemma LastMatters(states: seq<State>, actions: seq<Action>, i: nat)
    requires |states| == |actions| + 1 && i < |actions|
    ensures WasShutDown(actions, i + 1) <==> WasShutDown(actions, i) || actions[i] == CallShutDown
    ensures WasTerminated(states, actions, i + 1) <==>
              PassesLine60(states[i], actions[i]) || (WasTerminated(states, actions, i) && actions[i] != CallShutDown)
  {
    if WasTerminated(states, actions, i + 1) {
      var j :| 0 <= j < i + 1 && PassesLine60(states[j], actions[j])
               && forall l :: j < l < i + 1 ==> actions[l] != CallShutDown;
      assert j < i ==> actions[i] != CallShutDown;
    }
  }
}
