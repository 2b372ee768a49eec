/**
 Progress of the thread pool. Every step that a thread takes in its own program uses up some of a finite
 amount of work; only what comes from outside - a new commit, a timeout, a spurious wake-up - adds to it.
 So without such events every schedule comes to rest, and at rest every task has finished.
 */
module PoolProgress {
  import opened Common
  import opened ThreadPool
  import opened PoolInvariant
  import opened PoolTheorems
  import opened PoolWakeUps
  import PoolDeadlock

  // ---- Work that is left ----

  /** The steps that a worker can still take before it sleeps or is gone, with what they cause elsewhere. */
  function WorkerWork(pc: WorkerPc): nat {
    match pc
    case Asleep | Left | Reaped | Stopped => 0
    case StopUnlock => 1
    case StopNow => 2
    case StopIdle => 3
    case StopStatus => 4
    case Test => 5
    case LockTasks => 6
    case Announce => 7
    case Emplaced | IdleCounted | Counted | Boot => 8
    case Finished => 7
    case Busy(_) => 8
    case Picked(_) => 9
    case Popped(_) => 10
    case UnlockTasks => 1
    case UnlockMon => 2
    case NotifyMon => 15
    case PushFree => 24
    case LockMon => 25
    case LeaveNow => 26
    case LeaveIdle => 27
    case TimedOut => 28
    case Woken(_) => 29
  }

  function ClientWork(pc: ClientPc): nat {
    match pc
    case Done => 0
    case ComNotify => 30
    case ComUnlock => 31
    case ComPush => 38
    case AddUnlock => 39
    case AddTest(size) => 40 + 20 * size
    case AddWait(size, _) => 21 + 20 * size
    case AddStart(size, _) => 22 + 20 * size
    case AddNow(size, _) => 23 + 20 * size
    case AddIdle(size, _) => 24 + 20 * size
    case AddLock(size) => 41 + 20 * size
    case ComCheck => 62
    case ComLock => 63
  }

  function MonitorWork(pc: MonitorPc, idle: bool): nat {
    match pc
    case MonAsleep | MonExited => 0
    case MonErase => 5
    case MonUnlockPool => 6
    case MonFind => 7
    case MonLockPool => 8
    case MonScan => if idle then 12 else 9
    case MonTest => 10
    case MonLock => 11
    case MonRecheck => 11
    case MonWoken => 12
  }

  function Sum<T>(s: seq<T>, f: T -> nat): nat {
    if s == [] then 0 else Sum(s[..|s| - 1], f) + f(s[|s| - 1])
  }

  /** A queued task is good for 6 steps, and a thread on the monitor's list for 8. */
  function ListWork(s: State): nat {
    MonitorWork(s.monitor, s.free == []) + 6 * |s.tasks| + 8 * |s.free|
  }

  function Work(s: State): nat {
    Sum(s.workers, WorkerWork) + Sum(s.clients, ClientWork) + ListWork(s)
  }

  lemma SumSnoc<T>(s: seq<T>, x: T, f: T -> nat)
    ensures Sum(s + [x], f) == Sum(s, f) + f(x)
  {
    assert (s + [x])[..|s|] == s;
  }

  lemma {:induction false} SumUpdate<T>(s: seq<T>, i: nat, x: T, f: T -> nat)
    requires i < |s|
    ensures Sum(s[i := x], f) == Sum(s, f) - f(s[i]) + f(x)
  {
    var n := |s| - 1;
    if i == n {
      assert s[i := x][..n] == s[..n];
    } else {
      assert s[i := x][..n] == s[..n][i := x];
      SumUpdate(s[..n], i, x, f);
    }
  }

  lemma WorkerMoves(s: State, t: nat, s': State)
    requires t < |s.workers| == |s'.workers| && s'.workers == s.workers[t := s'.workers[t]]
    requires s'.clients == s.clients
    ensures Work(s') == Work(s) - WorkerWork(s.workers[t]) + WorkerWork(s'.workers[t]) - ListWork(s) + ListWork(s')
  {
    SumUpdate(s.workers, t, s'.workers[t], WorkerWork);
  }

  lemma ClientMoves(s: State, c: nat, s': State)
    requires c < |s.clients| == |s'.clients| && s'.clients == s.clients[c := s'.clients[c]]
    ensures Work(s') == Sum(s'.workers, WorkerWork)
                        + Sum(s.clients, ClientWork) - ClientWork(s.clients[c]) + ClientWork(s'.clients[c])
                        + ListWork(s')
  {
    SumUpdate(s.clients, c, s'.clients[c], ClientWork);
  }

  // ---- Every step of a program uses up work ----

  /** A step of a thread in its own program, as opposed to an event from outside. */
  predicate Internal(a: Action) {
    a.WorkerStep? || a.ClientStep? || a.MonitorStep?
  }

  /** Coming to the queue costs nobody else anything. */
  lemma ComeWorks(cfg: Config, s: State, t: nat, s': State)
    requires t < |s.workers| && !s.workers[t].Test? && LookNext(cfg, s, t) == Some(s')
    ensures Work(s') < Work(s)
  {
    WorkerMoves(s, t, s');
  }

  lemma LookWorks(cfg: Config, s: State, t: nat, s': State)
    requires t < |s.workers| && LookNext(cfg, s, t) == Some(s')
    ensures Work(s') < Work(s)
  {
    if s.workers[t].Test? {
      WorkerMoves(s, t, s');
    } else {
      ComeWorks(cfg, s, t, s');
    }
  }

  lemma LeaveWorks(s: State, t: nat, s': State)
    requires t < |s.workers| && LeaveNext(s, t) == Some(s')
    ensures Work(s') < Work(s)
  {
    WorkerMoves(s, t, s');
  }

  lemma StopWorks(s: State, t: nat, s': State)
    requires t < |s.workers| && StopNext(s, t) == Some(s')
    ensures Work(s') < Work(s)
  {
    WorkerMoves(s, t, s');
  }

  lemma ServeWorks(s: State, t: nat, s': State)
    requires t < |s.workers| && ServeNext(s, t) == Some(s')
    ensures Work(s') < Work(s)
  {
    WorkerMoves(s, t, s');
  }

  /** Registering a thread is paid for by the 20 steps that each thread still to be added is good for. */
  lemma RegisterWorks(cfg: Config, s: State, c: nat, s': State)
    requires c < |s.clients| && s.clients[c].AddTest? && AddNext(cfg, s, c) == Some(s')
    ensures Work(s') < Work(s)
  {
    ClientMoves(s, c, s');
    SumSnoc(s.workers, Emplaced, WorkerWork);
  }

  /** Counting and starting a thread that is registered. */
  lemma SpawnWorks(cfg: Config, s: State, c: nat, s': State)
    requires c < |s.clients| && Spawning(s, s.clients[c]) && AddNext(cfg, s, c) == Some(s')
    requires s.clients[c].AddIdle? || s.clients[c].AddNow? || s.clients[c].AddStart?
    ensures Work(s') < Work(s)
  {
    ClientMoves(s, c, s');
    var t := s.clients[c].t;
    SumUpdate(s.workers, t, s'.workers[t], WorkerWork);
  }

  lemma AddWorks(cfg: Config, s: State, c: nat, s': State)
    requires Births(s) && c < |s.clients| && AddNext(cfg, s, c) == Some(s')
    ensures Work(s') < Work(s)
  {
    match s.clients[c]
    case AddTest(_) => RegisterWorks(cfg, s, c, s');
    case AddLock(_) | AddWait(_, _) | AddUnlock => ClientMoves(s, c, s');
    case _ => SpawnWorks(cfg, s, c, s');
  }

  lemma CommitWorks(cfg: Config, s: State, c: nat, pick: nat, late: bool, s': State)
    requires c < |s.clients| && CommitNext(cfg, s, c, pick, late) == Some(s')
    ensures Work(s') < Work(s)
  {
    if s.clients[c] == ComNotify && pick < |s.workers| && s.workers[pick] == Asleep {
      NotifyWorks(cfg, s, c, pick, late, s');
    } else {
      ClientMoves(s, c, s');
      assert s'.workers == s.workers;
    }
  }

  /** What a notify uses up is more than what the woken worker then has to do. */
  lemma NotifyWorks(cfg: Config, s: State, c: nat, pick: nat, late: bool, s': State)
    requires c < |s.clients| && s.clients[c] == ComNotify && CommitNext(cfg, s, c, pick, late) == Some(s')
    requires pick < |s.workers| && s.workers[pick] == Asleep
    ensures Work(s') < Work(s)
  {
    ClientMoves(s, c, s');
    SumUpdate(s.workers, pick, Woken(late), WorkerWork);
  }

  lemma MonitorWorks(s: State, s': State)
    requires MonitorNext(s) == Some(s')
    ensures Work(s') < Work(s)
  {
    if s.monitor == MonFind && s'.workers != s.workers {
      SumUpdate(s.workers, s.free[0], Reaped, WorkerWork);
    }
  }

  /** No thread can go on for ever on its own: each of its steps leaves strictly less work. */
  lemma StepWorks(cfg: Config, s: State, a: Action, s': State)
    requires Inv(cfg, s) && Internal(a) && Step(cfg, s, a) == Some(s')
    ensures Work(s') < Work(s)
  {
    match a
    case WorkerStep(t) =>
      var pc := s.workers[t];
      if Serving(pc) {
        ServeWorks(s, t, s');
      } else if Leaving(pc) {
        LeaveWorks(s, t, s');
      } else if Stopping(pc) {
        StopWorks(s, t, s');
      } else {
        LookWorks(cfg, s, t, s');
      }
    case ClientStep(c, pick, late) =>
      if InAddThread(s.clients[c]) {
        AddWorks(cfg, s, c, s');
      } else {
        CommitWorks(cfg, s, c, pick, late, s');
      }
    case MonitorStep => MonitorWorks(s, s');
    case _ =>
  }

  /** What an event from outside adds at most: a new commit, all told, is 63 steps. */
  const EVENT: nat := 63

  lemma EventWorks(cfg: Config, s: State, a: Action, s': State)
    requires !Internal(a) && Step(cfg, s, a) == Some(s')
    ensures Work(s') <= Work(s) + EVENT
  {
    match a
    case WorkerWake(t, late) => SumUpdate(s.workers, t, Woken(late), WorkerWork);
    case NewCommit => SumSnoc(s.clients, ComLock, ClientWork);
    case _ =>
  }

  // ---- Main results ----

  /** The steps of programs among the actions from `j` up to `k`. */
  function Steps(actions: seq<Action>, j: nat, k: nat): nat
    requires j <= k <= |actions|
    decreases k
  {
    if j == k then 0 else Steps(actions, j, k - 1) + (if Internal(actions[k - 1]) then 1 else 0)
  }

  /** What the events among the actions from `j` up to `k` may add: 63 steps each. */
  function Allowance(actions: seq<Action>, j: nat, k: nat): nat
    requires j <= k <= |actions|
    decreases k
  {
    if j == k then 0 else Allowance(actions, j, k - 1) + (if Internal(actions[k - 1]) then 0 else EVENT)
  }

  lemma LastAction(cfg: Config, states: seq<State>, actions: seq<Action>, i: nat)
    requires cfg.Valid() && IsPoolRun(cfg, states, actions) && i < |actions|
    ensures if Internal(actions[i]) then Work(states[i + 1]) + 1 <= Work(states[i])
            else Work(states[i + 1]) <= Work(states[i]) + EVENT
  {
    RunKeepsInv(cfg, states, actions, i);
    if Internal(actions[i]) {
      StepWorks(cfg, states[i], actions[i], states[i + 1]);
    } else {
      EventWorks(cfg, states[i], actions[i], states[i + 1]);
    }
  }

  /** A number that every step lowers and that every event raises by no more than its allowance. */
  lemma {:induction false} Telescope(actions: seq<Action>, work: seq<nat>, j: nat, k: nat)
    requires j <= k <= |actions| && |work| == |actions| + 1
    requires forall i :: 0 <= i < |actions| ==>
               if Internal(actions[i]) then work[i + 1] + 1 <= work[i] else work[i + 1] <= work[i] + EVENT
    ensures Steps(actions, j, k) + work[k] <= work[j] + Allowance(actions, j, k)
    decreases k
  {
    if j == k {
    } else {
      Telescope(actions, work, j, k - 1);
      var last := actions[k - 1];
      assert if Internal(last) then work[k - 1 + 1] + 1 <= work[k - 1] else work[k - 1 + 1] <= work[k - 1] + EVENT;
    }
  }

  /**
   Bounded work, over every run: between any two states, the threads take at most as many steps as the first
   state had work left, and 63 more for each event in between.
   */
  lemma WorkIsBounded(cfg: Config, states: seq<State>, actions: seq<Action>, j: nat, k: nat)
    requires cfg.Valid() && IsPoolRun(cfg, states, actions) && j <= k < |states|
    ensures Steps(actions, j, k) + Work(states[k]) <= Work(states[j]) + Allowance(actions, j, k)
  {
    var work := seq(|states|, i requires 0 <= i < |states| => Work(states[i]));
    forall i | 0 <= i < |actions|
      ensures if Internal(actions[i]) then work[i + 1] + 1 <= work[i] else work[i + 1] <= work[i] + EVENT
    {
      LastAction(cfg, states, actions, i);
    }
    Telescope(actions, work, j, k);
  }

  /** From state `j` on, nothing comes from outside. */
  predicate Undisturbed(actions: seq<Action>, j: nat) {
    forall i :: j <= i < |actions| ==> Internal(actions[i])
  }

  lemma {:induction false} AllSteps(actions: seq<Action>, j: nat, k: nat)
    requires j <= k <= |actions| && Undisturbed(actions, j)
    ensures Steps(actions, j, k) == k - j && Allowance(actions, j, k) == 0
    decreases k
  {
    if j == k {
    } else {
      AllSteps(actions, j, k - 1);
    }
  }

  /**
   Every schedule ends, and ends well. Left to itself from any reachable state on, whatever went before, the
   pool takes at most as many steps as there was work left; and when it cannot take another, every call has
   returned, and with a non-empty core and no desertion every task ever committed has finished.
   */
  lemma EveryScheduleFinishes(cfg: Config, states: seq<State>, actions: seq<Action>, j: nat)
    requires cfg.Valid() && IsPoolRun(cfg, states, actions) && j <= |actions| && Undisturbed(actions, j)
    ensures |actions| - j <= Work(states[j])
    ensures var s := states[|actions|];
      PoolDeadlock.CanMove(cfg, s) ||
      ((forall c :: 0 <= c < |s.clients| ==> s.clients[c] == Done)
       && (cfg.corePool >= 1 && NoDesertion(cfg, states, actions, |actions|) ==>
             s.tasks == [] && |s.finished| == s.committed))
  {
    var n := |actions|;
    WorkIsBounded(cfg, states, actions, j, n);
    AllSteps(actions, j, n);
    if !PoolDeadlock.CanMove(cfg, states[n]) {
      PoolDeadlock.QuiescentMeansDone(cfg, states, actions, n);
    }
  }

  /** There is such a schedule from every reachable state: taking any step that can be taken, until none can. */
  lemma {:induction false} CanBeFinished(cfg: Config, states: seq<State>, actions: seq<Action>)
      returns (longer: seq<State>, more: seq<Action>)
    requires cfg.Valid() && IsPoolRun(cfg, states, actions)
    ensures IsPoolRun(cfg, longer, more) && states <= longer && actions <= more && Undisturbed(more, |actions|)
    ensures forall i :: |actions| <= i < |more| ==> Prompt(more[i])
    ensures !PoolDeadlock.CanMove(cfg, longer[|more|])
    decreases Work(states[|actions|])
  {
    var s := states[|actions|];
    if PoolDeadlock.CanMove(cfg, s) {
      var a := SomeStep(cfg, s);
      var s' := Step(cfg, s, a).value;
      RunKeepsInv(cfg, states, actions, |actions|);
      StepWorks(cfg, s, a, s');
      longer, more := CanBeFinished(cfg, states + [s'], actions + [a]);
      assert more[|actions|] == a;
    } else {
      longer, more := states, actions;
    }
  }

  lemma SomeStep(cfg: Config, s: State) returns (a: Action)
    requires PoolDeadlock.CanMove(cfg, s)
    ensures Internal(a) && Prompt(a) && Step(cfg, s, a).Some?
  {
    if t: nat :| t < |s.workers| && WorkerNext(cfg, s, t).Some? {
      a := WorkerStep(t);
    } else if c: nat, pick: nat, late: bool :| c < |s.clients| && ClientNext(cfg, s, c, pick, late).Some? {
      a := ClientStep(c, pick, false);
    } else {
      a := MonitorStep;
    }
  }
}
