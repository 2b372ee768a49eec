/**
 The queue limit. kMaxTaskSize_ is not a bound on the queue: the branch taken when the queue is full
 (src/base/thread_pool.h:105-111) queues the task all the same.
 */
module PoolQueue {
  import opened Common
  import opened ThreadPool
  import opened PoolInvariant
  import opened PoolTheorems
  import PoolWorker
  import PoolClient
  import PoolMonitor

  /** A commit that is between finding the queue full and pushing its task. */
  predicate FoundFull(c: nat, pc: ClientPc) {
    c != 0 && (InAddThread(pc) || pc.ComPush?)
  }

  /** The queue stays as full as such a commit found it: it holds the task mutex all along. */
  predicate StillFull(cfg: Config, s: State) {
    match s.tasksOwner
    case Some(Client(c)) => c < |s.clients| && FoundFull(c, s.clients[c]) ==> |s.tasks| >= cfg.maxTask
    case _ => true
  }

  lemma WorkerKeepsFull(cfg: Config, s: State, t: nat, s': State)
    requires TaskMutex(s) && StillFull(cfg, s) && PoolWorker.Effect(cfg, s, t, s')
    ensures StillFull(cfg, s') && |s'.tasks| <= |s.tasks|
  {
  }

  lemma AddKeepsFull(cfg: Config, s: State, c: nat, s': State)
    requires StillFull(cfg, s) && PoolClient.Adds(cfg, s, c, s')
    ensures StillFull(cfg, s')
  {
  }

  /** A commit queues its task at two lines, and only at one of them was the queue full. */
  lemma CommitKeepsFull(cfg: Config, s: State, c: nat, pick: nat, late: bool, s': State)
    requires TaskMutex(s) && Calls(s) && StillFull(cfg, s)
    requires c < |s.clients| && CommitNext(cfg, s, c, pick, late) == Some(s')
    ensures StillFull(cfg, s')
    ensures |s'.tasks| > |s.tasks| ==>
              |s'.tasks| == |s.tasks| + 1 && (|s'.tasks| > cfg.maxTask <==> s.clients[c] == ComPush)
  {
    assert s.clients[c] == ComPush ==> s.tasksOwner == Some(Client(c));
  }

  lemma StepKeepsFull(cfg: Config, s: State, a: Action, s': State)
    requires Inv(cfg, s) && StillFull(cfg, s) && Step(cfg, s, a) == Some(s')
    ensures StillFull(cfg, s')
    ensures |s'.tasks| > |s.tasks| ==>
              && |s'.tasks| == |s.tasks| + 1 && a.ClientStep? && a.c < |s.clients|
              && (|s'.tasks| > cfg.maxTask <==> s.clients[a.c] == ComPush)
  {
    match a
    case WorkerStep(t) =>
      PoolWorker.WorkerEffect(cfg, s, t, s');
      WorkerKeepsFull(cfg, s, t, s');
    case ClientStep(c, pick, late) =>
      if InAddThread(s.clients[c]) {
        PoolClient.AddEffect(cfg, s, c, s');
        AddKeepsFull(cfg, s, c, s');
      } else {
        CommitKeepsFull(cfg, s, c, pick, late, s');
      }
    case MonitorStep => PoolMonitor.MonitorEffect(s, s');
    case _ =>
  }

  lemma FullStaysFull(cfg: Config, states: seq<State>, actions: seq<Action>, k: nat)
    requires cfg.Valid() && IsPoolRun(cfg, states, actions) && k < |states|
    ensures Inv(cfg, states[k]) && StillFull(cfg, states[k])
  {
    InitInv(cfg);
    forall s, a | Inv(cfg, s) && StillFull(cfg, s) && Step(cfg, s, a).Some?
      ensures Inv(cfg, Step(cfg, s, a).value) && StillFull(cfg, Step(cfg, s, a).value)
    {
      StepKeepsInv(cfg, s, a, Step(cfg, s, a).value);
      StepKeepsFull(cfg, s, a, Step(cfg, s, a).value);
    }
    RunInvariant(Init(cfg), (s: State, a: Action) => Step(cfg, s, a), s => Inv(cfg, s) && StillFull(cfg, s),
                 states, actions, k);
  }

  // ---- From the push back to the test at line 100 ----

  /** Step `j` is the test of the queue length at line 100 by the commit of client `c`. */
  ghost predicate TestsAt(states: seq<State>, actions: seq<Action>, c: nat, j: nat)
    requires |states| == |actions| + 1
  {
    && j < |actions| && actions[j].ClientStep? && actions[j].c == c
    && c < |states[j].clients| && states[j].clients[c] == ComCheck
  }

  /** Step `k` is the one in which the commit of client `c` queues its task. */
  ghost predicate PushesAt(states: seq<State>, actions: seq<Action>, c: nat, k: nat)
    requires |states| == |actions| + 1
  {
    && k < |actions| && actions[k].ClientStep? && actions[k].c == c
    && |states[k + 1].tasks| > |states[k].tasks|
  }

  /** A commit whose task is queued. */
  predicate HasPushed(pc: ClientPc) {
    OwesNotify(pc) || pc == Done
  }

  /** What one step does to the program counter of client `c`. */
  ghost predicate ClientMoved(cfg: Config, s: State, a: Action, s': State, c: nat)
    requires c < |s.clients| <= |s'.clients|
  {
    var pc, pc' := s.clients[c], s'.clients[c];
    && (!(a.ClientStep? && a.c == c) ==> pc' == pc)
    && (HasPushed(pc) ==> HasPushed(pc'))
    && (FoundFull(c, pc) ==> FoundFull(c, pc') || HasPushed(pc'))
    && (FoundFull(c, pc') ==> FoundFull(c, pc) || (pc == ComCheck && |s.tasks| >= cfg.maxTask))
    && (c != 0 && pc == ComCheck && pc' != pc ==>
          if |s.tasks| >= cfg.maxTask then FoundFull(c, pc') else HasPushed(pc'))
  }

  lemma StepMovesClient(cfg: Config, s: State, a: Action, s': State, c: nat)
    requires Inv(cfg, s) && Step(cfg, s, a) == Some(s') && c < |s.clients|
    ensures |s.clients| <= |s'.clients| && ClientMoved(cfg, s, a, s', c)
  {
    match a
    case WorkerStep(t) => PoolWorker.WorkerEffect(cfg, s, t, s');
    case MonitorStep => PoolMonitor.MonitorEffect(s, s');
    case ClientStep(d, pick, late) => ClientStepMoves(cfg, s, d, pick, late, s', c);
    case _ =>
  }

  lemma ClientStepMoves(cfg: Config, s: State, d: nat, pick: nat, late: bool, s': State, c: nat)
    requires c < |s.clients| && d < |s.clients| && ClientNext(cfg, s, d, pick, late) == Some(s')
    ensures |s.clients| == |s'.clients| && ClientMoved(cfg, s, ClientStep(d, pick, late), s', c)
  {
    if InAddThread(s.clients[d]) {
      PoolClient.AddEffect(cfg, s, d, s');
    } else {
      CommitMoves(cfg, s, d, pick, late, s');
    }
  }

  /** Where a step of Commit outside AddThread leads. */
  lemma CommitMoves(cfg: Config, s: State, c: nat, pick: nat, late: bool, s': State)
    requires c < |s.clients| && !InAddThread(s.clients[c]) && CommitNext(cfg, s, c, pick, late) == Some(s')
    ensures |s.clients| == |s'.clients| && s'.clients == s.clients[c := s'.clients[c]]
    ensures match s.clients[c]
            case ComLock => s'.clients[c] == ComCheck
            case ComCheck => s'.clients[c] == if cfg.maxTask > |s.tasks| then ComUnlock else AddLock(1)
            case ComPush => s'.clients[c] == ComUnlock
            case ComUnlock => s'.clients[c] == ComNotify
            case _ => s'.clients[c] == Done
  {
  }

  /** A call of Commit starts at its first line. */
  lemma CallStartsAtLock(cfg: Config, s: State, a: Action, s': State, c: nat)
    requires Inv(cfg, s) && Step(cfg, s, a) == Some(s') && |s.clients| <= c < |s'.clients|
    ensures s'.clients[c] == ComLock
  {
    match a
    case WorkerStep(t) => PoolWorker.WorkerEffect(cfg, s, t, s');
    case MonitorStep => PoolMonitor.MonitorEffect(s, s');
    case ClientStep(d, pick, late) => ClientStepMoves(cfg, s, d, pick, late, s', d);
    case _ =>
  }

  /** A commit gets on the way to a late push by finding the queue full. */
  lemma FoundFullStep(cfg: Config, s: State, a: Action, s': State, c: nat)
    requires Inv(cfg, s) && Step(cfg, s, a) == Some(s') && c < |s'.clients| && FoundFull(c, s'.clients[c])
    ensures c < |s.clients|
    ensures !FoundFull(c, s.clients[c]) ==>
              a.ClientStep? && a.c == c && s.clients[c] == ComCheck && |s.tasks| >= cfg.maxTask
  {
    if c < |s.clients| {
      StepMovesClient(cfg, s, a, s', c);
    } else {
      CallStartsAtLock(cfg, s, a, s', c);
    }
  }

  /** A commit on the way to a late push has tested the queue before, and found it full. */
  lemma {:induction false} FoundFullBefore(cfg: Config, states: seq<State>, actions: seq<Action>, c: nat, k: nat)
      returns (j: nat)
    requires cfg.Valid() && IsPoolRun(cfg, states, actions) && k < |states|
    requires c < |states[k].clients| && FoundFull(c, states[k].clients[c])
    ensures j < k && TestsAt(states, actions, c, j) && |states[j].tasks| >= cfg.maxTask
  {
    j := k - 1;
    RunKeepsInv(cfg, states, actions, j);
    FoundFullStep(cfg, states[j], actions[j], states[j + 1], c);
    if FoundFull(c, states[j].clients[c]) {
      j := FoundFullBefore(cfg, states, actions, c, j);
    }
  }

  ghost predicate WentItsWay(cfg: Config, test: State, c: nat, s: State)
    requires c < |s.clients|
  {
    && (FoundFull(c, s.clients[c]) || HasPushed(s.clients[c]))
    && (|test.tasks| < cfg.maxTask ==> HasPushed(s.clients[c]))
  }

  lemma TestGoes(cfg: Config, s: State, c: nat, pick: nat, late: bool, s': State)
    requires c != 0 && c < |s.clients| && s.clients[c] == ComCheck && CommitNext(cfg, s, c, pick, late) == Some(s')
    ensures c < |s'.clients| && WentItsWay(cfg, s, c, s')
  {
    CommitMoves(cfg, s, c, pick, late, s');
  }

  lemma StaysOnItsWay(cfg: Config, test: State, s: State, a: Action, s': State, c: nat)
    requires Inv(cfg, s) && Step(cfg, s, a) == Some(s') && c < |s.clients| && WentItsWay(cfg, test, c, s)
    ensures c < |s'.clients| && WentItsWay(cfg, test, c, s')
  {
    StepMovesClient(cfg, s, a, s', c);
  }

  /** A commit that has tested the queue goes one way if it was full and the other if it was not. */
  lemma {:induction false} AfterTheTest(
      cfg: Config, states: seq<State>, actions: seq<Action>, c: nat, j: nat, k: nat)
    requires cfg.Valid() && IsPoolRun(cfg, states, actions) && j < k < |states|
    requires c != 0 && TestsAt(states, actions, c, j)
    ensures c < |states[k].clients| && WentItsWay(cfg, states[j], c, states[k])
  {
    var i := k - 1;
    if j < i {
      AfterTheTest(cfg, states, actions, c, j, i);
      RunKeepsInv(cfg, states, actions, i);
      StaysOnItsWay(cfg, states[j], states[i], actions[i], states[i + 1], c);
    } else {
      TestGoes(cfg, states[j], c, actions[j].pick, actions[j].late, states[j + 1]);
    }
  }

  // ---- Main results ----

  /** The step that queues a task is one of Commit itself, at one of two lines. */
  lemma PushStep(cfg: Config, s: State, c: nat, pick: nat, late: bool, s': State)
    requires TaskMutex(s) && Calls(s) && StillFull(cfg, s)
    requires c < |s.clients| && ClientNext(cfg, s, c, pick, late) == Some(s') && |s'.tasks| > |s.tasks|
    ensures c != 0 && |s'.tasks| == |s.tasks| + 1
    ensures s.clients[c] == ComCheck || s.clients[c] == ComPush
    ensures |s'.tasks| > cfg.maxTask <==> s.clients[c] == ComPush
  {
    AddPushesNothing(cfg, s, c, pick, late, s');
    CommitKeepsFull(cfg, s, c, pick, late, s');
  }

  lemma AddPushesNothing(cfg: Config, s: State, c: nat, pick: nat, late: bool, s': State)
    requires c < |s.clients| && ClientNext(cfg, s, c, pick, late) == Some(s') && |s'.tasks| > |s.tasks|
    ensures s.clients[c] == ComCheck || s.clients[c] == ComPush
  {
    if InAddThread(s.clients[c]) {
      PoolClient.AddEffect(cfg, s, c, s');
    }
  }

  lemma PushesWhere(cfg: Config, states: seq<State>, actions: seq<Action>, c: nat, k: nat)
    requires cfg.Valid() && IsPoolRun(cfg, states, actions) && PushesAt(states, actions, c, k)
    ensures c != 0 && c < |states[k].clients|
    ensures |states[k + 1].tasks| == |states[k].tasks| + 1
    ensures states[k].clients[c] == ComCheck || states[k].clients[c] == ComPush
    ensures |states[k + 1].tasks| > cfg.maxTask <==> states[k].clients[c] == ComPush
  {
    FullStaysFull(cfg, states, actions, k);
    PushStep(cfg, states[k], c, actions[k].pick, actions[k].late, states[k + 1]);
  }

  /**
   The guard decides. Take any commit, the step `j` in which it compares the queue with kMaxTaskSize_ at line
   100 and the later, or same, step `k` in which it queues its task: the queue is over the limit afterwards if
   and only if it was full at the comparison, whatever the workers took out in between.
   */
  lemma OverLimitExactlyWhenFull(cfg: Config, states: seq<State>, actions: seq<Action>, c: nat, j: nat, k: nat)
    requires cfg.Valid() && IsPoolRun(cfg, states, actions)
    requires j <= k && TestsAt(states, actions, c, j) && PushesAt(states, actions, c, k)
    ensures |states[k + 1].tasks| > cfg.maxTask <==> |states[j].tasks| >= cfg.maxTask
  {
    PushesWhere(cfg, states, actions, c, k);
    if j < k {
      AfterTheTest(cfg, states, actions, c, j, k);
    }
  }

  /** Every push belongs to a commit that has tested the queue, in the same step or an earlier one. */
  lemma PushWasTested(cfg: Config, states: seq<State>, actions: seq<Action>, c: nat, k: nat) returns (j: nat)
    requires cfg.Valid() && IsPoolRun(cfg, states, actions) && PushesAt(states, actions, c, k)
    ensures j <= k && TestsAt(states, actions, c, j)
  {
    PushesWhere(cfg, states, actions, c, k);
    if states[k].clients[c] == ComPush {
      j := FoundFullBefore(cfg, states, actions, c, k);
    } else {
      j := k;
    }
  }

  /** No commit that has queued its task before step `k` had found the queue full. */
  ghost predicate NoneFoundFull(cfg: Config, states: seq<State>, actions: seq<Action>, k: nat)
    requires |states| == |actions| + 1
  {
    forall c: nat, i: nat, j: nat :: j <= i < k && TestsAt(states, actions, c, j) && PushesAt(states, actions, c, i)
      ==> |states[j].tasks| < cfg.maxTask
  }

  /** The queue grows only by pushes of commits. */
  lemma GrowthIsPush(cfg: Config, states: seq<State>, actions: seq<Action>, k: nat)
    requires cfg.Valid() && IsPoolRun(cfg, states, actions) && k < |actions|
    requires |states[k + 1].tasks| > |states[k].tasks|
    ensures actions[k].ClientStep? && PushesAt(states, actions, actions[k].c, k)
  {
    FullStaysFull(cfg, states, actions, k);
    StepKeepsFull(cfg, states[k], actions[k], states[k + 1]);
  }

  /** Over whole runs: the queue never exceeds its limit if and only if no commit finds it full. */
  lemma {:induction false} LimitHoldsExactlyWhenNeverFull(
      cfg: Config, states: seq<State>, actions: seq<Action>, k: nat)
    requires cfg.Valid() && IsPoolRun(cfg, states, actions) && k <= |actions|
    ensures (forall i :: 0 <= i <= k ==> |states[i].tasks| <= cfg.maxTask) <==> NoneFoundFull(cfg, states, actions, k)
  {
    if k == 0 {
      assert states[0] == Init(cfg);
    } else {
      LimitHoldsExactlyWhenNeverFull(cfg, states, actions, k - 1);
      if |states[k - 1].tasks| <= cfg.maxTask {
        LastStepDecides(cfg, states, actions, k - 1);
      }
    }
  }

  lemma LastStepDecides(cfg: Config, states: seq<State>, actions: seq<Action>, k: nat)
    requires cfg.Valid() && IsPoolRun(cfg, states, actions) && k < |actions| && |states[k].tasks| <= cfg.maxTask
    ensures |states[k + 1].tasks| <= cfg.maxTask <==>
              forall c: nat, j: nat :: j <= k && TestsAt(states, actions, c, j) && PushesAt(states, actions, c, k)
                ==> |states[j].tasks| < cfg.maxTask
  {
    forall c: nat, j: nat | j <= k && TestsAt(states, actions, c, j) && PushesAt(states, actions, c, k)
      ensures |states[k + 1].tasks| > cfg.maxTask <==> |states[j].tasks| >= cfg.maxTask
    {
      OverLimitExactlyWhenFull(cfg, states, actions, c, j, k);
    }
    if |states[k + 1].tasks| > cfg.maxTask {
      GrowthIsPush(cfg, states, actions, k);
      var j := PushWasTested(cfg, states, actions, actions[k].c, k);
    }
  }
}
