/**
 Wake-ups. A waiter that is notified may report a timeout all the same, because the verdict is by the clock
 after it woke up; the machine lets every notify do that. Promptness is therefore a hypothesis of the
 results that need it, and this module says exactly what goes wrong without it.
 */
module PoolWakeUps {
  import opened Common
  import opened ThreadPool
  import opened PoolInvariant
  import opened PoolTheorems
  import PoolWorker
  import PoolClient
  import PoolMonitor

  /** A worker that may still look at the queue: for sure, or only if it finds no more than the core alive. */
  predicate Baton(pc: WorkerPc, late: bool) {
    Attentive(pc) || (late && (pc == Woken(true) || pc.TimedOut?))
  }

  ghost predicate SomeBaton(s: State, late: bool) {
    exists t :: 0 <= t < |s.workers| && Baton(s.workers[t], late)
  }

  /** A task is queued that nobody has to be notified of any more, and somebody sleeps. */
  ghost predicate Unattended(s: State) {
    s.tasks != [] && !NotifyPending(s) && SomeAsleep(s)
  }

  ghost predicate Covered(s: State, late: bool) {
    Unattended(s) ==> SomeBaton(s, late)
  }

  /** A step carries the cover along if it needs no new one and every baton stays one. */
  lemma CoverCarries(s: State, s': State, late: bool)
    requires Covered(s, late) && (Unattended(s') ==> Unattended(s)) && |s.workers| <= |s'.workers|
    requires forall t :: 0 <= t < |s.workers| && Baton(s.workers[t], late) ==> Baton(s'.workers[t], late)
    ensures Covered(s', late)
  {
    if Unattended(s') {
      var t :| 0 <= t < |s.workers| && Baton(s.workers[t], late);
      assert Baton(s'.workers[t], late);
    }
  }

  lemma SleepersWere(s: State, s': State, t: nat)
    requires |s.workers| == |s'.workers| && t < |s.workers| && s'.workers == s.workers[t := s'.workers[t]]
    requires s'.workers[t] != Asleep && SomeAsleep(s')
    ensures SomeAsleep(s)
  {
    var a :| 0 <= a < |s'.workers| && s'.workers[a] == Asleep;
    assert s.workers[a] == Asleep;
  }

  /** The only worker that may still look at the queue goes through line 49 with more than the core alive. */
  ghost predicate Deserts(cfg: Config, s: State, a: Action) {
    && a.WorkerStep? && a.t < |s.workers| && s.workers[a.t] == TimedOut && s.now > cfg.corePool
    && Unattended(s)
    && forall u :: 0 <= u < |s.workers| && u != a.t ==> !Baton(s.workers[u], true)
  }

  lemma WorkerUnattended(cfg: Config, s: State, t: nat, s': State)
    requires PoolWorker.Effect(cfg, s, t, s') && Unattended(s')
    ensures Unattended(s) && s.tasks != [] && s'.workers[t] != Asleep
  {
    SleepersWere(s, s', t);
  }

  /** A worker step keeps the cover, unless it goes through line 49 as described. */
  lemma WorkerKeepsCover(cfg: Config, s: State, t: nat, s': State, late: bool)
    requires PoolWorker.Effect(cfg, s, t, s') && Covered(s, late)
    requires late ==> !Deserts(cfg, s, WorkerStep(t))
    ensures Covered(s', late)
  {
    if Unattended(s') {
      WorkerUnattended(cfg, s, t, s');
      var u :| 0 <= u < |s.workers| && Baton(s.workers[u], late);
      if u != t {
        assert Baton(s'.workers[u], late);
      } else if s.workers[t].TimedOut? && s.now > cfg.corePool {
        var v :| 0 <= v < |s.workers| && v != t && Baton(s.workers[v], true);
        assert Baton(s'.workers[v], true);
      } else {
        assert Baton(s'.workers[t], late);
      }
    }
  }

  lemma DesertionLosesCover(cfg: Config, s: State, t: nat, s': State)
    requires PoolWorker.Effect(cfg, s, t, s') && Deserts(cfg, s, WorkerStep(t))
    ensures !Covered(s', true)
  {
    var a :| 0 <= a < |s.workers| && s.workers[a] == Asleep;
    assert s'.workers[a] == Asleep;
    forall u | 0 <= u < |s'.workers|
      ensures !Baton(s'.workers[u], true)
    {
      assert u != t ==> s'.workers[u] == s.workers[u];
    }
  }

  lemma AddKeepsCover(cfg: Config, s: State, c: nat, s': State, late: bool)
    requires Births(s) && PoolClient.Adds(cfg, s, c, s') && Covered(s, late)
    ensures Covered(s', late)
  {
    if Unattended(s') {
      forall d | 0 <= d < |s.clients|
        ensures !OwesNotify(s.clients[d])
      {
        assert d != c ==> s'.clients[d] == s.clients[d];
      }
      var a :| 0 <= a < |s'.workers| && s'.workers[a] == Asleep;
      assert s.workers[a] == Asleep;
    }
    CoverCarries(s, s', late);
  }

  lemma CommitKeepsCover(s: State, c: nat, s': State, late: bool)
    requires PoolClient.Commits(s, c, s') && Covered(s, late)
    ensures Covered(s', late)
  {
    if Unattended(s') {
      assert SomeAsleep(s);
      forall d | 0 <= d < |s.clients|
        ensures !OwesNotify(s.clients[d])
      {
        assert d != c ==> s'.clients[d] == s.clients[d];
      }
    }
    CoverCarries(s, s', late);
  }

  lemma MonitorKeepsCover(s: State, s': State, late: bool)
    requires Reaping(s) && MonitorNext(s) == Some(s') && Covered(s, late)
    ensures Covered(s', late)
  {
    PoolMonitor.MonitorEffect(s, s');
    if SomeAsleep(s') {
      var t :| 0 <= t < |s'.workers| && s'.workers[t] == Asleep;
      assert s.workers[t] == Asleep;
    }
    CoverCarries(s, s', late);
  }

  /** Calls that arrive, the shutdown and a spurious wake-up of the monitor do not touch the cover. */
  lemma OthersKeepCover(cfg: Config, s: State, a: Action, s': State, late: bool)
    requires Step(cfg, s, a) == Some(s') && Covered(s, late)
    requires a.NewCommit? || a.CallShutDown? || a.MonitorWake?
    ensures Covered(s', late)
  {
    if NotifyPending(s) {
      var c :| 0 <= c < |s.clients| && OwesNotify(s.clients[c]);
      assert OwesNotify(s'.clients[c]);
    }
    CoverCarries(s, s', late);
  }

  lemma WakeKeepsCover(s: State, t: nat, s': State, late: bool)
    requires t < |s.workers| && s.workers[t] == Asleep && Covered(s, late)
    requires s' == Move(s, t, Woken(true)) || s' == Move(s, t, Woken(false))
    ensures Covered(s', late)
  {
    if Unattended(s') {
      SleepersWere(s, s', t);
      assert Unattended(s);
    }
    CoverCarries(s, s', late);
  }

  /** Whether every notify in a step reaches its waiter before the deadline. */
  predicate Prompt(a: Action) {
    a.ClientStep? ==> !a.late
  }

  /** Every step keeps the strict cover if it is prompt, and the weak one unless it deserts. */
  lemma StepKeepsCover(cfg: Config, s: State, a: Action, s': State, late: bool)
    requires Inv(cfg, s) && Step(cfg, s, a) == Some(s') && Covered(s, late)
    requires if late then !Deserts(cfg, s, a) else Prompt(a)
    ensures Covered(s', late)
  {
    match a
    case WorkerStep(t) =>
      PoolWorker.WorkerEffect(cfg, s, t, s');
      WorkerKeepsCover(cfg, s, t, s', late);
    case WorkerWake(t, _) => WakeKeepsCover(s, t, s', late);
    case ClientStep(c, pick, reported) => ClientKeepsCover(cfg, s, c, pick, reported, s', late);
    case MonitorStep => MonitorKeepsCover(s, s', late);
    case _ => OthersKeepCover(cfg, s, a, s', late);
  }

  lemma ClientKeepsCover(cfg: Config, s: State, c: nat, pick: nat, reported: bool, s': State, late: bool)
    requires Births(s) && Covered(s, late) && c < |s.clients| && (reported ==> late)
    requires ClientNext(cfg, s, c, pick, reported) == Some(s')
    ensures Covered(s', late)
  {
    if InAddThread(s.clients[c]) {
      PoolClient.AddEffect(cfg, s, c, s');
      AddKeepsCover(cfg, s, c, s', late);
    } else {
      PoolClient.CommitEffect(cfg, s, c, pick, reported, s');
      if PoolClient.Commits(s, c, s') {
        CommitKeepsCover(s, c, s', late);
      } else {
        assert Baton(s'.workers[pick], late);
      }
    }
  }

  /**
   One step. While the queue is attended to, a step leaves it unattended exactly if it is the one in which
   the last worker that could have looked leaves at line 49.
   */
  lemma CoverLostExactlyByDesertion(cfg: Config, s: State, a: Action, s': State)
    requires Inv(cfg, s) && Step(cfg, s, a) == Some(s') && Covered(s, true)
    ensures Covered(s', true) <==> !Deserts(cfg, s, a)
  {
    if Deserts(cfg, s, a) {
      PoolWorker.WorkerEffect(cfg, s, a.t, s');
      DesertionLosesCover(cfg, s, a.t, s');
    } else {
      StepKeepsCover(cfg, s, a, s', true);
    }
  }

  // ---- Runs ----

  ghost predicate NoDesertion(cfg: Config, states: seq<State>, actions: seq<Action>, k: nat)
    requires k <= |actions| <= |states|
  {
    forall i :: 0 <= i < k ==> !Deserts(cfg, states[i], actions[i])
  }

  /**
   The exact condition, over whole runs with any mixture of prompt and late wake-ups: the queue is attended
   to all along if and only if no step is a desertion, which is a matter of `now_thread_num_` at line 49.
   */
  lemma {:induction false} AttendedExactlyWithoutDesertion(
      cfg: Config, states: seq<State>, actions: seq<Action>, k: nat)
    requires cfg.Valid() && IsPoolRun(cfg, states, actions) && k <= |actions|
    ensures (forall i :: 0 <= i <= k ==> Covered(states[i], true)) <==> NoDesertion(cfg, states, actions, k)
  {
    if k == 0 {
      assert Covered(Init(cfg), true);
    } else {
      AttendedExactlyWithoutDesertion(cfg, states, actions, k - 1);
      RunKeepsInv(cfg, states, actions, k - 1);
      if Covered(states[k - 1], true) {
        CoverLostExactlyByDesertion(cfg, states[k - 1], actions[k - 1], states[k - 1 + 1]);
      }
    }
  }

  lemma {:induction false} PromptRunIsCovered(cfg: Config, states: seq<State>, actions: seq<Action>, k: nat)
    requires cfg.Valid() && IsPoolRun(cfg, states, actions) && k <= |actions|
    requires forall i :: 0 <= i < k ==> Prompt(actions[i])
    ensures Covered(states[k], false)
  {
    if k == 0 {
      assert Covered(Init(cfg), false);
    } else {
      PromptRunIsCovered(cfg, states, actions, k - 1);
      RunKeepsInv(cfg, states, actions, k - 1);
      StepKeepsCover(cfg, states[k - 1], actions[k - 1], states[k - 1 + 1], false);
    }
  }

  /** With prompt wake-ups nobody deserts: there is always another worker that is sure to look. */
  lemma PromptRunHasNoDesertion(cfg: Config, states: seq<State>, actions: seq<Action>, k: nat)
    requires cfg.Valid() && IsPoolRun(cfg, states, actions) && k <= |actions|
    requires forall i :: 0 <= i < k ==> Prompt(actions[i])
    ensures NoDesertion(cfg, states, actions, k)
  {
    forall i | 0 <= i < k
      ensures !Deserts(cfg, states[i], actions[i])
    {
      PromptRunIsCovered(cfg, states, actions, i);
      if Unattended(states[i]) {
        var t :| 0 <= t < |states[i].workers| && Baton(states[i].workers[t], false);
        assert Baton(states[i].workers[t], true);
      }
    }
  }

  // ---- The main result ----

  /** A worker that is registered or timed out and has not yet decided to leave. */
  predicate Undecided(pc: WorkerPc) {
    pc.Counted? || pc == Woken(true) || pc.TimedOut?
  }

  predicate Deciding(pc: WorkerPc) {
    pc.LeaveIdle? || pc.LeaveNow?
  }

  lemma CountUndecided(cfg: Config, s: State)
    requires Inv(cfg, s) && Constructed(s) && s.tasks != [] && !SomeAttentive(s) && !SomeAsleep(s)
    ensures Count(s.workers, Undecided) >= cfg.corePool
  {
    forall t | 0 <= t < |s.workers| && InNow(s.workers[t])
      ensures Undecided(s.workers[t]) || Deciding(s.workers[t])
    {
      assert !Attentive(s.workers[t]) && s.workers[t] != Asleep;
    }
    CountSplit(s.workers, InNow, Undecided, Deciding);
    CountAtMostOne(s.workers, Deciding);
    if Count(s.workers, Deciding) > 0 {
      var t := CountWitness(s.workers, Deciding);
    }
  }

  /**
   No lost wake-up. Whenever a task is queued and no commit is between its push and its Notify,
   either a worker is awake and will look at the queue, or nobody is asleep and at least the core
   number of workers have not decided to leave. Each waiter so far was either notified or timed out.
   */
  lemma NoLostWakeUp(cfg: Config, states: seq<State>, actions: seq<Action>, k: nat)
    requires cfg.Valid() && IsPoolRun(cfg, states, actions) && k < |states|
    requires forall i :: 0 <= i < k ==> Prompt(actions[i])
    requires Constructed(states[k]) && states[k].tasks != [] && !NotifyPending(states[k])
    ensures SomeAttentive(states[k])
            || (!SomeAsleep(states[k]) && Count(states[k].workers, Undecided) >= cfg.corePool)
  {
    RunKeepsInv(cfg, states, actions, k);
    PromptRunIsCovered(cfg, states, actions, k);
    if SomeBaton(states[k], false) {
      var t :| 0 <= t < |states[k].workers| && Baton(states[k].workers[t], false);
    } else {
      CountUndecided(cfg, states[k]);
    }
  }
}
