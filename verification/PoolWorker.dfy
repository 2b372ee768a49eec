/** Steps of worker threads keep the invariant of the pool. */
module PoolWorker {
  import opened Common
  import opened ThreadPool
  import opened PoolInvariant

  // ---- What one step of worker `t` does, topic by topic ----

  ghost predicate MovesLocks(s: State, t: nat, s': State) {
    && t < |s.workers| == |s'.workers|
    && var pc, pc' := s.workers[t], s'.workers[t];
    && s'.workers == s.workers[t := pc']
    && s'.clients == s.clients && s'.poolOwner == s.poolOwner
    && LockMoves(WorkerHoldsTasks(pc), WorkerHoldsTasks(pc'), Worker(t), s.tasksOwner, s'.tasksOwner)
    && LockMoves(WorkerHoldsMon(pc), WorkerHoldsMon(pc'), Worker(t), s.monOwner, s'.monOwner)
    && (if pc.NotifyMon? && s.monitor.MonAsleep? then s'.monitor == MonWoken else s'.monitor == s.monitor)
    && !Unborn(pc) && !Unborn(pc') && !pc'.Boot? && (pc'.Announce? <==> pc.Boot?)
    && s'.tids == (if pc.Boot? then s.tids + {t} else s.tids)
    && s'.latched == (if pc.Announce? then s.latched + {t} else s.latched)
  }

  ghost predicate MovesCounters(cfg: Config, s: State, t: nat, s': State)
    requires MovesLocks(s, t, s')
  {
    var pc, pc' := s.workers[t], s'.workers[t];
    && (InNow(pc') ==> InNow(pc))
    && s'.now == (if InNow(pc) && !InNow(pc') then Dec32(s.now) else s.now)
    && s'.idle == (if InIdle(pc) && !InIdle(pc') then Dec32(s.idle)
                   else if InIdle(pc') && !InIdle(pc) then Inc32(s.idle) else s.idle)
    && (InIdle(pc') && !InIdle(pc) ==> pc.Finished?)
    && (s'.now != s.now ==> pc.LeaveNow? || pc.StopNow?)
    && (pc'.LeaveIdle? ==> s.now > cfg.corePool)
    && (pc'.LeaveNow? ==> pc.LeaveIdle?)
    && (pc == Woken(true) ==> pc'.TimedOut?)
    && (pc.TimedOut? ==> if s.now > cfg.corePool then pc'.LeaveIdle? else pc'.Test?)
  }

  ghost predicate MovesTasks(s: State, t: nat, s': State)
    requires MovesLocks(s, t, s')
  {
    var pc, pc' := s.workers[t], s'.workers[t];
    && s'.committed == s.committed
    && (s'.status != s.status ==> pc.StopStatus? && s'.status != Running)
    && (if pc.Test? && s.tasks != [] then
          s'.tasks == s.tasks[1..] && Held(pc') == Some(s.tasks[0]) && s'.finished == s.finished
        else
          && s'.tasks == s.tasks
          && (if pc.Busy? then Held(pc') == None && s'.finished == s.finished + [pc.task]
              else Held(pc') == Held(pc) && s'.finished == s.finished))
    && (Stopping(pc') ==> Stopping(pc) || (s.status != Running && s.tasks == []))
    && (pc'.Asleep? ==> s.tasks == [])
    && (Attentive(pc) ==> Attentive(pc') || s.tasks == [])
  }

  ghost predicate MovesReports(s: State, t: nat, s': State)
    requires MovesLocks(s, t, s')
  {
    var pc, pc' := s.workers[t], s'.workers[t];
    && s'.list == s.list
    && s'.free == (if pc.PushFree? then s.free + [t] else s.free)
    && (Reported(pc') <==> Reported(pc) || pc.PushFree?)
    && (pc.PushFree? ==> pc'.NotifyMon?)
    && pc != Reaped && pc' != Reaped
  }

  ghost predicate Effect(cfg: Config, s: State, t: nat, s': State) {
    MovesLocks(s, t, s') && MovesCounters(cfg, s, t, s') && MovesTasks(s, t, s') && MovesReports(s, t, s')
  }

  lemma LookEffect(cfg: Config, s: State, t: nat, s': State)
    requires t < |s.workers| && LookNext(cfg, s, t) == Some(s')
    ensures Effect(cfg, s, t, s')
  {
  }

  lemma LeaveEffect(cfg: Config, s: State, t: nat, s': State)
    requires t < |s.workers| && LeaveNext(s, t) == Some(s')
    ensures Effect(cfg, s, t, s')
  {
  }

  lemma StopEffect(cfg: Config, s: State, t: nat, s': State)
    requires t < |s.workers| && StopNext(s, t) == Some(s')
    ensures Effect(cfg, s, t, s')
  {
  }

  lemma ServeEffect(cfg: Config, s: State, t: nat, s': State)
    requires t < |s.workers| && ServeNext(s, t) == Some(s')
    ensures Effect(cfg, s, t, s')
  {
  }

  lemma WorkerEffect(cfg: Config, s: State, t: nat, s': State)
    requires t < |s.workers| && WorkerNext(cfg, s, t) == Some(s')
    ensures Effect(cfg, s, t, s')
  {
    var pc := s.workers[t];
    if Serving(pc) {
      ServeEffect(cfg, s, t, s');
    } else if Leaving(pc) {
      LeaveEffect(cfg, s, t, s');
    } else if Stopping(pc) {
      StopEffect(cfg, s, t, s');
    } else {
      LookEffect(cfg, s, t, s');
    }
  }

  // ---- Each part of the invariant is kept ----

  lemma KeepsLocks(s: State, t: nat, s': State)
    requires Ownership(s) && Births(s) && MovesLocks(s, t, s')
    ensures Ownership(s') && Births(s')
  {
  }

  lemma KeepsCounters(cfg: Config, s: State, t: nat, s': State)
    requires cfg.Valid() && Ownership(s) && Births(s) && Counters(s) && Bounds(cfg, s)
    requires MovesLocks(s, t, s') && MovesCounters(cfg, s, t, s')
    ensures Counters(s')
  {
    var pc' := s'.workers[t];
    CountUpdate(s.workers, t, pc', InNow);
    CountUpdate(s.workers, t, pc', InIdle);
    if InNow(s.workers[t]) {
      CountPositive(s.workers, t, InNow);
    }
    if InIdle(s.workers[t]) {
      CountPositive(s.workers, t, InIdle);
    }
    if InIdle(pc') && !InIdle(s.workers[t]) {
      IdleBelowRange(cfg, s, t);
    }
  }

  /** idle_thread_num_ does not wrap when a worker comes back from a task. */
  lemma IdleBelowRange(cfg: Config, s: State, t: nat)
    requires cfg.Valid() && Ownership(s) && Births(s) && Counters(s) && Bounds(cfg, s)
    requires t < |s.workers| && s.workers[t].Finished?
    ensures s.idle + 1 < UINT_RANGE
  {
    // Leave worker t out: it is counted in now_thread_num_ but not as idle.
    var others := s.workers[t := Left];
    CountUpdate(s.workers, t, Left, InNow);
    CountUpdate(s.workers, t, Left, InIdle);
    CountSplit(others, InIdle, InNow, (pc: WorkerPc) => pc.IdleCounted?);
    CountAtMostOne(others, (pc: WorkerPc) => pc.IdleCounted?);
    if Count(others, (pc: WorkerPc) => pc.IdleCounted?) > 0 {
      var u := CountWitness(others, (pc: WorkerPc) => pc.IdleCounted?);
      assert Unborn(s.workers[u]);
    }
  }

  lemma KeepsBounds(cfg: Config, s: State, t: nat, s': State)
    requires Ownership(s) && Counters(s) && Bounds(cfg, s) && Drain(s)
    requires Effect(cfg, s, t, s')
    ensures Bounds(cfg, s')
  {
    if InNow(s.workers[t]) {
      CountPositive(s.workers, t, InNow);
    }
  }

  lemma KeepsDrain(cfg: Config, s: State, t: nat, s': State)
    requires Calls(s) && Drain(s) && Effect(cfg, s, t, s')
    ensures Drain(s') && Calls(s')
  {
  }

  lemma KeepsTasks(s: State, t: nat, s': State)
    requires Tasks(s) && MovesLocks(s, t, s') && MovesTasks(s, t, s')
    ensures Tasks(s')
  {
    forall k: nat | k < Taken(s')
      ensures k in s'.finished || SomeoneHolds(s', k)
    {
      if k == Taken(s) {
        assert Held(s'.workers[t]) == Some(k);
      } else if k !in s.finished {
        var u :| 0 <= u < |s.workers| && Held(s.workers[u]) == Some(k);
        if u != t {
          assert Held(s'.workers[u]) == Some(k);
        } else if s.workers[t].Busy? {
          assert s'.finished[|s.finished|] == k;
        } else {
          assert Held(s'.workers[t]) == Some(k);
        }
      }
    }
  }

  lemma KeepsReaping(s: State, t: nat, s': State)
    requires Ownership(s) && Reaping(s) && MovesLocks(s, t, s') && MovesReports(s, t, s')
    ensures Reaping(s')
  {
    if s.workers[t].PushFree? {
      assert s.monitor != MonUnlockPool && s.monitor != MonErase;
      assert t !in s.free;
    }
  }

  lemma KeepsMonitorAwake(s: State, t: nat, s': State)
    requires Ownership(s) && MonitorAwake(s) && MovesLocks(s, t, s') && MovesReports(s, t, s')
    ensures MonitorAwake(s')
  {
    if s'.monitor == MonAsleep && s'.free != [] {
      if s.workers[t].PushFree? {
        assert s'.workers[t] == NotifyMon;
      } else {
        var u :| 0 <= u < |s.workers| && s.workers[u] == NotifyMon;
        assert s'.workers[u] == NotifyMon;
      }
    }
  }

  lemma KeepsHandshake(s: State, t: nat, s': State)
    requires Handshake(s) && MovesLocks(s, t, s')
    ensures Handshake(s')
  {
    forall u | 0 <= u < |s.workers| && u != t
      ensures s'.workers[u] == s.workers[u]
    {
    }
  }

  lemma WorkerKeepsInv(cfg: Config, s: State, t: nat, s': State)
    requires cfg.Valid() && Inv(cfg, s) && t < |s.workers| && WorkerNext(cfg, s, t) == Some(s')
    ensures Inv(cfg, s')
  {
    WorkerEffect(cfg, s, t, s');
    KeepsLocks(s, t, s');
    KeepsCounters(cfg, s, t, s');
    KeepsBounds(cfg, s, t, s');
    KeepsDrain(cfg, s, t, s');
    KeepsTasks(s, t, s');
    KeepsReaping(s, t, s');
    KeepsMonitorAwake(s, t, s');
    KeepsHandshake(s, t, s');
  }

  // ---- The timeout, and spurious wake-ups of a sleeping worker ----

  /** `s'` differs from `s` only in that sleeper `t` was taken out of the wait set. */
  ghost predicate Wakes(s: State, t: nat, late: bool, s': State) {
    t < |s.workers| && s.workers[t] == Asleep && s' == Move(s, t, Woken(late))
  }

  lemma WakeKeepsCounters(cfg: Config, s: State, t: nat, late: bool, s': State)
    requires Counters(s) && Bounds(cfg, s) && Wakes(s, t, late, s')
    ensures Counters(s') && Bounds(cfg, s')
  {
    CountUpdate(s.workers, t, Woken(late), InNow);
    CountUpdate(s.workers, t, Woken(late), InIdle);
  }

  lemma WakeKeepsTasks(s: State, t: nat, late: bool, s': State)
    requires Tasks(s) && Drain(s) && Calls(s) && Wakes(s, t, late, s')
    ensures Tasks(s') && Drain(s') && Calls(s')
  {
    HeldKeepsTasks(s, s');
  }

  lemma WakeKeepsLocks(s: State, t: nat, late: bool, s': State)
    requires Ownership(s) && Births(s) && Wakes(s, t, late, s')
    ensures Ownership(s') && Births(s')
  {
  }

  lemma WakeKeepsReaping(s: State, t: nat, late: bool, s': State)
    requires Reaping(s) && MonitorAwake(s) && Wakes(s, t, late, s')
    ensures Reaping(s') && MonitorAwake(s')
  {
    if s'.monitor == MonAsleep && s'.free != [] {
      var u :| 0 <= u < |s.workers| && s.workers[u] == NotifyMon;
      assert s'.workers[u] == NotifyMon;
    }
  }

  lemma WakeKeepsHandshake(s: State, t: nat, late: bool, s': State)
    requires Handshake(s) && Wakes(s, t, late, s')
    ensures Handshake(s')
  {
    HandshakeKept(s, s');
  }

  lemma WakeKeepsInv(cfg: Config, s: State, t: nat, late: bool, s': State)
    requires Inv(cfg, s) && Wakes(s, t, late, s')
    ensures Inv(cfg, s')
  {
    WakeKeepsCounters(cfg, s, t, late, s');
    WakeKeepsTasks(s, t, late, s');
    WakeKeepsLocks(s, t, late, s');
    WakeKeepsReaping(s, t, late, s');
    WakeKeepsHandshake(s, t, late, s');
  }
}
