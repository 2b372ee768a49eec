/** Steps of the monitor thread keep the invariant of the pool. */
module PoolMonitor {
  import opened Common
  import opened ThreadPool
  import opened PoolInvariant

  /** Find returns the first position of a value, and fails only when it is absent. */
  lemma {:induction false} FindIsFirst(list: seq<nat>, t: nat)
    ensures match Find(list, t)
            case None => t !in list
            case Some(i) => i < |list| && list[i] == t && t !in list[..i]
  {
    if list == [] || list[0] == t {
    } else {
      FindIsFirst(list[1..], t);
      if Find(list[1..], t).Some? {
        var i := Find(list[1..], t).value;
        assert list[..i + 1] == [list[0]] + list[1..][..i];
      }
    }
  }

  /** The monitor's join-and-erase: worker `t`, at position `i` of the list, is reaped. */
  ghost predicate Reaps(s: State, t: nat, i: nat, s': State) {
    && s.monitor.MonFind? && s.free != [] && t == s.free[0]
    && t < |s.workers| && (s.workers[t].Left? || s.workers[t].Stopped?)
    && i < |s.list| && s.list[i] == t
    && s' == s.(workers := s.workers[t := Reaped], list := s.list[..i] + s.list[i + 1..],
                monitor := MonUnlockPool)
  }

  /** Every other step of the monitor: only its own program counter, two mutexes and the free list. */
  ghost predicate Scans(s: State, s': State) {
    && s' == s.(monitor := s'.monitor, monOwner := s'.monOwner, poolOwner := s'.poolOwner, free := s'.free)
    && LockMoves(MonitorHoldsMon(s.monitor), MonitorHoldsMon(s'.monitor), Monitor, s.monOwner, s'.monOwner)
    && LockMoves(MonitorHoldsPool(s.monitor), MonitorHoldsPool(s'.monitor), Monitor, s.poolOwner, s'.poolOwner)
    && (if s.monitor.MonErase? then s.free != [] && s'.free == s.free[1..] else s'.free == s.free)
    && (s'.monitor.MonErase? <==> s.monitor.MonUnlockPool?)
    && !s'.monitor.MonUnlockPool?
    && (s'.monitor.MonLockPool? || s'.monitor.MonFind? ==> s'.free != [])
    && (s'.monitor == MonAsleep ==> s'.free == [])
    && (s'.monitor.MonExited? ==> s.status != Running)
  }

  lemma MonitorEffect(s: State, s': State)
    requires Reaping(s) && MonitorNext(s) == Some(s')
    ensures Scans(s, s') || exists i :: Reaps(s, s.free[0], i, s')
  {
    if s.monitor.MonFind? && s.free != [] {
      FindIsFirst(s.list, s.free[0]);
      var i := Find(s.list, s.free[0]).value;
      assert Reaps(s, s.free[0], i, s');
    }
  }

  lemma ScanKeepsLocks(s: State, s': State)
    requires Ownership(s) && Births(s) && Scans(s, s')
    ensures Ownership(s') && Births(s')
  {
  }

  lemma ScanKeepsReaping(s: State, s': State)
    requires Reaping(s) && Scans(s, s')
    ensures Reaping(s') && MonitorAwake(s')
  {
  }

  lemma ScanKeepsRest(cfg: Config, s: State, s': State)
    requires Scans(s, s')
    requires Calls(s) && Counters(s) && Bounds(cfg, s) && Drain(s) && Tasks(s)
    ensures Calls(s') && Counters(s') && Bounds(cfg, s') && Drain(s') && Tasks(s')
  {
    HeldKeepsTasks(s, s');
  }

  lemma ReapKeepsLocks(s: State, t: nat, i: nat, s': State)
    requires Ownership(s) && Births(s) && Reaps(s, t, i, s')
    ensures Ownership(s') && Births(s')
  {
  }

  /** Erasing one position of a list without duplicates removes one value and nothing else. */
  lemma EraseOne(list: seq<nat>, i: nat)
    requires NoDuplicates(list) && i < |list|
    ensures NoDuplicates(list[..i] + list[i + 1..])
    ensures forall u :: u in list[..i] + list[i + 1..] <==> u in list && u != list[i]
  {
    var rest := list[..i] + list[i + 1..];
    forall u
      ensures u in rest <==> u in list && u != list[i]
    {
      if u in rest {
        var j :| 0 <= j < |rest| && rest[j] == u;
        assert u == list[if j < i then j else j + 1];
      }
      if u in list && u != list[i] {
        var j :| 0 <= j < |list| && list[j] == u;
        assert rest[if j < i then j else j - 1] == u;
      }
    }
  }

  lemma ReapKeepsReaping(s: State, t: nat, i: nat, s': State)
    requires Reaping(s) && Reaps(s, t, i, s')
    ensures Reaping(s') && MonitorAwake(s')
  {
    EraseOne(s.list, i);
    forall u
      ensures u in s'.list <==> 0 <= u < |s'.workers| && s'.workers[u] != Reaped
    {
      assert u in s.list <==> 0 <= u < |s.workers| && s.workers[u] != Reaped;
    }
  }

  lemma ReapKeepsCounters(cfg: Config, s: State, t: nat, i: nat, s': State)
    requires Reaps(s, t, i, s') && Counters(s) && Bounds(cfg, s)
    ensures Counters(s') && Bounds(cfg, s')
  {
    CountUpdate(s.workers, t, Reaped, InNow);
    CountUpdate(s.workers, t, Reaped, InIdle);
  }

  lemma ReapKeepsTasks(s: State, t: nat, i: nat, s': State)
    requires Reaps(s, t, i, s') && Calls(s) && Drain(s) && Tasks(s)
    ensures Calls(s') && Drain(s') && Tasks(s')
  {
    HeldKeepsTasks(s, s');
  }

  lemma ReapKeepsHandshake(s: State, t: nat, i: nat, s': State)
    requires Handshake(s) && Reaps(s, t, i, s')
    ensures Handshake(s')
  {
    HandshakeKept(s, s');
  }

  lemma ScanKeepsInv(cfg: Config, s: State, s': State)
    requires Inv(cfg, s) && Scans(s, s')
    ensures Inv(cfg, s')
  {
    ScanKeepsLocks(s, s');
    ScanKeepsReaping(s, s');
    ScanKeepsRest(cfg, s, s');
    SameWorkersKeepHandshake(s, s');
  }

  lemma ReapKeepsInv(cfg: Config, s: State, t: nat, i: nat, s': State)
    requires Inv(cfg, s) && Reaps(s, t, i, s')
    ensures Inv(cfg, s')
  {
    ReapKeepsLocks(s, t, i, s');
    ReapKeepsReaping(s, t, i, s');
    ReapKeepsCounters(cfg, s, t, i, s');
    ReapKeepsTasks(s, t, i, s');
    ReapKeepsHandshake(s, t, i, s');
  }

  lemma MonitorKeepsInv(cfg: Config, s: State, s': State)
    requires Inv(cfg, s) && MonitorNext(s) == Some(s')
    ensures Inv(cfg, s')
  {
    MonitorEffect(s, s');
    if Scans(s, s') {
      ScanKeepsInv(cfg, s, s');
    } else {
      var i :| Reaps(s, s.free[0], i, s');
      ReapKeepsInv(cfg, s, s.free[0], i, s');
    }
  }
}
