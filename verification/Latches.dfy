/**
 The classes MutexLock (src/base/mutex.cpp), CountDownLatch (src/base/count_down_latch.cpp, with the condition
 variable of src/base/condition.cpp) and Thread (src/base/thread.cpp), updated in place; module Latch is the
 step machine beside them. A method is one step of one thread. The latch keeps the run of the machine that it
 has gone through, so that whatever holds of all runs holds of the object.
 */
module Latches {
  import opened Common
  import opened Latch

  class MutexLock {
    var owner: Option<nat>  // who has the std::mutex
    var holder: Option<nat> // holder_

    constructor ()
      ensures owner == None && holder == None
    {
      owner, holder := None, None;
    }

    /** mutex.cpp:24: the mutex is taken if it is free. */
    method Acquire(t: nat) returns (taken: bool)
      modifies this`owner
      ensures taken == old(owner).None? && owner == if taken then Some(t) else old(owner)
    {
      taken := owner.None?;
      if taken {
        owner := Some(t);
      }
    }

    /** mutex.cpp:15-17. */
    method AssignHolder(t: nat)
      modifies this`holder
      ensures holder == Some(t)
    {
      holder := Some(t);
    }

    /** mutex.cpp:19-21. */
    method UnAssignHolder()
      modifies this`holder
      ensures holder == None
    {
      holder := None;
    }

    /** mutex.cpp:37-39: the assert holds for whoever is noted as the holder. */
    method AssertLocked(t: nat)
      requires holder == Some(t)
    {
      assert holder == Some(t);
    }

    /** mutex.cpp:30. */
    method Release()
      modifies this`owner
      ensures owner == None
    {
      owner := None;
    }
  }

  class CountDownLatch {
    const initial: int
    const mutex: MutexLock
    var count: int
    var threads: seq<Pc>

    ghost var states: seq<State>   // the run so far
    ghost var actions: seq<Action>

    ghost function View(): State
      reads this, mutex
    {
      State(count, mutex.owner, mutex.holder, threads)
    }

    /** The object is the last state of a run of the machine from its construction. */
    ghost predicate Valid()
      reads this, mutex
    {
      IsLatchRun(initial, states, actions) && states[|actions|] == View()
    }

    /** The run has gone on by action `a`, or the object is untouched because `a` cannot be taken. */
    twostate predicate Took(a: Action, moved: bool)
      reads this, mutex
    {
      if moved then Step(old(View()), a) == Some(View()) && actions == old(actions) + [a]
      else Step(View(), a).None? && View() == old(View()) && actions == old(actions)
    }

    lemma Invariant()
      requires Valid()
      ensures Inv(initial, View())
    {
      RunKeepsInv(initial, states, actions, |actions|);
    }

    constructor (count: int)
      ensures Valid() && initial == count && View() == Init(count) && actions == [] && fresh(mutex)
    {
      mutex := new MutexLock();
      initial, this.count, threads := count, count, [];
      states, actions := [Init(count)], [];
    }

    ghost method Record(a: Action, was: State)
      requires IsLatchRun(initial, states, actions) && states[|actions|] == was && Step(was, a) == Some(View())
      modifies this`states, this`actions
      ensures Valid() && actions == old(actions) + [a]
    {
      states, actions := states + [View()], actions + [a];
    }

    /** A thread enters Wait, or sets out to call CountDown. */
    method Enter(waits: bool)
      requires Valid()
      modifies this
      ensures Valid() && Took(Call(waits), true)
    {
      ghost var was := View();
      threads := threads + [if waits then WaitLock else Publish];
      Record(Call(waits), was);
    }

    /** Condition::Wait ends for no reason, or a timed wait runs out. */
    method WakeUp(t: nat)
      requires Valid() && t < |threads| && threads[t] == Asleep
      modifies this
      ensures Valid() && Took(Wake(t), true)
    {
      ghost var was := View();
      threads := threads[t := Woken];
      Record(Wake(t), was);
    }

    /**
     count_down_latch.cpp:12-16: one step of a thread that waits. It falls asleep only at a positive count; it
     returns only when as many threads have counted down as the latch was made for; and it is stopped only by
     another owner of the mutex, by its sleep, or because it has returned.
     */
    method Wait(t: nat) returns (moved: bool)
      requires Valid() && t < |threads| && Waits(threads[t])
      modifies this, mutex
      ensures Valid() && Took(Go(t), moved) && |threads| == |old(threads)| && Waits(threads[t])
      ensures moved && threads[t] == Asleep ==> count > 0 && mutex.owner.None? && mutex.holder.None?
      ensures threads[t] == Waited ==> count <= 0 && Count(threads, HasCounted) >= initial
      ensures !moved ==> threads[t] == Asleep || threads[t] == Waited || mutex.owner.Some?
    {
      ghost var was := View();
      Invariant();
      moved := true;
      match threads[t] {
        case WaitLock =>
          moved := mutex.Acquire(t);
          if !moved {
            return;
          }
          threads := threads[t := WaitAssign];
        case WaitAssign =>
          mutex.AssignHolder(t);
          threads := threads[t := WaitTest];
        case WaitTest =>
          if count > 0 {
            mutex.AssertLocked(t);
          }
          threads := threads[t := if count > 0 then WaitUnassign else WaitClear];
        case WaitUnassign =>
          mutex.UnAssignHolder();
          threads := threads[t := WaitEnter];
        case WaitEnter =>
          mutex.Release();
          threads := threads[t := Asleep];
        case Woken =>
          moved := mutex.Acquire(t);
          if !moved {
            return;
          }
          threads := threads[t := WaitReassign];
        case WaitReassign =>
          mutex.AssignHolder(t);
          threads := threads[t := WaitTest];
        case WaitClear =>
          mutex.UnAssignHolder();
          threads := threads[t := WaitUnlock];
        case WaitUnlock =>
          mutex.Release();
          threads := threads[t := Waited];
        case _ =>
          ReturnedMeansCounted(t);
          return false;
      }
      Record(Go(t), was);
      ReturnedMeansCounted(t);
    }

    lemma ReturnedMeansCounted(t: nat)
      requires Valid() && t < |threads|
      ensures threads[t] == Waited ==> count <= 0 && Count(threads, HasCounted) >= initial
    {
      Invariant();
    }

    /** Condition::NotifyAll: every sleeper leaves the wait set. */
    method NotifyAllWaiters()
      modifies this`threads
      ensures threads == WakeAll(old(threads))
    {
      var was := threads;
      for i := 0 to |was|
        invariant |threads| == |was|
        invariant forall j :: 0 <= j < i ==> threads[j] == WakeOne(was[j])
        invariant forall j :: i <= j < |was| ==> threads[j] == was[j]
      {
        if threads[i] == Asleep {
          threads := threads[i := Woken];
        }
      }
    }

    /**
     count_down_latch.cpp:18-23: one step of a thread that counts down. The count is always what the threads
     past their decrement leave of the initial one; and the thread that brings it to zero leaves nobody asleep.
     */
    method CountDown(t: nat) returns (moved: bool)
      requires Valid() && t < |threads| && !Waits(threads[t])
      modifies this, mutex
      ensures Valid() && Took(Go(t), moved) && |threads| == |old(threads)| && !Waits(threads[t])
      ensures count == initial - Count(threads, HasCounted)
      ensures moved && old(threads)[t] == NotifyAll ==> forall u :: 0 <= u < |threads| ==> threads[u] != Asleep
      ensures !moved ==> threads[t] == Counted || mutex.owner.Some?
    {
      if threads[t] == NotifyAll {
        NotifyWaiters(t);
        CountIsExact();
        return true;
      }
      if threads[t] == DownClear || threads[t] == DownUnlock {
        LeaveGuard(t);
        CountIsExact();
        return true;
      }
      if threads[t] == DownLock || threads[t] == DownAssign {
        moved := TakeGuard(t);
        CountIsExact();
        return;
      }
      if threads[t] == Counted {
        CountIsExact();
        return false;
      }
      CountOne(t);
      CountIsExact();
      return true;
    }

    /** thread.cpp:32, where the thread sets its tid, and line 20. */
    method CountOne(t: nat)
      requires Valid() && t < |threads| && (threads[t] == Publish || threads[t] == Decrement)
      modifies this
      ensures Valid() && Took(Go(t), true) && |threads| == |old(threads)| && !Waits(threads[t])
      ensures count == old(count) - (if old(threads)[t] == Decrement then 1 else 0)
    {
      ghost var was := View();
      if threads[t] == Publish {
        threads := threads[t := DownLock];
      } else {
        count := count - 1;
        threads := threads[t := if count == 0 then NotifyAll else DownClear];
      }
      Record(Go(t), was);
    }

    /** Line 22: the thread that has brought the count to zero wakes everybody. */
    method NotifyWaiters(t: nat)
      requires Valid() && t < |threads| && threads[t] == NotifyAll
      modifies this
      ensures Valid() && Took(Go(t), true) && |threads| == |old(threads)| && threads[t] == DownClear
      ensures forall u :: 0 <= u < |threads| ==> threads[u] != Asleep
    {
      ghost var was := View();
      NotifyAllWaiters();
      threads := threads[t := DownClear];
      Record(Go(t), was);
    }

    /** Line 19: the guard is taken when the mutex is free. */
    method TakeGuard(t: nat) returns (moved: bool)
      requires Valid() && t < |threads| && (threads[t] == DownLock || threads[t] == DownAssign)
      modifies this, mutex
      ensures Valid() && Took(Go(t), moved)
      ensures threads == if !moved then old(threads)
                         else old(threads)[t := if old(threads)[t] == DownLock then DownAssign else Decrement]
      ensures !moved ==> mutex.owner.Some?
    {
      ghost var was := View();
      if threads[t] == DownLock {
        moved := mutex.Acquire(t);
        if !moved {
          return;
        }
        threads := threads[t := DownAssign];
      } else {
        mutex.AssignHolder(t);
        threads := threads[t := Decrement];
      }
      Record(Go(t), was);
      return true;
    }

    /** Line 23: the guard is left. */
    method LeaveGuard(t: nat)
      requires Valid() && t < |threads| && (threads[t] == DownClear || threads[t] == DownUnlock)
      modifies this, mutex
      ensures Valid() && Took(Go(t), true)
      ensures threads == old(threads)[t := if old(threads)[t] == DownClear then DownUnlock else Counted]
    {
      ghost var was := View();
      if threads[t] == DownClear {
        mutex.UnAssignHolder();
        threads := threads[t := DownUnlock];
      } else {
        mutex.Release();
        threads := threads[t := Counted];
      }
      Record(Go(t), was);
    }

    lemma CountIsExact()
      requires Valid()
      ensures count == initial - Count(threads, HasCounted)
    {
      Invariant();
    }

    // ---- Whole schedules ----

    /** One action, if it can be taken. */
    method Do(a: Action) returns (moved: bool)
      requires Valid()
      modifies this, mutex
      ensures Valid() && Took(a, moved)
    {
      moved := false;
      match a {
        case Call(waits) =>
          Enter(waits);
          moved := true;
        case Go(t) =>
          if t < |threads| {
            if Waits(threads[t]) {
              moved := Wait(t);
            } else {
              moved := CountDown(t);
            }
          }
        case Wake(t) =>
          if t < |threads| && threads[t] == Asleep {
            WakeUp(t);
            moved := true;
          }
      }
    }

    /**
     Any schedule whatever, carried out on the object: the holder is sound, every Wait that has returned did so
     after enough threads had counted down, and at a count of zero or less nobody sleeps while the mutex is free.
     */
    method Execute(schedule: seq<Action>)
      requires Valid()
      modifies this, mutex
      ensures Valid() && old(actions) <= actions
      ensures mutex.holder.Some? ==> mutex.holder == mutex.owner
      ensures forall t :: 0 <= t < |threads| ==> (InGuard(threads[t]) <==> mutex.holder == Some(t))
      ensures forall t :: 0 <= t < |threads| && threads[t] == Waited ==> Count(threads, HasCounted) >= initial
      ensures count <= 0 && mutex.owner.None? ==> forall t :: 0 <= t < |threads| ==> threads[t] != Asleep
    {
      for i := 0 to |schedule|
        invariant Valid() && old(actions) <= actions
      {
        var moved := Do(schedule[i]);
      }
      Invariant();
    }
  }

  /**
   The class Thread (src/base/thread.cpp) around its start. In the latch, which is made for one count,
   thread 0 is the caller of Start and thread 1 is the new thread.
   */
  class Thread {
    const latch: CountDownLatch
    var started: bool
    var joined: bool
    var tid: nat

    /** The tid is set exactly when the new thread has passed line 32. */
    ghost predicate Valid()
      reads this, latch, latch.mutex
    {
      && latch.initial == 1 && latch.Valid()
      && (joined ==> started)
      && (if started
          then |latch.threads| == 2 && Waits(latch.threads[0]) && !Waits(latch.threads[1])
               && (tid > 0 <==> latch.threads[1] != Publish)
          else latch.threads == [] && tid == 0)
    }

    constructor ()
      ensures Valid() && fresh(latch) && fresh(latch.mutex) && !started && !joined
    {
      latch := new CountDownLatch(1);
      started, joined, tid := false, false, 0;
    }

    /** thread.cpp:28-30 and 50: the new thread exists and its creator is about to wait. */
    method Start()
      requires Valid() && !started
      modifies this`started, latch
      ensures Valid() && started && latch.threads == [WaitLock, Publish]
    {
      started := true;
      latch.Enter(true);
      latch.Enter(false);
    }

    /** One step of the creator inside latch_.Wait(). When it has returned, the assert at line 51 holds. */
    method RunCreator() returns (moved: bool)
      requires Valid() && started
      modifies latch, latch.mutex
      ensures Valid() && latch.Took(Go(0), moved)
      ensures latch.threads[0] == Waited ==> tid > 0
    {
      moved := latch.Wait(0);
      TidIsSet();
    }

    /** One step of the new thread: it sets its tid at line 32 and counts down at line 35. */
    method RunNew(id: nat) returns (moved: bool)
      requires Valid() && started && id > 0
      modifies this`tid, latch, latch.mutex
      ensures Valid() && latch.Took(Go(1), moved)
      ensures tid == if old(latch.threads)[1] == Publish then id else old(tid)
    {
      if latch.threads[1] == Publish {
        tid := id;
      }
      moved := latch.CountDown(1);
    }

    /** thread.cpp:55-59. */
    method Join()
      requires Valid() && started && !joined
      modifies this`joined
      ensures Valid() && joined
    {
      joined := true;
    }

    /** Start returns only to a caller that can read the tid. */
    lemma TidIsSet()
      requires Valid() && started
      ensures latch.threads[0] == Waited ==> tid > 0
    {
      latch.ReturnedMeansCounted(0);
      if latch.threads[0] == Waited {
        var t := CountWitness(latch.threads, HasCounted);
      }
    }
  }
}
