/**
 src/base/mutex.cpp, src/base/condition.cpp and src/base/count_down_latch.cpp as one step machine: any
 number of threads that wait on a latch or count it down. Locking is two steps, as in the source: the
 mutex is taken, then the holder is noted; unlocking and waiting undo them in the other order. The classes
 beside this machine are in module Latches, and the mutex under arbitrary use in module Guards.
 */
module Latch {
  import opened Common
  import Guards

  /** Where a thread stands; numbers are lines of count_down_latch.cpp, m: of mutex.cpp, c: of condition.cpp. */
  datatype Pc =
    // Wait
    | WaitLock      // 13, m:24
    | WaitAssign    // 13, m:25
    | WaitTest      // 14
    | WaitUnassign  // 15, c:17: the holder is cleared before the wait
    | WaitEnter     // 15, c:18: the mutex is dropped and the thread falls asleep
    | Asleep        // 15, c:18: in the wait set
    | Woken         // 15, c:18: wants the mutex back
    | WaitReassign  // 15, c:17: end of the guard, the holder is noted again
    | WaitClear     // 16, m:29
    | WaitUnlock    // 16, m:30
    | Waited        // Wait has returned
    // CountDown
    | Publish       // what the thread does before it counts down (thread.cpp:32 sets tid_)
    | DownLock      // 19, m:24
    | DownAssign    // 19, m:25
    | Decrement     // 20
    | NotifyAll     // 22
    | DownClear     // 23, m:29
    | DownUnlock    // 23, m:30
    | Counted       // CountDown has returned

  datatype State = State(
    count: int,             // count_
    owner: Option<nat>,     // who has the std::mutex
    holder: Option<nat>,    // holder_, absent for 0
    threads: seq<Pc>
  )

  datatype Action =
    | Call(waits: bool) // a thread calls Wait, or starts towards CountDown
    | Go(t: nat)        // one step of thread t
    | Wake(t: nat)      // a spurious wake-up, or the timeout of a timed wait

  function Init(count: int): State {
    State(count, None, None, [])
  }

  function Move(s: State, t: nat, pc: Pc): State
    requires t < |s.threads|
  {
    s.(threads := s.threads[t := pc])
  }

  function WakeOne(pc: Pc): Pc {
    if pc == Asleep then Woken else pc
  }

  /** notify_all: the whole wait set is emptied. */
  function WakeAll(threads: seq<Pc>): seq<Pc> {
    seq(|threads|, i requires 0 <= i < |threads| => WakeOne(threads[i]))
  }

  /** Taking the mutex: only when it is free. */
  function Acquire(s: State, t: nat, pc: Pc): Option<State>
    requires t < |s.threads|
  {
    if s.owner.None? then Some(Move(s.(owner := Some(t)), t, pc)) else None
  }

  function Next(s: State, t: nat): Option<State>
    requires t < |s.threads|
  {
    match s.threads[t]
    case WaitLock => Acquire(s, t, WaitAssign)
    case WaitAssign => Some(Move(s.(holder := Some(t)), t, WaitTest))
    case WaitTest => Some(Move(s, t, if s.count > 0 then WaitUnassign else WaitClear))
    case WaitUnassign => Some(Move(s.(holder := None), t, WaitEnter))
    case WaitEnter => Some(Move(s.(owner := None), t, Asleep))
    case Woken => Acquire(s, t, WaitReassign)
    case WaitReassign => Some(Move(s.(holder := Some(t)), t, WaitTest))
    case WaitClear => Some(Move(s.(holder := None), t, WaitUnlock))
    case WaitUnlock => Some(Move(s.(owner := None), t, Waited))
    case Publish => Some(Move(s, t, DownLock))
    case DownLock => Acquire(s, t, DownAssign)
    case DownAssign => Some(Move(s.(holder := Some(t)), t, Decrement))
    case Decrement => Some(Move(s.(count := s.count - 1), t, if s.count - 1 == 0 then NotifyAll else DownClear))
    case NotifyAll => Some(Move(s.(threads := WakeAll(s.threads)), t, DownClear))
    case DownClear => Some(Move(s.(holder := None), t, DownUnlock))
    case DownUnlock => Some(Move(s.(owner := None), t, Counted))
    case Asleep | Waited | Counted => None
  }

  function Step(s: State, a: Action): Option<State> {
    match a
    case Call(waits) => Some(s.(threads := s.threads + [if waits then WaitLock else Publish]))
    case Go(t) => if t < |s.threads| then Next(s, t) else None
    case Wake(t) => if t < |s.threads| && s.threads[t] == Asleep then Some(Move(s, t, Woken)) else None
  }

  ghost predicate IsLatchRun(count: int, states: seq<State>, actions: seq<Action>) {
    IsRun(Init(count), Step, states, actions)
  }

  // ---- The invariant ----

  /** The thread has the std::mutex. */
  predicate Owns(pc: Pc) {
    InGuard(pc) || pc.WaitAssign? || pc.WaitEnter? || pc.WaitReassign? || pc.WaitUnlock? || pc.DownAssign?
    || pc.DownUnlock?
  }

  /** The thread is inside a lock guard, and not in a wait: here AssertLocked has to hold. */
  predicate InGuard(pc: Pc) {
    pc.WaitTest? || pc.WaitUnassign? || pc.WaitClear? || pc.Decrement? || pc.NotifyAll? || pc.DownClear?
  }

  /** The thread has executed its decrement. */
  predicate HasCounted(pc: Pc) {
    pc.NotifyAll? || pc.DownClear? || pc.DownUnlock? || pc.Counted?
  }

  ghost predicate Ownership(s: State) {
    && (forall t :: 0 <= t < |s.threads| ==>
          && (Owns(s.threads[t]) <==> s.owner == Some(t))
          && (InGuard(s.threads[t]) <==> s.holder == Some(t)))
    && (s.owner.Some? ==> s.owner.value < |s.threads|)
    && (s.holder.Some? ==> s.holder == s.owner)
  }

  // ---- The latch as a user of its mutex and its condition ----

  /** Where a thread of the latch stands with respect to the mutex. */
  function Project(pc: Pc): Guards.Pc {
    match pc
    case WaitLock | Publish | DownLock | Waited | Counted => Guards.Outside
    case WaitAssign | DownAssign => Guards.LockAssign
    case WaitTest | WaitClear | Decrement | NotifyAll | DownClear => Guards.Inside
    case WaitUnassign => Guards.WaitClear(0, false)
    case WaitEnter => Guards.WaitEnter(0, false)
    case Asleep => Guards.Sleeping(0, false)
    case Woken => Guards.Waking
    case WaitReassign => Guards.WaitAssign
    case WaitUnlock | DownUnlock => Guards.Releasing
  }

  function ProjectAll(threads: seq<Pc>): seq<Guards.Pc> {
    seq(|threads|, i requires 0 <= i < |threads| => Project(threads[i]))
  }

  function Abs(s: State): Guards.State {
    Guards.State(s.owner, s.holder, ProjectAll(s.threads))
  }

  /** What a step of the latch does with the mutex or the condition, if anything. */
  function Use(s: State, a: Action): Option<Guards.Action> {
    match a
    case Call(_) => Some(Guards.Spawn)
    case Wake(t) => Some(Guards.Spurious(t))
    case Go(t) =>
      if t >= |s.threads| then None
      else
        match s.threads[t]
        case WaitLock | DownLock => Some(Guards.Choose(t, Guards.Lock))
        case WaitTest => if s.count > 0 then Some(Guards.Choose(t, Guards.Wait(0, false))) else None
        case WaitClear | DownClear => Some(Guards.Choose(t, Guards.Unlock))
        case NotifyAll => Some(Guards.Choose(t, Guards.NotifyAll(0)))
        case Publish | Decrement => None
        case _ => Some(Guards.Go(t))
  }

  lemma ProjectUpdate(threads: seq<Pc>, t: nat, pc: Pc)
    requires t < |threads|
    ensures ProjectAll(threads[t := pc]) == ProjectAll(threads)[t := Project(pc)]
  {
  }

  /** Every step of the latch is one step of a thread that locks, unlocks, waits or notifies, or none. */
  lemma LatchUsesGuards(s: State, a: Action)
    requires Guards.Inv(Abs(s)) && Step(s, a).Some?
    ensures match Use(s, a)
            case None => Abs(Step(s, a).value) == Abs(s)
            case Some(g) => Guards.Step(Abs(s), g) == Some(Abs(Step(s, a).value))
  {
    match a
    case Call(waits) =>
      assert Abs(Step(s, a).value).threads == Abs(s).threads + [Guards.Outside];
    case Wake(t) => ProjectUpdate(s.threads, t, Woken);
    case Go(t) => GoUsesGuards(s, t);
  }

  lemma GoUsesGuards(s: State, t: nat)
    requires Guards.Inv(Abs(s)) && t < |s.threads| && Next(s, t).Some?
    ensures match Use(s, Go(t))
            case None => Abs(Next(s, t).value) == Abs(s)
            case Some(g) => Guards.Step(Abs(s), g) == Some(Abs(Next(s, t).value))
  {
    var pc' := Next(s, t).value.threads[t];
    assert Guards.Holds(Abs(s).threads[t]) <==> Abs(s).holder == Some(t);
    if s.threads[t] == NotifyAll {
      assert Abs(Next(s, t).value).threads == Guards.WakeAll(0, Abs(s).threads);
    } else {
      ProjectUpdate(s.threads, t, pc');
      assert Project(pc') == Project(s.threads[t]) ==>
               ProjectAll(s.threads)[t := Project(pc')] == ProjectAll(s.threads);
    }
  }

  /** Who owns and who holds is what it is for any user of the mutex. */
  lemma OwnershipFromGuards(s: State)
    ensures Ownership(s) <==> Guards.Inv(Abs(s))
  {
    assert forall t :: 0 <= t < |s.threads| ==>
             && (Owns(s.threads[t]) <==> Guards.Owns(Abs(s).threads[t]))
             && (InGuard(s.threads[t]) <==> Guards.Holds(Abs(s).threads[t]));
  }

  lemma StepKeepsOwnership(s: State, a: Action)
    requires Ownership(s) && Step(s, a).Some?
    ensures Ownership(Step(s, a).value)
  {
    OwnershipFromGuards(s);
    OwnershipFromGuards(Step(s, a).value);
    LatchUsesGuards(s, a);
    if Use(s, a).Some? {
      Guards.StepKeeps(Abs(s), Use(s, a).value);
    }
  }

  /** Every run of the latch is a run of the mutex and its condition under arbitrary use. */
  lemma {:induction false} LatchRunIsGuardRun(count: int, states: seq<State>, actions: seq<Action>, k: nat)
      returns (uses: seq<Guards.State>, used: seq<Guards.Action>)
    requires IsLatchRun(count, states, actions) && k < |states|
    ensures Guards.IsGuardRun(uses, used) && uses[|used|] == Abs(states[k])
  {
    if k == 0 {
      uses, used := [Guards.Init()], [];
    } else {
      var i := k - 1;
      uses, used := LatchRunIsGuardRun(count, states, actions, i);
      assert Step(states[i], actions[i]) == Some(states[i + 1]);
      Guards.RunKeepsInv(uses, used, |used|);
      LatchUsesGuards(states[i], actions[i]);
      if Use(states[i], actions[i]).Some? {
        uses, used := uses + [Abs(states[k])], used + [Use(states[i], actions[i]).value];
      }
    }
  }

  // ---- The invariant of the latch ----

  /** A wait ends only at a count of zero or less; who is about to sleep has seen a positive count. */
  ghost predicate Tested(s: State) {
    && (forall t :: 0 <= t < |s.threads| ==>
          && (s.threads[t].WaitClear? || s.threads[t].WaitUnlock? || s.threads[t].Waited? ==> s.count <= 0)
          && (s.threads[t].WaitUnassign? || s.threads[t].WaitEnter? ==> s.count > 0))
  }

  /** Nobody sleeps at a count of zero or less, except until the one NotifyAll that is on its way. */
  ghost predicate NobodyStranded(s: State) {
    forall t :: 0 <= t < |s.threads| && s.threads[t] == Asleep && s.count <= 0 ==>
      s.owner.Some? && s.owner.value < |s.threads| && s.threads[s.owner.value] == NotifyAll
  }

  ghost predicate Inv(count: int, s: State) {
    && Ownership(s) && Tested(s) && NobodyStranded(s)
    && s.count == count - Count(s.threads, HasCounted)
  }

  lemma {:induction false} CountWakeAll(threads: seq<Pc>)
    ensures Count(WakeAll(threads), HasCounted) == Count(threads, HasCounted)
  {
    if threads == [] {
    } else {
      var n := |threads| - 1;
      CountWakeAll(threads[..n]);
      assert WakeAll(threads)[..n] == WakeAll(threads[..n]);
    }
  }

  /** What one step of thread `t` does, unless it is the NotifyAll. */
  ghost predicate Effect(s: State, t: nat, s': State) {
    && t < |s.threads| == |s'.threads|
    && var pc, pc' := s.threads[t], s'.threads[t];
    && s'.threads == s.threads[t := pc'] && pc != NotifyAll
    && (if Owns(pc') then (Owns(pc) || s.owner.None?) && s'.owner == Some(t)
        else s'.owner == if Owns(pc) then None else s.owner)
    && s'.holder == (if InGuard(pc') then Some(t) else if InGuard(pc) then None else s.holder)
    && s'.count == s.count - (if pc.Decrement? then 1 else 0)
    && (HasCounted(pc') <==> HasCounted(pc) || pc.Decrement?)
    && (pc' == NotifyAll <==> pc.Decrement? && s'.count == 0)
    && (pc'.WaitClear? ==> s.count <= 0) && (pc'.WaitUnassign? ==> s.count > 0)
    && (pc'.WaitUnlock? ==> pc.WaitClear?) && (pc'.Waited? ==> pc.WaitUnlock?)
    && (pc'.WaitEnter? ==> pc.WaitUnassign?) && (pc'.Asleep? ==> pc.WaitEnter?)
  }

  lemma NextHasEffect(s: State, t: nat)
    requires t < |s.threads| && Next(s, t).Some? && s.threads[t] != NotifyAll
    requires InGuard(s.threads[t]) ==> s.holder == Some(t)
    requires Owns(s.threads[t]) ==> s.owner == Some(t)
    ensures Effect(s, t, Next(s, t).value)
  {
  }

  lemma EffectKeepsTested(s: State, t: nat, s': State)
    requires Ownership(s) && Tested(s) && NobodyStranded(s) && Effect(s, t, s')
    ensures Tested(s') && NobodyStranded(s')
  {
    assert s.threads[t].Decrement? ==> s.owner == Some(t);
  }

  lemma NotifyKeeps(count: int, s: State, t: nat)
    requires Inv(count, s) && t < |s.threads| && s.threads[t] == NotifyAll
    ensures Inv(count, Next(s, t).value)
  {
    CountWakeAll(s.threads);
    CountUpdate(WakeAll(s.threads), t, DownClear, HasCounted);
    StepKeepsOwnership(s, Go(t));
    NotifyKeepsTested(s, t);
  }

  lemma NotifyKeepsTested(s: State, t: nat)
    requires Tested(s) && t < |s.threads| && s.threads[t] == NotifyAll
    ensures Tested(Next(s, t).value) && NobodyStranded(Next(s, t).value)
  {
    var s' := Next(s, t).value;
    assert forall u :: 0 <= u < |s.threads| && u != t ==> s'.threads[u] == WakeOne(s.threads[u]);
  }

  lemma NextKeeps(count: int, s: State, t: nat)
    requires Inv(count, s) && t < |s.threads| && Next(s, t).Some?
    ensures Inv(count, Next(s, t).value)
  {
    if s.threads[t] == NotifyAll {
      NotifyKeeps(count, s, t);
    } else {
      var s' := Next(s, t).value;
      NextHasEffect(s, t);
      StepKeepsOwnership(s, Go(t));
      EffectKeepsTested(s, t, s');
      CountUpdate(s.threads, t, s'.threads[t], HasCounted);
    }
  }

  lemma StepKeeps(count: int, s: State, a: Action)
    requires Inv(count, s) && Step(s, a).Some?
    ensures Inv(count, Step(s, a).value)
  {
    match a
    case Call(waits) => CallKeeps(count, s, waits);
    case Go(t) => NextKeeps(count, s, t);
    case Wake(t) => WakeKeeps(count, s, t);
  }

  lemma CallKeeps(count: int, s: State, waits: bool)
    requires Inv(count, s)
    ensures Inv(count, s.(threads := s.threads + [if waits then WaitLock else Publish]))
  {
    CountAppend(s.threads, if waits then WaitLock else Publish, HasCounted);
  }

  lemma WakeKeeps(count: int, s: State, t: nat)
    requires Inv(count, s) && t < |s.threads| && s.threads[t] == Asleep
    ensures Inv(count, Move(s, t, Woken))
  {
    CountUpdate(s.threads, t, Woken, HasCounted);
  }

  lemma RunKeepsInv(count: int, states: seq<State>, actions: seq<Action>, k: nat)
    requires IsLatchRun(count, states, actions) && k < |states|
    ensures Inv(count, states[k])
  {
    forall s, a | Inv(count, s) && Step(s, a).Some?
      ensures Inv(count, Step(s, a).value)
    {
      StepKeeps(count, s, a);
    }
    RunInvariant(Init(count), Step, s => Inv(count, s), states, actions, k);
  }

  // ---- Main results ----

  /**
   The holder is sound, because the latch is one particular user of the mutex: when it is set it names the
   owner, and every thread that is inside a guard and not in a wait is the holder, also after waking up.
   */
  lemma HolderIsSound(count: int, states: seq<State>, actions: seq<Action>, k: nat)
    requires IsLatchRun(count, states, actions) && k < |states|
    ensures var s := states[k];
      && (s.holder.Some? ==> s.holder == s.owner)
      && forall t :: 0 <= t < |s.threads| ==> (InGuard(s.threads[t]) <==> s.holder == Some(t))
  {
    var uses, used := LatchRunIsGuardRun(count, states, actions, k);
    Guards.RunKeepsInv(uses, used, |used|);
    OwnershipFromGuards(states[k]);
  }

  /** When a Wait has returned, at least as many threads as the latch was made for have counted it down. */
  lemma WaitReturnsAfterCount(count: int, states: seq<State>, actions: seq<Action>, k: nat, t: nat)
    requires IsLatchRun(count, states, actions) && k < |states|
    requires t < |states[k].threads| && states[k].threads[t] == Waited
    ensures states[k].count <= 0 && Count(states[k].threads, HasCounted) >= count
  {
    RunKeepsInv(count, states, actions, k);
  }

  /** Nobody is left in the wait set once the count is at zero or below and the mutex is free. */
  lemma NoStrandedWaiter(count: int, states: seq<State>, actions: seq<Action>, k: nat, t: nat)
    requires IsLatchRun(count, states, actions) && k < |states| && t < |states[k].threads|
    requires states[k].count <= 0 && states[k].owner.None?
    ensures states[k].threads[t] != Asleep
  {
    RunKeepsInv(count, states, actions, k);
  }

  /** The steps that a thread can still take before it sleeps or has returned. */
  function Rank(pc: Pc): nat {
    match pc
    case Asleep | Waited | Counted => 0
    case WaitEnter | WaitUnlock | DownUnlock => 1
    case WaitUnassign | WaitClear | DownClear => 2
    case WaitTest | NotifyAll => 3
    case WaitAssign | WaitReassign | Decrement => 4
    case WaitLock | Woken | DownAssign => 5
    case DownLock => 6
    case Publish => 7
  }

  predicate WokenAt(states: seq<State>, t: nat, i: nat)
    requires i + 1 < |states|
  {
    && t < |states[i].threads| && t < |states[i + 1].threads|
    && states[i].threads[t] == Asleep && states[i + 1].threads[t] == Woken
  }

  /** The steps of thread `t`, and its wake-ups, in the steps from `j` up to `k`. */
  function StepsOf(actions: seq<Action>, t: nat, j: nat, k: nat): nat
    requires j <= k <= |actions|
    decreases k
  {
    if j == k then 0 else StepsOf(actions, t, j, k - 1) + (if actions[k - 1] == Go(t) then 1 else 0)
  }

  function WakesOf(states: seq<State>, t: nat, j: nat, k: nat): nat
    requires j <= k < |states|
    decreases k
  {
    if j == k then 0 else WakesOf(states, t, j, k - 1) + (if WokenAt(states, t, k - 1) then 1 else 0)
  }

  lemma StepRanks(s: State, a: Action, s': State, t: nat)
    requires Step(s, a) == Some(s') && t < |s.threads|
    ensures t < |s'.threads|
    ensures a == Go(t) ==> Rank(s'.threads[t]) < Rank(s.threads[t])
    ensures a != Go(t) ==> s'.threads[t] == s.threads[t] || (s.threads[t] == Asleep && s'.threads[t] == Woken)
  {
  }

  lemma StepOfRunRanks(count: int, states: seq<State>, actions: seq<Action>, t: nat, i: nat)
    requires IsLatchRun(count, states, actions) && i < |actions| && t < |states[i].threads|
    ensures t < |states[i + 1].threads|
    ensures Rank(states[i + 1].threads[t]) + (if actions[i] == Go(t) then 1 else 0)
         <= Rank(states[i].threads[t]) + (if WokenAt(states, t, i) then 5 else 0)
  {
    StepRanks(states[i], actions[i], states[i + 1], t);
  }

  /** A number that every step of the thread lowers, and that a wake-up raises by no more than five. */
  lemma {:induction false} Telescope(
      states: seq<State>, actions: seq<Action>, ranks: seq<nat>, t: nat, j: nat, k: nat)
    requires j <= k < |ranks| == |states| == |actions| + 1
    requires forall i :: j <= i < k ==>
               (ranks[i + 1] + (if actions[i] == Go(t) then 1 else 0)
                <= ranks[i] + (if WokenAt(states, t, i) then 5 else 0))
    ensures StepsOf(actions, t, j, k) + ranks[k] <= ranks[j] + 5 * WakesOf(states, t, j, k)
    decreases k
  {
    if j == k {
    } else {
      var i := k - 1;
      Telescope(states, actions, ranks, t, j, i);
      assert ranks[i + 1] + (if actions[i] == Go(t) then 1 else 0)
          <= ranks[i] + (if WokenAt(states, t, i) then 5 else 0);
    }
  }

  lemma {:induction false} ThreadsStay(count: int, states: seq<State>, actions: seq<Action>, t: nat, j: nat, k: nat)
    requires IsLatchRun(count, states, actions) && j <= k < |states| && t < |states[j].threads|
    ensures t < |states[k].threads|
    decreases k
  {
    if j == k {
    } else {
      ThreadsStay(count, states, actions, t, j, k - 1);
      StepOfRunRanks(count, states, actions, t, k - 1);
    }
  }

  /**
   No thread goes on for ever: between any two states of any run it takes no more steps than it had left, and five
   more for each time that its wait was ended.
   */
  lemma StepsAreBounded(count: int, states: seq<State>, actions: seq<Action>, t: nat, j: nat, k: nat)
    requires IsLatchRun(count, states, actions) && j <= k < |states| && t < |states[j].threads|
    ensures t < |states[k].threads|
    ensures StepsOf(actions, t, j, k) + Rank(states[k].threads[t])
         <= Rank(states[j].threads[t]) + 5 * WakesOf(states, t, j, k)
  {
    var ranks := seq(|states|, i requires 0 <= i < |states| =>
                       if t < |states[i].threads| then Rank(states[i].threads[t]) else 0);
    ThreadsStay(count, states, actions, t, j, k);
    forall i | j <= i < k
      ensures ranks[i + 1] + (if actions[i] == Go(t) then 1 else 0)
           <= ranks[i] + (if WokenAt(states, t, i) then 5 else 0)
    {
      ThreadsStay(count, states, actions, t, j, i);
      StepOfRunRanks(count, states, actions, t, i);
    }
    Telescope(states, actions, ranks, t, j, k);
  }

  /**
   No deadlock: when no thread can move, every call has returned or is a wait that sleeps rightly, because
   fewer threads have counted down than the latch was made for.
   */
  lemma QuiescentLatch(count: int, states: seq<State>, actions: seq<Action>, k: nat)
    requires IsLatchRun(count, states, actions) && k < |states|
    requires forall t :: 0 <= t < |states[k].threads| ==> Next(states[k], t).None?
    ensures var s := states[k];
      && (forall t :: 0 <= t < |s.threads| ==>
            s.threads[t] == Waited || s.threads[t] == Counted || s.threads[t] == Asleep)
      && ((exists t :: 0 <= t < |s.threads| && s.threads[t] == Asleep) ==> Count(s.threads, HasCounted) < count)
  {
    var s := states[k];
    RunKeepsInv(count, states, actions, k);
    if s.owner.Some? {
      var stuck := Next(s, s.owner.value);
      assert false;
    }
    forall t | 0 <= t < |s.threads|
      ensures s.threads[t] == Waited || s.threads[t] == Counted || s.threads[t] == Asleep
    {
      assert Next(s, t).None?;
    }
  }

  // ---- Thread::Start (src/base/thread.cpp:27-53) ----

  /** The thread is in a call of Wait. */
  predicate Waits(pc: Pc) {
    pc.WaitLock? || pc.WaitAssign? || pc.WaitTest? || pc.WaitUnassign? || pc.WaitEnter? || pc.Asleep?
    || pc.Woken? || pc.WaitReassign? || pc.WaitClear? || pc.WaitUnlock? || pc.Waited?
  }

  /** Start returns only after the one new thread has set its tid: a latch of one and a single counter. */
  lemma StartSeesTid(states: seq<State>, actions: seq<Action>, k: nat, parent: nat, child: nat)
    requires IsLatchRun(1, states, actions) && k < |states|
    requires parent < |states[k].threads| && states[k].threads[parent] == Waited
    requires child < |states[k].threads|
    requires forall t :: 0 <= t < |states[k].threads| && t != child ==> Waits(states[k].threads[t])
    ensures HasCounted(states[k].threads[child]) && states[k].threads[child] != Publish
  {
    WaitReturnsAfterCount(1, states, actions, k, parent);
    var t := CountWitness(states[k].threads, HasCounted);
  }
}
