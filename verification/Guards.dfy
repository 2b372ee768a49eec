/**
 src/base/mutex.cpp and src/base/condition.cpp under arbitrary use: any number of threads that share one
 MutexLock with all the Conditions made on it, and that lock, unlock, wait, wait for a time, notify one,
 notify all and assert that they hold the lock in any order they choose. Locks are taken by guards: a thread
 unlocks what it has locked. The latch, the pool and the logger are particular users.
 */
module Guards {
  import opened Common

  /** Where a thread stands with respect to the mutex; m: lines of mutex.cpp, c: of condition.cpp. */
  datatype Pc =
    | Outside                             // has not locked, or is blocked in lock()
    | LockAssign                          // m:25: has the std::mutex, the holder is not noted yet
    | Inside                              // inside a guard and not in a wait
    | Releasing                           // m:30: the holder is cleared, the std::mutex still taken
    | WaitClear(cond: nat, timed: bool)   // c:17, c:32: past AssertLocked
    | WaitEnter(cond: nat, timed: bool)   // c:18, c:33: the holder is cleared
    | Sleeping(cond: nat, timed: bool)    // c:18, c:33: in the wait set, the std::mutex is free
    | Waking                              // c:18, c:33: wants the std::mutex back
    | WaitAssign                          // c:19, c:34: has it, the holder is not noted yet
    | Failed                              // an AssertLocked failed

  datatype State = State(owner: Option<nat>, holder: Option<nat>, threads: seq<Pc>)

  /** What a thread may choose to do when it is in no call of the mutex or of a condition. */
  datatype Call =
    | Lock
    | Unlock
    | Wait(cond: nat, timed: bool)
    | NotifyOne(cond: nat, pick: nat)
    | NotifyAll(cond: nat)
    | AssertLocked

  datatype Action =
    | Spawn
    | Choose(t: nat, call: Call)
    | Go(t: nat)      // the next step of the call that thread t is in
    | Timeout(t: nat)
    | Spurious(t: nat)

  function Init(): State {
    State(None, None, [])
  }

  function Move(s: State, t: nat, pc: Pc): State
    requires t < |s.threads|
  {
    s.(threads := s.threads[t := pc])
  }

  /** The thread is in the wait set of a condition. */
  predicate SleepsOn(cond: nat, pc: Pc) {
    pc.Sleeping? && pc.cond == cond
  }

  predicate NobodySleepsOn(cond: nat, threads: seq<Pc>) {
    forall t :: 0 <= t < |threads| ==> !SleepsOn(cond, threads[t])
  }

  function WakeIf(cond: nat, pc: Pc): Pc {
    if SleepsOn(cond, pc) then Waking else pc
  }

  function WakeAll(cond: nat, threads: seq<Pc>): seq<Pc> {
    seq(|threads|, i requires 0 <= i < |threads| => WakeIf(cond, threads[i]))
  }

  /** std::mutex::lock: only when it is free. */
  function Acquire(s: State, t: nat, pc: Pc): Option<State>
    requires t < |s.threads|
  {
    if s.owner.None? then Some(Move(s.(owner := Some(t)), t, pc)) else None
  }

  function ChooseNext(s: State, t: nat, call: Call): Option<State>
    requires t < |s.threads|
  {
    var pc := s.threads[t];
    if pc != Outside && pc != Inside then None
    else
      match call
      case Lock => if pc == Outside then Acquire(s, t, LockAssign) else None
      case Unlock => if pc == Inside then Some(Move(s.(holder := None), t, Releasing)) else None
      case Wait(cond, timed) => Some(Move(s, t, if s.holder == Some(t) then WaitClear(cond, timed) else Failed))
      case NotifyOne(cond, pick) =>
        if pick < |s.threads| && SleepsOn(cond, s.threads[pick]) then Some(Move(s, pick, Waking))
        else if NobodySleepsOn(cond, s.threads) then Some(s)
        else None
      case NotifyAll(cond) => Some(s.(threads := WakeAll(cond, s.threads)))
      case AssertLocked => if s.holder == Some(t) then Some(s) else Some(Move(s, t, Failed))
  }

  function GoNext(s: State, t: nat): Option<State>
    requires t < |s.threads|
  {
    match s.threads[t]
    case LockAssign => Some(Move(s.(holder := Some(t)), t, Inside))
    case Releasing => Some(Move(s.(owner := None), t, Outside))
    case WaitClear(cond, timed) => Some(Move(s.(holder := None), t, WaitEnter(cond, timed)))
    case WaitEnter(cond, timed) => Some(Move(s.(owner := None), t, Sleeping(cond, timed)))
    case Waking => Acquire(s, t, WaitAssign)
    case WaitAssign => Some(Move(s.(holder := Some(t)), t, Inside))
    case _ => None
  }

  function Step(s: State, a: Action): Option<State> {
    match a
    case Spawn => Some(s.(threads := s.threads + [Outside]))
    case Choose(t, call) => if t < |s.threads| then ChooseNext(s, t, call) else None
    case Go(t) => if t < |s.threads| then GoNext(s, t) else None
    case Timeout(t) =>
      if t < |s.threads| && s.threads[t].Sleeping? && s.threads[t].timed then Some(Move(s, t, Waking)) else None
    case Spurious(t) => if t < |s.threads| && s.threads[t].Sleeping? then Some(Move(s, t, Waking)) else None
  }

  ghost predicate IsGuardRun(states: seq<State>, actions: seq<Action>) {
    IsRun(Init(), Step, states, actions)
  }

  // ---- The invariant ----

  /** The thread has the std::mutex. */
  predicate Owns(pc: Pc) {
    pc.LockAssign? || pc.Releasing? || pc.WaitEnter? || pc.WaitAssign? || Holds(pc)
  }

  /** The thread is noted as the holder. */
  predicate Holds(pc: Pc) {
    pc.Inside? || pc.WaitClear?
  }

  ghost predicate Inv(s: State) {
    && (forall t :: 0 <= t < |s.threads| ==> (Owns(s.threads[t]) <==> s.owner == Some(t)))
    && (forall t :: 0 <= t < |s.threads| ==> (Holds(s.threads[t]) <==> s.holder == Some(t)))
    && (s.owner.Some? ==> s.owner.value < |s.threads|)
    && (s.holder.Some? ==> s.holder == s.owner)
  }

  /** Waking somebody up changes nobody's relation to the mutex. */
  lemma WakingKeeps(s: State, s': State)
    requires Inv(s) && |s'.threads| == |s.threads| && s'.owner == s.owner && s'.holder == s.holder
    requires forall t :: 0 <= t < |s.threads| ==>
               s'.threads[t] == s.threads[t] || (s.threads[t].Sleeping? && s'.threads[t] == Waking)
    ensures Inv(s')
  {
  }

  lemma ChooseKeeps(s: State, t: nat, call: Call)
    requires Inv(s) && t < |s.threads| && ChooseNext(s, t, call).Some?
    ensures Inv(ChooseNext(s, t, call).value)
  {
    if call.NotifyOne? || call.NotifyAll? {
      WakingKeeps(s, ChooseNext(s, t, call).value);
    }
  }

  lemma StepKeeps(s: State, a: Action)
    requires Inv(s) && Step(s, a).Some?
    ensures Inv(Step(s, a).value)
  {
    match a
    case Choose(t, call) => ChooseKeeps(s, t, call);
    case Go(t) =>
    case Spawn =>
    case _ => WakingKeeps(s, Step(s, a).value);
  }

  lemma RunKeepsInv(states: seq<State>, actions: seq<Action>, k: nat)
    requires IsGuardRun(states, actions) && k < |states|
    ensures Inv(states[k])
  {
    forall s, a | Inv(s) && Step(s, a).Some?
      ensures Inv(Step(s, a).value)
    {
      StepKeeps(s, a);
    }
    RunInvariant(Init(), Step, Inv, states, actions, k);
  }

  lemma OwnerOwns(s: State)
    requires Inv(s) && s.owner.Some?
    ensures s.owner.value < |s.threads| && Owns(s.threads[s.owner.value])
  {
  }

  // ---- Main results ----

  /**
   The holder is sound, however the lock and its conditions are used: when it is set it names the owner of the
   mutex, and every thread that is inside a guard and not in a wait is the holder, also after a wait of either
   kind has ended in whatever way.
   */
  lemma HolderIsSound(states: seq<State>, actions: seq<Action>, k: nat)
    requires IsGuardRun(states, actions) && k < |states|
    ensures var s := states[k];
      && (s.holder.Some? ==> s.holder == s.owner && s.holder.value < |s.threads| && Holds(s.threads[s.holder.value]))
      && forall t :: 0 <= t < |s.threads| && s.threads[t] == Inside ==> s.holder == Some(t)
  {
    RunKeepsInv(states, actions, k);
  }

  /**
   AssertLocked, in a wait or on its own, fails if and only if the thread that runs it is not inside a guard;
   what other threads do at the same time does not matter.
   */
  lemma AssertLockedFailsExactlyOutside(states: seq<State>, actions: seq<Action>, k: nat)
    requires IsGuardRun(states, actions) && k < |actions|
    requires actions[k].Choose? && (actions[k].call.Wait? || actions[k].call.AssertLocked?)
    ensures actions[k].t < |states[k].threads| && actions[k].t < |states[k + 1].threads|
    ensures states[k + 1].threads[actions[k].t] == Failed <==> states[k].threads[actions[k].t] == Outside
  {
    RunKeepsInv(states, actions, k);
    assert Step(states[k], actions[k]) == Some(states[k + 1]);
  }

  /** How many threads are in the wait set of a condition. */
  function Sleepers(cond: nat, threads: seq<Pc>): nat {
    Count(threads, (pc: Pc) => SleepsOn(cond, pc))
  }

  /**
   Who is woken: Notify takes one thread out of the wait set of its condition, unless nobody is in it; NotifyAll
   empties it; and nobody else's wait ends, nor does anybody get the mutex by it.
   */
  lemma NotifyWakes(states: seq<State>, actions: seq<Action>, k: nat)
    requires IsGuardRun(states, actions) && k < |actions|
    requires actions[k].Choose? && (actions[k].call.NotifyOne? || actions[k].call.NotifyAll?)
    ensures var before, after, cond := states[k].threads, states[k + 1].threads, actions[k].call.cond;
      && states[k + 1] == states[k].(threads := after) && |after| == |before|
      && (forall t :: 0 <= t < |before| ==> after[t] == before[t] || (SleepsOn(cond, before[t]) && after[t] == Waking))
      && (actions[k].call.NotifyAll? ==> Sleepers(cond, after) == 0)
      && (actions[k].call.NotifyOne? && Sleepers(cond, before) > 0 ==>
            Sleepers(cond, after) == Sleepers(cond, before) - 1)
  {
    var s, s', call := states[k], states[k + 1], actions[k].call;
    var asleep := (pc: Pc) => SleepsOn(call.cond, pc);
    assert Step(s, actions[k]) == Some(s');
    if call.NotifyAll? {
      if Sleepers(call.cond, s'.threads) > 0 {
        var t := CountWitness(s'.threads, asleep);
        assert false;
      }
    } else if Sleepers(call.cond, s.threads) > 0 {
      var t := CountWitness(s.threads, asleep);
      CountUpdate(s.threads, call.pick, Waking, asleep);
    }
  }

  /** The steps that a thread needs at most to get out of the call that it is in. */
  function Rank(pc: Pc): nat {
    match pc
    case Outside | Inside | Failed => 0
    case LockAssign | Releasing | WaitAssign => 1
    case Waking => 2
    case Sleeping(_, _) => 3
    case WaitEnter(_, _) => 4
    case WaitClear(_, _) => 5
  }

  /**
   Calls get on: every step that a thread takes in a call brings it nearer to the end of the call, and it is held up
   only by its sleep, or when it wants the mutex back from another owner.
   */
  lemma CallsGetOn(states: seq<State>, actions: seq<Action>, k: nat, t: nat)
    requires IsGuardRun(states, actions) && k < |states| && t < |states[k].threads|
    ensures var s := states[k];
      match GoNext(s, t)
      case Some(s') => |s'.threads| == |s.threads| && Rank(s'.threads[t]) < Rank(s.threads[t])
      case None => Rank(s.threads[t]) == 0 || s.threads[t].Sleeping?
                   || (s.threads[t] == Waking && s.owner.Some? && s.owner != Some(t))
  {
    RunKeepsInv(states, actions, k);
  }

  /** Mutual exclusion: no two threads are inside at once, waits in progress included. */
  lemma OneInside(states: seq<State>, actions: seq<Action>, k: nat, t: nat, u: nat)
    requires IsGuardRun(states, actions) && k < |states|
    requires t < |states[k].threads| && u < |states[k].threads|
    requires Owns(states[k].threads[t]) && Owns(states[k].threads[u])
    ensures t == u
  {
    RunKeepsInv(states, actions, k);
  }

  /** When no thread is in a guard or a wait, the assert of the destructor (m:12) holds. */
  lemma UnusedHasNoHolder(states: seq<State>, actions: seq<Action>, k: nat)
    requires IsGuardRun(states, actions) && k < |states|
    requires forall t :: 0 <= t < |states[k].threads| ==> states[k].threads[t] == Outside
    ensures states[k].holder == None && states[k].owner == None
  {
    RunKeepsInv(states, actions, k);
    if states[k].owner.Some? {
      OwnerOwns(states[k]);
      assert false;
    }
  }
}
