/**
 The backend of the logger does not rest: until Stop is called it goes round its loop, whatever the producers do, and
 each round brings to the file what was accepted before; after Stop it leaves at its next loop test.
 */
module LogCycles {
  import opened Common
  import opened AsyncLog

  // ---- When the backend leaves ----

  ghost predicate WasStopped(actions: seq<Action>, k: nat)
    requires k <= |actions|
  {
    exists i :: 0 <= i < k && actions[i] == Stop
  }

  lemma StepStops(cfg: Config, s: State, a: Action, s': State)
    requires s.pc == NotStarted ==> !s.running
    requires s.pc == Exited ==> !s.running
    requires Step(cfg, s, a) == Some(s') && s'.pc != Aborted
    ensures s'.pc == NotStarted ==> !s'.running
    ensures s'.pc == Exited ==> !s'.running
    ensures (s'.pc != NotStarted && !s'.running) <==> a == Stop || (s.pc != NotStarted && !s.running)
  {
  }

  /** The flag is down exactly from Stop on, and nobody but Stop makes the backend return. */
  lemma {:induction false} RunsUntilStopped(cfg: Config, states: seq<State>, actions: seq<Action>, k: nat)
    requires cfg.Valid() && IsLogRun(cfg, states, actions) && k < |states|
    ensures WasStopped(actions, k) <==> states[k].pc != NotStarted && !states[k].running
    ensures states[k].pc == Exited || states[k].pc == NotStarted ==> !states[k].running
  {
    if k == 0 {
    } else {
      var i := k - 1;
      RunsUntilStopped(cfg, states, actions, i);
      NeverAborts(cfg, states, actions, k);
      StepStops(cfg, states[i], actions[i], states[i + 1]);
    }
  }

  /**
   Until Stop is called the backend, once it is started, can always take a step, and it never returns; after that its
   next loop test is its last.
   */
  lemma BackendGoesOn(cfg: Config, states: seq<State>, actions: seq<Action>, k: nat, stamp: string)
    requires cfg.Valid() && IsLogRun(cfg, states, actions) && k < |states|
    ensures states[k].pc == Exited ==> WasStopped(actions, k)
    ensures BackendNext(cfg, states[k], stamp).Some? <==> states[k].pc != NotStarted && states[k].pc != Exited
    ensures BackendNext(cfg, states[k], stamp).Some? ==>
              (BackendNext(cfg, states[k], stamp).value.pc == Exited <==>
               states[k].pc == LoopTest && WasStopped(actions, k))
  {
    RunsUntilStopped(cfg, states, actions, k);
    NeverAborts(cfg, states, actions, k);
  }

  /** The backend falls asleep exactly when it finds no full buffer, and whoever has slept goes on to the swap. */
  lemma SleepsExactlyWhenNothingIsFull(cfg: Config, states: seq<State>, actions: seq<Action>, k: nat)
    requires cfg.Valid() && IsLogRun(cfg, states, actions) && k < |actions| && actions[k].Backend?
    ensures states[k + 1].pc == Sleeping <==> states[k].pc == WantLock && states[k].full == []
    ensures states[k + 1].pc == Holding <==>
              states[k].pc == Sleeping || (states[k].pc == WantLock && states[k].full != [])
    ensures states[k].pc == Holding <==> states[k + 1].pc == Swapped
  {
    NeverAborts(cfg, states, actions, k + 1);
    assert Step(cfg, states[k], actions[k]) == Some(states[k + 1]);
  }

  // ---- Steps that are left ----

  /** The steps of the backend up to its next loop test, if nobody appends anything meanwhile. */
  function Left(s: State): nat {
    match s.pc
    case NotStarted | Exited | Aborted => 0
    case Refill => 1
    case Writing(i) => if i <= |s.batch| then |s.batch| - i + 2 else 2
    case Swapped => |s.batch| + 3
    case Holding => |s.full| + 5
    case Sleeping => |s.full| + 6
    case WantLock => |s.full| + 7
    case LoopTest => |s.full| + 8
  }

  /** A batch is in hand: what was accepted since is written only in the next round. */
  predicate InHand(pc: BackendPc) {
    pc.Swapped? || pc.Writing? || pc.Refill?
  }

  /** The steps of the backend until what is accepted now has been written. */
  function ToWritten(s: State): nat {
    if InHand(s.pc) then Left(s) + |s.full| + 8 else Left(s)
  }

  /** The loop is left or gone round. */
  predicate Working(s: State) {
    s.pc != NotStarted && s.pc != Exited && s.pc != Aborted
  }

  lemma AppendAdds(cfg: Config, s: State, msg: string)
    requires s.cur.Some? && Working(s)
    ensures var s' := AppendNext(cfg, s, msg);
      s'.pc == s.pc && Left(s') <= Left(s) + 1 && ToWritten(s') <= ToWritten(s) + 1
      && (InHand(s.pc) ==> Left(s') == Left(s))
  {
  }

  lemma BackendUsesUp(cfg: Config, s: State, stamp: string, s': State)
    requires Spares(cfg, s) && Working(s) && BackendNext(cfg, s, stamp) == Some(s') && Working(s')
    ensures s.pc == Holding ==> s'.pc == Swapped && Left(s') + 1 <= ToWritten(s)
    ensures s.pc != Holding ==> ToWritten(s') + 1 <= ToWritten(s)
    ensures InHand(s.pc) ==> s'.pc == LoopTest || (InHand(s'.pc) && Left(s') + 1 <= Left(s))
  {
  }

  // ---- Rounds ----

  /** The steps of the backend, and the calls of Append, among the actions from `j` up to `k`. */
  function Turns(actions: seq<Action>, j: nat, k: nat): nat
    requires j <= k <= |actions|
    decreases k
  {
    if j == k then 0 else Turns(actions, j, k - 1) + (if actions[k - 1].Backend? then 1 else 0)
  }

  function Appends(actions: seq<Action>, j: nat, k: nat): nat
    requires j <= k <= |actions|
    decreases k
  {
    if j == k then 0 else Appends(actions, j, k - 1) + (if actions[k - 1].Append? then 1 else 0)
  }

  /** In step `i` the backend swaps the buffers. */
  predicate SwapsAt(states: seq<State>, i: nat)
    requires i + 1 < |states|
  {
    states[i].pc == Holding && states[i + 1].pc == Swapped
  }

  ghost predicate SwappedBetween(states: seq<State>, j: nat, k: nat)
    requires j <= k < |states|
  {
    exists i :: j <= i < k && SwapsAt(states, i)
  }

  /** Between `j` and `k` the backend has swapped the buffers, and come back to its loop test after that. */
  ghost predicate WentRound(states: seq<State>, j: nat, k: nat)
    requires j <= k < |states|
  {
    exists m :: j <= m <= k && states[m].pc == LoopTest && SwappedBetween(states, j, m)
  }

  /** Where a stretch of a run stands that was to take `bound` steps of the backend. */
  ghost predicate OnTheWay(states: seq<State>, j: nat, k: nat, turns: nat, bound: nat)
    requires j <= k < |states|
  {
    || WentRound(states, j, k)
    || (InHand(states[k].pc) && SwappedBetween(states, j, k) && turns + Left(states[k]) <= bound)
    || turns + ToWritten(states[k]) <= bound
  }

  lemma StepOfRun(cfg: Config, states: seq<State>, actions: seq<Action>, i: nat)
    requires cfg.Valid() && IsLogRun(cfg, states, actions) && i < |actions|
    ensures Spares(cfg, states[i]) && Step(cfg, states[i], actions[i]) == Some(states[i + 1])
    ensures states[i + 1].pc != Aborted
  {
    RunKeepsInv(cfg, states, actions, i);
    NeverAborts(cfg, states, actions, i + 1);
  }

  lemma SwapStays(states: seq<State>, j: nat, k: nat)
    requires j <= k && k + 1 < |states|
    ensures SwappedBetween(states, j, k) ==> SwappedBetween(states, j, k + 1)
    ensures WentRound(states, j, k) ==> WentRound(states, j, k + 1)
  {
    if SwappedBetween(states, j, k) {
      var i :| j <= i < k && SwapsAt(states, i);
      assert SwapsAt(states, i);
    }
    if WentRound(states, j, k) {
      var m :| j <= m <= k && states[m].pc == LoopTest && SwappedBetween(states, j, m);
      assert m <= k + 1 && SwappedBetween(states, j, m);
    }
  }

  lemma StepOnTheWay(cfg: Config, states: seq<State>, j: nat, k: nat, a: Action, turns: nat, bound: nat)
    requires j <= k && k + 1 < |states| && Spares(cfg, states[k]) && Working(states[k]) && Working(states[k + 1])
    requires Step(cfg, states[k], a) == Some(states[k + 1]) && a != Stop && OnTheWay(states, j, k, turns, bound)
    ensures OnTheWay(states, j, k + 1, turns + (if a.Backend? then 1 else 0), bound + (if a.Append? then 1 else 0))
  {
    SwapStays(states, j, k);
    match a
    case Append(msg) => AppendAdds(cfg, states[k], msg);
    case Backend(stamp) =>
      BackendUsesUp(cfg, states[k], stamp, states[k + 1]);
      if states[k].pc == Holding {
        assert SwapsAt(states, k);
      }
      if states[k + 1].pc == LoopTest && SwappedBetween(states, j, k + 1) {
        assert WentRound(states, j, k + 1);
      }
    case _ =>
  }

  /** A backend that was started and not stopped is working. */
  lemma {:induction false} KeepsWorking(cfg: Config, states: seq<State>, actions: seq<Action>, j: nat, k: nat)
    requires cfg.Valid() && IsLogRun(cfg, states, actions) && j <= k < |states|
    requires states[j].pc != NotStarted && !WasStopped(actions, k)
    ensures Working(states[k])
    decreases k
  {
    NeverAborts(cfg, states, actions, k);
    RunsUntilStopped(cfg, states, actions, k);
    if j == k {
    } else {
      KeepsWorking(cfg, states, actions, j, k - 1);
      StaysStarted(cfg, states[k - 1], actions[k - 1], states[k - 1 + 1]);
    }
  }

  lemma StaysStarted(cfg: Config, s: State, a: Action, s': State)
    requires s.pc != NotStarted && Step(cfg, s, a) == Some(s')
    ensures s'.pc != NotStarted
  {
  }

  lemma OneMore(actions: seq<Action>, j: nat, i: nat)
    requires j <= i < |actions|
    ensures Turns(actions, j, i + 1) == Turns(actions, j, i) + (if actions[i].Backend? then 1 else 0)
    ensures Appends(actions, j, i + 1) == Appends(actions, j, i) + (if actions[i].Append? then 1 else 0)
  {
  }

  lemma NextOnTheWay(cfg: Config, states: seq<State>, actions: seq<Action>, j: nat, i: nat, turns: nat, bound: nat)
    requires cfg.Valid() && IsLogRun(cfg, states, actions) && j <= i < |actions|
    requires states[j].pc != NotStarted && !WasStopped(actions, i + 1) && OnTheWay(states, j, i, turns, bound)
    ensures OnTheWay(states, j, i + 1, turns + (if actions[i].Backend? then 1 else 0),
                     bound + (if actions[i].Append? then 1 else 0))
  {
    KeepsWorking(cfg, states, actions, j, i);
    KeepsWorking(cfg, states, actions, j, i + 1);
    StepOfRun(cfg, states, actions, i);
    StepOnTheWay(cfg, states, j, i, actions[i], turns, bound);
  }

  lemma {:induction false} StaysOnTheWay(cfg: Config, states: seq<State>, actions: seq<Action>, j: nat, k: nat)
    requires cfg.Valid() && IsLogRun(cfg, states, actions) && j <= k < |states|
    requires states[j].pc != NotStarted && !WasStopped(actions, k)
    ensures OnTheWay(states, j, k, Turns(actions, j, k), ToWritten(states[j]) + Appends(actions, j, k))
    decreases k
  {
    if j == k {
    } else {
      var i := k - 1;
      var turns, bound := Turns(actions, j, i), ToWritten(states[j]) + Appends(actions, j, i);
      StaysOnTheWay(cfg, states, actions, j, i);
      NextOnTheWay(cfg, states, actions, j, i, turns, bound);
      OneMore(actions, j, i);
    }
  }

  // ---- What a round writes ----

  /** Batches, records and messages are only added. */
  lemma StepAdds(cfg: Config, s: State, a: Action, s': State)
    requires Step(cfg, s, a) == Some(s')
    ensures s.batches <= s'.batches && s.sink <= s'.sink && s.offered <= s'.offered
  {
  }

  lemma {:induction false} RunAdds(cfg: Config, states: seq<State>, actions: seq<Action>, j: nat, k: nat)
    requires IsLogRun(cfg, states, actions) && j <= k < |states|
    ensures states[j].batches <= states[k].batches && states[j].sink <= states[k].sink
    ensures states[j].offered <= states[k].offered
    decreases k
  {
    if j == k {
    } else {
      RunAdds(cfg, states, actions, j, k - 1);
      StepAdds(cfg, states[k - 1], actions[k - 1], states[k - 1 + 1]);
    }
  }

  lemma {:induction false} JoinAllGrows(a: seq<seq<string>>, b: seq<seq<string>>)
    requires a <= b
    ensures JoinAll(a) <= JoinAll(b)
  {
    if |a| == |b| {
      assert a == b;
    } else {
      JoinAllGrows(a, b[..|b| - 1]);
    }
  }

  lemma {:induction false} JoinGrows(a: seq<string>, b: seq<string>)
    requires a <= b
    ensures Join(a) <= Join(b)
  {
    if |a| == |b| {
      assert a == b;
    } else {
      JoinGrows(a, b[..|b| - 1]);
    }
  }

  lemma {:induction false} AcceptedGrows(size: nat, a: seq<string>, b: seq<string>)
    requires a <= b
    ensures Accepted(size, a) <= Accepted(size, b)
  {
    if |a| == |b| {
      assert a == b;
    } else {
      AcceptedGrows(size, a, b[..|b| - 1]);
    }
  }

  /** Right after a swap everything accepted so far is in a batch. */
  lemma SwapTakesAll(cfg: Config, s: State, s': State)
    requires Inv(cfg, s) && s.pc == Holding && s' == SwapNext(s) && Inv(cfg, s')
    ensures JoinAll(s'.batches) == Accepted(cfg.size, s.offered)
  {
    assert s'.full == [] && s'.cur == Some("");
    assert JoinAll(s'.batches) + "" + "" == JoinAll(s'.batches);
  }

  /** At the loop test every batch has been written, if none was over 25 buffers. */
  lemma TestFindsAllWritten(cfg: Config, s: State)
    requires Inv(cfg, s) && s.pc == LoopTest && NoOverload(s)
    ensures Join(s.sink) == JoinAll(s.batches)
  {
    EmitWithoutOverload(cfg, s.batches, s.stamps);
    assert s.batches[..|s.batches|] == s.batches;
    assert s.sink + [] == s.sink;
  }

  /** One round: without overload, what was accepted up to the swap is in the file at the next loop test. */
  lemma RoundWrites(cfg: Config, states: seq<State>, actions: seq<Action>, i: nat, m: nat)
    requires cfg.Valid() && IsLogRun(cfg, states, actions) && i < m < |states|
    requires SwapsAt(states, i) && states[m].pc == LoopTest && NoOverload(states[m])
    ensures Accepted(cfg.size, states[i].offered) <= Join(states[m].sink)
  {
    RunKeepsInv(cfg, states, actions, i);
    RunKeepsInv(cfg, states, actions, i + 1);
    RunKeepsInv(cfg, states, actions, m);
    SwapIs(cfg, states[i], actions[i], states[i + 1]);
    SwapTakesAll(cfg, states[i], states[i + 1]);
    RunAdds(cfg, states, actions, i + 1, m);
    JoinAllGrows(states[i + 1].batches, states[m].batches);
    TestFindsAllWritten(cfg, states[m]);
  }

  lemma SwapIs(cfg: Config, s: State, a: Action, s': State)
    requires s.pc == Holding && s'.pc == Swapped && Step(cfg, s, a) == Some(s')
    ensures s' == SwapNext(s)
  {
  }

  lemma FewerOverloads(s: State, t: State)
    requires s.batches <= t.batches && NoOverload(t)
    ensures NoOverload(s)
  {
    forall b | 0 <= b < |s.batches|
      ensures |s.batches[b]| <= 25
    {
      assert s.batches[b] == t.batches[b];
    }
  }

  // ---- Main results ----

  /**
   Nothing waits for ever. Take any stretch of any run of a logger that has been started and not been stopped. Once
   the backend has taken as many steps in it as it had left at the beginning, and one more for each Append meanwhile,
   it has swapped the buffers and come round again; and without overload everything accepted before is in the file.
   */
  lemma EverythingIsWritten(cfg: Config, states: seq<State>, actions: seq<Action>, j: nat, k: nat)
    requires cfg.Valid() && IsLogRun(cfg, states, actions) && j <= k < |states|
    requires states[j].pc != NotStarted && !WasStopped(actions, k)
    requires Turns(actions, j, k) >= ToWritten(states[j]) + Appends(actions, j, k)
    ensures WentRound(states, j, k)
    ensures NoOverload(states[k]) ==> Accepted(cfg.size, states[j].offered) <= Join(states[k].sink)
  {
    StaysOnTheWay(cfg, states, actions, j, k);
    KeepsWorking(cfg, states, actions, j, k);
    assert WentRound(states, j, k);
    if NoOverload(states[k]) {
      var m :| j <= m <= k && states[m].pc == LoopTest && SwappedBetween(states, j, m);
      var i :| j <= i < m && SwapsAt(states, i);
      RunAdds(cfg, states, actions, m, k);
      FewerOverloads(states[m], states[k]);
      RoundWrites(cfg, states, actions, i, m);
      RunAdds(cfg, states, actions, j, i);
      AcceptedGrows(cfg.size, states[j].offered, states[i].offered);
      JoinGrows(states[m].sink, states[k].sink);
    }
  }

  /** The steps of a backend that has been stopped, until it has returned. */
  function ToExit(s: State): nat {
    if s.pc == LoopTest then 1 else if Working(s) then Left(s) + 1 else 0
  }

  lemma StepToExit(cfg: Config, s: State, a: Action, s': State)
    requires Spares(cfg, s) && s.pc != NotStarted && !s.running && Step(cfg, s, a) == Some(s') && s'.pc != Aborted
    ensures ToExit(s') + (if a.Backend? then 1 else 0) <= ToExit(s) + (if a.Append? then 1 else 0)
  {
    match a
    case Append(msg) =>
      if Working(s) {
        AppendAdds(cfg, s, msg);
      }
    case Backend(stamp) => BackendNearsExit(cfg, s, stamp, s');
    case _ =>
  }

  lemma BackendNearsExit(cfg: Config, s: State, stamp: string, s': State)
    requires Spares(cfg, s) && s.pc != NotStarted && !s.running
    requires BackendNext(cfg, s, stamp) == Some(s') && s'.pc != Aborted
    ensures ToExit(s') + 1 <= ToExit(s)
  {
  }

  lemma {:induction false} NearsExit(cfg: Config, states: seq<State>, actions: seq<Action>, j: nat, k: nat)
    requires cfg.Valid() && IsLogRun(cfg, states, actions) && j <= k < |states| && WasStopped(actions, j)
    ensures Turns(actions, j, k) + ToExit(states[k]) <= ToExit(states[j]) + Appends(actions, j, k)
    decreases k
  {
    if j == k {
    } else {
      var i := k - 1;
      NearsExit(cfg, states, actions, j, i);
      assert WasStopped(actions, i);
      RunsUntilStopped(cfg, states, actions, i);
      StepOfRun(cfg, states, actions, i);
      StepToExit(cfg, states[i], actions[i], states[i + 1]);
    }
  }

  /**
   Stop ends the backend: it takes no more steps than were left to its next loop test, and one for each Append
   meanwhile, and when it has taken them it has returned.
   */
  lemma StopEndsTheBackend(cfg: Config, states: seq<State>, actions: seq<Action>, j: nat, k: nat)
    requires cfg.Valid() && IsLogRun(cfg, states, actions) && j <= k < |states| && WasStopped(actions, j)
    ensures Turns(actions, j, k) <= ToExit(states[j]) + Appends(actions, j, k)
    ensures Turns(actions, j, k) == ToExit(states[j]) + Appends(actions, j, k) ==> states[k].pc == Exited
  {
    NearsExit(cfg, states, actions, j, k);
    assert WasStopped(actions, k);
    RunsUntilStopped(cfg, states, actions, k);
    NeverAborts(cfg, states, actions, k);
  }
}
