/**
 When the logger is overloaded. A buffer is put away only for a message that does not fit into it, so two buffers that
 follow each other are always worth one full one, and a batch of more than 25 holds at least 13 buffers' worth of text.
 */
module LogPacking {
  import opened Common
  import opened AsyncLog

  /** Of any two neighbours, the second begins with what did not fit into the first. */
  ghost predicate Packed(size: nat, buffers: seq<string>) {
    forall i :: 0 <= i < |buffers| - 1 ==> |buffers[i]| + |buffers[i + 1]| >= size
  }

  ghost predicate AllPacked(size: nat, s: State) {
    && s.cur.Some? && Packed(size, s.full + [s.cur.value])
    && forall b :: 0 <= b < |s.batches| ==> Packed(size, s.batches[b])
  }

  ghost predicate AllShort(size: nat, msgs: seq<string>) {
    forall i :: 0 <= i < |msgs| ==> |msgs[i]| < size
  }

  /** The last buffer grows. */
  lemma GrowsPacked(size: nat, buffers: seq<string>, last: string, more: string)
    requires Packed(size, buffers + [last]) && |last| <= |more|
    ensures Packed(size, buffers + [more])
  {
    var old', new' := buffers + [last], buffers + [more];
    forall i | 0 <= i < |new'| - 1
      ensures |new'[i]| + |new'[i + 1]| >= size
    {
      assert |old'[i]| + |old'[i + 1]| >= size;
    }
  }

  /** One more buffer is begun. */
  lemma BeginsPacked(size: nat, buffers: seq<string>, last: string, next: string)
    requires Packed(size, buffers + [last]) && |last| + |next| >= size
    ensures Packed(size, buffers + [last] + [next])
  {
    var old', new' := buffers + [last], buffers + [last] + [next];
    forall i | 0 <= i < |new'| - 1
      ensures |new'[i]| + |new'[i + 1]| >= size
    {
      assert i < |buffers| ==> |old'[i]| + |old'[i + 1]| >= size;
    }
  }

  lemma AppendKeepsPacked(cfg: Config, s: State, msg: string)
    requires cfg.Valid() && Spares(cfg, s) && AllPacked(cfg.size, s) && |msg| < cfg.size
    requires s.pc != Holding && s.pc != Aborted
    ensures AllPacked(cfg.size, AppendNext(cfg, s, msg))
  {
    ToInt32Small(|msg|);
    var s' := AppendNext(cfg, s, msg);
    if cfg.size - |s.cur.value| > |msg| {
      GrowsPacked(cfg.size, s.full, s.cur.value, s'.cur.value);
    } else {
      assert s'.cur.value == "" + msg == msg;
      BeginsPacked(cfg.size, s.full, s.cur.value, msg);
    }
  }

  lemma BackendKeepsPacked(cfg: Config, s: State, stamp: string)
    requires Spares(cfg, s) && AllPacked(cfg.size, s) && BackendNext(cfg, s, stamp).Some?
    ensures AllPacked(cfg.size, BackendNext(cfg, s, stamp).value)
  {
    if s.pc == Holding {
      assert SwapNext(s).full + [""] == [""];
    }
  }

  lemma {:induction false} RunIsPacked(cfg: Config, states: seq<State>, actions: seq<Action>, k: nat)
    requires cfg.Valid() && IsLogRun(cfg, states, actions) && k < |states| && AllShort(cfg.size, states[k].offered)
    ensures AllPacked(cfg.size, states[k])
  {
    if k == 0 {
    } else {
      var i := k - 1;
      var s, a, s' := states[i], actions[i], states[i + 1];
      assert Step(cfg, s, a) == Some(s');
      RunKeepsInv(cfg, states, actions, i);
      NeverAborts(cfg, states, actions, i);
      OfferedBefore(cfg, s, a, s');
      RunIsPacked(cfg, states, actions, i);
      StepKeepsPacked(cfg, s, a, s');
    }
  }

  lemma OfferedBefore(cfg: Config, s: State, a: Action, s': State)
    requires Step(cfg, s, a) == Some(s') && AllShort(cfg.size, s'.offered) && s.cur.Some?
    ensures AllShort(cfg.size, s.offered) && (a.Append? ==> |a.msg| < cfg.size)
  {
    if a.Append? {
      assert s'.offered == s.offered + [a.msg];
      assert s'.offered[|s.offered|] == a.msg;
    }
    forall i | 0 <= i < |s.offered|
      ensures |s.offered[i]| < cfg.size
    {
      assert s'.offered[i] == s.offered[i];
    }
  }

  lemma StepKeepsPacked(cfg: Config, s: State, a: Action, s': State)
    requires cfg.Valid() && Spares(cfg, s) && s.pc != Aborted && AllPacked(cfg.size, s)
    requires Step(cfg, s, a) == Some(s') && (a.Append? ==> |a.msg| < cfg.size)
    ensures AllPacked(cfg.size, s')
  {
    match a
    case Append(msg) => AppendKeepsPacked(cfg, s, msg);
    case Backend(stamp) => BackendKeepsPacked(cfg, s, stamp);
    case _ =>
  }

  // ---- Main results ----

  lemma {:induction false} PackedHoldsHalf(size: nat, buffers: seq<string>)
    requires Packed(size, buffers)
    ensures |Join(buffers)| >= |buffers| / 2 * size
  {
    var n := |buffers|;
    if n < 2 {
    } else {
      PackedHoldsHalf(size, buffers[..n - 2]);
      assert |buffers[n - 2]| + |buffers[n - 2 + 1]| >= size;
      assert buffers == buffers[..n - 2] + [buffers[n - 2]] + [buffers[n - 1]];
      JoinSnoc(buffers[..n - 2] + [buffers[n - 2]], buffers[n - 1]);
      JoinSnoc(buffers[..n - 2], buffers[n - 2]);
      HalfMore(n, size);
    }
  }

  lemma HalfMore(n: nat, size: nat)
    requires n >= 2
    ensures n / 2 * size == (n - 2) / 2 * size + size
  {
    assert n / 2 == (n - 2) / 2 + 1;
  }

  /**
   Messages are dropped only under real load. While every message is shorter than a buffer, every batch of a run, of
   whatever length, holds at least half of its buffers' size in text: so one that is over 25 buffers, of which all but
   two are dropped, holds 13 buffers' worth or more.
   */
  lemma OverloadIsReal(cfg: Config, states: seq<State>, actions: seq<Action>, k: nat, b: nat)
    requires cfg.Valid() && IsLogRun(cfg, states, actions) && k < |states|
    requires AllShort(cfg.size, states[k].offered) && b < |states[k].batches|
    ensures |Join(states[k].batches[b])| >= |states[k].batches[b]| / 2 * cfg.size
    ensures |states[k].batches[b]| > 25 ==> |Join(states[k].batches[b])| >= 13 * cfg.size
  {
    RunIsPacked(cfg, states, actions, k);
    PackedHoldsHalf(cfg.size, states[k].batches[b]);
    if |states[k].batches[b]| > 25 {
      Thirteen(|states[k].batches[b]| / 2, cfg.size);
    }
  }

  lemma Thirteen(n: nat, size: nat)
    requires n >= 13
    ensures n * size >= 13 * size
  {
  }
}
