/**
 src/logger/async_logging.cpp as an interleaved step machine: any number of producers, which run
 Append under the mutex, and one backend thread, which drops the mutex while it sleeps.
 A buffer is represented here by what has been written into it; the class beside this machine is in module
 AsyncLogging, which shows that the program on buffer objects makes exactly these steps.
 */
module AsyncLog {
  import opened Common

  const MAX_BATCH: nat := 25
  const KEPT: nat := 2

  /** Where the backend thread stands; numbers are lines of src/logger/async_logging.cpp. */
  datatype BackendPc =
    | NotStarted
    | LoopTest        // 69
    | WantLock        // 77
    | Sleeping        // 79: the mutex is free
    | Holding         // 80: has the mutex
    | Swapped         // 87: has a batch, the mutex is free
    | Writing(i: nat) // 100: i buffers of the batch are written
    | Refill          // 104
    | Exited          // 122
    | Aborted         // an assert failed, or a null buffer was used

  datatype State = State(
    cur: Option<string>,       // current_buffer_
    next: Option<string>,      // next_buffer_
    full: seq<string>,         // buffers_
    new1: Option<string>,      // new_buffer_1
    new2: Option<string>,      // new_buffer_2
    batch: seq<string>,        // buffers_to_write
    pc: BackendPc,
    running: bool,
    sink: seq<string>,         // the records handed to the log file, in order
    batches: seq<seq<string>>, // every batch swapped out so far, before any cut
    stamps: seq<string>,       // the clock text read for each batch that was examined
    offered: seq<string>       // every message passed to Append, in lock order
  )

  datatype Action =
    | Append(msg: string)
    | Start
    | Stop
    | Backend(stamp: string)

  /** The size of a buffer, and the text of the drop notice for a clock reading and a number of buffers. */
  datatype Config = Config(size: nat, notice: (string, nat) -> string) {
    /** The size is a positive int. */
    predicate Valid() {
      0 < size < 0x8000_0000
    }

    /** The notice that stands for the buffers that are dropped from a batch. */
    function NoticeFor(stamp: string, buffers: nat): string
      requires buffers >= KEPT
    {
      notice(stamp, buffers - KEPT)
    }
  }

  function Init(): State {
    State(Some(""), Some(""), [], None, None, [], NotStarted, false, [], [], [], [])
  }

  /** static_cast<int> of a size. */
  function ToInt32(n: nat): int {
    var m := n % 0x1_0000_0000;
    if m < 0x8000_0000 then m else m - 0x1_0000_0000
  }

  /** FixedBuffer::Append. */
  function Put(size: nat, contents: string, msg: string): string {
    if size - |contents| > |msg| then contents + msg else contents
  }

  /** Lines 45 to 57: one call of Append, which holds the mutex throughout. */
  function AppendNext(cfg: Config, s: State, msg: string): State {
    if s.cur.None? then s.(pc := Aborted)
    else if cfg.size - |s.cur.value| > ToInt32(|msg|)
    then s.(cur := Some(Put(cfg.size, s.cur.value, msg)), offered := s.offered + [msg])
    else Rotate(cfg, s, msg)
  }

  /** Lines 49 to 56: the current buffer is full. */
  function Rotate(cfg: Config, s: State, msg: string): State
    requires s.cur.Some?
  {
    var spare := if s.next.Some? then s.next.value else "";
    s.(full := s.full + [s.cur.value], next := None, cur := Some(Put(cfg.size, spare, msg)),
       offered := s.offered + [msg])
  }

  /** Lines 80 to 84: the swap, under the mutex. */
  function SwapNext(s: State): State {
    if s.cur.None? then s.(pc := Aborted)
    else
      var batch := s.full + [s.cur.value];
      s.(cur := s.new1, new1 := None, full := s.batch, batch := batch, batches := s.batches + [batch],
         next := if s.next.None? then s.new2 else s.next,
         new2 := if s.next.None? then None else s.new2,
         pc := Swapped)
  }

  /** Lines 87 to 98: the overload policy. */
  function ExamineNext(cfg: Config, s: State, stamp: string): State {
    if s.batch == [] then s.(pc := Aborted)
    else if |s.batch| > MAX_BATCH then
      s.(sink := s.sink + [cfg.NoticeFor(stamp, |s.batch|)], batch := s.batch[..KEPT],
         stamps := s.stamps + [stamp], pc := Writing(0))
    else s.(stamps := s.stamps + [stamp], pc := Writing(0))
  }

  /** Lines 100 to 102: one turn of the writing loop, or its end. */
  function WriteNext(s: State, i: nat): State {
    if i < |s.batch| then s.(sink := s.sink + [s.batch[i]], pc := Writing(i + 1)) else s.(pc := Refill)
  }

  /** Lines 104 to 118: the spares are refilled from the back of the batch. */
  function RefillNext(s: State): State {
    if s.new1.None? && s.batch == [] then s.(pc := Aborted)
    else
      var left := if s.new1.None? then s.batch[..|s.batch| - 1] else s.batch;
      if s.new2.None? && left == [] then s.(pc := Aborted)
      else s.(new1 := if s.new1.None? then Some("") else s.new1,
              new2 := if s.new2.None? then Some("") else s.new2,
              batch := [], pc := LoopTest)
  }

  /** One step of the backend thread. The wake-up at Sleeping is a notify, a timeout, or spurious. */
  function BackendNext(cfg: Config, s: State, stamp: string): Option<State> {
    match s.pc
    case NotStarted | Exited | Aborted => None
    case LoopTest =>
      if !s.running then Some(s.(pc := Exited))
      else if s.new1 == Some("") && s.new2 == Some("") && s.batch == [] then Some(s.(pc := WantLock))
      else Some(s.(pc := Aborted))
    case WantLock => Some(s.(pc := if s.full == [] then Sleeping else Holding))
    case Sleeping => Some(s.(pc := Holding))
    case Holding => Some(SwapNext(s))
    case Swapped => Some(ExamineNext(cfg, s, stamp))
    case Writing(i) => Some(WriteNext(s, i))
    case Refill => Some(RefillNext(s))
  }

  function Step(cfg: Config, s: State, a: Action): Option<State> {
    match a
    case Append(msg) =>
      if s.pc != Holding && s.pc != Aborted then Some(AppendNext(cfg, s, msg)) else None
    case Start =>
      if s.pc == NotStarted
      then Some(s.(running := true, new1 := Some(""), new2 := Some(""), pc := LoopTest)) else None
    case Stop => if s.pc != NotStarted then Some(s.(running := false)) else None
    case Backend(stamp) => BackendNext(cfg, s, stamp)
  }

  ghost predicate IsLogRun(cfg: Config, states: seq<State>, actions: seq<Action>) {
    IsRun(Init(), (s: State, a: Action) => Step(cfg, s, a), states, actions)
  }

  // ---- What the machine should achieve, stated without it ----

  function JoinAll(batches: seq<seq<string>>): string {
    if batches == [] then "" else JoinAll(batches[..|batches| - 1]) + Join(batches[|batches| - 1])
  }

  /** The messages that a buffer can hold at all, concatenated in order; longer ones are never logged. */
  function Accepted(size: nat, msgs: seq<string>): string {
    if msgs == [] then ""
    else
      var msg := msgs[|msgs| - 1];
      Accepted(size, msgs[..|msgs| - 1]) + (if |msg| < size then msg else "")
  }

  /** What the file gets from one batch: all of it, or the notice and its first two buffers. */
  function Emit(cfg: Config, batch: seq<string>, stamp: string): seq<string> {
    if |batch| > MAX_BATCH then [cfg.NoticeFor(stamp, |batch|)] + batch[..KEPT] else batch
  }

  function EmitAll(cfg: Config, batches: seq<seq<string>>, stamps: seq<string>): seq<string>
    requires |stamps| <= |batches|
    decreases |stamps|
  {
    if stamps == [] then []
    else
      var n := |stamps| - 1;
      EmitAll(cfg, batches, stamps[..n]) + Emit(cfg, batches[n], stamps[n])
  }

  /** The buffers of the batch in hand that are still to be written. */
  function Unwritten(s: State): seq<string> {
    match s.pc
    case Swapped => s.batch
    case Writing(i) => if i <= |s.batch| then s.batch[i..] else []
    case _ => []
  }

  // ---- The invariant ----

  /** Which of the four spare places are filled, and that spares are empty. */
  ghost predicate Spares(cfg: Config, s: State) {
    && s.cur.Some? && |s.cur.value| <= cfg.size
    && (s.next.Some? <==> s.full == [])
    && (s.next.Some? ==> s.next.value == "")
    && (s.new1.Some? ==> s.new1.value == "") && (s.new2.Some? ==> s.new2.value == "")
    && (match s.pc
        case NotStarted => s.new1.None? && s.new2.None? && s.batch == []
        case LoopTest | WantLock | Sleeping | Holding => s.new1.Some? && s.new2.Some? && s.batch == []
        case Swapped | Writing(_) | Refill =>
          s.new1.None? && s.batch != [] && (s.new2.None? ==> |s.batch| >= 2)
        case Exited => s.batch == []
        case Aborted => false)
  }

  /** Joining what was swapped out, what is full and what is current. */
  function Logged(s: State): string
    requires s.cur.Some?
  {
    JoinAll(s.batches) + Join(s.full) + s.cur.value
  }

  /** Nothing accepted is lost before it is swapped out. */
  ghost predicate Conserved(cfg: Config, s: State) {
    s.cur.Some? && Logged(s) == Accepted(cfg.size, s.offered)
  }

  /** The file is what the policy emits for every batch examined, less what is still to be written. */
  ghost predicate Written(cfg: Config, s: State) {
    && |s.stamps| == |s.batches| - (if s.pc == Swapped then 1 else 0)
    && (s.pc == Swapped ==> s.batch == s.batches[|s.batches| - 1])
    && (s.pc.Writing? ==> s.pc.i <= |s.batch|)
    && (if s.pc == Swapped then s.sink == EmitAll(cfg, s.batches, s.stamps)
        else s.sink + Unwritten(s) == EmitAll(cfg, s.batches, s.stamps))
  }

  ghost predicate Inv(cfg: Config, s: State) {
    Spares(cfg, s) && Conserved(cfg, s) && Written(cfg, s)
  }

  // ---- Preservation ----

  lemma ToInt32Small(n: nat)
    requires n < 0x8000_0000
    ensures ToInt32(n) == n
  {
  }

  lemma AcceptedSnoc(size: nat, msgs: seq<string>, msg: string)
    ensures Accepted(size, msgs + [msg]) == Accepted(size, msgs) + (if |msg| < size then msg else "")
  {
    assert (msgs + [msg])[..|msgs|] == msgs;
  }

  /** A message that fits into the current buffer goes to the end of everything logged so far. */
  lemma PutLogs(cfg: Config, s: State, msg: string)
    requires s.cur.Some?
    ensures var s' := s.(cur := Some(Put(cfg.size, s.cur.value, msg)));
      Logged(s') == Logged(s) + (if cfg.size - |s.cur.value| > |msg| then msg else "")
  {
    var before := JoinAll(s.batches) + Join(s.full);
    Assoc(before, s.cur.value, msg);
    Assoc(before, s.cur.value, "");
    assert s.cur.value + "" == s.cur.value;
  }

  /** Turning a full buffer over loses nothing and keeps the order. */
  lemma RotateLogs(cfg: Config, s: State, msg: string)
    requires s.cur.Some? && (s.next.Some? ==> s.next.value == "")
    ensures Logged(Rotate(cfg, s, msg)) == Logged(s) + (if |msg| < cfg.size then msg else "")
  {
    var s' := Rotate(cfg, s, msg);
    JoinSnoc(s.full, s.cur.value);
    Assoc(JoinAll(s.batches), Join(s.full), s.cur.value);
    assert Put(cfg.size, "", msg) == if |msg| < cfg.size then msg else "" by {
      assert "" + msg == msg;
    }
  }

  /** Appending keeps everything accepted in its place, and adds the message if a buffer can hold it. */
  lemma AppendKeeps(cfg: Config, s: State, msg: string)
    requires cfg.Valid() && Spares(cfg, s) && Conserved(cfg, s)
    requires s.pc != Holding && s.pc != Aborted
    ensures Spares(cfg, AppendNext(cfg, s, msg)) && Conserved(cfg, AppendNext(cfg, s, msg))
  {
    AcceptedSnoc(cfg.size, s.offered, msg);
    if |msg| < cfg.size {
      ToInt32Small(|msg|);
    }
    if cfg.size - |s.cur.value| > ToInt32(|msg|) {
      PutLogs(cfg, s, msg);
    } else {
      RotateLogs(cfg, s, msg);
    }
  }

  /** Producers do not touch what the backend has taken. */
  lemma AppendLeavesFile(cfg: Config, s: State, msg: string)
    requires s.cur.Some? && Written(cfg, s)
    ensures Written(cfg, AppendNext(cfg, s, msg))
  {
    var s' := AppendNext(cfg, s, msg);
    assert s' == s.(cur := s'.cur, next := s'.next, full := s'.full, offered := s'.offered);
  }

  lemma AppendKeepsInv(cfg: Config, s: State, msg: string)
    requires cfg.Valid() && Inv(cfg, s) && s.pc != Holding
    ensures Inv(cfg, AppendNext(cfg, s, msg))
  {
    AppendKeeps(cfg, s, msg);
    AppendLeavesFile(cfg, s, msg);
  }

  lemma EmitAllSnoc(cfg: Config, batches: seq<seq<string>>, batch: seq<string>, stamps: seq<string>)
    requires |stamps| <= |batches|
    ensures EmitAll(cfg, batches + [batch], stamps) == EmitAll(cfg, batches, stamps)
    decreases |stamps|
  {
    if stamps == [] {
    } else {
      EmitAllSnoc(cfg, batches, batch, stamps[..|stamps| - 1]);
    }
  }

  lemma SwapKeeps(cfg: Config, s: State)
    requires s.pc == Holding && Inv(cfg, s)
    ensures Inv(cfg, SwapNext(s))
  {
    var s' := SwapNext(s);
    var batch := s.full + [s.cur.value];
    assert s'.batches[..|s.batches|] == s.batches;
    JoinSnoc(s.full, s.cur.value);
    assert JoinAll(s'.batches) == JoinAll(s.batches) + (Join(s.full) + s.cur.value);
    EmitAllSnoc(cfg, s.batches, batch, s.stamps);
    assert s.sink + [] == s.sink;
  }

  lemma EmitAllStep(cfg: Config, batches: seq<seq<string>>, stamps: seq<string>, stamp: string)
    requires |stamps| < |batches|
    ensures EmitAll(cfg, batches, stamps + [stamp])
         == EmitAll(cfg, batches, stamps) + Emit(cfg, batches[|stamps|], stamp)
  {
    assert (stamps + [stamp])[..|stamps|] == stamps;
  }

  /** What is written at once and what is left of the batch are together what the policy emits. */
  lemma PolicySplits(cfg: Config, sink: seq<string>, batch: seq<string>, stamp: string)
    ensures if |batch| > MAX_BATCH
            then sink + [cfg.NoticeFor(stamp, |batch|)] + batch[..KEPT] == sink + Emit(cfg, batch, stamp)
            else sink + batch == sink + Emit(cfg, batch, stamp)
  {
    if |batch| > MAX_BATCH {
      var notice, kept := [cfg.NoticeFor(stamp, |batch|)], batch[..KEPT];
      assert sink + notice + kept == sink + (notice + kept);
    }
  }

  lemma ExamineKeepsFile(cfg: Config, s: State, stamp: string)
    requires s.pc == Swapped && s.batch != [] && Written(cfg, s)
    ensures Written(cfg, ExamineNext(cfg, s, stamp))
  {
    var s' := ExamineNext(cfg, s, stamp);
    EmitAllStep(cfg, s.batches, s.stamps, stamp);
    PolicySplits(cfg, s.sink, s.batch, stamp);
    assert s'.batch[0..] == s'.batch;
  }

  lemma ExamineKeepsBuffers(cfg: Config, s: State, stamp: string)
    requires s.pc == Swapped && Spares(cfg, s) && Conserved(cfg, s)
    ensures Spares(cfg, ExamineNext(cfg, s, stamp)) && Conserved(cfg, ExamineNext(cfg, s, stamp))
  {
  }

  lemma ExamineKeeps(cfg: Config, s: State, stamp: string)
    requires s.pc == Swapped && Inv(cfg, s)
    ensures Inv(cfg, ExamineNext(cfg, s, stamp))
  {
    ExamineKeepsFile(cfg, s, stamp);
    ExamineKeepsBuffers(cfg, s, stamp);
  }

  lemma NextOfBatch(sink: seq<string>, batch: seq<string>, i: nat)
    requires i < |batch|
    ensures sink + batch[i..] == sink + [batch[i]] + batch[i + 1..]
  {
  }

  lemma WritingKeeps(cfg: Config, s: State)
    requires s.pc.Writing? && Inv(cfg, s)
    ensures Inv(cfg, BackendNext(cfg, s, "").value)
  {
    var i := s.pc.i;
    if i < |s.batch| {
      NextOfBatch(s.sink, s.batch, i);
    } else {
      assert s.batch[i..] == [];
    }
  }

  lemma RefillKeeps(cfg: Config, s: State)
    requires s.pc == Refill && Inv(cfg, s)
    ensures Inv(cfg, RefillNext(s))
  {
  }

  /** The backend has no batch in hand. */
  predicate Idle(pc: BackendPc) {
    pc == LoopTest || pc == WantLock || pc == Sleeping || pc == Holding || pc == Exited
  }

  lemma IdleKeepsFile(cfg: Config, s: State, pc: BackendPc)
    requires Conserved(cfg, s) && Written(cfg, s) && Idle(s.pc) && Idle(pc)
    ensures Conserved(cfg, s.(pc := pc)) && Written(cfg, s.(pc := pc))
  {
  }

  lemma QuietKeeps(cfg: Config, s: State, stamp: string)
    requires Inv(cfg, s) && BackendNext(cfg, s, stamp).Some?
    requires s.pc == LoopTest || s.pc == WantLock || s.pc == Sleeping
    ensures Inv(cfg, BackendNext(cfg, s, stamp).value)
  {
    IdleKeepsFile(cfg, s, BackendNext(cfg, s, stamp).value.pc);
  }

  lemma BackendKeeps(cfg: Config, s: State, stamp: string)
    requires Inv(cfg, s) && BackendNext(cfg, s, stamp).Some?
    ensures Inv(cfg, BackendNext(cfg, s, stamp).value)
  {
    if s.pc == Holding {
      SwapKeeps(cfg, s);
    } else if s.pc == Swapped {
      ExamineKeeps(cfg, s, stamp);
    } else if s.pc == Refill {
      RefillKeeps(cfg, s);
    } else if s.pc.Writing? {
      WritingKeeps(cfg, s);
    } else {
      QuietKeeps(cfg, s, stamp);
    }
  }

  lemma StepKeeps(cfg: Config, s: State, a: Action)
    requires cfg.Valid() && Inv(cfg, s) && Step(cfg, s, a).Some?
    ensures Inv(cfg, Step(cfg, s, a).value)
  {
    match a
    case Append(msg) => AppendKeepsInv(cfg, s, msg);
    case Backend(stamp) => BackendKeeps(cfg, s, stamp);
    case _ =>
  }

  /** The invariant holds after every interleaving of appends, backend steps and Stop. */
  lemma RunKeepsInv(cfg: Config, states: seq<State>, actions: seq<Action>, k: nat)
    requires cfg.Valid() && IsLogRun(cfg, states, actions) && k < |states|
    ensures Inv(cfg, states[k])
  {
    forall s, a | Inv(cfg, s) && Step(cfg, s, a).Some?
      ensures Inv(cfg, Step(cfg, s, a).value)
    {
      StepKeeps(cfg, s, a);
    }
    RunInvariant(Init(), (s: State, a: Action) => Step(cfg, s, a), s => Inv(cfg, s), states, actions, k);
  }

  // ---- Main results ----

  /**
   Every assert of the program holds and no null buffer is ever used, in every interleaving; and
   whenever the mutex is free there is a current buffer, and a spare exactly when none is full.
   */
  lemma NeverAborts(cfg: Config, states: seq<State>, actions: seq<Action>, k: nat)
    requires cfg.Valid() && IsLogRun(cfg, states, actions) && k < |states|
    ensures states[k].pc != Aborted
    ensures states[k].cur.Some? && (states[k].next.Some? <==> states[k].full == [])
    ensures states[k].pc == Refill ==> RefillNext(states[k]).new1.Some? && RefillNext(states[k]).new2.Some?
  {
    RunKeepsInv(cfg, states, actions, k);
    if states[k].pc == Refill {
      RefillKeeps(cfg, states[k]);
    }
  }

  /**
   Overload policy. Over any run the batches, the full buffers and the current buffer together are
   exactly the accepted messages in lock order; and the file, with what is still to be written, is
   batch by batch either the whole batch, or the drop notice and its first two buffers.
   */
  lemma FileFollowsPolicy(cfg: Config, states: seq<State>, actions: seq<Action>, k: nat)
    requires cfg.Valid() && IsLogRun(cfg, states, actions) && k < |states|
    ensures var s := states[k];
      && s.cur.Some? && JoinAll(s.batches) + Join(s.full) + s.cur.value == Accepted(cfg.size, s.offered)
      && |s.batches| - 1 <= |s.stamps| <= |s.batches|
      && s.sink + (if s.pc == Swapped then [] else Unwritten(s)) == EmitAll(cfg, s.batches, s.stamps)
  {
    RunKeepsInv(cfg, states, actions, k);
    assert states[k].sink + [] == states[k].sink;
  }

  /**
   What the file gets from one batch: up to 25 buffers all of them, and beyond that the first two behind a notice of
   as many as are dropped.
   */
  lemma PolicyTells(cfg: Config, batch: seq<string>, stamp: string)
    ensures |batch| <= 25 ==> Emit(cfg, batch, stamp) == batch
    ensures |batch| > 25 ==> Emit(cfg, batch, stamp) == [cfg.notice(stamp, |batch| - 2), batch[0], batch[1]]
  {
    if |batch| > 25 {
      assert batch[..2] == [batch[0], batch[1]];
    }
  }

  ghost predicate NoOverload(s: State) {
    forall b :: 0 <= b < |s.batches| ==> |s.batches[b]| <= 25
  }

  lemma JoinAllPrefix(batches: seq<seq<string>>, n: nat)
    requires n < |batches|
    ensures JoinAll(batches[..n + 1]) == JoinAll(batches[..n]) + Join(batches[n])
  {
    assert batches[..n + 1][..n] == batches[..n];
  }

  lemma {:induction false} EmitWithoutOverload(cfg: Config, batches: seq<seq<string>>, stamps: seq<string>)
    requires |stamps| <= |batches| && forall b :: 0 <= b < |batches| ==> |batches[b]| <= MAX_BATCH
    ensures Join(EmitAll(cfg, batches, stamps)) == JoinAll(batches[..|stamps|])
    decreases |stamps|
  {
    if stamps == [] {
    } else {
      var n := |stamps| - 1;
      EmitWithoutOverload(cfg, batches, stamps[..n]);
      JoinConcat(EmitAll(cfg, batches, stamps[..n]), batches[n]);
      JoinAllPrefix(batches, n);
    }
  }

  lemma JoinAllSplit(batches: seq<seq<string>>, n: nat)
    requires n <= |batches| <= n + 1
    ensures JoinAll(batches) == JoinAll(batches[..n]) + (if n < |batches| then Join(batches[n]) else "")
  {
    if n == |batches| {
      assert batches[..n] == batches;
      assert JoinAll(batches) + "" == JoinAll(batches);
    }
  }

  /**
   Conservation and order. While no batch is over 25 buffers, the file, the rest of the batch in
   hand, the full buffers and the current buffer are, in this order, exactly the accepted messages.
   */
  lemma NothingLost(cfg: Config, states: seq<State>, actions: seq<Action>, k: nat)
    requires cfg.Valid() && IsLogRun(cfg, states, actions) && k < |states|
    requires NoOverload(states[k])
    ensures var s := states[k];
      s.cur.Some? && Join(s.sink) + Join(Unwritten(s)) + Join(s.full) + s.cur.value == Accepted(cfg.size, s.offered)
  {
    var s := states[k];
    RunKeepsInv(cfg, states, actions, k);
    EmitWithoutOverload(cfg, s.batches, s.stamps);
    JoinAllSplit(s.batches, |s.stamps|);
    JoinConcat(s.sink, Unwritten(s));
    if s.pc != Swapped {
      assert JoinAll(s.batches[..|s.stamps|]) + "" == JoinAll(s.batches[..|s.stamps|]);
    }
  }

  /** So the file is always a prefix of the accepted messages, also when the thread has exited. */
  lemma FileIsPrefix(cfg: Config, states: seq<State>, actions: seq<Action>, k: nat)
    requires cfg.Valid() && IsLogRun(cfg, states, actions) && k < |states|
    requires NoOverload(states[k])
    ensures Join(states[k].sink) <= Accepted(cfg.size, states[k].offered)
  {
    NothingLost(cfg, states, actions, k);
  }

  /** After Stop, what is missing from the file is exactly what had not been swapped out. */
  lemma ExitLosesOnlyUnswapped(cfg: Config, states: seq<State>, actions: seq<Action>, k: nat)
    requires cfg.Valid() && IsLogRun(cfg, states, actions) && k < |states|
    requires NoOverload(states[k]) && states[k].pc == Exited
    ensures var s := states[k];
      s.cur.Some? && Join(s.sink) + (Join(s.full) + s.cur.value) == Accepted(cfg.size, s.offered)
  {
    var s := states[k];
    NothingLost(cfg, states, actions, k);
    assert Join(s.sink) + "" == Join(s.sink);
    Assoc(Join(s.sink), Join(s.full), s.cur.value);
  }

  // ---- What is lost, and when ----

  lemma {:induction false} AcceptedIsShorter(size: nat, msgs: seq<string>)
    ensures |Accepted(size, msgs)| <= |Join(msgs)|
  {
    if msgs == [] {
    } else {
      AcceptedIsShorter(size, msgs[..|msgs| - 1]);
    }
  }

  /** Every message is accepted if and only if each is shorter than a buffer; a longer one leaves no trace. */
  lemma {:induction false} AcceptedExactlyWhenShort(size: nat, msgs: seq<string>)
    requires size > 0
    ensures Accepted(size, msgs) == Join(msgs) <==> forall i :: 0 <= i < |msgs| ==> |msgs[i]| < size
  {
    if msgs == [] {
    } else {
      var n := |msgs| - 1;
      AcceptedExactlyWhenShort(size, msgs[..n]);
      AcceptedIsShorter(size, msgs[..n]);
      if |msgs[n]| < size {
        assert Accepted(size, msgs) == Accepted(size, msgs[..n]) + msgs[n];
        SameSuffix(Accepted(size, msgs[..n]), Join(msgs[..n]), msgs[n]);
      } else {
        assert |Accepted(size, msgs)| < |Join(msgs)|;
      }
    }
  }

  lemma SameSuffix(a: string, b: string, c: string)
    ensures a + c == b + c <==> a == b
  {
    if a + c == b + c {
      assert (a + c)[..|a|] == a && (b + c)[..|b|] == b;
    }
  }

  lemma FirstMessage(cfg: Config, s: State, msg: string)
    requires cfg.Valid() && |msg| < cfg.size && s.cur == Some("") && s.offered == []
    ensures AppendNext(cfg, s, msg) == s.(cur := Some(msg), offered := [msg])
    ensures Accepted(cfg.size, [msg]) == msg
  {
    ToInt32Small(|msg|);
    assert "" + msg == msg;
    AcceptedSnoc(cfg.size, [], msg);
    assert [] + [msg] == [msg];
  }

  /** A message that is accepted and never written: Stop comes before the backend's first look. */
  lemma StopLosesMessage(cfg: Config, msg: string) returns (states: seq<State>, actions: seq<Action>)
    requires cfg.Valid() && 0 < |msg| < cfg.size
    ensures IsLogRun(cfg, states, actions) && |states| == 5 && states[4].pc == Exited
    ensures states[4].sink == [] && Accepted(cfg.size, states[4].offered) == msg
  {
    var s0 := Init();
    var s1 := s0.(running := true, new1 := Some(""), new2 := Some(""), pc := LoopTest);
    var s2 := s1.(cur := Some(msg), offered := [msg]);
    var s3 := s2.(running := false);
    var s4 := s3.(pc := Exited);
    FirstMessage(cfg, s1, msg);
    states, actions := [s0, s1, s2, s3, s4], [Start, Append(msg), Stop, Backend("")];
  }
}
