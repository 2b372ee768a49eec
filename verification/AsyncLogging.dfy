/**
 The class: src/logger/async_logging.cpp on buffer objects that are moved by pointer. Each method is one atomic
 step: a critical section up to the point where the mutex is dropped, or a stretch of backend code
 between two of them. `view` is the value-level state of module AsyncLog, which every method keeps
 in step with the objects.
 */
module AsyncLogging {
  import opened Common
  import opened FixedBuffers
  import opened Numerals
  import opened AsyncLog

  /** The drop notice, cut to what fits a 256-byte buffer with its terminator. */
  function Notice(stamp: string, dropped: nat): string {
    var text := "Drop log messages at " + stamp + ", " + Decimal(dropped) + " larger buffers\n";
    if |text| <= 255 then text else text[..255]
  }

  /**
   The places that can own a buffer: the four pointers, a position in one of the two vectors (`list`
   tells them apart, and the backend swaps them), or a temporary in the middle of a move.
   */
  datatype Place = AtCurrent | AtNext | AtNew1 | AtNew2 | Listed(list: bool, i: nat) | InHand

  /**
   Every buffer in use is well formed and contains what `text` says, no two share storage, and
   `objects` holds them and their storage.
   */
  ghost predicate Stored(size: nat, live: set<FixedBuffer>, objects: set<object>, text: FixedBuffer -> string)
    reads objects
  {
    && (forall b: FixedBuffer :: b in live ==>
          && b in objects && b.data in objects
          && b.Valid() && b.data.Length == size && b.Contents() == text(b))
    && (forall b: FixedBuffer, c: FixedBuffer :: b in live && c in live && b.data == c.data ==> b == c)
  }

  /** The pointer kept at place `p` shows the value `v`: null for an absent one. */
  ghost predicate At(b: FixedBuffer?, p: Place, v: Option<string>, live: set<FixedBuffer>,
                     place: FixedBuffer -> Place, text: FixedBuffer -> string)
  {
    if b == null then v.None? else b in live && place(b) == p && v == Some(text(b))
  }

  ghost predicate AllAt(bs: seq<FixedBuffer>, list: bool, vs: seq<string>, live: set<FixedBuffer>,
                        place: FixedBuffer -> Place, text: FixedBuffer -> string)
  {
    |bs| == |vs| && forall i :: 0 <= i < |bs| ==> At(bs[i], Listed(list, i), Some(vs[i]), live, place, text)
  }

  ghost function Replace<T>(f: FixedBuffer -> T, b: FixedBuffer, v: T): FixedBuffer -> T {
    (x: FixedBuffer) => if x == b then v else f(x)
  }

  /** A buffer that is in no list is put behind the last one of a list. */
  lemma AllAtSnoc(bs: seq<FixedBuffer>, list: bool, vs: seq<string>, live: set<FixedBuffer>,
                  place: FixedBuffer -> Place, text: FixedBuffer -> string, b: FixedBuffer, v: string)
    requires AllAt(bs, list, vs, live, place, text) && At(b, InHand, Some(v), live, place, text)
    ensures AllAt(bs + [b], list, vs + [v], live, Replace(place, b, Listed(list, |bs|)), text)
  {
  }

  /** The last buffer of a list is taken out of it. */
  lemma AllAtPop(bs: seq<FixedBuffer>, list: bool, vs: seq<string>, live: set<FixedBuffer>,
                 place: FixedBuffer -> Place, text: FixedBuffer -> string, n: nat)
    requires AllAt(bs, list, vs, live, place, text) && |bs| == n + 1
    ensures AllAt(bs[..n], list, vs[..n], live, Replace(place, bs[n], InHand), text)
    ensures At(bs[n], Listed(list, n), Some(vs[n]), live, place, text)
  {
    forall i | 0 <= i < n
      ensures At(bs[i], Listed(list, i), Some(vs[i]), live, Replace(place, bs[n], InHand), text)
    {
      assert At(bs[i], Listed(list, i), Some(vs[i]), live, place, text);
    }
    assert At(bs[n], Listed(list, n), Some(vs[n]), live, place, text);
  }

  /** A buffer of the other list is taken out of that. */
  lemma AllAtOther(bs: seq<FixedBuffer>, list: bool, vs: seq<string>, live: set<FixedBuffer>,
                   place: FixedBuffer -> Place, text: FixedBuffer -> string, b: FixedBuffer, p: Place)
    requires AllAt(bs, list, vs, live, place, text) && place(b).Listed? && place(b).list != list
    ensures AllAt(bs, list, vs, live, Replace(place, b, p), text)
  {
  }

  /** A buffer that is in no list may go anywhere without disturbing a list. */
  lemma AllAtKept(bs: seq<FixedBuffer>, list: bool, vs: seq<string>, live: set<FixedBuffer>,
                  place: FixedBuffer -> Place, text: FixedBuffer -> string, b: FixedBuffer, p: Place)
    requires AllAt(bs, list, vs, live, place, text) && place(b) == InHand
    ensures AllAt(bs, list, vs, live, Replace(place, b, p), text)
  {
  }

  /** A new buffer disturbs no list. */
  lemma AllAtNew(bs: seq<FixedBuffer>, list: bool, vs: seq<string>, live: set<FixedBuffer>,
                 place: FixedBuffer -> Place, text: FixedBuffer -> string, b: FixedBuffer, v: string)
    requires AllAt(bs, list, vs, live, place, text) && b !in live
    ensures AllAt(bs, list, vs, live + {b}, Replace(place, b, InHand), Replace(text, b, v))
  {
  }

  /** Writing into a buffer that is in no list disturbs no list. */
  lemma AllAtWritten(bs: seq<FixedBuffer>, list: bool, vs: seq<string>, live: set<FixedBuffer>,
                     place: FixedBuffer -> Place, text: FixedBuffer -> string, b: FixedBuffer, v: string)
    requires AllAt(bs, list, vs, live, place, text) && !place(b).Listed?
    ensures AllAt(bs, list, vs, live, place, Replace(text, b, v))
  {
  }

  /**
   The proof's picture of the object: the value-level state, the buffers in use with their storage,
   the one place and the contents of each, and which of the two lists buffers_ currently is.
   */
  datatype Picture = Picture(view: State, live: set<FixedBuffer>, objects: set<object>,
                             place: FixedBuffer -> Place, text: FixedBuffer -> string, shared: bool)

  lemma SwapIsNext(cfg: Config, s: State, stamp: string)
    requires s.pc == Holding
    ensures BackendNext(cfg, s, stamp) == Some(SwapNext(s))
  {
  }

  /** The overload policy, step by step. */
  lemma ExamineAs(cfg: Config, s: State, stamp: string)
    requires s.batch != []
    ensures var cut := if |s.batch| <= MAX_BATCH then s
                       else s.(sink := s.sink + [cfg.NoticeFor(stamp, |s.batch|)], batch := s.batch[..KEPT]);
      ExamineNext(cfg, s, stamp) == cut.(stamps := cut.stamps + [stamp], pc := Writing(0))
  {
  }

  class AsyncLogging {
    const size: nat
    const notice: (string, nat) -> string
    var current: FixedBuffer?
    var next: FixedBuffer?
    var buffers: seq<FixedBuffer>
    var new1: FixedBuffer?
    var new2: FixedBuffer?
    var batch: seq<FixedBuffer>
    var pc: BackendPc
    var running: bool
    var sink: seq<string>
    ghost var pic: Picture

    function Cfg(): Config {
      Config(size, notice)
    }

    /** No buffer is in two places, no two share storage, and the objects show the value-level state. */
    ghost predicate Tied()
      reads this, pic.objects
    {
      && this !in pic.objects && Stored(size, pic.live, pic.objects, pic.text)
      && At(current, AtCurrent, pic.view.cur, pic.live, pic.place, pic.text)
      && At(next, AtNext, pic.view.next, pic.live, pic.place, pic.text)
      && At(new1, AtNew1, pic.view.new1, pic.live, pic.place, pic.text)
      && At(new2, AtNew2, pic.view.new2, pic.live, pic.place, pic.text)
      && AllAt(buffers, pic.shared, pic.view.full, pic.live, pic.place, pic.text)
      && AllAt(batch, !pic.shared, pic.view.batch, pic.live, pic.place, pic.text)
      && pc == pic.view.pc && running == pic.view.running && sink == pic.view.sink
    }

    ghost predicate Valid()
      reads this, pic.objects
    {
      Cfg().Valid() && Inv(Cfg(), pic.view) && Tied()
    }

    constructor (size: nat)
      requires 0 < size < 0x8000_0000
      ensures Valid() && fresh(pic.objects) && pic.view == Init() && Cfg() == Config(size, Notice)
    {
      var b := ZeroedBuffer(size);
      var c := ZeroedBuffer(size);
      this.size, this.notice := size, Notice;
      current, next, buffers := b, c, [];
      new1, new2, batch := null, null, [];
      pc, running, sink := NotStarted, false, [];
      pic := Picture(Init(), {b, c}, {b, c, b.data, c.data},
                     (x: FixedBuffer) => if x == b then AtCurrent else AtNext, (x: FixedBuffer) => "", true);
      new;
      assert Stored(size, pic.live, pic.objects, pic.text);
    }

    /** Lines 20 to 24: a new buffer, set to zero. */
    static method ZeroedBuffer(size: nat) returns (b: FixedBuffer)
      ensures fresh(b) && fresh(b.data) && b.Valid() && b.data.Length == size && b.Contents() == ""
      ensures forall i :: 0 <= i < size ==> b.data[i] == '\0'
    {
      b := new FixedBuffer(size);
      b.BZero();
    }

    /** A buffer that has been moved out of its place and not yet into another. */
    ghost predicate Loose(b: FixedBuffer, contents: string)
      reads this
    {
      At(b, InHand, Some(contents), pic.live, pic.place, pic.text)
    }

    // ---- Moves of one pointer ----

    method TakeCurrent() returns (b: FixedBuffer)
      requires Tied() && current != null
      modifies this
      ensures Tied() && current == null && Loose(b, old(pic.view).cur.value)
      ensures pic.objects == old(pic.objects)
      ensures pic.view == old(pic.view).(cur := None)
      ensures next == old(next) && new1 == old(new1) && new2 == old(new2)
    {
      b := current;
      current := null;
      pic := pic.(place := Replace(pic.place, b, InHand), view := pic.view.(cur := None));
    }

    method SetCurrent(b: FixedBuffer, ghost contents: string)
      requires Tied() && current == null && Loose(b, contents)
      modifies this
      ensures Tied() && current == b
      ensures pic.objects == old(pic.objects)
      ensures pic.view == old(pic.view).(cur := Some(contents)) && next == old(next) && new2 == old(new2)
    {
      current := b;
      pic := pic.(place := Replace(pic.place, b, AtCurrent), view := pic.view.(cur := Some(contents)));
    }

    method PushFull(b: FixedBuffer, ghost contents: string)
      requires Tied() && Loose(b, contents)
      modifies this
      ensures Tied()
      ensures pic.objects == old(pic.objects)
      ensures pic.view == old(pic.view).(full := old(pic.view).full + [contents])
      ensures current == old(current) && next == old(next) && new1 == old(new1) && new2 == old(new2)
    {
      AllAtSnoc(buffers, pic.shared, pic.view.full, pic.live, pic.place, pic.text, b, contents);
      AllAtKept(batch, !pic.shared, pic.view.batch, pic.live, pic.place, pic.text, b, Listed(pic.shared, |buffers|));
      pic := pic.(place := Replace(pic.place, b, Listed(pic.shared, |buffers|)),
                  view := pic.view.(full := pic.view.full + [contents]));
      buffers := buffers + [b];
    }

    method TakeNext() returns (b: FixedBuffer)
      requires Tied() && next != null
      modifies this
      ensures Tied() && next == null && Loose(b, old(pic.view).next.value)
      ensures pic.objects == old(pic.objects)
      ensures pic.view == old(pic.view).(next := None) && current == old(current)
    {
      b := next;
      next := null;
      pic := pic.(place := Replace(pic.place, b, InHand), view := pic.view.(next := None));
    }

    /** std::make_unique<Buffer>(). */
    method MakeBuffer() returns (b: FixedBuffer)
      requires Tied()
      modifies this
      ensures Tied() && fresh(pic.objects - old(pic.objects)) && Loose(b, "")
      ensures pic.view == old(pic.view) && current == old(current) && new1 == old(new1) && new2 == old(new2)
    {
      b := new FixedBuffer(size);
      ghost var after := pic.(live := pic.live + {b}, objects := pic.objects + {b, b.data},
                              text := Replace(pic.text, b, ""), place := Replace(pic.place, b, InHand));
      assert Stored(size, after.live, after.objects, after.text);
      AllAtNew(buffers, pic.shared, pic.view.full, pic.live, pic.place, pic.text, b, "");
      AllAtNew(batch, !pic.shared, pic.view.batch, pic.live, pic.place, pic.text, b, "");
      pic := after;
    }

    method SetNext(b: FixedBuffer, ghost contents: string)
      requires Tied() && next == null && Loose(b, contents)
      modifies this
      ensures Tied()
      ensures pic.objects == old(pic.objects)
      ensures pic.view == old(pic.view).(next := Some(contents))
    {
      next := b;
      pic := pic.(place := Replace(pic.place, b, AtNext), view := pic.view.(next := Some(contents)));
    }

    method TakeNew1() returns (b: FixedBuffer)
      requires Tied() && new1 != null
      modifies this
      ensures Tied() && Loose(b, old(pic.view).new1.value)
      ensures pic.objects == old(pic.objects)
      ensures pic.view == old(pic.view).(new1 := None)
      ensures current == old(current) && next == old(next) && new2 == old(new2)
    {
      b := new1;
      new1 := null;
      pic := pic.(place := Replace(pic.place, b, InHand), view := pic.view.(new1 := None));
    }

    method SetNew1(b: FixedBuffer, ghost contents: string)
      requires Tied() && new1 == null && Loose(b, contents)
      modifies this
      ensures Tied() && new1 != null && new2 == old(new2)
      ensures pic.objects == old(pic.objects)
      ensures pic.view == old(pic.view).(new1 := Some(contents))
    {
      new1 := b;
      pic := pic.(place := Replace(pic.place, b, AtNew1), view := pic.view.(new1 := Some(contents)));
    }

    method TakeNew2() returns (b: FixedBuffer)
      requires Tied() && new2 != null
      modifies this
      ensures Tied() && Loose(b, old(pic.view).new2.value)
      ensures pic.objects == old(pic.objects)
      ensures pic.view == old(pic.view).(new2 := None) && next == old(next)
    {
      b := new2;
      new2 := null;
      pic := pic.(place := Replace(pic.place, b, InHand), view := pic.view.(new2 := None));
    }

    method SetNew2(b: FixedBuffer, ghost contents: string)
      requires Tied() && new2 == null && Loose(b, contents)
      modifies this
      ensures Tied() && new2 != null && new1 == old(new1)
      ensures pic.objects == old(pic.objects)
      ensures pic.view == old(pic.view).(new2 := Some(contents))
    {
      new2 := b;
      pic := pic.(place := Replace(pic.place, b, AtNew2), view := pic.view.(new2 := Some(contents)));
    }

    /** buffers_to_write.back() and pop_back(). */
    method PopBatch() returns (b: FixedBuffer)
      requires Tied() && batch != []
      modifies this
      ensures Tied() && |old(pic.view).batch| > 0
      ensures pic.objects == old(pic.objects)
      ensures Loose(b, old(pic.view).batch[|old(pic.view).batch| - 1])
      ensures pic.view == old(pic.view).(batch := old(pic.view).batch[..|old(pic.view).batch| - 1])
      ensures new1 == old(new1) && new2 == old(new2)
    {
      var n := |batch| - 1;
      b := batch[n];
      AllAtPop(batch, !pic.shared, pic.view.batch, pic.live, pic.place, pic.text, n);
      AllAtOther(buffers, pic.shared, pic.view.full, pic.live, pic.place, pic.text, b, InHand);
      batch := batch[..n];
      pic := pic.(place := Replace(pic.place, b, InHand), view := pic.view.(batch := pic.view.batch[..n]));
    }

    /** buffers_to_write.swap(buffers_). */
    method SwapLists()
      requires Tied()
      modifies this
      ensures Tied()
      ensures pic.objects == old(pic.objects)
      ensures pic.view == old(pic.view).(full := old(pic.view).batch, batch := old(pic.view).full)
      ensures next == old(next) && new2 == old(new2)
    {
      buffers, batch := batch, buffers;
      pic := pic.(shared := !pic.shared, view := pic.view.(full := pic.view.batch, batch := pic.view.full));
    }

    /** FixedBuffer::Reset of a buffer that is between two places. */
    method ResetLoose(b: FixedBuffer, ghost contents: string)
      requires Tied() && Loose(b, contents)
      modifies this`pic, b
      ensures Tied() && Loose(b, "") && pic.view == old(pic.view)
      ensures pic.objects == old(pic.objects)
    {
      b.Reset();
      pic := pic.(text := Replace(pic.text, b, ""));
    }

    /** buffers_to_write.erase or clear(): only the first `n` buffers of the batch stay. */
    method KeepBatch(n: nat)
      requires Tied() && n <= |batch|
      modifies this
      ensures Tied() && pic.objects == old(pic.objects) && |old(pic.view).batch| >= n
      ensures pic.view == old(pic.view).(batch := old(pic.view).batch[..n])
    {
      pic := pic.(view := pic.view.(batch := pic.view.batch[..n]));
      batch := batch[..n];
    }

    /** The backend gets to the next line. */
    method Advance(to: BackendPc)
      requires Tied()
      modifies this`pc, this`pic
      ensures Tied() && pic.objects == old(pic.objects)
      ensures pic.view == old(pic.view).(pc := to)
    {
      pc, pic := to, pic.(view := pic.view.(pc := to));
    }

    // ---- Append ----

    /** Writes into the current buffer. */
    method PutCurrent(msg: string)
      requires Tied() && current != null
      modifies this, pic.objects
      ensures Tied() && current != null
      ensures pic.objects == old(pic.objects)
      ensures pic.view == old(pic.view).(cur := Some(Put(size, old(pic.view).cur.value, msg)))
    {
      current.Append(msg);
      ghost var v := Put(size, pic.view.cur.value, msg);
      AllAtWritten(buffers, pic.shared, pic.view.full, pic.live, pic.place, pic.text, current, v);
      AllAtWritten(batch, !pic.shared, pic.view.batch, pic.live, pic.place, pic.text, current, v);
      pic := pic.(text := Replace(pic.text, current, v), view := pic.view.(cur := Some(v)));
    }

    /** Lines 49 and 80: the current buffer is moved behind the full ones. */
    method Shelve()
      requires Tied() && current != null
      modifies this
      ensures Tied() && current == null
      ensures pic.objects == old(pic.objects)
      ensures pic.view == old(pic.view).(full := old(pic.view).full + [old(pic.view).cur.value], cur := None)
      ensures next == old(next) && new1 == old(new1) && new2 == old(new2)
    {
      ghost var contents := pic.view.cur.value;
      var b := TakeCurrent();
      PushFull(b, contents);
    }

    /** Lines 49 to 54: the current buffer goes to the full ones and a spare or a new one takes its place. */
    method TurnOver()
      requires Tied() && current != null
      modifies this
      ensures Tied() && current != null && fresh(pic.objects - old(pic.objects))
      ensures pic.view == old(pic.view).(full := old(pic.view).full + [old(pic.view).cur.value], next := None,
                                 cur := Some(if old(pic.view).next.Some? then old(pic.view).next.value else ""))
    {
      ghost var was := pic.view;
      Shelve();
      if next != null {
        var b := TakeNext();
        SetCurrent(b, was.next.value);
      } else {
        var b := MakeBuffer();
        SetCurrent(b, "");
      }
    }

    method AppendLocked(msg: string)
      requires Tied() && current != null
      modifies this, pic.objects
      ensures Tied() && fresh(pic.objects - old(pic.objects))
      ensures pic.view == AppendNext(Cfg(), old(pic.view), msg)
    {
      pic := pic.(view := pic.view.(offered := pic.view.offered + [msg]));
      if current.Avail() > ToInt32(|msg|) {
        PutCurrent(msg);
      } else {
        TurnOver();
        PutCurrent(msg);
      }
    }

    /** Lines 44 to 58. */
    method Append(msg: string)
      requires Valid() && pc != Holding
      modifies this, pic.objects
      ensures Valid() && fresh(pic.objects - old(pic.objects))
      ensures pic.view == AppendNext(Cfg(), old(pic.view), msg)
    {
      AppendKeepsInv(Cfg(), pic.view, msg);
      AppendLocked(msg);
    }

    // ---- The backend thread ----

    /** Lines 64 and 66. */
    method FirstSpare()
      requires Tied() && new1 == null
      modifies this
      ensures Tied() && fresh(pic.objects - old(pic.objects)) && new2 == old(new2)
      ensures pic.view == old(pic.view).(new1 := Some(""))
    {
      var b := MakeBuffer();
      SetNew1(b, "");
    }

    /** Lines 65 and 67. */
    method SecondSpare()
      requires Tied() && new2 == null
      modifies this
      ensures Tied() && fresh(pic.objects - old(pic.objects))
      ensures pic.view == old(pic.view).(new2 := Some(""))
    {
      var b := MakeBuffer();
      SetNew2(b, "");
    }

    /** Lines 64 to 67. */
    method BothSpares()
      requires Tied() && new1 == null && new2 == null
      modifies this
      ensures Tied() && fresh(pic.objects - old(pic.objects))
      ensures pic.view == old(pic.view).(new1 := Some(""), new2 := Some(""))
    {
      FirstSpare();
      SecondSpare();
    }

    /** Line 33, and the thread gets to line 69. */
    method StartRunning()
      requires Tied()
      modifies this
      ensures Tied() && pic.objects == old(pic.objects)
      ensures pic.view == old(pic.view).(running := true, pc := LoopTest)
    {
      running, pc := true, LoopTest;
      pic := pic.(view := pic.view.(running := true, pc := LoopTest));
    }

    method StartTied()
      requires Tied() && new1 == null && new2 == null
      modifies this
      ensures Tied() && fresh(pic.objects - old(pic.objects))
      ensures pic.view == old(pic.view).(running := true, new1 := Some(""), new2 := Some(""), pc := LoopTest)
    {
      BothSpares();
      StartRunning();
    }

    /** Line 33, and the thread's lines 64 to 68. */
    method Start()
      requires Valid() && pc == NotStarted
      modifies this
      ensures Valid() && fresh(pic.objects - old(pic.objects))
      ensures Some(pic.view) == Step(Cfg(), old(pic.view), AsyncLog.Start)
      ensures running && pc == LoopTest && new1 != null && new2 != null
    {
      StepKeeps(Cfg(), pic.view, AsyncLog.Start);
      StartTied();
    }

    method StopRunning()
      requires Tied()
      modifies this
      ensures Tied() && pic.objects == old(pic.objects)
      ensures pic.view == old(pic.view).(running := false)
    {
      running, pic := false, pic.(view := pic.view.(running := false));
    }

    /** Line 39. */
    method Stop()
      requires Valid() && pc != NotStarted
      modifies this
      ensures Valid() && pic.objects == old(pic.objects)
      ensures Some(pic.view) == Step(Cfg(), old(pic.view), AsyncLog.Stop)
      ensures !running && pc == old(pc)
    {
      StepKeeps(Cfg(), pic.view, AsyncLog.Stop);
      StopRunning();
    }

    /** Lines 69 to 74: the loop test and the three asserts, which hold. */
    method TestLoop(ghost stamp: string)
      requires Valid() && pc == LoopTest
      modifies this
      ensures Valid() && pic.objects == old(pic.objects)
      ensures Some(pic.view) == BackendNext(Cfg(), old(pic.view), stamp)
      ensures running == old(running) && pc == (if running then WantLock else Exited)
    {
      BackendKeeps(Cfg(), pic.view, stamp);
      SparesAreEmpty();
      if running {
        assert new1 != null && new1.Length() == 0;
        assert new2 != null && new2.Length() == 0;
        assert batch == [];
        Advance(WantLock);
      } else {
        Advance(Exited);
      }
    }

    lemma SparesAreEmpty()
      requires Valid() && pc == LoopTest
      ensures new1 != null && new1.Valid() && new1.Length() == 0
      ensures new2 != null && new2.Valid() && new2.Length() == 0
      ensures batch == []
    {
    }

    /** Lines 77 to 79: the mutex is taken, and dropped again if there is nothing to do. */
    method EnterLock(ghost stamp: string)
      requires Valid() && pc == WantLock
      modifies this
      ensures Valid() && pic.objects == old(pic.objects)
      ensures Some(pic.view) == BackendNext(Cfg(), old(pic.view), stamp)
      ensures buffers == old(buffers) && pc == (if buffers == [] then Sleeping else Holding)
    {
      BackendKeeps(Cfg(), pic.view, stamp);
      Advance(if buffers == [] then Sleeping else Holding);
    }

    /** Line 79: the wait ends and the mutex is taken back. */
    method WakeUp(ghost stamp: string)
      requires Valid() && pc == Sleeping
      modifies this
      ensures Valid() && pic.objects == old(pic.objects)
      ensures Some(pic.view) == BackendNext(Cfg(), old(pic.view), stamp)
      ensures pc == Holding
    {
      BackendKeeps(Cfg(), pic.view, stamp);
      Advance(Holding);
    }

    /** Line 81. */
    method PromoteNew1()
      requires Tied() && current == null && new1 != null
      modifies this
      ensures Tied()
      ensures pic.objects == old(pic.objects)
      ensures pic.view == old(pic.view).(cur := old(pic.view).new1, new1 := None)
      ensures next == old(next) && new2 == old(new2)
    {
      ghost var contents := pic.view.new1.value;
      var b := TakeNew1();
      SetCurrent(b, contents);
    }

    /** Lines 83 and 84. */
    method PromoteNew2()
      requires Tied() && (next == null ==> new2 != null)
      modifies this
      ensures Tied()
      ensures pic.objects == old(pic.objects)
      ensures pic.view == if old(pic.view).next.Some? then old(pic.view)
                          else old(pic.view).(next := old(pic.view).new2, new2 := None)
    {
      if next == null {
        ghost var contents := pic.view.new2.value;
        var b := TakeNew2();
        SetNext(b, contents);
      }
    }

    method SwapLocked()
      requires Tied() && pc == Holding && current != null && new1 != null && (next == null ==> new2 != null)
      modifies this
      ensures Tied() && pic.objects == old(pic.objects)
      ensures pic.view == SwapNext(old(pic.view))
    {
      pic := pic.(view := pic.view.(batches := pic.view.batches + [pic.view.full + [pic.view.cur.value]]));
      Shelve();
      PromoteNew1();
      SwapLists();
      PromoteNew2();
      Advance(Swapped);
    }

    /** What the swap relies on: the pointers that it moves are there. */
    lemma AtSwap()
      requires Valid() && pc == Holding
      ensures current != null && new1 != null && (next == null ==> new2 != null)
    {
    }

    /** Lines 80 to 85. */
    method Swap(ghost stamp: string)
      requires Valid() && pc == Holding
      modifies this
      ensures Valid() && pic.objects == old(pic.objects)
      ensures Some(pic.view) == BackendNext(Cfg(), old(pic.view), stamp)
    {
      SwapKeeps(Cfg(), pic.view);
      SwapIsNext(Cfg(), pic.view, stamp);
      AtSwap();
      SwapLocked();
    }

    lemma BatchLength()
      requires Tied()
      ensures |batch| == |pic.view.batch|
    {
    }

    /** output.Append(...). */
    method Emit(record: string)
      requires Tied()
      modifies this
      ensures Tied() && pic.objects == old(pic.objects) && batch == old(batch)
      ensures pic.view == old(pic.view).(sink := old(pic.view).sink + [record])
    {
      sink, pic := sink + [record], pic.(view := pic.view.(sink := pic.view.sink + [record]));
    }

    /** The clock text that the notice would carry. */
    method ReadClock(stamp: string)
      requires Tied()
      modifies this
      ensures Tied() && pic.objects == old(pic.objects) && batch == old(batch)
      ensures pic.view == old(pic.view).(stamps := old(pic.view).stamps + [stamp])
    {
      pic := pic.(view := pic.view.(stamps := pic.view.stamps + [stamp]));
    }

    /** Lines 92 to 97. */
    method CutBatch(stamp: string)
      requires Tied() && |batch| >= KEPT
      modifies this
      ensures Tied() && pic.objects == old(pic.objects)
      ensures |old(pic.view).batch| >= KEPT
      ensures pic.view == old(pic.view).(sink := old(pic.view).sink + [Cfg().NoticeFor(stamp, |old(pic.view).batch|)],
                                         batch := old(pic.view).batch[..KEPT])
    {
      BatchLength();
      var record := Cfg().NoticeFor(stamp, |batch|);
      Emit(record);
      KeepBatch(KEPT);
    }

    method FinishExamine(stamp: string)
      requires Tied()
      modifies this
      ensures Tied() && pic.objects == old(pic.objects)
      ensures pic.view == old(pic.view).(stamps := old(pic.view).stamps + [stamp], pc := Writing(0))
    {
      ReadClock(stamp);
      Advance(Writing(0));
    }

    /** Lines 89 to 98: only a batch of more than 25 buffers is cut. */
    method ApplyPolicy(stamp: string)
      requires Tied()
      modifies this
      ensures Tied() && pic.objects == old(pic.objects)
      ensures pic.view == if |old(pic.view).batch| <= MAX_BATCH then old(pic.view)
                          else old(pic.view).(
                                 sink := old(pic.view).sink + [Cfg().NoticeFor(stamp, |old(pic.view).batch|)],
                                 batch := old(pic.view).batch[..KEPT])
    {
      if |batch| > MAX_BATCH {
        CutBatch(stamp);
      }
    }

    method ExamineTied(stamp: string)
      requires Tied() && pic.view.batch != []
      modifies this
      ensures Tied() && pic.objects == old(pic.objects)
      ensures pic.view == ExamineNext(Cfg(), old(pic.view), stamp)
    {
      ghost var was := pic.view;
      ApplyPolicy(stamp);
      FinishExamine(stamp);
      ExamineAs(Cfg(), was, stamp);
    }

    /** Lines 87 to 98. */
    method Examine(stamp: string)
      requires Valid() && pc == Swapped
      modifies this
      ensures Valid() && pic.objects == old(pic.objects)
      ensures Some(pic.view) == BackendNext(Cfg(), old(pic.view), stamp)
    {
      BackendKeeps(Cfg(), pic.view, stamp);
      ExamineTied(stamp);
    }

    /** What the buffer at position `i` of the batch contains. */
    method ReadBatch(i: nat) returns (text: string)
      requires Tied() && i < |batch|
      ensures i < |pic.view.batch| && text == pic.view.batch[i]
    {
      assert At(batch[i], Listed(!pic.shared, i), Some(pic.view.batch[i]), pic.live, pic.place, pic.text);
      text := batch[i].data[..batch[i].cur];
    }

    method WriteBuffer(i: nat)
      requires Tied() && i < |batch|
      modifies this
      ensures Tied() && pic.objects == old(pic.objects) && i < |old(pic.view).batch|
      ensures pic.view == old(pic.view).(sink := old(pic.view).sink + [old(pic.view).batch[i]], pc := Writing(i + 1))
    {
      var text := ReadBatch(i);
      Emit(text);
      Advance(Writing(i + 1));
    }

    method WriteTied(i: nat)
      requires Tied()
      modifies this
      ensures Tied() && pic.objects == old(pic.objects) && pic.view == WriteNext(old(pic.view), i)
    {
      BatchLength();
      if i < |batch| {
        WriteBuffer(i);
      } else {
        Advance(Refill);
      }
    }

    /** Lines 100 to 102: one turn of the writing loop. */
    method WriteOne(ghost stamp: string)
      requires Valid() && pc.Writing?
      modifies this
      ensures Valid() && pic.objects == old(pic.objects)
      ensures Some(pic.view) == BackendNext(Cfg(), old(pic.view), stamp)
    {
      BackendKeeps(Cfg(), pic.view, stamp);
      WriteTied(pc.i);
    }

    /** Lines 106 to 108. */
    method RefillNew1()
      requires Tied() && new1 == null && batch != []
      modifies this, pic.objects
      ensures Tied() && pic.objects == old(pic.objects) && |batch| == |old(batch)| - 1 && new2 == old(new2)
      ensures |old(pic.view).batch| > 0
      ensures pic.view == old(pic.view).(new1 := Some(""), batch := old(pic.view).batch[..|old(pic.view).batch| - 1])
    {
      ghost var contents := pic.view.batch[|pic.view.batch| - 1];
      var b := PopBatch();
      ResetLoose(b, contents);
      SetNew1(b, "");
    }

    /** Lines 111 to 116. */
    method RefillNew2()
      requires Tied() && (new2 == null ==> batch != [])
      modifies this, pic.objects
      ensures Tied() && pic.objects == old(pic.objects)
      ensures old(pic.view).new2.Some? || |old(pic.view).batch| > 0
      ensures pic.view == if old(pic.view).new2.Some? then old(pic.view)
                          else old(pic.view).(new2 := Some(""),
                                              batch := old(pic.view).batch[..|old(pic.view).batch| - 1])
    {
      if new2 == null {
        ghost var contents := pic.view.batch[|pic.view.batch| - 1];
        var b := PopBatch();
        ResetLoose(b, contents);
        SetNew2(b, "");
      }
    }

    /** Lines 104 to 118 in one, when the batch is long enough. */
    lemma RefillAs(s: State)
      requires s.new1.None? && |s.batch| >= (if s.new2.None? then 2 else 1)
      ensures RefillNext(s) == s.(new1 := Some(""), new2 := if s.new2.None? then Some("") else s.new2,
                                  batch := [], pc := LoopTest)
    {
    }

    /** Line 118, and back to the loop test. */
    method DropBatch()
      requires Tied()
      modifies this
      ensures Tied() && pic.objects == old(pic.objects)
      ensures pic.view == old(pic.view).(batch := [], pc := LoopTest)
    {
      KeepBatch(0);
      Advance(LoopTest);
    }

    method RefillTied()
      requires Tied() && pc == Refill && new1 == null && |batch| >= (if new2 == null then 2 else 1)
      modifies this, pic.objects
      ensures Tied() && pic.objects == old(pic.objects)
      ensures pic.view == RefillNext(old(pic.view))
    {
      ghost var was := pic.view;
      RefillAs(was);
      RefillNew1();
      RefillNew2();
      DropBatch();
    }

    /** Lines 104 to 119: both spares are refilled from the back of the batch, which is then dropped. */
    method RefillSpares(ghost stamp: string)
      requires Valid() && pc == Refill
      modifies this, pic.objects
      ensures Valid() && pic.objects == old(pic.objects)
      ensures Some(pic.view) == BackendNext(Cfg(), old(pic.view), stamp)
      ensures new1 != null && new2 != null
    {
      BackendKeeps(Cfg(), pic.view, stamp);
      RefillTied();
    }

    // ---- Whole schedules ----

    /** One step of the backend thread, if it can take one. */
    method RunBackend(stamp: string) returns (moved: bool)
      requires Valid()
      modifies this, pic.objects
      ensures Valid() && fresh(pic.objects - old(pic.objects))
      ensures BackendNext(Cfg(), old(pic.view), stamp) == if moved then Some(pic.view) else None
      ensures !moved ==> pic.view == old(pic.view)
    {
      moved := true;
      match pc {
        case LoopTest => TestLoop(stamp);
        case WantLock => EnterLock(stamp);
        case Sleeping => WakeUp(stamp);
        case Holding => Swap(stamp);
        case Swapped => Examine(stamp);
        case Writing(_) => WriteOne(stamp);
        case Refill => RefillSpares(stamp);
        case _ => moved := false;
      }
    }

    /** One call from outside the backend thread, if it can be taken. */
    method Serve(a: Action) returns (moved: bool)
      requires Valid() && !a.Backend?
      modifies this, pic.objects
      ensures Valid() && fresh(pic.objects - old(pic.objects))
      ensures Step(Cfg(), old(pic.view), a) == if moved then Some(pic.view) else None
      ensures !moved ==> pic.view == old(pic.view)
    {
      moved := false;
      match a {
        case Append(msg) =>
          if pc != Holding {
            Append(msg);
            moved := true;
          }
        case Start =>
          if pc == NotStarted {
            Start();
            moved := true;
          }
        case Stop =>
          if pc != NotStarted {
            Stop();
            moved := true;
          }
      }
    }

    /** One action, if it can be taken. */
    method Do(a: Action) returns (moved: bool)
      requires Valid()
      modifies this, pic.objects
      ensures Valid() && fresh(pic.objects - old(pic.objects))
      ensures Step(Cfg(), old(pic.view), a) == if moved then Some(pic.view) else None
      ensures !moved ==> pic.view == old(pic.view)
    {
      if a.Backend? {
        moved := RunBackend(a.stamp);
      } else {
        moved := Serve(a);
      }
    }

    /** What the buffers contain is what the value-level state says they do. */
    lemma BuffersShow()
      requires Valid()
      ensures sink == pic.view.sink
      ensures current != null && current.Valid() && pic.view.cur == Some(current.Contents())
      ensures |buffers| == |pic.view.full|
      ensures forall i :: 0 <= i < |buffers| ==> buffers[i].Valid() && buffers[i].Contents() == pic.view.full[i]
    {
      assert forall i :: 0 <= i < |buffers| ==>
        At(buffers[i], Listed(pic.shared, i), Some(pic.view.full[i]), pic.live, pic.place, pic.text);
    }

    /** One action of a schedule: the run goes on by it if it can be taken. */
    method Perform(a: Action, ghost states: seq<State>, ghost actions: seq<Action>)
        returns (ghost longer: seq<State>, ghost more: seq<Action>)
      requires Valid() && IsLogRun(Cfg(), states, actions) && states[|actions|] == pic.view
      modifies this, pic.objects
      ensures Valid() && fresh(pic.objects - old(pic.objects))
      ensures IsLogRun(Cfg(), longer, more) && longer[|more|] == pic.view
    {
      longer, more := states, actions;
      var moved := Do(a);
      if moved {
        longer, more := states + [pic.view], actions + [a];
      }
    }

    lemma RunShows(states: seq<State>, actions: seq<Action>)
      requires Valid() && IsLogRun(Cfg(), states, actions) && states[|actions|] == pic.view
      ensures current != null && current.Valid() && (next != null <==> buffers == [])
      ensures NoOverload(pic.view) ==>
                Join(sink) + Join(Unwritten(pic.view)) + Join(pic.view.full) + current.Contents()
                == Accepted(size, pic.view.offered)
      ensures |buffers| == |pic.view.full|
      ensures forall i :: 0 <= i < |buffers| ==> buffers[i].Valid() && buffers[i].Contents() == pic.view.full[i]
    {
      BuffersShow();
      NeverAborts(Cfg(), states, actions, |actions|);
      if NoOverload(pic.view) {
        NothingLost(Cfg(), states, actions, |actions|);
      }
    }

    /**
     Any schedule of appends, starts, stops and backend steps, carried out on a new object: it goes through a run
     of the machine, so that while no batch is over 25 buffers, what was written, what the backend still holds,
     what the full buffers hold and what the current buffer holds are together the accepted messages in order.
     */
    method Execute(schedule: seq<Action>) returns (ghost states: seq<State>, ghost actions: seq<Action>)
      requires Valid() && pic.view == Init()
      modifies this, pic.objects
      ensures Valid() && IsLogRun(Cfg(), states, actions) && states[|actions|] == pic.view
      ensures current != null && current.Valid() && (next != null <==> buffers == [])
      ensures NoOverload(pic.view) ==>
                Join(sink) + Join(Unwritten(pic.view)) + Join(pic.view.full) + current.Contents()
                == Accepted(size, pic.view.offered)
      ensures |buffers| == |pic.view.full|
      ensures forall i :: 0 <= i < |buffers| ==> buffers[i].Valid() && buffers[i].Contents() == pic.view.full[i]
    {
      states, actions := [Init()], [];
      for i := 0 to |schedule|
        invariant Valid() && fresh(pic.objects - old(pic.objects))
        invariant IsLogRun(Cfg(), states, actions) && states[|actions|] == pic.view
      {
        states, actions := Perform(schedule[i], states, actions);
      }
      RunShows(states, actions);
    }
  }
}
