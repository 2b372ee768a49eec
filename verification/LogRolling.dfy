/**
 src/logger/log_file.cpp as a function of its calls: when a log file is rolled and when it is flushed.
 The clock is an input. Every call carries the readings it makes, in nanoseconds since the epoch.
 */
module LogRolling {
  import opened Common

  const NANOS: nat := 1_000_000_000
  const DAY: nat := 86_400

  /** Timestamp::TimeSinceEpochSeconds and TimeSinceEpochDays: truncation, of readings since the epoch. */
  function Seconds(reading: nat): nat {
    reading / NANOS
  }

  function Days(reading: nat): nat {
    reading / (NANOS * DAY)
  }

  datatype Config = Config(rollSize: int, flushInterval: int, checkEveryN: int)

  /** One appended text, with the first clock reading at or after it was written. */
  datatype Record = Record(text: string, at: nat)

  /** A file, the second in its name, what was appended to it, and how many of its records were flushed. */
  datatype File = File(since: nat, records: seq<Record>, flushed: nat)

  datatype State = State(
    file: Option<File>, // file_
    closed: seq<File>,  // the files written before, in order
    count: nat,         // count_
    startPeriod: nat,   // start_period_
    lastRoll: nat,      // last_roll_
    lastFlush: nat      // last_flush_
  )

  datatype Call =
    | Append(text: string, first: nat, second: nat)
    | Flush

  function Size(records: seq<Record>): nat {
    if records == [] then 0 else Size(records[..|records| - 1]) + |records[|records| - 1].text|
  }

  /** Closing a file flushes it. */
  function Close(file: Option<File>): seq<File> {
    if file.None? then [] else [FlushFile(file.value)]
  }

  function FlushFile(file: File): File {
    file.(flushed := |file.records|)
  }

  /** LogFile::RollFile: a second roll within the second in which the file was opened is refused. */
  function Roll(s: State, now: nat): State {
    if Seconds(now) > s.lastRoll
    then State(Some(File(Seconds(now), [], 0)), s.closed + Close(s.file), s.count,
               Days(now), Seconds(now), Seconds(now))
    else s
  }

  /** The constructor. */
  function Open(now: nat): State {
    Roll(State(None, [], 0, 0, 0, 0), now)
  }

  /** Writing a record, before any decision to roll or to flush. */
  function Written(s: State, text: string, first: nat): State
    requires s.file.Some?
  {
    var f := s.file.value;
    s.(file := Some(f.(records := f.records + [Record(text, first)])))
  }

  /** Lines 63 to 73 of log_file.cpp: the counter, the change of day, and the flush. */
  function Check(c: Config, s: State, first: nat, second: nat): State
    requires s.file.Some?
  {
    var t := s.(count := s.count + 1);
    if t.count < c.checkEveryN then t
    else if Days(first) > s.startPeriod then Roll(t, second)
    else if Seconds(first) - s.lastFlush > c.flushInterval
    then t.(lastFlush := Seconds(first), file := Some(FlushFile(s.file.value)))
    else t
  }

  /** LogFile::AppendUnLocked. */
  function AppendNext(c: Config, s: State, text: string, first: nat, second: nat): State
    requires s.file.Some?
  {
    var w := Written(s, text, first);
    if Size(w.file.value.records) > c.rollSize then Roll(w, first) else Check(c, w, first, second)
  }

  function Next(c: Config, s: State, call: Call): State
    requires s.file.Some?
  {
    match call
    case Append(text, first, second) => AppendNext(c, s, text, first, second)
    case Flush => s.(file := Some(FlushFile(s.file.value)))
  }

  // ---- Runs ----

  /** The last clock reading of a run. */
  function Latest(start: nat, calls: seq<Call>): nat {
    if calls == [] then start
    else
      var last := calls[|calls| - 1];
      if last.Append? then last.second else Latest(start, calls[..|calls| - 1])
  }

  /** The clock never runs backwards, and its first reading is past the first second of the epoch. */
  predicate Ordered(start: nat, calls: seq<Call>) {
    if calls == [] then Seconds(start) > 0
    else
      var last := calls[|calls| - 1];
      var before := calls[..|calls| - 1];
      Ordered(start, before) && (last.Append? ==> Latest(start, before) <= last.first <= last.second)
  }

  /** The state after a run of calls on a new log file. */
  function After(c: Config, start: nat, calls: seq<Call>): (s: State)
    requires Ordered(start, calls)
    ensures s.file.Some?
  {
    if calls == [] then Open(start) else Next(c, After(c, start, calls[..|calls| - 1]), calls[|calls| - 1])
  }

  /** Every file of a state, in the order in which they were opened. */
  function Files(s: State): seq<File> {
    if s.file.None? then s.closed else s.closed + [s.file.value]
  }

  function Texts(records: seq<Record>): seq<string> {
    seq(|records|, i requires 0 <= i < |records| => records[i].text)
  }

  /** The texts of all files, one after the other. */
  function AllTexts(files: seq<File>): seq<string> {
    if files == [] then [] else AllTexts(files[..|files| - 1]) + Texts(files[|files| - 1].records)
  }

  /** The texts that were passed to Append. */
  function Appended(calls: seq<Call>): seq<string> {
    if calls == [] then []
    else
      var last := calls[|calls| - 1];
      Appended(calls[..|calls| - 1]) + (if last.Append? then [last.text] else [])
  }

  // ---- The invariant ----

  /** The counters of the log file are those of its open file. */
  predicate Dated(s: State, latest: nat) {
    && s.file.Some? && s.file.value.since == s.lastRoll > 0
    && s.startPeriod == s.lastRoll / DAY
    && s.lastRoll <= s.lastFlush <= Seconds(latest)
  }

  /** Whenever the records outgrew the roll size, the roll was refused: the file was not a second old. */
  predicate Tight(c: Config, since: nat, records: seq<Record>) {
    records == [] ||
    (var n := |records| - 1;
     Tight(c, since, records[..n]) && (Size(records) > c.rollSize ==> Seconds(records[n].at) == since))
  }

  /** What is not flushed yet was written since the last flush. */
  ghost predicate Fresh(s: State) {
    s.file.Some? && var f := s.file.value;
      f.flushed <= |f.records| && forall i :: f.flushed <= i < |f.records| ==> Seconds(f.records[i].at) >= s.lastFlush
  }

  /** A file has its records in the order of time, none from before it was opened or after `until`. */
  ghost predicate Within(f: File, until: nat) {
    forall i, j :: 0 <= i <= j < |f.records| ==>
      f.since <= Seconds(f.records[i].at) <= Seconds(f.records[j].at) <= until
  }

  /** A closed file is flushed, is not empty, and was rolled away no later than it had to be. */
  ghost predicate Sealed(c: Config, f: File) {
    f.records != [] && f.flushed == |f.records| && Tight(c, f.since, f.records[..|f.records| - 1])
  }

  /** The second in which the file after file `i` was opened. */
  function Successor(s: State, i: nat): nat {
    if i + 1 < |s.closed| then s.closed[i + 1].since else s.lastRoll
  }

  /** Closed file `i` is sealed, and its records come from before the next file was opened. */
  ghost predicate ShutAt(c: Config, s: State, i: nat)
    requires i < |s.closed|
  {
    Sealed(c, s.closed[i]) && s.closed[i].since < Successor(s, i) && Within(s.closed[i], Successor(s, i))
  }

  ghost predicate Shut(c: Config, s: State) {
    forall i :: 0 <= i < |s.closed| ==> ShutAt(c, s, i)
  }

  lemma SameShut(c: Config, s: State, t: State)
    requires Shut(c, s) && s.closed == t.closed && s.lastRoll == t.lastRoll
    ensures Shut(c, t)
  {
    forall i | 0 <= i < |t.closed| ensures ShutAt(c, t, i) {
      assert ShutAt(c, s, i);
    }
  }

  ghost predicate Inv(c: Config, s: State, latest: nat) {
    && Dated(s, latest) && Shut(c, s) && Fresh(s)
    && Tight(c, s.file.value.since, s.file.value.records) && Within(s.file.value, Seconds(latest))
  }

  lemma DaysOfSeconds(reading: nat)
    ensures Days(reading) == Seconds(reading) / DAY
    ensures Seconds(reading) * 1_000_000_000 <= reading < (Seconds(reading) + 1) * 1_000_000_000
    ensures Days(reading) * 86_400 <= Seconds(reading) < (Days(reading) + 1) * 86_400
  {
    var q := reading / (NANOS * DAY);
    var r := reading % (NANOS * DAY);
    assert reading == q * (NANOS * DAY) + r;
    assert Seconds(reading) == q * DAY + r / NANOS;
  }

  lemma SecondsGrow(a: nat, b: nat)
    requires a <= b
    ensures Seconds(a) <= Seconds(b) && Days(a) <= Days(b)
  {
  }

  // ---- Every call keeps the invariant ----

  lemma SizeSnoc(records: seq<Record>, r: Record)
    ensures Size(records + [r]) == Size(records) + |r.text|
  {
    assert (records + [r])[..|records|] == records;
  }

  /** What the invariant says once a record is written, before it is known whether its file is too large. */
  ghost predicate Pending(c: Config, w: State, now: nat) {
    && Dated(w, now) && Shut(c, w) && Fresh(w)
    && var f := w.file.value;
      f.records != [] && Tight(c, f.since, f.records[..|f.records| - 1]) && Within(f, Seconds(now))
  }

  /** A record written at `first`, no earlier than what is there, stays in the order of time. */
  lemma WrittenWithin(f: File, r: Record, latest: nat)
    requires Within(f, Seconds(latest)) && f.since <= Seconds(latest) && latest <= r.at
    ensures Within(f.(records := f.records + [r]), Seconds(r.at))
  {
    SecondsGrow(latest, r.at);
    var records := f.records + [r];
    forall i, j | 0 <= i <= j < |records|
      ensures f.since <= Seconds(records[i].at) <= Seconds(records[j].at) <= Seconds(r.at)
    {
      if i < |f.records| {
        assert f.since <= Seconds(f.records[i].at) <= Seconds(f.records[i].at) <= Seconds(latest);
      }
    }
  }

  lemma WrittenIsFresh(s: State, text: string, first: nat)
    requires Fresh(s) && s.lastFlush <= Seconds(first)
    ensures Fresh(Written(s, text, first))
  {
  }

  lemma WrittenKeeps(c: Config, s: State, latest: nat, text: string, first: nat)
    requires Inv(c, s, latest) && latest <= first
    ensures Pending(c, Written(s, text, first), first)
  {
    var w := Written(s, text, first);
    var f := w.file.value;
    SecondsGrow(latest, first);
    assert f.records[..|f.records| - 1] == s.file.value.records;
    SameShut(c, s, w);
    WrittenIsFresh(s, text, first);
    WrittenWithin(s.file.value, Record(text, first), latest);
  }

  /** A roll that takes effect closes the file as it is. */
  lemma RollKeeps(c: Config, w: State, before: nat, now: nat)
    requires Pending(c, w, before) && before <= now && Seconds(now) > w.lastRoll
    ensures Inv(c, Roll(w, now), now)
  {
    var r := Roll(w, now);
    var n := |w.closed|;
    DaysOfSeconds(now);
    SecondsGrow(before, now);
    assert r.closed == w.closed + [FlushFile(w.file.value)];
    forall i | 0 <= i <= n
      ensures ShutAt(c, r, i)
    {
      if i < n {
        assert ShutAt(c, w, i) && r.closed[i] == w.closed[i] && Successor(r, i) == Successor(w, i);
      }
    }
  }


  /** On another day than that of its opening a file is at least a second old. */
  lemma NewDayRolls(s: State, first: nat, second: nat)
    requires s.startPeriod == s.lastRoll / DAY && first <= second
    ensures Days(first) > s.startPeriod ==> Seconds(second) > s.lastRoll
  {
    DaysOfSeconds(first);
    SecondsGrow(first, second);
  }

  lemma NewDayKeeps(c: Config, w: State, first: nat, second: nat, count: nat)
    requires Pending(c, w, first) && first <= second && Days(first) > w.startPeriod
    ensures Inv(c, Roll(w.(count := count), second), second)
  {
    NewDayRolls(w, first, second);
    CountKeeps(c, w, first, count);
    RollKeeps(c, w.(count := count), first, second);
  }

  lemma CountKeeps(c: Config, w: State, now: nat, count: nat)
    requires Pending(c, w, now)
    ensures Pending(c, w.(count := count), now)
  {
    var v := w.(count := count);
    SameShut(c, w, v);
  }

  /** The clock moves on; nothing else does. */
  lemma Later(c: Config, s: State, before: nat, now: nat)
    requires Inv(c, s, before) && before <= now
    ensures Inv(c, s, now)
  {
    SecondsGrow(before, now);
  }

  /** The file is too large, and the roll takes effect or is refused. */
  lemma LargeKeeps(c: Config, w: State, first: nat, second: nat)
    requires Pending(c, w, first) && first <= second
    requires w.file.value.records[|w.file.value.records| - 1].at == first
    requires Size(w.file.value.records) > c.rollSize
    ensures Inv(c, Roll(w, first), second)
  {
    if Seconds(first) > w.lastRoll {
      RollKeeps(c, w, first, first);
    }
    Later(c, Roll(w, first), first, second);
  }

  /** The file is small and stays, flushed or not. */
  lemma SmallKeeps(c: Config, w: State, first: nat, second: nat, count: nat)
    requires Pending(c, w, first) && first <= second
    requires Size(w.file.value.records) <= c.rollSize
    ensures Inv(c, w.(count := count), second)
    ensures Inv(c, w.(count := count, lastFlush := Seconds(first), file := Some(FlushFile(w.file.value))), second)
  {
    var kept := w.(count := count);
    CountKeeps(c, w, first, count);
    Later(c, kept, first, second);
    var flushed := kept.(lastFlush := Seconds(first), file := Some(FlushFile(w.file.value)));
    SameShut(c, kept, flushed);
    Later(c, flushed, first, second);
  }

  /** The look at the clock after a small record. */
  lemma CheckKeeps(c: Config, w: State, first: nat, second: nat)
    requires Pending(c, w, first) && first <= second && Size(w.file.value.records) <= c.rollSize
    ensures Inv(c, Check(c, w, first, second), second)
  {
    if w.count + 1 >= c.checkEveryN && Days(first) > w.startPeriod {
      NewDayKeeps(c, w, first, second, w.count + 1);
    } else {
      SmallKeeps(c, w, first, second, w.count + 1);
    }
  }

  lemma AppendKeeps(c: Config, s: State, latest: nat, text: string, first: nat, second: nat)
    requires Inv(c, s, latest) && latest <= first <= second
    ensures Inv(c, AppendNext(c, s, text, first, second), second)
  {
    var w := Written(s, text, first);
    WrittenKeeps(c, s, latest, text, first);
    if Size(w.file.value.records) > c.rollSize {
      LargeKeeps(c, w, first, second);
    } else {
      CheckKeeps(c, w, first, second);
    }
  }

  lemma {:induction false} RunKeepsInv(c: Config, start: nat, calls: seq<Call>)
    requires Ordered(start, calls)
    ensures Inv(c, After(c, start, calls), Latest(start, calls))
  {
    if calls == [] {
      DaysOfSeconds(start);
    } else {
      var before, last := calls[..|calls| - 1], calls[|calls| - 1];
      var s := After(c, start, before);
      RunKeepsInv(c, start, before);
      if last.Append? {
        AppendKeeps(c, s, Latest(start, before), last.text, last.first, last.second);
      } else {
        SameShut(c, s, Next(c, s, Flush));
      }
    }
  }

  // ---- Main results ----

  lemma TextsSnoc(records: seq<Record>, r: Record)
    ensures Texts(records + [r]) == Texts(records) + [r.text]
  {
  }

  lemma AllTextsSnoc(files: seq<File>, f: File)
    ensures AllTexts(files + [f]) == AllTexts(files) + Texts(f.records)
  {
    assert (files + [f])[..|files|] == files;
  }

  lemma SameTexts(w: State, v: State)
    requires w.file.Some? && v.file.Some? && w.closed == v.closed && w.file.value.records == v.file.value.records
    ensures AllTexts(Files(w)) == AllTexts(Files(v))
  {
    AllTextsSnoc(w.closed, w.file.value);
    AllTextsSnoc(v.closed, v.file.value);
  }

  lemma WrittenAddsText(s: State, text: string, first: nat)
    requires s.file.Some?
    ensures AllTexts(Files(Written(s, text, first))) == AllTexts(Files(s)) + [text]
  {
    AllTextsSnoc(s.closed, s.file.value);
    AllTextsSnoc(s.closed, Written(s, text, first).file.value);
    TextsSnoc(s.file.value.records, Record(text, first));
  }

  /** What a call does to the texts in all files: rolling and flushing move none. */
  lemma NextAddsText(c: Config, s: State, call: Call)
    requires s.file.Some?
    ensures AllTexts(Files(Next(c, s, call))) == AllTexts(Files(s)) + (if call.Append? then [call.text] else [])
  {
    if call.Append? {
      var w := Written(s, call.text, call.first);
      var counted := w.(count := s.count + 1);
      var next := Next(c, s, call);
      WrittenAddsText(s, call.text, call.first);
      SameTexts(w, counted);
      RollKeepsTexts(w, call.first);
      RollKeepsTexts(counted, call.second);
      if next != Roll(w, call.first) && next != Roll(counted, call.second) {
        SameTexts(w, next);
      }
    } else {
      SameTexts(s, Next(c, s, call));
    }
  }

  lemma RollKeepsTexts(w: State, now: nat)
    requires w.file.Some?
    ensures AllTexts(Files(Roll(w, now))) == AllTexts(Files(w))
  {
    AllTextsSnoc(w.closed, w.file.value);
    AllTextsSnoc(w.closed, FlushFile(w.file.value));
    AllTextsSnoc(w.closed + Close(w.file), File(Seconds(now), [], 0));
  }

  /** The files, in the order of their names, hold every appended text whole, once, and in order. */
  lemma {:induction false} FilesHoldEverything(c: Config, start: nat, calls: seq<Call>)
    requires Ordered(start, calls)
    ensures AllTexts(Files(After(c, start, calls))) == Appended(calls)
  {
    if calls == [] {
    } else {
      var before := calls[..|calls| - 1];
      FilesHoldEverything(c, start, before);
      NextAddsText(c, After(c, start, before), calls[|calls| - 1]);
    }
  }

  lemma {:induction false} SinceIncreases(c: Config, s: State, i: nat, j: nat)
    requires Shut(c, s) && s.file.Some? && s.file.value.since == s.lastRoll && i < j <= |s.closed|
    ensures Files(s)[i].since < Files(s)[j].since
    decreases j
  {
    assert ShutAt(c, s, j - 1);
    if i == j - 1 {
    } else {
      SinceIncreases(c, s, i, j - 1);
    }
  }

  /** The seconds in the file names strictly increase, so no file is ever opened twice. */
  lemma FilesAreOpenedInOrder(c: Config, start: nat, calls: seq<Call>, i: nat, j: nat)
    requires Ordered(start, calls) && i < j < |Files(After(c, start, calls))|
    ensures Files(After(c, start, calls))[i].since < Files(After(c, start, calls))[j].since
  {
    RunKeepsInv(c, start, calls);
    SinceIncreases(c, After(c, start, calls), i, j);
  }

  lemma {:induction false} TightMeans(c: Config, since: nat, records: seq<Record>, j: nat)
    requires Tight(c, since, records) && 0 < j <= |records| && Size(records[..j]) > c.rollSize
    ensures Seconds(records[j - 1].at) == since
  {
    if j < |records| {
      assert records[..|records| - 1][..j] == records[..j];
      TightMeans(c, since, records[..|records| - 1], j);
    } else {
      assert records[..j] == records;
    }
  }

  /**
   A file has a record after those that outgrew the roll size only if these were all written in the very
   second in which the file was opened: that is the only time at which a roll is refused.
   */
  lemma LargeOnlyInItsFirstSecond(c: Config, start: nat, calls: seq<Call>, i: nat, j: nat)
    requires Ordered(start, calls) && i < |Files(After(c, start, calls))|
    requires var f := Files(After(c, start, calls))[i]; 0 < j < |f.records| && Size(f.records[..j]) > c.rollSize
    ensures var f := Files(After(c, start, calls))[i];
      forall k :: 0 <= k < j ==> Seconds(f.records[k].at) == f.since
  {
    var s := After(c, start, calls);
    RunKeepsInv(c, start, calls);
    var f := Files(s)[i];
    var n := |f.records| - 1;
    if i < |s.closed| {
      assert ShutAt(c, s, i);
    }
    assert f.records[..n][..j] == f.records[..j];
    TightMeans(c, f.since, f.records[..n], j);
  }

  /**
   When an append starts a new file: exactly if the file outgrew the roll size and is at least a second
   old, or it did not, the counter asks for a look at the clock, and the day has changed since it was opened.
   In particular a roll for a new day is never refused.
   */
  lemma RollsExactlyWhen(c: Config, start: nat, calls: seq<Call>, text: string, first: nat, second: nat)
    requires Ordered(start, calls) && Latest(start, calls) <= first <= second
    ensures var s := After(c, start, calls);
      var t := AppendNext(c, s, text, first, second);
      var large := Size(s.file.value.records) + |text| > c.rollSize;
      && (|t.closed| == |s.closed| + 1 <==>
          if large then Seconds(first) > s.file.value.since
          else s.count + 1 >= c.checkEveryN && Days(first) > s.file.value.since / DAY)
      && (|t.closed| != |s.closed| ==>
          t.file == Some(File(Seconds(if large then first else second), [], 0)))
  {
    var s := After(c, start, calls);
    RunKeepsInv(c, start, calls);
    SizeSnoc(s.file.value.records, Record(text, first));
    DaysOfSeconds(first);
    SecondsGrow(first, second);
  }

  /**
   Once the counter has reached its threshold, which it never falls below again, no append leaves a record
   unflushed that is older than the flush interval.
   */
  lemma StaleRecordsAreFlushed(c: Config, start: nat, calls: seq<Call>, text: string, first: nat, second: nat)
    requires Ordered(start, calls) && Latest(start, calls) <= first <= second
    requires c.flushInterval >= 0 && After(c, start, calls).count + 1 >= c.checkEveryN
    ensures var f := AppendNext(c, After(c, start, calls), text, first, second).file.value;
      forall i :: f.flushed <= i < |f.records| ==> Seconds(first) - Seconds(f.records[i].at) <= c.flushInterval
  {
    var s := After(c, start, calls);
    RunKeepsInv(c, start, calls);
    WrittenKeeps(c, s, Latest(start, calls), text, first);
    YoungOrFlushed(c, s, text, first, second);
  }

  lemma YoungOrFlushed(c: Config, s: State, text: string, first: nat, second: nat)
    requires s.file.Some? && Pending(c, Written(s, text, first), first) && first <= second
    requires c.flushInterval >= 0 && s.count + 1 >= c.checkEveryN
    ensures var f := AppendNext(c, s, text, first, second).file.value;
      forall i :: f.flushed <= i < |f.records| ==> Seconds(first) - Seconds(f.records[i].at) <= c.flushInterval
  {
    var w := Written(s, text, first);
    var f := AppendNext(c, s, text, first, second).file.value;
    SecondsGrow(first, second);
    if f.records != [] && f.flushed < |f.records| {
      assert f == w.file.value;
      assert Seconds(first) - s.lastFlush <= c.flushInterval;
    }
  }

  // ---- When a file outgrows its limit by more than a record ----

  /** A record was added to a file that had outgrown the roll size. */
  ghost predicate Overgrown(c: Config, f: File) {
    exists j :: 0 < j < |f.records| && Size(f.records[..j]) > c.rollSize
  }

  ghost predicate SomeOvergrown(c: Config, s: State) {
    exists i :: 0 <= i < |Files(s)| && Overgrown(c, Files(s)[i])
  }

  /** The append leaves the open file too large, in the second in which it was opened: the roll is refused. */
  predicate Refused(c: Config, s: State, call: Call) {
    s.file.Some? && call.Append? && Size(s.file.value.records) + |call.text| > c.rollSize
    && Seconds(call.first) <= s.file.value.since
  }

  /** The open file has outgrown the roll size. */
  predicate Large(c: Config, s: State) {
    s.file.Some? && s.file.value.records != [] && Size(s.file.value.records) > c.rollSize
  }

  /** A record more overgrows a file if it was overgrown or large before. */
  lemma OvergrownSnoc(c: Config, f: File, r: Record)
    ensures Overgrown(c, f.(records := f.records + [r])) <==>
            Overgrown(c, f) || (f.records != [] && Size(f.records) > c.rollSize)
  {
    var g := f.(records := f.records + [r]);
    forall j | 0 < j <= |f.records|
      ensures g.records[..j] == f.records[..j]
    {
    }
    assert f.records[..|f.records|] == f.records;
    if Overgrown(c, f) {
      var j :| 0 < j < |f.records| && Size(f.records[..j]) > c.rollSize;
      assert Size(g.records[..j]) > c.rollSize;
    }
    if f.records != [] && Size(f.records) > c.rollSize {
      assert Size(g.records[..|f.records|]) > c.rollSize;
    }
  }

  /** What decides whether some file is overgrown: the closed files, and the open one. */
  lemma OvergrownAmong(c: Config, s: State)
    requires s.file.Some?
    ensures SomeOvergrown(c, s) <==>
            Overgrown(c, s.file.value) || exists i :: 0 <= i < |s.closed| && Overgrown(c, s.closed[i])
  {
    assert Files(s)[|s.closed|] == s.file.value;
    assert forall i :: 0 <= i < |s.closed| ==> Files(s)[i] == s.closed[i];
  }

  /** Rolling and flushing overgrow no file and heal none. */
  lemma SameRecordsSameGrowth(c: Config, s: State, t: State)
    requires s.file.Some? && t.file.Some?
    requires t.closed == s.closed && t.file.value.records == s.file.value.records
    ensures SomeOvergrown(c, t) <==> SomeOvergrown(c, s)
  {
    OvergrownAmong(c, s);
    OvergrownAmong(c, t);
  }

  lemma RollKeepsGrowth(c: Config, s: State, now: nat)
    requires s.file.Some?
    ensures SomeOvergrown(c, Roll(s, now)) <==> SomeOvergrown(c, s)
  {
    if Seconds(now) > s.lastRoll {
      var r := Roll(s, now);
      OvergrownAmong(c, s);
      OvergrownAmong(c, r);
      assert r.closed == s.closed + [FlushFile(s.file.value)];
      assert Overgrown(c, FlushFile(s.file.value)) <==> Overgrown(c, s.file.value);
      assert r.closed[|s.closed|] == FlushFile(s.file.value);
      assert forall i :: 0 <= i < |s.closed| ==> r.closed[i] == s.closed[i];
    }
  }

  lemma WrittenGrowth(c: Config, s: State, text: string, first: nat)
    requires s.file.Some?
    ensures SomeOvergrown(c, Written(s, text, first)) <==> SomeOvergrown(c, s) || Large(c, s)
  {
    OvergrownSnoc(c, s.file.value, Record(text, first));
    OvergrownAmong(c, s);
    OvergrownAmong(c, Written(s, text, first));
  }

  /** One call: it makes a file overgrown if it appends to a large one, and leaves a large one if it is refused. */
  lemma CallGrowth(c: Config, s: State, latest: nat, call: Call)
    requires Inv(c, s, latest) && (call.Append? ==> latest <= call.first <= call.second)
    ensures SomeOvergrown(c, Next(c, s, call)) <==> SomeOvergrown(c, s) || (call.Append? && Large(c, s))
    ensures Large(c, Next(c, s, call)) <==> if call.Append? then Refused(c, s, call) else Large(c, s)
  {
    if call.Append? {
      AppendGrowth(c, s, call.text, call.first, call.second);
      AppendLarge(c, s, call.text, call.first, call.second);
    } else {
      SameRecordsSameGrowth(c, s, Next(c, s, call));
    }
  }

  lemma AppendGrowth(c: Config, s: State, text: string, first: nat, second: nat)
    requires s.file.Some?
    ensures SomeOvergrown(c, AppendNext(c, s, text, first, second)) <==> SomeOvergrown(c, s) || Large(c, s)
  {
    var w := Written(s, text, first);
    var next := AppendNext(c, s, text, first, second);
    var counted := w.(count := s.count + 1);
    WrittenGrowth(c, s, text, first);
    SameRecordsSameGrowth(c, w, counted);
    RollKeepsGrowth(c, w, first);
    RollKeepsGrowth(c, counted, second);
    if next != Roll(w, first) && next != Roll(counted, second) {
      SameRecordsSameGrowth(c, w, next);
    }
  }

  lemma AppendLarge(c: Config, s: State, text: string, first: nat, second: nat)
    requires s.file.Some? && s.file.value.since == s.lastRoll
    ensures Large(c, AppendNext(c, s, text, first, second)) <==> Refused(c, s, Append(text, first, second))
  {
    SizeSnoc(s.file.value.records, Record(text, first));
  }

  /** Call `k` of a run is refused its roll. */
  ghost predicate RefusedAt(c: Config, start: nat, calls: seq<Call>, k: nat)
    requires Ordered(start, calls) && k < |calls|
  {
    Ordered(start, calls[..k]) && Refused(c, After(c, start, calls[..k]), calls[k])
  }

  /** A refused append is followed by another append. */
  ghost predicate RefusedAndFollowed(c: Config, start: nat, calls: seq<Call>)
    requires Ordered(start, calls)
  {
    exists k, l :: 0 <= k < l < |calls| && RefusedAt(c, start, calls, k) && calls[l].Append?
  }

  ghost predicate SomeRefused(c: Config, start: nat, calls: seq<Call>)
    requires Ordered(start, calls)
  {
    exists k :: 0 <= k < |calls| && RefusedAt(c, start, calls, k)
  }

  // What one more call changes of the two conditions.

  lemma RefusedBefore(c: Config, start: nat, calls: seq<Call>, k: nat)
    requires Ordered(start, calls) && calls != [] && k < |calls| - 1
    ensures RefusedAt(c, start, calls, k) <==> RefusedAt(c, start, calls[..|calls| - 1], k)
  {
    assert calls[..|calls| - 1][..k] == calls[..k];
  }

  lemma SomeRefusedSnoc(c: Config, start: nat, calls: seq<Call>)
    requires Ordered(start, calls) && calls != []
    ensures var before, last := calls[..|calls| - 1], calls[|calls| - 1];
      SomeRefused(c, start, calls) <==> SomeRefused(c, start, before) || Refused(c, After(c, start, before), last)
  {
    var n := |calls| - 1;
    var before := calls[..n];
    forall k | 0 <= k < n
      ensures RefusedAt(c, start, calls, k) <==> RefusedAt(c, start, before, k)
    {
      RefusedBefore(c, start, calls, k);
    }
    if SomeRefused(c, start, before) {
      var k :| 0 <= k < n && RefusedAt(c, start, before, k);
      assert RefusedAt(c, start, calls, k);
    }
    if Refused(c, After(c, start, before), calls[n]) {
      assert RefusedAt(c, start, calls, n);
    }
  }

  lemma FollowedSnoc(c: Config, start: nat, calls: seq<Call>)
    requires Ordered(start, calls) && calls != []
    ensures var before, last := calls[..|calls| - 1], calls[|calls| - 1];
      RefusedAndFollowed(c, start, calls) <==>
      RefusedAndFollowed(c, start, before) || (last.Append? && SomeRefused(c, start, before))
  {
    var n := |calls| - 1;
    var before := calls[..n];
    forall k | 0 <= k < n
      ensures RefusedAt(c, start, calls, k) <==> RefusedAt(c, start, before, k)
    {
      RefusedBefore(c, start, calls, k);
    }
    if RefusedAndFollowed(c, start, before) {
      var k, l :| 0 <= k < l < n && RefusedAt(c, start, before, k) && before[l].Append?;
      assert RefusedAt(c, start, calls, k) && calls[l].Append?;
    }
    if calls[n].Append? && SomeRefused(c, start, before) {
      var k :| 0 <= k < n && RefusedAt(c, start, before, k);
      assert RefusedAt(c, start, calls, k) && calls[n].Append?;
    }
  }

  lemma {:induction false} RefusalsDecide(c: Config, start: nat, calls: seq<Call>)
    requires Ordered(start, calls)
    ensures var s := After(c, start, calls);
      && (SomeOvergrown(c, s) <==> RefusedAndFollowed(c, start, calls))
      && (Large(c, s) ==> SomeRefused(c, start, calls))
      && (SomeRefused(c, start, calls) ==> Large(c, s) || RefusedAndFollowed(c, start, calls))
  {
    if calls == [] {
      OvergrownAmong(c, Open(start));
    } else {
      var before, last := calls[..|calls| - 1], calls[|calls| - 1];
      RefusalsDecide(c, start, before);
      RunKeepsInv(c, start, before);
      SomeRefusedSnoc(c, start, calls);
      FollowedSnoc(c, start, calls);
      CallGrowth(c, After(c, start, before), Latest(start, before), last);
    }
  }

  /**
   The exact condition, over whole runs: some file has a record after those that outgrew the roll size if and only
   if an append took the open file over it in the second in which that was opened, and another append followed.
   */
  lemma OvergrownExactlyWhen(c: Config, start: nat, calls: seq<Call>)
    requires Ordered(start, calls)
    ensures SomeOvergrown(c, After(c, start, calls)) <==> RefusedAndFollowed(c, start, calls)
  {
    RefusalsDecide(c, start, calls);
  }

  /** Call `k` of a run appends a text that leaves the open file within the roll size. */
  ghost predicate SmallAppend(c: Config, start: nat, calls: seq<Call>, k: nat)
    requires Ordered(start, calls) && k < |calls|
  {
    && Ordered(start, calls[..k]) && calls[k].Append?
    && Size(After(c, start, calls[..k]).file.value.records) + |calls[k].text| <= c.rollSize
  }

  ghost function SmallAppends(c: Config, start: nat, calls: seq<Call>, k: nat): nat
    requires Ordered(start, calls) && k <= |calls|
  {
    if k == 0 then 0 else SmallAppends(c, start, calls, k - 1) + (if SmallAppend(c, start, calls, k - 1) then 1 else 0)
  }

  lemma CountOfStep(c: Config, s: State, call: Call)
    requires s.file.Some?
    ensures Next(c, s, call).count == s.count +
              (if call.Append? && Size(s.file.value.records) + |call.text| <= c.rollSize then 1 else 0)
  {
    if call.Append? {
      SizeSnoc(s.file.value.records, Record(call.text, call.first));
    }
  }

  /** The counter counts every append, since the log file was made, that left its file within the roll size. */
  lemma {:induction false} CountIsExact(c: Config, start: nat, calls: seq<Call>, k: nat)
    requires Ordered(start, calls) && k <= |calls|
    ensures Ordered(start, calls[..k]) && After(c, start, calls[..k]).count == SmallAppends(c, start, calls, k)
    decreases k
  {
    PrefixOrdered(start, calls, k);
    if k == 0 {
    } else {
      CountIsExact(c, start, calls, k - 1);
      assert calls[..k][..k - 1] == calls[..k - 1];
      CountOfStep(c, After(c, start, calls[..k - 1]), calls[k - 1]);
    }
  }

  lemma {:induction false} PrefixOrdered(start: nat, calls: seq<Call>, k: nat)
    requires Ordered(start, calls) && k <= |calls|
    ensures Ordered(start, calls[..k])
    decreases |calls|
  {
    if k == |calls| {
      assert calls[..k] == calls;
    } else {
      assert calls[..|calls| - 1][..k] == calls[..k];
      PrefixOrdered(start, calls[..|calls| - 1], k);
    }
  }

  /**
   When an append that starts no new file flushes the open one: exactly if it leaves it within the roll size, the
   counter asks for a look at the clock, and more than the flush interval has passed since the last flush or roll.
   Otherwise it flushes nothing, and the time of the last flush stays.
   */
  lemma FlushesExactlyWhen(c: Config, start: nat, calls: seq<Call>, text: string, first: nat, second: nat)
    requires Ordered(start, calls) && Latest(start, calls) <= first <= second
    requires AppendNext(c, After(c, start, calls), text, first, second).closed == After(c, start, calls).closed
    ensures var s := After(c, start, calls);
      var t := AppendNext(c, s, text, first, second);
      var due := && Size(s.file.value.records) + |text| <= c.rollSize
                 && SmallAppends(c, start, calls, |calls|) + 1 >= c.checkEveryN
                 && Seconds(first) - s.lastFlush > c.flushInterval;
      && t.file.value.records == s.file.value.records + [Record(text, first)]
      && t.file.value.flushed == (if due then |t.file.value.records| else s.file.value.flushed)
      && t.lastFlush == (if due then Seconds(first) else s.lastFlush)
  {
    var s := After(c, start, calls);
    RunKeepsInv(c, start, calls);
    SizeSnoc(s.file.value.records, Record(text, first));
    CountIsExact(c, start, calls, |calls|);
    assert calls[..|calls|] == calls;
    DaysOfSeconds(first);
    SecondsGrow(first, second);
    NoRollMeans(s, first);
    NoRollMeans(Written(s, text, first), first);
    NewDayRolls(s, first, second);
  }

  /** A roll that leaves the closed files as they are does nothing. */
  lemma NoRollMeans(s: State, now: nat)
    requires s.file.Some?
    ensures Roll(s, now).closed == s.closed <==> Roll(s, now) == s
  {
    if Seconds(now) > s.lastRoll {
      assert |Roll(s, now).closed| == |s.closed| + 1;
    }
  }

  /** The counter is never reset: once it has reached its threshold it stays there, through rolls and flushes. */
  lemma {:induction false} CountNeverFalls(c: Config, start: nat, calls: seq<Call>, k: nat)
    requires Ordered(start, calls) && k <= |calls|
    ensures Ordered(start, calls[..k]) && After(c, start, calls[..k]).count <= After(c, start, calls).count
    decreases |calls|
  {
    if k == |calls| {
      assert calls[..k] == calls;
    } else {
      var before := calls[..|calls| - 1];
      assert before[..k] == calls[..k];
      CountNeverFalls(c, start, before, k);
    }
  }

  /** A log file with a limit of one byte, in the second in which it was opened. */
  ghost predicate InFirstSecond(c: Config, calls: seq<Call>, records: seq<Record>) {
    && c == Config(1, 3, 1024) && Ordered(NANOS, calls) && Latest(NANOS, calls) == NANOS
    && var s := After(c, NANOS, calls); s == State(Some(File(1, records, 0)), [], 0, 0, 1, 1)
  }

  /** Another append makes the file larger, and is too early for a roll. */
  lemma StillInFirstSecond(c: Config, calls: seq<Call>, records: seq<Record>)
    requires InFirstSecond(c, calls, records)
    ensures InFirstSecond(c, calls + [Append("aa", NANOS, NANOS)], records + [Record("aa", NANOS)])
    ensures Size(records + [Record("aa", NANOS)]) == Size(records) + 2
  {
    var more := calls + [Append("aa", NANOS, NANOS)];
    assert more[..|calls|] == calls;
    SizeSnoc(records, Record("aa", NANOS));
  }

  /** A file that outgrows its limit: three records of two bytes, a limit of one, all within one second. */
  lemma LargeFileExample() returns (c: Config, calls: seq<Call>)
    ensures c.rollSize == 1 && Ordered(NANOS, calls)
    ensures var s := After(c, NANOS, calls);
      s.closed == [] && |s.file.value.records| == 3 && Size(s.file.value.records) == 6
  {
    c, calls := Config(1, 3, 1024), [];
    var records := [];
    StillInFirstSecond(c, calls, records);
    calls, records := calls + [Append("aa", NANOS, NANOS)], records + [Record("aa", NANOS)];
    StillInFirstSecond(c, calls, records);
    calls, records := calls + [Append("aa", NANOS, NANOS)], records + [Record("aa", NANOS)];
    StillInFirstSecond(c, calls, records);
    calls, records := calls + [Append("aa", NANOS, NANOS)], records + [Record("aa", NANOS)];
  }
}
