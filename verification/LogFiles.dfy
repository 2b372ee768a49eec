/**
 The classes FileUtil (src/logger/file_util.cpp) and LogFile (src/logger/log_file.cpp), updated in place.
 Each call of fwrite takes some of the bytes it is offered: how many each coming call is willing to take is
 an input, and a call beyond that list takes none.
 */
module LogFiles {
  import opened Common
  import opened LogRolling

  /** What the first call of a script takes out of `len` bytes, and what is left of the script. */
  function Take(willing: seq<nat>, len: nat): nat {
    if willing == [] then 0 else if willing[0] < len then willing[0] else len
  }

  function Rest(willing: seq<nat>): seq<nat> {
    if willing == [] then [] else willing[1..]
  }

  /** What the retry loop writes of `len` bytes: it gives up at the first call that takes nothing. */
  function Retried(willing: seq<nat>, len: nat): (n: nat)
    ensures n <= len
    decreases len
  {
    if Take(willing, len) == 0 then 0
    else Take(willing, len) + Retried(Rest(willing), len - Take(willing, len))
  }

  /** What FileUtil::Append writes of `len` bytes. */
  function Taken(willing: seq<nat>, len: nat): (n: nat)
    ensures n <= len
  {
    Take(willing, len) + Retried(Rest(willing), len - Take(willing, len))
  }

  /** All that the calls up to the first unwilling one would take. */
  function Willingness(willing: seq<nat>): nat {
    if willing == [] || willing[0] == 0 then 0 else willing[0] + Willingness(willing[1..])
  }

  lemma {:induction false} RetriedIsCapped(willing: seq<nat>, len: nat)
    ensures Retried(willing, len) == if Willingness(willing) < len then Willingness(willing) else len
    decreases len
  {
    if Take(willing, len) == 0 {
    } else {
      RetriedIsCapped(Rest(willing), len - Take(willing, len));
    }
  }

  /**
   Short writes lose nothing as long as calls keep taking something: the append is whole exactly if the
   first call and the calls after it up to the first one that takes nothing take enough. The first call
   alone may take nothing and is still retried.
   */
  lemma WholeExactlyWhen(willing: seq<nat>, len: nat)
    ensures Taken(willing, len) == len <==>
            len == 0 || (willing != [] && willing[0] + Willingness(willing[1..]) >= len)
  {
    RetriedIsCapped(Rest(willing), len - Take(willing, len));
  }

  /** Writing a text in two pieces. */
  lemma Grow(before: string, data: string, n: nat, x: nat)
    requires n + x <= |data|
    ensures before + data[..n] + data[n..][..x] == before + data[..n + x]
  {
    assert data[..n] + data[n..][..x] == data[..n + x];
  }

  class FileUtil {
    var contents: string // what the stream has taken
    var flushed: nat     // how much of it was written through
    var written: int     // written_bytes_

    ghost predicate Valid()
      reads this
    {
      flushed <= |contents|
    }

    constructor ()
      ensures Valid() && contents == "" && flushed == 0 && written == 0
    {
      contents, flushed, written := "", 0, 0;
    }

    /** One call of fwrite that is willing to take up to `most` bytes. */
    method Write(data: string, willing: seq<nat>) returns (n: nat)
      requires Valid()
      modifies this
      ensures Valid() && n == Take(willing, |data|) && contents == old(contents) + data[..n]
      ensures flushed == old(flushed) && written == old(written)
    {
      n := if willing == [] then 0 else if willing[0] < |data| then willing[0] else |data|;
      contents := contents + data[..n];
    }

    /** The file grows by the part that was taken; the counter by the whole length, taken or not. */
    method Append(data: string, willing: seq<nat>)
      requires Valid()
      modifies this
      ensures Valid() && contents == old(contents) + data[..Taken(willing, |data|)]
      ensures written == old(written) + |data| && flushed == old(flushed)
    {
      var n := Write(data, willing);
      var remain := |data| - n;
      var coming := if willing == [] then [] else willing[1..];
      while remain > 0
        invariant Valid() && 0 <= remain && n + remain == |data|
        invariant n + Retried(coming, remain) == Taken(willing, |data|)
        invariant contents == old(contents) + data[..n]
        invariant flushed == old(flushed) && written == old(written)
      {
        var x := Write(data[n..], coming);
        if x == 0 {
          break;
        }
        Grow(old(contents), data, n, x);
        n := n + x;
        remain := |data| - n;
        coming := if coming == [] then [] else coming[1..];
      }
      written := written + |data|;
    }

    method Flush()
      requires Valid()
      modifies this
      ensures Valid() && flushed == |contents| && contents == old(contents) && written == old(written)
    {
      flushed := |contents|;
    }
  }

  /** The text of a list of records. */
  function Text(records: seq<Record>): string {
    Join(Texts(records))
  }

  lemma TextSnoc(records: seq<Record>, r: Record)
    ensures Text(records + [r]) == Text(records) + r.text
  {
    TextsSnoc(records, r);
    JoinSnoc(Texts(records), r.text);
  }

  /** These bytes, so many of them flushed and so many counted, are a file's. */
  predicate AreOf(contents: string, flushed: nat, written: int, f: File) {
    && f.flushed <= |f.records| && written == Size(f.records)
    && contents == Text(f.records) && flushed == |Text(f.records[..f.flushed])|
  }

  /** One more record, written whole. */
  lemma GrowsWhole(contents: string, flushed: nat, written: int, f: File, r: Record)
    requires AreOf(contents, flushed, written, f)
    ensures AreOf(contents + r.text, flushed, written + |r.text|, f.(records := f.records + [r]))
  {
    TextSnoc(f.records, r);
    SizeSnoc(f.records, r);
    assert (f.records + [r])[..f.flushed] == f.records[..f.flushed];
  }

  /** An object for a file holds its records, and what was flushed of them. */
  ghost predicate Holds(disc: FileUtil, f: File)
    reads disc
  {
    disc.Valid() && AreOf(disc.contents, disc.flushed, disc.written, f)
  }

  /** The text of each file. */
  function FileTexts(files: seq<File>): seq<string> {
    if files == [] then [] else FileTexts(files[..|files| - 1]) + [Text(files[|files| - 1].records)]
  }

  lemma FileTextsSnoc(files: seq<File>, f: File)
    ensures FileTexts(files + [f]) == FileTexts(files) + [Text(f.records)]
  {
    assert (files + [f])[..|files|] == files;
  }

  /** File by file or record by record, the texts of some files are the same. */
  lemma {:induction false} FileByFile(files: seq<File>)
    ensures Join(FileTexts(files)) == Join(AllTexts(files))
  {
    if files == [] {
    } else {
      var n := |files| - 1;
      FileByFile(files[..n]);
      JoinSnoc(FileTexts(files[..n]), Text(files[n].records));
      JoinConcat(AllTexts(files[..n]), Texts(files[n].records));
    }
  }

  class LogFile {
    const config: Config
    var file: FileUtil?
    var count: nat
    var startPeriod: nat
    var lastRoll: nat
    var lastFlush: nat

    ghost var closed: seq<File>    // the files written before
    ghost var left: seq<string>    // the bytes that each of them was left with when it was closed
    ghost var records: seq<Record> // what was appended to the open file
    ghost var flushed: nat         // how many of these were flushed
    ghost var whole: bool          // every append so far was taken in full

    /** The state of the program as the specification sees it. */
    ghost function View(): State
      reads this
    {
      State(if file == null then None else Some(File(lastRoll, records, flushed)),
            closed, count, startPeriod, lastRoll, lastFlush)
    }

    /**
     The open file's byte counter is the size of its records; and while everything was taken in full, the bytes
     of every file, open or closed, are those of its records.
     */
    ghost predicate Valid()
      reads this, file
    {
      && (file != null ==>
            && file.Valid() && file.written == Size(records) && flushed <= |records|
            && (whole ==> Holds(file, File(lastRoll, records, flushed))))
      && (whole ==> left == FileTexts(closed))
    }

    /** The bytes of all files, in the order in which they were opened. */
    ghost function Disk(): string
      reads this, file
    {
      if file == null then Join(left) else Join(left) + file.contents
    }

    /** While everything was taken in full, the bytes of all files are the texts of all records, in order. */
    lemma DiskIsTexts()
      requires Valid() && whole
      ensures Disk() == Join(AllTexts(Files(View())))
    {
      FileByFile(closed);
      if file != null {
        AllTextsSnoc(closed, View().file.value);
        JoinConcat(AllTexts(closed), Texts(records));
      }
    }

    /** The constructor leaves a null file when the clock is in the first second of the epoch. */
    constructor (config: Config, now: nat)
      ensures Valid() && this.config == config && View() == Open(now) && whole
      ensures file != null <==> Seconds(now) > 0
      ensures file != null ==> fresh(file)
    {
      this.config := config;
      file, count, startPeriod, lastRoll, lastFlush := null, 0, 0, 0, 0;
      closed, left, records, flushed, whole := [], [], [], 0, true;
      new;
      RollFile(now);
    }

    /** A roll closes the file with all its bytes, which stay, and opens a new one; or it is refused. */
    method RollFile(now: nat)
      requires Valid()
      modifies this, file
      ensures Valid() && View() == Roll(old(View()), now)
      ensures whole == old(whole) && Disk() == old(Disk()) && (file == old(file) || fresh(file))
    {
      var second, day := Seconds(now), Days(now);
      if second > lastRoll {
        CloseFile();
        startPeriod, lastRoll, lastFlush := day, second, second;
        OpenFile();
      }
    }

    /** The new FileUtil. */
    method OpenFile()
      requires Valid() && file == null
      modifies this`file, this`records, this`flushed
      ensures Valid() && file != null && fresh(file) && records == [] && flushed == 0 && Disk() == old(Disk())
    {
      file := new FileUtil();
      records, flushed := [], 0;
      assert Join(left) + "" == Join(left);
    }

    /** The destructor of FileUtil, which flushes and closes the old file when the new one takes its place. */
    method CloseFile()
      requires Valid()
      modifies this, file
      ensures Valid() && file == null && Disk() == old(Disk()) && whole == old(whole)
      ensures closed == old(closed) + Close(old(View().file)) && count == old(count)
    {
      if file == null {
        return;
      }
      FlushOpen();
      ghost var f := File(lastRoll, records, flushed);
      FileTextsSnoc(closed, f);
      JoinSnoc(left, file.contents);
      closed, left := closed + [f], left + [file.contents];
      file := null;
    }

    /** The write at the head of AppendUnLocked. */
    method WriteRecord(data: string, ghost first: nat, willing: seq<nat>)
      requires Valid() && file != null
      modifies this`records, this`whole, file
      ensures Valid() && View() == Written(old(View()), data, first)
      ensures whole == (old(whole) && Taken(willing, |data|) == |data|)
      ensures file.contents == old(file.contents) + data[..Taken(willing, |data|)]
    {
      ghost var r, n, f := Record(data, first), Taken(willing, |data|), File(lastRoll, records, flushed);
      if whole && n == |data| {
        GrowsWhole(file.contents, file.flushed, file.written, f, r);
        assert data[..n] == data;
      }
      SizeSnoc(records, r);
      file.Append(data, willing);
      whole := whole && n == |data|;
      records := records + [r];
    }

    /** Lines 63 to 73: the counter, the change of day, and the flush. */
    method CheckClock(first: nat, second: nat)
      requires Valid() && file != null
      modifies this, file
      ensures Valid() && file != null && (file == old(file) || fresh(file))
      ensures View() == Check(config, old(View()), first, second) && whole == old(whole) && Disk() == old(Disk())
    {
      count := count + 1;
      if count >= config.checkEveryN {
        if first / (NANOS * DAY) > startPeriod {
          RollFile(second);
        } else if first / NANOS - lastFlush > config.flushInterval {
          lastFlush := first / NANOS;
          FlushOpen();
        }
      }
    }

    /**
     The program does what the specification says, also when the file takes only a part of the text; and the
     bytes of all files together grow by exactly the part that was taken, whether or not the log rolls.
     */
    method AppendUnLocked(data: string, first: nat, second: nat, willing: seq<nat>)
      requires Valid() && file != null
      modifies this, file
      ensures Valid() && file != null && (file == old(file) || fresh(file))
      ensures View() == AppendNext(config, old(View()), data, first, second)
      ensures whole == (old(whole) && Taken(willing, |data|) == |data|)
      ensures Disk() == old(Disk()) + data[..Taken(willing, |data|)]
    {
      WriteRecord(data, first, willing);
      Assoc(Join(left), old(file.contents), data[..Taken(willing, |data|)]);
      if file.written > config.rollSize {
        RollFile(first);
      } else {
        CheckClock(first, second);
      }
    }

    /** file_->Flush(). */
    method FlushOpen()
      requires Valid() && file != null
      modifies this`flushed, file
      ensures Valid() && flushed == |records| && Disk() == old(Disk())
    {
      file.Flush();
      flushed := |records|;
      assert records[..flushed] == records;
    }

    /** LogFile::Flush, under the mutex if there is one. */
    method Flush()
      requires Valid() && file != null
      modifies this`flushed, file
      ensures Valid() && View() == Next(config, old(View()), LogRolling.Flush) && Disk() == old(Disk())
    {
      FlushOpen();
    }
  }
}
