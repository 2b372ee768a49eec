/** From AsyncLogging::Append to the bytes in the log files: the two machines put together. */
module LogPipeline {
  import opened Common
  import AsyncLog
  import LogCycles
  import LogFiles
  import LogRolling

  /**
   The backend has handed its records to the log file by these calls, with any clock readings and any
   flushes in between.
   */
  ghost predicate Feeds(s: AsyncLog.State, calls: seq<LogRolling.Call>) {
    LogRolling.Appended(calls) == s.sink
  }

  /**
   While no batch is over 25 buffers, the log files put end to end are a prefix of the accepted messages,
   however often and whenever the log rolled.
   */
  lemma FilesArePrefix(
      cfg: AsyncLog.Config, states: seq<AsyncLog.State>, actions: seq<AsyncLog.Action>, k: nat,
      c: LogRolling.Config, start: nat, calls: seq<LogRolling.Call>)
    requires cfg.Valid() && AsyncLog.IsLogRun(cfg, states, actions) && k < |states|
    requires AsyncLog.NoOverload(states[k])
    requires LogRolling.Ordered(start, calls) && Feeds(states[k], calls)
    ensures Join(LogRolling.AllTexts(LogRolling.Files(LogRolling.After(c, start, calls))))
         <= AsyncLog.Accepted(cfg.size, states[k].offered)
  {
    LogRolling.FilesHoldEverything(c, start, calls);
    AsyncLog.FileIsPrefix(cfg, states, actions, k);
  }

  lemma AllFlushed(c: LogRolling.Config, start: nat, calls: seq<LogRolling.Call>)
    requires LogRolling.Ordered(start, calls) && calls != [] && calls[|calls| - 1] == LogRolling.Flush
    ensures var files := LogRolling.Files(LogRolling.After(c, start, calls));
      forall i :: 0 <= i < |files| ==> files[i].flushed == |files[i].records|
  {
    var s := LogRolling.After(c, start, calls);
    LogRolling.RunKeepsInv(c, start, calls);
    forall i | 0 <= i < |s.closed|
      ensures s.closed[i].flushed == |s.closed[i].records|
    {
      assert LogRolling.ShutAt(c, s, i);
    }
  }

  /**
   When the backend has returned, after the flush at src/logger/async_logging.cpp:121, every file is flushed
   to its last record, and what the files lack of the accepted messages is what had not been swapped out.
   */
  lemma FilesAfterExit(
      cfg: AsyncLog.Config, states: seq<AsyncLog.State>, actions: seq<AsyncLog.Action>, k: nat,
      c: LogRolling.Config, start: nat, calls: seq<LogRolling.Call>)
    requires cfg.Valid() && AsyncLog.IsLogRun(cfg, states, actions) && k < |states|
    requires AsyncLog.NoOverload(states[k]) && states[k].pc == AsyncLog.Exited
    requires LogRolling.Ordered(start, calls) && Feeds(states[k], calls)
    requires calls != [] && calls[|calls| - 1] == LogRolling.Flush
    ensures var files := LogRolling.Files(LogRolling.After(c, start, calls));
      && states[k].cur.Some?
      && Join(LogRolling.AllTexts(files)) + (Join(states[k].full) + states[k].cur.value)
         == AsyncLog.Accepted(cfg.size, states[k].offered)
      && forall i :: 0 <= i < |files| ==> files[i].flushed == |files[i].records|
  {
    LogRolling.FilesHoldEverything(c, start, calls);
    AsyncLog.ExitLosesOnlyUnswapped(cfg, states, actions, k);
    AllFlushed(c, start, calls);
  }

  /**
   While the backend is running, too: a round of its loop ends with a flush (src/logger/async_logging.cpp:119), and
   then everything that was accepted before the round is in the log files, and flushed.
   */
  lemma FilesAfterRound(
      cfg: AsyncLog.Config, states: seq<AsyncLog.State>, actions: seq<AsyncLog.Action>, j: nat, k: nat,
      c: LogRolling.Config, start: nat, calls: seq<LogRolling.Call>)
    requires cfg.Valid() && AsyncLog.IsLogRun(cfg, states, actions) && j <= k < |states|
    requires states[j].pc != AsyncLog.NotStarted && !LogCycles.WasStopped(actions, k)
    requires LogCycles.Turns(actions, j, k) >= LogCycles.ToWritten(states[j]) + LogCycles.Appends(actions, j, k)
    requires AsyncLog.NoOverload(states[k])
    requires LogRolling.Ordered(start, calls) && Feeds(states[k], calls)
    requires calls != [] && calls[|calls| - 1] == LogRolling.Flush
    ensures var files := LogRolling.Files(LogRolling.After(c, start, calls));
      && AsyncLog.Accepted(cfg.size, states[j].offered) <= Join(LogRolling.AllTexts(files))
      && forall i :: 0 <= i < |files| ==> files[i].flushed == |files[i].records|
  {
    LogCycles.EverythingIsWritten(cfg, states, actions, j, k);
    LogRolling.FilesHoldEverything(c, start, calls);
    AllFlushed(c, start, calls);
  }

  /**
   The same for the bytes: as long as the log file object has had every write taken in full, what is on the
   disk, in all files together, is a prefix of the accepted messages.
   */
  lemma DiskIsPrefix(
      cfg: AsyncLog.Config, states: seq<AsyncLog.State>, actions: seq<AsyncLog.Action>, k: nat,
      log: LogFiles.LogFile, start: nat, calls: seq<LogRolling.Call>)
    requires cfg.Valid() && AsyncLog.IsLogRun(cfg, states, actions) && k < |states|
    requires AsyncLog.NoOverload(states[k])
    requires LogRolling.Ordered(start, calls) && Feeds(states[k], calls)
    requires log.Valid() && log.whole && log.View() == LogRolling.After(log.config, start, calls)
    ensures log.Disk() <= AsyncLog.Accepted(cfg.size, states[k].offered)
  {
    log.DiskIsTexts();
    FilesArePrefix(cfg, states, actions, k, log.config, start, calls);
  }
}
