# TurboNet: verified models

TurboNet is a C++20 network library with a thread pool, an asynchronous logger and an epoll front end. This
project models the parts of it whose correctness is hardest to see, and proves what they are for. The command
`dafny verify dfyconfig.toml` verifies all of it with Dafny 4.11.

## How the models are built

**Concurrent parts.** The thread pool, the asynchronous logger and the count-down latch with its mutex and
condition variable are step machines. A state records every thread's program counter, the owner of every
mutex and the shared data; an action is one atomic step of one thread: taking or releasing a mutex, going to
sleep, waking up, changing one atomic counter. A run is any finite sequence of actions, for any number of
threads, and the main results hold in every state of every run. Wake-ups without a reason, timeouts and the
choice that a notify makes are free.

**The same parts as objects.** Each step machine is accompanied by the class of the source with its fields
updated in place (`ThreadPools.Pool`, `AsyncLogging.AsyncLogging`, `Latches.CountDownLatch`,
`Latches.MutexLock`, `Latches.Thread`). The pool and the latch keep the run of the machine that they have gone
through as part of what makes them valid, so every result about runs is a result about the object; their
`Execute` methods carry out any schedule. In the pool the counters are 32-bit unsigned with plain ++ and --, and
what the program takes for granted (that no counter wraps, that the thread to join is in the list, is started
and not joined) is proved where it happens. `AsyncLogging` works on buffer objects that are moved by pointer,
and proves that no buffer is ever in two places.

**Sequential parts.** The net buffer, the log stream with its fixed buffer, the poller with its channels, and
the log file are classes with arrays and loops, each proved against a specification on values about which the
promises are then proved.

| files | subject |
|---|---|
| `ThreadPool` (machine), `ThreadPools` (class) | the thread pool |
| `PoolInvariant`, `PoolWorker`, `PoolClient`, `PoolMonitor`, `PoolTheorems` | its invariant, and what follows for counters, tasks, reaping and asserts |
| `PoolGuards` | its mutexes and waits line by line, as uses of `Guards` |
| `PoolWakeUps`, `PoolTimeouts`, `PoolSpare` | wake-ups: when one is lost, what a lost one costs, which pools can lose one |
| `PoolDeadlock`, `PoolProgress`, `PoolEnding` | deadlock freedom, progress, how workers and monitor return after `ShutDown` |
| `PoolQueue`, `PoolGrowth`, `PoolExamples` | the queue limit, how many threads are made, concrete runs |
| `AsyncLog` (machine), `AsyncLogging` (class) | the asynchronous logger |
| `LogCycles`, `LogPacking` | that its backend keeps writing until it is stopped; when it is overloaded |
| `LogRolling` (specification), `LogFiles` (classes), `LogPipeline` | log files, and the whole way from a message to its file |
| `Numerals`, `FixedBuffers`, `LogStreams` | printing into fixed buffers |
| `BufferLayout` (specification), `BufferRoom`, `NetBuffer` (class) | the network buffer, and its room for prepending |
| `Registration` (specification), `EpollPoller` (classes) | channels, the poller and the kernel's interest set |
| `EventHistory` | what the kernel watches, told by the calls of a channel |
| `Guards` | mutex holder and condition variables under arbitrary use |
| `Latch` (machine), `Latches` (classes) | the latch, and the start of a thread |
| `Common` | absent values, counting, texts, runs |

## Assumptions

- Thread pool: the constructor has returned before `Commit` is called, no `Commit` is in progress or starts
  after `ShutDown` (the assert at `src/base/thread_pool.h:88` is outside the lock, so the callers have to see
  to it), the core size is at most the maximum size, and thread ids are unique among threads not yet joined. The
  test of the queue and the decision to sleep are one step: both are under the task mutex, and the only thing
  that can come between is `ShutDown`. A waiter that is notified may still report a timeout; only
  `PoolWakeUps.NoLostWakeUp` and `PoolWakeUps.PromptRunHasNoDesertion` suppose that none does.
- Asynchronous logger: `Stop` is called after `Start`.
- Log file: the clock is an input, does not run backwards, and the first reading is past the first second of
  the epoch. Without the last, the constructor leaves a null file (`LogFiles.LogFile.constructor`). What is
  said of the bytes on the disk, in `LogFiles.LogFile.DiskIsTexts` and `LogPipeline.DiskIsPrefix`, supposes a
  sink that takes every write in full.
- Poller: asserts are compiled in, because the erase at `src/net/epoll_poller.cpp:94` is inside one. Any number of
  channels may be made for one descriptor; an update that trips the assert at `src/net/epoll_poller.cpp:65` ends the
  run. A descriptor is not closed while the kernel watches it.
- Floating-point output: `%.12g` yields fewer than 48 characters.

## What the proofs show about the code

- `kMaxTaskSize_` is not a bound: a commit takes the queue over it exactly if the queue was full at the test at
  `src/base/thread_pool.h:100` (`PoolQueue.OverLimitExactlyWhenFull`, `PoolQueue.LimitHoldsExactlyWhenNeverFull`,
  with a concrete run in `PoolExamples.QueueOverLimit`).
- A worker that is notified after its deadline goes through `src/base/thread_pool.cpp:49` without looking at the
  queue. If more than the core are alive it leaves, and the task it was woken for stays in the queue while the
  others sleep. That is the only way to lose a wake-up (`PoolWakeUps.AttendedExactlyWithoutDesertion`), and with a
  non-empty core exactly the pools whose maximum is above their core have runs with it
  (`PoolSpare.DesertsExactlyWithSpareThreads`).
- A wake-up that is lost is only late: the timeouts of the sleepers bring a worker back to the queue, after no more
  of them than there are threads beyond the core (`PoolTimeouts.TimeoutsEmptyTheQueue`,
  `PoolTimeouts.SomebodyTimesOut`, with a concrete run in `PoolExamples.LateWakeUpDelaysTask`).
- `ShutDown` wakes nobody, and still no task is left behind: a pool with a non-empty core in which nothing can
  move and no wake-up was lost has finished every task (`PoolDeadlock.QuiescentMeansDone`), and every schedule gets
  there (`PoolProgress.EveryScheduleFinishes`). `ShutDown` is for good (`PoolTheorems.ShutDownIsFinal`), but a thread
  returns exactly if it is awake at some time after it: workers that sleep, and a monitor that nobody wakes, go on
  sleeping (`PoolEnding.WorkersReturnExactlyIfAwake`, `PoolEnding.MonitorReturnsExactlyIfWoken`).
- The logger drops messages only under real load: while every message is shorter than a buffer, a batch that is cut
  holds at least 13 buffers' worth of text (`LogPacking.OverloadIsReal`).
- A message at least as long as a log buffer is dropped without a trace (`AsyncLog.AcceptedExactlyWhenShort`).
- After `Stop`, what has not been swapped out is not written: the file is a prefix of what was accepted
  (`AsyncLog.ExitLosesOnlyUnswapped`), and can lack a message (`AsyncLog.StopLosesMessage`).
- `Channel::Remove` can never succeed: it asserts the opposite of what the poller asserts
  (`Registration.ChannelRemoveAlwaysFails`). It is also all that clears the flag that the destructor of `Channel`
  asserts to be clear, so a channel whose events were ever changed cannot be destroyed
  (`Registration.DestructibleExactlyIfUnused`).
- Any change of events puts a channel that is not watched into the kernel's set, also when it leaves the channel
  without events: `DisableReading`, `DisableWriting` and `DisableAll` on a new or deleted channel
  (`Registration.WatchedWantEventsExactlyWhen`, with a concrete run in `Registration.DisableReadingAddsInVain`).
- A log file outgrows its limit by more than one record if and only if an append left it over the limit in the second
  in which it was opened and another append followed (`LogRolling.OvergrownExactlyWhen`,
  `LogRolling.LargeOnlyInItsFirstSecond`, with a concrete file in `LogRolling.LargeFileExample`).
- `count_` of a log file is never reset, so that once it has reached its threshold the clock is read on every
  small append (`LogRolling.CountIsExact`, `LogRolling.CountNeverFalls`).
- Prepending is safe for eight bytes only right after a fresh start of the buffer; what remains depends on what was read
  and prepended since (`BufferRoom.PrependAllowedExactlyWhen`). What a caller can rely on without knowing any sizes is
  `BufferRoom.CarefulRunsWork`.

## Model

| member | source | states |
|---|---|---|
| PoolTheorems.RunKeepsInv | src/base/thread_pool.cpp:37-115 | every reachable state of the pool satisfies the invariant: who holds which mutex at which line, both counters, tasks, reaping, wake-ups |
| PoolTheorems.CountersAreExact | src/base/thread_pool.cpp:40-77 | `now_thread_num_` and `idle_thread_num_` are the numbers of workers registered and idle at their program counters, now <= max always, and now >= core while running or while work is left |
| PoolTheorems.CountersNeverWrap | src/base/thread_pool.cpp:50-77 | no step wraps an unsigned counter: each moves by at most one as an integer |
| PoolTheorems.EveryTaskOnce | src/base/thread_pool.h:98-112 | every committed task is queued once, held by exactly one worker, or finished once, and only one of these |
| PoolTheorems.TakenInCommitOrder | src/base/thread_pool.cpp:66-67 | the n-th task to leave the queue is the n-th one committed |
| PoolTheorems.ExitMeansDrained | src/base/thread_pool.cpp:59-64 | once a worker is on the shutdown exit the queue is empty, stays empty for the rest of the run, and nothing more is committed |
| PoolTheorems.ShutDownIsFinal | src/base/thread_pool.cpp:129-131 | once the pool is shut down it never runs again, whatever happens: no call of `Commit` arrives, nothing is queued and no thread is added |
| PoolEnding.StatusTells | src/base/thread_pool.cpp:60-131 | over any run the pool is running if and only if `ShutDown` has not been called, and terminated if and only if a worker has taken the shutdown exit since the last call |
| PoolEnding.StaysRoused | src/base/thread_pool.cpp:88-90 | once the pool is shut down, a monitor that is woken never comes back to its list: it waits for its mutex, has it back, or has returned |
| PoolEnding.WokenMonitorReturns | src/base/thread_pool.cpp:88-90 | every step that it takes then leads there: it takes its mutex back, and returns with the mutex free, reaping nothing on the way |
| PoolEnding.MonitorReturnsExactlyIfWoken | src/base/thread_pool.cpp:86-90 | between a state in which the pool has been shut down and a later one in which no thread can move, the monitor returns if and only if it is woken |
| PoolEnding.WorkersReturnExactlyIfAwake | src/base/thread_pool.cpp:46-64 | likewise the function of a worker has returned by then if and only if the worker was awake at some point since the pool was shut down |
| PoolGrowth.ConstructorMakesTheCore | src/base/thread_pool.cpp:27-40 | when the constructor has returned, and before the first commit, there are exactly as many threads as the core |
| PoolGrowth.CommitMakesOneExactlyWhenFull | src/base/thread_pool.h:100-107 | between its test at line 100 and the push of its task a commit makes exactly one thread if the queue was full and fewer than the maximum were alive, and none otherwise, whatever the workers do |
| PoolGrowth.StartReturnsWithTid | src/base/thread.cpp:50-51 | a call of AddThread goes on after starting a thread only when its latch has been counted down and its tid is set |
| PoolTheorems.ListIsExact | src/base/thread_pool.cpp:75-107 | the thread list is exactly the threads not yet reaped, each once, and every thread that left after a timeout is on the monitor's list |
| PoolTheorems.ReapedOnce | src/base/thread_pool.cpp:92-108 | a thread is joined and erased only from the front of the monitor's list, only after its function returned, and only once |
| PoolTheorems.MonitorIsNotified | src/base/thread_pool.cpp:52-55 | with its mutex free, the monitor is never asleep and un-notified while there is something to reap |
| PoolTheorems.NoAssertFails | src/base/thread.cpp:27-58 | in every interleaving: the pool is running where thread_pool.cpp:38 asserts it; `Start` finds its thread not started (thread.cpp:28), and when the latch that it waits for has been counted down the tid is set (51); the thread to be joined has been started and is not joined (56); and whoever comes to a wait owns the mutex of its condition |
| PoolGuards.PoolRunIsGuardRun | src/base/condition.cpp:15-34 | for both mutexes that have a condition, every run of the pool, with any number of threads, is a run of the mutex machine of `Guards` in which locks and waits are taken line by line and the holder is noted and cleared |
| PoolGuards.WaitsAreLocked | src/base/condition.cpp:15-34 | so in every reachable state the asserts of condition.cpp:16 and 30 hold for every thread of the pool that comes to a wait |
| PoolQueue.OverLimitExactlyWhenFull | src/base/thread_pool.h:100-111 | for any commit, its test at line 100 and its push, the same step or a later one: the queue is over `kMaxTaskSize_` after the push if and only if it was full at the test |
| PoolQueue.LimitHoldsExactlyWhenNeverFull | src/base/thread_pool.h:98-112 | over any run the queue never exceeds its limit if and only if no commit that pushed had found it full |
| PoolExamples.QueueOverLimit | src/base/thread_pool.h:105-111 | a concrete run of a pool with a core of one and a limit of one in which the queue exceeds the limit |
| PoolWakeUps.NoLostWakeUp | src/base/thread_pool.cpp:46-58 | with a task queued, no commit between push and `Notify`, and every waiter so far notified or timed out but not both, some worker is awake and will look at the queue, or nobody sleeps and at least core workers have not decided to leave |
| PoolWakeUps.CoverLostExactlyByDesertion | src/base/thread_pool.cpp:48-51 | a step leaves queued work unattended, with sleepers and nobody awake who may look, exactly if it is the last such worker passing line 49 with more than the core alive |
| PoolWakeUps.AttendedExactlyWithoutDesertion | src/base/thread_pool.cpp:46-58 | over any run, notified waiters that report a timeout included, queued work is attended to all along if and only if no step is of that kind |
| PoolWakeUps.PromptRunHasNoDesertion | src/base/thread_pool.cpp:46-58 | when no notified waiter reports a timeout, no step is of that kind |
| PoolTimeouts.TimeoutsEmptyTheQueue | src/base/thread_pool.cpp:46-51 | in any stretch of any run that ends where no thread can move: if more sleepers were woken in it than the pool had threads beyond its core at the beginning, the queue was empty in between, so that every task left lying has been taken |
| PoolTimeouts.SomebodyTimesOut | src/base/thread_pool.cpp:46-51 | a pool with a core that rests with a task queued has a sleeper whose timeout can come next |
| PoolTimeouts.TimeoutAtRest | src/base/thread_pool.cpp:47-67 | what that timeout does: the sleeper takes the front of the queue if no more than the core are alive, and is on its way out otherwise |
| PoolSpare.DesertsExactlyWithSpareThreads | src/base/thread_pool.cpp:48-51 | with a non-empty core, no run of a pool loses a wake-up if and only if its maximum is its core |
| PoolExamples.LateWakeUpDelaysTask | src/base/thread_pool.cpp:48-55 | a concrete run with one late wake-up after which a task is queued in a running pool in which no thread can move until the remaining sleeper times out, and then that sleeper takes the task |
| PoolDeadlock.RankRises | src/base/thread_pool.cpp:38-96 | whoever a thread is blocked on wants something of strictly higher rank in the order tasks, monitor, pool, other thread, and is not at rest |
| PoolDeadlock.NoWaitCycle | src/base/thread_pool.cpp:38-107 | no reachable state has a cycle of threads that wait for each other, of any length |
| PoolDeadlock.QuiescentMeansDone | src/base/thread_pool.cpp:46-115 | when no thread can move every call has returned, no thread is stuck half-way, and in a running pool every thread that left is joined and the rest, at least the core, sleep; and with a non-empty core and no lost wake-up every committed task has finished |
| PoolProgress.StepWorks | src/base/thread_pool.cpp:37-115 | every step that a thread takes in its own program leaves strictly less work |
| PoolProgress.WorkIsBounded | src/base/thread_pool.cpp:37-115 | between any two states of any run the threads take at most as many steps as there was work left, and 63 more for each commit, timeout or spurious wake-up in between |
| PoolProgress.EveryScheduleFinishes | src/base/thread_pool.cpp:37-115 | left to itself from any reachable state every schedule ends within that bound, and where it cannot go on every call has returned, and with a non-empty core and no lost wake-up in the run every task has finished |
| PoolProgress.CanBeFinished | src/base/thread_pool.cpp:37-115 | from every reachable state some schedule leads to one in which no thread can move |
| PoolWorker.WorkerKeepsInv | src/base/thread_pool.cpp:43-71 | every step of a worker keeps the invariant |
| PoolClient.AddKeepsInv | src/base/thread_pool.cpp:37-80 | every step of `AddThread` keeps the invariant |
| PoolClient.CommitKeepsInv | src/base/thread_pool.h:98-113 | every step of `Commit` keeps the invariant |
| PoolMonitor.MonitorKeepsInv | src/base/thread_pool.cpp:84-111 | every step of the monitor keeps the invariant |
| PoolMonitor.FindIsFirst | src/base/thread_pool.cpp:96-102 | the search returns the first position of the thread, and fails exactly if it is not in the list |
| ThreadPools.Pool.Look | src/base/thread_pool.cpp:46-66 | the object stays a reachable one; a task that is taken is the front of the queue and the next in commit order, a worker sleeps only on an empty queue of a running pool, takes the shutdown exit only on an empty one, and decides to leave only with more than the core alive |
| ThreadPools.Pool.Leave | src/base/thread_pool.cpp:49-55 | the object stays a reachable one; the decrements do not wrap and at least the core stays, the worker reports itself once and leaves the monitor awake, and when it is gone it owns no mutex and is on the monitor's list |
| ThreadPools.Pool.Stop | src/base/thread_pool.cpp:59-64 | the object stays a reachable one; the exit is never blocked, nothing is left in the queue, the decrements do not wrap, and the task mutex is free at the end |
| ThreadPools.Pool.Serve | src/base/thread_pool.cpp:65-70 | the object stays a reachable one; serving is never blocked, no task is finished twice or changed on the way, and `idle_thread_num_` stays exact and does not wrap |
| ThreadPools.Pool.AddThread | src/base/thread_pool.cpp:37-80 | the object stays a reachable one; the pool is running, the maximum is never exceeded, a new thread goes to the end of the list under a number that is not in it, and the call is stopped only by the pool mutex or by a thread that has not set its tid |
| ThreadPools.Pool.Commit | src/base/thread_pool.h:98-113 | the object stays a reachable one; a task goes to the back of the queue under the next number, AddThread is called only on a full queue, and when the call returns it has woken a sleeper or nobody sleeps |
| ThreadPools.Pool.NobodyAsleep | src/base/condition.cpp:21-23 | whether a notify has anyone to wake |
| ThreadPools.Pool.FindThread | src/base/thread_pool.cpp:96-102 | the loop computes the same position as the specification's search |
| ThreadPools.Pool.RunMonitor | src/base/thread_pool.cpp:84-111 | the object stays a reachable one; the monitor falls asleep only with nothing to reap, what it takes off its list is the front, a thread that has been joined, it returns exactly when it has its mutex back after a wait and the pool has been shut down, and it is stopped only by its sleep, its return, a mutex or a thread that has not left |
| ThreadPools.Pool.JoinAndErase | src/base/thread_pool.cpp:96-105 | the thread is in the list, started and not joined; the join goes through exactly if its function has returned, and then it and nothing else leaves the list |
| ThreadPools.Pool.ShutDown | src/base/thread_pool.cpp:129-131 | the object stays a reachable one and nobody is woken; in every continuation of its run the pool never runs again and no commit arrives |
| ThreadPools.Pool.Execute | src/base/thread_pool.cpp:37-131 | any schedule, carried out on the object: exactly the actions that can be taken when their turn comes are taken, and the counters are exact, every committed task is queued, held or finished once, and the list holds exactly the threads not reaped |
| AsyncLog.NeverAborts | src/logger/async_logging.cpp:69-118 | in every interleaving all asserts hold, no null buffer is used, there is always a current buffer, a spare exactly when no buffer is full, and both spares can be refilled |
| AsyncLog.FileFollowsPolicy | src/logger/async_logging.cpp:89-102 | the file with what is still to be written is, batch by batch, the whole batch, or the notice and its first two buffers if it had more than 25; and batches, full buffers and current buffer are the accepted messages in lock order |
| AsyncLog.NothingLost | src/logger/async_logging.cpp:44-121 | without overload, file, unwritten batch, full buffers and current buffer together are exactly the accepted messages in lock order |
| AsyncLog.FileIsPrefix | src/logger/async_logging.cpp:76-121 | without overload the file is always a prefix of the accepted messages |
| AsyncLog.ExitLosesOnlyUnswapped | src/logger/async_logging.cpp:69-121 | when the thread has exited, the file lacks exactly what had not been swapped out |
| AsyncLog.StopLosesMessage | src/logger/async_logging.cpp:38-69 | a concrete run in which an accepted message is never written |
| AsyncLog.AcceptedExactlyWhenShort | src/logger/async_logging.cpp:44-58 | what is accepted is everything that was passed if and only if every message is shorter than a buffer |
| AsyncLog.PolicyTells | src/logger/async_logging.cpp:89-98 | a batch of up to 25 buffers is written whole; of a larger one the first two, behind a notice with the number of the others |
| LogCycles.RunsUntilStopped | src/logger/async_logging.cpp:32-42 | the flag is down exactly from `Stop` on, and a backend that has returned finds it down |
| LogCycles.BackendGoesOn | src/logger/async_logging.cpp:69-122 | once started the backend can always take a step until it has returned; it returns only after `Stop`, and then at its next loop test |
| LogCycles.SleepsExactlyWhenNothingIsFull | src/logger/async_logging.cpp:76-85 | in every step of the backend: it falls asleep exactly if it finds no full buffer, and goes on to the swap exactly from its sleep or if it finds one |
| LogCycles.RoundWrites | src/logger/async_logging.cpp:69-119 | without overload, what was accepted up to a swap is in the file when the backend is back at its loop test |
| LogCycles.EverythingIsWritten | src/logger/async_logging.cpp:69-119 | in any stretch of any run without `Stop`: once the backend has taken the steps that it had left, and one more for each `Append` meanwhile, it has gone round, and without overload everything accepted before the stretch is in the file |
| LogCycles.StopEndsTheBackend | src/logger/async_logging.cpp:38-42 | after `Stop` the backend takes no more steps than were left to its next loop test, and one for each `Append` meanwhile, and then has returned |
| LogPacking.OverloadIsReal | src/logger/async_logging.cpp:44-58 | while every message is shorter than a buffer every batch holds half of its buffers' size in text, so that one of more than 25 holds at least 13 buffers' worth |
| AsyncLog.AppendKeeps | src/logger/async_logging.cpp:44-58 | one `Append`, at any point of the backend, keeps conservation and the placing of spares |
| AsyncLog.BackendKeeps | src/logger/async_logging.cpp:69-121 | one backend step keeps them, and what the file holds follows the policy |
| AsyncLogging.AsyncLogging.Append | src/logger/async_logging.cpp:44-58 | the program on buffer pointers makes the machine's step; no buffer is in two places |
| AsyncLogging.AsyncLogging.Start | src/logger/async_logging.cpp:32-36 | the backend starts with two empty spares of its own |
| AsyncLogging.AsyncLogging.Stop | src/logger/async_logging.cpp:38-42 | only the flag changes |
| AsyncLogging.AsyncLogging.TestLoop | src/logger/async_logging.cpp:69-74 | the three asserts at the head of the loop hold on the objects; the backend goes on exactly while the flag is up |
| AsyncLogging.AsyncLogging.EnterLock | src/logger/async_logging.cpp:77-79 | the backend sleeps if and only if no buffer is full |
| AsyncLogging.AsyncLogging.WakeUp | src/logger/async_logging.cpp:79 | the wait ends with the mutex held |
| AsyncLogging.AsyncLogging.Swap | src/logger/async_logging.cpp:80-85 | the five pointer moves under the mutex make the machine's step |
| AsyncLogging.AsyncLogging.Examine | src/logger/async_logging.cpp:87-98 | the overload policy on the vector of pointers |
| AsyncLogging.AsyncLogging.WriteOne | src/logger/async_logging.cpp:100-102 | the next buffer of the batch goes to the file as it is |
| AsyncLogging.AsyncLogging.RefillSpares | src/logger/async_logging.cpp:104-118 | both spares are refilled with empty buffers from the back of the batch, also after it was cut to two |
| AsyncLogging.AsyncLogging.Execute | src/logger/async_logging.cpp:32-122 | any schedule of appends, start, stop and backend steps, carried out on a new object: without overload what was written, what is in hand, what the full buffers hold and what the current buffer holds are the accepted messages in order |
| LogRolling.FilesHoldEverything | src/logger/log_file.cpp:35-75 | the files in order hold every appended text whole, once and in order, whenever the log rolls |
| LogRolling.FilesAreOpenedInOrder | src/logger/log_file.cpp:39-44 | the seconds in the file names strictly increase |
| LogRolling.RollsExactlyWhen | src/logger/log_file.cpp:58-69 | an append starts a new file if and only if the file is too large and at least a second old, or is small, the counter asks for a look at the clock and the day has changed since it was opened |
| LogRolling.OvergrownExactlyWhen | src/logger/log_file.cpp:35-61 | over any run, some file has records beyond those that outgrew the roll size if and only if some append left the open file over it in the second in which it was opened and another append followed |
| LogRolling.LargeOnlyInItsFirstSecond | src/logger/log_file.cpp:39-61 | a file has records beyond those that outgrew the roll size only if these all came in the second in which it was opened |
| LogRolling.StaleRecordsAreFlushed | src/logger/log_file.cpp:63-73 | once the counter has reached its threshold, no append leaves a record unflushed that is older than the flush interval |
| LogRolling.CountNeverFalls | src/logger/log_file.cpp:63-64 | the counter never falls, through rolls and flushes |
| LogRolling.CountIsExact | src/logger/log_file.cpp:58-64 | the counter is the number of all appends so far that left their file within the roll size |
| LogRolling.FlushesExactlyWhen | src/logger/log_file.cpp:63-73 | an append that starts no new file flushes the open one if and only if it leaves it within the roll size, the counter asks for a look at the clock and more than the flush interval has passed since the last flush or roll |
| LogRolling.LargeFileExample | src/logger/log_file.cpp:35-61 | a concrete file that outgrows its limit by two records within its first second |
| LogRolling.RunKeepsInv | src/logger/log_file.cpp:7-75 | over every run `start_period_` is the day of `last_roll_`, `last_roll_` is the second of the open file, and every closed file is flushed, not empty and was rolled in time |
| LogRolling.DaysOfSeconds | src/base/timestamp.cpp:46-52 | days and seconds of one reading agree, and are its whole days and seconds |
| LogFiles.WholeExactlyWhen | src/logger/file_util.cpp:15-31 | an append is written whole if and only if the calls of fwrite up to the first unwilling one after the first call take enough |
| LogFiles.FileUtil.Append | src/logger/file_util.cpp:15-31 | the retry loop adds a prefix of the data, none of it twice, and counts the whole length |
| LogFiles.LogFile.AppendUnLocked | src/logger/log_file.cpp:58-75 | the object does what the specification says; the bytes of all files together grow by exactly the part of the text that was taken, whether or not the log rolls |
| LogFiles.LogFile.RollFile | src/logger/log_file.cpp:35-45 | a roll is refused within the second of the last one and otherwise closes the file with all its bytes, which stay, and opens a new one |
| LogFiles.LogFile.DiskIsTexts | src/logger/file_util.cpp:15-31 | while every write was taken in full, the bytes of all files, closed and open, are the texts of all records in order |
| LogFiles.LogFile.Flush | src/logger/log_file.cpp:77-84 | every record of the open file is flushed and nothing else changes |
| LogFiles.LogFile.constructor | src/logger/log_file.cpp:7-24 | a file is open after construction if and only if the clock is past the first second of the epoch |
| LogPipeline.FilesArePrefix | src/logger/async_logging.cpp:89-119 | without overload the log files put end to end are a prefix of the accepted messages, however often the log rolled |
| LogPipeline.FilesAfterExit | src/logger/async_logging.cpp:121-122 | after the backend has returned every file is flushed, and what the files lack is what had not been swapped out |
| LogPipeline.FilesAfterRound | src/logger/async_logging.cpp:69-119 | without overload, when the backend has gone round everything accepted before is in the log files and flushed |
| LogPipeline.DiskIsPrefix | src/logger/async_logging.cpp:89-119 | without overload and with a sink that takes everything, the bytes on the disk are a prefix of the accepted messages |
| Numerals.DecimalRoundTrip | src/logger/log_stream.cpp:131-150 | reading the canonical text of any integer gives it back |
| Numerals.NumeralRoundTrip | src/logger/log_stream.cpp:98-120 | reading a canonical numeral in any base from 2 to 16 gives the number back, and only zero starts with the digit 0 |
| Numerals.DecimalIsTheOnlyOne | src/logger/log_stream.cpp:131-150 | a text is the decimal text of an integer if and only if it is digits without a leading zero, behind a minus sign if need be, and reads as the integer |
| Numerals.NumeralIsTheOnlyOne | src/logger/log_stream.cpp:98-120 | the same for numerals in any base from 2 to 16 |
| Numerals.DecimalLength | src/logger/log_stream.cpp:133-149 | the text of every 64-bit integer has at most 20 characters |
| Numerals.AddressLength | src/logger/log_stream.cpp:109-117 | an address has at most 16 hexadecimal digits |
| LogStreams.SignedDigit | src/logger/log_stream.cpp:7-9 | the symmetric digit table makes the sign of a truncated remainder irrelevant |
| LogStreams.WriteDigits | src/logger/log_stream.cpp:136-144 | the loop writes the digits of the magnitude in reverse, without negating, for values of either sign |
| LogStreams.WriteHexDigits | src/logger/log_stream.cpp:106-113 | the same in base 16 |
| LogStreams.ReverseRange | src/logger/log_stream.cpp:148 | the range is reversed in place and nothing around it changes |
| LogStreams.LogStream.FormatInteger | src/logger/log_stream.cpp:131-150 | with 48 bytes free exactly one text is appended, digits without a leading zero that read as the integer, otherwise nothing |
| LogStreams.LogStream.PutAddress | src/logger/log_stream.cpp:98-120 | with 48 bytes free 0x and hexadecimal digits without a leading zero that read as the address are appended, otherwise nothing |
| LogStreams.LogStream.PutFloating | src/logger/log_stream.cpp:73-79 | with 48 bytes free what the library printed is appended, otherwise nothing |
| LogStreams.LogStream.Append | src/logger/log_stream.cpp:14-16 | a text is appended if and only if it leaves a byte free |
| LogStreams.LogStream.PutBool | src/logger/log_stream.cpp:26-29 | one digit is appended if it leaves a byte free |
| LogStreams.ContentsAreFittedChunks | src/logger/log_stream.cpp:14-150 | the contents are the in-order join of exactly the chunks that fitted when offered; what was there never changes |
| LogStreams.LogStream.PutAll | src/logger/log_stream.cpp:14-150 | any operands printed into a stream that has been reset: the object contains the in-order join of exactly those that fitted when offered, and is not full |
| LogStreams.NeverFull | src/logger/log_stream.cpp:73-150 | a stream never becomes full, so every terminator is in bounds |
| LogStreams.PrintedIntegerReadsBack | src/logger/log_stream.cpp:131-150 | what printing an integer added to a stream is a canonical decimal text and parses to that integer |
| LogStreams.PrintedAddressReadsBack | src/logger/log_stream.cpp:98-120 | what printing an address added has at most 18 characters, is canonical behind its 0x and parses to that address |
| FixedBuffers.FixedBuffer.Append | src/logger/fixed_buffer.h:22-27 | all of the text or nothing, depending on the strict comparison with the free space |
| BufferLayout.ApplyIsPlain | src/net/buffer.cpp:57-127 | one operation fails if and only if the caller broke its promise; otherwise contents change as a plain sequence's do, storage never shrinks, grows to at most twice the need, and reserved room is there |
| BufferLayout.RunRefinesPlain | src/net/buffer.cpp:57-127 | over every run of the specification the contents are those of a plain byte sequence and the indices stay in order |
| NetBuffer.Buffer.Run | src/net/buffer.cpp:57-127 | any sequence of operations carried out on the array: the bytes between the indices are those of a plain byte sequence, the array is within the space bound, and the room in front is what the operations leave of it |
| BufferLayout.SpaceBound | src/net/buffer.cpp:57-81 | storage never exceeds the larger of 8 + initial and 7 + 2 * peak demand |
| BufferLayout.RunFailsOnlyByCaller | src/net/buffer.cpp:57-127 | after any run, the next operation trips an assert if and only if the caller broke its promise |
| BufferRoom.RoomAfterEmptying | src/net/buffer.cpp:83-95 | after an operation that empties the buffer a prepend is allowed if and only if it is of at most eight bytes |
| BufferRoom.PrependAllowedExactlyWhen | src/net/buffer.cpp:57-127 | after any run a prepend is allowed if and only if, with what was prepended since the last fresh start, it takes no more than eight bytes and what was read since; fresh starts are the operations that empty the buffer and those that move the contents to the front |
| BufferRoom.RoomBehind | src/net/buffer.cpp:57-81 | a request that finds too little room behind the contents leaves exactly what it asked for, unless the contents can be moved to the front, which turns all room in front beyond eight bytes into room behind; no other request changes it |
| BufferRoom.CarefulRunsWork | src/net/buffer.cpp:57-127 | a caller who prepends no more than follows from its own operations, whatever the sizes, never trips an assert |
| NetBuffer.Buffer.FindCRLF | src/net/buffer.cpp:161-164 | the search finds the first line end among the readable bytes of the array, or says that there is none |
| NetBuffer.Buffer.MoveWriteBackward | src/net/buffer.cpp:72-75 | the bytes that the caller has written behind the contents become part of them |
| NetBuffer.Buffer.MakeSpace | src/net/buffer.cpp:57-70 | growth or overlapping compaction on the array; the assert about the reader index holds |
| NetBuffer.Buffer.CopyDown | src/net/buffer.cpp:62-68 | the overlapping copy to the front keeps the contents |
| NetBuffer.Buffer.EnsureWriteableBytes | src/net/buffer.cpp:77-81 | the requested room is there and the contents are the same |
| NetBuffer.Buffer.PushBack | src/net/buffer.cpp:108-112 | the array program appends |
| NetBuffer.Buffer.PushFront | src/net/buffer.cpp:122-127 | the array program prepends |
| NetBuffer.Buffer.MoveReadBackward | src/net/buffer.cpp:83-90 | the read bytes are dropped and become room in front; an emptied buffer has eight bytes of it again |
| NetBuffer.Buffer.ReadToString | src/net/buffer.cpp:97-102 | the result and what remains are the old contents |
| Registration.ChangeAgrees | src/net/epoll_poller.cpp:56-84 | an update after a change of events succeeds if and only if the channel is registered or its descriptor is free, and then the channel's index, the map and the kernel agree again |
| Registration.RemoveAgrees | src/net/epoll_poller.cpp:86-99 | a removal succeeds if and only if the channel is registered and wants no events, and then everything agrees |
| Registration.ApplyAgrees | src/net/channel.cpp:82-135 | which operations succeed on an agreeing state, exactly, and that agreement is kept |
| Registration.RunAgrees | src/net/epoll_poller.cpp:56-132 | index, map and kernel agree after every sequence of operations on any number of channels per descriptor in which no assert has failed, and no removal ever failed |
| Registration.OneChannelPerDescriptor | src/net/epoll_poller.cpp:62-72 | no two channels are ever registered for one descriptor |
| Registration.DescriptorReused | src/net/epoll_poller.cpp:86-99 | a concrete run in which a second channel takes the place of a removed one under the same descriptor |
| Registration.DestructibleExactlyIfUnused | src/net/channel.cpp:23-28 | over any run, the asserts of the destructor hold for a channel if and only if none of its operations ever changed its events |
| Registration.KernelNeverRefuses | src/net/epoll_poller.cpp:119-132 | every ADD hits an absent descriptor, every MOD and DEL a present one |
| Registration.WantedEventsAreWatched | src/net/channel.cpp:82-105 | a channel that wants events is watched for exactly these |
| EventHistory.WatchedForWhatIsAsked | src/net/channel.cpp:82-105 | over any run the kernel's entry of a channel has EPOLLIN and EPOLLPRI exactly if the channel's last call about reading asked for it, and EPOLLOUT exactly if its last call about writing did; and a channel that asks for anything has an entry |
| EventHistory.CallWatches | src/net/channel.cpp:82-105 | what each single call leaves in the kernel: the bits that it asks for, or takes away, and the others as the calls before asked |
| EventHistory.RegistrationTells | src/net/epoll_poller.cpp:56-99 | over any run a channel is in the poller's map exactly from its first change of events until its removal, and the kernel watches it exactly as its calls say: a change that leaves events adds it, one that leaves none turns it round |
| EpollPoller.EpollPoller.ShowsWhatIsAsked | src/net/channel.cpp:82-105 | the same of the objects: the kernel's entry of a channel object is what its calls have asked for |
| Registration.ChannelRemoveAlwaysFails | src/net/channel.cpp:131-135 | `Channel::Remove` trips an assert in every state |
| Registration.WatchedAfterChange | src/net/epoll_poller.cpp:56-84 | after any change of events the kernel watches the channel if and only if it now wants something or was not watched before |
| Registration.WatchedWantEventsExactlyWhen | src/net/channel.cpp:82-129 | over any run every watched channel wants events, all along, if and only if no operation leaves an unwatched channel without events |
| Registration.DisableReadingAddsInVain | src/net/channel.cpp:87-90 | a concrete run in which a new channel without events is put into the kernel's set |
| Registration.DisableAllToggles | src/net/channel.cpp:102-105 | after `DisableAll` the channel is in the kernel's set if and only if it was not before |
| EpollPoller.EpollPoller.UpdateChannel | src/net/epoll_poller.cpp:56-84 | the objects make the step of the specification |
| EpollPoller.EpollPoller.RemoveChannel | src/net/epoll_poller.cpp:86-99 | the objects make the step of the specification |
| EpollPoller.EpollPoller.Update | src/net/epoll_poller.cpp:119-132 | the kernel's set changes as epoll_ctl says |
| EpollPoller.Channel.EnableReading | src/net/channel.cpp:82-85 | the read events are added, the kernel watches the channel for its new events, and agreement is kept |
| EpollPoller.Channel.DisableReading | src/net/channel.cpp:87-90 | the read events are taken away and agreement is kept |
| EpollPoller.Channel.EnableWriting | src/net/channel.cpp:92-95 | the write event is added, the kernel watches the channel for its new events, and agreement is kept |
| EpollPoller.Channel.DisableWriting | src/net/channel.cpp:97-100 | the write event is taken away and agreement is kept |
| EpollPoller.Channel.DisableAll | src/net/channel.cpp:102-105 | all events are taken away and agreement is kept |
| Guards.HolderIsSound | src/base/mutex.cpp:15-61 | for any number of threads that lock, unlock, wait, wait for a time, notify one or all and assert in any order: a set holder names the owner of the mutex, and whoever is inside a guard and not in a wait is the holder, also after a wait of either kind |
| Guards.AssertLockedFailsExactlyOutside | src/base/condition.cpp:15-34 | `AssertLocked`, in a wait or alone, fails if and only if the thread that runs it is not inside a guard |
| Guards.OneInside | src/base/mutex.cpp:23-31 | no two threads have the mutex at once |
| Guards.UnusedHasNoHolder | src/base/mutex.cpp:11-13 | the assert of the destructor holds when no thread is in a guard or a wait |
| Guards.NotifyWakes | src/base/condition.cpp:21-27 | `Notify` takes one thread out of the wait set of its condition unless it is empty, `NotifyAll` empties it, and neither does anything else |
| Guards.CallsGetOn | src/base/mutex.cpp:23-31 | every step that a thread takes in a call brings it nearer to the end of the call; it is held up only by its sleep or by another owner of the mutex |
| Latch.LatchRunIsGuardRun | src/base/count_down_latch.cpp:12-23 | every run of the latch is a run of its mutex and its condition under that arbitrary use |
| Latch.HolderIsSound | src/base/count_down_latch.cpp:12-23 | so the holder is sound in every run of the latch: exactly the thread inside a guard and not in a wait is noted |
| Latch.WaitReturnsAfterCount | src/base/count_down_latch.cpp:12-23 | `Wait` returns only when as many threads have counted down as the latch was made for |
| Latch.NoStrandedWaiter | src/base/count_down_latch.cpp:18-23 | with the count at zero or below and the mutex free nobody is left in the wait set, although only the count of exactly zero notifies |
| Latch.QuiescentLatch | src/base/condition.cpp:15-34 | when no thread can move, every call has returned or rightly sleeps because too few have counted down |
| Latch.StepsAreBounded | src/base/count_down_latch.cpp:12-23 | between any two states of any run a thread takes no more steps than it had left, and five more for each end of a wait |
| Latch.StartSeesTid | src/base/thread.cpp:30-51 | `Start` returns only after the new thread has passed the line that sets its tid |
| Latches.CountDownLatch.Wait | src/base/count_down_latch.cpp:12-16 | the object stays a reachable one and the caller is the holder where it asserts so; it sleeps only at a positive count, returns only when as many threads have counted down as the latch was made for, and is stopped only by another owner, its sleep or its return |
| Latches.CountDownLatch.CountDown | src/base/count_down_latch.cpp:18-23 | the object stays a reachable one; the count is always the initial one less the threads past their decrement, and the thread that brings it to zero leaves nobody asleep |
| Latches.CountDownLatch.Execute | src/base/count_down_latch.cpp:12-23 | any schedule, carried out on the object: the holder is sound, every wait that returned had enough counts, and nobody sleeps at a count of zero or less while the mutex is free |
| Latches.CountDownLatch.NotifyAllWaiters | src/base/condition.cpp:25-27 | every sleeper and nobody else is woken |
| Latches.Thread.RunCreator | src/base/thread.cpp:50-51 | when the creator's wait has returned the tid is set, so that the assert holds |
| Latches.Thread.RunNew | src/base/thread.cpp:31-35 | the new thread sets its tid before it counts down |

## Left out

- AsyncLog.NothingLost: stated while no batch is over 25 buffers, because beyond that the program drops buffers on purpose; FileFollowsPolicy says what the file holds then.
- LogFiles.LogFile.DiskIsTexts: supposes that every write was taken whole; after a failed write the files hold what AppendUnLocked says, a prefix of that record.
- BufferLayout.ApplyIsPlain: sizes are unbounded; the wrap-around of size_t for requests near 2^63 and the exceptions of vector::resize are not modelled.
- LogStreams.LogStream.PutFloating: the digits that `%.12g` prints are an input of fewer than 48 characters.
- ThreadPools.Pool.ShutDown: only called when no call of Commit is in progress; a race between the two is not modelled.
- `Buffer::Swap`, `Buffer::ReadFd` and `Buffer::WriteFd`: system calls, and the first two do not do what they intend (src/net/buffer.cpp:34, 145-146).
- The destructor of `ThreadPool`: it walks the thread list without the lock and blocks unless `ShutDown` was called.
- `EpollPoller::Poll` and `FillActiveChannels`: they depend on what epoll_wait returns.
- `EventLoop`: its loop is a placeholder, and it never creates its poller.
- `Channel::HandleEvent`, with its `event_handing_` flag, `IsReading` and `IsWriting`: facts of one branch each.
- `InetAddress`, `Socket`, socket operations and byte order: thin wrappers over the C library.
- `Timestamp` formatting and the parts of the log file's name other than its second; the name is taken to be new whenever its second is.
- The log file's mutex, which only wraps each call, and overflow of its `int` counter after 2^31 appends.
- `CountDownLatch::GetCount` and the copy of the drop notice on stderr: one statement each.
- Logger macros, `Singleton`, `CurrentThread` and thread names: easy members or library calls.
- Real time and fairness: a timeout is a step that may happen at any time, and the results are about safety and quiescence, not latency.
- Memory order: steps on atomics are taken to be sequentially consistent, as the source asks for by default.
