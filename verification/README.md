# A model of xv6 in Dafny

The repository is xv6 with course additions: a three-level scheduler with aging, semaphores
with a priority-ordered ring of waiters, and a `changesize` call.  This project models its
storage stack, its file system, its processes, its pipes, the parser of its shell and the
matcher of its grep, and proves what they promise.

`dafny verify dfyconfig.toml` checks the whole project.

## How to read it

* **Storage** (`LogDisk`, `LogRuns`, `BufferCache`, `Log`, `LogCalls`, `LogWitness`, `LogAdmission`,
  `Ide`).  `Log` and
  `BufferCache` are the code as classes; a commit and a recovery are proved to issue exact
  sequences of single-block writes.  `LogRuns` is the machine that performs such writes one at
  a time and may crash between any two, also during recovery; `LogCalls` shows that any history of
  commits and recoveries, complete or cut short, is a run of it.  `Ide` runs the queued driver
  and the memory driver side by side.
* **File system** (`FsVolume`, `FsSteps`, `FsBitmap`, `FsRanges`, `FsContent`, `FsLogging`,
  `FsChunks`, `Fs`, `FileOps`, `Directory`, `Paths`, `Mkfs`, `FsWitness`, `FsGaps`).  A volume is *sound* if each
  data block is marked in the free map exactly when one slot of one inode holds its address.  A file is
  *dense* if all blocks below its size are allocated.  `Fs` is the code as a class, proved
  against files as byte sequences.  When a call panics, and how many blocks it logs, is said in
  terms of the volume and the log's list before the call: `LogSet` is what writing a range logs,
  `RangeFits` says that there are blocks for it and that no log_write on the way finds the list full,
  and `ChunksFit` says it of the chunks of a filewrite one after the other.  `FsWitness` and `FsGaps`
  start a kernel on volumes that meet the bounds and break the promises.
* **Processes** (`SleepLock`, `Semaphore`, `SemaphoreRuns`, `Scheduler`, `SchedulerRuns`,
  `ProcTree`, `ProcRuns`) and **pipes** (`Pipe`).  Where processes interleave, a step is what one process
  does between taking and releasing a spinlock, and theorems are about every run.
* **Shell** (`Shell`, `ShellGrammar`, `ShellRoundTrip`, `ShellWords`).  `ShellGrammar` writes
  the grammar and its meaning down apart from the parser; the parser is proved to accept exactly
  that grammar.
* **Grep** (`Grep`): the matcher against the language of a pattern.

`hide` statements in proofs only narrow what the verifier looks at.

## What turned out false of the code

Each of these is stated with the exact condition under which the property holds.

* With log.size equal to LOGSIZE, as mkfs makes it, operations within their reserved budget of
  MAXOPBLOCKS blocks can still panic in log_write (`LogAdmission.NewBlocksFitIff`); with a budget
  of at most MAXOPBLOCKS - 1 they never do (`LogAdmission.NeverPanicsIff`).
* log_write tests the length of the list before it takes log.lock, so two writers can pass the test
  for one place and the list can outgrow the log (`LogAdmission.OverrunsIff`).
* A commit can run out of buffers when readers outside any operation hold some
  (`Log.Log.Commit`, `LogWitness.CommitRunsOut`).
* Once the ring of a semaphore has wrapped, a release may wake a lower priority first
  (`Semaphore.ArrivalsWakeHighestIff`).
* `kill` of a process asleep on a semaphore lets it through without a grant
  (`SemaphoreRuns.KillBoundIff`, `SemaphoreRuns.KillInWakeupIff`, `SemaphoreRuns.KillReached`).
* A writer that gives up on a full pipe returns without waking readers
  (`Pipe.StepKeepsReadersIff`).
* A failed disk read is reported as a valid buffer (`Ide.RequestIsMemRw`, `Ide.FailedReadIsStale`).
* The inode cache is not write-through where a file has a hole (`Fs.FileSystem.Writei`,
  `FsWitness.HoleIsLost`), and mkfs leaves such a hole in the root directory when its entries
  fill whole blocks, as with thirty files (`Mkfs.Image.RoundRoot`, `FsWitness.RootHole`,
  `FsWitness.RootHoleThirty`).
* Reading a hole through fileread, which begins no operation, panics unless another operation is
  under way (`FileOps.OpenFile.Read`, `FsWitness.HoleReadPanics`); so does reading the root of that
  image to its end (`FsWitness.RootReadPanics`).
* A filewrite chunk logs more than MAXOPBLOCKS blocks in a file with holes, exactly if it spans
  four blocks and takes new ones from five blocks of the free map (`FsLogging.HolesBound`,
  `FsGaps.HolesReachEleven`).  The kernel makes no such file for filewrite: the files of an image have
  no holes (`Mkfs.MakeFs`) and every call keeps it so (`FsContent.UpdatedDense`, and `FilesDense` in
  the contracts of `Fs`, `FileOps` and `Directory`).
* With another operation under way, room in the log for every block of a range and the inode is enough
  for a filewrite (`FileOps.OpenFile.Write`); that `RangeFits` holds of the whole range is not: the first
  chunk lists the inode before the second one comes (`FsWitness.TwoChunksPanic`).
* A change of size is one operation however many blocks it touches.  It logs more than MAXOPBLOCKS
  blocks (`FsWitness.CutLogsEleven`, `FsWitness.GrowLogsTwelve`), and panics in log_write, alone on an
  empty log, exactly if the count reaches the limit of the list (`FileOps.OpenFile.NewSize`): an
  empty file can grow to 26 blocks and not to 27 (`FsWitness.Grow`).

## Model

| member | source | states |
|---|---|---|
| `Grep.AcceptsCons` | grep.c:85-106 | A pattern with one more element in front accepts a text exactly if that element can take some prefix and the rest accepts what follows |
| `Grep.MatchHere` | grep.c:85-96 | Terminates on every input, and accepts exactly if some prefix of the text is in the language of the pattern (literal, dot, star, final dollar) |
| `Grep.MatchStar` | grep.c:99-106 | Accepts exactly if some run of the starred character, of any length, can be taken before the rest of the pattern accepts |
| `Grep.Match` | grep.c:73-82 | With a caret, accepts exactly at the start; without, exactly if the pattern accepts at some position, the end included |
| `LogDisk.ApplyTxnAt` | log.c:69-82 | A transaction leaves each listed block with its data and every other block as it was |
| `LogDisk.InstallIsHome` | log.c:69-82 | Copying from the log to the listed blocks writes exactly what the transaction holds, if the log holds the transaction |
| `LogDisk.LogWritesAt` | log.c:178-190 | After the log writes, log block i holds the i-th block of the transaction and no block outside the log has changed |
| `LogRuns.HeadStep` | log.c:102-113 | The single header write turns a logged transaction into one that recovery will install: the commit point |
| `LogRuns.HomeBlockStep` | log.c:69-82 | Installing one block keeps the log able to install again from the start |
| `LogRuns.RebootFinds` | log.c:85-99 | Whatever point of a run is interrupted, the header on disk is well formed and lists blocks inside the disk |
| `LogRuns.StepKeepsInv` | log.c:69-122 | Every single-block write, every start of a commit and every crash keeps the invariant of the log |
| `LogRuns.CrashAtomicity` | log.c:116-122 | Stop any run anywhere, recovery included: recovering leaves every home block as after exactly the committed transactions, in order, and an empty log; every commit that returned is among them |
| `BufferCache.UnlinkCorrect` | bio.c:132-133 | The two pointer updates take one buffer out of the circular list and leave the order of the others |
| `BufferCache.PushCorrect` | bio.c:134-137 | The four pointer updates put a buffer at the front of the circular list |
| `BufferCache.Cache.constructor` | bio.c:39-56 | The list is well linked and holds every buffer; the cache presents the disk |
| `BufferCache.Cache.Get` | bio.c:61-93 | Returns the buffer that holds the block; else recycles the least recently used one that nobody holds and the log has not pinned; panics exactly if there is none |
| `BufferCache.Cache.Read` | bio.c:96-106 | The held buffer has the latest contents of the block, pinned or on disk; no contents change |
| `BufferCache.Cache.Write` | bio.c:109-116 | The buffer goes to disk and is clean; the contents of every block stay what the cache presented |
| `BufferCache.Cache.Release` | bio.c:120-141 | The last release moves the buffer to the front and leaves the order of the others; no contents change |
| `BufferCache.ViewSame` | bio.c:61-141 | A change of flags or holders changes the contents of no block |
| `BufferCache.ChangedView` | bio.c:109-116 | Changing the buffer of one block changes the contents of that block only |
| `Log.PinnedCount` | log.c:214-233 | As many buffers are pinned as the header lists blocks |
| `Log.FreeIff` | bio.c:78-92 | A buffer can be recycled if and only if the listed blocks and the clean buffers that are held are fewer than the buffers |
| `Log.Log.WriteHead` | log.c:102-113 | Writes the header block with the in-memory list; pinning and contents kept, whoever holds other buffers |
| `Log.Log.WriteLog` | log.c:178-190 | Issues exactly the log writes of the pending transaction; runs out of buffers if and only if none is left at the start, before anything is written |
| `Log.Log.InstallTrans` | log.c:69-82 | Issues exactly the install writes of the disk it finds, in a commit or in recovery, and leaves nothing pinned |
| `Log.Log.Commit` | log.c:193-202 | With other processes holding clean buffers: goes through if and only if the listed blocks and those buffers leave one over, else panics before any write; issues exactly the commit sequence; afterwards the log is empty, nothing is pinned, holders keep their buffers, and disk and cache have for every home block what the cache presented before |
| `Log.Log.Recover` | log.c:116-122 | Issues exactly the recovery sequence of the disk it finds, and leaves an empty log and nothing pinned |
| `Log.Log.LogWrite` | log.c:214-233 | The pinned buffers stay exactly the distinct blocks of the header: an absorbed block is not listed twice, a new one is appended; the panics happen exactly when the list is full or no operation is open |
| `Log.Log.Bread` | bio.c:96-106 | In or out of an operation: the latest contents, logged or not; the pinned buffers stay exactly the blocks of the header |
| `Log.Log.Modify` | log.c:204-212 | A holder changes the block; the pinned buffers stay exactly the blocks of the header |
| `Log.Log.Brelse` | bio.c:120-141 | A release by a holder that has logged its changes keeps contents, and the pinned buffers stay exactly the blocks of the header |
| `Log.Log.EndOp` | log.c:146-174 | The last operation commits; contents of home blocks never change, and the pinned buffers stay exactly the blocks of the header |
| `Log.RecoverEffect` | log.c:116-122 | Recovery writes leave listed blocks as in the log, all others alone, and an empty log |
| `Log.CommitEffect` | log.c:193-202 | The commit sequence puts on disk, for every home block, exactly what the cache presented, also when clean buffers are held |
| `LogWitness.CommitRunsOut` | bio.c:78-92 | A run of the calls of the log from a fresh cache: an operation logs 29 blocks, a reader outside it holds the last buffer, and the end_op that commits panics |
| `Log.LoggedDisk` | log.c:178-197 | After the log writes and the header write the log holds the transaction |
| `LogCalls.HistoryIsRun` | log.c:116-202 | Any history of commits and recoveries, each complete or cut short at any write, is a run of the crash machine that ends with the same disk |
| `LogCalls.HistoryAtomicity` | log.c:116-202 | After any such history recovery leaves every home block as after whole transactions, in order, every returned commit among them, and an empty log |
| `LogCalls.CommitIsCall` | log.c:193-202 | What the commit method does to the disk is one complete call of such a history, with the transaction that the cache holds |
| `LogCalls.RecoverIsCall` | log.c:116-122 | So is what the recovery method does |
| `LogAdmission.StepKeepsInv` | log.c:126-233 | Every step of every process, log_write's unlocked test and its append apart, keeps the reservation; end_op never finds a commit running |
| `LogAdmission.AdmissionBound` | log.c:126-174 | In every run whose operations stay within their budget, header count plus unused budget is at most LOGSIZE; commit excludes operations and none begins during it |
| `LogAdmission.SleepersAreWoken` | log.c:126-174 | In every run a process asleep in begin_op has to wait, a commit or an operation is under way, and the end of that commit, or an end_op that leaves others open, wakes it |
| `LogAdmission.WaiterSleeps` | log.c:126-142 | In every run a process that finds no room in begin_op sleeps and begins nothing until an operation ends or a commit is over |
| `LogAdmission.LastEndCommits` | log.c:146-174 | In every run the end of the last operation starts a commit: until it is over the list stays what it was and nothing is open, and then the list is empty, no commit runs and nobody is asleep |
| `LogAdmission.ListedStays` | log.c:214-233 | In every run a block that log_write has listed stays in the list until a commit is over |
| `LogAdmission.ListDistinct` | log.c:222-228 | In every reachable state no block is listed twice |
| `LogAdmission.NeverPanicsIff` | log.c:214-220 | No log_write, absorbed or not, panics in any run of operations within their budget, if and only if MAXOPBLOCKS entries and two budgets stay below both limits; below that a panicking run is given |
| `LogAdmission.NewBlocksFitIff` | log.c:218-219 | With the reserved budget new blocks always fit if and only if log.size exceeds LOGSIZE; mkfs makes them equal |
| `LogAdmission.OverrunsIff` | log.c:214-233 | Because the test is made without the lock, the list reaches log.size in some run of operations within their budget if and only if log.size is at most what the reservations allow; with the values of mkfs it does |
| `SleepLock.StepKeepsInv` | sleeplock.c:22-48 | Every interleaved step of acquiresleep, releasesleep, sleep and wakeup keeps the invariant |
| `SleepLock.MutualExclusion` | sleeplock.c:22-48 | In every reachable state at most one process owns the lock |
| `SleepLock.OnlyOwnerReleases` | sleeplock.c:34-48 | A step that clears the lock is a step of its owner |
| `SleepLock.NoLostWakeup` | proc.c:549-606 | A process asleep on the lock while the inner spinlock is free waits for a lock that another process holds and has yet to release |
| `SleepLock.WakeupReachesAll` | proc.c:591-606 | When a release has done its wakeup, nobody is asleep on the lock or about to be |
| `SleepLock.AcquireTakes` | sleeplock.c:22-32 | From every reachable state, acquiresleep on a free lock ends with the caller as its owner, the pid set and nothing else changed |
| `SleepLock.AcquireWaits` | sleeplock.c:22-32 | On a lock that is held it ends with the caller asleep and nothing else changed |
| `SleepLock.WokenRetries` | proc.c:549-588 | A woken process takes the lock if it is free by then, and else is asleep again |
| `SleepLock.ReleaseReleases` | sleeplock.c:34-48 | From every reachable state, releasesleep by the owner ends with the lock free, pid 0, the caller out and exactly the processes that were asleep woken |
| `SleepLock.KillWakes` | proc.c:618-637 | kill makes a process asleep on the lock try again and changes nothing else |
| `SleepLock.StrangerReleases` | sleeplock.c:34-43 | releasesleep by a process that does not own the lock changes nothing |
| `Semaphore.Semaphore.Acquire` | proc.c:799-834 | The value drops by one; the caller must sleep exactly if it is negative, and is then queued: sorted by priority while the ring is straight, last once it has wrapped |
| `Semaphore.Semaphore.SortWaiters` | proc.c:808-819 | The exchange sort leaves the cells sorted by non-increasing priority, a permutation, and the other cells alone |
| `Semaphore.Semaphore.SortRing` | proc.c:808-819 | The waiting processes stay the same; the queue is sorted if the ring is straight and unchanged otherwise |
| `Semaphore.Semaphore.Release` | proc.c:836-848 | The value rises by one and the first waiter, if there is one, leaves the queue to be woken |
| `Semaphore.StraightWakesHighest` | proc.c:805-819 | An enqueue into a straight ring puts a waiter of highest priority first |
| `Semaphore.WrappedWakesHighestIff` | proc.c:808-819 | Once the ring has wrapped, a highest-priority waiter is first if and only if one was first already and the newcomer does not outrank it |
| `Semaphore.WrappedCounterexample` | proc.c:808-819 | A wrapped ring that wakes the lower priority first |
| `Semaphore.EarlyArrivals` | proc.c:805-819 | Acquires that come before the ring wraps leave the waiters sorted, a permutation of all that came |
| `Semaphore.LateArrivals` | proc.c:805-819 | Acquires that come after it stand behind them in order of arrival |
| `Semaphore.ArrivalsWakeHighestIff` | proc.c:805-819 | After any number of acquires the next release wakes a highest priority if and only if one that came before the ring wrapped is outranked by none that came after |
| `SemaphoreRuns.StepKeepsInv` | proc.c:799-848 | Every interleaved step without kill keeps the invariant of value, ring, sleepers and grants; a process may acquire again while it holds slots, and release one it does not hold |
| `SemaphoreRuns.RingHasRoom` | proc.c:805-806 | A process that enqueues finds a free cell |
| `SemaphoreRuns.GrantsBounded` | proc.c:799-848 | In every kill-free run no more slots are out than the initial value and the releases by processes that held none allow |
| `SemaphoreRuns.QueueIsTheWaiters` | proc.c:799-848 | In every kill-free run the ring holds each waiting process exactly once, max(0, -value) in all |
| `SemaphoreRuns.WaitsOnlyForHolders` | proc.c:799-848 | A process sleeps only while every slot is out, so no wakeup is lost |
| `SemaphoreRuns.WakeupFindsSleeper` | proc.c:840-845 | A release hands its slot to the first waiter, which is already asleep |
| `SemaphoreRuns.AcquireTakes` | proc.c:799-834 | From every reachable state with a slot left, acquire takes it: the value drops, the caller holds one more, nothing else changes |
| `SemaphoreRuns.AcquireWaits` | proc.c:799-834 | With none left, acquire ends with the caller in the ring and asleep, and the value one lower |
| `SemaphoreRuns.WokenReturns` | proc.c:826-833 | A waiter that has been woken returns holding one slot more, and nothing else changes |
| `SemaphoreRuns.ReleaseGives` | proc.c:836-848 | With an empty ring, release raises the value and the caller holds one less |
| `SemaphoreRuns.ReleaseHands` | proc.c:836-848 | With waiters, it also takes the first one off the ring, moves the ring on and wakes that process, which was asleep |
| `SemaphoreRuns.KillBoundIff` | proc.c:618-637 | Right after a kill the bound on the slots holds if and only if the target was not asleep on the semaphore or a release is just handing a slot over |
| `SemaphoreRuns.KillInWakeupIff` | proc.c:618-637 | A kill that comes when a release has yet to take ptable.lock for its wakeup: once the wakeup is done the bound holds if and only if the target was the waiter it is for |
| `SemaphoreRuns.KillOverGrants` | proc.c:618-637 | In every run, killing a waiter while the semaphore is not locked puts one slot more out than there are |
| `SemaphoreRuns.KillReached` | proc.c:618-637 | A run from the start of a semaphore of value 1 to a kill after which two processes hold it |
| `Ide.Queue.Append` | ide.c:151-159 | Walking the links and adding at the end appends to the queue; the request is active exactly if the queue was empty |
| `Ide.Queue.Pop` | ide.c:111-115 | Takes the first request off the queue |
| `Ide.RequestIsMemRw` | ide.c:74-133 | Starting, performing and finishing a request has the effect of the memory driver, if and only if no read fails with other data in the buffer |
| `Ide.FailedReadIsStale` | ide.c:103-124 | A clean buffer whose read fails is valid with its old data, where the memory driver gives the block |
| `Ide.StepKeepsInv` | ide.c:103-168 | Every interleaved request, completion, interrupt and wakeup keeps the invariant |
| `Ide.RefinesMemide` | memide.c:38-60 | In every run buffers and disk are those that the memory driver produces from the same requests served one at a time in the order made |
| `Ide.ReturnsWhenServed` | ide.c:161-164 | A call returns exactly when its request has been served, once, and leaves the buffer valid and clean |
| `Ide.SleepersAreQueued` | ide.c:138-168 | A sleeping caller has its buffer in the queue, once, and the disk is busy |
| `Ide.RequestServed` | ide.c:74-168 | A call on an idle disk goes through command, completion, interrupt and return: a dirty buffer is on disk, a clean one holds the block, it is valid and clean, and driver and disk are idle again |
| `Ide.SpuriousWakeup` | ide.c:161-164 | A process woken before its request has been served goes back to sleep, and nothing has changed |
| `Pipe.CountersAgree` | pipe.c:84-93 | Counters that wrap at 2^32 and are at most PIPESIZE apart tell empty from full and give the right ring cells |
| `Pipe.Pipe.WriteFrom` | pipe.c:79-98 | Copies as many bytes as fit, in order; returns exactly if all fit, and else sleeps, or fails if the read end is closed or the caller killed; wakes readers unless it fails; the new state is that of the machine below |
| `Pipe.Pipe.Read` | pipe.c:101-121 | Takes the oldest bytes, as many as asked for and present; with none it returns no bytes exactly if the write end is closed, else fails for a killed caller and sleeps otherwise; wakes writers exactly if it returns; the new state is that of the machine |
| `Pipe.Pipe.Close` | pipe.c:60-75 | Closes one end and wakes who waits at the other; frees the pipe exactly when both are closed; the new state is that of the machine |
| `Pipe.StepKeepsFifo` | pipe.c:79-121 | Every interleaved step keeps the order and the bound of PIPESIZE, and a sleeping writer waits for room |
| `Pipe.ReadsArePrefix` | pipe.c:79-121 | In every run the bytes returned are a prefix of the bytes accepted |
| `Pipe.StepKeepsReadersIff` | pipe.c:84-97 | A step leaves a reader asleep without reason if and only if a writer with more bytes than fit gives up while a reader sleeps |
| `Pipe.NoReaderForgotten` | pipe.c:101-121 | In every run in which no writer gives up that way, a sleeping reader waits on an empty pipe with its write end open |
| `Pipe.KilledWriterForgetsReader` | pipe.c:86-88 | A run in which a killed writer leaves a reader asleep with data in the pipe |
| `Pipe.DisturbWakes` | proc.c:618-637 | A process asleep on the pipe that is killed is awake, and nothing else changes |
| `Scheduler.RoundRobin` | proc.c:364-379 | The first ready process after the last one chosen, in ring order; none exactly if none is ready |
| `Scheduler.LastCome` | proc.c:412-431 | The ready process that arrived last, the first in the table among equals |
| `Scheduler.BestJob` | proc.c:389-409 | The ready process of smallest rank, the sum of priority, arrival and cycles each times its own ratio; the first in the table among equals |
| `Scheduler.RankOrders` | proc.c:381-387 | With equal ratios, none negative, a job that comes first in priority, arrival and cycles ranks no worse, and strictly better for each of the three whose ratio is positive |
| `Scheduler.Choose` | proc.c:441-490 | None exactly if no process is runnable in queue 1, 2 or 3; a lower queue is served only if every higher one has no ready process; round robin goes on from its last choice |
| `Scheduler.ChoiceUnique` | proc.c:441-490 | The choice is determined by the table and the last round-robin choice |
| `Scheduler.ProcTable.Dispatch` | proc.c:441-490 | Only the chosen process changes: it runs, its last run is now and a tenth of a cycle is charged |
| `Scheduler.ProcTable.ChangeQueue` | proc.c:706-733 | The first slot with the pid moves and its old queue is returned; else nothing changes |
| `Scheduler.ProcTable.AgeProcs` | proc.c:342-362 | Exactly the runnable processes that last ran more than 8000 ticks ago move to round robin; nothing else of them, and no other process, changes |
| `Scheduler.GetsCloser` | proc.c:364-379 | A choice of another process brings round robin strictly closer to each ready one |
| `Scheduler.RunsWithinNproc` | proc.c:441-490 | A process that stays ready in the round-robin queue is chosen within NPROC picks |
| `SchedulerRuns.WaitsFrom` | proc.c:342-362 | From the start of ageprocs, which gives the lock up before each change of queue, a process past the threshold is in round robin or still ahead of the scan |
| `SchedulerRuns.NoStarvation` | proc.c:342-490 | In every interleaving of several scheduler loops, ticks, ageprocs and other changes of the table, a runnable process past the threshold when ageprocs begins has run by the time that call is over and some processor has had NPROC turns since |
| `SchedulerRuns.AgedHasWaited` | proc.c:342-362 | In every interleaving, the scan takes a process for aged exactly if it is runnable in a lower queue and its last turn was more than 8000 ticks before the call began |
| `SchedulerRuns.ClockCounts` | proc.c:342-362 | In every run the clock has moved by as many ticks as there were |
| `SchedulerRuns.TurnRuns` | proc.c:441-490 | A turn runs exactly the process it chose, and moves the place in the round-robin queue exactly if the choice is from that queue |
| `SchedulerRuns.AgeprocsAlone` | proc.c:342-362 | ageprocs with nothing in between is over after three steps a slot and has done to the table what the method above does |
| `ProcTree.ProcTable.WakeupLoop` | proc.c:591-598 | Makes runnable exactly the processes that sleep on the channel, and changes nothing else |
| `ProcTree.ProcTable.Exit` | proc.c:271-291 | The caller is a zombie, its children have init for parent, and runnable are exactly who slept on its parent and, if a child was a zombie, who slept on init; nothing else changes |
| `ProcTree.ProcTable.ScanChildren` | proc.c:304-333 | Finds the first zombie child; else tells whether there is a child to wait for |
| `ProcTree.ReparentStep` | proc.c:277-285 | One turn of the loop of exit over the table |
| `ProcRuns.StepKeepsInv` | proc.c:195-340 | Every interleaved step of fork, exit, wait, sleep, wakeup and kill keeps the invariant of the process tree |
| `ProcRuns.ParentsLive` | proc.c:249-294 | In every reachable state each process in use except init has a parent that is in use and no zombie |
| `ProcRuns.PidsUnique` | proc.c:78-129 | In every reachable state nonzero pids are distinct, and no pid is reaped twice or used again |
| `ProcRuns.WaitersHaveNoZombies` | proc.c:297-340 | In every reachable state no process sleeps in wait while it has a zombie child |
| `ProcRuns.ForkMakesChild` | proc.c:195-244 | fork with nothing in between makes the free slot a runnable child of the caller with a pid that no process has, and changes no other process; without memory the slot is free again |
| `ProcRuns.SleepsUntil` | proc.c:549-637 | In every run a process that went to sleep, on a channel or in wait, is asleep until, and runnable right after, a wakeup of its channel, its own, a kill, or in wait the exit of a child (for init, also one that hands a zombie over) |
| `ProcRuns.WaitTakes` | proc.c:297-340 | In every run, from the exit of a child on its parent is not asleep in wait, and any wait of it finds a zombie at once |
| `ProcRuns.ReapReturns` | proc.c:309-327 | The wait that takes the child returns the pid it exited with, and leaves its slot free and every other process alone |
| `ProcRuns.KilledNeverWaits` | proc.c:329-339 | In every run a process that has been killed does not go to sleep in wait until its slot is free again |
| `ProcRuns.RunThenYield` | proc.c:441-530 | A process that is run and gives up the processor is as before |
| `Shell.GetToken` | sh.c:265-308 | The token that the specification of the tokenizer gives, with its span and the next position |
| `Shell.TokenText` | sh.c:262-308 | The token in characters: space, tab, CR, LF and VT before and behind it; one of the seven symbols, or `>>`; else the longest run of characters that are none of these |
| `Shell.Peek` | sh.c:310-319 | Skips spaces and tells whether one of the characters is next |
| `Shell.ParseRedirs` | sh.c:374-397 | Reads redirections, the first one innermost, as the specification does |
| `Shell.ParseExec` | sh.c:415-446 | Reads a block or words and redirections, with at most MAXARGS - 1 words |
| `Shell.ParseLine` | sh.c:344-358 | Terminates on every input with the command or the error of the specification |
| `Shell.ParseCmd` | sh.c:327-341 | Accepts only if everything is consumed, with the command or the error of the specification |
| `Shell.NewlineIgnored` | sh.c:134-142 | A line with a newline at its end, as gets delivers it, parses to the same command or the same error as the line without |
| `ShellRoundTrip.ItemsRead` | sh.c:415-446 | Words and redirections in any order: arguments in order, redirections nested in order |
| `ShellRoundTrip.LineRead` | sh.c:344-358 | Where the tokens of a line are followed by the end or a parenthesis, the parser reads exactly that line, whatever the blanks |
| `ShellRoundTrip.LineFrom` | sh.c:344-358 | Whatever the parser reads as a line is the tokens of some well-formed line, and its command means what that line means |
| `ShellRoundTrip.AcceptsIff` | sh.c:327-446 | A text is accepted if and only if its tokens are those of some line of the grammar, with fewer than MAXARGS words a command, and the command means what that line means |
| `ShellRoundTrip.OneMeaning` | sh.c:327-446 | Two lines of the grammar with the tokens of one text mean the same |
| `ShellRoundTrip.ParsesGrammar` | sh.c:327-446 | Every line of the grammar, written plainly, is accepted and parses to the tree it means |
| `ShellRoundTrip.RoundTrip` | sh.c:327-446 | Parsing the parenthesised text of any command tree with fewer than MAXARGS words a command gives the tree back |
| `ShellWords.TokenWords` | sh.c:265-308 | A token takes the maximal run of word characters that it reports, and no other word |
| `ShellWords.WordsConserved` | sh.c:327-446 | The command parsed from any accepted text holds every word of the text exactly once, and nothing else |
| `ShellWords.NulTerminate` | sh.c:450-493 | Puts a NUL at the end of every word of the command and changes no other byte |
| `ShellWords.WordReads` | sh.c:450-493 | A word reads up to its first NUL as itself: no terminator lies inside it |
| `ShellWords.ParseAndTerminate` | sh.c:327-341 | After parsecmd every argument and file name is a C string equal to the word the tokenizer delimited; on an error the buffer is untouched |
| `FsVolume.PutWordAt` | fs.c:391-396 | Setting one entry of the indirect block, byte by byte, sets that entry and no other |
| `FsVolume.OwnedExactlyOnce` | fs.c:56-95 | In a sound volume every address is a marked data block held by one slot only, and every marked data block is held by a slot |
| `FsVolume.SoundAdd` | fs.c:372-400 | Giving an empty slot a free block keeps the volume sound |
| `FsVolume.SoundDrop` | fs.c:406-435 | Emptying a slot and freeing its block keeps the volume sound |
| `FsSteps.AllocKeeps` | fs.c:372-400 | Allocating a zeroed block, direct, table or entry, changes no byte of any file and no other slot |
| `FsSteps.WriteDataCells` | fs.c:498-504 | Storing into a data block changes those bytes of that file and no other byte of any file |
| `FsSteps.FreeKeepsOthers` | fs.c:406-435 | Freeing a block of one file changes no byte of another |
| `FsBitmap.SetBitAt` | fs.c:67-70 | Marking a block sets its bit and no other |
| `FsBitmap.ClearBitAt` | fs.c:88-92 | Freeing a block clears its bit and no other |
| `Fs.FileSystem.Balloc` | fs.c:56-78 | The lowest free block, marked and zeroed; panics if and only if no block is free, no operation is under way or one of its two log_writes finds the list full |
| `Fs.FileSystem.Bmap` | fs.c:372-402 | The address of the block, allocating it and the table if missing: no byte of any file changes, ownership is kept; panics if and only if the block is beyond MAXFILE, it takes more blocks than are left or a log_write finds the list full; the blocks it logs are exact |
| `Fs.FileSystem.Readi` | fs.c:452-477 | The contents from the offset, clipped at the end; fails exactly for an offset beyond the end or a wrapped range; panics if and only if the holes in the range take more blocks than are left, none outside an operation, or filling them finds the log's list full; the blocks this logs are exact; a file without holes is read without any change |
| `Fs.FileSystem.Writei` | fs.c:481-511 | Overwrites and extends the byte sequence, across blocks and the direct and indirect split; other files unchanged, ownership kept; panics if and only if fewer blocks are free than the range takes or a log_write finds the list full; the blocks it logs are exact; the inode goes to disk if the file grows, else it is unchanged if and only if no direct block or table was missing |
| `Fs.FileSystem.ChangeSize` | fs.c:513-538 | Truncates or extends with zeros; other files unchanged, ownership kept, inode on disk; panics if and only if the size is beyond MAXFILE blocks, fewer blocks are free than it takes or a log_write, the inode's included, finds the list full; the blocks it logs are exact |
| `Fs.FileSystem.Bfree` | fs.c:81-95 | Frees the block; panics exactly on a free one, outside an operation or with the log's list full |
| `Fs.FileSystem.Itrunc` | fs.c:406-435 | Never meets a free block; the file is empty and exactly its blocks are free; other files unchanged; logs exactly the free-map blocks of the file's blocks and the inode's block, and panics if and only if the list is full at one of these |
| `Fs.FileSystem.Iput` | fs.c:331-352 | The last reference to a file without links frees the file and its blocks, and only then; what it logs is exact, nothing if it frees nothing, and it panics if and only if the list is full at one of these log_writes |
| `FsRanges.RangeMore` | fs.c:498-504 | Two adjacent ranges written one after the other are one range: bytes, slots and blocks taken add up |
| `FsRanges.LogMore` | fs.c:498-504 | The blocks that two adjacent ranges log are those that the whole range logs, all read off the volume before |
| `FsRanges.BeforeTurn` | fs.c:498-504 | So are the blocks in the list when the last log_write comes, which decides whether any of them panics |
| `FsRanges.MarkedFirst` | fs.c:56-78 | Allocations take the lowest free blocks, so which blocks a call takes depends on their number alone |
| `FsContent.InodeSame` | fs.c:498-509 | Writing a range leaves the inode as it was if and only if its direct blocks and its table were there |
| `FsContent.StaysDense` | fs.c:498-509 | A file without holes stays one |
| `FsContent.UpdatedDense` | fs.c:498-509 | A write or a change of size in a volume whose files have no holes leaves one |
| `FsWitness.WriteInHole` | fs.c:498-509 | In every volume, a write into a hole below the size gives the inode in memory a block that the inode on disk does not have |
| `FsWitness.HoleIsLost` | fs.c:506-509 | A sound volume with a hole and a free block, on which that happens |
| `FsWitness.HoleReadPanics` | file.c:97-115 | A directory of one block that is not allocated, read with no operation under way: the kernel panics |
| `FsWitness.RootHole` | mkfs.c:158-163 | The write into the hole returns and is lost on the root of every image that mkfs makes when the entries fill whole blocks and a block is free |
| `FsWitness.RootHoleThirty` | mkfs.c:158-163 | With thirty empty files mkfs makes such an image, and the entry written there is lost |
| `FsWitness.RootReadPanics` | mkfs.c:158-163 | On that image, reading the root from an open file to its end makes the kernel panic |
| `FsLogging.LogSetCard` | fs.c:498-504 | Writing a range logs exactly as many blocks as the volume before it says: data blocks, free-map blocks of the lowest free blocks taken, and the table; the inode's block is not among them |
| `FsLogging.AloneFits` | log.c:214-220 | With an empty list a range and the inode after it go through if and only if there are blocks for it and that count is below the limit of the list |
| `FsLogging.ChunkBound` | file.c:127-153 | A filewrite chunk of a file without holes logs at most MAXOPBLOCKS blocks; it reaches the bound if and only if it spans four blocks, takes new ones from four free-map blocks, changes the table and grows the file, which takes an unaligned offset; on a volume with one free-map block at most seven |
| `FsLogging.HolesBound` | file.c:127-153 | A chunk of any file logs at most one block more than MAXOPBLOCKS, and does if and only if it spans four blocks and takes new ones from five free-map blocks |
| `FsLogging.ChunkFits` | file.c:127-153 | With an empty list a filewrite chunk, of a file with holes or without, goes through if and only if there are blocks for it |
| `FsLogging.FreeBound` | fs.c:406-435 | Freeing a file logs one block more than the free-map blocks of its own blocks; at most two on a volume with one free-map block |
| `FsChunks.LogJoined` | file.c:127-153 | What two chunks of a range log, the second on the volume that the first leaves, is what the whole range logs on the volume before, also where they share a block |
| `FsChunks.BeforeJoined` | file.c:127-153 | So is what the second has logged before its last log_write |
| `FsChunks.ChunkTurn` | file.c:127-153 | With other operations under way a chunk fits the volume and the list it finds if and only if it fits in terms of those before the call |
| `FsChunks.WholeFits` | file.c:127-153 | If there are blocks for the range and the log has room for it and the inode, every chunk goes through |
| `FsWitness.ReachesSeven` | file.c:136-151 | A sound volume with one free-map block on which a chunk logs seven blocks |
| `FsGaps.GapSound` | fs.c:56-95 | A volume of full files whose free blocks lie one in each free-map block is sound |
| `FsGaps.ReachesTen` | file.c:136-151 | A sound volume on which a chunk of a file without holes logs MAXOPBLOCKS blocks |
| `FsGaps.HolesReachEleven` | file.c:136-151 | A sound volume with a file of holes on which a chunk logs MAXOPBLOCKS + 1 blocks |
| `FileOps.OpenFile.Read` | file.c:97-115 | Returns the contents from the offset and moves past them; panics if and only if the holes in the range take more blocks than are left, none if no operation is under way, or filling them finds the log's list full |
| `FileOps.OpenFile.WriteChunk` | file.c:136-151 | One operation: all of the chunk or nothing; panics if and only if fewer blocks are free than it takes or a log_write finds the list full, which never happens with no other operation under way; the number of blocks it logs is exact for every file, within MAXOPBLOCKS for a file without holes, and the inode on disk then stays current |
| `FileOps.OpenFile.Write` | file.c:118-155 | Writes exactly the source bytes in order and returns n if and only if the range fits; else returns -1 with the whole chunks before the misfit written; panics if and only if one of the chunks finds too few blocks or the log's list full, read off the volume and the list before the call, with or without other operations under way; so never if there are blocks for the range and room in the log for it and the inode, or no other operation; each operation within MAXOPBLOCKS for a file without holes |
| `FileOps.OpenFile.NewSize` | file.c:159-175 | Resizes the contents in one operation; panics if and only if the size is beyond MAXFILE blocks, fewer blocks are free than it takes or a log_write finds the list full, and alone on an empty log the last is exactly a count of blocks, growing or shrinking, that reaches min(LOGSIZE, log.size - 1); it keeps to MAXOPBLOCKS if and only if that count does |
| `FileOps.ShrinkCount` | file.c:159-175 | Cutting a file without holes logs the blocks between the two sizes, and the inode |
| `FsWitness.CutLogsEleven` | file.c:159-175 | A file of ten blocks cut to nothing logs MAXOPBLOCKS + 1 blocks |
| `FsWitness.GrowLogsTwelve` | file.c:159-175 | An empty file grown to ten blocks logs MAXOPBLOCKS + 2 blocks |
| `FsWitness.Grow` | file.c:159-175 | An empty file grown to k blocks, alone on an empty log of LOGSIZE blocks: returns up to 26 blocks, panics in log_write from 27 on |
| `FsWitness.TwoChunksPanic` | file.c:127-153 | Another operation has listed 21 blocks: two chunks to an empty file panic, although the range and the inode after it fit the list |
| `Directory.DirentReads` | fs.c:598-600 | For every name, an entry reads back as its inode number and the name up to its first NUL, at most DIRSIZ bytes |
| `Directory.DirentMatches` | fs.c:543-547 | An entry matches exactly the names that strncmp finds equal to its own: for names without NUL, if and only if the first 14 bytes agree one by one, counting 0 past the end |
| `Directory.LookupIff` | fs.c:551-575 | A name means the number, low byte first, of the first entry in use that has it byte by byte, and nothing exactly if no entry has it |
| `Directory.LinkLookup` | fs.c:578-604 | After an entry is added every name whose first DIRSIZ bytes agree with the new one means the inode, and every other name what it did |
| `Directory.LinkDistinct` | fs.c:578-604 | Names in a directory stay distinct |
| `Directory.Dirlookup` | fs.c:551-575 | The first entry in use with the name, or none; no contents change, and nothing at all where the directory has no hole up to the entry; panics if and only if this is no directory, the holes up to the entry take more blocks than are left or find the log's list full, or the search runs into an entry that is cut off |
| `Directory.EntryTurn` | fs.c:591-602 | After the directory has been read to its end, writing the entry goes through if and only if it fits the volume and the list before the call |
| `Directory.Dirlink` | fs.c:578-604 | Fails exactly if the name is there; else exactly the names that agree with it in DIRSIZ bytes mean the inode, other names and files are unchanged, names stay distinct; panics if and only if this is no directory, the search for the name does, or the first free place is cut off, beyond the largest file, or takes more blocks or more of the log's list than there is |
| `Paths.SkipElem` | fs.c:622-644 | The first element of the path, or its first 14 bytes if it is longer, and the elements that remain |
| `Paths.ElementsOfJoin` | fs.c:622-644 | Splitting undoes joining with slashes |
| `Paths.Namex` | fs.c:651-684 | Resolves a path as the walk over its elements does, and for the parent also gives the last element; where the directories on the way have no holes up to the entries looked up it changes nothing and panics if and only if the walk breaks off at an inode that is not allocated or an entry that is cut off |
| `Paths.WalkFinds` | fs.c:651-684 | A path leads to n if and only if there is a chain of inodes from the start to n, each but the last an allocated directory that names the next by the next element; for the parent, by all elements but the last, and n is a directory |
| `Paths.WalkEnds` | fs.c:651-684 | It leads nowhere if and only if such a chain over some of the elements ends at a file, or at a directory without the next one |
| `Paths.WalkOn` | fs.c:651-684 | A walk goes on from where its first elements lead |
| `Paths.ParentHolds` | fs.c:651-684 | Resolving a path is looking its last element up in the directory that the parent resolution finds |
| `Mkfs.Image.constructor` | mkfs.c:108-115 | The empty image is sound |
| `Mkfs.Image.Ialloc` | mkfs.c:223-235 | The next inode, with nothing else changed |
| `Mkfs.Image.Iappend` | mkfs.c:255-297 | The file grows by exactly the bytes given and takes exactly the blocks that its new size needs; other files unchanged; the volume stays sound; fails if and only if the file would be too large or the image is full |
| `Mkfs.Image.RoundRoot` | mkfs.c:158-163 | The root is padded with zeros to whole blocks; all its blocks are allocated if and only if its size was not a whole number of blocks before |
| `Mkfs.FreeMap` | mkfs.c:237-251 | A free map with ones exactly for the blocks handed out |
| `Mkfs.Boot` | mkfs.c:165-165 | The kernel finds a sound volume on the image, the one mkfs had in mind |
| `Mkfs.MakeFs` | mkfs.c:117-163 | Every host file is on the image byte for byte, without holes, and the root lists them; it succeeds if and only if no name has a slash, no file is too large and the blocks of all files and the root fit the image |
| `Mkfs.RootFinds` | mkfs.c:117-163 | If names are distinct, looking one up in the finished root gives the inode of the file with that name, the root for its own two entries, and nothing for any other name |
| `Mkfs.ProgramFound` | mkfs.c:142-143 | A file whose host name begins with an underscore is found in the root under the rest of the name, any other under its name |

## Left out

- LogRuns: a disk write of one block is atomic; torn blocks and disk errors are not modelled.
- BufferCache: one device (ROOTDEV), with block numbers as tags; the sleep lock of a buffer is the holder count here, and `SleepLock` proves the lock itself.
- Log.Log.Recover: on a freshly started cache that nobody uses yet.
- Log.Log.Commit, Log.Log.EndOp: nobody outside log.c holds a block of the log area, and every change has been logged before its operation ends, as the source asks of its callers.
- Log: begin_op's waiting is the subject of `LogAdmission`; a buffer's sleep lock is not modelled, so a commit may copy a home block while another process holds it for reading.
- Log.Log.LogWrite: one thread, so its test of the list and its append are not interleaved with another's; `LogAdmission` takes them apart.
- LogAdmission, Pipe, Ide: going to sleep gives up the spinlock and falls asleep in one step, which `SleepLock` justifies for sleep and wakeup.
- Ide: port input and output, and the selection of a disk, are the single steps "the disk performs the command" and "interrupt".
- Scheduler.ProcTable.AgeProcs: runs without interference between its steps, because a method is one thread; `SchedulerRuns` lets other steps in wherever the source gives ptable.lock up.
- SchedulerRuns: the caller of ageprocs, trap.c, is not part of this model; any step may begin a call.
- Scheduler: ranks are real numbers, where the source computes in floats; ticks do not wrap around.
- Semaphore: the `place` field, which is only displayed, and the argument `prio`, which the source ignores.
- ProcRuns: memory, files and registers of a process; user-space sleeping is one step that names a channel.
- Pipe: pipealloc; user memory is a sequence of bytes, and a step of the machine is a call up to its next sleep.
- Shell: runcmd and the reading of a line; the text is the characters before the NUL, and argv is filled in the value of the command instead of in place.
- Grep: the reading of lines into a buffer.
- Fs: devices behind T_DEV inodes are the outcome `Device`; locks and the buffer cache are left to the modules above; blocks of inodes are sequences of inodes instead of bytes; ialloc and iget of the kernel, and the table of cached inodes.
- Fs.FileSystem.WriteRange: writei and changesize have the same loop, which is modelled once.
- Fs.FileSystem.Writei, Fs.FileSystem.ChangeSize, Fs.FileSystem.Iput, Directory.Dirlink: called inside an operation, as the source asks.
- Fs: operations that are open at the same time share the log's list, but run one after the other; their interleaving is the subject of `LogAdmission`.
- FileOps.OpenFile.Write: alone on a log whose list takes no more than MAXOPBLOCKS blocks, which mkfs does not make, only the sufficient condition is given.
- Paths.Namex: where a directory on the way has a hole before the entry looked up, a panic is only said to leave no block or no room in the log; `Directory.Dirlookup` has the exact condition for one directory.
- Fs.FileSystem.Readi, Fs.FileSystem.Writei, Fs.FileSystem.ChangeSize, Fs.FileSystem.Itrunc, Fs.FileSystem.Iput: a panic stops the machine, so after one only when it happens is promised, and for the first three that the volume is sound.
- FileOps: pipes behind a file, and the table of open files with its reference counts.
- Directory: unlinking, and the reference that dirlookup takes on the inode it finds; strncmp and strncpy, whose source is not part of this model, by their standard meaning.
- Paths: references and locks taken on the way; a directory entry that names no allocated inode is the outcome `Broken`.
- Mkfs.MakeFs: for fewer files than inodes, because the source does not check their number and writes inodes beyond the inode blocks.
- Mkfs: the host's own files are sequences of bytes; the superblock; an inode is updated in the image at once instead of in a local copy that is written back at the end of iappend.
- Memory (vm.c, kalloc.c, exec.c), the console and keyboard, spinlocks and context switches, traps and boot code are not modelled; neither are the small user programs.
