# Models of the media utility services

A Dafny 4.11 project that models the utility layer of the OpenHarmony media player framework and proves
what holds over whole runs of it. `dafny verify dfyconfig.toml` checks everything.

An object whose methods update its fields is a class with those fields. Each of its methods is proved
against a function on the object's value. The runs step through these functions, section by section, so
what they keep the methods keep. A few steps are in the runs only: the states of a task handler outside
the queue, the three separate writes at the end of a watchdog's disable, and joins. A run is a list of states and events: any interleaving of locked
sections and of the unlocked stretches between them, over a clock that never goes back. Nothing is
assumed about which caller acts next.

| files | what they model |
|---|---|
| `TaskQueue.dfy`, `TaskQueueRuns.dfy`, `TaskQueuePeriods.dfy`, `TaskQueueProgress.dfy`, `TaskQueueStops.dfy`, `TaskQueueRestarts.dfy`, `TaskQueueWitnesses.dfy` | the due-time scheduler: enqueueing, popping, periodic re-enqueueing, cancelling, start and stop from outside or from a task function; the turns of a worker and that they run every entry; whom a stop waits for; what a start does while an earlier worker is alive; runs that fall short |
| `WatchDog.dfy`, `WatchDogRuns.dfy`, `WatchDogAlarms.dfy` | the watchdog: enable, the phases of disable, pause, resume, notify and the two waits of its thread |
| `MediaDfx.dfy`, `MediaDfxRuns.dfy`, `MediaDfxData.dfy`, `MediaDfxReports.dfy`, `MediaDfxCalls.dfy`, `MediaDfxLocks.dfy` | the instance registry: its maps, the data of an entry, what is sent when, calls interleaved and one at a time, and the mutexes of every public call |
| `DfxLogDump.dfy`, `DfxLogDumpRuns.dfy` | the log: producers, the batch swap, the numbered files |
| `CjAVRecorder.dfy`, `CjAVRecorderRuns.dfy`, `CjAVRecorderHistory.dfy` | the recorder wrapper: both operation tables, the dispatcher, the operations, background changes; what its flags say about the past |
| `Decimal.dfy`, `UriHelper.dfy` | decimal printing and reading, fd URIs, the correction against the file size |
| `MadviseBits.dfy`, `MediaMadvise.dfy` | page rounding with bit masks in w-bit arithmetic, the walk over libraries |
| `Text.dfy`, `XmlParse.dfy` | `find` on strings, the key-list splitter |
| `Wrappers.dfy`, `Sums.dfy` | the optional value, sums over maps |

## Assumptions

- Objects start as their headers declare them: a task queue stopped with a null thread, a watchdog disabled.
- Every object is entered through the mutex the code takes; the clock read under it never goes back. Waits
  may return at any moment and look at their condition again.
- What the system answers is an input: clock values, whether a file opens, what `dup` and `fstat64` give,
  whether `madvise` and the calls into the underlying recorder succeed.
- The page size is a power of two smaller than the address space (2^k with k < w).
- Task functions return, unless they are inside a call of Stop that does not. A task handler is given to one
  queue only, so nobody but the workers of that queue executes it; anyone may cancel it or read its result.
- `Alarm`, `AlarmRecovery` and user callbacks do not call back into the object under its lock.
- The recorder's `recorder_` and `recorderCb_` are not null, allocations succeed, and background callbacks
  come between operations. Nobody else removes the wrapper's surface from SurfaceUtils.

## What was found

Where the code does less than its documentation or its evident purpose, one theorem states for all runs or
inputs exactly when it does what is promised, and a lemma gives one for which it does not.

- Watchdog: `count_` has 32 bits. A watchdog fed 2^32 times within one window raises an alarm all the same
  (`AlarmAfterWrap`); `AlarmEndsFullWindow` gives the exact condition.
- Task queue: nothing makes `Start` wait for the worker of an earlier period. `isTaskExecuting_` is exact
  throughout a run if and only if no worker completes a task while another one has one (`ExecutingFlagExact`,
  with the run `FlagWrongWithoutDiscipline`); whenever a Start would make a second worker, some continuation
  makes the flag wrong (`SecondWorkerBreaksFlag`). A Stop called from a task function of an earlier
  period waits inside that function, always for a later worker (`StopWaitsForLater`), so while the queue is
  stopped every Stop can return (`StopReturns`); but not by steps of the worker it waits for alone
  (`StopInsideStop`). A Start in between revives that worker: the join can end by steps of the worker and of
  those it waits for in turn if and only if it has ended or the queue is still stopped (`JoinEndsIff`,
  `StopHeldByStart`). After such a Start the last section of the earlier Stop cancels entries of the new period:
  it cancels only earlier entries if and only if no entry accepted since is still pending
  (`StopCancelsEarlierIff`, `StopCancelsNewEntry`).
- Registry: reporting an id that only CreatePlaybackInfo or its kind registered pushes a pair with id 0 and a
  null pointer into the report, if and only if its owner ever had an entry (`PhantomIff`, `PhantomReported`). The
  recorded maximum is right if and only if it is below 2^31 and direct calls of the exported GetMaxInstanceNumber
  named no more than it (`RecordedIsPeak`, `RecordedWrong`, `DirectCallWrong`); such calls are also the only reason
  for which UpdateMaxInsNumberMap removes a key (`NoKeyRemoved`).
- Log: entries are lost in two ways, a batch whose file does not open and text saved after the last swap before
  the thread exits, and in no other (`NothingLostIff`, `LostByFailedOpen`, `LostByExit`).
- Recorder: a Prepare configures if and only if no configuration succeeded since the latest successful Stop,
  Reset or Release operation; the reset inside a failed Prepare does not count (`PrepareConfiguresIff`,
  `PreparedWithoutConfiguration`). A Start with video records from a surface that is held and registered if and
  only if the latest registration since the Prepare succeeded and no Reset or Release failed after it
  (`StartUsesRegisteredIff`, `StartedWithUnregisteredSurface`, `StartedWithoutSurface`).
- fd URIs: the names `offset=` and `size=` are never compared, only their lengths count (`ParseInvertsPrint`).
  The length of the offset text is unsigned, so an early `&` is accepted, exactly if three texts stand for
  numbers (`EarlyAmpersandAcceptedIff`, `EarlyAmpersand`); the stored offset is the one before the `&` if and
  only if the `&` comes after its place (`OffsetBeforeAmpersandIff`). The formatted URI of an http address is
  its head and body without the "://" between them (`FormatByHead`).
- Madvise: the guard of the header loop subtracts without checking, so an advised address is the true sum if
  and only if the offset is at most MAX_SAFE_ADDRESS (`SegmentAddress`, `WrappedAddressAdvised`).
- Key lists: with a delimiter that does not overlap itself the pieces give the input back if and only if it ends
  with the whole delimiter or with another last character (`RebuildsIff`, `LongDelimiterLoses`); for any
  delimiter, if and only if nothing is left behind the last one found (`RebuildsIffNothingLeft`, `OverlapLoses`).

## Model

| member | source | states |
|---|---|---|
| TaskQueueRuns.PoppedInDueOrder | services/utils/task_queue.cpp:131-150 | over a whole run, with any producers, workers, re-enqueues, cancels, starts and stops, the popped tasks followed by the pending ones are strictly increasing in due time, ties by enqueue order |
| TaskQueueRuns.HistoryGrows | services/utils/task_queue.cpp:178-192 | the pop, enqueue and cancel histories only grow along a run, so the order above also holds against tasks enqueued after earlier pops |
| TaskQueueRuns.TasksConserved | services/utils/task_queue.cpp:116-165 | at every point of every run each accepted enqueue is exactly once pending, popped or cancelled |
| TaskQueueRuns.EnqueueLeaves | services/utils/task_queue.cpp:135-152 | an accepted enqueue that cancels leaves exactly the new entry pending and every earlier one cancelled; one that does not adds exactly the new entry |
| TaskQueueRuns.DueTimes | services/utils/task_queue.cpp:119-150 | every due time is the enqueue instant plus the delay in ns, without uint64 wrap and less than 10 s ahead, and no entry is popped before it is due |
| TaskQueueRuns.PeriodBetweenPops | services/utils/task_queue.cpp:184-215 | the copy of a periodic task that its worker enqueued is popped at least one full period after the pop it follows |
| TaskQueuePeriods.EveryTurn | services/utils/task_queue.cpp:177-215 | in every run, between a pop and its next pop or exit a worker asks once whether the handler is cancelled and skips it exactly if it is; otherwise it enters Execute, runs the function exactly if the handler is idle, leaves, and clears and re-enqueues it exactly if it is periodic |
| TaskQueuePeriods.CopyAccepted | services/utils/task_queue.cpp:208-214 | the re-enqueue of a periodic task accepts just one entry, for the same task, due now + 1000 * period, exactly if the queue runs, the period is below ten seconds and the sum does not reach UINT64_MAX; otherwise it changes nothing |
| TaskQueuePeriods.OneCopy | services/utils/task_queue.cpp:208-211 | at any time each pop has led to at most one re-enqueued entry |
| TaskQueuePeriods.NoCopyOtherwise | services/utils/task_queue.cpp:195-211 | a pop whose task was skipped as cancelled, is not periodic, or did not fit never has such an entry |
| TaskQueuePeriods.HandlerLife | services/utils/include/task_queue.h:122-214 | over every run a handler goes from idle to running when a worker enters Execute, to finished when its function returns, back to idle when it is cleared, and to cancelled from anywhere but running, and changes in no other way |
| TaskQueueProgress.EntryCanBePopped | services/utils/task_queue.cpp:177-215 | while the queue runs every pending entry can be popped by steps of any one worker not inside a Stop, whatever the worker is doing and whatever periodic tasks it re-enqueues on the way |
| TaskQueueProgress.EnqueueAnswers | services/utils/task_queue.cpp:116-153 | an enqueue is accepted exactly for a delay below ten seconds, a running queue and a due time that fits; which code refuses the others and what a refusal changes |
| TaskQueueProgress.StopUndoesStart | services/utils/task_queue.cpp:38-77 | a second Start and a second Stop change nothing, and a Stop undoes a Start |
| TaskQueueRuns.ThreadIffNotExit | services/utils/task_queue.cpp:38-91 | in every state `thread_` is non-null exactly while `isExit_` is false, so Stop never dereferences null, and it points to a live worker |
| TaskQueueRuns.OneWorkerIffDisciplined | services/utils/task_queue.cpp:38-91 | at most one worker is alive throughout a run exactly when every Start that makes one finds none left |
| TaskQueueRuns.ExecutingFlagExact | services/utils/task_queue.cpp:193-224 | `isTaskExecuting_` is true exactly while a task is between pop and completion, throughout a run, if and only if no worker completes a task while another one has one |
| TaskQueueRuns.DisciplinedFlagExact | services/utils/task_queue.cpp:193-224 | so it is in runs where each Start that makes a worker finds none left, and there at most one task is between pop and completion |
| TaskQueueWitnesses.FlagWrongWithoutDiscipline | services/utils/task_queue.cpp:193-207 | a run with an early Start in which a task runs while `isTaskExecuting_` is false |
| TaskQueueRestarts.SecondWorkerBreaksFlag | services/utils/task_queue.cpp:38-49 | from every reachable state where a Start makes a second worker, some continuation of it ends with a task under way and the flag false |
| TaskQueueStops.StopWaitsForLater | services/utils/task_queue.cpp:73-81 | waiting is acyclic: a task function inside Stop waits for a worker spawned after its own |
| TaskQueueStops.WorkerEnds | services/utils/task_queue.cpp:177-215 | while the queue is stopped every worker can end by steps of its wait chain alone: its own, those of the worker its task function's Stop waits for, and so on, and of these Stops |
| TaskQueueStops.RunOut | services/utils/task_queue.cpp:177-215 | a worker outside Stop ends by at most seven steps of its own while the queue is stopped |
| TaskQueueStops.JoinEndsIff | services/utils/task_queue.cpp:73-81 | the join of a Stop can end by steps of the wait chain of its worker alone exactly if that worker has ended or the queue is still stopped |
| TaskQueueStops.StopReturns | services/utils/task_queue.cpp:51-91 | no set of Stops blocks itself: while the queue is stopped every Stop can return by its own steps and those of that chain |
| TaskQueueWitnesses.StopHeldByStart | services/utils/task_queue.cpp:38-81 | a run in which a Start right after a Stop's first section holds the join up |
| TaskQueueWitnesses.StopInsideStop | services/utils/task_queue.cpp:73-81 | a run with a Stop inside a task function whose worker another Stop waits for: that one cannot return by the worker's steps alone, and can with those of the inner Stop and the new worker |
| TaskQueueRuns.StopCancelsLeftovers | services/utils/task_queue.cpp:88-91 | the last section of a Stop that joined empties the list; each leftover handler ends cancelled exactly if no worker is inside its function |
| TaskQueueStops.StopCancelsEarlierIff | services/utils/task_queue.cpp:88-91 | the last section of a Stop cancels only entries accepted before a given earlier step, its first section say, exactly if no entry accepted since is still pending |
| TaskQueueStops.AcceptedAfterStart | services/utils/task_queue.cpp:131-133 | from a stopped state on nothing is accepted or popped before a Start that makes a worker |
| TaskQueueWitnesses.StopCancelsNewEntry | services/utils/task_queue.cpp:88-91 | a run in which a Stop cancels an entry enqueued after a Start, while the queue runs |
| TaskQueueRuns.CancelHandlersEffect | services/utils/task_queue.cpp:155-165 | cancelling a list cancels exactly the handlers on it that are not running |
| TaskQueueRuns.HandlerNotReentered | services/utils/include/task_queue.h:122-144 | no handler is ever run by two workers at once, however Start and Stop interleave |
| TaskQueueRuns.CancelIsFinal | services/utils/include/task_queue.h:174-214 | a cancelled handler stays cancelled for the rest of the run and its function is never entered again |
| TaskQueueModel.InsertionPoint | services/utils/task_queue.cpp:146-148 | the insertion position has no later entry before it and a later entry at it |
| TaskQueueModel.TaskQueue.constructor | services/utils/include/task_queue.h:254-262 | a new queue is stopped, has no thread and nothing pending |
| TaskQueueModel.TaskQueue.Start | services/utils/task_queue.cpp:38-49 | a thread is made and the exit flag cleared only if there is none; otherwise nothing changes |
| TaskQueueModel.TaskQueue.StopBegin | services/utils/task_queue.cpp:53-77 | sets the exit flag and gives the thread up once; another thread is told to join it, the task thread and a second Stop are not |
| TaskQueueModel.TaskQueue.CancelNotExecutedTaskLocked | services/utils/task_queue.cpp:155-165 | the loop empties the list and cancels every handler on it, in order |
| TaskQueueModel.TaskQueue.FindLater | services/utils/task_queue.cpp:146-148 | the search stops at the first entry due later |
| TaskQueueModel.TaskQueue.InsertLocked | services/utils/task_queue.cpp:145-149 | the new entry, due at the sum, is put before the first later entry; all others stay |
| TaskQueueModel.TaskQueue.EnqueueTask | services/utils/task_queue.cpp:116-153 | the whole new state and the code of every path, the rejections that still cleared the handler or cancelled the list included |
| TaskQueueModel.TaskQueue.TakeDue | services/utils/task_queue.cpp:178-194 | the head leaves the list exactly if the queue runs and the head is due, and sets the executing flag |
| TaskQueueModel.TaskQueue.FinishTask | services/utils/task_queue.cpp:198-207 | clears the executing flag and nothing else |
| TaskQueueModel.TaskQueue.IsTaskExecuting | services/utils/task_queue.cpp:220-224 | reports the executing flag |
| WatchDogRuns.OneThread | services/utils/watchdog.cpp:31-68 | at most one thread and one Disable under any interleaving: enabled means exactly the thread `thread_` points to, disabling excludes enabled, neither means none |
| WatchDogRuns.ThreadPointerSafe | services/utils/watchdog.cpp:43-61 | a join waits for the thread `thread_` points to and its exit flag stays set; an Enable assigns `thread_` only when it is null and no Disable is under way |
| WatchDogRuns.DisableProgress | services/utils/watchdog.cpp:49-68 | a Disable is never stuck: the step that advances it is possible in every state and no other step sets it back |
| WatchDogRuns.WindowOpened | services/utils/watchdog.cpp:121-132 | an open timed wait was opened by the same thread at a definite step, and pauses, feeds and the enabled flag since then are what the flags and the count say |
| WatchDogRuns.AlarmEndsFullWindow | services/utils/watchdog.cpp:115-152 | every alarm ends a complete timeout window of its thread inside one enabled period, without a pause even if resumed, and without a Notify exactly if the calls were fewer than it takes to wrap the counter |
| WatchDogRuns.AlarmAfterWrap | services/utils/watchdog.cpp:100 | a run in which 2^32 Notify calls in one window end in an alarm |
| WatchDogAlarms.AlarmIff | services/utils/watchdog.cpp:121-152 | over every run the end of a timed wait raises an alarm if and only if the watchdog is enabled, no alarm is pending, the thread is not held, no PauseWatchDog took effect in the wait, and the effective Notify calls since a timed wait was last done, or since the start, add up to 0 modulo 2^32 |
| WatchDogAlarms.SilentWindowAlarms | services/utils/watchdog.cpp:121-152 | the same for a window and the step at which its thread opened it |
| WatchDogAlarms.OnlyThreadRaises | services/utils/watchdog.cpp:142-147 | no other step raises an alarm |
| WatchDogAlarms.FirstWaitEnds | services/utils/watchdog.cpp:80-127 | a thread can leave its first wait if and only if the watchdog is disabled or the latest of pauses, alarms, resumes, recoveries and disables does not hold it; so it can after ResumeWatchDog and after a recovery |
| WatchDogAlarms.TimedWaitEnds | services/utils/watchdog.cpp:129-132 | the timed wait ends when its time is up, the watchdog is disabled, the thread is held, or Notify calls were counted, and in no other case |
| WatchDogAlarms.EnabledIff | services/utils/watchdog.cpp:31-68 | the watchdog is enabled exactly if an EnableWatchDog came while no Disable was under way and no DisableWatchDog since |
| WatchDogRuns.AlarmsBalance | services/utils/watchdog.cpp:89-103 | over a run, alarms are recoveries plus the Disables that cleared an alarm plus one if an alarm is on |
| WatchDogRuns.AlarmedChanges | services/utils/watchdog.cpp:142-149 | `alarmed_` is set only by an alarm and cleared only by a recovery or a Disable |
| WatchDogRuns.AlarmsAlternate | services/utils/watchdog.cpp:89-103 | between two alarms there is a recovery or a clearing Disable, between two recoveries an alarm |
| WatchDogModel.WatchDog.constructor | services/utils/include/watchdog.h:83-92 | a new watchdog is disabled, not disabling, and silent |
| WatchDogModel.WatchDog.TryEnable | services/utils/watchdog.cpp:34-45 | enables and asks for a thread exactly if neither enabled nor disabling; tries again only while disabling |
| WatchDogModel.WatchDog.BeginDisable | services/utils/watchdog.cpp:51-56 | only one caller wins the disable, and it clears the enabled flag |
| WatchDogModel.WatchDog.EndDisable | services/utils/watchdog.cpp:63-66 | clears pause, alarm and the disabling flag, nothing else |
| WatchDogModel.WatchDog.PauseWatchDog | services/utils/watchdog.cpp:70-78 | sets both pause flags, only if enabled |
| WatchDogModel.WatchDog.ResumeWatchDog | services/utils/watchdog.cpp:80-87 | clears `pause_` but not `paused_`, only if enabled |
| WatchDogModel.WatchDog.NotifyDog | services/utils/watchdog.cpp:89-103 | counts modulo 2^32 if enabled, and recovers exactly if an alarm was on |
| WatchDogModel.WatchDog.OpenWindow | services/utils/watchdog.cpp:121-127 | a new window forgets earlier pauses |
| WatchDogModel.WatchDog.CloseWindow | services/utils/watchdog.cpp:134-151 | the whole new state of every path after the timed wait, and when it alarms or exits |
| MediaDfxLocks.EveryCallOrderly | services/utils/media_dfx.cpp:208-315 | every public call, whatever the maps hold, acquires a mutex only while holding nothing or `reportMut_`, never one it holds, and ends holding none |
| MediaDfxLocks.ReportTakes | services/utils/media_dfx.cpp:999-1026 | which mutexes ReportMediaInfo takes for what it finds: that of the registry always, those of the report and the counters once something was collected, those of the maxima and the reported counters exactly if it counts, sends and looks maxima up |
| MediaDfxLocks.CreateTakes | services/utils/media_dfx.cpp:665-703 | CreateMediaInfo takes the mutex of the maxima exactly if the id is new; the query of the number takes those of the registry and the report |
| MediaDfxLocks.LocksExclusive | services/utils/media_dfx.cpp:999-1026 | with any number of calls no mutex has two holders, and a waiting call holds at most `reportMut_` |
| MediaDfxLocks.NoDeadlock | services/utils/media_dfx.cpp:94-171 | in every reachable state with an unfinished call some call can go on |
| MediaDfxLocks.AdvanceShrinks | services/utils/media_dfx.cpp:823-840 | every action of a call leaves exactly one action less to do over all calls |
| MediaDfxLocks.AllCallsFinish | services/utils/media_dfx.cpp:474-525 | from every reachable state all calls can be run to their end, in exactly as many actions as remain, with nothing held |
| MediaDfxRuns.IdsUnique | services/utils/media_dfx.cpp:665-703 | over all live lists an id occurs at most once, in the list of its owner, and only if CreateMediaInfo registered it |
| MediaDfxRuns.OwnerFixed | services/utils/media_dfx.cpp:77-92 | the owner of a registered id does not change before it is collected |
| MediaDfxRuns.EntryConserved | services/utils/media_dfx.cpp:208-258 | at every point of every interleaving each entry ever made is in exactly one place, once: live, in flight between the two locks, pending in the report, or sent |
| MediaDfxRuns.EntriesCounted | services/utils/media_dfx.cpp:1061-1084 | the total number of entries is the number made plus the empty pairs pushed; collecting an id made by CreateMediaInfo leaves both unchanged |
| MediaDfxRuns.TakeEffect | services/utils/media_dfx.cpp:214-242 | a collection takes the one entry of an id made by CreateMediaInfo out of its owner's list and changes no other list; for any other id it changes no list, and carries the empty pair exactly if the id is registered and its owner has a list |
| MediaDfxRuns.PhantomIff | services/utils/media_dfx.cpp:214-242 | in every run a collection pushes an empty pair exactly if the id was registered by CreatePlaybackInfo or its kind and not collected since, and CreateMediaInfo once made an entry for its owner |
| MediaDfxRuns.PhantomReported | services/utils/media_dfx.cpp:243-254 | a run after which the report holds a pair with id 0 and no data |
| MediaDfxRuns.CollectTakes | services/utils/media_dfx.cpp:214-242 | in every reachable state the entry of the collected id, with its data, leaves its list and is in flight; no other list changes |
| MediaDfxRuns.CollectPuts | services/utils/media_dfx.cpp:243-254 | the entry in flight arrives at the end of its owner's report list; no other list changes |
| MediaDfxRuns.RemoveUnique | services/utils/media_dfx.cpp:238 | removing by value removes just the one entry when ids are unique |
| MediaDfxData.CollectedIsLatest | services/utils/media_dfx.cpp:842-879 | in every run the collected pair of an id made by CreateMediaInfo holds for every key the value appended last since then, and no other key |
| MediaDfxData.AppendAnswers | services/utils/media_dfx.cpp:842-866 | an append is accepted exactly for some data, a registered id and an owner that ever had an entry; which code refuses the others |
| MediaDfxData.ValidateAnswers | services/utils/media_dfx.cpp:77-92 | exactly a free id or one of the same owner is accepted and then belongs to the owner; nothing else changes |
| MediaDfxReports.TailSends | services/utils/media_dfx.cpp:1006-1025 | in every interleaving the end of a report sends all that was collected since the lists were last sent, and empties them, if and only if four hours have passed, or the latest collection left its call type with 100 uids and no report has looked since, and there is something to send; otherwise it changes and sends nothing |
| MediaDfxReports.OnlyTailSends | services/utils/media_dfx.cpp:243-285 | nothing else sends, and only collections add to the report lists |
| MediaDfxReports.ReportSends | services/utils/media_dfx.cpp:999-1026 | a ReportMediaInfo that collected something sends exactly the lists with the new pair and empties them if and only if four hours have passed or the call type of the pair then has at least 100 uids; otherwise the lists gain just the pair and nothing is sent |
| MediaDfxReports.SentLevels | services/utils/media_dfx.cpp:266-271 | a report that is sent gives a level of maxima exactly to the call types of which it sends data, and leaves the maxima of all but players as they are |
| MediaDfxModel.WeighSetList | services/utils/media_dfx.cpp:684-699 | replacing one list changes the total weight of all lists by the difference of the two lists |
| MediaDfxCalls.RecordedIsPeak | services/utils/media_dfx.cpp:767-787 | for calls one at a time, direct ones of GetMaxInstanceNumber included, the recorded maximum is the largest length the live list had since the last restart of its call type exactly if that length is below 2^31 and no larger number was recorded directly since (for an owner that never had a list: none but 0 as the largest) |
| MediaDfxCalls.RecordedWrong | services/utils/media_dfx.cpp:686-688 | after 2^31 CreateMediaInfo calls for one owner the recorded maximum is not the length of the list |
| MediaDfxCalls.NoKeyRemoved | services/utils/media_dfx.cpp:1043-1057 | UpdateMaxInsNumberMap removes the key of a uid exactly if the uid never had a live list, its call type has one, and a direct call named it since the last update |
| MediaDfxCalls.DirectCallWrong | services/utils/media_dfx.cpp:1043-1057 | a direct call for a uid without instances leaves a wrong maximum, and the next update removes its key |
| MediaDfxCalls.ReportMapBounded | services/utils/media_dfx.cpp:255-256 | after every call each call type has fewer than 100 uids in the report map and the shared flag is clear |
| MediaDfxModel.Find | services/utils/media_dfx.cpp:235-241 | the position of the first entry with the id, or the end of the list |
| MediaDfxCalls.MediaDfx.constructor | services/utils/media_dfx.cpp:52-57 | the registry starts empty |
| MediaDfxCalls.MediaDfx.CreateMediaInfo | services/utils/media_dfx.cpp:665-703 | rejects a known id, else registers it, adds its entry at the end of its list and records the length |
| MediaDfxCalls.MediaDfx.GetMaxInstanceNumber | services/utils/media_dfx.cpp:767-787 | the larger of the old and the given number is recorded for the owner, nothing else changes |
| MediaDfxCalls.MediaDfx.ValidateOrAddInstanceId | services/utils/media_dfx.cpp:77-92 | registers an unknown id, accepts the same owner, rejects another |
| MediaDfxCalls.MediaDfx.FindInstance | services/utils/media_dfx.cpp:868-877 | the loop finds the first entry with the id |
| MediaDfxCalls.MediaDfx.AppendMediaInfo | services/utils/media_dfx.cpp:842-879 | merges the data into the entry of the id and nothing else; the code of every path |
| MediaDfxCalls.MediaDfx.CollectTake | services/utils/media_dfx.cpp:213-242 | the new registry and what is carried out of the lock, also on the paths that fail after forgetting the id |
| MediaDfxCalls.MediaDfx.CollectPut | services/utils/media_dfx.cpp:243-255 | the pair goes to the end of its owner's report list and the flag says whether the call type is full |
| MediaDfxCalls.MediaDfx.ReportIfDue | services/utils/media_dfx.cpp:1006-1025 | flag, code, and what is sent after a collection: the whole report exactly if due and not empty |
| MediaDfxCalls.MediaDfx.ReportMediaInfo | services/utils/media_dfx.cpp:999-1026 | the new registry and code of every path, and what is sent: with a pair collected, exactly the lists with it, and exactly if four hours have passed or its call type then has 100 uids |
| MediaDfxCalls.MediaDfx.WriteStatistics | services/utils/media_dfx.cpp:268-270 | the loop over the report adds an empty level of maxima for each call type with data and none so far, and changes no map else |
| MediaDfxCalls.MediaDfx.UpdateMaxInsNumberMap | services/utils/media_dfx.cpp:1028-1059 | the loops give every uid with a live list its length and drop the others |
| MediaDfxCalls.MediaDfx.RefreshLengths | services/utils/media_dfx.cpp:1041-1057 | the two loops: lengths assigned to the known uids, those without a list removed |
| MediaDfxCalls.MediaDfx.CountUids | services/utils/media_dfx.cpp:1066-1070 | the inner loop adds up the list lengths of one call type, in whatever order |
| MediaDfxCalls.MediaDfx.CountLists | services/utils/media_dfx.cpp:1066-1070 | the outer loop adds up all call types |
| MediaDfxCalls.MediaDfx.GetMediaInfoContainInstanceNum | services/utils/media_dfx.cpp:1061-1084 | the number of entries in the live and the report lists |
| DfxLogDumpRuns.EntriesInOrder | services/dfx/dfx_log_dump.cpp:80-152 | all batches in order, then the batch in flight, then the pending text are exactly the accepted entries in order, whether or not files open |
| DfxLogDumpRuns.NothingLostIff | services/dfx/dfx_log_dump.cpp:135-176 | while the thread lives nothing accepted is lost exactly if every batch whose file did not open was empty; once it has exited everything accepted is written exactly if, besides, nothing was saved since its last swap |
| DfxLogDumpRuns.PendingSinceSwap | services/dfx/dfx_log_dump.cpp:140-152 | the pending text is empty exactly if no enabled SaveLog came since the last swap |
| DfxLogDumpRuns.AcceptedWhileOn | services/dfx/dfx_log_dump.cpp:80-85 | the accepted entries are exactly those saved while the latest probe had found the log enabled, in order |
| DfxLogDumpRuns.ExitRequested | services/dfx/dfx_log_dump.cpp:140-142 | the thread ends only after a request to exit |
| DfxLogDumpRuns.LostByExit | services/dfx/dfx_log_dump.cpp:140-142 | a run that loses an entry at the exit although every file opened |
| DfxLogDumpRuns.LostByFailedOpen | services/dfx/dfx_log_dump.cpp:165-167 | a run that loses an entry because its file did not open |
| DfxLogDumpRuns.WrittenIsDealt | services/dfx/dfx_log_dump.cpp:160-176 | what was written is all that was taken, or as long, exactly if every failed batch was empty |
| DfxLogDumpRuns.DiskHoldsLatest | services/dfx/dfx_log_dump.cpp:155-176 | the files hold the latest 101 generations, complete, in rotating slots; the generations in order are everything written; `fileCount_` stays within 0..100 |
| DfxLogDumpRuns.LineCountExact | services/dfx/dfx_log_dump.cpp:112-152 | while files open, `lineCount_` is the entries in the current file, in flight and pending outside a rotating batch, those pending inside one; finished files are full, the current one is not |
| DfxLogDumpRuns.RotatesExactlyWhenFull | services/dfx/dfx_log_dump.cpp:169-173 | a file is left exactly by the flush after which it holds 50000 entries |
| DfxLogDumpRuns.SlotsApart | services/dfx/dfx_log_dump.cpp:171-172 | generations fewer than 101 apart use different files |
| DfxLogDumpModel.DfxLogDump.constructor | services/dfx/dfx_log_dump.h:34-44 | the log starts disabled, empty, with a new file 0 |
| DfxLogDumpModel.DfxLogDump.SaveLog | services/dfx/dfx_log_dump.cpp:80-116 | an enabled log gains the entry and one line, a disabled one nothing |
| DfxLogDumpModel.DfxLogDump.SwapBatch | services/dfx/dfx_log_dump.cpp:150-152 | the batch is all the pending text with its line count; nothing stays behind |
| DfxLogDumpModel.DfxLogDump.WriteText | services/dfx/dfx_log_dump.cpp:160-175 | a new file holds just the batch, another one gains it at its end |
| DfxLogDumpModel.DfxLogDump.WriteBatch | services/dfx/dfx_log_dump.cpp:155-176 | text, rotation and file number of a flush; a failed open changes nothing |
| CjAVRecorderRuns.CallsAreLegal | frameworks/cj/avrecorder/cj_avrecorder.cpp:997-1010 | in every run with background changes between operations, each call on the underlying recorder is accepted by a monitor that knows nothing of the tables and flags |
| CjAVRecorderRuns.StartNeedsSurface | frameworks/cj/avrecorder/cj_avrecorder.cpp:849-882 | Start is called only after a successful Prepare still in force, and with video only after GetSurface gave a surface and GetInputSurface succeeded since it |
| CjAVRecorderRuns.PausesSeparated | frameworks/cj/avrecorder/cj_avrecorder.cpp:884-898 | between two successful calls of Pause there is a successful Resume or Start |
| CjAVRecorderRuns.NothingAfterRelease | frameworks/cj/avrecorder/cj_avrecorder.cpp:919-927 | after a successful Release the recorder is called again only if a background change came in between |
| CjAVRecorderRuns.TableFacts | frameworks/cj/avrecorder/cj_avrecorder.h:68-125 | what the two tables together let through: Prepare from idle or stopped, Start and GetInputSurface from prepared, Pause from started, nothing from released |
| CjAVRecorderRuns.OperationDoes | frameworks/cj/avrecorder/cj_avrecorder.cpp:929-1010 | Start, Pause, Resume, Stop, Reset and Release in every state: where the target is reached already they succeed without a call; from the states listed they make just their own call and reach the target exactly if it succeeds; everywhere else, and for a video Start without its surface, they are refused and change nothing |
| CjAVRecorderRuns.SurfaceOperationDoes | frameworks/cj/avrecorder/cj_avrecorder.cpp:849-866 | GetInputSurface succeeds exactly in the prepared state with video, with the surface held or fetched and registered; it never changes the state |
| CjAVRecorderRuns.PrepareDoes | frameworks/cj/avrecorder/cj_avrecorder.cpp:124-158 | Prepare succeeds exactly from idle and stopped with a valid source, a configuration made now or earlier and a successful call; what it then leaves |
| CjAVRecorderRuns.PrepareFails | frameworks/cj/avrecorder/cj_avrecorder.cpp:124-152 | a failed Prepare changes only the configuration, and after a valid configuration ends with the call of Reset |
| CjAVRecorderRuns.QueryDoes | frameworks/cj/avrecorder/cj_avrecorder.cpp:609-732 | the states in which each query is passed on; it changes nothing and answers as its call does |
| CjAVRecorderHistory.PrepareConfiguresIff | frameworks/cj/avrecorder/cj_avrecorder.cpp:144-158 | in every run a successful Prepare calls the setters exactly if no configuration succeeded since the start or since the latest successful Stop, Reset or Release operation |
| CjAVRecorderHistory.PreparedWithoutConfiguration | frameworks/cj/avrecorder/cj_avrecorder.cpp:144-152 | a run that prepares a recorder that was reset, without configuring it again |
| CjAVRecorderHistory.StartUsesRegisteredIff | frameworks/cj/avrecorder/cj_avrecorder.cpp:849-927 | in every run, at a call of Start with video the surface is held and registered exactly if the latest registration since the Prepare succeeded and no Reset or Release failed after it |
| CjAVRecorderHistory.StartedWithUnregisteredSurface | frameworks/cj/avrecorder/cj_avrecorder.cpp:854-865 | a run that records from a surface whose registration failed |
| CjAVRecorderHistory.StartedWithoutSurface | frameworks/cj/avrecorder/cj_avrecorder.cpp:909-917 | a run that starts a video recording after a failed Reset gave the surface up |
| CjAVRecorderModel.CjAVRecorder.constructor | frameworks/cj/avrecorder/cj_avrecorder.cpp:48-78 | the wrapper starts idle with no surface, configuration or flags |
| CjAVRecorderModel.CjAVRecorder.PrepareRecorder | frameworks/cj/avrecorder/cj_avrecorder.cpp:124-158 | state, flags and calls of every path, the resets after a failure included |
| CjAVRecorderModel.CjAVRecorder.FetchInputSurface | frameworks/cj/avrecorder/cj_avrecorder.cpp:849-866 | refused without video; a kept surface is reused; one whose registration failed is kept but not announced |
| CjAVRecorderModel.CjAVRecorder.StartRecorder | frameworks/cj/avrecorder/cj_avrecorder.cpp:868-882 | refused without the input surface of a video; a failure is an error state |
| CjAVRecorderModel.CjAVRecorder.PauseRecorder | frameworks/cj/avrecorder/cj_avrecorder.cpp:884-890 | Pause changes the state only on success |
| CjAVRecorderModel.CjAVRecorder.ResumeRecorder | frameworks/cj/avrecorder/cj_avrecorder.cpp:892-898 | Resume changes the state only on success |
| CjAVRecorderModel.CjAVRecorder.StopRecorder | frameworks/cj/avrecorder/cj_avrecorder.cpp:900-907 | Stop changes state and configuration flag only on success and keeps the surface |
| CjAVRecorderModel.CjAVRecorder.ResetRecorder | frameworks/cj/avrecorder/cj_avrecorder.cpp:909-917 | Reset gives the surface up first, and changes state and flag only on success |
| CjAVRecorderModel.CjAVRecorder.ReleaseRecorder | frameworks/cj/avrecorder/cj_avrecorder.cpp:919-927 | Release gives the surface up first, and changes state and flag only on success |
| CjAVRecorderModel.CjAVRecorder.DropSurface | frameworks/cj/avrecorder/cj_avrecorder.cpp:527-537 | a held surface is forgotten and its registration removed |
| CjAVRecorderModel.CjAVRecorder.ExecuteOptTask | frameworks/cj/avrecorder/cj_avrecorder.cpp:997-1010 | refuses what the first table does not allow, accepts what the second lists without doing it, dispatches the rest |
| CjAVRecorderModel.CjAVRecorder.OnBackground | frameworks/cj/avrecorder/cj_avrecorder_callback.cpp:84-166 | a background change replaces the state only |
| Decimal.StrToIntExactly | services/utils/uri_helper.cpp:61-82 | a string is read as a number exactly if up to its first NUL it is a sign, zeros and the digits of that number, and the number is in the range of the type |
| Decimal.PrintRoundTrip | services/utils/uri_helper.cpp:61-82 | reading what std::to_string printed gives the number back, for every int32 and int64, the minima included |
| Decimal.CString | services/utils/uri_helper.cpp:65-68 | the text strtoll sees ends before the first NUL |
| Decimal.DigitRun | services/utils/uri_helper.cpp:69 | the digits strtoll takes are the longest run at the front |
| UriHelperModel.CorrectedInside | services/utils/uri_helper.cpp:191-196 | after the correction 0 <= offset <= file size and 0 <= size <= file size - offset; possible requests are kept, exactly those, an impossible offset becomes 0 and an impossible size the rest of the file; correcting again changes nothing; no int64 overflows |
| UriHelperModel.ParseInvertsPrint | services/utils/uri_helper.cpp:248-281 | parsing a printed body gives back descriptor, offset and size, for every int32 and int64, whatever the field names are |
| UriHelperModel.SplitFinds | services/utils/uri_helper.cpp:85-113 | head and body are found around the first "://", whatever spaces surround the text |
| UriHelperModel.FormatPrinted | services/utils/uri_helper.cpp:134-168 | a new helper for a printed URI, spaces around it, has the printed numbers corrected, or is of unknown type if the descriptor cannot be inspected |
| UriHelperModel.RoundTrip | services/utils/uri_helper.cpp:120-202 | the URI printed by a corrected helper, read for a file of the same size, gives the same helper but for the descriptor number |
| UriHelperModel.ParseStores | services/utils/uri_helper.cpp:256-272 | a URI with both delimiters that spells three numbers in range is parsed to exactly these |
| UriHelperModel.AcceptedIff | services/utils/uri_helper.cpp:248-281 | a URI with both delimiters is accepted exactly if the descriptor can be inspected and the URI spells three numbers in range |
| UriHelperModel.RefusedLeaves | services/utils/uri_helper.cpp:256-280 | what a refused URI with both delimiters leaves behind: nothing, the offset alone, or all three numbers, and exactly when |
| UriHelperModel.PlainAcceptedIff | services/utils/uri_helper.cpp:254-281 | a body without delimiters is accepted exactly if it stands for an int32 and the descriptor can be inspected; it gives that descriptor, and the offset, size and text of the correction |
| UriHelperModel.OneDelimiterRefused | services/utils/uri_helper.cpp:273-276 | a body with just one delimiter is refused and changes nothing |
| UriHelperModel.FormatPlain | services/utils/uri_helper.cpp:134-168 | a new helper for "fd://" and any int32, spaces around it, has that descriptor, offset 0, the file size and the printed URI of the whole file, or is of unknown type without a text if the descriptor cannot be inspected |
| UriHelperModel.FormatByHead | services/utils/uri_helper.cpp:134-168 | a new helper for a "file" URI has the resolved path or the unresolved text, one for an "http" URI the head and the body without "://", one for an unknown head nothing |
| UriHelperModel.FormatPath | services/utils/uri_helper.cpp:85-168 | a text without "://" is a file path |
| UriHelperModel.FormatNothing | services/utils/uri_helper.cpp:134-138 | blanks are an unknown URI; the empty text, and any text once there is a formatted URI, change nothing |
| UriHelperModel.EarlyAmpersandAcceptedIff | services/utils/uri_helper.cpp:259-265 | one whose '&' comes too early is accepted exactly if the text before the '?' stands for an int32 and the rests from the places of offset and size each for an int64 |
| UriHelperModel.OffsetBeforeAmpersandIff | services/utils/uri_helper.cpp:259-262 | in an accepted URI the stored offset is the number written before the '&' exactly if the '&' comes after the place of the offset |
| UriHelperModel.EarlyAmpersand | services/utils/uri_helper.cpp:259-261 | a URI with an early '&' that is accepted with offset 77 |
| UriHelperModel.UriHelper.FromUri | services/utils/uri_helper.cpp:115-118 | the helper made from a URI |
| UriHelperModel.UriHelper.FromDescriptor | services/utils/uri_helper.cpp:120-124 | the helper made from a descriptor, corrected |
| UriHelperModel.UriHelper.CorrectFdParam | services/utils/uri_helper.cpp:179-202 | offset, size and the printed URI, or nothing changed if the descriptor cannot be inspected |
| UriHelperModel.UriHelper.SetFields | services/utils/uri_helper.cpp:256-272 | the three numbers, and the offset kept when a later part fails |
| UriHelperModel.UriHelper.ParseFdUri | services/utils/uri_helper.cpp:248-281 | the new state and result of every path: no delimiter, one, or both |
| UriHelperModel.UriHelper.FormatMeForUri | services/utils/uri_helper.cpp:134-168 | type, formatted URI and numbers for every kind of head; a formatted helper and an unknown head are left alone |
| MadviseBits.MaskRoundsDown | services/utils/media_madvise_utils.cpp:61 | masking with ~(2^k - 1), bit by bit, rounds down to a multiple of 2^k |
| MadviseBits.RoundDownIsGreatest | services/utils/media_madvise_utils.cpp:61 | no larger multiple fits below |
| MadviseBits.RoundUpIsLeast | services/utils/media_madvise_utils.cpp:67 | adding 2^k - 1 and masking gives the least multiple not below |
| MediaMadvise.AlignedCallRounds | services/utils/media_madvise_utils.cpp:50-84 | for every address, length and page size madvise is reached exactly for segments in the lower half of the address space of allowed length before and after rounding, with the outward-rounded range; no operation wraps on the way |
| MediaMadvise.RangeIsLeast | services/utils/media_madvise_utils.cpp:59-77 | that range is page-aligned, contains the segment and lies inside every page-aligned range that does |
| MediaMadvise.SegmentAddress | services/utils/media_madvise_utils.cpp:159-164 | the address of an advised segment is the true sum exactly if its offset is at most MAX_SAFE_ADDRESS |
| MediaMadvise.WrappedAddressAdvised | services/utils/media_madvise_utils.cpp:159-164 | for any width and page size a header at the top of the address space whose address wraps around and is advised |
| MediaMadvise.HeaderAdvisedIff | services/utils/media_madvise_utils.cpp:149-168 | the madvise of a header succeeds exactly for a readable, not writable load segment of allowed length before and after rounding, inside the lower half of the address space and not at 0, if the guard on the sum and the kernel let it through |
| MediaMadvise.OptimizedIff | services/utils/media_madvise_utils.cpp:43-48 | exactly the readable segments that are not writable are worth an advice, whatever their other flag bits |
| MediaMadvise.WinsIff | services/utils/media_madvise_utils.cpp:149-173 | a library is a success exactly if the madvise of one of its headers succeeded |
| MediaMadvise.BaseNameIff | services/utils/media_madvise_utils.cpp:142-144 | the base name is exactly what follows the last slash, or the whole name |
| MediaMadvise.WalkCounts | services/utils/media_madvise_utils.cpp:135-189 | success plus fail is the number of distinct processed targets; a target is processed exactly if a library of that base name occurs; the successes are the targets whose first library had an advised segment |
| MediaMadvise.CountAdvised | services/utils/media_madvise_utils.cpp:149-168 | the header loop counts the headers whose madvise succeeded |
| MediaMadvise.MultiLibContext.constructor | services/utils/media_madvise_utils.cpp:184-185 | a new context has the distinct names asked for and nothing processed |
| MediaMadvise.MultiLibContext.PhdrCallback | services/utils/media_madvise_utils.cpp:135-175 | one library is skipped, or marked processed and counted once as success or fail |
| MediaMadvise.MadviseMultipleLibraries | services/utils/media_madvise_utils.cpp:177-189 | the result is the number of different names asked for whose first library had a successful madvise, 0 for no names |
| XmlParse.SplitRebuilds | services/utils/xml_parse.cpp:103-121 | with a one-character delimiter no piece holds it, and each piece followed by it gives back exactly the delimiter-terminated input |
| XmlParse.SplitInvertsJoin | services/utils/xml_parse.cpp:103-121 | splitting the join of any non-empty list of delimiter-free pieces gives the pieces back |
| XmlParse.PiecesRebuild | services/utils/xml_parse.cpp:112-119 | for any delimiter the pieces joined and what is left give the text back |
| XmlParse.PiecesFree | services/utils/xml_parse.cpp:112-119 | for any delimiter the pieces and what is left are free of it |
| XmlParse.RebuildsIffNothingLeft | services/utils/xml_parse.cpp:103-121 | for any delimiter the pieces give back the terminated input exactly if nothing is left behind the last delimiter found |
| XmlParse.RebuildsIff | services/utils/xml_parse.cpp:108-119 | for a delimiter no prefix of which is a suffix they do so exactly if the input ends with the whole delimiter or with another last character |
| XmlParse.LongDelimiterLoses | services/utils/xml_parse.cpp:108-110 | an input that ends with just the last part of the delimiter, of which everything is dropped |
| XmlParse.OverlapLoses | services/utils/xml_parse.cpp:112-119 | an input that ends with a delimiter that overlaps itself, of which the end is dropped |
| XmlParse.SpiltKeyList | services/utils/xml_parse.cpp:103-121 | appends the pieces to what the output held; fails only for the empty input |
| XmlParse.CutText | services/utils/xml_parse.cpp:112-119 | the loop ends and has pushed all the pieces |
| XmlParse.CutOne | services/utils/xml_parse.cpp:113-118 | one turn moves on and keeps pushed and remaining pieces together |
| Text.FindFirst | services/utils/xml_parse.cpp:113 | `find` gives the first occurrence at or after the position, or none exists |

## Left out

- EndDisable: the class method writes three flags at once; the runs of the watchdog separate the three writes, as the unlocked code does.
- LineCountExact: `lineCount_` is unbounded here; the int32 overflow after 2^31 entries without a successful swap is not modelled.
- GetMediaInfoContainInstanceNum: the sum is unbounded here, without the uint64 wrap, and the two locked counts are taken at one moment; an entry in flight between them is not modelled in this call.
- ReportMediaInfo, ReportIfDue: the stalling flag and flush and the subtitle counters are not modelled; they touch none of the modelled maps.
- SaveLog: the formatted line is the input; building it and the removal of "{public}" are not modelled.
- RecordedIsPeak: calls one at a time only, because UpdateMaxInsNumberMap reads the live lists without their mutex.
- SecondWorkerBreaksFlag: for clocks below 2^64 - 1, the largest value of the code's clock type; from there on no enqueue is accepted.
- CallsAreLegal: a background callback in the middle of an operation is not modelled.
- AlarmAfterWrap: the counterexample is one run; the exact condition for all runs is in AlarmEndsFullWindow.
- Real time: clocks are inputs; QoS, thread names, spurious wake-ups beyond re-checking a condition, and fairness of the scheduler are not modelled.
- Registry: the playback, stalling and play-error maps, the subtitle counters and the media-kit events are not modelled beyond the locks taken for them; JSON building, HiSysEvent writes, bundle names and tracing are omitted.
- Log: the directory and process number in file names.
- Recorder: codec, container and profile tables, configuration values, event handlers and the marshalling around them.
- URIs: realpath and access of file URIs are one input; AccessCheck, the location of a descriptor, host and protocol extraction, and the closing of descriptors are not modelled.
- Madvise: MediaMadviseSingleLibrary, whose counters add up by the same header loop without the per-target bookkeeping.
- Text: characters are those of a string; encodings are not modelled.
- The JS and CJ bindings, abstract interfaces, permission, XCollie and time-format helpers: glue over libraries not modelled here, or tables.
