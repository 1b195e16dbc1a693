# Verified model of the Flutter Wayland embedder

A Dafny 4.11 model of the concurrent and stateful parts of the embedder, with proofs of what they
guarantee. `dafny verify dfyconfig.toml` checks the whole project.

## What is modelled

| files | part of the program |
|---|---|
| `Tasks`, `TaskQueue`, `PlatformEventLoop` | the platform event loop as an object: a binary heap ordered by `Comparer`, `PostTask`, `ProcessEvents` |
| `Scheduler`, `SchedulerProofs`, `SchedulerTheorems`, `SchedulerRuns` | the same loop as a transition system: any number of threads inside `PostTask`, with the mutex, the atomic order counter and the eventfd as separate steps, against the main thread going round the poll loop of `Run` |
| `TimeEncoding`, `VsyncTime`, `Vsync`, `VsyncHandshake` | time encodings, the vsync target on the refresh grid, the fields that hold the vsync state, and the baton handshake between the engine's thread and the main thread |
| `CText`, `MemoryLevels`, `MemoryWatcher` | reading numbers and lists as the C and C++ libraries do; the low-memory watcher over any history of events; its object with set-up and roll-back |
| `KeyRepeat`, `Keyboard` | key handling, the repeat timer and the lock keys over any history of events; the fields they update |
| `RunLoop` | the nested loops of `Run` and the Wayland read intent |
| `Locale` | the locale parser on a character buffer, and on strings |

Where the source updates state in place, a class holds that state and each method is proved against a
function of the old state or against the property itself. The properties over whole histories are proved
of those functions and of the two transition systems.

The scheduler keeps a history of dates for its theorems; `DatesAreSteps` and `NothingPostedIsLost` prove
that this history is that of the run itself.

`Scheduler` and `PlatformEventLoop` describe the same queue: `ProcessEventsFiresTheBatch` proves that in
every run, whatever other threads do meanwhile, `ProcessEvents` fires exactly what the sequential
`ProcessEvents` fires: the queue found under the lock, sorted and cut.

## What the proofs found

- The wake-up time that `ProcessEvents` returns is stored just before the `break` and reset in the next
  outer iteration, so `Run` always polls with the longest timeout (`PollTimeoutIsAlwaysLongest`). The
  comment at wayland_display.cc:1149 promises otherwise; the model follows the code. The discarded time
  is the right one: whenever the loop is quiet it is the least fire time of the queue
  (`DiscardedTimeIsRight`). So a quiet loop sleeps past a due task exactly when the queue is not empty
  and the discarded time has come (`OversleepsExactlyWhen`), and it goes on sleeping until a post begins
  or a poll times out (`QuietLoopFiresNothing`). `QuietLoopCanOversleep` is such a run.
- Order numbers are taken before the lock, so posts that overlap can fire against them
  (`OverlappingPostsCanInvert`). `OvertakenExactlyWhenPushedLate` gives the exact condition, and
  `FifoForSeparatePosts` the order that does hold.
- A returned wake-up time of 0 does not mean that there are no events, as event_loop.h:38 says:
  `ZeroWithATaskQueued` is a run that returns 0 with a task of fire time 0 queued. It means that exactly
  when no queued task has fire time 0 (`ZeroMeansEmptyExactlyWhen`), and so always if no call posts
  target 0 (`ZeroMeansEmptyWithoutZeroTargets`). A wake-up is outstanding for every such task
  (`ReturnedTimeIsCovered`).
- The vsync target misses the refresh grid exactly when the last frame lies in the future and the period
  does not divide 2^64 (`TargetOnGridExactlyWhen`).
- The watermarks are never sorted; the level counts those that do not exceed the usage, for every usage,
  exactly when they were configured in an order that is ascending as far as positive usages can tell:
  only watermarks of at most 1 may stand before smaller ones (`LevelIsCountExactlyWhenAscending`).
- The message about a missing memory level (wayland_display.cc:817-818) cannot be reached: a non-empty
  setting has at least one token (`JoinOfTokens`).
- A repeat rate above 1000 per second makes the interval zero, and a key then repeats only once however
  long it is held (`FastRateRepeatsOnce`).
- `Run` returns, or waits in the poll, with the read intent held: the paths that return false do not
  cancel it (`WlDisplay.Run`).

## Assumptions about the environment

System calls on the eventfd, the timer and the socket succeed apart from EINTR and EAGAIN where the code
retries them; a read of the eventfd clears its counter; timerfd_settime forgets expiries that were not
read; a datagram write is one byte. Counters of 64 bits do not wrap and the engine's clock does not go
back. Batons are not 0 and the engine has at most one out. atol saturates, as strtol does. Key symbols,
modifiers, the repeat flag of a key, file contents, the outcome of each system call and the engine's
answers are inputs.

## Model

| member | source | states |
|---|---|---|
| Tasks.FiresAfterIsStrictOrder | src/event_loop.h:54-61 | the queue's comparison is a strict weak order, total on distinct order numbers |
| Tasks.SortedOrderIsUnique | src/event_loop.h:54-66 | tasks with distinct order numbers have one firing order |
| Tasks.BatchIsExactlyTheDueTasks | src/event_loop.cc:33-54 | sorting the queue and cutting it at now yields exactly the due tasks, sorted; what is left is strictly later and nothing is lost |
| Tasks.SplitIsBatch | src/event_loop.cc:37-53 | any sorted list of due tasks whose remainder is later is that batch |
| TaskQueues.HeapTop | src/event_loop.h:66 | the root of the heap precedes every element |
| TaskQueues.TaskQueue.Push | src/event_loop.cc:85 | adds one task and keeps the heap |
| TaskQueues.TaskQueue.Top | src/event_loop.cc:38 | returns an element that none precedes |
| TaskQueues.TaskQueue.Pop | src/event_loop.cc:52 | removes the top and nothing else, and keeps the heap |
| PlatformEventLoops.PlatformEventLoop.constructor | src/event_loop.cc:18-22 | an empty loop |
| PlatformEventLoops.PlatformEventLoop.Wake | src/event_loop.cc:95-101 | adds exactly one to the eventfd, however often the write is refused |
| PlatformEventLoops.PlatformEventLoop.PostTask | src/event_loop.cc:75-93 | queues one task under the next order number, under the mutex, wakes once without it, and keeps every posted task in exactly one place |
| PlatformEventLoops.PlatformEventLoop.OnTaskExpired | src/event_loop.cc:56-62 | the callback is handed the handle it is called with, without the mutex; its posts are queued and numbered in order and leave the batch alone |
| PlatformEventLoops.PlatformEventLoop.TakeExpired | src/event_loop.cc:37-53 | under the mutex the heap loop takes exactly the batch and leaves exactly the rest |
| PlatformEventLoops.PlatformEventLoop.Drain | src/event_loop.cc:33-54 | so does the drain under the mutex, which it releases |
| PlatformEventLoops.PlatformEventLoop.FireNext | src/event_loop.cc:59-61 | one drained task moves to the fired ones, and the callback is handed its own handle and nothing else |
| PlatformEventLoops.PlatformEventLoop.FireAll | src/event_loop.cc:56-62 | fires the drained tasks in order and nothing posted meanwhile; the callback is handed exactly their handles, in that order |
| PlatformEventLoops.PlatformEventLoop.NextWake | src/event_loop.cc:64-72 | the least pending fire time, or 0 |
| PlatformEventLoops.PlatformEventLoop.ProcessEvents | src/event_loop.cc:30-73 | hands the callback exactly the handles of the batch of its drain, in order; queues exactly the posts made meanwhile; returns the least fire time then pending |
| PlatformEventLoops.BatchIsClosed | src/event_loop.cc:33-62 | nothing posted during a batch joins it, and it is no longer than the queue was |
| PlatformEventLoops.SleptUntilWakeFires | src/wayland_display.cc:1026-1034 | sleeping the computed time and draining again fires every pending task due at the returned time, and there is one |
| PlatformEventLoops.NothingDueBeforeWake | src/event_loop.cc:64-72 | a drain finds something exactly from the wake-up time on |
| SchedulerProofs.InvStep | src/event_loop.cc:30-101 | every atomic step of every thread keeps all the invariants of the scheduler |
| SchedulerProofs.ReachableInv | src/wayland_display.cc:1076-1155 | they hold in every reachable state, for any number of posting threads |
| SchedulerTheorems.NoLostWakeup | src/event_loop.cc:75-101 | when the loop sleeps with no wake-up pending and no call in progress, every queued task was in the future at the last drain |
| SchedulerTheorems.EventfdReadNeverBlocks | src/wayland_display.cc:1142-1148 | the eventfd is readable when the main thread reads it |
| SchedulerTheorems.FiredOnce | src/event_loop.cc:33-62 | pushed tasks are queued, taken or fired, in one place each; none fires twice or early |
| SchedulerTheorems.OvertakenExactlyWhenPushedLate | src/event_loop.cc:79-86 | of two taken tasks the first in order is overtaken exactly when it was pushed after the other was taken |
| SchedulerTheorems.FifoForSeparatePosts | src/event_loop.cc:75-93 | a post that returned before another began, and is due no later, fires first |
| SchedulerTheorems.OverlappingPostsCanInvert | src/event_loop.cc:79-85 | a run in which two overlapping posts fire against their order numbers |
| SchedulerTheorems.MutualExclusion | src/event_loop.cc:84-91 | no two threads are inside a critical section |
| SchedulerTheorems.CallbackRunsUnlocked | src/event_loop.cc:56-62 | a callback runs without the mutex unless it is itself inside PostTask |
| SchedulerTheorems.HolderProceeds | src/event_loop.cc:84-91 | the holder of the mutex always has a next step |
| SchedulerTheorems.PosterProceeds | src/event_loop.cc:75-101 | a thread inside PostTask has a next step of its own unless it waits for the mutex |
| SchedulerTheorems.MainProceeds | src/wayland_display.cc:1076-1155 | so has the main thread, everywhere in its loop: with HolderProceeds, nobody is ever stuck |
| SchedulerTheorems.ReturnedTimeIsCovered | src/event_loop.cc:64-72 | when ProcessEvents has returned, a wake-up is outstanding for every queued task that is due before the returned time, has fire time 0, or has been queued since; after a 0 with a non-empty queue there is one |
| SchedulerTheorems.ZeroMeansEmptyExactlyWhen | src/event_loop.h:38 | a returned 0 means an empty queue exactly when no queued task has fire time 0 |
| SchedulerTheorems.ZeroMeansEmptyWithoutZeroTargets | src/event_loop.cc:64-72 | over any run in which no call posts target 0, a returned 0 means exactly an empty queue |
| SchedulerTheorems.ZeroWithATaskQueued | src/event_loop.cc:64-72 | a run in which 0 is returned with a task queued |
| SchedulerTheorems.PollTimeoutIsAlwaysLongest | src/wayland_display.cc:1059-1064 | every poll of Run is given the longest timeout |
| SchedulerTheorems.DiscardedTimeIsRight | src/wayland_display.cc:1149-1154 | in a quiet loop the time that was discarded is the least fire time of the queue |
| SchedulerTheorems.OversleepsExactlyWhen | src/wayland_display.cc:1059-1064 | a quiet loop sleeps past a due task exactly when the queue is not empty and the discarded time has come |
| SchedulerTheorems.QuietLoopFiresNothing | src/wayland_display.cc:1076-1155 | from there nothing is taken or fired until a post begins or a poll times out, whatever else wakes the loop |
| SchedulerTheorems.QuietLoopCanOversleep | src/wayland_display.cc:1149-1154 | a run that ends in a quiet loop with an overdue task |
| SchedulerTheorems.BatchIsFixed | src/event_loop.cc:56-62 | over any run up to the next drain, the batch stays what it was |
| SchedulerTheorems.BatchFiresInOrder | src/event_loop.cc:33-62 | a batch fires in order, is bounded by the queue at its drain, and leaves no due task without a wake-up |
| SchedulerTheorems.DrainTakesTheBatch | src/event_loop.cc:33-54 | under any interleaving a drain takes the queue it found, sorted and cut at the time it read |
| SchedulerTheorems.ProcessEventsFiresTheBatch | src/event_loop.cc:30-73 | in every run from a drain to the next, what has fired and what is about to are the queue it found, sorted and cut; once the callbacks are over all of it has fired |
| SchedulerTheorems.EveryPassFiresWhatIsDue | src/wayland_display.cc:1076-1155 | in every run from the poll through ProcessEvents, what was queued and due at the poll has fired, whatever other threads do and however many vsync rounds come between |
| SchedulerTheorems.WakeFiresEverythingDue | src/wayland_display.cc:1142-1152 | from a poll with a wake-up waiting there is such a pass, by the main thread's own steps |
| SchedulerTheorems.ProcessEventsTerminates | src/event_loop.cc:30-73 | ProcessEvents takes a number of steps bounded by the queue it found, whatever is posted meanwhile |
| SchedulerTheorems.RoundEnds | src/wayland_display.cc:1076-1158 | a round of the poll loop ends, in the next poll or in ProcessEvents, by at most two steps of the main thread, and no other thread sets it back |
| SchedulerRuns.DatesAreSteps | src/event_loop.cc:75-101 | each date in the history is the step of the run it stands for, by the thread of the call; a numbered task has the target and the handle of its call |
| SchedulerRuns.NothingPostedIsLost | src/event_loop.cc:75-93 | in every run the task of each call, as it was posted, is being posted, queued, taken or fired |
| SchedulerRuns.FiredWasPosted | src/event_loop.cc:37-62 | what is fired was posted by a call of the run, with that target and that handle |
| SchedulerRuns.FiredIsHandedOver | src/event_loop.cc:59-61 | the fired tasks grow by one with each entry of the callback, by the task it is given, and by no other step |
| SchedulerRuns.CallbackGetsTheTask | src/event_loop.cc:59-61 | the callback is given the task that was fired last |
| SchedulerRuns.EventfdCountsWrites | src/wayland_display.cc:1143-1148 | the eventfd counts the writes since its last read: one read takes them all |
| TimeEncoding.NsecRoundTrip | src/utils.h:49-52 | timespec_from_nsec loses nothing; its result is normal exactly for non-negative counts and whole seconds |
| TimeEncoding.NormalIsRecovered | src/utils.h:49-52 | it inverts the combination of seconds and nanoseconds |
| TimeEncoding.MsecZero | src/utils.h:54-56 | a timer value built from milliseconds is zero exactly for zero milliseconds |
| TimeEncoding.FrameTimeIsStrictlyMonotone | src/wayland_display.cc:352 | frame times are ordered as the words of the presentation stamp |
| TimeEncoding.StampIsRecovered | src/wayland_display.cc:352 | the stamp can be recovered from the frame time |
| TimeEncoding.FrameTimeWraps | src/wayland_display.cc:352 | beyond 64 bits only whole multiples of 2^64 are lost |
| TimeEncoding.PeriodOfRefresh | src/wayland_display.cc:321 | the period of a positive rate is the whole number of nanoseconds of one refresh |
| TimeEncoding.PeriodIsPositive | src/wayland_display.cc:954 | the modulus of the vsync computation is not zero, for every rate but zero |
| TimeEncoding.SleepReachesWake | src/wayland_display.cc:1026-1034 | the sleep ends at the wake-up time exactly when that is less than 2^63 ns away |
| TimeEncoding.NoWakeSleepsLongest | src/wayland_display.cc:1027-1028 | without a wake-up time the sleep is the longest that fits |
| VsyncTime.TargetIsNextGridPoint | src/wayland_display.cc:953-957 | the target is the least grid point after now, within one period, and the finish the next one |
| VsyncTime.TargetOnGridExactlyWhen | src/wayland_display.cc:954 | it is on the grid exactly when the last frame is not in the future or the period divides 2^64 |
| VsyncTime.TargetDependsOnGridOnly | src/wayland_display.cc:954-956 | shifting the last frame by whole periods changes nothing |
| VsyncTime.TargetsAdvance | src/wayland_display.cc:953-957 | targets never go back, and a frame requested after the previous target gets a later one |
| Vsync.FrameSync.constructor | src/wayland_display.h:123-130 | the initial state |
| Vsync.FrameSync.OutputMode | src/wayland_display.cc:317-321 | the stored period is that of the refresh rate, and never zero |
| Vsync.FrameSync.Presented | src/wayland_display.cc:348-372 | the last frame is the time of the stamp, modulo 2^64 |
| Vsync.FrameSync.FrameDone | src/wayland_display.cc:979-990 | without a presentation clock the last frame is now |
| Vsync.FrameSync.VsyncCallback | src/wayland_display.cc:620-638 | stores the baton and sends one byte, or ends the process over a second baton |
| Vsync.FrameSync.VSyncHandler | src/wayland_display.cc:948-974 | returns the waiting baton once with the least grid point after now; 0 exactly if none waits |
| VsyncHandshake.HandshakeIsSafe | src/wayland_display.cc:628-637 | in every interleaving at most one byte is in the socket, a byte read finds a baton, and neither exit is reached |
| VsyncHandshake.BatonsReturnInOrder | src/wayland_display.cc:958-966 | batons are returned once each in the order issued, and at most one is out |
| VsyncHandshake.EngineGetsItsBatons | src/wayland_display.cc:620-638 | in every run the engine gets back, call by call, the batons its requests handed in, all but at most the last |
| VsyncHandshake.LeavesExactlyWhenRejected | src/wayland_display.cc:966-974 | the main thread leaves the poll loop exactly when a call of the engine has been rejected |
| VsyncHandshake.ReadyForTheNext | src/wayland_display.cc:620-638 | otherwise, once a baton is back, both threads are where they began and the next one can be handed in |
| VsyncHandshake.OutstandingIsReturned | src/wayland_display.cc:620-638 | in every interleaving a baton that is out is back after a number of steps its state determines, at most eight |
| VsyncHandshake.EveryStepProceeds | src/wayland_display.cc:1099-1122 | every step that can be taken while it is out brings it one step closer |
| VsyncHandshake.OutstandingProceeds | src/wayland_display.cc:1099-1122 | and there always is such a step |
| VsyncHandshake.ExitUnreachableExactlyWhenExchangeFirst | src/wayland_display.cc:958-966 | the exit is unreachable exactly when the exchange precedes the call of the engine |
| VsyncHandshake.NotifyFirstCanExit | src/wayland_display.cc:628-631 | with the other order, a run that reaches the exit |
| CText.AtolOfRendering | src/wayland_display.cc:761 | a rendered number is read back, exactly if it is a long and as the nearest long otherwise, whatever space precedes and whatever but a digit follows |
| CText.AtolIsTheNumber | src/wayland_display.cc:810 | atol of any string is the number its digits denote, with the sign before them, or the nearest long; 0 where no digits follow the white space and the sign |
| CText.EveryStringIsRead | src/wayland_display.cc:810 | every string reads as white space, an optional sign, digits and a rest, so that this covers all |
| CText.NamesNumberExactly | src/wayland_display.cc:810-812 | atol yields 0 exactly where no digit but 0 stands among those digits |
| CText.ZerosNameNoNumber | src/wayland_display.cc:812-814 | text without such a digit names no number, however it is read |
| CText.AtolStopsAtNul | src/wayland_display.cc:754-761 | nothing after the terminating NUL is read |
| CText.TokensOfJoin | src/wayland_display.cc:807-809 | a joined list is split into itself |
| CText.JoinOfTokens | src/wayland_display.cc:807-818 | splitting loses only a separator at the end, and a non-empty string has a token |
| MemoryLevels.LevelIsLongestPrefix | src/wayland_display.cc:763-769 | the level is the length of the longest prefix of watermarks not above the usage |
| MemoryLevels.LevelIsMonotone | src/wayland_display.cc:763-769 | more usage never gives a lower level, for any list |
| MemoryLevels.LevelIsCountExactlyWhenAscending | src/wayland_display.cc:763-769 | the level counts the watermarks not above the usage, for every positive usage, exactly when they ascend as far as such usages can tell |
| MemoryLevels.LevelStaysInRange | src/wayland_display.cc:771-780 | the recorded level stays within the number of watermarks over any history |
| MemoryLevels.EventIsAnswered | src/wayland_display.cc:734-782 | the outcome and the new fields of every event: outside the cooldown a positive reading records its level unless the engine refuses the warning, and warns exactly if the level has risen |
| MemoryLevels.AnswerIsUnique | src/wayland_display.cc:734-782 | that answer leaves no choice: the level is the one number of leading watermarks not above the reading |
| MemoryLevels.OnlyRecordsChange | src/wayland_display.cc:740-780 | what each outcome changes, and exactly when an event warns; a rejected warning changes nothing |
| MemoryLevels.WarningsAreEdgeTriggered | src/wayland_display.cc:771-780 | between two warnings of which the second is no higher, some reading lay below a watermark that the readings of both had reached |
| MemoryLevels.WarningsAreApart | src/wayland_display.cc:736-742 | successive warnings are at least 20 s apart |
| MemoryLevels.WarningRateIsBounded | src/wayland_display.cc:736-778 | a stretch of time T holds at most 1 + T / 20 s warnings |
| MemoryWatchers.WatermarksRoundTrip | src/wayland_display.cc:807-816 | a list of non-zero longs, rendered and joined, is read back exactly |
| MemoryWatchers.ConfiguredLevelsAreWatched | src/wayland_display.cc:763-811 | the levels computed are those of the configured list |
| MemoryWatchers.WatermarksOfNumbers | src/wayland_display.cc:809-816 | the watermarks are the numbers of the tokens up to the first that names none, and all tokens exactly if each names one |
| MemoryWatchers.GetLine | src/wayland_display.cc:809 | yields the tokens of the list one by one |
| MemoryWatchers.MemoryWatcher.constructor | src/wayland_display.h:89-95 | the initial state |
| MemoryWatchers.ReadsWithoutErrors | src/wayland_display.cc:749-758 | without errors the reading depends neither on how the file is cut into reads nor on interruptions |
| MemoryWatchers.UsageUnreadExactlyWhen | src/wayland_display.cc:749-761 | the usage goes unread exactly when a read fails before the end of the file, or of the 31 bytes the buffer holds, was reached; otherwise it is the number in those bytes |
| MemoryWatchers.UsageIsRead | src/wayland_display.cc:744-761 | any usage written as digits and a newline fits the buffer and is read as that number |
| MemoryWatchers.MemoryWatcher.ReadUsage | src/wayland_display.cc:744-761 | the loop puts at most 31 bytes into the buffer and yields their number, or nothing exactly if an error comes first |
| MemoryWatchers.MemoryWatcher.ComputeLevel | src/wayland_display.cc:763-769 | the loop computes the level |
| MemoryWatchers.MemoryWatcher.HandleMemoryWatcherEvent | src/wayland_display.cc:734-782 | the fields and the outcome are the answer to the event with the number in the file: the level recorded is that of the reading |
| MemoryWatchers.MemoryWatcher.CleanupMemoryWatcher | src/wayland_display.cc:784-793 | closes exactly the watcher's open descriptors |
| MemoryWatchers.MemoryWatcher.ParseWatermarks | src/wayland_display.cc:807-816 | reads the watermarks up to the first token that names no number but 0, and succeeds exactly if there is no such token |
| MemoryWatchers.MemoryWatcher.RegisterLevels | src/wayland_display.cc:852-861 | registers a line with both descriptors and the watermark for each watermark, in order, until the kernel refuses one |
| MemoryWatchers.MemoryWatcher.AcquireDescriptors | src/wayland_display.cc:820-863 | keeps both descriptors exactly if every step succeeds, and otherwise leaves none open; the control descriptor is always closed |
| MemoryWatchers.MemoryWatcher.SetupMemoryWatcher | src/wayland_display.cc:795-867 | starts exactly when it is configured, every token names a number and every step succeeds; the lines registered bear the watermarks in order; otherwise the open descriptors are those from before |
| KeyRepeat.LiveTimerFollowsPress | src/wayland_display.cc:230-250 | an armed or expired timer belongs to the last key event, a press accepted for repetition |
| KeyRepeat.TickRepeatsLastPress | src/wayland_display.cc:1085-1097 | a tick sends a repeated keydown for that key exactly if there are a keymap and a symbol, and nothing otherwise; the timer read does not block |
| KeyRepeat.NoTickAfterRelease | src/wayland_display.cc:242-245 | after a release no tick and no expiry comes before the next key event |
| KeyRepeat.HeldKeyRepeats | src/wayland_display.cc:230-250 | after any history, an accepted press is repeated by a keydown once the timer has run out |
| KeyRepeat.AlwaysSound | src/wayland_display.cc:259-269 | the delay stays positive over any history |
| KeyRepeat.SettingsAreTheLastAnnounced | src/wayland_display.cc:216-269 | after any history delay, interval and keymap format are the last ones announced, 400 ms and 25 per second before the first |
| KeyRepeat.FastRateRepeatsOnce | src/wayland_display.cc:237-245 | over any history, once a held key has been repeated no expiry and no tick comes before the next key event exactly when the rate at its press exceeded 1000 |
| KeyRepeat.HeldKeyRunsAtAnnouncedPace | src/wayland_display.cc:237-245 | while a key is held the timer stays set to the delay and the interval last announced before its press |
| KeyRepeat.HandleKeyHandles | src/wayland_display.cc:391-475 | with a keymap and a symbol one message is sent, a keydown exactly for a press, with the scan code, the symbol and the modifiers of the key; the lock keys are tracked; otherwise nothing happens |
| KeyRepeat.HandledIsUnique | src/wayland_display.cc:391-475 | and there is no other way to handle the key |
| KeyRepeat.OneMessageEach | src/wayland_display.cc:391-475 | over any history the engine gets one message for each key event and each tick with a keymap and a symbol, releases included, in their order and with their contents, and no other |
| KeyRepeat.LockKeysAreTracked | src/wayland_display.cc:408-432 | each message bears a lock modifier exactly if that lock key was last seen going down |
| Keyboards.KeyboardFields.constructor | src/wayland_display.h:114-120 | the initial state |
| Keyboards.KeyboardFields.KeyHandler | src/wayland_display.cc:391-475 | the fields are those of the key function; with a keymap and a symbol exactly one message is added, a keyup for a release, with the lock modifiers of the fields, and otherwise none |
| Keyboards.KeyboardFields.Key | src/wayland_display.cc:230-250 | the fields and the timer are those of the key event function, and the key's message is added |
| Keyboards.KeyboardFields.RepeatInfo | src/wayland_display.cc:259-269 | only positive values are taken, and the delay stays positive |
| Keyboards.KeyboardFields.Tick | src/wayland_display.cc:1085-1097 | clears the expiry, and adds a repeat message for the last key |
| RunLoop.WlDisplay.Prepare | src/wayland_display.cc:1053 | acquires the intent if the queue is empty; forbidden while one is held |
| RunLoop.WlDisplay.Read | src/wayland_display.cc:1125 | gives the intent back; forbidden without one |
| RunLoop.WlDisplay.Cancel | src/wayland_display.cc:1127 | gives the intent back; forbidden without one |
| RunLoop.WlDisplay.AcquireIntent | src/wayland_display.cc:1053-1055 | ends with the intent held, however often it is turned away |
| RunLoop.WlDisplay.VsyncRound | src/wayland_display.cc:1099-1122 | a vsync round continues or fails and touches neither the intent nor the event loop |
| RunLoop.WlDisplay.FinishRound | src/wayland_display.cc:1124-1152 | gives the intent back once, then serves the watcher and the event loop |
| RunLoop.WlDisplay.PollRound | src/wayland_display.cc:1076-1155 | a round keeps the intent unless it completes the iteration |
| RunLoop.WlDisplay.PollUntilDone | src/wayland_display.cc:1061-1155 | so do any number of vsync rounds |
| RunLoop.WlDisplay.Run | src/wayland_display.cc:1036-1161 | every call meets the demands on the intent; with a valid display Run returns, or waits in the poll, with it held |
| RunLoop.ReadIntentDiscipline | src/wayland_display.cc:1053-1157 | at every moment no prepare_read was made while an intent was held, and all but at most one are given back |
| RunLoop.EveryActionHasItsPoll | src/wayland_display.cc:1052-1158 | every action stands in the order of the loop, and is one that the last poll before it calls for |
| RunLoop.EventfdReadThenDrain | src/wayland_display.cc:1142-1152 | a read of the eventfd is followed at once by ProcessEvents; ProcessEvents without one comes of a timeout |
| RunLoop.RunFailsExactlyWhen | src/wayland_display.cc:1080-1119 | Run returns false exactly if it gets to a poll that fails, or whose timer read, vsync read or vsync handler does |
| RunLoop.WhatRunDoes | src/wayland_display.cc:1052-1158 | each action of a round is performed exactly once for each round whose poll calls for it; the intent is acquired, and the socket flushed, once per iteration, and given back once per completed one |
| Locale.PrintOfParse | src/utils.cc:146-172 | printing the parsed parts gives back the string, for every string |
| Locale.ParseOfPrint | src/utils.cc:146-172 | parsing printed parts returns them exactly when no separator stands where the search from the right finds it first |
| Locale.StrDup | src/utils.cc:151 | a fresh terminated copy |
| Locale.StrRChr | src/utils.cc:153-167 | the last occurrence before the terminating NUL |
| Locale.CutLast | src/utils.cc:153-157 | cuts the string at the last separator and copies what followed it, in place |
| Locale.FlutterParseLocale | src/utils.cc:146-172 | the fields hold the parts of the name; absent parts leave their fields alone |
| Locale.ParseFresh | src/wayland_display.cc:697-699 | a fresh structure filled from a NUL-free name prints as that name |

## Left out

- EGL set-up, loading of AOT code, registry binding, window resizing and pointer events: foreign calls and plumbing.
- Deadline liveness of Run: the computed wake-up time is discarded, as the findings above say.
- The moment between the lock of a drain and its reading of the clock: one step, since no other thread can change the queue in between.
- The end of Run through the vsync handler's failure in the scheduler: a run of the transition system may stop at any step instead.
- A refresh rate of 0, by which the code divides; for a negative one only that the period is not zero.
- Keysym lookup, xkb state and the modifier conversion: inputs of the key handler; modifiers are a set rather than a bit mask.
- Ownership of the strings of a locale structure: the destructor that frees them, and the loss of a previous value that is overwritten.
- Failures of FlutterSendMessage, timerfd_settime and the eventfd writes, which the code only logs or retries.
- The range of the key repeat values beyond 32 bits: the milliseconds are assumed to fit the product they are multiplied into, which they do.
- Logging, environment variables, path helpers, usage text and the JSON text of a key message: easy members only.
- WakeFiresEverythingDue: fairness between the threads is not modelled; it shows that the pass exists, and EveryPassFiresWhatIsDue what every pass does.
