# BOINC client and runtime: verified models

This project models seven parts of BOINC whose behaviour is spread over many calls and, in some cases,
over several threads, and proves what holds over all inputs and all runs.

| file | part of BOINC |
|---|---|
| `CoprocSched.dfy`, `CoprocPlacement.dfy` | assignment of GPU instances to a priority-ordered job list |
| `ProcessControl.dfy`, `ProcessMessages.dfy` | the suspend/resume/quit/abort protocol between the client, the timer thread and the worker thread of an application |
| `ProcessSleep.dfy` | when a worker that sleeps in its signal handler never wakes up |
| `CheckpointTimer.dfy` | the count-down to the next checkpoint, shared by those two threads without a lock |
| `ClientGraph.dfy`, `ClientTables.dfy`, `ClientState.dfy` | the client's object graph, its reference-counting collector, project reset and detach |
| `Blocks.dfy`, `ReducedGrid.dfy`, `FinalCells.dfy`, `ReducedArray.dfy` | the streaming reducer of two-dimensional data for graphics |
| `UpperCase.dfy` | checkpoint and restart of the example application |
| `GraphicsData.dfy` | the double buffer between the science and the graphics thread |
| `Slots.dfy` | slot directories of active tasks |

`Sequences.dfy` holds what is shared about filtering and erasing in place; `Wrappers.dfy` an option type.

Each module has two levels. Values (datatypes and functions) say what an operation or a step does, and the
theorems are lemmas about them. Classes and methods follow the C++ code statement by statement, on
mutable fields, arrays and vectors, and each method's contract ties its whole effect to the value level.
The threads of the protocols are state machines: one step is at most one access to a variable that
another thread uses without the mutex, and the theorems hold for every sequence of steps.

What decides an operation is also told once more on plain data, without the definitions that the code shares
with its specification: where a GPU job goes by the two tables (`CoprocPlacement`), what leaves which table of
the client by the fields of the objects (`ClientTables`), what becomes of each message (`ProcessMessages`),
when the display moves on by the calls made so far (`GraphicsData.MovesOnIff`), and what a completed run of
the example application has written, character by character (`UpperCase.CompletedIsUpper`).

`dafny verify dfyconfig.toml` checks everything. Usages, times and data are `real`: rounding is not
modelled.

## What the proofs brought up

* **A suspended worker can sleep for good.** The loop of its signal handler (`api/boinc_api.cpp:1413-1420`)
  waits for the suspended flag only, and no other signal is delivered meanwhile. There are three ways not to
  wake up before the process is killed.
  * It sleeps over the mutex. `boinc_end_critical_section()` sets the suspended flag while it holds the mutex
    (`api/boinc_api.cpp:1585-1593`). If the signal arrives before the release, the timer thread, which needs
    the mutex to clear the flag, never gets it. `SomeRunSticks` gives the run, `StuckStays` shows that it
    stays so, and `SticksIff` says for every run when it comes to this.
  * The timer thread ends. On a quit, an abort or a dead client it sets the exit flag and ends
    (`api/boinc_api.cpp:883-910`), but a worker that is asleep does not look at that flag again.
    `SomeQuitDooms` is the ordinary case of a suspended task that is removed from memory, `SomeDeadClientDooms`
    the one where nobody is left to kill the process; `DoomedStays` and `DoomsIff` as above, and
    `EndsAsleepIff` for both ways together. `ExitComesIff`: once the timer thread has ended, the process can
    end by itself if and only if its worker was awake.
  * The quit was deferred, and the signal stops the worker after the critical section but before it looks for
    the request (`SomeQuitIsSleptThrough`). The timer thread goes on, but the client will send no resume.

  `AsleepForGoodIff` is the exact condition over all runs and all their continuations. Holding back the signal
  while the worker owns the mutex removes the first way only (`MaskedNeverSticks`; the runs for the others
  hold it back).
* **A raised checkpoint period can be lost.** `boinc_set_min_checkpoint_period()` compares and writes the
  count while the timer thread may be between reading and writing it (`api/boinc_api.cpp:617-623`,
  `1301-1306`). `SomeRaiseIsUndone` and `SomeCompareIsUndone` give the two ways, each with a yes after one
  second; `RaiseCountsIff` says, for every run up to a call, when all continuations wait as long as asked
  for. The spacing after a completed checkpoint does not suffer from that race.
* **Fractional GPU placement may preempt without need.** When no instance has room, the comment at
  `client/coproc_sched.cpp:182` promises an unreserved instance. The code takes the first one without usage,
  reserved by a running job or not. `SomeStealIsNeedless` is a case with an unreserved instance free beside
  it, `SomeEvictionIsNeedless` a run in which a running job is evicted that way, and `NeedlessStealIff` says
  when it happens. For whole instances the promise at the head of the file
  (lines 66-75) is kept: reserved ones are taken only when the others do not suffice (`IntegerStealsIff`,
  `IntegerPlacementExact`).
* **A pruned running job keeps its reservation.** Its pending usage is not taken back
  (`client/coproc_sched.cpp:325-331`), so a new fractional job may be pruned although it would fit beside the
  jobs that were kept. `SomePrunedJobFits` is such a run; `PrunedFitsIff` says that nothing else is ever pruned
  without need.
* **The reducer's extremes include 0.** Row cells for MIN and MAX start from 0, so that a cell is the
  extreme of its block if and only if some entry is on the right side of 0 (`ExtremeIff`; `SomeMaximumIsMissed`,
  `SomeMinimumIsMissed`). `rdata_max` starts from 0 and `rdata_min` from 1e20, with the same effect
  (`EnvelopeIff`, `SomeTopIsMissed`). Rows are always averaged vertically, whatever the method: a finished
  cell is the extreme of the reduced rows above it if and only if they agree (`FinalCellIff`), and of all
  source entries in it if and only if, besides, some entry is on the right side of 0 (`FinalExtremeIff`;
  `SomeMaximumIsAveraged`). The loop in `init_data()` that halves the dimensions never runs (`CapsFit`).
* **A reset on an anonymous platform keeps versions**, exactly the latest of each group with their files
  (`ResetKeepsVersions`, `AnonymousReset`).

## Model

| member | source | states |
|---|---|---|
| CoprocSched.IntegerSucceedsIff | client/coproc_sched.cpp:215-236 | Placement of whole instances succeeds if and only if at least `usage` usable instances have no usage; the late failure exit is never taken. |
| CoprocSched.IntegerPlacementExact | client/coproc_sched.cpp:238-274 | It takes exactly `usage` distinct usable instances without usage, of which max(0, usage - unreserved ones) are reserved by running jobs. |
| CoprocSched.CandidatesDistinct | client/coproc_sched.cpp:240-274 | The two passes never take an instance twice. |
| CoprocSched.PlaceIsValid | client/coproc_sched.cpp:158-282 | Whatever a job is given is usable, in range, distinct, of the right number, and either had no usage or had room. |
| CoprocSched.SchedIsValid | client/coproc_sched.cpp:310-347 | At every loop head all kept GPU jobs hold valid placements, and only GPU jobs were pruned. |
| CoprocSched.StepIsValid | client/coproc_sched.cpp:310-347 | One iteration keeps that. |
| CoprocSched.ExactLedger | client/coproc_sched.cpp:284-347 | At every loop head each instance's usage is the sum of the shares of the jobs kept so far and at most 1, and its pending usage is the sum over the running jobs that are not confirmed. |
| CoprocSched.PendingIsNonNegative | client/coproc_sched.cpp:141-156 | Confirming never drives pending usage below what the remaining running jobs hold. |
| CoprocSched.OutputSplitsInput | client/coproc_sched.cpp:310-347 | Kept and pruned jobs split the input in priority order, CPU jobs are all kept, and a kept job changes at most in its instances. |
| CoprocSched.PrunedCannotFit | client/coproc_sched.cpp:122-282 | A job is pruned if and only if it does not fit: too few free instances, or no instance with room, or a recorded instance over capacity. |
| CoprocSched.CannotFitGrows | client/coproc_sched.cpp:310-347 | A job that does not fit does not fit either when usage, and usage plus pending usage, have grown. |
| CoprocSched.StepGrows | client/coproc_sched.cpp:141-156 | No step lowers an instance's usage, nor its usage plus pending usage. |
| CoprocSched.Maximality | client/coproc_sched.cpp:310-347 | Every pruned job still does not fit in the tables, with what pruned running jobs have reserved, at any later point and at the end. |
| CoprocSched.PrunedFitsIff | client/coproc_sched.cpp:325-346 | A pruned job would fit beside the kept ones alone if and only if it is a new fractional job and, on some usable instance, reservations of pruned running jobs are all that is in its way. |
| CoprocSched.SomePrunedJobFits | client/coproc_sched.cpp:325-331 | A run that prunes a running job and, for its reservation, a job of 0.4 beside a kept one of 0.5. |
| CoprocSched.NoStealNoOverload | client/coproc_sched.cpp:158-274 | Usage plus pending usage of an instance stays at most 1 as long as no new job takes it through a second pass while it is reserved. |
| CoprocSched.EvictionNeedsSteal | client/coproc_sched.cpp:325-331 | With initial pending usage at most 1, a running job is pruned only if an earlier new job took one of its instances that way. |
| CoprocSched.IntegerStealsIff | client/coproc_sched.cpp:238-274 | A job for whole instances takes a reserved one if and only if enough are free and too few of them are unreserved. |
| CoprocSched.FractionalStealsIff | client/coproc_sched.cpp:184-199 | A fractional job takes a reserved instance if and only if no instance has room and the first free one is reserved. |
| CoprocSched.NeedlessStealIff | client/coproc_sched.cpp:182-199 | It does so although an unreserved instance is free if and only if no instance has room and the first free one is reserved while a later one is idle. |
| CoprocSched.SomeStealIsNeedless | client/coproc_sched.cpp:182-199 | Such a case: two instances, the first reserved, the second idle, and half an instance is taken from the first. |
| CoprocSched.SomeEvictionIsNeedless | client/coproc_sched.cpp:182-199 | A run in which that evicts the running job, and the second instance stays unused. |
| CoprocSched.StartedLoad | client/coproc_sched.cpp:289-308 | The pending usage of a second allocation is the usage that the first one ended with. |
| CoprocSched.Stability | client/coproc_sched.cpp:284-347 | Allocating again with every kept job running keeps the same list and the same instances. |
| CoprocSched.Coproc.ClearUsage | lib/coproc.h:225-230 | Both tables are zero. |
| CoprocSched.IncrementPendingUsage | client/coproc_sched.cpp:96-117 | The job's share is added to the pending usage of exactly the instances it holds. |
| CoprocSched.CurrentAssignmentOk | client/coproc_sched.cpp:122-139 | True if and only if every instance the job holds has room for its share. |
| CoprocSched.ConfirmCurrentAssignment | client/coproc_sched.cpp:141-156 | The share moves from pending usage to usage on exactly the instances held. |
| CoprocSched.GetFractionalAssignment | client/coproc_sched.cpp:158-208 | The in-place search places the job where the specification says and charges it, or changes nothing. |
| CoprocSched.CountFree | client/coproc_sched.cpp:215-226 | The number of usable instances without usage. |
| CoprocSched.AssignIdle | client/coproc_sched.cpp:238-255 | The first pass takes the unreserved free instances in order, and is done exactly when that is enough. |
| CoprocSched.AssignReserved | client/coproc_sched.cpp:257-274 | The second pass completes the placement with reserved instances. |
| CoprocSched.GetIntegerAssignment | client/coproc_sched.cpp:210-282 | The in-place passes give the specified placement and charge it, or change nothing. |
| CoprocSched.AssignOne | client/coproc_sched.cpp:324-346 | One GPU job is confirmed, placed or refused as specified. |
| CoprocSched.FillPendingUsage | client/coproc_sched.cpp:289-308 | The tables become the initial ledgers of the job list. |
| CoprocSched.HandleCurrent | client/coproc_sched.cpp:313-346 | The job at the iterator is handled as specified, and no other job changes. |
| CoprocSched.Advance | client/coproc_sched.cpp:310-347 | One iteration keeps or erases the job, and the vector is again handled jobs followed by the untouched rest. |
| CoprocSched.AssignCoprocs | client/coproc_sched.cpp:284-347 | The erasing loop leaves exactly the list, instances and tables that the specification's run gives. |
| CoprocPlacement.ChargeIsUsage | client/coproc_sched.cpp:96-117 | A job holds as few instances as can hold its usage; the shares charged to them are equal, at most one instance each, and add up to the usage. |
| CoprocPlacement.FractionalJoins | client/coproc_sched.cpp:163-180 | A new fractional job goes to the lowest usable instance that has usage or pending usage and room for it beside both. |
| CoprocPlacement.FractionalOpens | client/coproc_sched.cpp:184-199 | If there is none, it goes to the lowest usable instance without usage. |
| CoprocPlacement.NoIdleIsOpened | client/coproc_sched.cpp:158-199 | It never opens an idle instance while an occupied or reserved one has room. |
| CoprocPlacement.SomeReservedIsJoined | client/coproc_sched.cpp:163-180 | With the first of two instances idle and half of the second one reserved, a job of 0.4 joins the second. |
| CoprocPlacement.CandidatesOrdered | client/coproc_sched.cpp:238-274 | The two passes go through unreserved instances before reserved ones, and through lower before higher ones. |
| CoprocPlacement.IntegerTakesFirst | client/coproc_sched.cpp:238-274 | A job for whole instances gets, at each place of its list, the first in that order among the usable instances without usage that it does not have yet. |
| CoprocPlacement.IntegerPlacedIff | client/coproc_sched.cpp:215-236 | It is placed if and only if its usage is at most the number of usable instances without usage. |
| ProcessControl.FoldHead | api/boinc_api.cpp:1179-1204 | Handling the first of the messages in flight does not change what all of them come to. |
| ProcessControl.PurgeOrSendAgrees | client/app_control.cpp:1314-1348 | Taking back a queued opposite message has the effect of sending the message. |
| ProcessControl.ClientStepKeeps | client/app_control.cpp:1307-1349 | Client steps leave the application alone and keep the agreement between task state and messages in flight. |
| ProcessControl.TimerKeepsMutex | api/boinc_api.cpp:1172-1242 | Timer steps keep the mutex with the thread that is between acquire and release. |
| ProcessControl.TimerKeepsFlags | api/boinc_api.cpp:1179-1204 | `suspended` and `suspend_request` are never both set after a timer step. |
| ProcessControl.TimerKeepsRequests | api/boinc_api.cpp:1172-1230 | A timer step loses no deferred suspend, quit or abort. |
| ProcessControl.TimerWants | api/boinc_api.cpp:1179-1204 | Acting on the message in hand makes the application want what the message says. |
| ProcessControl.TimerStepKeeps | api/boinc_api.cpp:1147-1243 | Every timer step keeps the whole invariant. |
| ProcessControl.WorkerNextKeeps | api/boinc_api.cpp:1556-1595 | Worker steps keep mutex, nesting count and flags, and do not change what the application wants. |
| ProcessControl.WorkerNextKeepsRequests | api/boinc_api.cpp:1577-1593 | The worker's checks honour every request deferred before its decrement. |
| ProcessControl.WorkerKeepsApp | api/boinc_api.cpp:1390-1421 | The same with the signal handler interrupting anywhere. |
| ProcessControl.StepKeeps | api/boinc_api.cpp:1147-1595 | Every step of client, timer, worker or handler keeps the invariant. |
| ProcessControl.RunKeeps | api/boinc_api.cpp:1147-1595 | So does every run. |
| ProcessControl.SuspendAgreement | client/app_control.cpp:1307-1349 | On every interleaving with the mutex free, the messages in hand, channel and queue folded over `suspended \|\| suspend_request` give exactly whether the task is suspended; the two flags are never both set. |
| ProcessControl.NoLostRequest | api/boinc_api.cpp:1172-1230 | Once the timer thread is done with a suspend, quit or abort that it deferred, the worker is in a critical section or before the check that honours it. |
| ProcessControl.SleepsOnlyOutside | api/boinc_api.cpp:1413-1420 | The worker never sleeps for suspension inside a critical section, and both threads are never between acquire and release. |
| ProcessControl.StuckStays | api/boinc_api.cpp:1413-1420 | A worker asleep in the handler with the mutex stays so on every run until the process dies. |
| ProcessControl.StickingStep | api/boinc_api.cpp:1407-1420 | A first step of the handler gets stuck if and only if it has interrupted the worker while that holds the mutex with the suspended flag set, and finds the exit flag clear. |
| ProcessControl.OnlyStickingSticks | api/boinc_api.cpp:1147-1595 | No other step of any thread gets stuck. |
| ProcessControl.SticksIff | api/boinc_api.cpp:1390-1421 | Every run, with any interleaving of the other threads, ends with the handler asleep over the mutex if and only if it holds such a step of the handler. |
| ProcessControl.MaskedNeverSticks | api/boinc_api.cpp:1585-1593 | If no signal is delivered while the worker holds the mutex with the suspended flag set, no run ends asleep over the mutex. |
| ProcessControl.SomeRunSticks | api/boinc_api.cpp:1585-1593 | A run from the start of the process that gets stuck. |
| ProcessControl.MsgChannel.SendMsg | lib/app_ipc.cpp:424-429 | A message is taken exactly when the slot is empty. |
| ProcessControl.MsgChannel.GetMsg | lib/app_ipc.cpp:417-422 | The slot's message, if any, and the slot is empty afterwards. |
| ProcessControl.MsgQueue.MsgQueueSend | client/app.cpp:953-970 | The message goes out at once only if nothing waits before it; `last_block` remembers since when messages wait. |
| ProcessControl.MsgQueue.MsgQueuePoll | client/app.cpp:972-996 | The oldest message moves to the channel if that is free. |
| ProcessControl.MsgQueue.MsgQueuePurge | client/app.cpp:1000-1019 | The last message is removed if and only if it is the one asked for; `last_block` stays. |
| ProcessControl.ActiveTask.SuspendTask | client/app_control.cpp:1307-1324 | The code does the client's suspend step in whatever state the task is, or nothing without shared memory. |
| ProcessControl.ActiveTask.UnsuspendTask | client/app_control.cpp:1328-1349 | The code does the client's resume step in whatever state the task is, or nothing without shared memory. |
| ProcessControl.ActiveTask.RequestExit | client/app_control.cpp:196-210 | A quit message is sent if there is shared memory, and the task counts as quitting since now. |
| ProcessControl.ActiveTask.RequestAbort | client/app_control.cpp:214-228 | The same with an abort message. |
| ProcessControl.ActiveTask.Preempt | client/app.cpp:174-224 | A task that is to be removed from memory is told to quit; one that stays is told to suspend if it is executing, and left alone otherwise. A GPU task stays only if never to be removed; any other stays unless always to be removed if it has not checkpointed or preferences leave it in memory, and goes else. |
| ProcessControl.ActiveTask.ResumeScheduled | client/app_control.cpp:1253-1255 | A scheduled task is resumed if it is suspended, and left alone otherwise. |
| ProcessControl.ApplyMsgSteps | api/boinc_api.cpp:1179-1204 | The timer thread's steps for suspend and resume, taken alone, set the flags as the code does at once. |
| ProcessControl.ApplyAbortSteps | api/boinc_api.cpp:1213-1230 | The same for the abort part, with the release of the mutex. |
| ProcessControl.ApplyExitSteps | api/boinc_api.cpp:1205-1230 | The same for quit and abort together. |
| ProcessControl.EndSectionSteps | api/boinc_api.cpp:1556-1595 | The worker's steps out of a critical section, taken alone, come to what the code does at once. |
| ProcessControl.Runtime.constructor | api/boinc_api.cpp:150-200 | The variables start as in the machine's initial state. |
| ProcessControl.Runtime.HandleProcessControlMsg | api/boinc_api.cpp:1147-1243 | The code, run without interference, does the timer thread's steps and gives the exit status; without direct process action it only records the request; the reread and network flags follow their messages. |
| ProcessControl.Runtime.NoteDeadClient | api/boinc_api.cpp:1312-1322 | A dead client ends the process, or, exactly in a critical section or without direct process action, is recorded. |
| ProcessControl.Runtime.BeginCriticalSection | api/boinc_api.cpp:1545-1554 | The code does the worker's step into a critical section: the count is one more, and nothing else changes. |
| ProcessControl.Runtime.EndCriticalSection | api/boinc_api.cpp:1556-1595 | The code, run without interference, does the worker's steps out of a critical section, with the exit status: outermost, with a dead client, a quit or an abort recorded, it ends the process; without direct process action only the count changes. |
| ProcessMessages.MessagesMove | client/app.cpp:953-1019 | What each step does to the messages on their way: each request is added last, or takes back the newest one exactly if that is queued and the opposite; polls lose none and fill an empty channel; the timer thread takes the oldest. |
| ProcessMessages.OnTheWayStep | api/boinc_api.cpp:1172-1230 | A quit or abort leaves the queue and channel only into the timer thread's hand, and comes into them only by the client's request. |
| ProcessMessages.RequestedStays | api/boinc_api.cpp:1205-1230 | On every run, a quit or abort that was asked for stays on its way, in hand or recorded until the process ends or is started again. |
| ProcessMessages.NothingIsInvented | api/boinc_api.cpp:1205-1230 | On every run without such a request of the client, none is ever on its way, in hand or recorded. |
| ProcessMessages.Settled | client/app_control.cpp:1307-1349 | On every interleaving, with no message on its way and nobody changing anything, a task that the client has suspended is suspended or has that deferred, and one that it has executing is neither. |
| ProcessMessages.Handled | api/boinc_api.cpp:1179-1230 | What one message leaves in each flag: a suspend is deferred exactly inside a critical section, a resume ends it in either form, and the process ends exactly outside of one on a quit or abort that came now or before. |
| ProcessMessages.AllRecorded | api/boinc_api.cpp:1179-1230 | Without direct process action any messages are recorded as the newest suspend or resume and whether there was a quit or an abort, and touch nothing else. |
| ProcessMessages.NewestDecides | api/boinc_api.cpp:1179-1204 | Of several messages the newest suspend or resume decides what they come to. |
| ProcessMessages.DepthIsCounted | api/boinc_api.cpp:1545-1575 | On every run the count is the nesting depth of the critical sections while the worker runs its own code, and the worker handles deferred requests at depth 0 only. |
| ProcessMessages.DeadClientIsHeeded | api/boinc_api.cpp:1556-1576 | On every run, a worker that is in a critical section when the dead client is recorded never gets back to the application's own code outside of it: it is still in there or at the check, or has exited. |
| ProcessSleep.DoomedStays | api/boinc_api.cpp:1413-1420 | A worker asleep in the handler whose timer thread has ended stays so on every run until the process dies. |
| ProcessSleep.OnlyDoomingDooms | api/boinc_api.cpp:883-910 | Only the last step of the timer thread leads there, and exactly if the worker is asleep then. |
| ProcessSleep.DoomsIff | api/boinc_api.cpp:883-910 | Every run ends there if and only if it holds such a step. |
| ProcessSleep.EndsAsleepIff | api/boinc_api.cpp:1390-1421 | Every run ends asleep over the mutex or without a timer thread if and only if it holds a step of one of the two kinds. |
| ProcessSleep.ExitComesIff | api/boinc_api.cpp:1407-1411 | Once the timer thread has ended, some continuation ends the process by itself if and only if the worker is not asleep. |
| ProcessSleep.ExecutingIsDecided | client/app_control.cpp:1328-1349 | If the client takes the task for executing, a resume or the end of the timer thread is on its way to a sleeping worker. |
| ProcessSleep.TimerKeepsHope | api/boinc_api.cpp:1147-1243 | No step of the timer thread but the resume itself changes whether a sleeping worker may wake up. |
| ProcessSleep.HopelessStep | api/boinc_api.cpp:1147-1595 | A sleeping worker that may not wake up stays so over every step of client, timer or handler. |
| ProcessSleep.WakeRun | client/app_control.cpp:1328-1349 | One that may wake up does on some run: what is in flight is handled, and the client resumes the task if need be. |
| ProcessSleep.AsleepForGoodIff | api/boinc_api.cpp:1413-1420 | After every run from the start, a worker asleep in the handler stays asleep on all continuations until the process dies if and only if it holds the mutex, or the timer thread ends before it comes to a resume, or none is on its way and the task is not one that the client will resume. |
| ProcessSleep.EndsAreForGood | api/boinc_api.cpp:1413-1420 | The two ends above are such cases. |
| ProcessSleep.SomeQuitDooms | client/app_control.cpp:1164-1170 | A run, with signals held back from the mutex, in which a quit to a suspended task leaves its worker asleep for good. |
| ProcessSleep.SomeDeadClientDooms | api/boinc_api.cpp:1312-1317 | The same when the client dies. |
| ProcessSleep.SomeQuitIsSleptThrough | api/boinc_api.cpp:1556-1583 | A run in which a deferred quit is never looked for, with the mutex free and the timer thread alive. |
| CheckpointTimer.NextKeeps | api/boinc_api.cpp:1301-1306 | Every step keeps: the timer counts only while the flag is clear and writes back no more than is there, and a checkpoint in progress means the flag is set. |
| CheckpointTimer.AheadFalls | api/boinc_api.cpp:1301-1306 | Between completions a second brings the next yes nearer by at most one and the worker never brings it nearer; by exactly one unless the count is raised. |
| CheckpointTimer.AheadOverRun | api/boinc_api.cpp:1301-1306 | The same summed over every run without a completion. |
| CheckpointTimer.CompletionSets | api/boinc_api.cpp:1533-1543 | Completing a checkpoint puts the next yes a full period ahead, whatever the timer thread was doing. |
| CheckpointTimer.Spacing | api/boinc_api.cpp:1525-1543 | On every interleaving from the start, at least min_checkpoint_period() seconds lie between a completed checkpoint and the next yes; exactly that many (at least one) if the count was not raised in between. |
| CheckpointTimer.FirstSpacing | api/boinc_api.cpp:705 | The same for the first yes after the start. |
| CheckpointTimer.PeriodIs | api/boinc_api.cpp:608-616 | The period is the larger of the integer part of the client's period, with the fraction cut off towards 0, and the application's own, or 300 if the larger is 0. |
| CheckpointTimer.PeriodsStay | api/boinc_api.cpp:608-623 | On every run, the period that the application or the init file set stays in force until the next one. |
| CheckpointTimer.NewestPeriodCounts | api/boinc_api.cpp:608-623 | After a call and a later parse of the init file, without newer ones, the period is at least what either asked for. |
| CheckpointTimer.YesIsOnTime | api/boinc_api.cpp:1303-1305 | Between its actions the timer leaves the flag set if and only if nothing is left to count. |
| CheckpointTimer.TimerReaches | api/boinc_api.cpp:1301-1306 | The timer thread alone brings a yes after exactly the seconds that are ahead. |
| CheckpointTimer.AheadIsExact | api/boinc_api.cpp:1301-1306 | What is ahead is the shortest wait for a yes over all runs. |
| CheckpointTimer.CallCountsIff | api/boinc_api.cpp:617-623 | At the last step of the call, a raise or a comparison that finds the count high enough, x seconds are ahead if and only if the timer heeds the count or that was so before. |
| CheckpointTimer.RaiseCountsIff | api/boinc_api.cpp:617-623 | On every run from the start up to that step, no continuation has a yes before x seconds if and only if the same holds. |
| CheckpointTimer.SomeRaiseIsUndone | api/boinc_api.cpp:617-623 | A run where the call raises the count to 600 seconds and a yes may come before two. |
| CheckpointTimer.SomeCompareIsUndone | api/boinc_api.cpp:617-623 | A run where a second call finds the count above 300 seconds, raises nothing, and a yes may come before two. |
| CheckpointTimer.Runtime.MinCheckpointPeriod | api/boinc_api.cpp:608-616 | The larger of the two periods, or 300 when that is 0; never 0, and no smaller than either period. |
| CheckpointTimer.Runtime.SetMinCheckpointPeriod | api/boinc_api.cpp:617-623 | The code does the worker's steps of the call; without interference the next yes is x seconds away. |
| CheckpointTimer.Runtime.SecondPasses | api/boinc_api.cpp:1301-1306 | The code does one whole action of the timer thread and takes one second off what is left. |
| CheckpointTimer.Runtime.TimeToCheckpoint | api/boinc_api.cpp:1525-1531 | A yes exactly when the flag is set, and then a critical section begins. |
| CheckpointTimer.Runtime.CheckpointCompleted | api/boinc_api.cpp:1533-1543 | The code does the worker's two steps of a completion, records the CPU time, and counts the critical section down. |
| ClientGraph.CollectIsSound | client/client_state.cpp:1505-1775 | After a collection the integrity predicate of client/check_state.cpp and all links hold for everything that survives. |
| ClientGraph.CollectResultsIsSound | client/client_state.cpp:1564-1650 | Deleting acknowledged results without a task leaves no dangling reference. |
| ClientGraph.CollectWorkunitsIsSound | client/client_state.cpp:1655-1675 | Neither does deleting unreferenced workunits. |
| ClientGraph.CollectVersionsIsSound | client/client_state.cpp:1681-1707 | Neither does deleting superseded versions. |
| ClientGraph.CollectFilesIsSound | client/client_state.cpp:1722-1768 | Neither does deleting unreferenced files with their transfers. |
| ClientGraph.CollectIsExact | client/client_state.cpp:1505-1775 | A result survives iff it is not acknowledged or has a task, a workunit iff a surviving result uses it, a file iff a surviving object, a project or its stickiness refers to it. |
| ClientGraph.Latest | client/client_state.cpp:1681-1707 | Every version has a latest one of its application, platform and plan class. |
| ClientGraph.SweepOrderDoesNotMatter | client/client_state.cpp:1681-1707 | Whether a version is superseded can be judged on any partly swept table. |
| ClientGraph.VersionsMaximal | client/client_state.cpp:1681-1707 | A version survives iff a surviving result uses it or it is the latest of its group, and it is then the latest among the survivors. |
| ClientGraph.CollectIdempotent | client/client_state.cpp:1505-1775 | A second collection deletes nothing. |
| ClientGraph.StripCollect | client/client_state.cpp:1257-1392 | Collecting and leaving a project out commute: no project keeps another one's objects alive. |
| ClientGraph.ClearIsSound | client/client_state.cpp:1999-2045 | Ending a project's work and claims keeps the integrity predicate. |
| ClientGraph.ClearedWork | client/client_state.cpp:1999-2047 | The collection after that leaves no task, result, workunit or transfer of the project. |
| ClientGraph.DropAppsIsSound | client/client_state.cpp:2051-2073 | Removing the project's versions and applications then leaves no dangling reference. |
| ClientGraph.NothingLeft | client/client_state.cpp:2051-2074 | A collection after that leaves nothing of the project. |
| ClientGraph.ResetIsStrip | client/client_state.cpp:1989-2074 | A reset leaves nothing of the project, and the others keep exactly what an ordinary collection would have left them. |
| ClientGraph.ResetKeepsVersions | client/client_state.cpp:2049-2051 | On an anonymous platform the project keeps exactly its latest versions and their files. |
| ClientGraph.DropProjectIsSound | client/client_state.cpp:2134-2142 | Removing the entry of a project with nothing left keeps integrity, and nothing refers to it. |
| ClientGraph.DetachIsSafe | client/client_state.cpp:2109-2142 | After a detach nothing refers to the project, integrity holds, and the rest is what an ordinary collection would have left. |
| ClientGraph.CollectIgnoresProjects | client/client_state.cpp:1505-1775 | The list of projects does not matter to a collection once nobody refers to the removed ones. |
| ClientGraph.DetachIsQuiet | client/client_state.cpp:1480-1498 | With nothing to collect, detaching a project without results removes only what belongs to it and leaves nothing to collect. |
| ClientGraph.DetachStep | client/client_state.cpp:1482-1496 | Each detach of the loop leaves out exactly one more project, keeps all results, and shortens the list. |
| ClientGraph.ForgottenForever | client/client_state.cpp:1480-1498 | A project detached earlier stays forgotten. |
| ClientGraph.LeaveAllIsSound | client/client_state.cpp:1480-1498 | Any number of detaches keeps the integrity predicate. |
| ClientGraph.LeaveAllForgets | client/client_state.cpp:1480-1498 | Nothing refers to any of the projects detached by the loop. |
| ClientGraph.NoResultsForProject | client/client_state.cpp:1437-1443 | The count is 0 if and only if no result belongs to the project. |
| ClientGraph.LoopIsExact | client/client_state.cpp:1480-1498 | When no finished project is listed any more, exactly the finished ones are gone. |
| ClientTables.CollectedWork | client/client_state.cpp:1564-1675 | After a collection, exactly those results are there that were and are not acknowledged or have a task, and those workunits that a remaining result is of. |
| ClientTables.ErasedVersion | client/client_state.cpp:1681-1707 | No remaining result uses a version that goes, and one of the same application, platform and plan class with a higher number remains. |
| ClientTables.UnusedVersion | client/client_state.cpp:1681-1707 | A version that remains without use had and has no higher number beside it in its application, platform and plan class. |
| ClientTables.CollectedVersions | client/client_state.cpp:1681-1707 | Both for all versions at once. |
| ClientTables.GroupSurvives | client/client_state.cpp:1681-1707 | Of every application, platform and plan class one version remains that is no older than any given one. |
| ClientTables.CollectedFiles | client/client_state.cpp:1712-1768 | Exactly those files are there that were and that a project, their stickiness, or a remaining result, workunit or version keeps. |
| ClientTables.CollectedTransfers | client/client_state.cpp:1736-1748 | A transfer, and each pointer to one, remains if and only if its file does. |
| ClientTables.NothingDangles | client/check_state.cpp:92-176 | After a collection every reference of a remaining task, result, workunit, version or transfer is to an object that is there. |
| ClientTables.ResetTables | client/client_state.cpp:1989-2074 | Table by table, a reset leaves what an ordinary collection leaves, without what belongs to the project. |
| ClientTables.AnonymousReset | client/client_state.cpp:2049-2051 | On an anonymous platform a version of the project remains if and only if no other of its application, platform and plan class has a higher number, and a file if and only if such a version needs it; tasks, results, workunits and transfers of the project are gone. |
| ClientTables.DetachTables | client/client_state.cpp:2109-2142 | A detach does the same and takes the project, and no other, off the list. |
| ClientTables.LeaveAllTables | client/client_state.cpp:1480-1498 | The detach loop takes out of the tables of work, versions and applications exactly what belongs to the projects that went. |
| ClientTables.LeaveAllFiles | client/client_state.cpp:1480-1498 | The same for files, transfers and the list of projects. |
| ClientTables.GoneIff | client/client_state.cpp:1480-1498 | When the loop stops, a listed project is gone if and only if it is marked to be detached when done, has no account manager, and no result belongs to it. |
| ClientState.ZeroRefCounts | client/client_state.cpp:1521-1532 | All counts are zero. |
| ClientState.CountProjectFiles | client/client_state.cpp:1536-1545 | A file is counted if and only if a project names it. |
| ClientState.LookupResult | client/cs_apps.cpp:319-330 | The task of the result, or null if and only if there is none. |
| ClientState.SweepResults | client/client_state.cpp:1564-1650 | The erasing loop keeps exactly the results to keep, and counts are positive exactly on what those refer to. |
| ClientState.SweepWorkunits | client/client_state.cpp:1655-1675 | The erasing loop keeps exactly the referenced workunits and counts their input files. |
| ClientState.FindSuccessor | client/client_state.cpp:1685-1696 | True if and only if the table holds one of the same application, platform and plan class with a higher number. |
| ClientState.SweepJudges | client/client_state.cpp:1681-1707 | The half-swept table still shows which versions were superseded in the full one. |
| ClientState.SweepAppVersions | client/client_state.cpp:1681-1707 | The erasing loop, which judges by the table it is erasing from, keeps exactly the versions with references and those without a higher number in their application, platform and plan class. |
| ClientState.CountAppFiles | client/client_state.cpp:1712-1718 | The files of the remaining versions are counted too. |
| ClientState.CountStickyFiles | client/client_state.cpp:1722-1731 | Expired stickiness ends, and the sticky files without an error status are counted. |
| ClientState.RemoveFileXfer | client/file_xfer.cpp:222-240 | Exactly that transfer leaves the vector. |
| ClientState.DropTransfer | client/pers_file_xfer.cpp:466-477 | Suspending and deleting a persistent transfer removes its transfer in progress and all pointers to both. |
| ClientState.StillOwned | client/pers_file_xfer.cpp:466-477 | The transfer in progress of a persistent transfer is still in its vector after others were dropped, and only that one owns it. |
| ClientState.SweepTransfers | client/client_state.cpp:1736-1748 | Exactly the transfers of unreferenced files go. |
| ClientState.SweepFiles | client/client_state.cpp:1752-1768 | Exactly the referenced files stay. |
| ClientState.CollectShortens | client/client_state.cpp:1505-1775 | The collector changes the graph if and only if one of the tables it reports about becomes shorter. |
| ClientState.EraseTasks | client/app_control.cpp:1137-1155 | Exactly the project's tasks leave the vector. |
| ClientState.StopTransfers | client/client_state.cpp:2003-2014 | Exactly the project's transfers are stopped and removed, by a loop that erases while indexing. |
| ClientState.AcknowledgeResults | client/client_state.cpp:2027-2033 | Exactly the project's results become acknowledged. |
| ClientState.ClearNames | client/client_state.cpp:2035-2036 | The project names no file and the others name what they did. |
| ClientState.EndStickiness | client/client_state.cpp:2040-2045 | Exactly the project's files lose their stickiness. |
| ClientState.EraseVersions | client/client_state.cpp:2052-2060 | Exactly the project's versions leave the table. |
| ClientState.EraseApps | client/client_state.cpp:2062-2071 | Exactly the project's applications leave the table. |
| ClientState.EraseFiles | client/client_state.cpp:2124-2132 | Exactly the project's files leave the table. |
| ClientState.EraseProject | client/client_state.cpp:2136-2142 | Exactly the project leaves the list. |
| ClientState.ClientState.SurvivorsAre | client/client_state.cpp:1505-1775 | What is in the tables after the sweeps, told by references between what is in them. |
| ClientState.ClientState.TablesAre | client/client_state.cpp:1505-1775 | The same with the versions, and on the fields of the objects. |
| ClientState.ClientState.GarbageCollectAlways | client/client_state.cpp:1505-1775 | The counting and erasing code leaves exactly the graph of the definition and returns true if and only if it changed something. Told on the fields: a result stays iff it is not acknowledged or has a task; a workunit iff a remaining result is of it; a version goes only unused and for a remaining one of its application, platform and plan class with a higher number, and stays unused only without one; a file stays iff a project or a remaining object refers to it, or it was sticky, not expired and without error. |
| ClientState.ClientState.ClearProject | client/client_state.cpp:1999-2045 | The first half of a reset as on the graph. |
| ClientState.ClientState.DropVersionsAndApps | client/client_state.cpp:2051-2073 | The second half of a reset as on the graph. |
| ClientState.ClientState.ResetProject | client/client_state.cpp:1989-2074 | The whole reset as on the graph, for every platform and with or without detaching. |
| ClientState.ClientState.ForgetProject | client/client_state.cpp:2122-2142 | The project's files and its entry are gone. |
| ClientState.ClientState.DetachProject | client/client_state.cpp:2109-2142 | The detach as on the graph; nothing refers to the project and integrity holds. |
| ClientState.ClientState.DetachPass | client/client_state.cpp:1482-1496 | One pass, which skips the entry after an erased one, detaches only finished projects, and finds none only if none is listed. |
| ClientState.ClientState.DetachFinished | client/client_state.cpp:1480-1498 | The loop ends, with no finished project listed. |
| ClientState.ClientState.GarbageCollect | client/client_state.cpp:1462-1501 | Depending on what is due: nothing, one collection, or, when nothing was to collect, detaches; then exactly those projects stay listed that are not marked, have an account manager, or have a result. |
| Blocks.BlockIs | api/reduce_main.cpp:86 | The indices that the integer formula sends to a bin are exactly a block of consecutive ones. |
| Blocks.BlocksTile | api/reduce_main.cpp:86 | The blocks are in order, not empty, and cover the range. |
| Blocks.BinInRange | api/reduce_main.cpp:86 | Every bin is inside the reduced row. |
| Blocks.BinStep | api/reduce_main.cpp:142-148 | The next index stays in its bin or moves to the next one; the first is in bin 0, the last in the last bin. |
| Blocks.BlocksAreEven | api/reduce_main.cpp:86 | No two blocks differ by more than one index in size. |
| Blocks.SumOfBlocks | api/reduce_main.cpp:85-93 | Sums over blocks add up to the sum over the range. |
| ReducedGrid.CellMeans | api/reduce_main.cpp:85-107 | A cell is the mean or the sum of its block; for MIN and MAX the extreme of the block and 0. |
| ReducedGrid.ReducedRowBounds | api/reduce_main.cpp:80-108 | A row that fits is kept entry by entry, whatever the method; else the MAX cell that an entry goes to is at least the entry and 0, and the MIN cell at most. |
| ReducedGrid.ReducedRowAttains | api/reduce_main.cpp:84-101 | Such a cell is 0 or one of the entries that go to it. |
| ReducedGrid.ExtremeIff | api/reduce_main.cpp:84-101 | For MAX a cell is the maximum of its block if and only if some entry is at least 0, for MIN the minimum if and only if some entry is at most 0. |
| ReducedGrid.SomeMaximumIsMissed | api/reduce_main.cpp:84-101 | A block with maximum -1 and cell 0. |
| ReducedGrid.SomeMinimumIsMissed | api/reduce_main.cpp:84-101 | A block with minimum 1 and cell 0. |
| ReducedGrid.FinalRowOfEqual | api/reduce_main.cpp:132-140 | With as many rows as the source, a row of the result is the reduced source row. |
| ReducedGrid.Envelope | api/reduce_main.cpp:110-118 | The kept extremes are those of all cells together with the start values 0 and 1e20. |
| ReducedGrid.EnvelopeIff | api/reduce_main.cpp:59-60 | They are the largest and the smallest cell if and only if some cell is at least 0, and at most 1e20. |
| ReducedGrid.SomeTopIsMissed | api/reduce_main.cpp:59-60 | A result with its only cell below 0, for which rdata_max is 0. |
| FinalCells.FinalCellIff | api/reduce_main.cpp:142-185 | Whatever the method, a finished cell is the largest, or the smallest, of the reduced rows above it if and only if they are equal there. |
| FinalCells.TopIff | api/reduce_main.cpp:142-185 | The mean of the MAX cells of some blocks is the largest of all their entries if and only if the cells are equal and some entry is at least 0. |
| FinalCells.BottomIff | api/reduce_main.cpp:142-185 | The same for MIN. |
| FinalCells.FinalExtremeIff | api/reduce_main.cpp:122-188 | A finished MAX or MIN cell is the extreme of all source entries in its two-dimensional block exactly then. |
| FinalCells.SomeMaximumIsAveraged | api/reduce_main.cpp:142-185 | Rows with maxima 1 and 3, and a cell of 2. |
| ReducedGrid.RowConserves | api/reduce_main.cpp:80-108 | The cells of a reduced row, weighted with their column counts if averaged, add up to the source row. |
| ReducedGrid.MeanConserves | api/reduce_main.cpp:149-160 | The mean of some rows, times their number, adds up to those rows. |
| ReducedGrid.Conservation | api/reduce_main.cpp:122-188 | The weighted cells of the whole result add up to the whole source array. |
| ReducedArray.BinsNext | api/reduce_main.cpp:85-101 | Accumulating one entry in place is extending its block, for values and counts. |
| ReducedArray.BinsEnd | api/reduce_main.cpp:102-107 | After the row, the bins divided by their counts are the reduced row. |
| ReducedArray.PutKeepsDone | api/reduce_main.cpp:144-185 | Writing to the current row leaves the finished rows alone: rows do not overlap. |
| ReducedArray.GoodEqual | api/reduce_main.cpp:132-140 | With as many rows as the source, each call finishes the next row. |
| ReducedArray.EnterFirst | api/reduce_main.cpp:143 | The first call starts from a cleared row. |
| ReducedArray.EnterNext | api/reduce_main.cpp:145-160 | Moving to a new row finishes the previous one with its mean, and the new one is the very next. |
| ReducedArray.AddedIsGood | api/reduce_main.cpp:162-173 | Adding a row that is not the last keeps the running sum exact. |
| ReducedArray.LastIsGood | api/reduce_main.cpp:177-186 | The last row finishes the last row of the result. |
| ReducedArray.GoodIsComplete | api/reduce_main.cpp:122-188 | After all source rows every row of the result is the batch definition's, the number of valid rows is the full height, and the extremes are those of all rows. |
| ReducedArray.BufferCells | api/reduce.h:50-52 | The finished buffer holds row after row, rdimx cells each; the cell at j * rdimx + x is the mean, at x, of the reduced source rows i with i * rdimy / sdimy equal to j. |
| ReducedArray.TotalIsKept | api/reduce_main.cpp:122-188 | After all source rows the weighted cells in the buffer add up to the source array. |
| ReducedArray.ReducedArrayGen.FullKeepsTotal | api/reduce_main.cpp:122-188 | The same of the object: what rdata holds when it is full adds up to all rows that came in. |
| ReducedArray.CapsFit | api/reduce_main.cpp:49-54 | The capped dimensions always fit the buffer, so they are never halved. |
| ReducedArray.ReduceSourceRow | api/reduce_main.cpp:80-108 | The in-place accumulation writes exactly the reduced row and nothing else. |
| ReducedArray.ReducedArrayGen.InitData | api/reduce_main.cpp:44-61 | Ready for a source array of any size, with its dimensions capped at 256 and 128 and the extremes at 0 and 1e20. |
| ReducedArray.ReducedArrayGen.UpdateMax | api/reduce_main.cpp:110-118 | Exactly the row's cells are taken into the extremes. |
| ReducedArray.ReducedArrayGen.FinishRow | api/reduce_main.cpp:149-156 | The row is divided by its number of source rows, counted, and taken into the extremes. |
| ReducedArray.ReducedArrayGen.EnterNextRow | api/reduce_main.cpp:145-160 | The previous row of the result is finished and the next one begins empty. |
| ReducedArray.ReducedArrayGen.EnterRow | api/reduce_main.cpp:142-160 | The incoming row's row of the result is current, with the sum so far, and the earlier ones are finished. |
| ReducedArray.ReducedArrayGen.AddRow | api/reduce_main.cpp:162-173 | The reduced source row is added to the current row. |
| ReducedArray.ReducedArrayGen.AddSourceRow | api/reduce_main.cpp:122-188 | After each call the array is what the batch definition makes of the rows so far; a call too many changes nothing. |
| ReducedArray.ReducedArrayGen.Full | api/reduce_main.cpp:63-65 | Full if and only if all source rows came in. |
| UpperCase.NextKeeps | apps/upper_case.cpp:90-106 | Every step, with a crash anywhere, keeps: the checkpointed count n is at most the output's length and the first n characters are the upper-case input's. |
| UpperCase.RunKeeps | apps/upper_case.cpp:219-262 | The invariant on every run. |
| UpperCase.UpperIsCapitals | apps/upper_case.cpp:223 | The mapping leaves no letter from a to z, turns each into the capital at its place in the alphabet, and changes nothing else. |
| UpperCase.CompletedIsUpper | apps/upper_case.cpp:181-296 | However often a run crashed and whatever files were lying around, if it finishes the output has the input's length, each letter from a to z stands as the capital at its place in the alphabet, every other character is unchanged, and no letter from a to z is left. |
| UpperCase.CrashKeepsCheckpoint | apps/upper_case.cpp:181-192 | A restarted process has exactly the saved part of the output and reads on behind it. |
| UpperCase.CanFinish | apps/upper_case.cpp:219-296 | From every state a process that is up can finish. |
| UpperCase.Application.Open | apps/upper_case.cpp:181-192 | The restart step: truncate and append with a checkpoint, else start over. |
| UpperCase.Application.DoCheckpoint | apps/upper_case.cpp:90-106 | The checkpoint's steps, cut off at any of them or complete. |
| UpperCase.Application.TakeTurn | apps/upper_case.cpp:242-251 | A checkpoint that nothing cuts off saves the count of all characters so far, and they are in the output file. |
| UpperCase.Application.CopyInput | apps/upper_case.cpp:219-262 | The loop's steps; it ends at the end of the input unless the process dies. |
| UpperCase.Application.Burn | apps/upper_case.cpp:275-296 | The loop's steps, with checkpoints that write nothing. |
| UpperCase.Application.Execute | apps/upper_case.cpp:181-296 | One execution is a run of the machine, and finishes if nothing cuts it off. |
| UpperCase.Application.RunToCompletion | apps/upper_case.cpp:181-296 | Started again and again, the application finishes once nothing cuts it off, with the input in capitals, character by character. |
| GraphicsData.RefinesQueue | api/graphics_data.cpp:32-79 | Each call is an operation of a two-place queue: completing puts the cycle at the end, rendering takes the first one out and shows it, starting a cycle puts it in the making if a buffer is idle. |
| GraphicsData.NextKeeps | api/graphics_data.cpp:32-79 | The threads never own the same buffer, and the cycles that got a buffer are, in order, those shown, those that wait and the one in the making. |
| GraphicsData.WhenServed | api/graphics_data.cpp:38-74 | The generator gets a buffer iff one is idle or its own; the renderer iff a cycle was completed; and the display moves on iff it was rendered and the next cycle is complete. |
| GraphicsData.HandedOut | api/graphics_data.cpp:38-75 | A generator gets the buffer of the cycle in the making, and one exactly if there is one after the call; each side may report the buffer it gets. |
| GraphicsData.MovesOnIff | api/graphics_data.h:25-29 | On every run, the next call for a buffer to render shows the oldest cycle that waits if and only if there is one and the cycle on display, if any, was reported as shown since it came there, before the other was complete or after; otherwise the display lingers. |
| GraphicsData.SomeDisplayLingers | api/graphics_data.h:27-29 | A run in which the report comes before the next cycle is complete, and that one is shown. |
| GraphicsData.RunKeeps | api/graphics_data.h:18-46 | On every run, and what was shown stays shown. |
| GraphicsData.ShownInOrder | api/graphics_data.h:18-46 | From two idle buffers, cycles are shown in the order they were started, each at most once, and none that got a buffer is passed over; at most two wait. |
| GraphicsData.GrantedIsSettled | api/graphics_data.cpp:64-75 | Whether a cycle gets a buffer is settled by its first call. |
| GraphicsData.MissingIff | api/graphics_data.h:25-29 | A data cycle is skipped if and only if its first call found no idle buffer (or another cycle in the making); once a later one is shown, it was shown if and only if it was not skipped. |
| GraphicsData.SomeCycleIsSkipped | api/graphics_data.h:25-29 | A run that shows cycles 0, 1 and 3. |
| GraphicsData.GraphicsDoubleBuffer.GetBuffer | api/graphics_data.cpp:32-36 | The first buffer in that state, or null. |
| GraphicsData.GraphicsDoubleBuffer.GetRenderBuffer | api/graphics_data.cpp:38-58 | The renderer's step, with the buffer it gets. |
| GraphicsData.GraphicsDoubleBuffer.RenderDone | api/graphics_data.cpp:60-62 | The renderer's report, whether a cycle waits or not. |
| GraphicsData.GraphicsDoubleBuffer.GetGenerateBuffer | api/graphics_data.cpp:64-75 | The generator's step, with the buffer it gets. |
| GraphicsData.GraphicsDoubleBuffer.GenerateDone | api/graphics_data.cpp:77-79 | The generator's report. |
| Slots.NextFree | client/app.cpp:601-639 | Among any \|slots\| + 1 consecutive numbers one is free (pigeonhole). |
| Slots.LastTried | client/app.cpp:633-639 | The search looks at no slot beyond the first unused one above 100 * ncpus, which is at most 100 * ncpus + 1 + number of tasks. |
| Slots.FoundIsFirst | client/app.cpp:601-639 | The slot found is unused with a directory that was cleaned out or made; below it, or up to the last one tried if none is found, every slot is used, or its directory could not be cleaned, is no directory, or could not be made. |
| Slots.ActiveTaskSet.IsSlotInUse | client/app.cpp:566-574 | True if and only if a task is in the slot. |
| Slots.ActiveTaskSet.Search | client/app.cpp:601-639 | The loop ends for every outcome of the directory operations, at that slot at the latest. |
| Slots.ActiveTaskSet.GetFreeSlot | client/app.cpp:595-644 | It returns the least slot that no task holds and whose directory was cleaned out or made, or an error if there is none up to that slot. |
| Slots.ActiveTaskSet.StartTask | client/app.cpp:595-644 | A task that gets a slot keeps the slots of all tasks distinct. |
| Slots.ActiveTaskSet.ParseTask | client/app.cpp:923-931 | A task from the state file is accepted if and only if its slot is not taken, and slots stay distinct. |
| Slots.ActiveTaskSet.RemoveTask | client/app_control.cpp:1137-1155 | Removal keeps slots distinct. |

## Left out

- GPU usages are whole numbers from 1 or lie strictly between 0 and 1, as the note at client/coproc_sched.cpp:41 says. A usage like 1.5 would reach the "huh???" exit after marking instances.
- `coproc_indices` is a sequence. The source's array of MAX_COPROCS_PER_JOB (8) entries and what happens beyond it are not modelled.
- `can_use_gpu` is an arbitrary fixed set of usable instances per job; exclusions and OpenCL availability are not modelled.
- Whether a job's task is running, and the job's resource use, do not change during allocation.
- ProcessControl: the Unix runtime. Windows, Android and the multi-threaded mode, heartbeat messages and trickle messages are not modelled; that the client is dead is a step that may happen at any time.
- ProcessControl.NoLostRequest: is about deferred requests; what becomes of those acted on at once is in ProcessSleep. The timer thread sets no_heartbeat without the mutex after reading the count, so a worker that has left the section in between relies on the next second's check; one that has not is in ProcessMessages.DeadClientIsHeeded.
- ProcessControl: sequential consistency is assumed. Process exit and kill are one step (Die); timeouts of the message queue and the task's fate after exit (NoticeExit) are left open.
- ProcessControl.MsgQueue.MsgQueuePurge: nothing is said about `last_block` beyond single calls. Purging leaves it set with an empty queue, and a poll clears it while messages remain, so it does not tell since when the queue has been blocked.
- ProcessControl.ActiveTask.RequestExit: the list of descendant processes is left out.
- ProcessControl.ActiveTask.RequestAbort: the list of descendant processes is left out.
- ProcessControl.Runtime.HandleProcessControlMsg: the interference of other threads is in the step lemmas only; diagnostics calls are left out.
- ProcessSleep.AsleepForGoodIff: is about a worker in the handler's loop. A worker in the loop of suspend_activities() comes there with the next signal, or exits.
- CheckpointTimer.Spacing: a checkpoint is completed only after a yes, as the API demands. An application that completes one without asking can lose the period to the timer thread's pending write.
- CheckpointTimer.Runtime.CheckpointCompleted: what the end of the critical section triggers beside the count is modelled in ProcessControl (EndCriticalSection), not here.
- ClientGraph.CollectIsSound: the integrity predicate's clause about FILE_INFO.result is dropped, here and wherever integrity is stated, because the assignments to that field are outside the modelled code; so are auto-update file references.
- ClientGraph: references stay within a project, as the link functions establish; this and the links between files and transfers are assumed at the start and proved to be kept.
- ClientGraph: the pointers from files to persistent transfers and from those to transfers in progress are kept as two maps beside the objects, so the update of these two fields in place and aliasing through them are not captured.
- ClientGraph: a project's flags (detach_when_done, attached_via_acct_mgr, anonymous_platform) are constant during these operations.
- ClientState.SweepResults: error reports and task aborts for failed downloads and uploads change fields outside the graph and are left out.
- ClientState.EraseTasks: the exit requests to running tasks and the cleaning of slot directories are left out.
- ClientState.RemoveFileXfer: the set of HTTP operations and the bandwidth limits are not part of this model.
- ClientState.DropTransfer: the saved byte count and the upload offset are left out.
- ClientState.ClientState.GarbageCollectAlways: what SweepResults leaves out, the record of old results, and the deletion of files on disk are left out; that a remaining file's count is positive is stated for the sweeps only.
- ClientState.ClientState.ClearProject: the abort of a scheduler operation and the cleaning of slot directories are left out.
- ClientState.ClientState.ResetProject: backoffs, scheduler URLs, project directories and the state file are left out, beside what ClearProject leaves out.
- ClientState.ClientState.DetachProject: ends with the removal from the list of projects; the deletion of account, statistics and project files on disk is left out.
- ClientState.ClientState.GarbageCollect: the clock and abort_unstarted_late_jobs() are parameters.
- ReducedArray: arithmetic is on reals and unbounded integers; single precision and overflow of `i*rdimx` are not modelled. A call beyond the last row returns, as in a release build.
- ReducedArray: drawing and the transfer of rows to the graphics side are left out.
- UpperCase: rename is atomic. A failed rename, or an open that fails, counts as a crash. Command-line switches that slow, exit or crash the program on purpose are covered by crashes.
- UpperCase: the input does not change between executions, and a character is one byte with the case mapping of the C locale.
- GraphicsData.ShownInOrder: calls are atomic, and callers report a buffer as done only while they hold it. With interleaved reads of the two state fields the order is not guaranteed.
- Slots: outcomes of directory operations are an arbitrary function of the slot number, fixed during one search.
- apps/concat.cpp: it appends on resume without truncating, so the crash theorem does not hold for it.
- XML parsing, scheduler requests, network transfers, graphics rendering and platform code.
