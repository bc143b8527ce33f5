# Verified model of the kernel and the firmware receiver

This project models two parts of the firmware and proves properties of them in Dafny:

- the FreeRTOS V11.1.0 kernel, as configured here: one core, preemption, mutexes and timers, no queue
  sets, the generic task selection. Lists, the tick and the delayed lists, suspension of the scheduler,
  priority inheritance, queues and their locks, software timers, stream and message buffers, event
  groups, block times;
- the firmware update receiver on top of it: the header and payload loop, the flash driver, the CRC.

Each component has a specification by functions over values, with lemmas about every input or every
run, and, where the source updates things in place, a class whose methods are proved against that
specification. What each of those functions does is stated apart from it, by its effect (the modules
named Effects). Protocols are state machines whose steps are the critical sections of the source.
Thirty-two-bit arithmetic is written out; unbounded clocks, counters and histories appear only in
specifications.

| files | component |
|---|---|
| `Basics.dfy`, `Bits.dfy` | shared definitions |
| `Rings.dfy`, `IntrusiveList.dfy` | list.c: the circular list as a value, and as linked items |
| `Scheduler.dfy`, `SchedulerEffects.dfy`, `SchedulerRuns.dfy`, `SchedulerLaws.dfy`, `SchedulerTurns.dfy`, `Kernel.dfy` | tasks.c: ticks, delays, suspension, task selection |
| `Mutexes.dfy`, `MutexRuns.dfy`, `MutexEffects.dfy`, `MutexSwitches.dfy`, `OwnMutex.dfy`, `MutexKernel.dfy` | tasks.c and queue.c: mutexes and priority inheritance |
| `QueueLocks.dfy`, `QueueRuns.dfy`, `QueueEffects.dfy`, `QueueKernel.dfy` | queue.c: blocking, locking, deferred wake-ups |
| `QueueRing.dfy` | queue.c: the storage of a queue |
| `Timers.dfy`, `TimerRuns.dfy` | timers.c |
| `Bytes.dfy`, `RingWrites.dfy`, `StreamBuffer.dfy`, `StreamRuns.dfy`, `StreamEffects.dfy`, `MessageRuns.dfy`, `MessageEffects.dfy` | stream_buffer.c |
| `EventGroups.dfy` | event_groups.c |
| `TimeOut.dfy` | tasks.c: block times |
| `Crc32.dfy`, `CrcPolynomials.dfy` | ota_flash.c: the checksum |
| `OtaFlash.dfy` | ota_flash.c: erasing and writing |
| `OtaSession.dfy`, `OtaClient.dfy`, `OtaServer.dfy` | ota_server.c: the main loop |

`dafny verify dfyconfig.toml` checks the whole project.

What comes in from outside is a parameter: the true time, the moment a block time runs out, the order of
interrupts and tasks, the position a priority calls for in an event list, the bytes a read returns, and
an oracle for the flash hardware that may report anything and store anything in the cells addressed.

## Where the code does not meet a claim made for it

- vListInsertEnd is documented to make an item the last to be reached. It is, except for the item the
  index is on (`Rings.InsertEndGoesLast`).
- vTaskPriorityDisinheritAfterTimeout asserts that the holder is not the caller, with the comment that a
  task cannot inherit its own priority. A task that takes a mutex it holds, with a block time, may trip
  the assertion if and only if that mutex is the only one it holds and it runs above its base priority
  (`OwnMutex.OwnMutexTripsAssert`). Runs of the scheduler lead there from a start
  (`OwnMutex.OwnMutexIsReachable`, `OwnMutex.StartIsPoised`).
- xTaskPriorityDisinherit is documented to lead to a switch when the last mutex is given back, whether a
  task waits for it or not. xQueueGenericSend drops what it returns if one does.
  `MutexSwitches.GiveMissesSwitch` says exactly when a task above the giver is then left ready with no
  switch asked for, and `MutexSwitches.MissedSwitchIsReachable` leads there from a start.
- prvGetDisinheritPriorityAfterTimeout is documented to return the highest priority of those who wait. It
  reads the first item of a list that is not put in order again when a priority changes;
  `MutexEffects.LateChangeIsSeen` says exactly after which calls of vTaskPrioritySet it is still right.
- Overwriting a full queue of items of size 0 counts the item twice. `QueueRing.Queue.Send` says that
  nothing else takes the count above the length; no wake-up is lost by it (`QueueRuns.NoLostWakeUp`). A
  sender refused by such a queue does not wait but tries again, because prvIsQueueFull tests for equality
  (`QueueEffects.LevelEffect`).
- A timer command processed 2^32 ticks or more after it was issued can be misplaced;
  `Timers.StaleCommands` says exactly when. So can a call of xTaskDelayUntil made that long after the
  last wake time; `TimeOut.DelayUntilIsExact` says when.
- A time-out check made more than 2^32 ticks after the last can miss a time out; `TimeOut.CheckIsExact`
  says exactly when.
- The range checks of the flash driver are made in 32 bits. `OtaFlash.WriteStaysInside` and
  `OtaFlash.EraseStaysInside` say exactly which accepted writes and sectors are inside the slot; the
  receiver never asks for others.
- The receiver reads to the end of a sector, not of the image, so what a client sends behind an image
  that fails its check may be lost with it (`OtaSession.ReadAheadSwallowsRetry`). How the bytes fall into
  reads does not matter if and only if no read does that (`OtaSession.ChunkingDoesNotMatter`); up to the
  first answer, and for a client that waits for it, it never does.

## Model

| member | source | states |
|---|---|---|
| Rings.RemoveUndoesInsert | FreeRtos/kernel/list.c:215-245 | removing an item that was just inserted anywhere restores the ring, index included |
| Rings.InsertPosition | FreeRtos/kernel/list.c:139-211 | the search of vListInsert stops behind every value not greater than the new one and before the first greater one |
| Rings.InsertionSortsStably | FreeRtos/kernel/list.c:139-211 | insertion keeps the list in ascending order and puts the item behind all equal ones, portMAX_DELAY included |
| Rings.VisitAt | FreeRtos/kernel/include/list.h:286-301 | the i-th advance of pxIndex meets the i-th item of the list read from the index round |
| Rings.RoundVisitsAll | FreeRtos/kernel/include/list.h:286-301 | advancing the index once round the list visits the items in list order, from the index on and then from the start |
| Rings.RoundIsFair | FreeRtos/kernel/include/list.h:286-301 | one round visits every item exactly once |
| Rings.InsertEndGoesLast | FreeRtos/kernel/list.c:105-136 | an item inserted at the end is visited after every other item, except the one the index is on, which follows it |
| Rings.RotationOfInsertEnd | FreeRtos/kernel/list.c:105-136 | the round after an insertion at the end is the old round with the new item where that claim puts it |
| Rings.RemoveKeepsTurns | FreeRtos/kernel/list.c:215-245 | after an item is removed, the one the index is on included, the others have their turns in the order they had |
| IntrusiveList.List.constructor | FreeRtos/kernel/list.c:49-86 | an empty list: the end marker linked to itself, and the invariant that next and previous are inverse, counts and containers agree |
| IntrusiveList.ListItem.constructor | FreeRtos/kernel/list.c:89-102 | an item that is in no list |
| IntrusiveList.List.InsertEnd | FreeRtos/kernel/list.c:105-136 | the pointer surgery keeps the list well formed and is InsertEnd on the ring of items |
| IntrusiveList.List.Insert | FreeRtos/kernel/list.c:139-211 | the search loop ends, and the pointer surgery is an insertion at the place that keeps the values sorted and stable |
| IntrusiveList.List.Remove | FreeRtos/kernel/list.c:215-245 | the pointer surgery keeps the list well formed, steps the index back if it was on the item, and is RemoveAt on the ring |
| IntrusiveList.List.Advance | FreeRtos/kernel/include/list.h:286-301 | the index moves to the next item, over the end marker |
| IntrusiveList.List.LinkAfter | FreeRtos/kernel/list.c:105-136 | a new item between two neighbours: the next and previous links of the whole ring are inverse again |
| IntrusiveList.LinkedWith | FreeRtos/kernel/list.c:105-136 | links that are right but for a new item make the ring with that item |
| IntrusiveList.LinkedWithout | FreeRtos/kernel/list.c:215-245 | links that pass over an item make the ring without it |
| IntrusiveList.WithIsInsertAt | FreeRtos/kernel/list.c:105-136 | the order of the nodes with a new one is the ring with the item inserted |
| IntrusiveList.WithoutIsRemoveAt | FreeRtos/kernel/list.c:215-245 | the order of the nodes without one is the ring with the item removed |
| Scheduling.TickKeepsCore | FreeRtos/kernel/tasks.c:4670-4805 | a tick keeps every task in exactly one list, ready tasks in the list of their priority, both delayed lists sorted and xNextTaskUnblockTime not above any value of the current one |
| Scheduling.NoSleeperAtWrap | FreeRtos/kernel/tasks.c:248-260 | the current delayed list is empty when the tick count is about to wrap, so the assertion in taskSWITCH_DELAYED_LISTS holds |
| Scheduling.TickIsExact | FreeRtos/kernel/tasks.c:4670-4805 | a tick readies a sleeper exactly when it brings the unbounded clock to its wake time |
| Scheduling.LoopIsExact | FreeRtos/kernel/tasks.c:4714-4805 | the unblocking loop, entered or skipped by xNextTaskUnblockTime, readies exactly the sleepers of the current delayed list whose value has been reached and leaves the others on it |
| Scheduling.BlockKeepsInv | FreeRtos/kernel/tasks.c:8415-8491 | blocking keeps the whole invariant |
| Scheduling.BlockSetsDue | FreeRtos/kernel/tasks.c:8415-8491 | a task that blocks for n ticks sleeps until the unbounded clock has advanced by n, whichever delayed list that is |
| Scheduling.BlockKeepsSleeper | FreeRtos/kernel/tasks.c:8415-8491 | a task that blocks does not disturb the wake time of another |
| Scheduling.EventWakeKeepsCore | FreeRtos/kernel/tasks.c:5341-5392 | readying a task on an event, or holding it back while the scheduler is suspended, keeps the invariant; NotifyEffect says what it does |
| Scheduling.MovePendingKeepsCore | FreeRtos/kernel/tasks.c:3985-4032 | the loop over the pending ready list keeps the invariant |
| Scheduling.CatchUpIsExact | FreeRtos/kernel/tasks.c:4042-4070 | however many pended ticks are caught up at once, a sleeper wakes in the one that is its time |
| Scheduling.ResumeKeepsInv | FreeRtos/kernel/tasks.c:3956-4103 | resuming keeps the invariant and unreadies nobody |
| Scheduling.ResumeLosesNothing | FreeRtos/kernel/tasks.c:3956-4103 | resuming conserves clock plus pended ticks; after the outermost resume both pended ticks and pending tasks are gone, and every task that was pending is ready and blocked nowhere |
| Scheduling.TopReady | FreeRtos/kernel/tasks.c:167-193 | the downward search ends at the highest non-empty ready list, because the idle task is ready and uxTopReadyPriority bounds them all |
| Scheduling.SwitchedIsPlaced | FreeRtos/kernel/tasks.c:5056-5139 | the task selected is ready and no ready task has a higher priority; nobody changes list |
| Scheduling.SwitchKeepsCore | FreeRtos/kernel/tasks.c:5056-5139 | a context switch keeps the invariant and the set of ready tasks |
| Scheduling.ReprioritiseKeepsCore | FreeRtos/kernel/tasks.c:6610-6626 | a task whose priority changes, by inheritance or by vTaskPrioritySet, moves to its new ready list if it is ready; the invariant and the set of ready tasks stay |
| SchedulerRuns.Step | FreeRtos/kernel/tasks.c:3811-5431 | every interrupt and kernel call, changes of priority included, keeps the invariant |
| SchedulerRuns.Run | FreeRtos/kernel/tasks.c:3811-5431 | every run of interrupts and kernel calls keeps the invariant |
| SchedulerRuns.StartedIsInv | FreeRtos/kernel/tasks.c:3665-3750 | the scheduler starts, with any tasks of any priorities created, in a state that meets the invariant, and all of them are ready |
| SchedulerRuns.CreatedKeepsInv | FreeRtos/kernel/tasks.c:2019-2080 | a task created before the scheduler runs keeps the invariant, is ready, and leaves everybody ready |
| SchedulerRuns.StartsWithHighest | FreeRtos/kernel/tasks.c:2046-2060 | the first task to run is ready and no task has a higher priority |
| SchedulerRuns.RunCountsTicks | FreeRtos/kernel/tasks.c:4905-4907 | over every run, nested suspensions included, xTickCount plus xPendedTicks is the number of tick interrupts modulo 2^32 |
| SchedulerRuns.StepIsExact | FreeRtos/kernel/tasks.c:4670-4805 | one step leaves a sleeper asleep or, exactly if it brings the clock to its wake time, readies it |
| SchedulerRuns.SleepsThrough | FreeRtos/kernel/tasks.c:4670-4805 | a sleeper that no event wakes sleeps through every run that ends before its time |
| SchedulerRuns.DelayIsExact | FreeRtos/kernel/tasks.c:8415-8491 | a task that blocks for n ticks, 1 <= n < 2^32, and is not woken otherwise is ready after a step if and only if the clock has advanced by n, over any run, with any changes of priority and any number of wraps |
| SchedulerRuns.DelayComesUp | FreeRtos/kernel/tasks.c:3665-3750 | from every start with a task above the idle task, the first task to run may delay by any number of ticks at once |
| SchedulerRuns.ZeroDelayBreaksSwitch | FreeRtos/kernel/tasks.c:8415-8491 | a block time of zero at the last tick before the wrap would leave a task on the list that must be empty |
| SchedulerTurns.TurnsAreVisits | FreeRtos/kernel/tasks.c:167-193 | consecutive switches run the tasks of the highest ready list in ring order |
| SchedulerTurns.SwitchingIsFair | FreeRtos/kernel/tasks.c:167-193 | as many consecutive switches as there are ready tasks of the highest priority run each of them exactly once |
| SchedulerTurns.NewcomersRunLast | FreeRtos/kernel/tasks.c:268-274 | tasks that a tick, an event or a resume readies at the highest priority run after all the others of that priority, except the one the index is on, which follows them |
| SchedulerTurns.NewcomersGoLast | FreeRtos/kernel/list.c:105-136 | a round of a ring that any number of items have joined is the old round with the newcomers, in the order they came, before the item the index is on |
| SchedulerEffects.TickEffect | FreeRtos/kernel/tasks.c:4670-4805 | after a tick the clock is one on, the ready tasks are those there were and exactly the sleepers whose time has come, everybody else sleeps on with the same wake time, and those woken wait for no event any more |
| SchedulerEffects.TickAnswer | FreeRtos/kernel/tasks.c:4670-4920 | the tick asks for a switch if and only if one is pending, or a task has become ready that is above the running one, or the running task shares its priority with another ready task |
| SchedulerEffects.UnblocksHigherIs | FreeRtos/kernel/tasks.c:4776-4800 | the unblocking loop reports a switch if and only if one of the tasks it readies is above the running one |
| SchedulerEffects.QuietTick | FreeRtos/kernel/tasks.c:4670-4920 | after a tick that asks for no switch the running task is still a highest one |
| SchedulerEffects.OneWakeTime | FreeRtos/kernel/tasks.c:8415-8491 | a sleeper has one wake time, and it is to come |
| SchedulerEffects.CatchUpEffect | FreeRtos/kernel/tasks.c:4042-4070 | n pended ticks caught up have the effect of n ticks: exactly the sleepers due by then are ready, and a switch is pending if and only if one was, one of them is above the running task, or the running task shares its priority |
| SchedulerEffects.ResumeEffect | FreeRtos/kernel/tasks.c:3956-4103 | after the outermost resume exactly the tasks held back and the sleepers due by then have become ready, the clock is on by the pended ticks, and a switch is pending if and only if one was, one of those is above the running task, or ticks were missed and the running task shares its priority |
| SchedulerEffects.NotifyEffect | FreeRtos/kernel/tasks.c:5341-5410 | a task taken off its event list is ready if the scheduler runs and last in the pending list if it is suspended, waits for the event no more, and a switch is asked for if and only if it is above the running task; nobody else is touched |
| SchedulerEffects.BlockEffect | FreeRtos/kernel/tasks.c:8415-8491 | a task that blocks is not ready; it sleeps until the clock has advanced by the ticks given, or is blocked for ever if and only if that is portMAX_DELAY and may mean so; nobody else is touched |
| SchedulerEffects.SwitchEffect | FreeRtos/kernel/tasks.c:5056-5139 | a switch runs a ready task that no ready task is above, or is only remembered while the scheduler is suspended |
| SchedulerLaws.SuspensionsNest | FreeRtos/kernel/tasks.c:3811-3832 | over every run, uxSchedulerSuspended is the suspensions begun less those ended |
| SchedulerLaws.SuspendedRunsOn | FreeRtos/kernel/tasks.c:5056-5066 | over every run during which the scheduler is suspended, the same task runs |
| SchedulerLaws.HeldBackStays | FreeRtos/kernel/tasks.c:5341-5392 | a task held back stays on the pending ready list over every run during which the scheduler is suspended |
| SchedulerLaws.WokenIsReady | FreeRtos/kernel/tasks.c:5341-5392 | a task that an event wakes is ready at once if the scheduler runs, and otherwise ready after the resume that ends the suspension, whatever happens in between |
| SchedulerLaws.BlockedForGood | FreeRtos/kernel/tasks.c:8440-8451 | a task blocked without a time out is not ready after any run in which no event wakes it |
| SchedulerLaws.IndefiniteDelay | FreeRtos/kernel/tasks.c:8415-8491 | the partner of DelayIsExact: after a block of portMAX_DELAY that means for ever, the task is not ready until an event wakes it, over every run |
| SchedulerLaws.StepStaysFair | FreeRtos/kernel/tasks.c:4670-5431 | every step keeps: a switch is asked for or pending, or no ready task is above the running one |
| SchedulerLaws.RunningIsHighest | FreeRtos/kernel/tasks.c:4670-5431 | from every start and over every run, no ready task is above the running one unless a switch is pending or has been asked for since the last one |
| Kernel.Scheduler.UnblockDue | FreeRtos/kernel/tasks.c:4714-4805 | the unblocking loop, and whether it readied a task above the running one, as UnblocksHigherIs says: in place, the state goes where the specification takes it |
| Kernel.Scheduler.IncrementTickCount | FreeRtos/kernel/tasks.c:4670-4920 | the whole tick interrupt, pended while suspended, and the switch it asks for, as TickEffect and TickAnswer say: in place, the state goes where the specification takes it |
| Kernel.Scheduler.ReadyPending | FreeRtos/kernel/tasks.c:3985-4032 | the loop over the pending ready list: in place, the state goes where the specification takes it |
| Kernel.Scheduler.ProcessPendedTicks | FreeRtos/kernel/tasks.c:4042-4070 | the loop over the pended ticks: in place, the state goes where the specification takes it |
| Kernel.Scheduler.ResumeAll | FreeRtos/kernel/tasks.c:3956-4103 | the whole of xTaskResumeAll: in place, the state goes where the specification takes it |
| Kernel.Scheduler.SwitchTask | FreeRtos/kernel/tasks.c:5056-5139 | the search for the highest ready list and the choice of its next task: in place, the state goes where the specification takes it |
| Mutexes.RetuneKeepsInv | FreeRtos/kernel/tasks.c:6595-6640 | changing a task's priorities keeps the whole invariant as long as it stays at or above its base, and at it if it holds nothing; no task changes between ready and not ready |
| Mutexes.InheritKeepsInv | FreeRtos/kernel/tasks.c:6580-6676 | inheriting keeps the invariant and leaves the holder at or above the priority of the task that asks |
| Mutexes.AfterTimeoutKeepsInv | FreeRtos/kernel/tasks.c:6777-6890 | falling back after a time out keeps the invariant; a holder of one mutex ends at the greater of its base and the highest waiter |
| Mutexes.PrioritySetKeepsInv | FreeRtos/kernel/tasks.c:2765-2972 | vTaskPrioritySet keeps the invariant and sets the base priority |
| Mutexes.TakeKeepsInv | FreeRtos/kernel/queue.c:1689-1734 | taking a free mutex keeps the invariant, so the held count stays exact |
| Mutexes.ReleaseKeepsInv | FreeRtos/kernel/tasks.c:6683-6770 | giving back a mutex keeps the invariant: the count goes down, and the last one restores the base priority |
| Mutexes.HolderHolds | FreeRtos/kernel/tasks.c:6696-6698 | the holder of a mutex has a positive held count, so the assertions on uxMutexesHeld hold |
| Mutexes.UnwaitKeepsInv | FreeRtos/kernel/tasks.c:5341-5392 | waking a waiter, or timing one out, keeps the invariant |
| Mutexes.GiveKeepsInv | FreeRtos/kernel/queue.c:2390-2417 | giving a mutex and waking the first waiter keeps the invariant; GiveEffect says what it does |
| Mutexes.WaitKeepsInv | FreeRtos/kernel/tasks.c:5243-5269 | placing the running task on the waiting list keeps the invariant |
| Mutexes.BlockOnKeepsInv | FreeRtos/kernel/queue.c:1778-1800 | blocking on a held mutex keeps the invariant and lifts the holder to the caller |
| Mutexes.GiveUpKeepsInv | FreeRtos/kernel/queue.c:1819-1867 | giving up after a time out keeps the invariant, also if the mutex has been given back in the meantime and the holder is NULL |
| Mutexes.HighestWaiting | FreeRtos/kernel/queue.c:2364-2387 | the priority read back from the head of the waiting list is a priority |
| Mutexes.ResetKeepsInv | FreeRtos/kernel/tasks.c:7569-7584 | resetting the event list item keeps the invariant |
| MutexRuns.Step | FreeRtos/kernel/queue.c:1652-1874 | every take, block, time out, give, priority change and switch keeps the invariant |
| MutexRuns.RunsKeepPriorities | FreeRtos/kernel/tasks.c:6580-6890 | after every run uxMutexesHeld is the number of mutexes held, nobody is below base priority, a task that holds nothing is at it, and a ready task is in the ready list of its uxPriority and no other |
| MutexRuns.StartKeepsInv | FreeRtos/kernel/tasks.c:3665-3750 | a system in which no mutex is held meets the invariant |
| OwnMutex.OwnMutexTripsAssert | FreeRtos/kernel/tasks.c:6814-6817 | the assertion pxTCB != pxCurrentTCB is not a theorem: after a task has blocked on a mutex it holds, some run of the others ends with the assertion failing in it if and only if the task holds no other mutex and runs above its base priority |
| OwnMutex.OthersKeepCalls | FreeRtos/kernel/queue.c:1778-1867 | over every run in which a task that waits for its own mutex takes no step itself, it stays the holder, and its held count and its call stay as they are |
| OwnMutex.ThenTrips | FreeRtos/kernel/tasks.c:6814-6817 | the run that trips it: all who wait time out; every switch of it takes up a highest ready task if nobody ready or waiting is above the holder |
| OwnMutex.UndisturbedTrips | FreeRtos/kernel/tasks.c:6814-6817 | if nothing else happens between the block and the time out, it fails if and only if, besides, the first waiter is not at the priority of the holder |
| OwnMutex.OwnMutexIsReachable | FreeRtos/kernel/tasks.c:6814-6817 | a run in which every switch takes up a ready task of the highest priority leads to the failing assertion from every state in which the running task is above the next one, which holds no mutex, and the mutex is free |
| OwnMutex.StartIsPoised | FreeRtos/kernel/tasks.c:2046-2060 | the system can start in such a state: no mutex held, all tasks ready and at their base priority, the highest one running |
| MutexEffects.AcquireEffect | FreeRtos/kernel/queue.c:1689-1734 | a free mutex taken: the caller holds it and one more, and nothing else changes |
| MutexEffects.AwaitEffect | FreeRtos/kernel/queue.c:1778-1800 | a call that blocks: a holder below the caller gets its priority and keeps its base, any other is left alone, the caller joins the waiters behind all whose item is not greater and is not ready; nothing else changes, and the call has inherited if and only if the holder's base priority is below the caller's |
| MutexEffects.TimeOutEffect | FreeRtos/kernel/tasks.c:4755-4771 | a waiter whose time is over is ready and off the list; nothing else changes |
| MutexEffects.ReleaseEffect | FreeRtos/kernel/tasks.c:6683-6770 | giving back: the count goes down by one; the priority goes back to the base with the last mutex and only then, and the event list item with it; nobody else is touched |
| MutexEffects.GiveEffect | FreeRtos/kernel/queue.c:1033-1067 | giving: the mutex is free, exactly the first who waits, if any, becomes ready and leaves the list, and the giver is as ReleaseEffect says |
| MutexEffects.AbandonEffect | FreeRtos/kernel/queue.c:1819-1867 | giving up: the holder falls back to the greater of its base and what is read off the first waiter if and only if the call had inherited and the holder holds just this mutex; nothing else changes |
| MutexEffects.SetPriorityEffect | FreeRtos/kernel/tasks.c:2765-2972 | vTaskPrioritySet: the base is the new one; a task at its base gets it, one that has inherited keeps the greater of the two; nobody else is touched |
| MutexEffects.ResetEffect | FreeRtos/kernel/tasks.c:7569-7584 | the event list item is that of the priority again; nothing else changes |
| MutexEffects.HighestWaitingIs | FreeRtos/kernel/queue.c:2364-2387 | what is read off the first item is the highest priority of all who wait, if the items are in order and are those of the priorities |
| MutexEffects.LateChangeIsSeen | FreeRtos/kernel/queue.c:2364-2387 | after vTaskPrioritySet on any task it still is if and only if that task does not wait here or keeps its base, or is not the first and does not rise above the first, or is the first and gets just the new priority, which no other waiter is above |
| MutexEffects.LateChangeIsNotSeen | FreeRtos/kernel/queue.c:2364-2387 | a waiter other than the first that is set above the first is not seen |
| MutexSwitches.SetPriorityIsFair | FreeRtos/kernel/tasks.c:2765-2972 | vTaskPrioritySet asks for a switch whenever a ready task would otherwise be above the running one |
| MutexSwitches.GiveMissesSwitch | FreeRtos/kernel/queue.c:1033-1067 | giving a mutex asks for no switch although a ready task is then above the giver if and only if a task waits for it, the giver disinherits, the task woken is not above the giver's base priority, and another ready task is |
| MutexSwitches.TwoGivesMissSwitch | FreeRtos/kernel/tasks.c:6735-6743 | the corner case the comment describes, with a task waiting for the last mutex as well: neither give asks for a switch, and a task above the giver is left ready |
| MutexSwitches.MissedSwitchIsReachable | FreeRtos/kernel/tasks.c:6735-6743 | a run in which every switch takes up a highest ready task leads there from a start with no mutex held |
| MutexKernel.Tasks.PriorityInherit | FreeRtos/kernel/tasks.c:6580-6676 | in place, the state and the result of the inheritance specification |
| MutexKernel.Tasks.PrioritySet | FreeRtos/kernel/tasks.c:2765-2972 | in place, the state and the switch request of the specification |
| MutexKernel.Tasks.PriorityDisinherit | FreeRtos/kernel/tasks.c:6683-6770 | both assertions hold if and only if there is no holder or it is the running task with a positive count; then, in place, the count goes down and the last mutex restores the base priority, which asks for a switch; otherwise nothing changes |
| MutexKernel.Tasks.PriorityDisinheritAfterTimeout | FreeRtos/kernel/tasks.c:6777-6890 | both assertions hold if and only if there is no holder, or it has a positive count and is not a running task that falls back; then, in place, the fall-back; otherwise nothing changes |
| MutexKernel.Tasks.ReleaseMutex | FreeRtos/kernel/queue.c:2390-2417 | the assertion holds if and only if the giver is the holder; then, in place, the mutex is free and the holder disinherits, and a switch is asked for if and only if its priority changes |
| MutexKernel.Tasks.GiveMutex | FreeRtos/kernel/queue.c:962-1067 | a free mutex is refused; one held by another task trips the assertion; one held by the giver is given: the state takes a step of the mutex machine, and the switch asked for is that of the task woken or, if nobody waits, that of the disinheritance |
| MutexKernel.Tasks.Acquire | FreeRtos/kernel/queue.c:1680-1800 | the mutex is taken, or the holder inherits and the task blocks, exactly as it is free or not: the state takes a step of the mutex machine |
| MutexKernel.Tasks.AbandonTake | FreeRtos/kernel/queue.c:1819-1867 | a take that timed out gives up, a step of the mutex machine, if and only if that step is enabled, freed mutex and own mutex included; otherwise the assertion fails and nothing changes |
| MutexKernel.RequeuedIsRetuned | FreeRtos/kernel/tasks.c:6595-6640 | what the three in-place functions do to a control block and the ready lists is one specification |
| QueueLocks.NotifyCovers | FreeRtos/kernel/queue.c:277-300 | a unit added by an interrupt is covered by the wake-up made or owed with it, also when the count stops at the number of tasks |
| QueueLocks.DrainCovers | FreeRtos/kernel/queue.c:2494-2611 | unlocking pays back every wake-up owed or leaves nobody waiting |
| QueueLocks.DrainWakesInOrder | FreeRtos/kernel/queue.c:2494-2611 | unlocking wakes exactly min(owed, waiting) tasks, in list order |
| QueueLocks.EnqueueSound | FreeRtos/kernel/tasks.c:5243-5269 | a task placed anywhere on the list is on it once |
| QueueRuns.SendFromIsrKeepsInv | FreeRtos/kernel/queue.c:1157-1326 | an interrupt that sends, in any phase of any task's call, loses no wake-up |
| QueueRuns.ReceiveFromIsrKeepsInv | FreeRtos/kernel/queue.c:2035-2132 | an interrupt that receives loses no wake-up |
| QueueRuns.RoomToCount | FreeRtos/kernel/queue.c:277-300 | the tasks waiting and the one about to wait are all different, so a count that has reached the number of tasks covers them |
| QueueRuns.TrySendKeepsInv | FreeRtos/kernel/queue.c:967-1095 | the first critical section of a send, successful or refused, by a woken task or another, loses no wake-up |
| QueueRuns.ReceiveUnits | FreeRtos/kernel/queue.c:1528-1577 | an item taken by a woken task is an item less to wake for; a peek passes the wake-up on |
| QueueRuns.TryReceiveKeepsInv | FreeRtos/kernel/queue.c:1528-1593 | the first critical section of a receive or a peek loses no wake-up |
| QueueRuns.SuspendKeepsInv | FreeRtos/kernel/queue.c:258-270 | locking loses no wake-up |
| QueueRuns.CheckTimeKeepsInv | FreeRtos/kernel/queue.c:1601-1602 | the time-out check, either way |
| QueueRuns.CheckLevelKeepsInv | FreeRtos/kernel/queue.c:2614-2680 | after the level check one more task is about to wait, and is covered |
| QueueRuns.PlaceKeepsInv | FreeRtos/kernel/queue.c:1606-1610 | a task that joins the list after it saw the queue empty (or full) is covered, whatever interrupts did in between; PlaceEffect says that it joins |
| QueueRuns.UnlockTxKeepsInv | FreeRtos/kernel/queue.c:2502-2580 | the first half of unlocking |
| QueueRuns.UnlockRxKeepsInv | FreeRtos/kernel/queue.c:2583-2610 | the second half of unlocking |
| QueueRuns.ExpireKeepsInv | FreeRtos/kernel/tasks.c:4755-4771 | a waiter that times out leaves the others covered |
| QueueRuns.Step | FreeRtos/kernel/queue.c:939-2611 | every task and interrupt step keeps the invariant |
| QueueRuns.NoLostWakeUp | FreeRtos/kernel/queue.c:939-2611 | after every interleaving, if receivers wait then the items do not outnumber the receivers woken and not yet re-run plus the wake-ups owed, or those owed cover all waiters; likewise senders and free slots |
| QueueRuns.QuiescentQueue | FreeRtos/kernel/queue.c:939-2611 | an unlocked queue whose woken tasks have all re-run never has both items and waiting receivers, nor free slots and waiting senders; the items do not outnumber the slots unless they are of size 0 |
| QueueRuns.LocksFitInt8 | FreeRtos/kernel/queue.c:277-300 | with at most 127 tasks the lock counters stay in int8_t and the assertion in prvIncrementQueueTxLock and prvIncrementQueueRxLock never fails |
| QueueEffects.CallsGoOn | FreeRtos/kernel/queue.c:939-2611 | every step moves the call of the task that takes it to the next point of the source, by the branch the state calls for, and no other call |
| QueueEffects.RunCountsItems | FreeRtos/kernel/queue.c:939-2611 | over every run, uxMessagesWaiting is what it was plus the items put in less those taken out, and the length never changes |
| QueueEffects.PlaceEffect | FreeRtos/kernel/queue.c:1606-1610 | the task joins the waiting list of its own side, once, at the place given, and nothing else changes |
| QueueEffects.LevelEffect | FreeRtos/kernel/queue.c:2614-2680 | a call goes on to wait if and only if the queue is empty, for a receiver, or its count is the length, for a sender |
| QueueEffects.TimeUpEffect | FreeRtos/kernel/queue.c:1601-1602 | a waiter whose time is over is off the list, the others keep their order, and nothing else changes |
| QueueEffects.BlockedCallWaits | FreeRtos/kernel/queue.c:1606-1630 | a call that goes on to wait is about to join the list, or on it, or taken off it by a wake-up, over every run until it tries again or times out |
| QueueEffects.WaitingTakesNoStep | FreeRtos/kernel/queue.c:1606-1630 | on the list, and with the queue unlocked, it takes no step |
| QueueEffects.CallBlocks | FreeRtos/kernel/queue.c:1528-1630 | a call on an empty (or full) queue, with a block time and undisturbed, ends up on the waiting list at the place its priority calls for, with everything else as it was |
| QueueEffects.TryWakes | FreeRtos/kernel/queue.c:967-1577 | a call that sends or takes an item wakes the first who waits for it or for the slot, a peek the first who waits for the item, a refused one nobody |
| QueueEffects.IsrWakes | FreeRtos/kernel/queue.c:1157-2132 | an interrupt that sends or takes an item wakes the first who waits on the other side if that is unlocked, and otherwise counts one more wake-up owed, up to the number of tasks; a refused one changes nothing |
| QueueEffects.LocksEffect | FreeRtos/kernel/queue.c:2494-2611 | locking starts both counts; unlocking wakes, one side after the other, as many as are owed or all who wait, in list order |
| QueueEffects.OthersWakeNobody | FreeRtos/kernel/queue.c:939-2611 | the other steps of a call leave both lists, both locks and everybody on them alone |
| QueueKernel.Queue.SendFromIsr | FreeRtos/kernel/queue.c:1157-1326 | in place, refused when full, otherwise an item and its wake-up or count; an item of size 0 is counted even if it overwrites |
| QueueKernel.Queue.ReceiveFromIsr | FreeRtos/kernel/queue.c:2035-2132 | in place, refused when empty, otherwise a free slot and its wake-up or count |
| QueueKernel.Queue.UnlockReceivers | FreeRtos/kernel/queue.c:2502-2580 | the loop with its early exit pays back exactly what the specification says |
| QueueKernel.Queue.UnlockSenders | FreeRtos/kernel/queue.c:2583-2610 | the loop with its early exit pays back exactly what the specification says |
| QueueKernel.Queue.constructor | FreeRtos/kernel/queue.c:318-325 | an unlocked empty queue |
| QueueRing.BackExtends | FreeRtos/kernel/queue.c:2418-2431 | filling the slot behind the window appends to the contents |
| QueueRing.FrontExtends | FreeRtos/kernel/queue.c:2432-2444 | filling the read slot and stepping back prepends to the contents |
| QueueRing.ReadShrinks | FreeRtos/kernel/queue.c:2473-2491 | stepping the read slot forward drops the first item, which is the one in the new read slot |
| QueueRing.WriteSlotFollows | FreeRtos/kernel/queue.c:2390-2491 | write slot = (read slot + 1 + count) mod length survives sending back, sending front and receiving |
| QueueRing.StepForward | FreeRtos/kernel/queue.c:2421-2426 | the pointer comparison with pcTail is a step modulo the length |
| QueueRing.StepBack | FreeRtos/kernel/queue.c:2435-2440 | the pointer comparison with pcHead is a step back modulo the length |
| QueueRing.Queue.Store | FreeRtos/kernel/queue.c:2420-2420 | copying one item changes one slot and no other |
| QueueRing.Queue.constructor | FreeRtos/kernel/queue.c:303-325 | a new queue is empty |
| QueueRing.Queue.Reset | FreeRtos/kernel/queue.c:303-325 | a reset queue is empty |
| QueueRing.Queue.CopyToBack | FreeRtos/kernel/queue.c:2418-2431 | the contents grow by the item at the back |
| QueueRing.Queue.CopyToFront | FreeRtos/kernel/queue.c:2432-2467 | the contents grow by the item in front, or become it when it overwrites |
| QueueRing.Queue.CountIn | FreeRtos/kernel/queue.c:2401-2417 | an item of size 0 is only counted, which adds it at either end |
| QueueRing.Queue.CopyFrom | FreeRtos/kernel/queue.c:2473-2491 | the slot after the read slot is copied out; nothing is for items of size 0 |
| QueueRing.Queue.Send | FreeRtos/kernel/queue.c:962-1071 | a bounded double-ended queue: refused exactly when full and not overwriting, otherwise the item at the end asked for; the count stays within the length if and only if the call does not overwrite a full queue of items of size 0 |
| QueueRing.Queue.Receive | FreeRtos/kernel/queue.c:1530-1540 | the oldest item, or nothing exactly when empty |
| QueueRing.Queue.Peek | FreeRtos/kernel/queue.c:1906-1921 | the oldest item, with the contents unchanged |
| Timers.DecideIsExact | FreeRtos/kernel/timers.c:894-935 | for true command time C and true now N with 0 <= N - C < 2^32 and period p in 1..2^32-1: process now iff C + p <= N, current list iff C + p is in the epoch of N, overflow list iff it is in the next |
| Timers.StaleCommands | FreeRtos/kernel/timers.c:894-935 | for every true C <= N the decision is right if and only if N - C < 2^32 or (N - C) mod 2^32 is at least the period |
| Timers.StaleCommandMisplaced | FreeRtos/kernel/timers.c:894-935 | a start of 5 ticks processed 2^32 ticks late is listed although its period is over |
| Timers.InsertStaysInEpoch | FreeRtos/kernel/timers.c:894-935 | insertion keeps a timer list sorted by expiry and within its epoch |
| Timers.FirstIsEarliest | FreeRtos/kernel/timers.c:844-868 | some timer of the current list has expired iff the first has, and the 32-bit comparison tells |
| Timers.WrapIsSeen | FreeRtos/kernel/timers.c:871-891 | with samples less than 2^32 ticks apart, the count is less than it was iff it has wrapped once |
| Timers.DrainsAtEndOfEpoch | FreeRtos/kernel/timers.c:1086-1108 | a timer processed at the last tick of its epoch leaves the current list for good |
| Timers.DrainedIsSwitched | FreeRtos/kernel/timers.c:1086-1108 | once a current list has been processed at the end of its epoch and the lists are exchanged, each of its timers has had its callbacks and is listed for its first expiry in the next epoch if it reloads; the others have only changed list |
| Timers.PauseIsRight | FreeRtos/kernel/timers.c:795-826 | the 32-bit difference is the true time to the first expiry, or to the next epoch; it is never 0, because a timer is never listed for more than a period ahead |
| TimerRuns.Serve | FreeRtos/kernel/timers.c:748-779 | over any samples, expiries, epochs and commands on other timers, a reloading timer started at C stays in phase; whenever the daemon has caught up to N it has been called back (N - C) / period times |
| TimerRuns.StartAndServe | FreeRtos/kernel/timers.c:748-779 | the same from the start command on, however late it is processed within 2^32 ticks |
| TimerRuns.PhaseCounts | FreeRtos/kernel/timers.c:699-745 | in phase and caught up means one callback for every whole period since the start |
| TimerRuns.PhasePasses | FreeRtos/kernel/timers.c:871-891 | a sample of the time, with a list switch or without, keeps a timer in phase |
| TimerRuns.PhaseFires | FreeRtos/kernel/timers.c:718-745 | processing the first timer, whichever it is, keeps every timer in phase |
| Timers.Daemon.constructor | FreeRtos/kernel/timers.c:1111-1160 | no timer started, both lists empty |
| Timers.Daemon.InsertInActiveList | FreeRtos/kernel/timers.c:894-935 | reports process now iff C + p <= N, otherwise lists the timer for C + p in the list of its epoch; others keep their place |
| Timers.Daemon.ReloadTimer | FreeRtos/kernel/timers.c:699-715 | calls back exactly floor((now - expired) / period) times, keeps the phase and ends strictly after now |
| Timers.Daemon.ProcessExpiredTimer | FreeRtos/kernel/timers.c:718-745 | one-shot: one callback and off the lists; reloading: one callback for every expiry up to now, and the next expiry in phase; nothing else changes |
| Timers.Daemon.SwitchTimerLists | FreeRtos/kernel/timers.c:1086-1108 | ends, because what is reloaded goes to the overflow list; every timer of the old epoch is called back exactly as often as it expired; the overflow list becomes current |
| Timers.Daemon.SampleTimeNow | FreeRtos/kernel/timers.c:871-891 | switches the lists iff the true time has entered the next epoch; otherwise nothing changes, and if it does every timer of the old current list is called back as often as it expired and every other timer is left alone |
| Timers.Daemon.ProcessTimerOrBlock | FreeRtos/kernel/timers.c:782-841 | without a switch, fires the first timer iff some timer of the current list has expired, and then processes that timer only; with a switch, fires none and leaves every timer as the switch should; otherwise it blocks, for ever if and only if no timer is listed, and else for at least a tick, until the first expiry or, if there is none in this epoch, the start of the next, before any timer is due |
| Timers.Daemon.Detach | FreeRtos/kernel/timers.c:975-995 | every command first takes its timer off any list and samples the time, without calling that timer back; every other timer is left alone, or goes through the list switch |
| Timers.Daemon.StartTimer | FreeRtos/kernel/timers.c:999-1028 | start or reset: listed for C + p if that is to come, otherwise called back once for every period gone by; every other timer keeps its list, expiry and callbacks |
| Timers.Daemon.Fire | FreeRtos/kernel/timers.c:718-745 | an expiry at E processed at N: the callbacks it is worth, and a reloading timer listed for its first expiry after N, not more than a period ahead |
| Timers.Daemon.ProcessCommand | FreeRtos/kernel/timers.c:938-1083 | after every command a timer is flagged active iff it is on a list, the current list holds expiries of the sampled epoch and the overflow list of the next; the due time and the callbacks are those of the command; every other timer is left alone, or goes through the list switch if the time has entered the next epoch |
| StreamBuffer.BytesIn | FreeRtos/kernel/stream_buffer.c:1566-1584 | the count of bytes is the distance from xTail to xHead in the ring |
| StreamBuffer.Spaces | FreeRtos/kernel/stream_buffer.c:754-788 | space plus bytes is always one less than the length |
| StreamBuffer.WriteExtends | FreeRtos/kernel/stream_buffer.c:1476-1519 | what is written behind the bytes in the ring extends them |
| StreamBuffer.WriteSpares | FreeRtos/kernel/stream_buffer.c:1476-1519 | what is written into the free space leaves the bytes in the ring alone |
| StreamBuffer.StoredAppends | FreeRtos/kernel/stream_buffer.c:1000-1050 | a message sent is stored behind the messages before it |
| StreamBuffer.FirstMessage | FreeRtos/kernel/stream_buffer.c:1276-1328 | the first bytes stored give back the length and the bytes of the first message; the rest stores the other messages |
| Bytes.LittleEndianRoundTrip | FreeRtos/kernel/stream_buffer.c:1000-1050 | a message length survives being stored and read back |
| StreamBuffer.Buffer.WriteBytes | FreeRtos/kernel/stream_buffer.c:1476-1519 | both copies together write the data into the ring and touch nothing else |
| StreamBuffer.Buffer.ReadBytes | FreeRtos/kernel/stream_buffer.c:1522-1563 | both copies together read the ring |
| StreamBuffer.Buffer.WriteStream | FreeRtos/kernel/stream_buffer.c:1000-1050 | as much of the data as fits is appended |
| StreamBuffer.Buffer.WriteMessage | FreeRtos/kernel/stream_buffer.c:1000-1050 | all of a message or nothing; an empty message leaves no trace; stored bytes are nothing or more than a length |
| StreamBuffer.Buffer.Send | FreeRtos/kernel/stream_buffer.c:943-997 | the stream is extended by what fits, or the messages by the whole message, or nothing changes |
| StreamBuffer.Buffer.ReadStream | FreeRtos/kernel/stream_buffer.c:1276-1328 | the oldest bytes, up to the capacity |
| StreamBuffer.Buffer.ReadMessage | FreeRtos/kernel/stream_buffer.c:1276-1328 | the oldest message whole, or nothing and no change if the capacity is too small |
| StreamBuffer.Buffer.Receive | FreeRtos/kernel/stream_buffer.c:1213-1273 | bytes in order; messages whole and in order |
| StreamBuffer.Buffer.NextMessageLength | FreeRtos/kernel/stream_buffer.c:1169-1210 | the length of the oldest message, or 0, with the assertion proved that a non-empty message buffer stores more than a length |
| StreamBuffer.Buffer.constructor | FreeRtos/kernel/stream_buffer.c:1587-1632 | an empty buffer |
| StreamRuns.CountsFromIndices | FreeRtos/kernel/stream_buffer.c:754-788 | the index arithmetic gives the true counts, less than a lap apart |
| StreamRuns.CompareKeepsInv | FreeRtos/kernel/stream_buffer.c:764-772 | space measured from an old xTail is not more than the space there is |
| StreamRuns.WritesSpareUnread | FreeRtos/kernel/stream_buffer.c:1476-1519 | a byte being written is in none of the places of unread bytes |
| StreamRuns.CopyInKeepsInv | FreeRtos/kernel/stream_buffer.c:1476-1519 | copying a byte in keeps unread bytes intact |
| StreamRuns.PublishHeadKeepsInv | FreeRtos/kernel/stream_buffer.c:1040-1047 | publishing xHead makes exactly the copied bytes readable |
| StreamRuns.CopyOutKeepsInv | FreeRtos/kernel/stream_buffer.c:1522-1563 | copying a byte out reads the next byte of the stream |
| StreamRuns.PublishTailKeepsInv | FreeRtos/kernel/stream_buffer.c:1318-1325 | publishing xTail frees exactly the bytes copied out |
| StreamRuns.ReaderGetsAPrefix | FreeRtos/kernel/stream_buffer.c:754-1584 | after every interleaving of one writer and one reader, the reader has a prefix of the accepted input and the rest is in the ring, in order |
| MessageRuns.MessagesArriveWhole | FreeRtos/kernel/stream_buffer.c:1000-1328 | after every interleaving of one writer and one reader on a message buffer, at the same granularity, the messages received are the first of those sent, each whole, and the ring holds the others, each behind its length |
| MessageRuns.CompareKeepsInv | FreeRtos/kernel/stream_buffer.c:1000-1035 | all of a message or nothing is written |
| MessageRuns.PublishKeepsInv | FreeRtos/kernel/stream_buffer.c:1036-1047 | a message becomes visible whole; an empty one leaves no trace |
| MessageRuns.CountKeepsInv | FreeRtos/kernel/stream_buffer.c:1240-1252 | more than a length in the buffer means a whole message, however old the count is |
| MessageRuns.ChooseKeepsInv | FreeRtos/kernel/stream_buffer.c:1276-1316 | the length read is that of the next message, and all its bytes are there; one that is too long is left |
| MessageRuns.DeliverKeepsInv | FreeRtos/kernel/stream_buffer.c:1318-1325 | publishing xTail hands over exactly the next message |
| StreamEffects.SendTakesWhatFits | FreeRtos/kernel/stream_buffer.c:943-1050 | whatever the reader does meanwhile, a send that has ended has taken the first bytes of its data, as many as fitted when it was made or more; until then it has taken none |
| StreamEffects.ReceiveGivesWhatIsThere | FreeRtos/kernel/stream_buffer.c:1213-1328 | whatever the writer does meanwhile, a receive that has ended has given just the bytes that were there when it was made, as many as it had room for; until then none |
| StreamEffects.SendEnds | FreeRtos/kernel/stream_buffer.c:754-1519 | a send that is left alone comes to its end from wherever it stands, the loop of xStreamBufferSpacesAvailable included |
| StreamEffects.ReceiveEnds | FreeRtos/kernel/stream_buffer.c:1276-1563 | so does a receive |
| MessageEffects.FittingMessageIsSent | FreeRtos/kernel/stream_buffer.c:943-1050 | whatever the reader does meanwhile, a send that has ended has sent its message or nothing; it has sent it if it is not empty and fitted with its length when the send was made |
| MessageEffects.NextMessageIsReceived | FreeRtos/kernel/stream_buffer.c:1213-1328 | whatever the writer does meanwhile, a receive that has ended has given the next message if and only if there was one when it was made and there is room for it; until then nothing |
| MessageEffects.SendEnds | FreeRtos/kernel/stream_buffer.c:754-1519 | a send of a message that is left alone comes to its end from wherever it stands |
| MessageEffects.ReceiveEnds | FreeRtos/kernel/stream_buffer.c:1276-1563 | so does a receive of a message |
| EventGroups.DecodeUndoesEncode | FreeRtos/kernel/event_groups.c:367-400 | the item value gives back the bits and the options of the call |
| EventGroups.WakeKeepsBits | FreeRtos/kernel/event_groups.c:621-626 | the value handed to a woken task gives back the event bits and says that bits were set |
| EventGroups.MetIs | FreeRtos/kernel/event_groups.c:775-809 | a condition is met if and only if every bit waited for is set, where all are, and some bit waited for is set, where any will do |
| Bits.BitOfUnion | FreeRtos/kernel/event_groups.c:574-574 | the bits set are those of either word |
| Bits.BitOfWithout | FreeRtos/kernel/event_groups.c:491-491 | the bits left are those of the first word that the second does not have |
| EventGroups.MetIsMonotone | FreeRtos/kernel/event_groups.c:775-809 | a condition that is not met is not met by fewer bits |
| EventGroups.ClearedIsUnion | FreeRtos/kernel/event_groups.c:609-637 | a bit is cleared iff a woken task that clears on exit waited for it |
| EventGroups.KeptMembers | FreeRtos/kernel/event_groups.c:577-633 | the tasks that go on waiting are exactly those whose condition is not met |
| EventGroups.Group.constructor | FreeRtos/kernel/event_groups.c:145-180 | no bits, nobody waiting |
| EventGroups.Group.ClearBits | FreeRtos/kernel/event_groups.c:472-501 | the bits are cleared, and still no waiter is satisfied |
| EventGroups.Group.Visit | FreeRtos/kernel/event_groups.c:577-633 | one round of the loop |
| EventGroups.Group.Sweep | FreeRtos/kernel/event_groups.c:577-633 | the loop wakes exactly the satisfied waiters, hands them the bits and collects exactly what they clear |
| EventGroups.Group.SetBits | FreeRtos/kernel/event_groups.c:547-644 | wakes exactly the waiters satisfied by old and new bits, clears exactly the union of what they clear on exit, and leaves no satisfied waiter |
| EventGroups.Group.Block | FreeRtos/kernel/tasks.c:5272-5301 | the task waits, unsatisfied |
| EventGroups.Group.WaitBits | FreeRtos/kernel/event_groups.c:335-404 | returns at once iff the condition is met or no time is given, otherwise waits |
| EventGroups.Group.Sync | FreeRtos/kernel/event_groups.c:205-248 | complete iff old and new bits include all waited for, and then returns them; otherwise waits for all of them; either way the waiters are those left by setting the bits, with what they asked for cleared |
| EventGroups.Group.Expire | FreeRtos/kernel/tasks.c:4755-4771 | a waiter that times out is off the list |
| EventGroups.Group.Finish | FreeRtos/kernel/event_groups.c:406-468 | a call that did not time out returns bits that meet its condition, so a rendezvous returns every bit waited for |
| TimeOut.CheckIsSafe | FreeRtos/kernel/tasks.c:5534-5600 | one check never reports a time out early, never takes off more than has elapsed, and leaves at least a tick to wait |
| TimeOut.CheckIsExact | FreeRtos/kernel/tasks.c:5534-5600 | one check is wrong iff a whole epoch has gone by, the tick count is below where it entered and the remainder is less than the block time |
| TimeOut.FrequentCheckIsExact | FreeRtos/kernel/tasks.c:5534-5600 | less than 2^32 ticks after it entered, a check is exact and what remains is what has not elapsed |
| TimeOut.LateCheckMisses | FreeRtos/kernel/tasks.c:5534-5600 | a check more than an epoch late can miss a time out |
| TimeOut.DelayUntilIsExact | FreeRtos/kernel/tasks.c:2343-2410 | for true previous wake time L <= now N: xTaskDelayUntil blocks until L + increment, for at least a tick, exactly if that is to come, if and only if N - L < 2^32 or (N - L) mod 2^32 is at least the increment |
| TimeOut.NeverEarly | FreeRtos/kernel/tasks.c:5534-5600 | over any sequence of checks in a call, a time out is never reported before the original ticks have elapsed |
| TimeOut.ExactWhenCheckedOften | FreeRtos/kernel/tasks.c:5534-5600 | over checks under 2^32 ticks apart it is reported exactly when they have, and remaining plus elapsed is the block time |
| TimeOut.ForeverIsForever | FreeRtos/kernel/tasks.c:5560-5568 | portMAX_DELAY never times out |
| TimeOut.TimeOutState.constructor | FreeRtos/kernel/tasks.c:5506-5531 | the time on entering is recorded |
| Crc32.ComputeCrc | App/ota/ota_flash.c:137-158 | the nested loop computes the byte-wise fold |
| Crc32.CrcIsByTable | App/ota/ota_flash.c:137-158 | the bit-serial loop equals the update by table of section 8 of RFC 1952 |
| Crc32.FeedIsByTable | App/ota/ota_flash.c:148-155 | eight shifts of a byte are one table step |
| Crc32.StepIsInjective | App/ota/ota_flash.c:150-153 | the register before a shift can be recovered from the register after it |
| Crc32.FeedIsWord | App/ota/ota_flash.c:147-156 | up to four bytes enter the register as one word |
| Crc32.BurstIsDetected | App/ota/ota_flash.c:137-158 | different bursts of up to four bytes between the same bytes never give the same CRC |
| Crc32.NearImagesDiffer | App/ota/ota_flash.c:137-158 | two images of equal length that differ only within four consecutive bytes have different CRCs |
| CrcPolynomials.PolynomialIsGenerator | App/ota/ota_flash.c:151-151 | 0xEDB88320 holds the coefficients of the generator polynomial |
| CrcPolynomials.DivisionStep | App/ota/ota_flash.c:150-153 | one shift of the register is one step of long division |
| CrcPolynomials.MessageEnters | App/ota/ota_flash.c:147-156 | the loop feeds the bits of the message one by one, lowest bit of each byte first |
| CrcPolynomials.CrcIsRemainder | App/ota/ota_flash.c:137-158 | x^32 times the message plus the shifted initial register is a multiple of the generator plus the CRC, its complement undone, which has degree below 32 |
| CrcPolynomials.RemainderIsUnique | App/ota/ota_flash.c:137-158 | no other polynomial of degree below 32 goes with any quotient, of whatever length |
| RingWrites.WrittenTwice | FreeRtos/kernel/stream_buffer.c:1476-1519 | two writes one behind the other into a ring are one write of both, across the wrap |
| OtaFlash.WriteStaysInside | App/ota/ota_flash.c:72-74 | an accepted write stays inside the slot iff offset + len did not wrap |
| OtaFlash.WrappedWriteAccepted | App/ota/ota_flash.c:72-74 | a write whose sum wraps is accepted although it is outside |
| OtaFlash.EraseStaysInside | App/ota/ota_flash.c:34-40 | for every index, with k = index mod 0x100000: it is accepted iff k < 0xA0 or k >= 0xF7F40, and an accepted one is a sector of the slot iff k < 0xA0; among indices that do not wrap, exactly the sectors of the slot are accepted |
| OtaFlash.WrappedEraseAccepted | App/ota/ota_flash.c:34-40 | the first index of the failing family is accepted and lies below the slot |
| OtaFlash.ReadModifyWrite | App/ota/ota_flash.c:79-90 | reading a doubleword, changing some bytes and writing it back copies just those bytes |
| OtaFlash.DoublewordsInside | App/ota/ota_flash.c:79-130 | the doublewords that a write inside the slot touches are inside the slot |
| OtaFlash.Flash.ProgramDoubleword | App/ota/ota_flash.c:18-32 | success means the doubleword reads back as the data; no other cell is touched |
| OtaFlash.Flash.EraseSector | App/ota/ota_flash.c:34-63 | for every index: refused without effect unless the check accepts it; touches only the sector at the address computed; success means its first word reads erased |
| OtaFlash.Flash.WritePart | App/ota/ota_flash.c:79-95 | an unaligned part of a doubleword is copied and its neighbours kept |
| OtaFlash.Flash.WriteHead | App/ota/ota_flash.c:79-100 | the unaligned head |
| OtaFlash.Flash.WriteBody | App/ota/ota_flash.c:102-116 | the loop over aligned doublewords, across the end of the address space too |
| OtaFlash.Flash.WriteRest | App/ota/ota_flash.c:102-135 | the aligned doublewords and the tail |
| OtaFlash.Flash.WriteAll | App/ota/ota_flash.c:79-135 | head, doublewords and tail together copy the data and touch nothing else |
| OtaFlash.Flash.Write | App/ota/ota_flash.c:65-135 | for every offset and length: refused without effect unless the check accepts it; success means that the data stands at the target address, modulo 2^32, and every other byte is unchanged; a write inside the slot touches only doublewords inside the slot, also if it fails |
| OtaFlash.Flash.Crc32Of | App/ota/ota_flash.c:137-158 | the CRC of the bytes at any range of addresses, modulo 2^32 |
| OtaSession.Refusal | App/tcp/ota_server.c:203-219 | a header is refused for its magic or its size, and an accepted one carries the magic and a size from 1 to 640 KB; HeaderRoundTrip and HeaderIsAnnouncement say where it carries them |
| OtaSession.ReadsToTheEnd | App/tcp/ota_server.c:193-236 | a read asks for the rest of the header, or for all up to the end of a sector |
| OtaSession.TurnFollowsBytes | App/tcp/ota_server.c:190-296 | a read of any length takes the session where the bytes take it if and only if it does not take bytes behind an image that fails its check |
| OtaSession.ChunkingDoesNotMatter | App/tcp/ota_server.c:190-296 | for every run, over any number of images: the session is throughout where the bytes alone take it if and only if no read takes bytes behind an image that fails its check |
| OtaSession.SameBytesSameSession | App/tcp/ota_server.c:190-296 | two runs of that kind over the same bytes, split in any way, end in the same session |
| OtaSession.FirstAnswersAlways | App/tcp/ota_server.c:190-296 | for every run and every split, the answers up to and including the one to the first image depend on the bytes alone |
| OtaSession.JudgedForGood | App/tcp/ota_server.c:265-294 | more bytes behind the first image do not change the answers up to its verdict |
| OtaSession.SameVerdict | App/tcp/ota_server.c:190-296 | every run over the start of a stream that has judged the first image has given the answers the whole stream calls for, however far it has read |
| OtaSession.RetryStartsAfresh | App/tcp/ota_server.c:277-285 | after any run that has ended in an answer and not restarted, reads that come later are treated as on a first attempt, behind the answers given |
| OtaSession.ReadAheadSwallowsRetry | App/tcp/ota_server.c:232-236 | a run of the failing kind: the read that completes a failing image takes what follows with it, so the same bytes get two answers or one |
| OtaSession.ReadAheadHappens | App/tcp/ota_server.c:232-236 | bytes of that kind exist |
| OtaClient.HeaderRoundTrip | App/tcp/ota_server.c:203-219 | for all 32-bit sizes and checksums: a header written as magic, size and checksum, little end first, is read as that size and checksum, and is refused if and only if the size is not from 1 to 640 KB |
| OtaClient.HeaderIsAnnouncement | App/tcp/ota_server.c:203-219 | every sixteen bytes with the magic are the header that announces what is read from them; all others are refused as errors |
| OtaClient.BadHeaderIsAnswered | App/tcp/ota_server.c:203-219 | however a header without the magic, or with a size that is not from 1 to 640 KB, falls into reads, it is answered with an error or a size mismatch, and the next header is awaited |
| OtaClient.UploadIsJudged | App/tcp/ota_server.c:190-296 | however an upload falls into reads, once complete it is answered OK, and the device restarts, if and only if the checksum announced is that of the image, and CRC failure otherwise |
| OtaClient.UploadIsAwaited | App/tcp/ota_server.c:190-296 | until it is complete it is not answered |
| OtaServer.Receiver.constructor | App/tcp/ota_server.c:143-151 | a session that has read nothing |
| OtaServer.Receiver.FlushSector | App/tcp/ota_server.c:119-137 | erase and write stay inside the sector; success means the sectors before it and the bytes written are in the slot |
| OtaServer.Receiver.HeaderTurn | App/tcp/ota_server.c:192-229 | the header phase follows the reference session, whose reading of a header is that of HeaderRoundTrip |
| OtaServer.Receiver.StoreChunk | App/tcp/ota_server.c:232-242 | completed sectors followed by the sector buffer are the payload, and received = current_sector * 4096 + sector_buf_pos |
| OtaServer.Receiver.Abandon | App/tcp/ota_server.c:247-250 | an answer, and back to the header |
| OtaServer.Receiver.FlushFull | App/tcp/ota_server.c:245-258 | at most one sector is flushed, inside the slot, and the carry-over copy is never reached |
| OtaServer.Receiver.FlushLast | App/tcp/ota_server.c:267-273 | the rest of the payload goes to the slot |
| OtaServer.Receiver.Finish | App/tcp/ota_server.c:265-295 | OK is answered only if the first total_size bytes of the slot equal those of the payload and their CRC is the header's |
| OtaServer.Receiver.PayloadTurn | App/tcp/ota_server.c:232-295 | the payload phase keeps the invariant, writes only inside the slot, and answers the verdict of the payload unless the flash failed |
| OtaServer.Receiver.Ask | App/tcp/ota_server.c:193-236 | what a read asks for |
| OtaServer.Receiver.Iterate | App/tcp/ota_server.c:190-296 | one turn: inside the slot whatever the flash does, restart only on a slot that holds the payload with the right CRC, and as the reference says if the flash is reliable |
| OtaServer.Receiver.Serve | App/tcp/ota_server.c:190-296 | the loop over any reads: inside the slot whatever the flash does, restart only on a slot that holds the image announced with the CRC announced, and as the reference says if the flash is reliable |

## Left out

- More than one core, core affinity, tickless idle, run-time statistics, trace hooks and text formatting: not configured here, or bookkeeping.
- Task creation and deletion, vTaskSuspend and vTaskResume, xTaskAbortDelay, task notifications: the runs have a fixed set of tasks.
- Queue sets, the queue registry, recursive mutexes, xQueueGenericReset with tasks waiting, and giving a mutex from an interrupt.
- Allocation of queues, timers, tasks and buffers, and freeing a deleted timer.
- Coroutines and the command line interpreter: compiled out, or easier members only.
- The LwIP callbacks and the delivery of bytes from the socket to the stream buffer, where a short send is ignored (App/tcp/ota_server.c:78): the receiver is modelled from the bytes it reads.
- The bytes of a response message: a response is its status.
- The data cache, the unlocking of the flash controller and its status flags.
- Blocking inside xStreamBufferSend and xStreamBufferReceive, trigger levels, batching buffers and the reset of a stream buffer.
- The interleaving of the scheduler's machine with those of mutexes and queues: each is a machine of its own, and what one takes from another (a task blocks, is woken, is selected) is a step with the guarantees the other proves.
- Liveness: that a woken task does run again is a matter of priorities.
- SchedulerRuns.StartedIsInv: takes the idle task to be created before the others, which only matters for the order among tasks of priority 0.
- OtaFlash.Flash.Write: of a write that wraps and fails half way, does not say which doublewords have been touched.
- OtaFlash.Flash.EraseSector: promises only that the first word reads erased, which is all the source checks; a write is read back, so a verdict of OK does not depend on it.
- QueueRuns.Step: takes uxMessagesWaiting as unbounded, where 2^32 overwrites of items of size 0 would wrap it.
- TimerRuns.Serve: does not say when the daemon catches up, which depends on how much it has to call back.
- OwnMutex.OwnMutexTripsAssert: the runs after the block are those of module MutexRuns, where any ready task may be switched to; ThenTrips and OwnMutexIsReachable say what holds of runs that respect priorities.
- TimeOut.NeverEarly: takes the overflow counter as unbounded, where the source has a signed word.
- MutexKernel.Tasks.AbandonTake: where a configASSERT of the source stops the system, the method returns with the state unchanged.
- QueueKernel.Queue.UnlockReceivers: the steps that tasks take are in module QueueRuns only; the class has no state for where a task is in its call.
- Timers.Daemon.ProcessCommand: takes the time a start was issued to be the last one, within 2^32 ticks, at which the tick count was what the command says; StaleCommands says what that means for older ones.
