# Verification of mqmgateway's core in Dafny

mqmgateway connects Modbus networks with an MQTT broker. One worker thread per Modbus network polls
registers and executes commands; the main thread talks to the broker. This project models the parts with
the most state and the most subtle promises, and proves those promises for all inputs and all runs.

- **Channel between threads.** `ReaderWriterQueue`, `QueueRuns`, `QueueOutcomes`, `ZeroSizeQueue`, `BitTricks`: the
  single-producer/single-consumer block ring as two program counters over single loads and stores.
  `Semaphore`, `BlockingQueue`: the semaphore with its restore loop, and both together.
- **Command executor.** `RequestQueues`, `Executor` (what each call does, as functions),
  `ExecutorInvariants`, `ExecutorRuns`, `ExecutorReports`, `ExecutorFairness`, `ExecutorSilence`,
  `ExecutorEffects` (what holds over every run and what each call does),
  `ExecutorStall`, `WriteCounter`, `ReadAttempts`, `Election`, `QueueSearch` (where it falls short, and
  exactly when) and `ModbusExecutor` (the object with its loops, proved against the functions).
- **Poll groups.** `ModbusTypes`, `PollMerge`, `PollStages`, `PollGroups`, `ObjectIndex`.
- **MQTT side.** `Availability`, `RegisterHistory`, `Publishing`, `PublishTrace`, `MqttClient`, and `Rpc`
  with `RpcOutcomes`, which joins the client's table of pending requests, the executors of all networks and
  the channels between them in one state machine.
- **Scheduler.** `Scheduler`.
- **Parsers.** `ArgParser`, and `MapParser` with `MapPrinter`, each with a printer that parsing undoes;
  `MapConverter`, which reads and writes registers through a map.

`dafny verify dfyconfig.toml` checks the whole project.

## What is assumed

- Threads interleave with sequential consistency; every step makes at most one access that the other
  thread can see.
- The clock, the result of a bus access, and whether a poll's values changed are inputs of each call. Time
  is an unbounded integer that does not run backwards; `duration::max()` is a separate infinite value.
- Publishing succeeds. Value converters and the JSON writer are arbitrary functions.
- Command objects are values with an identity; an accepted command is a new object.

## Where the code does not do what one expects

- A queue constructed for zero elements gets a block without a usable slot and can fail an internal
  assert (`ZeroSizeQueue.ZeroSizeFailsAssert`); for every other size the asserts hold.
- `signal(0)` wakes a blocked waiter that was given nothing (`Semaphore.EmptySignalWakes`); with positive
  counts the accounting is exact (`Semaphore.PositiveSignalsAreCounted`).
- The election can drop a poll that it elected before (`Election.EarlierPollIsDropped`), exactly if a
  queue after the first that offers a delay offers a shorter one (`Election.IdleDropsNothingExactly`). The one-place law therefore covers writes
  and RPC reads; for scheduled polls `Election.StartDrops` says what is lost.
- The fast path can look up a queue that does not exist. The source then reads through an end iterator;
  the model takes such a queue as empty. After that the executor may do nothing although commands are left
  (`ExecutorStall.StallIsReached`), until the next RPC read or write (`ExecutorStall.StallEnds`).
  `ExecutorStall.GetsOnUnlessCursorLost` says exactly when it gets on.
- A write that is given up stays in the count of pending writes (`WriteCounter.GivenUpWriteCounts`), so no
  write takes the fast path any more (`WriteCounter.NeverStraightAgain`).
- A write on the fast path that displaces a read while it is being retried gives it all its retries again
  (`ReadAttempts.InterruptedReadIsSentThrice`); `ReadAttempts.ReadUsesAreBounded` bounds the uses of the bus.
- If no queue has a command and the current queue is the first one, the circular search never ends
  (`QueueSearch.EndsExactly`); the thread does not call `executeNext` then.
- An RPC write that fails once and then succeeds is answered with an error
  (`RpcOutcomes.RetriedWriteDisagrees`); reads and writes without retries are answered as they end
  (`RpcOutcomes.AnswerAgrees`).
- A failure is taken to concern also registers before its first one
  (`Availability.FailureMarksRegisterBefore`, `Availability.FailureIsExactExactly`).
- In a value map, a closing brace in a string must be escaped, a space after a number makes the next mapping
  part of it (`MapPrinter.CommaAfterSpace`) or leaves the parser without a state
  (`MapPrinter.BraceAfterSpace`, `MapParser.UndefinedExactly`), and without braces a number at the end is not
  read. `MapPrinter.ReadBackExactly` says exactly when a map is read back. Keys with a leading zero are octal
  (`MapPrinter.LeadingZero`).
- In a map that mixes numbers and strings, some values cannot be written back
  (`MapConverter.StringBehindNumber`); `MapConverter.WriteUndoesRead` says exactly which.
- An empty converter argument is an error, but ignored at the end (`ArgParser.EmptyValue`).

## Model

| member | source | states |
|---|---|---|
| `ReaderWriterQueue.ApplyKeepsInv` | readerwriterqueue/readerwriterqueue.h:284-644 | Every single load or store of producer or consumer keeps the ring invariant: blocks linked in a circle, the block left of the front full, each slot holding exactly the element of the log it stands for, shadow indices never ahead of the truth. |
| `ReaderWriterQueue.SlotIsLive` | readerwriterqueue/readerwriterqueue.h:309-324 | The slot the consumer takes holds the oldest element not yet dequeued. |
| `BitTricks.CeilToPow2` | readerwriterqueue/readerwriterqueue.h:654-666 | On a 64-bit word the decrement, smear and increment give the least power of two not below the argument, and zero exactly for zero and for arguments above the largest power of two. |
| `BitTricks.MaskWraps` | readerwriterqueue/readerwriterqueue.h:321-321 | For a power of two, masking with the size minus one leaves what is below the size and makes the size zero. |
| `QueueRuns.BlockCountSuffices` | readerwriterqueue/readerwriterqueue.h:117-124 | The number of initial blocks leaves room for the requested elements in all blocks but one. |
| `QueueRuns.Create` | readerwriterqueue/readerwriterqueue.h:105-157 | The construction loop links the blocks into the ring that `Created` describes. |
| `QueueRuns.CreatedIsSound` | readerwriterqueue/readerwriterqueue.h:105-157 | A new queue has room for what was requested, and it satisfies the invariant if at least one element was requested. |
| `QueueRuns.RunIsSafe` | readerwriterqueue/readerwriterqueue.h:284-489 | Over every interleaving, from any sound state: no access out of range, no assert fails, no unread slot is overwritten, and the dequeued sequence is a prefix of the enqueued one. |
| `QueueRuns.NewQueueIsSafe` | readerwriterqueue/readerwriterqueue.h:105-376 | The same from every queue as it is constructed for one or more elements. |
| `QueueRuns.EmptyMeansEmpty` | readerwriterqueue/readerwriterqueue.h:284-489 | `try_dequeue`, `peek` and `pop` report an empty queue only if it was empty at some moment of that call. |
| `QueueRuns.NoRoomMeansFull` | readerwriterqueue/readerwriterqueue.h:534-644 | `try_enqueue` refuses only if the queue held at least the requested number of elements at some moment of that call, for single-block, multi-block and grown rings. |
| `QueueRuns.NewQueueFailures` | readerwriterqueue/readerwriterqueue.h:105-644 | Both of these for every queue as it is constructed for one or more elements. |
| `QueueOutcomes.EnqueueOutcome` | readerwriterqueue/readerwriterqueue.h:534-644 | Over every interleaving an enqueue ends accepted, with its element added last and nothing else; or refused, with nothing added: for lack of room only if it may not allocate, for lack of memory only if the allocator failed. |
| `QueueOutcomes.AllocatingEnqueueIsAccepted` | readerwriterqueue/readerwriterqueue.h:604-630 | An enqueue that may allocate is accepted, with its element last, unless the allocator fails. |
| `QueueOutcomes.DequeueOutcome` | readerwriterqueue/readerwriterqueue.h:284-489 | Over every interleaving `try_dequeue` and `pop` end with the oldest element, which they remove, `peek` with the oldest element, which it leaves, or any of them empty, with nothing removed. |
| `QueueOutcomes.EnqueueIsWaitFree` | readerwriterqueue/readerwriterqueue.h:534-644 | An enqueue takes at most seven steps of its own, whatever the consumer does in between. |
| `QueueOutcomes.DequeueIsWaitFree` | readerwriterqueue/readerwriterqueue.h:284-489 | A dequeue takes at most nine steps of its own, whatever the producer does in between. |
| `QueueRuns.StepKeepsSizes` | readerwriterqueue/readerwriterqueue.h:604-612 | Blocks keep their size; a new one is twice as large as the largest before, until the limit is reached. |
| `QueueRuns.MaskStep` | readerwriterqueue/readerwriterqueue.h:556-556 | In every run of a new queue whose block limit is a power of two, `(t + 1) & sizeMask` is the step from a slot of any block to the next, and from the last to the first. |
| `ZeroSizeQueue.ZeroSizeFailsAssert` | readerwriterqueue/readerwriterqueue.h:105-157 | A queue constructed for zero elements has a one-slot block, and two enqueues and two dequeues of it reach a failing assert: the condition of at least one element is needed. |
| `Semaphore.ApplyKeepsInv` | readerwriterqueue/atomicops.h:678-759 | A step keeps the accounting of signals exactly if it is not a signal of zero units to a registered waiter. |
| `Semaphore.RunKeepsInv` | readerwriterqueue/atomicops.h:669-759 | The accounting holds over every interleaving of signals and timed or untimed waits without such a signal. |
| `Semaphore.RunCountsSignals` | readerwriterqueue/atomicops.h:669-759 | In such runs waits never succeed more often than signals were given, the count never drops below -1, a finished wait leaves exactly the unused signals in the count, a wait gives up only when none was left, and a blocked waiter has missed none. |
| `Semaphore.PositiveSignalsAreCounted` | readerwriterqueue/atomicops.h:669-759 | The same over every interleaving in which no call of `signal` gives zero units. |
| `Semaphore.RestoreTerminates` | readerwriterqueue/atomicops.h:707-727 | Left alone, the restore loop after a timeout ends within three steps. |
| `Semaphore.EmptySignalWakes` | readerwriterqueue/atomicops.h:750-759 | `signal(0)` wakes a blocked waiter that was given nothing: a run where one wait succeeds with no unit posted. |
| `BlockingQueue.ApplyKeepsInv` | readerwriterqueue/readerwriterqueue.h:822-943 | Every step of the blocking queue keeps the tie between semaphore and ring: units posted match elements enqueued, units acquired match elements removed or about to be. |
| `BlockingQueue.NewChannelIsGood` | readerwriterqueue/readerwriterqueue.h:758-782 | A blocking queue as it is constructed for one or more elements satisfies the invariant. |
| `BlockingQueue.RunKeepsInv` | readerwriterqueue/readerwriterqueue.h:784-943 | The tie holds over every interleaving of the two threads. |
| `BlockingQueue.AcquiredMeansElement` | readerwriterqueue/readerwriterqueue.h:861-902 | After every successful wait the inner dequeue succeeds, so `assert(success)` holds, and the element it returns is the next one in order. |
| `BlockingQueue.TimedOutMeansDrained` | readerwriterqueue/readerwriterqueue.h:893-902 | A timed dequeue gives up only when every element whose signal was given had been removed. |
| `BlockingQueue.WaitNeverGivesUp` | readerwriterqueue/readerwriterqueue.h:875-884 | `wait_dequeue` goes on waiting until it has acquired a unit. |
| `BlockingQueue.EnqueueOutcome` | readerwriterqueue/readerwriterqueue.h:784-843 | Over every interleaving an enqueue is accepted, with its element added last, and goes on to signal one unit; or refused, as for the inner queue, with nothing added and no signal. |
| `BlockingQueue.QuietCountIsSize` | readerwriterqueue/readerwriterqueue.h:947-950 | Between operations the semaphore count is the number of elements. |
| `PollMerge.Specification.Extract` | libmodmqttsrv/modbus_messages.cpp:104-113 | The erase loop takes out exactly the groups that overlap the poll and keeps the others in order. |
| `PollMerge.Specification.Merge` | libmodmqttsrv/modbus_messages.cpp:100-130 | Merging a poll changes the groups as the function `Merged` says. |
| `PollMerge.Specification.MergeList` | libmodmqttsrv/modbus_messages.hpp:89-95 | Merging a list merges its polls one after the other. |
| `PollMerge.MergeKeepsCanonical` | libmodmqttsrv/modbus_messages.cpp:12-36 | One merge takes the canonical form of a set of polls to that of the set with one poll more: disjoint groups, each a maximal run of registers whose neighbours share an input poll, with the least valid refresh and the highest publish mode of its members. |
| `PollMerge.MergeAllIsCanonical` | libmodmqttsrv/modbus_messages.cpp:100-130 | Merging any list of polls with positive counts yields the canonical form of all of them. |
| `PollMerge.CanonicalIsUnique` | libmodmqttsrv/modbus_messages.cpp:100-130 | A set of polls has only one canonical form, up to the order of its groups. |
| `PollMerge.MergeOrderIrrelevant` | libmodmqttsrv/modbus_messages.cpp:100-130 | Merging the same polls in any order, with any repetition, gives the same groups. |
| `PollStages.StagesAreCanonical` | libmodmqttsrv/modmqtt.cpp:185-203 | Merging the groups of a first stage is as good as merging the polls they stand for. |
| `PollStages.FinalIsCanonical` | libmodmqttsrv/modmqtt.cpp:200-202 | The groups after both stages are the canonical form of all polls of both. |
| `PollStages.StagesDoNotMatter` | libmodmqttsrv/modmqtt.cpp:200-202 | Merging per topic first and then into the modbus groups gives the same groups as merging everything at once in any order. |
| `PollGroups.Distribute` | libmodmqttsrv/modbus_messages.cpp:74-76 | The first loop fills the map of maps: its keys are the slaves and types of the polls, in order and once each, and every list holds the polls of its key in their order. |
| `PollGroups.Group` | libmodmqttsrv/modbus_messages.cpp:68-98 | The loop over the keys, with the joining loop inside, computes `Grouped`; the library sort in between is the function `SortPolls`. |
| `PollGroups.AnySortWillDo` | libmodmqttsrv/modbus_messages.cpp:83-83 | For pairwise disjoint input every way to sort the polls of a slave and type by first register gives the order of `SortPolls`. |
| `PollGroups.JoinRuns` | libmodmqttsrv/modbus_messages.cpp:84-94 | The joining loop computes `Runs`. |
| `PollGroups.GroupKeepsCover` | libmodmqttsrv/modbus_messages.cpp:68-98 | Grouping covers exactly the same slave, type and register triples, for every input with positive counts. |
| `PollGroups.GroupedBucket` | libmodmqttsrv/modbus_messages.cpp:68-98 | What is returned for a slave and type comes from the polls of that slave and type alone, each group once. |
| `PollGroups.GroupsAreTheRuns` | libmodmqttsrv/modbus_messages.cpp:68-98 | For pairwise disjoint input the result is, per slave and type, the unique list of ranges with gaps between them that covers the same registers: the maximal consecutive runs. |
| `PollGroups.GroupsSummarise` | libmodmqttsrv/modbus_messages.cpp:72-90 | For pairwise disjoint input each group has the least refresh period set by its polls and their most frequent publish mode. |
| `PollGroups.SeparatedIsUnique` | libmodmqttsrv/modbus_types.cpp:16-33 | Two lists of ranges with gaps between them that cover the same registers are equal. |
| `ObjectIndex.UpdateSpecification` | libmodmqttsrv/modmqtt.cpp:862-892 | The poll is merged into the specification of its network, which is created if missing; other networks are untouched. |
| `ObjectIndex.CollectSpecifications` | libmodmqttsrv/modmqtt.cpp:862-892 | For every network, the groups of all registers declared on it. |
| `ObjectIndex.BuildIndex` | libmodmqttsrv/modmqtt.cpp:216-233 | An object is listed under a group's first register exactly if one of its registers lies in that group, and no list is empty. |
| `ObjectIndex.BuildCommandIndex` | libmodmqttsrv/modmqtt.cpp:234-240 | An object is listed under a command exactly if one of its registers is among those the command writes. |
| `ObjectIndex.ScheduledIsIndexed` | libmodmqttsrv/mqttclient.cpp:161-166 | Every group the modbus thread schedules has an index entry, so the lookup assert never fails. |
| `ObjectIndex.RegisterInOneGroup` | libmodmqttsrv/modbus_thread.cpp:69-91 | Every register an object declares on a configured network lies in exactly one group of that network, and that group is scheduled and lists the object. |
| `RequestQueues.AddPollList` | libmodmqttsrv/modbus_request_queues.cpp:5-17 | The loop appends the polls that are not queued yet. |
| `RequestQueues.AddPollsCounts` | libmodmqttsrv/modbus_request_queues.cpp:5-17 | A poll that was queued stays as often as it was; a new one is queued once. |
| `RequestQueues.PopsAlternate` | libmodmqttsrv/modbus_request_queues.cpp:19-48 | After a poll was popped a waiting write comes next, and the other way round. |
| `RequestQueues.FindForSilencePeriod` | libmodmqttsrv/modbus_request_queues.cpp:50-85 | The search loop computes `Scan`. |
| `RequestQueues.ScanIsFresh` | libmodmqttsrv/modbus_request_queues.cpp:50-100 | When the search chooses a delay, the remembered position points at a queued poll with that delay, so the pop that follows never searches again. |
| `RequestQueues.ExactFitIsChosen` | libmodmqttsrv/modbus_request_queues.cpp:50-85 | A poll whose delay, with or without the delay for the first command, is exactly the silence there was is chosen before all others, the first if there are several. |
| `ModbusExecutor.CommandExecutor.constructor` | libmodmqttsrv/modbus_executor.cpp:17-29 | A new executor has no queues, nothing waiting and an empty trace. |
| `ModbusExecutor.CommandExecutor.IsAllDone` | libmodmqttsrv/modbus_executor.cpp:394-404 | True exactly if nothing is waiting in the slot or in any queue. |
| `ModbusExecutor.CommandExecutor.IsPollDone` | libmodmqttsrv/modbus_executor.cpp:406-416 | True exactly if no poll is waiting. |
| `ModbusExecutor.CommandExecutor.ResetCommandsCounter` | libmodmqttsrv/modbus_executor.cpp:418-424 | The budget is twice the polls of the current queue, or ten. |
| `ModbusExecutor.CommandExecutor.AddReadCommand` | libmodmqttsrv/modbus_executor.cpp:123-130 | Queues the read for its slave and makes that queue current if none was, as `Executor.AddRead` says; the laws of `ExecutorRuns` are about that function. |
| `ModbusExecutor.CommandExecutor.AddWriteCommand` | libmodmqttsrv/modbus_executor.cpp:132-157 | With no write pending the write takes the slot and the displaced command goes to the front of the written slave's queue; otherwise it is queued last. The new state is that of `Executor.AddWriteCommand`. |
| `ModbusExecutor.CommandExecutor.AddPolls` | libmodmqttsrv/modbus_executor.cpp:43-120 | Refuses polls during an unfinished initial poll, queues new ones by slave and, if the executor was idle, elects the command to start with: the new state is that of `Executor.WithPollList`. |
| `ModbusExecutor.CommandExecutor.HoldElection` | libmodmqttsrv/modbus_executor.cpp:85-108 | The election loop computes `Executor.Elect`. |
| `ModbusExecutor.CommandExecutor.SearchBusy` | libmodmqttsrv/modbus_executor.cpp:277-287 | Whenever the circular search ends it ends at the queue `NextBusy` names, or at none if all are empty. |
| `QueueSearch.EndsExactly` | libmodmqttsrv/modbus_executor.cpp:277-287 | The circular search ends exactly if some queue has a command or the current queue is not the first one; otherwise it goes round for ever. |
| `QueueSearch.SearchEndsMeansEnds` | libmodmqttsrv/modbus_executor.cpp:277-287 | What the executor demands of its caller is that the search ends. |
| `ModbusExecutor.CommandExecutor.SendCommand` | libmodmqttsrv/modbus_executor.cpp:345-391 | One use of the bus with its retries, messages and counters: the new state is that of `Executor.Send`. |
| `ModbusExecutor.CommandExecutor.ExecuteNext` | libmodmqttsrv/modbus_executor.cpp:270-343 | Fills the slot if it is empty, waits for the silence its command needs or sends it; with nothing left it returns an infinite wait, or none without a current queue. New state and returned wait are those of `Executor.ExecuteNext`. |
| `ExecutorInvariants.FastPathDisplacesPolls` | libmodmqttsrv/modbus_executor.cpp:134-147 | With the write counter at zero no write is pending, so the fast path displaces a poll at most. |
| `ExecutorRuns.ApplyKeepsInv` | libmodmqttsrv/modbus_executor.cpp:43-391 | Every call keeps the executor's invariant. |
| `ExecutorRuns.RunKeepsCommands` | libmodmqttsrv/modbus_executor.cpp:43-157 | Over every run of calls an accepted write or RPC read is finished or in exactly one place, across displacement, re-queueing and election. |
| `ExecutorRuns.RunKeepsWrites` | libmodmqttsrv/modbus_executor.cpp:132-157 | Writes to one slave finish in arrival order; the write counter equals pending plus abandoned writes and is never negative; at zero nothing displaced is a write. |
| `ExecutorRuns.RunKeepsBusOrder` | libmodmqttsrv/modbus_executor.cpp:345-390 | Writes to one slave use the bus in arrival order, each at most 1 + its retries times and never again after success. |
| `ReadAttempts.ReadUsesAreBounded` | libmodmqttsrv/modbus_executor.cpp:345-391 | Over every run an RPC read uses the bus at most 1 + its retries times, and as often again for each time that a write on the fast path displaced it while it was being retried. |
| `ReadAttempts.InterruptedReadIsSentThrice` | libmodmqttsrv/modbus_executor.cpp:347-350 | A run in which such a write makes a read that may be retried once use the bus three times. |
| `ExecutorRuns.RunKeepsSilence` | libmodmqttsrv/modbus_executor.cpp:305-327 | Every bus use but the first starts at least its required silence after the end of the one before: the first-command delay if set and the slave changed, else the command delay. |
| `ExecutorSilence.FirstUseIsSilent` | libmodmqttsrv/modbus_executor.cpp:305-327 | The first bus use of a run comes at least its command delay after the executor was made. |
| `ExecutorSilence.SentExactlyWhenSilent` | libmodmqttsrv/modbus_executor.cpp:305-327 | Executing sends the chosen command exactly if the bus has been silent for its first-command delay, if it has one and the slave changed, else for its command delay; otherwise it returns the time until the first moment at which that is so. |
| `ExecutorSilence.SentAfterTheWait` | libmodmqttsrv/modbus_executor.cpp:305-327 | A command that was told to wait is sent by the next call at that moment or later, and by no call before. |
| `ExecutorRuns.RunKeepsReports` | libmodmqttsrv/modbus_executor.cpp:160-267 | A finished RPC read has emitted exactly one message, an unfinished one none, a write one per attempt; each message tells the result of the bus use that caused it. |
| `ExecutorEffects.UseIsReported` | libmodmqttsrv/modbus_executor.cpp:160-267 | A bus use is reported by one message with its result: always for a write, for an RPC read once it succeeded or is given up, and for a scheduled poll if its result is news or it succeeded during the initial poll; otherwise by none. |
| `ExecutorEffects.NothingIsGivenUpEarly` | libmodmqttsrv/modbus_executor.cpp:345-391 | Over every run a finished write or RPC read has succeeded or has used the bus at least 1 + its retries times. |
| `ExecutorEffects.InitialPollEnds` | libmodmqttsrv/modbus_executor.cpp:330-339 | A call that uses the bus ends the initial poll exactly if no poll is left and there is a current queue. |
| `ExecutorEffects.PollsAreQueued` | libmodmqttsrv/modbus_executor.cpp:43-77 | New polls are refused exactly during an initial poll that has polls left; otherwise a busy executor has every one of them in the queue of its slave. |
| `ExecutorEffects.PollsAreInOrder` | libmodmqttsrv/modbus_request_queues.cpp:5-48 | While a slave has commands waiting, the poll taken from its queue is the first, a displaced one becomes the first and new ones come last. |
| `ExecutorEffects.DisplacedIsNext` | libmodmqttsrv/modbus_request_queues.cpp:107-116 | A displaced poll is the next command taken from the queues it was put back into. |
| `ExecutorFairness.NextBusyIsFirst` | libmodmqttsrv/modbus_executor.cpp:277-287 | The search ends at the first non-empty queue after the current one, going round; the current one comes last. |
| `ExecutorFairness.NoQueueVisitedTwice` | libmodmqttsrv/modbus_executor.cpp:270-303 | Without fast-path writes no queue is visited twice while a queue that stays non-empty is skipped. |
| `ExecutorFairness.VisitStaysInBudget` | libmodmqttsrv/modbus_executor.cpp:386-424 | From any budget on, started by a visit, an election, a write on the fast path or a first command: what is finished and what is left add up to it until the next one starts. It is twice the number of polls in the selected queue, or ten. |
| `ExecutorFairness.NeverBypassedTwice` | libmodmqttsrv/modbus_request_queues.cpp:19-48 | Over every run: if a poll was taken from the queues of a slave and a write waits there ever since, the next command taken from them is a write, and the other way round, displacements included. |
| `ExecutorFairness.StartSelects` | libmodmqttsrv/modbus_executor.cpp:110-113 | An idle executor that is given polls always has a command in the slot afterwards. |
| `ExecutorStall.CursorLost` | libmodmqttsrv/modbus_executor.cpp:145-147 | The fast path leaves no current queue exactly if nothing was waiting and the written slave has no queue. |
| `ExecutorStall.StallIsReached` | libmodmqttsrv/modbus_executor.cpp:132-157 | Three calls stall a new executor: a write to a slave without a queue, polls for another slave, and the write is sent. |
| `ExecutorStall.StallStays` | libmodmqttsrv/modbus_executor.cpp:270-303 | In a stall, executing and more polls leave every queued command where it was and do not use the bus. |
| `ExecutorStall.StallEnds` | libmodmqttsrv/modbus_executor.cpp:123-157 | A stall ends exactly with the next RPC read or write. |
| `ExecutorStall.StallLasts` | libmodmqttsrv/modbus_executor.cpp:270-303 | A stall lasts over any number of polls and attempts to execute. |
| `ExecutorStall.WhoLostTheCursor` | libmodmqttsrv/modbus_executor.cpp:132-157 | Whenever in a run commands are left and there is no current queue, some write lost it and no call has selected one since; and as long as that holds there is none. |
| `ExecutorStall.GetsOnUnlessCursorLost` | libmodmqttsrv/modbus_executor.cpp:270-343 | Over every run, executing with commands left uses the bus or returns a positive wait, exactly if no write has lost the current queue since one was last selected or a command is in the slot. |
| `WriteCounter.StraightToSlotExactly` | libmodmqttsrv/modbus_executor.cpp:132-157 | At any moment of any run a new write takes the slot at once exactly if no write is pending and none was ever given up. |
| `WriteCounter.NeverStraightAgain` | libmodmqttsrv/modbus_executor.cpp:132-157 | Once a write was given up, no later write of the run takes the fast path. |
| `WriteCounter.GivenUpWriteCounts` | libmodmqttsrv/modbus_executor.cpp:370-381 | A run of two calls after which nothing is left to do and the counter is one: a write without retries that fails. |
| `Election.StartDrops` | libmodmqttsrv/modbus_executor.cpp:85-114 | Starting on new polls keeps every command in the slot or a queue as often as it was, except that every elected poll but the last is dropped. |
| `Election.NothingDroppedExactly` | libmodmqttsrv/modbus_executor.cpp:85-114 | Nothing is dropped exactly if, of the delays that the queues offer before the election, none after the first is shorter than it. |
| `Election.IdleDropsNothingExactly` | libmodmqttsrv/modbus_executor.cpp:43-120 | The same for an idle executor that is given polls in the order of their slaves: with all of them queued, no queue after the first that offers a delay offers a shorter one. |
| `Election.OneDelayedQueueDropsNothing` | libmodmqttsrv/modbus_executor.cpp:85-114 | If at most one queue holds polls with an election delay, nothing is dropped. |
| `Election.EarlierPollIsDropped` | libmodmqttsrv/modbus_executor.cpp:85-114 | Two polls of two slaves, the later one with the shorter delay: after the call the earlier one is nowhere. |
| `Availability.MqttObject.UpdateRegisterValues` | libmodmqttsrv/mqttobject.cpp:281-288 | Updates nodes and flag as `Apply` says, recomputing only on a reported change or while the flag is False. |
| `Availability.MqttObject.UpdateRegistersReadFailed` | libmodmqttsrv/mqttobject.cpp:291-298 | Updates nodes and flag as `Apply` says. |
| `Availability.MqttObject.SetModbusNetworkState` | libmodmqttsrv/mqttobject.cpp:301-310 | Updates nodes and flag as `Apply` says; if it reports no change, nothing changed. |
| `Availability.MqttObject.UpdateAvailabilityFlag` | libmodmqttsrv/mqttobject.cpp:313-329 | The flag becomes the recomputed one. |
| `Availability.UnchangedMeansSame` | libmodmqttsrv/mqttobject.cpp:12-87 | If no change is reported the nodes are the same, unless values end a read error. |
| `Availability.ApplyKeepsUpToDate` | libmodmqttsrv/mqttobject.cpp:281-310 | One message keeps the cached flag equal to the recomputed one, although recomputation may be skipped. |
| `Availability.FlagIsRecomputed` | libmodmqttsrv/mqttobject.cpp:281-329 | The cached flag equals the recomputed one after every sequence of messages, for any tree with at least one register. |
| `Availability.FlagMeaning` | libmodmqttsrv/mqttobject.cpp:105-121 | The flag told from the registers' own histories: False if some register has a read error, NotSet if some value is missing, else whether the availability value is the wanted one. |
| `Availability.UpdateReachesAll` | libmodmqttsrv/mqttobject.cpp:24-67 | An update of a tree updates each of its registers, and only by that register's own rule. |
| `RegisterHistory.LastValueCounts` | libmodmqttsrv/mqttobject.cpp:12-44 | A register has the value of the last message that brought one for its network, slave, type and number. |
| `RegisterHistory.LastMessageCounts` | libmodmqttsrv/mqttobject.cpp:24-87 | It has a read error exactly if the last message about it was a failure or a network going down. |
| `RegisterHistory.ObjectHoldsLastValues` | libmodmqttsrv/mqttobject.cpp:24-44 | After any messages every register of an object, in its state and its availability, holds the value of the last message that brought one, or what it held at first. |
| `RegisterHistory.ObjectReadErrors` | libmodmqttsrv/mqttobject.cpp:47-87 | And it has a read error exactly if the last message about it was bad news, or it had one at first and none was about it. |
| `RegisterHistory.ConverterGetsValues` | libmodmqttsrv/mqttobject.cpp:166-181 | A converter is given the values of the registers of its node, from left to right. |
| `RegisterHistory.AvailabilityValue` | libmodmqttsrv/mqttobject.cpp:105-121 | The value that decides whether an object is available is what its converter makes of the values its registers hold after the messages. |
| `Availability.FailureConcerns` | libmodmqttsrv/mqttobject.cpp:59-62 | For registers less than 65536 apart a failure of `count` registers from `first` on concerns those strictly between `first - count` and `first + count`. |
| `Availability.FailureMarksRegisterBefore` | libmodmqttsrv/mqttobject.cpp:59-62 | A failure of registers 10 to 12 gives register 8 a read error. |
| `Availability.FailureIsExactExactly` | libmodmqttsrv/mqttobject.cpp:291-298 | Handling a failure equals marking the registers of its range only, in every state of the object, exactly if the object has no register of that network, slave and type among the `count - 1` before the range. |
| `Availability.KnownIsSet` | libmodmqttsrv/mqttobject.cpp:313-329 | Once all values are known the flag never is NotSet again; a True flag implies they are. |
| `Publishing.OnValuesSound` | libmodmqttsrv/mqttclient.cpp:176-204 | Register values keep the promise `Sound` to subscribers. |
| `Publishing.OnFailedSound` | libmodmqttsrv/mqttclient.cpp:229-248 | A failed read or write keeps it. |
| `Publishing.OnNetworkStateSound` | libmodmqttsrv/mqttclient.cpp:251-275 | A network that goes down keeps it. |
| `Publishing.OnConnectSound` | libmodmqttsrv/mqttclient.cpp:290-306 | Publishing everything again after a connect keeps it. |
| `Publishing.RunIsSound` | libmodmqttsrv/mqttclient.cpp:140-306 | Over every run: the last availability message is `1` exactly while the flag is True; a state is published only while that holds or just before; a retained object not of mode ONCE publishes its state just before each `1` and its last state is the current one; an object of mode ONCE publishes at most one state, also across reconnects. |
| `PublishTrace.StaysAvailable` | libmodmqttsrv/mqttclient.cpp:201-227 | Values that find an object available and leave it so publish its state exactly if the payload changed or, in mode EVERY_POLL, the period has passed since the last state; unless it is of mode ONCE and has published one. |
| `PublishTrace.ChangeIsPublished` | libmodmqttsrv/mqttclient.cpp:210-227 | A changed payload of an available object is published, retained or not, in every mode but ONCE. |
| `PublishTrace.EveryPeriodIsPublished` | libmodmqttsrv/mqttobject.cpp:331-349 | In mode EVERY_POLL an unchanged payload is published once the period has passed since the last state. |
| `PublishTrace.BecomesAvailable` | libmodmqttsrv/mqttclient.cpp:181-200 | What is published when values make an object available: its state if it is retained or of mode EVERY_POLL, the deletion of a retained state if it is not retained and nothing was known, and then that it is available. |
| `PublishTrace.LossIsAnnounced` | libmodmqttsrv/mqttclient.cpp:229-275 | A failure or a network going down that makes an object unavailable is announced, and nothing else is published. |
| `PublishTrace.ConnectRepublishes` | libmodmqttsrv/mqttclient.cpp:290-306 | A connect publishes the state of an available object, unless it is of mode ONCE and has published one, and then whether it is available. |
| `PublishTrace.RunRemembers` | libmodmqttsrv/mqttclient.cpp:210-227 | Over every run the payload that changes are compared with is the one published last, unless the state was deleted since. |
| `PublishTrace.TimeOfLastState` | libmodmqttsrv/mqttclient.cpp:222-226 | The time the period is counted from is that of the event that published the last state, and no event publishes two. |
| `PublishTrace.OncePublishesOnce` | libmodmqttsrv/mqttclient.cpp:210-217 | Over every run a retained object of mode ONCE has published exactly one state once it was available for the first time, and none before. |
| `MqttClient.Client.FindList` | libmodmqttsrv/mqttclient.cpp:161-165 | The lookup finds the list of the entry, and reports whether there is one. |
| `MqttClient.Client.ProcessRegisterValues` | libmodmqttsrv/mqttclient.cpp:129-208 | Values are dropped while not connected. Otherwise the objects of the written command, or else of the poll group with the same first register, handle them, once per listing; no other object changes, and all objects stay sound. |
| `MqttClient.ValuesReachDeclarer` | libmodmqttsrv/mqttclient.cpp:142-166 | The values of the one scheduled group that polls a declared register concern the object that declares it, whether a poll or an RPC request read them. |
| `MqttClient.WrittenValuesReachReaders` | libmodmqttsrv/mqttclient.cpp:142-146 | The values that a configured command wrote concern exactly the objects that read some register it writes. |
| `MqttClient.EachAppliesOnce` | libmodmqttsrv/mqttclient.cpp:176-178 | In a list that holds no object twice the listed objects handle the message once and no others change. |
| `MqttClient.Client.ProcessRegistersOperationFailed` | libmodmqttsrv/mqttclient.cpp:229-248 | The objects of the poll group with the same first register, if there is one, handle the failure; no other object changes, and all objects stay sound. |
| `MqttClient.Client.ProcessModbusNetworkState` | libmodmqttsrv/mqttclient.cpp:251-275 | Every object of the network handles the change exactly once, however many lists it is in; others are untouched. |
| `MqttClient.Client.PublishAll` | libmodmqttsrv/mqttclient.cpp:290-306 | Every listed object is published exactly once, however many lists it is in. |
| `MqttClient.Client.Connect` | libmodmqttsrv/mqttclient.cpp:102-127 | After a connect every listed object is published exactly once and values are handled again. |
| `Rpc.RpcTable.Register` | libmodmqttsrv/mqttclient.cpp:558-574 | A valid request gets the next negative id and a table entry. |
| `Rpc.RpcTable.PublishResponse` | libmodmqttsrv/mqttclient.cpp:589-650 | Values answer and remove the pending request with their id, if there is one, on its topic and with its correlation data; a read whose values cannot be converted gets an error. |
| `Rpc.RpcTable.PublishError` | libmodmqttsrv/mqttclient.cpp:668-682 | A failure answers the pending request with its id, if there is one, with an error on its topic and with its correlation data, and removes it. |
| `Rpc.StepKeepsInv` | libmodmqttsrv/mqttclient.cpp:558-682 | Every step of the client, of any executor and of the channels between them keeps the invariant of the exchange. |
| `Rpc.AnsweredAtMostOnce` | libmodmqttsrv/mqttclient.cpp:589-682 | Over every run with any number of networks a request is answered at most once, on its own response topic with its own correlation data, by a message about its own command; the answer is an error exactly if that message is a failure or a read whose values could not be converted. |
| `Rpc.AnsweredExactlyOnce` | libmodmqttsrv/mqttclient.cpp:589-682 | It is answered exactly once when its command is finished and its messages have arrived, unless a disconnect came first, although a failing write reports every attempt. |
| `RpcOutcomes.AnswerTellsOutcome` | libmodmqttsrv/modbus_executor.cpp:255-264 | Over every run the answer to a write is an error exactly if its first use of the bus failed, and the answer to a read exactly if its last one did or the values could not be converted. |
| `RpcOutcomes.AnswerAgrees` | libmodmqttsrv/modbus_executor.cpp:345-391 | For reads, and for writes without retries, the answer agrees with the last use of the bus. |
| `RpcOutcomes.RetriedWriteDisagrees` | libmodmqttsrv/modbus_executor.cpp:255-264 | For every positive number of retries there is a run in which a write ends with success and was answered with an error. |
| `Rpc.MessageMeetsItsRequest` | libmodmqttsrv/mqttclient.cpp:589-597 | A message that meets a pending request is about the command made from that request. |
| `Rpc.FirstIdsAreUnused` | libmodmqttsrv/mqttclient.cpp:558-561 | Ids count down from -1 and none is reused during the first 2147483648 requests. |
| `Scheduler.ModbusScheduler.GetRegistersToPoll` | libmodmqttsrv/modbus_scheduler.cpp:6-51 | Returns the due polls by slave and the least wait of all polls. |
| `Scheduler.ModbusScheduler.NotifyRpcRead` | libmodmqttsrv/modbus_scheduler.cpp:89-113 | The polls of the slave within the range of the RPC read, and only those, take over its start time. |
| `Scheduler.DeferAll` | libmodmqttsrv/modbus_scheduler.cpp:103-112 | The loop changes exactly the polls within the range. |
| `Scheduler.RpcReadDefersExactly` | libmodmqttsrv/modbus_scheduler.cpp:89-113 | After an RPC read exactly the polls of its slave and type within its range count as read when it began; nothing else changes. |
| `Scheduler.DeferredIsDueLater` | libmodmqttsrv/modbus_scheduler.cpp:103-108 | A repeating poll within that range is due exactly from its refresh period after that moment on. |
| `Scheduler.ReturnsExactlyTheDue` | libmodmqttsrv/modbus_scheduler.cpp:18-37 | A poll is returned for a slave exactly if it is registered there, is not a ONCE poll that has succeeded, and its refresh period has passed since its last read began. |
| `Scheduler.WakesWhenDue` | libmodmqttsrv/modbus_scheduler.cpp:29-46 | The wait ends exactly when the first poll falls due again, counting those returned as read now, and is infinite exactly if none ever will. |
| `Scheduler.NothingFallsDueUnnoticed` | libmodmqttsrv/modbus_thread.cpp:266-272 | After a schedule no poll of a repeating mode that was not returned falls due before the next one, whatever is read in between, RPC reads included. |
| `Scheduler.ReadMakesQuiet` | libmodmqttsrv/modbus_thread.cpp:266-272 | Once read, a returned poll has its next due time at or after the next schedule. |
| `Scheduler.ReadIsNotDueAgain` | libmodmqttsrv/modbus_thread.cpp:266-272 | A returned poll that was read is not due before the next schedule, whatever else is read in between. |
| `Scheduler.StartTimesAreHonest` | libmodmqttsrv/modbus_scheduler.cpp:89-113 | A poll's start time, once set, is a moment when a bus read covering its whole range began. |
| `ArgParser.Parse` | libmodmqttsrv/conv_name_parser.cpp:78-208 | The character loop computes `Parsed`; the stack is never empty when its top is read. |
| `ArgParser.StepKeepsStack` | libmodmqttsrv/conv_name_parser.cpp:78-194 | On every input the stack is SCAN alone or with one state above it, with a delimiter set exactly in ARGVALUE. |
| `ArgParser.FeedKeepsSetOnce` | libmodmqttsrv/conv_name_parser.cpp:49-76 | Each argument is set at most once, only declared ones are, and the others keep their defaults. |
| `ArgParser.ParseUndoesPrint` | libmodmqttsrv/conv_name_parser.cpp:49-208 | Parsing printed arguments, escaped or quoted, with spaces, is setting them in order, errors included. |
| `ArgParser.RoundTrip` | libmodmqttsrv/conv_name_parser.cpp:49-208 | Printed arguments are accepted exactly if positional ones come first and fit, names are declared and not repeated, and none is empty but the last, which is then ignored; the result is their values over the defaults. |
| `ArgParser.EmptyValue` | libmodmqttsrv/conv_name_parser.cpp:123-128 | An empty value alone is ignored, even under a name that is not declared, and is an error if others follow. |
| `ArgParser.OverriddenHas` | libmodmqttsrv/conv_name_parser.cpp:49-76 | Each given value is found under its name and the default under every other. |
| `MapParser.Parse` | stdconv/map.cpp:10-185 | The character loop computes `Parsed`. |
| `MapParser.FeedKeepsStack` | stdconv/map.cpp:10-242 | On every input the stack stays one of four shapes, except that it is empty exactly after a closing brace that follows a number ended by a space. |
| `MapParser.UndefinedExactly` | stdconv/map.cpp:18-22 | The top of an empty stack is read exactly if something follows such a brace. |
| `MapParser.ParsedIsDistinct` | stdconv/map.cpp:203-242 | Whatever is parsed maps no register value and no MQTT value twice. |
| `MapPrinter.LeadingZero` | libmodmqttconv/mqttvalue.hpp:137-146 | A zero in front of a decimal key makes it octal: it names the same register exactly below eight, a smaller one otherwise, and none exactly if it has a digit 8 or 9. |
| `MapPrinter.RoundTrip` | stdconv/map.cpp:10-242 | Parsing a printed map, with keys in any form, spaces around keys and values, with or without braces, gives back what can be read of it if the layout is clean and maps nothing twice, and an error if it maps something twice; in any other layout the result is an error or shorter. |
| `MapPrinter.ReadIsAll` | stdconv/map.cpp:33-41 | What can be read is everything, except a number at the end of a map without braces. |
| `MapPrinter.ReadBackExactly` | stdconv/map.cpp:10-242 | A printed map is read back exactly if it maps nothing twice, no closing brace in a string lacks its escape, no number but the last is followed by a space, nothing follows the brace if the last one is, and without braces the last value is a string. |
| `MapPrinter.BraceAfterSpace` | stdconv/map.cpp:35-38 | `{1:2 }` is read but leaves the stack empty, and with a space behind it the top of that stack is read. |
| `MapPrinter.CommaAfterSpace` | stdconv/map.cpp:133-150 | `{1:2 ,3}` maps 1 to 23. |
| `MapConverter.FindVariant` | stdconv/map.cpp:251-265 | The search loop computes `Variant`. |
| `MapConverter.ReadMeans` | stdconv/map.hpp:11-26 | A mapped register is read as its value, any other as its number. |
| `MapConverter.PlainNumberIsWritten` | stdconv/map.hpp:28-37 | A number that stands for no register is written as a signed 16-bit number, and refused if it is none. |
| `MapConverter.WriteUndoesRead` | stdconv/map.hpp:11-37 | In any map, writing the value read from a register gives back the register exactly if it is mapped and no earlier mapping hides its value, or it is not mapped, fits 15 bits and its number stands for no other register. |
| `MapConverter.TextIsAsGood` | stdconv/map.cpp:251-265 | A value that comes back as the text that was published is written as the value itself, if numbers are read as they are printed. |
| `MapConverter.StringBehindNumber` | stdconv/map.cpp:251-265 | In a map that mixes a number with strings, a string behind the number cannot be written if it is no number itself. |

## Left out

- Weak memory: fences and atomic orderings of the queue; the model is sequentially consistent.
- Queue operations beyond enqueue, dequeue, peek and pop: move and destruction, `emplace`, `max_capacity`, and the inner `size_approx`.
- Overflow of the queue's size arithmetic: block sizes and counts are unbounded in the ring model; `BitTricks.CeilToPow2` says up to which size the 64-bit computation agrees.
- libmodbus and mosquitto calls, YAML and JSON parsing, plugins, logging, signals, the watchdog and the numeric converters.
- The quality of the election's choice: beyond `RequestQueues.ExactFitIsChosen` it is not claimed to be the best fit.
- Read error counters and the five-minute log interval of `handleRegisterReadError`: whether a scheduled poll is reported is an input of the call.
- Executor.Budget: a missing current queue counts as empty, where the source reads through an end iterator.
- ModbusExecutor.CommandExecutor.ExecuteNext: requires that the search for the next queue ends, because the source loops for ever otherwise; its caller guarantees this at libmodmqttsrv/modbus_thread.cpp:278-281.
- Rpc: values that arrive while the client is disconnecting at shutdown are dropped before the pending request is looked up (libmodmqttsrv/mqttclient.cpp:130-138); the model always looks it up.
- Rpc: requests rejected before they get an id, which are answered at once with an error, are not part of the runs.
- Availability: the node tree is a value that is replaced, so update in place and sharing of nodes are not captured; exceptions of converters are not modelled.
- Publishing: failed publishes.
- MqttClient.Client.Connect: subscriptions, and the other changes of the connection state, are not modelled.
- MqttClient.Client.ProcessRegisterValues: the response to an RPC request is part of `Rpc`, not of this method.
- PollGroups.Group: sorts stably, where the source may order polls with the same first register either way; `PollGroups.AnySortWillDo` shows that this makes no difference for pairwise disjoint polls.
- MapParser.Parse: does not model `atoi` beyond the range of `int`; after the stack was emptied by a closing brace any further character is an error here.
- `ConverterNameParser::parse`, which splits a converter specification with a regular expression.
- Agreement of object values with the device after command writes, which the code does not promise.
