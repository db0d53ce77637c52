# Firestore streaming and async-queue bookkeeping, modelled in Dafny

This project models the sequential bookkeeping under the Firestore C++ client's streaming RPC layer. It covers five parts.

- **`BufferedWriter`** (`buffered_writer.dfy`, module `BufferedWriting`) is the one-active-write gate of a gRPC stream.
  - It is a FIFO of unstarted messages plus a `hasActiveWrite` flag.
  - Ghost history records every message enqueued, every message handed to the stream, and how many active writes were acknowledged.
  - The class invariant:
    - a buffered write implies an active one;
    - exactly one started write is outstanding while the flag is set;
    - started messages followed by the queue form a subsequence of the enqueued ones, so writes start in enqueue order.
- **`GrpcStream`** (`grpc_stream.dfy`, module `GrpcStreaming`) is the stream's lifecycle state machine.
  - It covers `Start`, `Read`, `Write`, `Finish`, `WriteAndFinish` and the completion callbacks.
  - Calls into gRPC and notifications of the observer are recorded as an event trace.
  - `SameGeneration()` is a boolean input.
  - The position of `FinishingWithWrite` in the state ordering is not known, so it is a parameter. Every result that depends on it is stated for both placements.
- **The executor schedule** (`schedule.dfy`, module `Scheduling`; `executor_std.dfy`, module `StdExecution`).
  - Entries carry an operation, a fresh id, a tag and a due time.
  - They are kept ordered by due time, with ties in push order.
  - Cancelling works by id, and popping takes the nearest-due delayed entry.
  - The std executor's worker loop is modelled one turn at a time and as a run up to a given time.
- **`AsyncQueue`** (`async_queue.dfy`, module `Queueing`) is the checked-execution wrapper over that executor.
  - It models the in-progress flag and the no-nesting assertions.
  - It models the duplicate-timer check.
  - It models the `RunScheduledOperationsUntil` drain loop.
- **The libdispatch variants.**
  - `async_queue_libdispatch.dfy` (module `DispatchQueueing`) holds the queue's registry of delayed operations, each with its `done` flag.
  - `libdispatch_executor.dfy` (module `DispatchExecution`) holds the templated `Executor<Tag>` with its list of tagged operations.
  - libdispatch itself is the environment. A FIFO of dispatched blocks and the set of armed timers are fields, and a method runs one block or fires one timer.

Shared vocabulary lives in `wrappers.dfy` (`Option`, operation ids) and `operations.dfy` (module `QueueOperations`: timer ids, the calls an operation makes, assertion failures).

## How operations are represented

- **Operations are closures in the program.** Here an operation is its id plus the queue calls its body makes, in order. An operation handed on by one of those calls makes no calls of its own.
- **Running an operation** appends its id to a `log`.
- **Failed assertions.** `FIREBASE_ASSERT_MESSAGE` / `HARD_ASSERT` throw in the program. Here a failure is a `Failed(...)` outcome. A failed call changes nothing that the source would not have changed before the assertion.
- **Inputs from the environment.** "Am I on the queue" and "now" are parameters.
- **Test scenarios.** The test suites' scenarios are methods that allocate their own objects and state the outcome of the whole run in their `ensures`. The libdispatch scenarios replay an operation body's calls between `BeginCheckedOperation` and `EndCheckedOperation`.

## Model

| member | source | states |
|---|---|---|
| `BufferedWriting.SubsequenceOfLonger` | Firestore/core/src/firebase/firestore/remote/buffered_writer.cc:32-35 | appending to the enqueued history keeps every earlier subsequence a subsequence |
| `BufferedWriting.SubsequenceAppendBoth` | Firestore/core/src/firebase/firestore/remote/buffered_writer.cc:32-35 | a message appended to both the pending writes and the history keeps the FIFO subsequence relation |
| `BufferedWriting.SubsequencePrefix` | Firestore/core/src/firebase/firestore/remote/buffered_writer.cc:28-30 | dropping the unstarted tail keeps the started writes a subsequence of what was enqueued |
| `BufferedWriting.BufferedWriter.constructor` | Firestore/core/src/firebase/firestore/remote/buffered_writer.h:77-78 | a fresh writer has an empty queue, no active write and empty history, and satisfies the invariant |
| `BufferedWriting.BufferedWriter.Empty` | Firestore/core/src/firebase/firestore/remote/buffered_writer.h:59-61 | true exactly when no unstarted write is buffered; with no active write the writer is always empty |
| `BufferedWriting.BufferedWriter.DiscardUnstartedWrites` | Firestore/core/src/firebase/firestore/remote/buffered_writer.cc:28-30 | empties the queue, leaves the active flag and the started writes alone, keeps the invariant |
| `BufferedWriting.BufferedWriter.TryStartWrite` | Firestore/core/src/firebase/firestore/remote/buffered_writer.cc:37-49 | starts nothing when the queue is empty or a write is active; otherwise sets the flag and hands over exactly the front message |
| `BufferedWriting.BufferedWriter.EnqueueWrite` | Firestore/core/src/firebase/firestore/remote/buffered_writer.cc:32-35 | the message is started at once iff no write was active, otherwise appended behind the queue; afterwards a write is active; the invariant holds |
| `BufferedWriting.BufferedWriter.DequeueNextWrite` | Firestore/core/src/firebase/firestore/remote/buffered_writer.cc:51-54 | acknowledges the active write and starts the front of the queue if there is one; with an empty queue no write remains active |
| `BufferedWriting.SequenceTwoWrites` | Firestore/core/src/firebase/firestore/remote/buffered_writer.h:34-45 | the first write starts at once, the second is buffered until the first is dequeued, and then the writer is idle |
| `BufferedWriting.DiscardKeepsActiveWrite` | Firestore/core/src/firebase/firestore/remote/buffered_writer.h:66-67 | discarding leaves the active write active, and the discarded messages are never started |
| `BufferedWriting.BufferedWritesTestAsWritten` | Firestore/core/test/firebase/firestore/remote/buffered_writer_test.cc:60-78 | the disabled test's call sequence as written: its sixth call hands nothing over, and its seventh call hands nothing over either, contrary to the test's expectation |
| `BufferedWriting.BufferedWritesTestAsIntended` | Firestore/core/test/firebase/firestore/remote/buffered_writer_test.cc:70-76 | with the extra call a `DequeueNextWrite`, as the comment says, every expectation of the test holds |
| `GrpcStreaming.Issue` | Firestore/core/src/firebase/firestore/remote/grpc_stream.cc:50-54 | an operation reaches gRPC exactly when the completion queue is not shut down |
| `GrpcStreaming.GrpcStream.constructor` | Firestore/core/src/firebase/firestore/remote/grpc_stream.cc:176-186 | a new stream is NotStarted, has no pending read, no writer and no events |
| `GrpcStreaming.GrpcStream.Execute` | Firestore/core/src/firebase/firestore/remote/grpc_stream.cc:50-54 | appends the operation to the trace unless the queue is shut down; nothing else changes |
| `GrpcStreaming.GrpcStream.ShutDownQueue` | Firestore/core/src/firebase/firestore/remote/grpc_stream.cc:73-74 | after shutdown every later operation is a no-op |
| `GrpcStreaming.GrpcStream.Start` | Firestore/core/src/firebase/firestore/remote/grpc_stream.cc:199-203 | fails unless NotStarted; otherwise moves to Started and issues the start call |
| `GrpcStreaming.GrpcStream.Read` | Firestore/core/src/firebase/firestore/remote/grpc_stream.cc:205-213 | fails with a read pending or when not Open; otherwise sets the pending-read flag and issues a read |
| `GrpcStreaming.GrpcStream.BufferedWrite` | Firestore/core/src/firebase/firestore/remote/grpc_stream.cc:250-256 | hands the message to the writer: issued at once iff no write was active, else buffered |
| `GrpcStreaming.GrpcStream.Write` | Firestore/core/src/firebase/firestore/remote/grpc_stream.cc:215-219 | fails unless Open; from Open it is `BufferedWrite` |
| `GrpcStreaming.GrpcStream.Finish` | Firestore/core/src/firebase/firestore/remote/grpc_stream.cc:221-232 | a no-op before Start; fails from Finishing or later; otherwise moves to Finishing, drops the writer, cancels the context and issues the client finish |
| `GrpcStreaming.GrpcStream.WriteAndFinish` | Firestore/core/src/firebase/firestore/remote/grpc_stream.cc:234-248 | before Open it is `Finish`; from Open it discards unstarted writes, enters FinishingWithWrite and buffers the final message |
| `GrpcStreaming.GrpcStream.OnStart` | Firestore/core/src/firebase/firestore/remote/grpc_stream.cc:264-273 | always Open with a fresh empty writer; only with the same generation is the observer told and a read issued |
| `GrpcStreaming.GrpcStream.OnRead` | Firestore/core/src/firebase/firestore/remote/grpc_stream.cc:275-284 | clears the pending read; with the same generation reports the message and reads again |
| `GrpcStreaming.GrpcStream.OnWrite` | Firestore/core/src/firebase/firestore/remote/grpc_stream.cc:286-297 | the final write's completion finishes the stream; otherwise, with the same generation, dequeues the next write and reports the write, and a missing writer is a null dereference |
| `GrpcStreaming.GrpcStream.OnFinishedByServer` | Firestore/core/src/firebase/firestore/remote/grpc_stream.cc:299-305 | moves to Finished and reports the status only with the same generation |
| `GrpcStreaming.GrpcStream.OnFinishedByClient` | Firestore/core/src/firebase/firestore/remote/grpc_stream.cc:307-311 | moves to Finished without notifying anyone |
| `GrpcStreaming.GrpcStream.OnOperationFailed` | Firestore/core/src/firebase/firestore/remote/grpc_stream.cc:313-333 | fails when Finished; a no-op from Finishing on; otherwise drops the writer and finishes through the server (same generation) or at once |
| `GrpcStreaming.GrpcStream.Complete` | Firestore/core/src/firebase/firestore/remote/grpc_stream.cc:56-64 | a completion without `ok` takes `OnOperationFailed`'s effect: it fails when Finished, is a no-op from Finishing on, and otherwise drops the writer and finishes through the server (same generation) or at once. A completion with `ok` takes its own callback's effect. A start opens the stream with an empty writer, reports it and issues the first read. A read reports the message and issues the next read when the stream is Open, fails when it is not, and on another generation reports nothing. A write ends a FinishingWithWrite stream, or starts the next buffered write and reports the write. A finish moves to Finished. The trace only grows |
| `GrpcStreaming.CannotStartTwice` | Firestore/core/test/firebase/firestore/remote/grpc_stream_test.cc:122-125 | the first `Start` succeeds, the second fails |
| `GrpcStreaming.CannotWriteBeforeStreamIsOpen` | Firestore/core/test/firebase/firestore/remote/grpc_stream_test.cc:127-131 | `Write` fails both before and just after `Start` |
| `GrpcStreaming.FinishBeforeAndAfterStarting` | Firestore/core/test/firebase/firestore/remote/grpc_stream_test.cc:133-146 | `Finish` before `Start` and after it succeeds, a second `Finish` fails, and the trace is start, cancel, client finish |
| `GrpcStreaming.WriteAndFinishBeforeOpen` | Firestore/core/test/firebase/firestore/remote/grpc_stream_test.cc:148-155 | `WriteAndFinish` before Open succeeds and acts as `Finish`, never writing |
| `GrpcStreaming.ReadIsAutomaticallyReadded` | Firestore/core/test/firebase/firestore/remote/grpc_stream_test.cc:176-185 | after opening, every read completion is reported and followed by a new read; writing works once open |
| `GrpcStreaming.CanAddSeveralWrites` | Firestore/core/test/firebase/firestore/remote/grpc_stream_test.cc:198-210 | three writes go to gRPC one at a time and each completion is reported |
| `GrpcStreaming.ObserverReceivesOnError` | Firestore/core/test/firebase/firestore/remote/grpc_stream_test.cc:212-220 | a failed read makes the stream finish through the server and the observer receives the status |
| `GrpcStreaming.ClientFinishIsNotObserved` | Firestore/core/test/firebase/firestore/remote/grpc_stream_test.cc:222-229 | a client-initiated finish is not reported to the observer |
| `GrpcStreaming.WriteAndFinishFromOpen` | Firestore/core/test/firebase/firestore/remote/grpc_stream_test.cc:231-239 | the final write is not reported; its completion finishes the stream when FinishingWithWrite ranks below Finishing and fails `Finish`'s assertion otherwise |
| `GrpcStreaming.WriteAndFinishDiscardsUnstartedWrites` | Firestore/core/test/firebase/firestore/remote/grpc_stream_test.cc:241-257 | completions in the test's order (first write, final write, finish; the queue is shut down last): only the first write and the final one reach gRPC, the buffered ones are dropped, and the observer hears only of the start and the first write |
| `GrpcStreaming.ErrorOnStart` | Firestore/core/test/firebase/firestore/remote/grpc_stream_test.cc:259-264 | a failed start leads to a server finish and only the error is reported |
| `GrpcStreaming.ErrorWithPendingWrites` | Firestore/core/test/firebase/firestore/remote/grpc_stream_test.cc:266-287 | a failed write, with a write buffered behind it, ends in the server's status and the buffered write never reaches gRPC |
| `GrpcStreaming.ErrorOnLastWrite` | Firestore/core/test/firebase/firestore/remote/grpc_stream_test.cc:289-299 | a failed final write is never reported; whether a server finish follows depends on FinishingWithWrite's rank |
| `GrpcStreaming.RaisingGenerationStopsNotifications` | Firestore/core/test/firebase/firestore/remote/grpc_stream_test.cc:301-314 | once the generation moves on, no further observer notification happens while gRPC work goes on |
| `GrpcStreaming.WriteCompletesAfterFinish` | Firestore/core/src/firebase/firestore/remote/grpc_stream.cc:286-297 | a write completing after `Finish` dropped the writer, with the generation unchanged, dereferences the missing writer |
| `Scheduling.Position` | Firestore/core/src/firebase/firestore/util/executor_std.cc:74-75 | the push position: every entry before it is due no later, the one at it is due later |
| `Scheduling.Insert` | Firestore/core/src/firebase/firestore/util/executor_std.cc:74-75 | the push into the ordered schedule behind `DoExecute` (and so `ScheduleExecution`, executor_std.cc:57-61): the result is one entry longer. `InsertAtPosition`, `InsertMultiset`, `InsertKeepsSorted` and `InsertKeepsTiesInOrder` state that it is the list insertion at `Position`, adds exactly the new entry, and keeps the due-time order and the push order of ties that executor.h:102-106 requires |
| `Scheduling.InsertMultiset` | Firestore/core/src/firebase/firestore/util/executor_std.cc:74-75 | a push adds exactly the new entry (as a multiset) |
| `Scheduling.RemoveAt` | Firestore/core/src/firebase/firestore/util/executor_std.cc:129-137 | removes exactly the entry at `k` and keeps the others in order |
| `Scheduling.IndexOfId` | Firestore/core/src/firebase/firestore/util/executor_std.cc:64-67 | the first entry carrying the id, or the length when none does |
| `Scheduling.IndexOfDelayed` | Firestore/core/src/firebase/firestore/util/executor_std.cc:129-132 | the first non-immediate entry, or the length when none exists |
| `Scheduling.WithoutId` | Firestore/core/src/firebase/firestore/util/executor_std.cc:64-67 | cancelling an id nobody carries changes nothing; otherwise one entry fewer, nothing added |
| `Scheduling.ScheduledWithTag` | Firestore/core/src/firebase/firestore/util/executor.h:95-97 | true iff some delayed entry carries the tag; immediate entries never count |
| `Scheduling.HasDelayed` | Firestore/core/src/firebase/firestore/util/executor.h:98-101 | true iff some delayed entry is pending; immediate entries never count |
| `Scheduling.InsertAtPosition` | Firestore/core/src/firebase/firestore/util/executor_std.cc:74-75 | a push is the list insertion at the first entry due later |
| `Scheduling.InsertMembers` | Firestore/core/src/firebase/firestore/util/executor_std.cc:74-75 | after a push the members are the old ones plus the new entry |
| `Scheduling.RemoveMembers` | Firestore/core/src/firebase/firestore/util/executor_std.cc:129-137 | removing one entry keeps every other one |
| `Scheduling.InsertIndices` | Firestore/core/src/firebase/firestore/util/executor_std.cc:74-75 | where each entry of the pushed schedule comes from |
| `Scheduling.PositionUnique` | Firestore/core/src/firebase/firestore/util/executor_std.cc:74-75 | any index with the defining properties of the push position is it |
| `Scheduling.PositionSplitsSorted` | Firestore/core/src/firebase/firestore/util/executor.h:102-106 | in a sorted schedule every entry from the push position on is due strictly later |
| `Scheduling.InsertKeepsSorted` | Firestore/core/src/firebase/firestore/util/executor.h:102-106 | pushing keeps the schedule ordered by due time |
| `Scheduling.InsertKeepsTiesInOrder` | Firestore/core/src/firebase/firestore/util/executor.h:71-74 | entries due together stay in push order when the pushed id exceeds every id present |
| `Scheduling.InsertKeepsDistinctIds` | Firestore/core/src/firebase/firestore/util/executor_std.cc:96-102 | a fresh id from the counter keeps ids distinct and below the counter |
| `Scheduling.ImmediateIsFifo` | Firestore/core/src/firebase/firestore/util/executor.h:71-74 | immediate work joins the back of the immediate prefix, so it runs first-in first-out |
| `Scheduling.DelayedKeepsImmediatePrefix` | Firestore/core/src/firebase/firestore/util/executor.h:71-74 | a delayed push never overtakes or separates immediate work |
| `Scheduling.ImmediateIsNotScheduled` | Firestore/core/src/firebase/firestore/util/executor.h:95-101 | pushing immediate work changes neither `IsScheduled` nor `IsScheduleEmpty` |
| `Scheduling.DelayedIsScheduled` | Firestore/core/src/firebase/firestore/util/executor.h:95-101 | a pushed delayed entry is scheduled under its tag and the schedule is not empty |
| `Scheduling.RemoveKeepsOrder` | Firestore/core/src/firebase/firestore/util/executor_std.cc:129-137 | removing an entry keeps sortedness, tie order and distinct ids |
| `Scheduling.CancelRemovesOnlyThatEntry` | Firestore/core/src/firebase/firestore/util/executor_std.cc:64-67 | with distinct ids, cancelling removes exactly the entry with that id and keeps every other |
| `Scheduling.FirstDelayedIsNearestDue` | Firestore/core/src/firebase/firestore/util/executor.h:102-106 | the first delayed entry of a sorted schedule is due no later than any other delayed entry |
| `Scheduling.RemovalOfFrontDelayed` | Firestore/core/src/firebase/firestore/util/executor_std.cc:129-137 | popping the first delayed entry leaves the immediate prefix as it was |
| `StdExecution.OperationsOf` | Firestore/core/src/firebase/firestore/util/executor_std.cc:79-87 | the operations of the entries, in order |
| `StdExecution.ExecutorStd.constructor` | Firestore/core/src/firebase/firestore/util/executor_std.cc:24-33 | an empty schedule, the id counter at 0, not shutting down |
| `StdExecution.ExecutorStd.NextId` | Firestore/core/src/firebase/firestore/util/executor_std.cc:96-102 | returns the counter and increments it |
| `StdExecution.ExecutorStd.DoExecute` | Firestore/core/src/firebase/firestore/util/executor_std.cc:69-77 | pushes the entry under a fresh id and returns that id |
| `StdExecution.ExecutorStd.Execute` | Firestore/core/src/firebase/firestore/util/executor_std.cc:43-45 | queues the operation behind every earlier immediate one |
| `StdExecution.ExecutorStd.ScheduleExecution` | Firestore/core/src/firebase/firestore/util/executor_std.cc:47-62 | a negative delay fails; otherwise the entry is due at now + delay under the caller's tag and the handle cancels by its id |
| `StdExecution.ExecutorStd.TryCancel` | Firestore/core/src/firebase/firestore/util/executor_std.cc:64-67 | removes the entry with that id, if still pending |
| `StdExecution.ExecutorStd.Cancel` | Firestore/core/src/firebase/firestore/util/executor.h:40-44 | a handle cancels its entry if still pending and is a no-op otherwise; an empty handle has nothing to call |
| `StdExecution.ExecutorStd.IsScheduled` | Firestore/core/src/firebase/firestore/util/executor.h:95-97 | true iff a pending delayed entry carries the tag |
| `StdExecution.ExecutorStd.IsScheduleEmpty` | Firestore/core/src/firebase/firestore/util/executor.h:98-101 | true iff no delayed entry is pending, whatever immediate work waits |
| `StdExecution.ExecutorStd.PopFromSchedule` | Firestore/core/src/firebase/firestore/util/executor_std.cc:129-137 | removes and returns the first delayed entry's tag and operation, or the empty tagged operation when none exists |
| `StdExecution.ExecutorStd.UnblockQueue` | Firestore/core/src/firebase/firestore/util/executor_std.cc:89-94 | pushes an immediate no-op with id 0 and tag -1 |
| `StdExecution.ExecutorStd.ShutDown` | Firestore/core/src/firebase/firestore/util/executor_std.cc:35-41 | sets the shutdown flag and wakes the worker |
| `StdExecution.ExecutorStd.PollOnce` | Firestore/core/src/firebase/firestore/util/executor_std.cc:79-87 | pops the front entry exactly when it is due and the worker is not shutting down |
| `StdExecution.ExecutorStd.RunDue` | Firestore/core/src/firebase/firestore/util/executor_std.cc:79-87 | the worker loop runs, in schedule order, exactly the entries due by `now` |
| `Queueing.Waiting` | Firestore/core/src/firebase/firestore/util/executor.h:75-77 | the immediate entries at the front of the schedule, those a blocking call waits for |
| `Queueing.WorkIds` | Firestore/core/src/firebase/firestore/util/async_queue.cc:122-124 | the ids of the wrapped operations held by entries, in order |
| `Queueing.WorkIdsAppend` | Firestore/core/src/firebase/firestore/util/async_queue.cc:122-124 | ids of a concatenation are the concatenation of ids |
| `Queueing.InsertKeepsQueueInvariant` | Firestore/core/src/firebase/firestore/util/async_queue.cc:84-99 | a push through the queue keeps the schedule sorted, ties in order, ids distinct and fresh, delayed tags distinct, and every entry wrapped |
| `Queueing.RemoveKeepsQueueInvariant` | Firestore/core/src/firebase/firestore/util/executor_std.cc:129-137 | popping keeps the queue's invariant |
| `Queueing.CancelKeepsQueueInvariant` | Firestore/core/src/firebase/firestore/util/executor_std.cc:64-67 | cancelling keeps the queue's invariant |
| `Queueing.CancelDelayedKeepsWaiting` | Firestore/core/src/firebase/firestore/util/executor_std.cc:64-67 | cancelling a delayed entry leaves the waiting immediate work untouched |
| `Queueing.PopFrontWaiting` | Firestore/core/src/firebase/firestore/util/executor_std.cc:79-87 | running the front immediate entry shortens the waiting work by exactly that one |
| `Queueing.WeightOfConcat` | Firestore/core/src/firebase/firestore/util/async_queue.cc:113-118 | the drain measure is additive |
| `Queueing.WeightOfInsert` | Firestore/core/src/firebase/firestore/util/async_queue.cc:113-118 | a push adds exactly its entry's weight to the drain measure |
| `Queueing.WeightOfRemove` | Firestore/core/src/firebase/firestore/util/async_queue.cc:113-118 | a pop subtracts exactly its entry's weight |
| `Queueing.WeightOfCancel` | Firestore/core/src/firebase/firestore/util/async_queue.cc:113-118 | cancelling never increases the drain measure |
| `Queueing.HandlesAfterInsert` | Firestore/core/src/firebase/firestore/util/async_queue.cc:84-99 | handles issued by an operation keep pointing at delayed entries after a push |
| `Queueing.HandlesAfterDelayed` | Firestore/core/src/firebase/firestore/util/async_queue.cc:84-99 | the handle returned for a new delayed entry joins the others |
| `Queueing.HandlesAfterCancel` | Firestore/core/src/firebase/firestore/util/async_queue.cc:31-33 | cancelling keeps the handles pointing at delayed entries |
| `Queueing.CallEffect` | Firestore/core/src/firebase/firestore/util/async_queue.cc:69-99 | a call from inside an operation: a failed one changes nothing; a successful one pushes at most one entry under the next id |
| `Queueing.DelayedCallEffect` | Firestore/core/src/firebase/firestore/util/async_queue.cc:84-99 | a delayed call under a free timer with a non-negative delay schedules a leaf at now + delay |
| `Queueing.WorkEffect` | Firestore/core/src/firebase/firestore/util/async_queue.cc:58-67 | an operation's calls in order up to the first failure; each consumes at most one id |
| `Queueing.AsyncQueue.constructor` | Firestore/core/src/firebase/firestore/util/async_queue.cc:41-44 | no operation in progress, an empty schedule, nothing run |
| `Queueing.AsyncQueue.VerifyIsAsyncCall` | Firestore/core/src/firebase/firestore/util/async_queue.cc:46-48 | passes exactly on the queue |
| `Queueing.AsyncQueue.VerifySequentialOrder` | Firestore/core/src/firebase/firestore/util/async_queue.cc:126-133 | fails exactly inside a running operation on the queue |
| `Queueing.AsyncQueue.VerifyCalledFromOperation` | Firestore/core/src/firebase/firestore/util/async_queue.cc:50-56 | passes exactly inside a running operation, and is the inverse of `VerifySequentialOrder` |
| `Queueing.AsyncQueue.StartCheck` | Firestore/core/src/firebase/firestore/util/async_queue.cc:58-62 | `StartExecution`'s assertions: on the queue and no operation in progress |
| `Queueing.AsyncQueue.StartExecution` | Firestore/core/src/firebase/firestore/util/async_queue.cc:58-67 | runs the operation with the flag raised and logs only it; a failed check changes nothing |
| `Queueing.AsyncQueue.RunWork` | Firestore/core/src/firebase/firestore/util/async_queue.cc:122-124 | the wrapped body's calls take the effect `WorkEffect` states |
| `Queueing.AsyncQueue.DoCall` | Firestore/core/src/firebase/firestore/util/async_queue.cc:69-99 | one call from inside an operation takes the effect `CallEffect` states |
| `Queueing.AsyncQueue.CallAllowingNesting` | Firestore/core/src/firebase/firestore/util/async_queue.cc:74-77 | a nested `EnqueueAllowingNesting` takes its `CallEffect` |
| `Queueing.AsyncQueue.CallAfterDelay` | Firestore/core/src/firebase/firestore/util/async_queue.cc:84-99 | a nested `EnqueueAfterDelay` takes its `CallEffect` |
| `Queueing.AsyncQueue.CallCancel` | Firestore/core/src/firebase/firestore/util/async_queue.cc:31-33 | a nested cancel through a handle takes its `CallEffect` |
| `Queueing.AsyncQueue.Enqueue` | Firestore/core/src/firebase/firestore/util/async_queue.cc:69-72 | refused inside a running operation; otherwise queued behind the waiting immediate work |
| `Queueing.AsyncQueue.EnqueueAllowingNesting` | Firestore/core/src/firebase/firestore/util/async_queue.cc:74-77 | always queued behind the waiting immediate work |
| `Queueing.AsyncQueue.EnqueueAfterDelay` | Firestore/core/src/firebase/firestore/util/async_queue.cc:84-99 | refused off the queue, under a pending timer and with a negative delay; otherwise scheduled at now + delay under the timer's tag |
| `Queueing.AsyncQueue.Cancel` | Firestore/core/src/firebase/firestore/util/async_queue.cc:31-33 | afterwards no entry carries the handle's id; an empty handle fails |
| `Queueing.AsyncQueue.IsScheduled` | Firestore/core/src/firebase/firestore/util/async_queue.cc:101-104 | asked on the queue, true iff a delayed entry carries the timer's tag |
| `Queueing.AsyncQueue.ExecuteBlocking` | Firestore/core/src/firebase/firestore/util/executor.h:75-77 | when it succeeds, the waiting immediate work ran in order and then the operation |
| `Queueing.AsyncQueue.DrainWaiting` | Firestore/core/src/firebase/firestore/util/executor.h:75-77 | runs exactly the immediate work waiting at call time |
| `Queueing.AsyncQueue.EnqueueBlocking` | Firestore/core/src/firebase/firestore/util/async_queue.cc:79-82 | refused inside a running operation; otherwise the operation has run when the call returns |
| `Queueing.AsyncQueue.RunNextDue` | Firestore/core/src/firebase/firestore/util/executor_std.cc:79-87 | pops the front entry iff it is due and runs it inside `StartExecution` |
| `Queueing.AsyncQueue.RunScheduledOperationsUntil` | Firestore/core/src/firebase/firestore/util/async_queue.cc:105-119 | refused on the queue. With no immediate work waiting, it fails exactly when the requested timer has no pending entry (`All` excepted), and fails with nothing scheduled when no delayed entry is pending. Otherwise it pops at least one entry, the nearest-due first, and the log grows by the waiting work and then the popped operations. No popped tag before the last is the requested one. For the model's operations, whose nested operations make no calls and whose cancels reach only handles they issued, a success on a timer other than `All` ends with the requested tag, while a drain under `All` ends on an `All` entry or an empty schedule |
| `Queueing.AsyncQueue.RunDelayedAfterDrain` | Firestore/core/src/firebase/firestore/util/async_queue.cc:109-118 | the blocking body: its two assertions fail exactly as stated above and change nothing; otherwise the do-while loop pops the nearest-due entry first and logs the popped operations |
| `Queueing.WorkEffectIsNoDrainFailure` | Firestore/core/src/firebase/firestore/util/async_queue.cc:58-67 | no wrapped operation fails with either of the drain's own assertions |
| `Queueing.AsyncQueue.RunDelayedUntil` | Firestore/core/src/firebase/firestore/util/async_queue.cc:113-118 | the do-while loop: it pops at least once; every turn pops the nearest-due entry of the schedule as that turn finds it (the first turn sees the schedule at entry); the log grows by the popped operations; the same stop condition. For the model's operations a requested timer pending at entry is always reached, as they cannot cancel it |
| `Queueing.AsyncQueue.PopAndRun` | Firestore/core/src/firebase/firestore/util/async_queue.cc:115-116 | one turn pops the nearest-due delayed entry and logs its operation when it succeeds, strictly decreases the drain measure and keeps any delayed entry under another tag: a modelled operation cancels only entries it scheduled itself, so a requested tag not yet popped stays scheduled |
| `Queueing.AsyncQueue.PopDelayed` | Firestore/core/src/firebase/firestore/util/executor.h:102-106 | removes the nearest-due delayed entry, which holds a wrapped operation, and keeps the waiting immediate work |
| `QueueingScenarios.Now` | Firestore/core/src/firebase/firestore/util/executor.h:71-74 | builds an immediate entry |
| `QueueingScenarios.Later` | Firestore/core/src/firebase/firestore/util/executor.h:78-86 | builds a delayed entry |
| `QueueingScenarios.EnqueueFromOperationTrace` | Firestore/core/test/firebase/firestore/util/async_queue_test_libdispatch.cc:68-76 | the nested `Enqueue` call fails and changes nothing |
| `QueueingScenarios.EnqueueDisallowsNesting` | Firestore/core/test/firebase/firestore/util/async_queue_test_libdispatch.cc:68-76 | an operation that calls `Enqueue` fails the nesting assertion |
| `QueueingScenarios.EnqueueAllowingNestingTrace` | Firestore/core/test/firebase/firestore/util/async_queue_test_libdispatch.cc:78-85 | the nested call queues the inner operation |
| `QueueingScenarios.EnqueueAllowsNesting` | Firestore/core/test/firebase/firestore/util/async_queue_test_libdispatch.cc:78-85 | the nested operation is queued and runs next |
| `QueueingScenarios.BlockingTrace` | Firestore/core/test/firebase/firestore/util/async_queue_test_libdispatch.cc:96-100 | a leaf run blocking leaves the schedule empty |
| `QueueingScenarios.EnqueueBlockingRuns` | Firestore/core/test/firebase/firestore/util/async_queue_test_libdispatch.cc:96-100 | `EnqueueBlocking` has run its operation when it returns |
| `QueueingScenarios.EnqueueBlockingDisallowsNesting` | Firestore/core/test/firebase/firestore/util/async_queue_test_libdispatch.cc:102-107 | a blocking enqueue from inside a blocking operation fails |
| `QueueingScenarios.StartExecutionDisallowsNesting` | Firestore/core/test/firebase/firestore/util/async_queue_test_libdispatch.cc:109-112 | `StartExecution` from inside an operation fails |
| `QueueingScenarios.VerifyCalledFromOperationCases` | Firestore/core/test/firebase/firestore/util/async_queue_test_libdispatch.cc:114-129 | fails off the queue and on the queue outside an operation; passes inside one |
| `QueueingScenarios.Scheduler` | Firestore/core/test/firebase/firestore/util/async_queue_test_libdispatch.cc:135-143 | the scheduling test's second operation |
| `QueueingScenarios.ScheduleTrace` | Firestore/core/test/firebase/firestore/util/async_queue_test_libdispatch.cc:135-143 | that operation leaves the nested immediate one first and the delayed ones ordered by due time |
| `QueueingScenarios.RunDueLeaf` | Firestore/core/src/firebase/firestore/util/executor_std.cc:79-87 | a due leaf at the front runs and leaves the rest |
| `QueueingScenarios.RunScheduler` | Firestore/core/test/firebase/firestore/util/async_queue_test_libdispatch.cc:131-143 | the test's first two operations run and schedule the rest |
| `QueueingScenarios.CanScheduleOperationsInTheFuture` | Firestore/core/test/firebase/firestore/util/async_queue_test_libdispatch.cc:131-147 | immediate work runs first in order, then delayed work nearest due first: 1, 2, 3, 4 |
| `QueueingScenarios.Canceller` | Firestore/core/test/firebase/firestore/util/async_queue_test_libdispatch.cc:152-169 | the cancelling test's operation |
| `QueueingScenarios.WorkEffectStep` | Firestore/core/src/firebase/firestore/util/async_queue.cc:58-67 | a successful call hands its effect on to the calls after it |
| `QueueingScenarios.TimerTwoIsFree` | Firestore/core/test/firebase/firestore/util/async_queue_test_libdispatch.cc:161-164 | the second timer is not yet scheduled when the second delayed call is made |
| `QueueingScenarios.InsertSecondDelayed` | Firestore/core/test/firebase/firestore/util/async_queue_test_libdispatch.cc:161-164 | where the second delayed entry lands |
| `QueueingScenarios.SecondDelayedCall` | Firestore/core/test/firebase/firestore/util/async_queue_test_libdispatch.cc:161-164 | the effect of the second delayed call |
| `QueueingScenarios.RemoveFirstDelayed` | Firestore/core/test/firebase/firestore/util/async_queue_test_libdispatch.cc:167 | cancelling the first delayed entry leaves the others |
| `QueueingScenarios.CancelCall` | Firestore/core/test/firebase/firestore/util/async_queue_test_libdispatch.cc:167 | the effect of the cancel call |
| `QueueingScenarios.CancelTrace` | Firestore/core/test/firebase/firestore/util/async_queue_test_libdispatch.cc:152-169 | the whole operation leaves the nested immediate entry and only the second delayed one |
| `QueueingScenarios.RunCanceller` | Firestore/core/test/firebase/firestore/util/async_queue_test_libdispatch.cc:152-169 | the cancelling operation runs to completion |
| `QueueingScenarios.CanCancelDelayedCallbacks` | Firestore/core/test/firebase/firestore/util/async_queue_test_libdispatch.cc:149-175 | the cancelled delayed operation never runs, the other does: 1, 3 |
| `QueueingScenarios.Delayer` | Firestore/core/test/firebase/firestore/util/async_queue_test_libdispatch.cc:179-183 | the handle test's operation |
| `QueueingScenarios.HandleTrace` | Firestore/core/test/firebase/firestore/util/async_queue_test_libdispatch.cc:179-183 | it schedules one delayed leaf and keeps its handle |
| `QueueingScenarios.DelayedOperationIsValidAfterTheOperationHasRun` | Firestore/core/test/firebase/firestore/util/async_queue_test_libdispatch.cc:177-189 | after the delayed operation has run, cancelling through its handle succeeds and changes nothing |
| `QueueOperations.TimerTag` | Firestore/core/src/firebase/firestore/util/async_queue.h:36-57 | a timer's tag is its position in the enumeration, and converts back to it |
| `QueueOperations.TimerFromTag` | Firestore/core/src/firebase/firestore/util/async_queue.h:36-57 | exactly the tags 0 to 5 name a timer |
| `QueueOperations.TimerTagInjective` | Firestore/core/src/firebase/firestore/util/async_queue.cc:96 | distinct timers never share a tag |
| `QueueOperations.Leaf` | Firestore/core/src/firebase/firestore/util/executor.h:57 | an operation whose body makes no queue calls |
| `DispatchQueueing.DelayedOperationImpl.constructor` | Firestore/core/src/firebase/firestore/util/async_queue_libdispatch.cc:84-95 | a new delayed operation is not done and records its timer, target time and operation |
| `DispatchQueueing.DelayedOperationImpl.Cancel` | Firestore/core/src/firebase/firestore/util/async_queue_libdispatch.cc:97-100 | passes `VerifyIsCurrentQueue` or fails it; on success the operation is done |
| `DispatchQueueing.DelayedOperationImpl.SkipDelay` | Firestore/core/src/firebase/firestore/util/async_queue_libdispatch.cc:102-104 | queues `HandleDelayElapsed` of this operation behind the pending blocks |
| `DispatchQueueing.DelayedOperationImpl.HandleDelayElapsed` | Firestore/core/src/firebase/firestore/util/async_queue_libdispatch.cc:127-148 | runs the operation iff not done, so at most once; then removes the object from the registry, failing when it is no longer registered |
| `DispatchQueueing.Erase` | Firestore/core/src/firebase/firestore/util/async_queue_libdispatch.cc:177-186 | removes every occurrence of the element and keeps every other one, with its multiplicity |
| `DispatchQueueing.FirstWithTimer` | Firestore/core/src/firebase/firestore/util/async_queue_libdispatch.cc:279-283 | the index of the first entry under the timer, or the length |
| `DispatchQueueing.RunUntil` | Firestore/core/src/firebase/firestore/util/async_queue_libdispatch.cc:275-289 | all entries for `All`; else the prefix up to and including the first under the timer; none when no entry carries it |
| `DispatchQueueing.InsertByTime` | Firestore/core/src/firebase/firestore/util/async_queue_libdispatch.cc:110-112 | inserting into a list sorted by target time keeps it sorted and adds exactly the element |
| `DispatchQueueing.SortedCons` | Firestore/core/src/firebase/firestore/util/async_queue_libdispatch.cc:110-112 | an element due no later than a sorted list's head extends it sorted |
| `DispatchQueueing.SortByTime` | Firestore/core/src/firebase/firestore/util/async_queue_libdispatch.cc:269-273 | the result is ordered by target time and a permutation of the input |
| `DispatchQueueing.ElapseBlocks` | Firestore/core/src/firebase/firestore/util/async_queue_libdispatch.cc:291-293 | one `HandleDelayElapsed` block per entry, in order |
| `DispatchQueueing.AsyncQueue.VerifyIsCurrentQueue` | Firestore/core/src/firebase/firestore/util/async_queue_libdispatch.cc:188-197 | passes exactly on the target queue inside a checked operation |
| `DispatchQueueing.AsyncQueue.ContainsDelayedOperation` | Firestore/core/src/firebase/firestore/util/async_queue_libdispatch.cc:252-257 | true iff some registered operation carries the timer |
| `DispatchQueueing.AsyncQueue.DispatchAsync` | Firestore/core/src/firebase/firestore/util/async_queue_libdispatch.cc:33-45 | the block joins the back of the serial queue |
| `DispatchQueueing.AsyncQueue.BeginCheckedOperation` | Firestore/core/src/firebase/firestore/util/async_queue_libdispatch.cc:199-206 | fails exactly when an operation is in progress; the flag is set afterwards |
| `DispatchQueueing.AsyncQueue.EndCheckedOperation` | Firestore/core/src/firebase/firestore/util/async_queue_libdispatch.cc:209 | clears the flag and nothing else |
| `DispatchQueueing.AsyncQueue.Enqueue` | Firestore/core/src/firebase/firestore/util/async_queue_libdispatch.cc:212-220 | fails exactly inside an operation on the target queue; otherwise queues a checked block |
| `DispatchQueueing.AsyncQueue.EnqueueAllowingSameQueue` | Firestore/core/src/firebase/firestore/util/async_queue_libdispatch.cc:222-226 | always queues a checked block |
| `DispatchQueueing.AsyncQueue.EnqueueAfterDelay` | Firestore/core/src/firebase/firestore/util/async_queue_libdispatch.cc:228-240 | fails exactly when the timer is already registered; otherwise appends a fresh, armed, not-done operation and returns a handle to it |
| `DispatchQueueing.AsyncQueue.RemoveDelayedOperation` | Firestore/core/src/firebase/firestore/util/async_queue_libdispatch.cc:177-186 | erases the operation; the assertion fails exactly when it was not registered |
| `DispatchQueueing.AsyncQueue.RunDelayed` | Firestore/core/src/firebase/firestore/util/async_queue_libdispatch.cc:134 | runs a not-yet-run operation once, keeping "no operation runs twice" |
| `DispatchQueueing.AsyncQueue.DrainDelayed` | Firestore/core/src/firebase/firestore/util/async_queue_libdispatch.cc:268-299 | sorts the registry by time; fails when no entry carries the timer; otherwise queues `HandleDelayElapsed` for the selected prefix, then the signal |
| `DispatchQueueing.AsyncQueue.SortOperations` | Firestore/core/src/firebase/firestore/util/async_queue_libdispatch.cc:269-273 | the registry becomes `SortByTime` of itself |
| `DispatchQueueing.SortKeepsMembers` | Firestore/core/src/firebase/firestore/util/async_queue_libdispatch.cc:269-273 | sorting keeps exactly the registered operations, and keeps them distinct |
| `DispatchQueueing.AsyncQueue.SkipDelays` | Firestore/core/src/firebase/firestore/util/async_queue_libdispatch.cc:291-293 | one `SkipDelay` per entry of the prefix, in order |
| `DispatchQueueing.AsyncQueue.RunDelayedOperationsUntil` | Firestore/core/src/firebase/firestore/util/async_queue_libdispatch.cc:265-302 | fails like `Enqueue` inside an operation on the queue; otherwise queues the draining body |
| `DispatchQueueing.AsyncQueue.RunNextBlock` | Firestore/core/src/firebase/firestore/util/async_queue_libdispatch.cc:199-210 | the front block runs inside a checked operation, and fails when one is already in progress; a checked block, a signal, an elapsed delay and a drain each take their own effect; the blocks behind it stay queued |
| `DispatchQueueing.AsyncQueue.TimerElapsed` | Firestore/core/src/firebase/firestore/util/async_queue_libdispatch.cc:115-125 | a fired timer runs `HandleDelayElapsed` inside a checked operation and is disarmed |
| `DispatchQueueing.AsyncQueue.RunSync` | Firestore/core/src/firebase/firestore/util/async_queue_libdispatch.cc:242-250 | fails inside an operation on the queue and changes nothing; on success `op` is the last operation run; when only enqueued operations are queued, they run in order, then `op`, and the queue is empty |
| `DispatchQueueing.AsyncQueue.RunQueuedBlocks` | Firestore/core/src/firebase/firestore/util/async_queue_libdispatch.cc:47-58 | `dispatch_sync_f` first runs the blocks queued before it; when they are all enqueued operations, their operations are logged in queue order and the queue empties |
| `DispatchQueueing.CheckedIds` | Firestore/core/src/firebase/firestore/util/async_queue_libdispatch.cc:242-250 | when every block is an enqueued operation, the list holds exactly their operations, position by position |
| `DispatchQueueing.CancelDelayedOperation` | Firestore/core/src/firebase/firestore/util/async_queue_libdispatch.cc:171-175 | a no-op when the handle is empty or its operation is gone; otherwise the operation's `Cancel` |
| `DispatchQueueingScenarios.EnqueueDisallowsNesting` | Firestore/core/test/firebase/firestore/util/async_queue_test_libdispatch.cc:68-76 | the outer operation runs and its nested `Enqueue` fails |
| `DispatchQueueingScenarios.SameQueueIsAllowedForUnownedActions` | Firestore/core/test/firebase/firestore/util/async_queue_test_libdispatch.cc:87-94 | a block on the queue outside a checked operation may enqueue, and the operation runs |
| `DispatchQueueingScenarios.EnqueueAllowsNestingWhenAllowed` | Firestore/core/test/firebase/firestore/util/async_queue_test_libdispatch.cc:78-85 | an operation may queue another through the unchecked enqueue, and it runs |
| `DispatchQueueingScenarios.RunSyncCases` | Firestore/core/test/firebase/firestore/util/async_queue_test_libdispatch.cc:96-107 | `RunSync` runs its operation before returning; nested inside one it fails |
| `DispatchQueueingScenarios.StartExecutionDisallowsNesting` | Firestore/core/test/firebase/firestore/util/async_queue_test_libdispatch.cc:109-112 | entering a checked operation inside another fails |
| `DispatchQueueingScenarios.VerifyIsCurrentQueueCases` | Firestore/core/test/firebase/firestore/util/async_queue_test_libdispatch.cc:114-129 | fails off the queue and outside an operation; passes inside one |
| `DispatchQueueingScenarios.DuplicateTimerIsRejected` | Firestore/core/src/firebase/firestore/util/async_queue_libdispatch.cc:233-235 | a second operation under a registered timer is refused and only one stays registered |
| `DispatchQueueingScenarios.CancelThenTimerRunsNothing` | Firestore/core/src/firebase/firestore/util/async_queue_libdispatch.cc:97-100 | a cancelled operation's timer still fires, runs nothing and unregisters it |
| `DispatchQueueingScenarios.ScheduleTwoTimers` | Firestore/core/test/firebase/firestore/util/async_queue_test_libdispatch.cc:135-143 | the scheduling operation registers two timers and queues the nested one |
| `DispatchQueueingScenarios.FireTwoTimers` | Firestore/core/test/firebase/firestore/util/async_queue_test_libdispatch.cc:136-141 | the earlier timer fires first, then the later one |
| `DispatchQueueingScenarios.CanScheduleOperationsInTheFuture` | Firestore/core/test/firebase/firestore/util/async_queue_test_libdispatch.cc:131-147 | the run order is 1, 2, 3, 4 |
| `DispatchQueueingScenarios.ScheduleAndCancel` | Firestore/core/test/firebase/firestore/util/async_queue_test_libdispatch.cc:152-169 | the cancelling operation registers two timers and marks the first done |
| `DispatchQueueingScenarios.CanCancelDelayedCallbacks` | Firestore/core/test/firebase/firestore/util/async_queue_test_libdispatch.cc:149-175 | the cancelled operation never runs: 1, 3, and the registry ends empty |
| `DispatchQueueingScenarios.DelayedOperationIsValidAfterTheOperationHasRun` | Firestore/core/test/firebase/firestore/util/async_queue_test_libdispatch.cc:177-189 | after the operation has run, cancelling through its handle succeeds and does nothing |
| `DispatchQueueingScenarios.ScheduleThreeTimers` | Firestore/core/test/firebase/firestore/util/async_queue_test_libdispatch.cc:212-222 | the drain test's operation registers three timers |
| `DispatchQueueingScenarios.SortThreeTimers` | Firestore/core/src/firebase/firestore/util/async_queue_libdispatch.cc:269-273 | sorting the three orders them by target time |
| `DispatchQueueingScenarios.DrainTakesTwo` | Firestore/core/src/firebase/firestore/util/async_queue_libdispatch.cc:275-289 | draining until the third timer selects the first two sorted entries |
| `DispatchQueueingScenarios.RunDrainStep` | Firestore/core/src/firebase/firestore/util/async_queue_libdispatch.cc:268-299 | the draining body runs as one block |
| `DispatchQueueingScenarios.RunDrainBody` | Firestore/core/src/firebase/firestore/util/async_queue_libdispatch.cc:268-299 | after the body, the selected operations' blocks and the signal are queued |
| `DispatchQueueingScenarios.RunElapse` | Firestore/core/src/firebase/firestore/util/async_queue_libdispatch.cc:127-144 | a skipped-delay block runs its operation and unregisters it |
| `DispatchQueueingScenarios.RunSkipped` | Firestore/core/src/firebase/firestore/util/async_queue_libdispatch.cc:291-298 | both skipped operations run in time order and then the signal |
| `DispatchQueueingScenarios.RunTwoSteps` | Firestore/core/src/firebase/firestore/util/async_queue_libdispatch.cc:199-210 | the two enqueued operations of the drain test ("1" and "2") run in order, each inside `EnterCheckedOperation`, which leaves no operation in progress and the queue empty |
| `DispatchQueueingScenarios.CanManuallyDrainSpecificDelayedCallbacks` | Firestore/core/test/firebase/firestore/util/async_queue_test_libdispatch.cc:209-227 | draining until the third timer runs 3 and 4 before the semaphore is signalled; the fourth operation stays registered: 1, 2, 3, 4 |
| `DispatchExecution.DelayedOperationImpl.constructor` | Firestore/core/src/firebase/firestore/util/async_queue_libdispatch.h:56-64 | a new operation is not done and points back to its executor |
| `DispatchExecution.DelayedOperationImpl.MarkDone` | Firestore/core/src/firebase/firestore/util/async_queue_libdispatch.h:72-74 | sets `done` |
| `DispatchExecution.DelayedOperationImpl.Dequeue` | Firestore/core/src/firebase/firestore/util/async_queue_libdispatch.h:264-267 | removes the operation from its executor's list |
| `DispatchExecution.DelayedOperationImpl.Cancel` | Firestore/core/src/firebase/firestore/util/async_queue_libdispatch.h:229-234 | as written: a not-done operation leaves the list, but `done` is unchanged; the "listed means live" invariant is kept |
| `DispatchExecution.DelayedOperationImpl.CancelAndMarkDone` | Firestore/core/src/firebase/firestore/util/async_queue_libdispatch.h:229-234 | as intended: a not-done operation leaves the list and is done afterwards |
| `DispatchExecution.DelayedOperationImpl.Execute` | Firestore/core/src/firebase/firestore/util/async_queue_libdispatch.h:250-262 | does nothing when done; otherwise dequeues, marks done and runs, so at most once |
| `DispatchExecution.DelayedOperationImpl.InvokedByLibdispatch` | Firestore/core/src/firebase/firestore/util/async_queue_libdispatch.h:242-248 | a fired timer is disarmed, every other armed timer stays armed, and it runs `Execute` |
| `DispatchExecution.IndexOfOperation` | Firestore/core/src/firebase/firestore/util/async_queue_libdispatch.h:192-195 | the first entry pointing at the operation, or the length |
| `DispatchExecution.RemoveFirst` | Firestore/core/src/firebase/firestore/util/async_queue_libdispatch.h:191-201 | erases the first matching entry, keeping the rest in order; a no-op when none matches |
| `DispatchExecution.Erase` | Firestore/core/src/firebase/firestore/util/async_queue_libdispatch.h:242-247 | drops the fired timer and keeps every other one, with its multiplicity |
| `DispatchExecution.Executor.constructor` | Firestore/core/src/firebase/firestore/util/async_queue_libdispatch.h:132-138 | an empty list and nothing run |
| `DispatchExecution.Executor.Execute` | Firestore/core/src/firebase/firestore/util/async_queue_libdispatch.h:157-159 | the operation joins the back of the serial queue |
| `DispatchExecution.Executor.ExecuteBlocking` | Firestore/core/src/firebase/firestore/util/async_queue_libdispatch.h:160-162 | the queued blocks run first, then the operation |
| `DispatchExecution.Executor.ScheduleExecution` | Firestore/core/src/firebase/firestore/util/async_queue_libdispatch.h:164-189 | appends exactly one entry under the tag with a fresh, armed, not-done operation due at now + delay |
| `DispatchExecution.Executor.Remove` | Firestore/core/src/firebase/firestore/util/async_queue_libdispatch.h:191-201 | erases the first entry pointing at the operation; a no-op if none does |
| `DispatchExecution.Executor.Disarm` | Firestore/core/src/firebase/firestore/util/async_queue_libdispatch.h:185-186 | the fired timer no longer belongs to libdispatch; every other armed timer stays armed |
| `DispatchExecution.Executor.RunDelayed` | Firestore/core/src/firebase/firestore/util/async_queue_libdispatch.h:261 | runs a done operation that never ran, keeping "no operation runs twice" |
| `DispatchExecution.Executor.Destroy` | Firestore/core/src/firebase/firestore/util/async_queue_libdispatch.h:140-148 | after the queued blocks, every listed operation is done, and no unlisted object changes its `done` flag |
| `DispatchExecutionScenarios.ExecuteRunsAtMostOnce` | Firestore/core/src/firebase/firestore/util/async_queue_libdispatch.h:250-262 | a fired operation runs once; a second `Execute` runs nothing |
| `DispatchExecutionScenarios.CancelledOperationRunsAsWritten` | Firestore/core/src/firebase/firestore/util/async_queue_libdispatch.h:229-234 | with `Cancel` as written, a cancelled operation leaves the list but still runs when its timer fires |
| `DispatchExecutionScenarios.CancelledOperationNeverRuns` | Firestore/core/src/firebase/firestore/util/async_queue_libdispatch.h:177-181 | with `Cancel` marking the operation done, its timer runs nothing |
| `DispatchExecutionScenarios.DestroyedExecutorRunsNothing` | Firestore/core/src/firebase/firestore/util/async_queue_libdispatch.h:140-148 | a timer firing after the destructor runs nothing |
| `DispatchExecutionScenarios.RemoveOfMissingIsNoOp` | Firestore/core/src/firebase/firestore/util/async_queue_libdispatch.h:196-200 | removing an operation no longer listed leaves the other entry alone |

## Left out

- Threads, libdispatch and the worker thread. `dispatch_async_f`, `dispatch_sync_f` and `dispatch_after_f` are modelled as a FIFO of blocks and a set of armed timers, advanced by explicit steps (`RunNextBlock`, `TimerElapsed`, `PollOnce`). The semaphore wait of `RunDelayedOperationsUntil` is the caller running blocks until `Signal`. Thread ids and queue labels are the `onExecutor`/`onQueue` inputs.
- Wall-clock time. `system_clock::now()` and the nanosecond `dispatch_time` are a `now` parameter in milliseconds.
- Closures. An operation is an id plus the queue calls its body makes. Nested operations make no calls of their own. In the libdispatch scenarios a body's calls are replayed between `BeginCheckedOperation` and `EndCheckedOperation`.
- Exceptions inside operations. A failed assertion inside an operation ends that operation. In the std queue the in-progress flag then stays raised, as the exception skips its reset.
- `StdExecution.ExecutorStd.IsScheduled`, `StdExecution.ExecutorStd.IsScheduleEmpty`: the bodies in executor_std.cc:121-127 return a default value. Both are modelled from the contract in executor.h:95-101.
- `Queueing.AsyncQueue.ExecuteBlocking`: the body in executor_std.cc:139-140 is empty. It is modelled as executor.h:75-77 describes it: drain the immediate work, then run the operation.
- The executor_std.h header (the ordered container and the default tag of `DoExecute`) is not part of this model. Ordering by due time with ties in push order is taken from executor.h, and immediate entries carry tag -1.
- `UnblockQueue` uses id 0, which the first real operation also carries. Cancelling id 0 can then remove either entry; the model removes the first one.
- gRPC itself: `grpc_call`, the completion queue, `ClientContext`, `ToFirestoreStatus` (the status is passed through unchanged) and the `StreamOperation` subclasses' payload buffers.
- grpc_stream.h declares a different class layout from grpc_stream.cc (a `Delegate`, `is_started_`, `write_and_finish_`). The model follows grpc_stream.cc.
- The `State` enumeration is declared in a header that is not part of this model. Where `FinishingWithWrite` stands relative to the other states is a parameter of the stream.
- `GrpcStreaming.Rank`: `Finished` is given the highest rank (8), above `Finishing`. grpc_stream.cc only compares states against `Finishing` and tests `Finished` by equality, so nothing in the modelled code fixes that rank. It is an assumption of the model.
- The `StreamWrite*` results that buffered_writer.h:63-64 declares are not modelled. buffered_writer.cc returns `void`, and the model returns the message started, if any, which plays the same role. The `Enqueue`/`DequeueNext` names used in grpc_stream.cc:255 and :294 are taken to be `EnqueueWrite`/`DequeueNextWrite`.
- `GrpcStreaming.GrpcStream.OnWrite` on a stream whose writer was dropped ends in `Failed(NullWriterDereference)` rather than a crash.
- `DelayedOperationImpl::RescheduleAsap` (async_queue_libdispatch.h:236-240) calls `Executor::Enqueue`, which the template does not declare. It is not modelled.
- `InvokedByLibdispatch` (async_queue_libdispatch.h:242-248) calls `StartExecution`, which the template does not declare, and then deletes the object. The model runs `Execute` directly and keeps the object alive.
- `Executor::Remove` compares `op.operation` while the struct's field is `op_` (async_queue_libdispatch.h:194 and :224). The model compares the stored object reference.
- `DispatchQueueing.SortByTime`: `std::sort` is not stable, so entries with equal target times may come out in any order. The model fixes one such order, the stable one of an insertion sort, and the contracts of `SortByTime`, `DrainDelayed` and `RunNextBlock` describe that order only. When target times tie, `std::sort` may order them differently, which can change which operations the drain selects and the order in which they run.
- `DispatchQueueing.AsyncQueue.TimerElapsed`: when an operation already ran through `SkipDelay`, its object is freed and libdispatch later fires its timer on a dangling reference. The model keeps the object and reports `RemoveDelayedOperation`'s failed assertion instead of undefined behaviour.
- The drain tests at async_queue_test_libdispatch.cc:191-227 have their `RunDelayedOperationsUntil` call commented out. The model drains explicitly and shows the intended order.
- `RunSync` called on the target queue outside a checked operation would deadlock in `dispatch_sync_f`. The model runs it.
- The assertions that an operation holds a function object (async_queue_libdispatch.cc:132-133, async_queue_libdispatch.h:259-260) cannot fail in the model, since every operation is present.
- The declaration of the libdispatch `AsyncQueue` class (async_queue_libdispatch.h) is not part of this model; its fields are read off async_queue_libdispatch.cc.
- Memory lifetime through `shared_ptr`/`weak_ptr`/`new`/`delete` is modelled by object identity and the registry membership the weak handle sees.
- `CancelDelayed(n)` in an operation body names its handle by the position of the delayed call in that body, rather than by a captured variable.
- `Queueing.AsyncQueue.RunDelayedUntil`, `Queueing.AsyncQueue.PopAndRun`, `Queueing.AsyncQueue.RunScheduledOperationsUntil`: their promises that a requested pending timer is reached, that it stays scheduled until popped, and that the drain ends all rest on the model's operations. Nested operations make no calls, and a cancel reaches only handles its own body issued. In the program an operation may hold any stored `DelayedOperation` (executor.h:28-47, async_queue.h:60-70). By cancelling the requested timer's entry it makes the do-while run until the schedule is empty. An operation that re-arms its own timer keeps `RunScheduledOperationsUntil(All)` looping forever. Neither case is covered by these contracts.
- `StdExecution.ExecutorStd.NextId`: the id counter is an unbounded `nat`. executor_std.cc:96-102 post-increments a fixed-width counter and deliberately ignores its wrap-around. `InsertKeepsDistinctIds` and the `DistinctIds`/`IdsBelow` invariants rely on the counter never wrapping.

## Findings

| source | as written | input that shows it | evidently intended | confidence | as-written member | corrected member |
|---|---|---|---|---|---|---|
| Firestore/core/src/firebase/firestore/util/async_queue_libdispatch.h:229-234 | `Cancel` removes a not-done operation from the executor's list but never sets `done_` | `ScheduleExecution`, then `Cancel`, then the timer fires: `Execute` finds `done_` false and runs the cancelled operation | `Cancel` also marks the operation done (as `done_`'s comment at :88-93 and the invariant at :177-181 say), so the timer runs nothing | not executed | `DispatchExecutionScenarios.CancelledOperationRunsAsWritten` | `DispatchExecution.DelayedOperationImpl.CancelAndMarkDone` |
| Firestore/core/test/firebase/firestore/remote/buffered_writer_test.cc:73-74 | the call after "An extra call to `DequeueNextWrite` should be a no-op" is `EnqueueWrite`, which buffers a message | the test's seven calls: the last `EnqueueWrite` then expects a started write but finds one active and buffers | the extra call is `DequeueNextWrite`, which, with nothing queued, starts nothing and lets the last `EnqueueWrite` start at once | not executed | `BufferedWriting.BufferedWritesTestAsWritten` | `BufferedWriting.BufferedWritesTestAsIntended` |
