/**
 * The libdispatch queue's tests, replayed on the model. A block whose body
 * makes queue calls is played step by step: `BeginCheckedOperation`, the
 * calls with `onQueue` set, then `EndCheckedOperation`. Timers fire in
 * the order of their delays, as libdispatch fires them.
 */
module DispatchQueueingScenarios {
  import opened Wrappers
  import opened QueueOperations
  import opened DispatchQueueing

  const kTimerId1 := ListenStreamConnectionBackoff
  const kTimerId2 := ListenStreamIdle
  const kTimerId3 := WriteStreamConnectionBackoff

  /** `Enqueue` from inside an operation on the queue fails. */
  method EnqueueDisallowsNesting() returns (outer: Outcome, nested: Outcome)
    ensures outer == Ok && nested == Failed(NestedEnqueue)
  {
    var q := new AsyncQueue();
    outer := q.BeginCheckedOperation();
    nested := q.Enqueue(1, true);
  }

  /** From an unowned block on the same queue, `Enqueue` is allowed. */
  method SameQueueIsAllowedForUnownedActions() returns (r: Outcome, log: seq<OpId>)
    ensures r == Ok && log == [1]
  {
    var q := new AsyncQueue();
    r := q.Enqueue(1, true);
    var ran := q.RunNextBlock();
    log := q.log;
  }

  /** `EnqueueAllowingSameQueue` from inside an operation queues the nested one. */
  method EnqueueAllowsNestingWhenAllowed() returns (log: seq<OpId>)
    ensures log == [1]
  {
    var q := new AsyncQueue();
    var outer := q.BeginCheckedOperation();
    q.EnqueueAllowingSameQueue(1);
    q.EndCheckedOperation();
    var ran := q.RunNextBlock();
    log := q.log;
  }

  /** `RunSync` runs its operation before returning; nested, it fails. */
  method RunSyncCases() returns (blocking: Outcome, log: seq<OpId>, nested: Outcome)
    ensures blocking == Ok && log == [1]
    ensures nested == Failed(NestedEnqueue)
  {
    var q := new AsyncQueue();
    blocking := q.RunSync(1, false);
    log := q.log;
    var outer := q.BeginCheckedOperation();
    nested := q.RunSync(2, true);
  }

  /** Starting a checked operation inside another fails. */
  method StartExecutionDisallowsNesting() returns (outer: Outcome, nested: Outcome)
    ensures outer == Ok && nested == Failed(OperationInProgress)
  {
    var q := new AsyncQueue();
    outer := q.BeginCheckedOperation();
    nested := q.BeginCheckedOperation();
  }

  /** The queue check wants the target queue and an operation in progress. */
  method VerifyIsCurrentQueueCases() returns (offQueue: Outcome, noOperation: Outcome, inside: Outcome)
    ensures offQueue == Failed(NotOnQueue)
    ensures noOperation == Failed(NoOperationInProgress)
    ensures inside == Ok
  {
    var q := new AsyncQueue();
    offQueue := q.VerifyIsCurrentQueue(false);
    noOperation := q.VerifyIsCurrentQueue(true);
    var outer := q.BeginCheckedOperation();
    inside := q.VerifyIsCurrentQueue(true);
  }

  /** A second delayed operation under a registered timer is rejected. */
  method DuplicateTimerIsRejected() returns (first: Outcome, second: Outcome, registered: nat)
    ensures first == Ok && second == Failed(DuplicateTimer) && registered == 1
  {
    var q := new AsyncQueue();
    var h1, h2;
    first, h1 := q.EnqueueAfterDelay(1, kTimerId1, 1, 0);
    second, h2 := q.EnqueueAfterDelay(5, kTimerId1, 2, 0);
    registered := |q.operations|;
  }

  /** A delayed operation cancelled before its timer fires never runs. */
  method CancelThenTimerRunsNothing() returns (cancelled: Outcome, fired: Outcome, log: seq<OpId>, left: nat)
    ensures cancelled == Ok && fired == Ok && log == [] && left == 0
  {
    var q := new AsyncQueue();
    var outer := q.BeginCheckedOperation();
    var r, h := q.EnqueueAfterDelay(1, kTimerId1, 1, 0);
    cancelled := CancelDelayedOperation(h, q, true);
    q.EndCheckedOperation();
    fired := q.TimerElapsed(h.handle.value);
    log := q.log;
    left := |q.operations|;
  }

  lemma EraseFirst(a: DelayedOperationImpl, b: DelayedOperationImpl)
    requires a != b
    ensures Erase([a, b], a) == [b]
  {
    assert [a, b][1..] == [b];
    assert [b][1..] == [];
  }

  lemma EraseSecond(a: DelayedOperationImpl, b: DelayedOperationImpl)
    requires a != b
    ensures Erase([a, b], b) == [a]
  {
    assert [a, b][1..] == [b];
    assert [b][1..] == [];
  }

  lemma EraseOnly(a: DelayedOperationImpl)
    ensures Erase([a], a) == []
  {
    assert [a][1..] == [];
  }

  /**
   * The test's second block: a timer "4" due after 5 ms, a timer "3" due
   * after 1 ms, and step "2" queued behind it.
   */
  method ScheduleTwoTimers(q: AsyncQueue) returns (x3: DelayedOperationImpl, x4: DelayedOperationImpl)
    requires q.Valid() && !q.isOperationInProgress && q.operations == [] && q.pending == [] && q.armed == []
    modifies q
    ensures fresh(x3) && fresh(x4)
    ensures q.Valid() && !q.isOperationInProgress && q.pending == [Checked(2)] && q.log == old(q.log)
    ensures q.operations == [x4, x3] && q.armed == [x4, x3] && x3 != x4
    ensures x3 in q.Repr && x4 in q.Repr && !x3.done && !x4.done
    ensures x3.operation == 3 && x4.operation == 4
  {
    var r := q.BeginCheckedOperation();
    var r4, h4 := q.EnqueueAfterDelay(5, kTimerId1, 4, 0);
    var r3, h3 := q.EnqueueAfterDelay(1, kTimerId2, 3, 0);
    q.EnqueueAllowingSameQueue(2);
    q.EndCheckedOperation();
    x3, x4 := h3.handle.value, h4.handle.value;
  }

  /** Both timers fire, the nearer first; each runs its operation once. */
  method FireTwoTimers(q: AsyncQueue, x3: DelayedOperationImpl, x4: DelayedOperationImpl)
    requires q.Valid() && !q.isOperationInProgress
    requires q.operations == [x4, x3] && q.armed == [x4, x3] && x3 != x4
    requires x3 in q.Repr && x4 in q.Repr && !x3.done && !x4.done
    modifies q, x3, x4
    ensures q.Valid() && !q.isOperationInProgress
    ensures q.log == old(q.log) + [x3.operation, x4.operation] && q.operations == []
  {
    EraseSecond(x4, x3);
    var r := q.TimerElapsed(x3);
    EraseOnly(x4);
    r := q.TimerElapsed(x4);
  }

  /**
   * Steps "1", "2", then the timers due after 1 ms ("3") and 5 ms ("4"):
   * the log comes out as "1234".
   */
  method CanScheduleOperationsInTheFuture() returns (log: seq<OpId>)
    ensures log == [1, 2, 3, 4]
  {
    var q := new AsyncQueue();
    RunStepOne(q);
    var x3, x4 := ScheduleTwoTimers(q);
    var r := q.RunNextBlock();
    FireTwoTimers(q, x3, x4);
    log := q.log;
  }

  /** Step "1" is queued and run on a fresh queue. */
  method RunStepOne(q: AsyncQueue)
    requires q.Valid() && !q.isOperationInProgress && q.operations == [] && q.pending == [] && q.armed == []
    requires q.log == []
    modifies q
    ensures q.Valid() && !q.isOperationInProgress && q.operations == [] && q.pending == [] && q.armed == []
    ensures q.log == [1] && q.Repr == old(q.Repr)
  {
    var r := q.Enqueue(1, false);
    r := q.RunNextBlock();
  }

  /**
   * The test's block: step "1" queued, a timer "2" after 1 ms, a timer "3"
   * after 5 ms, and "2" cancelled through its handle.
   */
  method ScheduleAndCancel(q: AsyncQueue) returns (x2: DelayedOperationImpl, x3: DelayedOperationImpl)
    requires q.Valid() && !q.isOperationInProgress && q.operations == [] && q.pending == [] && q.armed == []
    modifies q
    ensures fresh(x2) && fresh(x3)
    ensures q.Valid() && !q.isOperationInProgress && q.pending == [Checked(1)] && q.log == old(q.log)
    ensures q.operations == [x2, x3] && q.armed == [x2, x3] && x2 != x3
    ensures x2 in q.Repr && x3 in q.Repr && x2.done && !x3.done && x3.operation == 3
  {
    var r := q.BeginCheckedOperation();
    q.EnqueueAllowingSameQueue(1);
    var r2, h2 := q.EnqueueAfterDelay(1, kTimerId1, 2, 0);
    var r3, h3 := q.EnqueueAfterDelay(5, kTimerId2, 3, 0);
    r := CancelDelayedOperation(h2, q, true);
    q.EndCheckedOperation();
    x2, x3 := h2.handle.value, h3.handle.value;
  }

  /** The cancelled "2" never runs; "1" and "3" do, and nothing stays registered. */
  method CanCancelDelayedCallbacks() returns (log: seq<OpId>, left: nat)
    ensures log == [1, 3] && left == 0
  {
    var q := new AsyncQueue();
    var x2, x3 := ScheduleAndCancel(q);
    var r := q.RunNextBlock();
    EraseFirst(x2, x3);
    r := q.TimerElapsed(x2);
    EraseOnly(x3);
    r := q.TimerElapsed(x3);
    log := q.log;
    left := |q.operations|;
  }

  /** Once the operation has run, cancelling its handle, even off the queue, does nothing. */
  method DelayedOperationIsValidAfterTheOperationHasRun() returns (log: seq<OpId>, cancelled: Outcome)
    ensures log == [1] && cancelled == Ok
  {
    var q := new AsyncQueue();
    var r := q.BeginCheckedOperation();
    var r1, h := q.EnqueueAfterDelay(10, kTimerId1, 1, 0);
    q.EndCheckedOperation();
    r := q.TimerElapsed(h.handle.value);
    log := q.log;
    cancelled := CancelDelayedOperation(h, q, false);
  }

  /**
   * The drain test's block: steps "1" and "2" queued around three timers,
   * "5" after 20 s, "3" after 10 s and "4" after 15 s.
   */
  method ScheduleThreeTimers(q: AsyncQueue) returns (x3: DelayedOperationImpl, x4: DelayedOperationImpl, x5: DelayedOperationImpl)
    requires q.Valid() && !q.isOperationInProgress && q.operations == [] && q.pending == [] && q.armed == []
    modifies q
    ensures fresh(x3) && fresh(x4) && fresh(x5)
    ensures q.Valid() && !q.isOperationInProgress && q.pending == [Checked(1), Checked(2)] && q.log == old(q.log)
    ensures q.operations == [x5, x3, x4] && x3 != x4 && x4 != x5 && x3 != x5
    ensures x3.targetTime == 10000 && x4.targetTime == 15000 && x5.targetTime == 20000
    ensures x3.timerId == kTimerId2 && x4.timerId == kTimerId3 && x5.timerId == kTimerId1
    ensures x3.operation == 3 && x4.operation == 4 && x5.operation == 5
    ensures x3 in q.Repr && x4 in q.Repr && !x3.done && !x4.done
    ensures q.signals == old(q.signals)
  {
    x5 := ScheduleFirstTimer(q);
    var r3, h3 := q.EnqueueAfterDelay(10000, kTimerId2, 3, 0);
    var r4, h4 := q.EnqueueAfterDelay(15000, kTimerId3, 4, 0);
    q.EnqueueAllowingSameQueue(2);
    q.EndCheckedOperation();
    x3, x4 := h3.handle.value, h4.handle.value;
  }

  /** The start of the drain test's block: step "1", then timer "5" after 20 s. */
  method ScheduleFirstTimer(q: AsyncQueue) returns (x5: DelayedOperationImpl)
    requires q.Valid() && !q.isOperationInProgress && q.operations == [] && q.pending == [] && q.armed == []
    modifies q
    ensures fresh(x5)
    ensures q.Valid() && q.isOperationInProgress && q.pending == [Checked(1)] && q.log == old(q.log)
    ensures q.operations == [x5] && q.armed == [x5] && x5 in q.Repr
    ensures x5.targetTime == 20000 && x5.timerId == kTimerId1 && x5.operation == 5 && !x5.done
    ensures q.signals == old(q.signals)
  {
    var r := q.BeginCheckedOperation();
    q.EnqueueAllowingSameQueue(1);
    var r5, h5 := q.EnqueueAfterDelay(20000, kTimerId1, 5, 0);
    x5 := h5.handle.value;
  }

  /** The three timers sort to "3", "4", "5" by target time. */
  lemma SortThreeTimers(x3: DelayedOperationImpl, x4: DelayedOperationImpl, x5: DelayedOperationImpl)
    requires x3.targetTime == 10000 && x4.targetTime == 15000 && x5.targetTime == 20000
    ensures SortByTime([x5, x3, x4]) == [x3, x4, x5]
  {
    assert [x5, x3, x4][1..] == [x3, x4];
    assert [x3, x4][1..] == [x4];
    assert [x4][1..] == [];
    assert SortByTime([x4]) == [x4];
    assert SortByTime([x3, x4]) == [x3, x4];
    assert InsertByTime(x5, [x4]) == [x4, x5];
  }

  /** Draining the sorted timers until the third timer takes the first two. */
  lemma DrainTakesTwo(x3: DelayedOperationImpl, x4: DelayedOperationImpl, x5: DelayedOperationImpl)
    requires x3.timerId == kTimerId2 && x4.timerId == kTimerId3
    ensures RunUntil([x3, x4, x5], kTimerId3) == Some(2)
    ensures ElapseBlocks([x3, x4, x5][..2]) + [Signal] == [Elapse(x3), Elapse(x4), Signal]
  {
    assert [x3, x4, x5][1..] == [x4, x5];
    assert FirstWithTimer([x4, x5], kTimerId3) == 0;
    assert [x3, x4, x5][..2] == [x3, x4];
    assert ElapseBlocks([x3, x4]) == [Elapse(x3), Elapse(x4)];
  }

  /** The drain body, run by the queue: it sorts, then queues the selected `Elapse` blocks and the signal. */
  method RunDrainStep(q: AsyncQueue, last: TimerId)
    requires q.Valid() && !q.isOperationInProgress && q.pending == [DrainUntil(last)]
    requires RunUntil(SortByTime(q.operations), last).Some?
    modifies q
    ensures q.Valid() && !q.isOperationInProgress && q.log == old(q.log) && q.signals == old(q.signals)
    ensures q.operations == SortByTime(old(q.operations))
    ensures q.pending == ElapseBlocks(q.operations[..RunUntil(q.operations, last).value]) + [Signal]
  {
    assert q.pending[1..] == [];
    var r := q.RunNextBlock();
    ghost var blocks := ElapseBlocks(q.operations[..RunUntil(q.operations, last).value]);
    assert q.pending == [] + blocks + [Signal];
    assert [] + blocks == blocks;
  }

  /** Draining until the third timer takes "3" and "4", due first. */
  method RunDrainBody(q: AsyncQueue, x3: DelayedOperationImpl, x4: DelayedOperationImpl, x5: DelayedOperationImpl)
    requires q.Valid() && !q.isOperationInProgress && q.pending == [DrainUntil(kTimerId3)]
    requires q.operations == [x5, x3, x4]
    requires x3.targetTime == 10000 && x4.targetTime == 15000 && x5.targetTime == 20000
    requires x3.timerId == kTimerId2 && x4.timerId == kTimerId3
    modifies q
    ensures q.Valid() && !q.isOperationInProgress && q.log == old(q.log) && q.signals == old(q.signals)
    ensures q.operations == [x3, x4, x5] && q.pending == [Elapse(x3), Elapse(x4), Signal]
  {
    SortThreeTimers(x3, x4, x5);
    DrainTakesTwo(x3, x4, x5);
    RunDrainStep(q, kTimerId3);
  }

  lemma EraseFront(a: DelayedOperationImpl, rest: seq<DelayedOperationImpl>)
    requires a !in rest
    ensures Erase([a] + rest, a) == rest
  {
    assert ([a] + rest)[1..] == rest;
  }

  /** libdispatch runs an `Elapse` block at the front: the operation runs and leaves the registry. */
  method RunElapse(q: AsyncQueue, x: DelayedOperationImpl, rest: seq<DelayedOperationImpl>)
    requires q.Valid() && !q.isOperationInProgress && q.pending != [] && q.pending[0] == Elapse(x)
    requires q.operations == [x] + rest && x !in rest && !x.done
    modifies q, x
    ensures q.Valid() && !q.isOperationInProgress && q.log == old(q.log) + [x.operation]
    ensures q.operations == rest && q.pending == old(q.pending)[1..] && q.signals == old(q.signals)
  {
    EraseFront(x, rest);
    var r := q.RunNextBlock();
  }

  /** The two skipped operations run in order, then the signal releases the caller. */
  method RunSkipped(q: AsyncQueue, x3: DelayedOperationImpl, x4: DelayedOperationImpl, x5: DelayedOperationImpl)
    requires q.Valid() && !q.isOperationInProgress
    requires q.operations == [x3, x4, x5] && q.pending == [Elapse(x3), Elapse(x4), Signal]
    requires x3 != x4 && x4 != x5 && x3 != x5 && !x3.done && !x4.done
    modifies q, x3, x4
    ensures q.Valid() && q.log == old(q.log) + [x3.operation, x4.operation]
    ensures q.operations == [x5] && q.signals == old(q.signals) + 1 && q.pending == []
  {
    assert [x3, x4, x5] == [x3] + [x4, x5];
    RunElapse(q, x3, [x4, x5]);
    assert [x4, x5] == [x4] + [x5];
    RunElapse(q, x4, [x5]);
    var r := q.RunNextBlock();
  }

  /** libdispatch runs the two checked blocks "1" and "2". */
  method RunTwoSteps(q: AsyncQueue)
    requires q.Valid() && !q.isOperationInProgress && q.pending == [Checked(1), Checked(2)]
    modifies q
    ensures q.Valid() && !q.isOperationInProgress && q.pending == [] && q.log == old(q.log) + [1, 2]
    ensures q.operations == old(q.operations) && q.signals == old(q.signals)
  {
    var r := q.RunNextBlock();
    r := q.RunNextBlock();
  }

  /**
   * Draining up to the third timer runs "3" (due first) and "4" (the
   * third timer itself) and leaves "5" registered: "1234".
   */
  method CanManuallyDrainSpecificDelayedCallbacks() returns (log: seq<OpId>, signals: nat, left: nat)
    ensures log == [1, 2, 3, 4] && signals == 1 && left == 1
  {
    var q := new AsyncQueue();
    var x3, x4, x5 := ScheduleThreeTimers(q);
    RunTwoSteps(q);
    var r := q.RunDelayedOperationsUntil(kTimerId3, false);
    RunDrainBody(q, x3, x4, x5);
    RunSkipped(q, x3, x4, x5);
    log, signals, left := q.log, q.signals, |q.operations|;
  }
}
