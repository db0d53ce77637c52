/**
 * The serial queue's unit tests, each replayed on a fresh standard-library
 * queue. The worker thread is the caller of `RunNextDue`, with the clock
 * reading (in milliseconds) passed in; `log` is the order in which
 * operations ran. A call that the test expects to throw is a call whose
 * outcome is a failed assertion.
 */
module QueueingScenarios {
  import opened Wrappers
  import opened Scheduling
  import opened StdExecution
  import opened QueueOperations
  import opened Queueing

  const kTimerId1: TimerId := ListenStreamConnectionBackoff
  const kTimerId2: TimerId := ListenStreamIdle

  /** Immediate entry `id` running `w`. */
  function Now(w: Work, id: nat): (e: Entry<Work>)
    ensures e.due.Immediate? && e.operation == Run(w) && e.id == id && e.tag == ImmediateTag
  {
    Entry(Run(w), id, ImmediateTag, Immediate)
  }

  /** Delayed entry `id` running leaf `op` under `timer` at `time`. */
  function Later(op: OpId, id: nat, timer: TimerId, time: nat): (e: Entry<Work>)
    ensures e.due == At(time) && e.operation == Run(Leaf(op)) && e.id == id && e.tag == TimerTag(timer)
  {
    Entry(Run(Leaf(op)), id, TimerTag(timer), At(time))
  }

  // ---- Enqueueing from inside an operation ----

  lemma {:induction false} EnqueueFromOperationTrace()
    ensures Insert([], Now(Work(0, [Call.Enqueue(9)]), 0)) == [Now(Work(0, [Call.Enqueue(9)]), 0)]
    ensures WorkEffect([Call.Enqueue(9)], [], 1, [], 0).outcome == Failed(NestedEnqueue)
  {
    assert [Now(Work(0, [Call.Enqueue(9)]), 0)] + [] == [Now(Work(0, [Call.Enqueue(9)]), 0)];
  }

  /** An operation that calls `Enqueue` fails its assertion. */
  method EnqueueDisallowsNesting() returns (refused: Outcome, log: seq<OpId>)
    ensures refused == Failed(NestedEnqueue)
    ensures log == [0]
  {
    var q := new AsyncQueue();
    EnqueueFromOperationTrace();
    var r := q.Enqueue(Work(0, [Call.Enqueue(9)]), false);
    var ran;
    refused, ran := q.RunNextDue(0);
    log := q.log;
  }

  lemma {:induction false} EnqueueAllowingNestingTrace()
    ensures Insert([], Now(Work(0, [Call.EnqueueAllowingNesting(1)]), 0)) ==
            [Now(Work(0, [Call.EnqueueAllowingNesting(1)]), 0)]
    ensures WorkEffect([Call.EnqueueAllowingNesting(1)], [], 1, [], 0) ==
            Effect(Ok, [Now(Leaf(1), 1)], 2, [])
    ensures WorkEffect([], [], 2, [], 0) == Effect(Ok, [], 2, [])
  {
    assert [Now(Work(0, [Call.EnqueueAllowingNesting(1)]), 0)] + [] ==
           [Now(Work(0, [Call.EnqueueAllowingNesting(1)]), 0)];
    assert [Now(Leaf(1), 1)] + [] == [Now(Leaf(1), 1)];
    assert [Call.EnqueueAllowingNesting(1)][1..] == [];
  }

  /** An operation may queue another through `EnqueueAllowingNesting`; it runs next. */
  method EnqueueAllowsNesting() returns (outer: Outcome, inner: Outcome, log: seq<OpId>)
    ensures outer == Ok && inner == Ok
    ensures log == [0, 1]
  {
    var q := new AsyncQueue();
    EnqueueAllowingNestingTrace();
    var r := q.Enqueue(Work(0, [Call.EnqueueAllowingNesting(1)]), false);
    var ran;
    outer, ran := q.RunNextDue(0);
    inner, ran := q.RunNextDue(0);
    log := q.log;
  }

  // ---- Blocking calls ----

  lemma BlockingTrace()
    ensures Waiting([]) == []
    ensures WorkEffect([], [], 0, [], 0) == Effect(Ok, [], 0, [])
    ensures WorkEffect([Call.EnqueueBlocking(9)], [], 0, [], 0).outcome == Failed(NestedEnqueue)
    ensures WorkEffect([Call.StartExecution(9)], [], 0, [], 0).outcome == Failed(OperationInProgress)
    ensures WorkEffect([Call.VerifyCalledFromOperation], [], 0, [], 0).outcome == Ok
  {
  }

  /** `EnqueueBlocking` has run its operation when it returns. */
  method EnqueueBlockingRuns() returns (r: Outcome, log: seq<OpId>)
    ensures r == Ok && log == [0]
  {
    var q := new AsyncQueue();
    BlockingTrace();
    r := q.EnqueueBlocking(Leaf(0), false, 0);
    log := q.log;
  }

  /** A blocking enqueue from inside a blocking operation fails. */
  method EnqueueBlockingDisallowsNesting() returns (r: Outcome)
    ensures r == Failed(NestedEnqueue)
  {
    var q := new AsyncQueue();
    BlockingTrace();
    r := q.EnqueueBlocking(Work(0, [Call.EnqueueBlocking(9)]), false, 0);
  }

  /** Starting an operation from inside another fails. */
  method StartExecutionDisallowsNesting() returns (r: Outcome)
    ensures r == Failed(OperationInProgress)
  {
    var q := new AsyncQueue();
    BlockingTrace();
    r := q.EnqueueBlocking(Work(0, [Call.StartExecution(9)]), false, 0);
  }

  /**
   * `VerifyCalledFromOperation` fails off the queue and on the queue outside
   * an operation, and succeeds inside one.
   */
  method VerifyCalledFromOperationCases() returns (offQueue: Outcome, idle: Outcome, inside: Outcome)
    ensures offQueue == Failed(NotOnQueue)
    ensures idle == Failed(NoOperationInProgress)
    ensures inside == Ok
  {
    var q := new AsyncQueue();
    offQueue := q.VerifyCalledFromOperation(false);
    idle := q.VerifyCalledFromOperation(true);
    BlockingTrace();
    inside := q.EnqueueBlocking(Work(0, [Call.VerifyCalledFromOperation]), false, 0);
  }

  // ---- Delayed operations ----

  /** The operation of the scheduling test that queues three more. */
  function Scheduler(): (w: Work)
    ensures w.id == 0 && |w.calls| == 3
  {
    Work(0, [Call.EnqueueAfterDelay(5, kTimerId1, 4), Call.EnqueueAfterDelay(1, kTimerId2, 3),
             Call.EnqueueAllowingNesting(2)])
  }

  lemma {:induction false} ScheduleTrace()
    ensures Insert([], Now(Leaf(1), 0)) == [Now(Leaf(1), 0)]
    ensures Insert([Now(Leaf(1), 0)], Now(Scheduler(), 1)) == [Now(Leaf(1), 0), Now(Scheduler(), 1)]
    ensures WorkEffect([], [Now(Scheduler(), 1)], 2, [], 0) == Effect(Ok, [Now(Scheduler(), 1)], 2, [])
    ensures WorkEffect(Scheduler().calls, [], 2, [], 0).outcome == Ok
    ensures WorkEffect(Scheduler().calls, [], 2, [], 0).schedule ==
            [Now(Leaf(2), 4), Later(3, 3, kTimerId2, 1), Later(4, 2, kTimerId1, 5)]
    ensures WorkEffect([], [Later(3, 3, kTimerId2, 1), Later(4, 2, kTimerId1, 5)], 5, [], 0).schedule ==
            [Later(3, 3, kTimerId2, 1), Later(4, 2, kTimerId1, 5)]
    ensures WorkEffect([], [Later(4, 2, kTimerId1, 5)], 5, [], 1).schedule == [Later(4, 2, kTimerId1, 5)]
  {
    var e1, e0 := Now(Leaf(1), 0), Now(Scheduler(), 1);
    assert [e1] + [] == [e1];
    assert Insert([e1], e0) == [e1] + Insert([], e0);
    assert [e0] + [] == [e0];
    var d4, d3, i2 := Later(4, 2, kTimerId1, 5), Later(3, 3, kTimerId2, 1), Now(Leaf(2), 4);
    var calls := Scheduler().calls;
    assert Insert([], d4) == [d4] by { assert [d4] + [] == [d4]; }
    assert Insert([d4], d3) == [d3, d4];
    assert Insert([d3, d4], i2) == [i2, d3, d4];
    assert calls[1..][1..][1..] == [];
  }

  /** A worker turn at `now` whose front entry is a due leaf: it runs and leaves the rest. */
  method RunDueLeaf(q: AsyncQueue, now: nat, ghost rest: Schedule) returns (r: Outcome)
    requires q.Valid() && !q.operationInProgress
    requires q.executor.schedule != [] && q.executor.schedule[1..] == rest
    requires q.executor.schedule[0].operation.Run? && q.executor.schedule[0].operation.op.calls == []
    requires NoLater(q.executor.schedule[0].due, At(now))
    modifies q, q.executor
    ensures q.Valid() && !q.operationInProgress && r == Ok
    ensures q.executor.schedule == rest && q.executor.currentId == old(q.executor.currentId)
    ensures q.log == old(q.log) + [old(q.executor.schedule)[0].operation.op.id]
  {
    var ran;
    r, ran := q.RunNextDue(now);
  }

  /** The scheduling test up to the end of its second operation. */
  method RunScheduler(q: AsyncQueue) returns (r: Outcome)
    requires q.Valid() && !q.operationInProgress
    requires q.executor.schedule == [] && q.executor.currentId == 0 && q.log == []
    modifies q, q.executor
    ensures q.Valid() && !q.operationInProgress && r == Ok
    ensures q.executor.schedule == [Now(Leaf(2), 4), Later(3, 3, kTimerId2, 1), Later(4, 2, kTimerId1, 5)]
    ensures q.log == [1, 0]
  {
    EnqueueSchedulingTest(q);
    r := RunDueLeaf(q, 0, [Now(Scheduler(), 1)]);
    r := RunSchedulerTurn(q);
  }

  /** The scheduling test queues a leaf and then the scheduling operation. */
  method EnqueueSchedulingTest(q: AsyncQueue)
    requires q.Valid() && !q.operationInProgress
    requires q.executor.schedule == [] && q.executor.currentId == 0 && q.log == []
    modifies q.executor
    ensures q.Valid() && !q.operationInProgress && q.log == []
    ensures q.executor.schedule == [Now(Leaf(1), 0), Now(Scheduler(), 1)] && q.executor.currentId == 2
    ensures q.executor.schedule[1..] == [Now(Scheduler(), 1)]
  {
    ScheduleTrace();
    var r := q.Enqueue(Leaf(1), false);
    assert q.executor.schedule == [Now(Leaf(1), 0)];
    r := q.Enqueue(Scheduler(), false);
    assert q.executor.schedule == [Now(Leaf(1), 0), Now(Scheduler(), 1)];
  }

  /** The worker turn that runs the scheduling operation, the only entry. */
  method RunSchedulerTurn(q: AsyncQueue) returns (r: Outcome)
    requires q.Valid() && !q.operationInProgress
    requires q.executor.schedule == [Now(Scheduler(), 1)] && q.executor.currentId == 2
    modifies q, q.executor
    ensures q.Valid() && !q.operationInProgress && r == Ok
    ensures q.executor.schedule == [Now(Leaf(2), 4), Later(3, 3, kTimerId2, 1), Later(4, 2, kTimerId1, 5)]
    ensures q.log == old(q.log) + [0]
  {
    ScheduleTrace();
    var ran;
    r, ran := q.RunNextDue(0);
  }

  /**
   * Immediate work runs first, in order, including the nested one; delayed
   * work runs once the clock reaches it, nearest due first: "1234".
   */
  method CanScheduleOperationsInTheFuture() returns (log: seq<OpId>, r: Outcome)
    ensures log == [1, 0, 2, 3, 4]
    ensures r == Ok
  {
    var q := new AsyncQueue();
    var d4, d3 := Later(4, 2, kTimerId1, 5), Later(3, 3, kTimerId2, 1);
    r := RunScheduler(q);
    assert q.executor.schedule[1..] == [d3, d4];
    r := RunDueLeaf(q, 0, [d3, d4]);
    assert q.executor.schedule[1..] == [d4];
    r := RunDueLeaf(q, 1, [d4]);
    assert q.executor.schedule[1..] == [];
    r := RunDueLeaf(q, 5, []);
    log := q.log;
  }

  /** The operation of the cancelling test: it queues three more and cancels the first delayed one. */
  function Canceller(): (w: Work)
    ensures w.id == 0 && |w.calls| == 4
  {
    Work(0, [Call.EnqueueAllowingNesting(1), Call.EnqueueAfterDelay(1, kTimerId1, 2),
             Call.EnqueueAfterDelay(5, kTimerId2, 3), Call.CancelDelayed(0)])
  }

  /** A call that succeeds hands its effect on to the calls after it. */
  lemma WorkEffectStep(calls: seq<Call>, s: Schedule, nextId: nat, handles: seq<DelayedOperation>, now: nat)
    requires calls != [] && CallEffect(calls[0], s, nextId, handles, now).outcome.Ok?
    ensures var e := CallEffect(calls[0], s, nextId, handles, now);
      WorkEffect(calls, s, nextId, handles, now) == WorkEffect(calls[1..], e.schedule, e.nextId, e.handles, now)
  {
  }

  lemma TimerTwoIsFree()
    ensures !ScheduledWithTag([Now(Leaf(1), 1), Later(2, 2, kTimerId1, 1)], TimerTag(kTimerId2))
  {
    var i1, d2 := Now(Leaf(1), 1), Later(2, 2, kTimerId1, 1);
    assert forall x :: x in [i1, d2] ==> x == i1 || x == d2;
  }

  lemma InsertSecondDelayed()
    ensures Insert([Now(Leaf(1), 1), Later(2, 2, kTimerId1, 1)], Later(3, 3, kTimerId2, 5)) ==
            [Now(Leaf(1), 1), Later(2, 2, kTimerId1, 1), Later(3, 3, kTimerId2, 5)]
  {
    var i1, d2, d3 := Now(Leaf(1), 1), Later(2, 2, kTimerId1, 1), Later(3, 3, kTimerId2, 5);
    assert Insert([d2], d3) == [d2] + Insert([], d3) == [d2, d3];
  }

  lemma SecondDelayedCall()
    ensures CallEffect(Call.EnqueueAfterDelay(5, kTimerId2, 3), [Now(Leaf(1), 1), Later(2, 2, kTimerId1, 1)],
                       3, [CancelById(2)], 0) ==
            Effect(Ok, [Now(Leaf(1), 1), Later(2, 2, kTimerId1, 1), Later(3, 3, kTimerId2, 5)],
                   4, [CancelById(2), CancelById(3)])
  {
    TimerTwoIsFree();
    InsertSecondDelayed();
  }

  lemma RemoveFirstDelayed()
    ensures WithoutId([Now(Leaf(1), 1), Later(2, 2, kTimerId1, 1), Later(3, 3, kTimerId2, 5)], 2) ==
            [Now(Leaf(1), 1), Later(3, 3, kTimerId2, 5)]
  {
    var i1, d2, d3 := Now(Leaf(1), 1), Later(2, 2, kTimerId1, 1), Later(3, 3, kTimerId2, 5);
    var s := [i1, d2, d3];
    assert IndexOfId(s, 2) == 1 by {
      assert s[1..] == [d2, d3];
    }
    assert RemoveAt(s, 1) == [i1, d3] by {
      assert s[..1] == [i1] && s[2..] == [d3];
    }
  }

  lemma CancelCall()
    ensures CallEffect(Call.CancelDelayed(0), [Now(Leaf(1), 1), Later(2, 2, kTimerId1, 1), Later(3, 3, kTimerId2, 5)],
                       4, [CancelById(2), CancelById(3)], 0) ==
            Effect(Ok, [Now(Leaf(1), 1), Later(3, 3, kTimerId2, 5)], 4, [CancelById(2), CancelById(3)])
  {
    RemoveFirstDelayed();
  }

  lemma {:induction false} CancelTrace()
    ensures Insert([], Now(Canceller(), 0)) == [Now(Canceller(), 0)]
    ensures WorkEffect(Canceller().calls, [], 1, [], 0).outcome == Ok
    ensures WorkEffect(Canceller().calls, [], 1, [], 0).schedule == [Now(Leaf(1), 1), Later(3, 3, kTimerId2, 5)]
  {
    var e0 := Now(Canceller(), 0);
    assert [e0] + [] == [e0];
    var i1, d2, d3 := Now(Leaf(1), 1), Later(2, 2, kTimerId1, 1), Later(3, 3, kTimerId2, 5);
    var calls := Canceller().calls;
    var handles := [CancelById(2), CancelById(3)];
    assert CallEffect(calls[0], [], 1, [], 0) == Effect(Ok, [i1], 2, []) by {
      assert [i1] + [] == [i1];
    }
    WorkEffectStep(calls, [], 1, [], 0);
    assert CallEffect(calls[1], [i1], 2, [], 0) == Effect(Ok, [i1, d2], 3, [CancelById(2)]) by {
      assert Insert([i1], d2) == [i1] + Insert([], d2) == [i1] + ([d2] + []);
    }
    assert calls[1..][0] == calls[1] && calls[1..][1..] == calls[2..];
    WorkEffectStep(calls[1..], [i1], 2, [], 0);
    SecondDelayedCall();
    assert calls[2..][0] == calls[2] && calls[2..][1..] == calls[3..];
    WorkEffectStep(calls[2..], [i1, d2], 3, [CancelById(2)], 0);
    CancelCall();
    assert calls[3..][0] == calls[3] && calls[3..][1..] == [];
    WorkEffectStep(calls[3..], [i1, d2, d3], 4, handles, 0);
  }

  /** The cancelling test up to the end of its operation. */
  method RunCanceller(q: AsyncQueue) returns (r: Outcome)
    requires q.Valid() && !q.operationInProgress
    requires q.executor.schedule == [] && q.executor.currentId == 0 && q.log == []
    modifies q, q.executor
    ensures q.Valid() && !q.operationInProgress && r == Ok
    ensures q.executor.schedule == [Now(Leaf(1), 1), Later(3, 3, kTimerId2, 5)]
    ensures q.log == [0]
  {
    CancelTrace();
    r := q.Enqueue(Canceller(), false);
    assert q.executor.schedule == [Now(Canceller(), 0)];
    assert q.executor.schedule[1..] == [];
    var ran;
    r, ran := q.RunNextDue(0);
  }

  /**
   * A delayed operation cancelled before it is due never runs; the other
   * one does: "13".
   */
  method CanCancelDelayedCallbacks() returns (log: seq<OpId>, ranAtOne: bool, r: Outcome)
    ensures log == [0, 1, 3]
    ensures !ranAtOne
    ensures r == Ok
  {
    var q := new AsyncQueue();
    var d3 := Later(3, 3, kTimerId2, 5);
    r := RunCanceller(q);
    assert q.executor.schedule[1..] == [d3];
    r := RunDueLeaf(q, 0, [d3]);
    r, ranAtOne := q.RunNextDue(1);
    assert q.executor.schedule[1..] == [];
    r := RunDueLeaf(q, 5, []);
    log := q.log;
  }

  /** The operation of the handle test: it schedules one delayed leaf. */
  function Delayer(): (w: Work)
    ensures w.id == 0 && |w.calls| == 1
  {
    Work(0, [Call.EnqueueAfterDelay(10, kTimerId1, 1)])
  }

  lemma {:induction false} HandleTrace()
    ensures Insert([], Now(Delayer(), 0)) == [Now(Delayer(), 0)]
    ensures WorkEffect(Delayer().calls, [], 1, [], 0).outcome == Ok
    ensures WorkEffect(Delayer().calls, [], 1, [], 0).schedule == [Later(1, 1, kTimerId1, 10)]
  {
    var e0, d1 := Now(Delayer(), 0), Later(1, 1, kTimerId1, 10);
    assert [e0] + [] == [e0];
    assert [d1] + [] == [d1];
    assert Delayer().calls[1..] == [];
  }

  /** The operation that schedules entry 1 runs and leaves only that entry. */
  method RunDelayer(q: AsyncQueue)
    requires q.Valid() && !q.operationInProgress
    requires q.executor.schedule == [] && q.executor.currentId == 0 && q.log == []
    modifies q, q.executor
    ensures q.Valid() && !q.operationInProgress
    ensures q.executor.schedule == [Later(1, 1, kTimerId1, 10)] && q.executor.schedule[1..] == []
    ensures q.log == [0]
  {
    HandleTrace();
    var r := q.Enqueue(Delayer(), false);
    var ran;
    r, ran := q.RunNextDue(0);
  }

  /**
   * A handle stays usable after its operation has run: cancelling then
   * succeeds and changes nothing.
   */
  method DelayedOperationIsValidAfterTheOperationHasRun() returns (log: seq<OpId>, cancelled: Outcome)
    ensures log == [0, 1]
    ensures cancelled == Ok
  {
    var q := new AsyncQueue();
    RunDelayer(q);
    var r := RunDueLeaf(q, 10, []);
    // the handle the operation got back cancels entry 1
    cancelled := q.Cancel(CancelById(1));
    log := q.log;
  }
}
