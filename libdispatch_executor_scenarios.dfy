/**
 * Runs of the libdispatch executor: a delayed operation is scheduled,
 * something happens to it, and then libdispatch fires its timer.
 */
module DispatchExecutionScenarios {
  import opened Wrappers
  import opened DispatchExecution

  /** The timer fires once; a second `Execute` of the same operation runs nothing. */
  method ExecuteRunsAtMostOnce() returns (log: seq<OpId>, left: nat)
    ensures log == [7] && left == 0
  {
    var e := new Executor<int>();
    var x := e.ScheduleExecution(10, 1, 7, 0);
    x.InvokedByLibdispatch();
    x.Execute();
    log, left := e.log, |e.operations|;
  }

  /**
   * `Cancel` as written takes the operation out of the list, but its timer
   * still fires and the operation runs.
   */
  method CancelledOperationRunsAsWritten() returns (listed: nat, log: seq<OpId>)
    ensures listed == 0 && log == [7]
  {
    var e := new Executor<int>();
    var x := e.ScheduleExecution(10, 1, 7, 0);
    x.Cancel();
    listed := |e.operations|;
    x.InvokedByLibdispatch();
    log := e.log;
  }

  /** With `Cancel` marking the operation done, the timer runs nothing. */
  method CancelledOperationNeverRuns() returns (listed: nat, log: seq<OpId>)
    ensures listed == 0 && log == []
  {
    var e := new Executor<int>();
    var x := e.ScheduleExecution(10, 1, 7, 0);
    x.CancelAndMarkDone();
    listed := |e.operations|;
    x.InvokedByLibdispatch();
    log := e.log;
  }

  /** An operation still listed when the executor is destroyed runs nothing when its timer fires. */
  method DestroyedExecutorRunsNothing() returns (log: seq<OpId>)
    ensures log == [3]
  {
    var e := new Executor<int>();
    var x := e.ScheduleExecution(10, 1, 7, 0);
    e.Execute(3);
    e.Destroy();
    x.InvokedByLibdispatch();
    log := e.log;
  }

  /**
   * Removing an operation that is no longer listed leaves the list alone;
   * the other operation stays.
   */
  method RemoveOfMissingIsNoOp() returns (left: nat, tag: int)
    ensures left == 1 && tag == 2
  {
    var e := new Executor<int>();
    var x := e.ScheduleExecution(10, 1, 7, 0);
    var y := e.ScheduleExecution(20, 2, 8, 0);
    x.Execute();
    e.Remove(x);
    left, tag := |e.operations|, e.operations[0].tag;
  }
}
