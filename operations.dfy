/**
 * What both async queues share: the well-known timer ids, the operations
 * they run and the outcome of their assertions.
 *
 * An operation is a closure in the program. Here it is its id and the queue
 * calls its body makes, in order; an operation passed on by one of those
 * calls makes no calls of its own.
 */
module QueueOperations {
  import opened Wrappers

  /** The timers the client schedules delayed operations under. */
  datatype TimerId =
    | All
    | ListenStreamIdle
    | ListenStreamConnectionBackoff
    | WriteStreamIdle
    | WriteStreamConnectionBackoff
    | OnlineStateTimeout

  /** The integer a timer id converts to: its position in the enumeration. */
  function TimerTag(t: TimerId): (r: int)
    ensures 0 <= r <= 5
    ensures r == 0 <==> t == All
    ensures TimerFromTag(r) == Some(t)
  {
    match t
    case All => 0
    case ListenStreamIdle => 1
    case ListenStreamConnectionBackoff => 2
    case WriteStreamIdle => 3
    case WriteStreamConnectionBackoff => 4
    case OnlineStateTimeout => 5
  }

  /** The timer id an integer tag stands for, if any. */
  function TimerFromTag(tag: int): (r: Option<TimerId>)
    ensures r.Some? <==> 0 <= tag <= 5
  {
    if tag == 0 then Some(All)
    else if tag == 1 then Some(ListenStreamIdle)
    else if tag == 2 then Some(ListenStreamConnectionBackoff)
    else if tag == 3 then Some(WriteStreamIdle)
    else if tag == 4 then Some(WriteStreamConnectionBackoff)
    else if tag == 5 then Some(OnlineStateTimeout)
    else None
  }

  /** Distinct timers never share a tag, so a tag names one timer. */
  lemma TimerTagInjective(a: TimerId, b: TimerId)
    ensures TimerTag(a) == TimerTag(b) ==> a == b
  {
    assert TimerFromTag(TimerTag(a)) == Some(a);
    assert TimerFromTag(TimerTag(b)) == Some(b);
  }

  /**
   * A queue call made from inside an operation. `CancelDelayed(n)` cancels
   * through the handle returned by the operation's `n`-th call to
   * `EnqueueAfterDelay` (counting from 0); with no such call it holds an empty
   * handle.
   */
  datatype Call =
    | Enqueue(op: OpId)
    | EnqueueAllowingNesting(op: OpId)
    | EnqueueBlocking(op: OpId)
    | StartExecution(op: OpId)
    | EnqueueAfterDelay(delay: int, timer: TimerId, op: OpId)
    | CancelDelayed(nth: nat)
    | VerifyCalledFromOperation

  datatype Work = Work(id: OpId, calls: seq<Call>)

  /** An operation whose body makes no queue calls. */
  function Leaf(id: OpId): (w: Work)
    ensures w.id == id && w.calls == []
  {
    Work(id, [])
  }

  /** The assertions a queue makes; each one aborts the caller when it fails. */
  datatype Failure =
    | NotOnQueue              // an async call was expected
    | OnQueue                 // a call from outside the queue was expected
    | OperationInProgress     // an operation started while another was running
    | NoOperationInProgress   // the caller expected to be inside an operation
    | NestedEnqueue           // a running operation enqueued without allowing nesting
    | DuplicateTimer          // a second operation under a pending timer
    | NegativeDelay
    | TimerNotScheduled       // draining up to a timer that is not pending
    | NothingScheduled        // draining an empty schedule
    | CancelWithoutFunction   // cancelling through an empty handle
    | DelayedOperationNotFound // removing a delayed operation that is not registered

  datatype Outcome = Ok | Failed(failure: Failure)
}
