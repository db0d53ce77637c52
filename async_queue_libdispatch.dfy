/**
 * The libdispatch async queue. Every operation runs as a checked operation
 * on one serial dispatch queue. Each delayed operation is an object with a
 * `done` flag, and the queue keeps it registered until its timer has fired.
 *
 * libdispatch is the environment here:
 * - `pending` is the serial queue's FIFO of blocks handed to
 *   `dispatch_async`;
 * - `armed` holds the `dispatch_after` timers that have not fired yet;
 * - `RunNextBlock` and `TimerElapsed` are the two steps libdispatch takes.
 * An `onQueue` input says whether the caller runs on the target queue.
 */
module DispatchQueueing {
  import opened Wrappers
  import opened QueueOperations

  /** Each element occurs at most once. */
  ghost predicate Distinct<T>(s: seq<T>)
  {
    forall x :: x in s ==> multiset(s)[x] == 1
  }

  class DelayedOperationImpl {
    const timerId: TimerId
    /** Milliseconds on the system clock when the timer is due. */
    const targetTime: int
    const operation: OpId
    /** Set once the operation has either run or been cancelled. */
    var done: bool

    /** The constructor also arms the timer; the queue records that in `armed`. */
    constructor (timerId: TimerId, targetTime: int, operation: OpId)
      ensures this.timerId == timerId && this.targetTime == targetTime && this.operation == operation
      ensures !done
    {
      this.timerId := timerId;
      this.targetTime := targetTime;
      this.operation := operation;
      done := false;
    }

    /**
     * Cancels from inside an operation on the queue by setting `done`.
     * The entry stays registered: its timer still fires and must find it.
     */
    method Cancel(queue: AsyncQueue, onQueue: bool) returns (r: Outcome)
      requires queue.Valid() && this in queue.Repr
      modifies this
      ensures queue.Valid()
      ensures r == queue.VerifyIsCurrentQueue(onQueue)
      ensures r.Ok? ==> done
      ensures r.Failed? ==> done == old(done)
    {
      r := queue.VerifyIsCurrentQueue(onQueue);
      if r.Ok? {
        done := true;
      }
    }

    /** Asks the queue to run `HandleDelayElapsed` as soon as possible. */
    method SkipDelay(queue: AsyncQueue)
      requires queue.Valid() && this in queue.Repr
      modifies queue
      ensures queue.Valid() && queue.Repr == old(queue.Repr)
      ensures queue.pending == old(queue.pending) + [Elapse(this)]
      ensures queue.Unchanged(old(queue.isOperationInProgress), old(queue.operations),
                              old(queue.armed), old(queue.log), old(queue.signals), old(queue.ran))
    {
      queue.DispatchAsync(Elapse(this));
    }

    /**
     * Runs the operation unless it is already done, then removes this
     * object from the queue. Removal happens here and only here.
     */
    method HandleDelayElapsed(queue: AsyncQueue) returns (r: Outcome)
      requires queue.Valid() && this in queue.Repr && queue.isOperationInProgress
      modifies this, queue
      ensures queue.Valid() && queue.Repr == old(queue.Repr)
      ensures done
      ensures !old(done) ==> queue.log == old(queue.log) + [operation] && queue.ran == old(queue.ran) + [this]
      ensures old(done) ==> queue.log == old(queue.log) && queue.ran == old(queue.ran)
      ensures this in old(queue.operations) ==> r == Ok && queue.operations == Erase(old(queue.operations), this)
      ensures this !in old(queue.operations) ==>
        r == Failed(DelayedOperationNotFound) && queue.operations == old(queue.operations)
      ensures queue.isOperationInProgress && queue.pending == old(queue.pending)
      ensures queue.armed == old(queue.armed) && queue.signals == old(queue.signals)
    {
      // The queue check passes: the block runs on the queue, inside a checked operation.
      if !done {
        done := true;
        queue.RunDelayed(this);
      }
      EraseKeepsDistinct(queue.operations, this);
      r := queue.RemoveDelayedOperation(this);
    }
  }

  /** A block on the serial queue; each one runs inside `EnterCheckedOperation`. */
  datatype Block =
    | Checked(op: OpId)                       // an operation passed to `Enqueue` and friends
    | Elapse(delayed: DelayedOperationImpl)   // `HandleDelayElapsed` of `delayed`, from `SkipDelay`
    | DrainUntil(last: TimerId)               // the body `RunDelayedOperationsUntil` enqueues
    | Signal                                  // releases the semaphore it waits on

  /** Every block of `blocks` is an operation passed to `Enqueue` and friends. */
  predicate AllChecked(blocks: seq<Block>) {
    forall k | 0 <= k < |blocks| :: blocks[k].Checked?
  }

  /** The operations of the `Checked` blocks of `blocks`, in queue order. */
  function CheckedIds(blocks: seq<Block>): (ids: seq<OpId>)
    ensures |ids| <= |blocks|
    ensures AllChecked(blocks) ==> |ids| == |blocks| && forall k | 0 <= k < |ids| :: ids[k] == blocks[k].op
  {
    if blocks == [] then []
    else
      var last := blocks[|blocks| - 1];
      CheckedIds(blocks[..|blocks| - 1]) + (if last.Checked? then [last.op] else [])
  }

  /** The handle returned to callers: a weak reference, empty by default. */
  datatype DelayedOperation = DelayedOperation(handle: Option<DelayedOperationImpl>)

  /** `s` without any occurrence of `x`, in the same order. */
  function Erase(s: seq<DelayedOperationImpl>, x: DelayedOperationImpl): (r: seq<DelayedOperationImpl>)
    ensures multiset(r) == multiset(s)[x := 0]
    ensures forall y :: y in r ==> y in s && y != x
    ensures forall y :: y in s && y != x ==> y in r
    ensures x !in s ==> r == s
  {
    if s == [] then []
    else
      assert s == [s[0]] + s[1..];
      (if s[0] == x then [] else [s[0]]) + Erase(s[1..], x)
  }

  /** Erasing keeps the elements distinct. */
  lemma EraseKeepsDistinct(s: seq<DelayedOperationImpl>, x: DelayedOperationImpl)
    ensures Distinct(s) ==> Distinct(Erase(s, x))
  {
  }

  /** The number of elements of `s`, from the front, up to and including the first with `timer`. */
  function FirstWithTimer(s: seq<DelayedOperationImpl>, timer: TimerId): (k: nat)
    ensures k <= |s|
    ensures k < |s| ==> s[k].timerId == timer
    ensures forall j :: 0 <= j < k ==> s[j].timerId != timer
  {
    if s == [] || s[0].timerId == timer then 0 else 1 + FirstWithTimer(s[1..], timer)
  }

  /**
   * How many of the sorted entries `RunDelayedOperationsUntil(last)` runs:
   * all for `All`, else those up to and including the first under `last`;
   * `None` when no entry carries `last`, which fails the assertion.
   */
  function RunUntil(s: seq<DelayedOperationImpl>, last: TimerId): (r: Option<nat>)
    ensures last == All ==> r == Some(|s|)
    ensures last != All ==> (r.None? <==> forall j :: 0 <= j < |s| ==> s[j].timerId != last)
    ensures last != All && r.Some? ==>
      0 < r.value <= |s| && s[r.value - 1].timerId == last &&
      forall j :: 0 <= j < r.value - 1 ==> s[j].timerId != last
  {
    if last == All then Some(|s|)
    else
      var k := FirstWithTimer(s, last);
      if k == |s| then None else Some(k + 1)
  }

  /** Entries are ordered by target time only. */
  ghost predicate SortedByTime(s: seq<DelayedOperationImpl>)
  {
    forall i, j :: 0 <= i < j < |s| ==> s[i].targetTime <= s[j].targetTime
  }

  /** Puts `x` in front of the first entry that is not due before it. */
  function InsertByTime(x: DelayedOperationImpl, s: seq<DelayedOperationImpl>): (r: seq<DelayedOperationImpl>)
    requires SortedByTime(s)
    ensures SortedByTime(r)
    ensures multiset(r) == multiset(s) + multiset{x}
    ensures forall y :: y in r ==> y in s || y == x
  {
    if s == [] || x.targetTime <= s[0].targetTime then
      SortedCons(x, s);
      [x] + s
    else
      assert s == [s[0]] + s[1..];
      var rest := InsertByTime(x, s[1..]);
      assert forall y :: y in s[1..] ==> s[0].targetTime <= y.targetTime;
      SortedCons(s[0], rest);
      [s[0]] + rest
  }

  lemma SortedCons(a: DelayedOperationImpl, s: seq<DelayedOperationImpl>)
    requires SortedByTime(s)
    requires forall y :: y in s ==> a.targetTime <= y.targetTime
    ensures SortedByTime([a] + s)
  {
    forall i, j | 0 <= i < j < |[a] + s|
      ensures ([a] + s)[i].targetTime <= ([a] + s)[j].targetTime
    {
      if i > 0 {
        assert ([a] + s)[i] == s[i - 1];
      }
      assert ([a] + s)[j] == s[j - 1];
    }
  }

  /**
   * The order `std::sort` gives the entries. Ties may come out in any order
   * there; this is one of the orders it may produce.
   */
  function SortByTime(s: seq<DelayedOperationImpl>): (r: seq<DelayedOperationImpl>)
    ensures SortedByTime(r)
    ensures multiset(r) == multiset(s)
  {
    if s == [] then []
    else
      assert s == [s[0]] + s[1..];
      InsertByTime(s[0], SortByTime(s[1..]))
  }

  /** Sorting keeps exactly the operations it was given, each as often as before. */
  lemma SortKeepsMembers(s: seq<DelayedOperationImpl>)
    ensures forall x :: x in SortByTime(s) <==> x in s
    ensures Distinct(s) ==> Distinct(SortByTime(s))
  {
    var sorted := SortByTime(s);
    forall x | x in sorted || x in s
      ensures x in sorted <==> x in s
    {
      assert x in sorted <==> x in multiset(sorted);
      assert x in s <==> x in multiset(s);
    }
  }

  /** The blocks that `SkipDelay` of each entry of `s` enqueues, in order. */
  function ElapseBlocks(s: seq<DelayedOperationImpl>): (r: seq<Block>)
    ensures |r| == |s|
    ensures forall k :: 0 <= k < |s| ==> r[k] == Elapse(s[k])
  {
    if s == [] then [] else [Elapse(s[0])] + ElapseBlocks(s[1..])
  }

  class AsyncQueue {
    var isOperationInProgress: bool
    /** The registered delayed operations, in the order they were scheduled. */
    var operations: seq<DelayedOperationImpl>
    var pending: seq<Block>
    var armed: seq<DelayedOperationImpl>
    /** The operations that have run, in order. */
    var log: seq<OpId>
    /** How often the drain semaphore has been signalled. */
    var signals: nat
    /** The delayed operations that have run, in order. */
    ghost var ran: seq<DelayedOperationImpl>
    ghost var Repr: set<DelayedOperationImpl>

    /**
     * A delayed operation that has run is done and no longer registered,
     * and none has run twice.
     */
    ghost predicate Valid()
      reads this, Repr
    {
      (forall x :: x in operations ==> x in Repr) &&
      (forall x :: x in armed ==> x in Repr) &&
      (forall b :: b in pending && b.Elapse? ==> b.delayed in Repr) &&
      (forall x :: x in ran ==> x in Repr && x.done && x !in operations) &&
      Distinct(ran) && Distinct(operations)
    }

    ghost predicate Unchanged(flag: bool, ops: seq<DelayedOperationImpl>, timers: seq<DelayedOperationImpl>,
                              done: seq<OpId>, sigs: nat, delayedRun: seq<DelayedOperationImpl>)
      reads this
    {
      isOperationInProgress == flag && operations == ops && armed == timers &&
      log == done && signals == sigs && ran == delayedRun
    }

    constructor ()
      ensures Valid() && fresh(this)
      ensures !isOperationInProgress && operations == [] && pending == [] && armed == []
      ensures log == [] && signals == 0 && ran == [] && Repr == {}
    {
      isOperationInProgress := false;
      operations := [];
      pending := [];
      armed := [];
      log := [];
      signals := 0;
      ran := [];
      Repr := {};
    }

    /** Passes only on the target queue inside a checked operation. */
    function VerifyIsCurrentQueue(onQueue: bool): (r: Outcome)
      reads this
      ensures r.Ok? <==> onQueue && isOperationInProgress
      ensures !onQueue ==> r == Failed(NotOnQueue)
      ensures onQueue && !isOperationInProgress ==> r == Failed(NoOperationInProgress)
    {
      if !onQueue then Failed(NotOnQueue)
      else if !isOperationInProgress then Failed(NoOperationInProgress)
      else Ok
    }

    /** Some registered delayed operation carries `timer`. */
    function ContainsDelayedOperation(timer: TimerId): (r: bool)
      reads this
      ensures r <==> exists k :: 0 <= k < |operations| && operations[k].timerId == timer
    {
      FirstWithTimer(operations, timer) < |operations|
    }

    /** The `dispatch_async` of a block: it joins the back of the serial queue. */
    method DispatchAsync(b: Block)
      requires Valid() && (b.Elapse? ==> b.delayed in Repr)
      modifies this
      ensures Valid() && Repr == old(Repr)
      ensures pending == old(pending) + [b]
      ensures Unchanged(old(isOperationInProgress), old(operations), old(armed), old(log), old(signals), old(ran))
    {
      pending := pending + [b];
    }

    /**
     * The part of `EnterCheckedOperation` before the operation runs. It
     * fails when an operation is already in progress; the flag is set
     * afterwards either way. Its queue check cannot fail: blocks run on
     * the target queue.
     */
    method BeginCheckedOperation() returns (r: Outcome)
      requires Valid()
      modifies this
      ensures Valid() && Repr == old(Repr)
      ensures r.Ok? <==> !old(isOperationInProgress)
      ensures r.Failed? ==> r.failure == OperationInProgress
      ensures isOperationInProgress && pending == old(pending)
      ensures Unchanged(true, old(operations), old(armed), old(log), old(signals), old(ran))
    {
      r := if isOperationInProgress then Failed(OperationInProgress) else Ok;
      isOperationInProgress := true;
    }

    /** The part of `EnterCheckedOperation` after the operation returns. */
    method EndCheckedOperation()
      requires Valid()
      modifies this
      ensures Valid() && Repr == old(Repr)
      ensures !isOperationInProgress && pending == old(pending)
      ensures Unchanged(false, old(operations), old(armed), old(log), old(signals), old(ran))
    {
      isOperationInProgress := false;
    }

    /** Fails from inside an operation on the target queue; otherwise queues `op`. */
    method Enqueue(op: OpId, onQueue: bool) returns (r: Outcome)
      requires Valid()
      modifies this
      ensures Valid() && Repr == old(Repr)
      ensures r.Ok? <==> !isOperationInProgress || !onQueue
      ensures r.Failed? ==> r.failure == NestedEnqueue && pending == old(pending)
      ensures r.Ok? ==> pending == old(pending) + [Checked(op)]
      ensures Unchanged(old(isOperationInProgress), old(operations), old(armed), old(log), old(signals), old(ran))
    {
      if isOperationInProgress && onQueue {
        return Failed(NestedEnqueue);
      }
      DispatchAsync(Checked(op));
      r := Ok;
    }

    /** Queues `op` without any check. */
    method EnqueueAllowingSameQueue(op: OpId)
      requires Valid()
      modifies this
      ensures Valid() && Repr == old(Repr)
      ensures pending == old(pending) + [Checked(op)]
      ensures Unchanged(old(isOperationInProgress), old(operations), old(armed), old(log), old(signals), old(ran))
    {
      DispatchAsync(Checked(op));
    }

    /**
     * Registers a delayed operation under `timer`, due `delay` ms after
     * `now`, and arms its timer. A timer that is already registered fails
     * the assertion. The handle is a weak reference to the new object.
     */
    method EnqueueAfterDelay(delay: int, timer: TimerId, op: OpId, now: int)
      returns (r: Outcome, h: DelayedOperation)
      requires Valid()
      modifies this
      ensures Valid() && old(Repr) <= Repr
      ensures r.Ok? <==> !old(ContainsDelayedOperation(timer))
      ensures r.Failed? ==>
        r.failure == DuplicateTimer && h.handle.None? && Repr == old(Repr) &&
        Unchanged(old(isOperationInProgress), old(operations), old(armed), old(log), old(signals), old(ran))
      ensures r.Ok? ==>
        h.handle.Some? && fresh(h.handle.value) && Repr == old(Repr) + {h.handle.value} &&
        h.handle.value.timerId == timer && h.handle.value.targetTime == now + delay &&
        h.handle.value.operation == op && !h.handle.value.done &&
        Unchanged(old(isOperationInProgress), old(operations) + [h.handle.value], old(armed) + [h.handle.value],
                  old(log), old(signals), old(ran))
      ensures pending == old(pending)
    {
      if ContainsDelayedOperation(timer) {
        return Failed(DuplicateTimer), DelayedOperation(None);
      }
      var x := new DelayedOperationImpl(timer, now + delay, op);
      assert multiset(operations)[x] == 0;
      operations := operations + [x];
      armed := armed + [x];
      Repr := Repr + {x};
      r, h := Ok, DelayedOperation(Some(x));
    }

    /**
     * Erases `x` from the registered operations; the assertion fails when
     * it is not there, and then nothing changes.
     */
    method RemoveDelayedOperation(x: DelayedOperationImpl) returns (r: Outcome)
      modifies this
      ensures r.Ok? <==> x in old(operations)
      ensures r.Failed? ==> r.failure == DelayedOperationNotFound
      ensures operations == Erase(old(operations), x)
      ensures isOperationInProgress == old(isOperationInProgress) && pending == old(pending)
      ensures armed == old(armed) && log == old(log) && signals == old(signals)
      ensures ran == old(ran) && Repr == old(Repr)
    {
      r := if x in operations then Ok else Failed(DelayedOperationNotFound);
      operations := Erase(operations, x);
    }

    /** Runs the operation of `x`, which was not done; only `HandleDelayElapsed` calls this. */
    method RunDelayed(x: DelayedOperationImpl)
      requires Valid() && x in Repr && x.done && x !in ran
      modifies this
      ensures log == old(log) + [x.operation] && ran == old(ran) + [x]
      ensures isOperationInProgress == old(isOperationInProgress) && pending == old(pending)
      ensures operations == old(operations) && armed == old(armed) && signals == old(signals)
      ensures Repr == old(Repr)
      ensures forall y :: y in ran ==> y in Repr && y.done
      ensures Distinct(ran)
    {
      assert multiset(ran)[x] == 0;
      log := log + [x.operation];
      ran := ran + [x];
    }

    /**
     * The body `RunDelayedOperationsUntil` enqueues: sorts the registered
     * operations by target time, then asks each one up to and including the
     * first under `last` (all of them for `All`) to skip its delay, and
     * queues the semaphore signal behind them. A `last` that no entry
     * carries fails the assertion after the sort.
     */
    method DrainDelayed(last: TimerId) returns (r: Outcome)
      requires Valid()
      modifies this
      ensures Valid() && Repr == old(Repr)
      ensures operations == SortByTime(old(operations))
      ensures RunUntil(operations, last).None? ==> r == Failed(TimerNotScheduled) && pending == old(pending)
      ensures RunUntil(operations, last).Some? ==>
        r == Ok && pending == old(pending) + ElapseBlocks(operations[..RunUntil(operations, last).value]) + [Signal]
      ensures isOperationInProgress == old(isOperationInProgress) && armed == old(armed)
      ensures log == old(log) && signals == old(signals) && ran == old(ran)
    {
      SortOperations();
      var until := RunUntil(operations, last);
      if until.None? {
        return Failed(TimerNotScheduled);
      }
      SkipDelays(until.value);
      DispatchAsync(Signal);
      r := Ok;
    }

    /** The `std::sort` of the registered operations by target time. */
    method SortOperations()
      requires Valid()
      modifies this
      ensures Valid() && Repr == old(Repr)
      ensures operations == SortByTime(old(operations)) && pending == old(pending)
      ensures isOperationInProgress == old(isOperationInProgress) && armed == old(armed)
      ensures log == old(log) && signals == old(signals) && ran == old(ran)
    {
      var sorted := SortByTime(operations);
      SortKeepsMembers(operations);
      operations := sorted;
    }

    /** `SkipDelay` of the first `until` registered operations, in order. */
    method SkipDelays(until: nat)
      requires Valid() && until <= |operations|
      modifies this
      ensures Valid() && Repr == old(Repr)
      ensures Unchanged(old(isOperationInProgress), old(operations), old(armed), old(log), old(signals), old(ran))
      ensures pending == old(pending) + ElapseBlocks(operations[..until])
    {
      for k := 0 to until
        invariant Valid() && Repr == old(Repr)
        invariant Unchanged(old(isOperationInProgress), old(operations), old(armed), old(log), old(signals), old(ran))
        invariant pending == old(pending) + ElapseBlocks(operations[..k])
      {
        operations[k].SkipDelay(this);
        assert operations[..k + 1] == operations[..k] + [operations[k]];
      }
    }

    /**
     * Queues the draining body from outside the queue and returns; the
     * caller then waits for `Signal` to run. From inside an operation on
     * the queue it fails like `Enqueue`.
     */
    method RunDelayedOperationsUntil(last: TimerId, onQueue: bool) returns (r: Outcome)
      requires Valid()
      modifies this
      ensures Valid() && Repr == old(Repr)
      ensures r.Ok? <==> !isOperationInProgress || !onQueue
      ensures r.Failed? ==> r.failure == NestedEnqueue && pending == old(pending)
      ensures r.Ok? ==> pending == old(pending) + [DrainUntil(last)]
      ensures Unchanged(old(isOperationInProgress), old(operations), old(armed), old(log), old(signals), old(ran))
    {
      if isOperationInProgress && onQueue {
        return Failed(NestedEnqueue);
      }
      DispatchAsync(DrainUntil(last));
      r := Ok;
    }

    /**
     * libdispatch runs the block at the front of the queue inside
     * `EnterCheckedOperation`. The flag is cleared only when the block
     * completes without a failed assertion.
     */
    method RunNextBlock() returns (r: Outcome)
      requires Valid() && pending != []
      modifies this, if pending[0].Elapse? then {pending[0].delayed} else {}
      ensures Valid() && Repr == old(Repr)
      ensures old(pending)[1..] <= pending
      ensures r.Ok? ==> !isOperationInProgress
      ensures old(isOperationInProgress) ==>
        r == Failed(OperationInProgress) && pending == old(pending)[1..] &&
        Unchanged(true, old(operations), old(armed), old(log), old(signals), old(ran))
      ensures !old(isOperationInProgress) && old(pending)[0].Checked? ==>
        r == Ok && pending == old(pending)[1..] &&
        Unchanged(false, old(operations), old(armed), old(log) + [old(pending)[0].op], old(signals), old(ran))
      ensures !old(isOperationInProgress) && old(pending)[0].Signal? ==>
        r == Ok && pending == old(pending)[1..] &&
        Unchanged(false, old(operations), old(armed), old(log), old(signals) + 1, old(ran))
      ensures !old(isOperationInProgress) && old(pending)[0].Elapse? ==>
        var x := old(pending)[0].delayed;
        x.done && pending == old(pending)[1..] && armed == old(armed) && signals == old(signals) &&
        (old(x.done) ==> log == old(log)) && (!old(x.done) ==> log == old(log) + [x.operation]) &&
        (r.Ok? <==> x in old(operations)) && operations == Erase(old(operations), x)
      ensures !old(isOperationInProgress) && old(pending)[0].DrainUntil? ==>
        var last := old(pending)[0].last;
        operations == SortByTime(old(operations)) && armed == old(armed) && log == old(log) &&
        signals == old(signals) &&
        (RunUntil(operations, last).None? ==> r == Failed(TimerNotScheduled) && pending == old(pending)[1..]) &&
        (RunUntil(operations, last).Some? ==>
          r == Ok &&
          pending == old(pending)[1..] + ElapseBlocks(operations[..RunUntil(operations, last).value]) + [Signal])
    {
      var b := pending[0];
      pending := pending[1..];
      r := BeginCheckedOperation();
      if r.Failed? {
        return;
      }
      match b {
        case Checked(op) =>
          log := log + [op];
        case Elapse(x) =>
          r := x.HandleDelayElapsed(this);
        case DrainUntil(last) =>
          r := DrainDelayed(last);
        case Signal =>
          signals := signals + 1;
      }
      if r.Ok? {
        EndCheckedOperation();
      }
    }

    /**
     * libdispatch invokes the timer of `x` once its delay has elapsed: the
     * same `HandleDelayElapsed` inside `EnterCheckedOperation`. When `x`
     * was already run early through `SkipDelay`, the program would touch a
     * deleted object here; the model carries on as if it were alive.
     */
    method TimerElapsed(x: DelayedOperationImpl) returns (r: Outcome)
      requires Valid() && x in armed
      modifies this, x
      ensures Valid() && Repr == old(Repr)
      ensures armed == Erase(old(armed), x) && pending == old(pending) && signals == old(signals)
      ensures r.Ok? ==> !isOperationInProgress
      ensures old(isOperationInProgress) ==>
        r == Failed(OperationInProgress) && operations == old(operations) && log == old(log)
      ensures !old(isOperationInProgress) ==>
        x.done &&
        (old(x.done) ==> log == old(log)) && (!old(x.done) ==> log == old(log) + [x.operation]) &&
        (r.Ok? <==> x in old(operations)) && operations == Erase(old(operations), x)
    {
      armed := Erase(armed, x);
      r := BeginCheckedOperation();
      if r.Failed? {
        return;
      }
      r := x.HandleDelayElapsed(this);
      if r.Ok? {
        EndCheckedOperation();
      }
    }

    /**
     * The wait of `dispatch_sync`: libdispatch runs, one after the other,
     * the blocks queued before the call, and stops at the first that fails.
     */
    method RunQueuedBlocks() returns (r: Outcome)
      requires Valid()
      modifies this, Repr
      ensures Valid() && Repr == old(Repr)
      ensures r.Ok? && old(pending) != [] ==> !isOperationInProgress
      ensures old(pending) == [] ==>
        r == Ok && pending == [] &&
        Unchanged(old(isOperationInProgress), old(operations), old(armed), old(log), old(signals), old(ran))
      ensures !old(isOperationInProgress) && AllChecked(old(pending)) ==>
        r == Ok && pending == [] &&
        Unchanged(false, old(operations), old(armed), old(log) + CheckedIds(old(pending)), old(signals), old(ran))
    {
      var n := |pending|;
      ghost var checkedOnly := !isOperationInProgress && AllChecked(pending);
      var i := 0;
      r := Ok;
      while i < n && r.Ok?
        invariant Valid() && Repr == old(Repr)
        invariant 0 <= i <= n && |pending| >= n - i
        invariant r.Ok? && i > 0 ==> !isOperationInProgress
        invariant n == 0 ==> r.Ok? && pending == old(pending)
        invariant n == 0 ==>
          Unchanged(old(isOperationInProgress), old(operations), old(armed), old(log), old(signals), old(ran))
        invariant checkedOnly ==>
          r.Ok? && pending == old(pending)[i..] &&
          Unchanged(false, old(operations), old(armed), old(log) + CheckedIds(old(pending)[..i]), old(signals), old(ran))
        decreases n - i
      {
        r := RunNextBlock();
        assert old(pending)[..i + 1][..i] == old(pending)[..i];
        i := i + 1;
      }
      if checkedOnly {
        assert old(pending)[..i] == old(pending);
      }
    }

    /**
     * Fails from inside an operation on the target queue. Otherwise
     * `dispatch_sync` waits for the blocks queued before it, then runs `op`
     * as a checked operation.
     */
    method RunSync(op: OpId, onQueue: bool) returns (r: Outcome)
      requires Valid()
      modifies this, Repr
      ensures Valid() && Repr == old(Repr)
      ensures old(isOperationInProgress) && onQueue ==>
        r == Failed(NestedEnqueue) && pending == old(pending) &&
        Unchanged(true, old(operations), old(armed), old(log), old(signals), old(ran))
      ensures r.Ok? ==> !isOperationInProgress && |log| > 0 && log[|log| - 1] == op
      ensures !old(isOperationInProgress) && old(pending) == [] ==>
        r == Ok && pending == [] &&
        Unchanged(false, old(operations), old(armed), old(log) + [op], old(signals), old(ran))
      ensures !old(isOperationInProgress) && AllChecked(old(pending)) ==>
        r == Ok && pending == [] &&
        Unchanged(false, old(operations), old(armed), old(log) + CheckedIds(old(pending)) + [op], old(signals), old(ran))
    {
      if isOperationInProgress && onQueue {
        return Failed(NestedEnqueue);
      }
      r := RunQueuedBlocks();
      if r.Failed? {
        return;
      }
      r := BeginCheckedOperation();
      if r.Failed? {
        return;
      }
      log := log + [op];
      EndCheckedOperation();
    }
  }

  /**
   * Cancels through a handle. When the object is gone (or the handle is
   * empty) the weak reference yields nothing and the call does nothing;
   * otherwise it is the object's own `Cancel`.
   */
  method CancelDelayedOperation(h: DelayedOperation, queue: AsyncQueue, onQueue: bool) returns (r: Outcome)
    requires queue.Valid() && (h.handle.Some? ==> h.handle.value in queue.Repr)
    modifies if h.handle.Some? then {h.handle.value} else {}
    ensures queue.Valid()
    ensures h.handle.None? || h.handle.value !in queue.operations ==> r == Ok
    ensures h.handle.Some? && h.handle.value in queue.operations ==>
      r == queue.VerifyIsCurrentQueue(onQueue) && (r.Ok? ==> h.handle.value.done)
    ensures h.handle.Some? && (r.Failed? || h.handle.value !in queue.operations) ==>
      h.handle.value.done == old(h.handle.value.done)
  {
    if h.handle.Some? && h.handle.value in queue.operations {
      r := h.handle.value.Cancel(queue, onQueue);
    } else {
      r := Ok;
    }
  }
}
