/**
 * The templated libdispatch executor: a serial dispatch queue plus a list
 * of the delayed operations it has handed to `dispatch_after`. Ownership
 * of a delayed operation lies with libdispatch. The executor keeps a plain
 * reference to it, tagged, until the operation runs or is cancelled.
 *
 * As in the queue model, libdispatch is the environment:
 * - `pending` is the FIFO of operations handed to `dispatch_async`;
 * - `armed` holds the timers that have not fired yet.
 */
module DispatchExecution {
  import opened Wrappers

  class DelayedOperationImpl<Tag> {
    const executor: Executor<Tag>
    /** Milliseconds on the system clock when the timer is due; used for sorting. */
    const targetTime: int
    const operation: OpId
    /** Set once the operation has either run or been cancelled. */
    var done: bool

    constructor (executor: Executor<Tag>, targetTime: int, operation: OpId)
      ensures this.executor == executor && this.targetTime == targetTime && this.operation == operation
      ensures !done
    {
      this.executor := executor;
      this.targetTime := targetTime;
      this.operation := operation;
      done := false;
    }

    method MarkDone()
      modifies this
      ensures done
    {
      done := true;
    }

    method Dequeue()
      requires executor.Valid() && this in executor.Repr
      modifies executor
      ensures executor.Valid() && executor.Repr == old(executor.Repr)
      ensures executor.operations == RemoveFirst(old(executor.operations), this)
      ensures executor.Unchanged(old(executor.pending), old(executor.armed), old(executor.log), old(executor.ran))
    {
      executor.Remove(this);
    }

    /**
     * `Cancel` as written: an operation that is not done leaves the
     * executor's list, but `done` stays false. Its timer still fires, and
     * `Execute` then finds it not done and runs it.
     */
    method Cancel()
      requires executor.Valid() && this in executor.Repr
      modifies executor
      ensures executor.Valid() && executor.Repr == old(executor.Repr)
      ensures done == old(done)
      ensures !done ==> executor.operations == RemoveFirst(old(executor.operations), this)
      ensures done ==> executor.operations == old(executor.operations)
      ensures executor.Unchanged(old(executor.pending), old(executor.armed), old(executor.log), old(executor.ran))
      ensures old(executor.OnlyLiveRegistered()) ==> executor.OnlyLiveRegistered()
    {
      if !done {
        Dequeue();
      }
    }

    /**
     * `Cancel` as evidently intended: it also marks the operation done, so
     * a later `Execute` runs nothing.
     */
    method CancelAndMarkDone()
      requires executor.Valid() && this in executor.Repr
      modifies this, executor
      ensures executor.Valid() && executor.Repr == old(executor.Repr)
      ensures done
      ensures !old(done) ==> executor.operations == RemoveFirst(old(executor.operations), this)
      ensures old(done) ==> executor.operations == old(executor.operations)
      ensures executor.Unchanged(old(executor.pending), old(executor.armed), old(executor.log), old(executor.ran))
      ensures old(executor.OnlyLiveRegistered()) ==> executor.OnlyLiveRegistered()
    {
      if !done {
        Dequeue();
        MarkDone();
      }
    }

    /**
     * Does nothing when done. Otherwise it dequeues, marks done and runs
     * the operation, so the operation runs at most once.
     */
    method Execute()
      requires executor.Valid() && this in executor.Repr
      modifies this, executor
      ensures executor.Valid() && executor.Repr == old(executor.Repr)
      ensures done
      ensures old(done) ==>
        executor.operations == old(executor.operations) && executor.log == old(executor.log) &&
        executor.ran == old(executor.ran)
      ensures !old(done) ==>
        executor.operations == RemoveFirst(old(executor.operations), this) &&
        executor.log == old(executor.log) + [operation] && executor.ran == old(executor.ran) + [this]
      ensures executor.pending == old(executor.pending) && executor.armed == old(executor.armed)
      ensures old(executor.OnlyLiveRegistered()) ==> executor.OnlyLiveRegistered()
    {
      if done {
        return;
      }
      Dequeue();
      MarkDone();
      executor.RunDelayed(this);
    }

    /** libdispatch invokes the timer: the operation's `Execute`. */
    method InvokedByLibdispatch()
      requires executor.Valid() && this in executor.armed
      modifies this, executor
      ensures executor.Valid() && executor.Repr == old(executor.Repr)
      ensures done && executor.armed == Erase(old(executor.armed), this)
      ensures this !in executor.armed && forall y :: y in old(executor.armed) && y != this ==> y in executor.armed
      ensures old(done) ==> executor.operations == old(executor.operations) && executor.log == old(executor.log)
      ensures !old(done) ==>
        executor.operations == RemoveFirst(old(executor.operations), this) &&
        executor.log == old(executor.log) + [operation]
      ensures executor.pending == old(executor.pending)
    {
      executor.Disarm(this);
      Execute();
    }
  }

  datatype TaggedOperation<Tag> = TaggedOperation(tag: Tag, op: DelayedOperationImpl<Tag>)

  /** The index of the first entry pointing to `x`; `|s|` when there is none. */
  function IndexOfOperation<Tag>(s: seq<TaggedOperation<Tag>>, x: DelayedOperationImpl<Tag>): (k: nat)
    ensures k <= |s|
    ensures k < |s| ==> s[k].op == x
    ensures forall j :: 0 <= j < k ==> s[j].op != x
  {
    if s == [] || s[0].op == x then 0 else 1 + IndexOfOperation(s[1..], x)
  }

  /** `s` without its first entry pointing to `x`, if any. */
  function RemoveFirst<Tag>(s: seq<TaggedOperation<Tag>>, x: DelayedOperationImpl<Tag>): (r: seq<TaggedOperation<Tag>>)
    ensures IndexOfOperation(s, x) == |s| ==> r == s
    ensures IndexOfOperation(s, x) < |s| ==>
      |r| == |s| - 1 &&
      (forall j {:trigger r[j]} :: 0 <= j < IndexOfOperation(s, x) ==> r[j] == s[j]) &&
      (forall j {:trigger r[j]} :: IndexOfOperation(s, x) <= j < |r| ==> r[j] == s[j + 1])
  {
    var k := IndexOfOperation(s, x);
    if k == |s| then s else s[..k] + s[k + 1..]
  }

  /** `s` without any occurrence of `x`, in the same order. */
  function Erase<Tag>(s: seq<DelayedOperationImpl<Tag>>, x: DelayedOperationImpl<Tag>): (r: seq<DelayedOperationImpl<Tag>>)
    ensures multiset(r) == multiset(s)[x := 0]
    ensures forall y :: y in r ==> y in s && y != x
    ensures forall y :: y in s && y != x ==> y in r
    ensures x !in s ==> r == s
  {
    if s == [] then []
    else
      assert s == [s[0]] + s[1..];
      (if s[0] == x then [] else [s[0]]) + Erase(s[1..], x)
  }

  class Executor<Tag> {
    var operations: seq<TaggedOperation<Tag>>
    var pending: seq<OpId>
    var armed: seq<DelayedOperationImpl<Tag>>
    /** The operations that have run, in order. */
    var log: seq<OpId>
    /** The delayed operations that have run, in order. */
    ghost var ran: seq<DelayedOperationImpl<Tag>>
    ghost var Repr: set<DelayedOperationImpl<Tag>>

    /**
     * Every delayed operation this executor knows points back to it. A
     * delayed operation that has run is done, and none has run twice.
     */
    ghost predicate Valid()
      reads this, Repr
    {
      (forall x :: x in Repr ==> x.executor == this) &&
      (forall t :: t in operations ==> t.op in Repr) &&
      (forall i, j :: 0 <= i < j < |operations| ==> operations[i].op != operations[j].op) &&
      (forall x :: x in armed ==> x in Repr) &&
      (forall x :: x in ran ==> x in Repr && x.done) &&
      (forall x :: x in ran ==> multiset(ran)[x] == 1)
    }

    /**
     * The invariant the source states: an operation still in the list has
     * neither run nor been cancelled.
     */
    ghost predicate OnlyLiveRegistered()
      reads this, Repr
      requires Valid()
    {
      forall t :: t in operations ==> !t.op.done
    }

    ghost predicate Unchanged(blocks: seq<OpId>, timers: seq<DelayedOperationImpl<Tag>>, done: seq<OpId>,
                              delayedRun: seq<DelayedOperationImpl<Tag>>)
      reads this
    {
      pending == blocks && armed == timers && log == done && ran == delayedRun
    }

    constructor ()
      ensures Valid() && OnlyLiveRegistered()
      ensures operations == [] && pending == [] && armed == [] && log == [] && ran == [] && Repr == {}
    {
      operations := [];
      pending := [];
      armed := [];
      log := [];
      ran := [];
      Repr := {};
    }

    /** Hands `op` to `dispatch_async`. */
    method Execute(op: OpId)
      requires Valid()
      modifies this
      ensures Valid() && Repr == old(Repr) && operations == old(operations)
      ensures Unchanged(old(pending) + [op], old(armed), old(log), old(ran))
    {
      pending := pending + [op];
    }

    /** Hands `op` to `dispatch_sync`: the earlier blocks run first, then `op`. */
    method ExecuteBlocking(op: OpId)
      requires Valid()
      modifies this
      ensures Valid() && Repr == old(Repr) && operations == old(operations)
      ensures Unchanged([], old(armed), old(log) + old(pending) + [op], old(ran))
    {
      log := log + pending + [op];
      pending := [];
    }

    /**
     * Creates the delayed operation due `delay` ms after `now`, arms its
     * timer and appends it to the list under `tag`.
     */
    method ScheduleExecution(delay: int, tag: Tag, op: OpId, now: int) returns (x: DelayedOperationImpl<Tag>)
      requires Valid()
      modifies this
      ensures Valid() && fresh(x) && Repr == old(Repr) + {x}
      ensures x.executor == this && x.targetTime == now + delay && x.operation == op && !x.done
      ensures operations == old(operations) + [TaggedOperation(tag, x)]
      ensures Unchanged(old(pending), old(armed) + [x], old(log), old(ran))
      ensures old(OnlyLiveRegistered()) ==> OnlyLiveRegistered()
    {
      x := new DelayedOperationImpl(this, now + delay, op);
      armed := armed + [x];
      operations := operations + [TaggedOperation(tag, x)];
      Repr := Repr + {x};
    }

    /**
     * Erases the first entry pointing to `x`. When there is none, because
     * libdispatch got to an operation that was already run early, nothing
     * changes.
     */
    method Remove(x: DelayedOperationImpl<Tag>)
      requires Valid()
      modifies this
      ensures Valid() && Repr == old(Repr)
      ensures operations == RemoveFirst(old(operations), x)
      ensures Unchanged(old(pending), old(armed), old(log), old(ran))
      ensures old(OnlyLiveRegistered()) ==> OnlyLiveRegistered()
    {
      var k := IndexOfOperation(operations, x);
      if k < |operations| {
        operations := operations[..k] + operations[k + 1..];
      }
    }

    /** The timer of `x` has fired; libdispatch no longer holds it. */
    method Disarm(x: DelayedOperationImpl<Tag>)
      requires Valid()
      modifies this
      ensures Valid() && Repr == old(Repr) && operations == old(operations)
      ensures Unchanged(old(pending), Erase(old(armed), x), old(log), old(ran))
      ensures x !in armed && forall y :: y in old(armed) && y != x ==> y in armed
    {
      armed := Erase(armed, x);
    }

    /** Runs the operation of `x`, which was not done; only `Execute` calls this. */
    method RunDelayed(x: DelayedOperationImpl<Tag>)
      requires Valid() && x in Repr && x.done && x !in ran
      modifies this
      ensures Valid() && Repr == old(Repr) && operations == old(operations)
      ensures Unchanged(old(pending), old(armed), old(log) + [x.operation], old(ran) + [x])
    {
      assert multiset(ran)[x] == 0;
      log := log + [x.operation];
      ran := ran + [x];
    }

    /**
     * The destructor: behind the blocks already queued, marks every
     * operation still in the list done, so its timer, when it fires,
     * runs nothing.
     */
    method Destroy()
      requires Valid()
      modifies this, Repr
      ensures Valid() && Repr == old(Repr) && operations == old(operations)
      ensures Unchanged([], old(armed), old(log) + old(pending), old(ran))
      ensures forall t :: t in operations ==> t.op.done
      ensures forall x :: x in Repr && (forall t :: t in operations ==> t.op != x) ==> x.done == old(x.done)
    {
      log := log + pending;
      pending := [];
      for i := 0 to |operations|
        invariant Valid() && Repr == old(Repr) && operations == old(operations)
        invariant Unchanged([], old(armed), old(log) + old(pending), old(ran))
        invariant forall j :: 0 <= j < i ==> operations[j].op.done
        invariant forall x :: x in Repr && (forall j :: 0 <= j < i ==> operations[j].op != x) ==> x.done == old(x.done)
      {
        operations[i].op.MarkDone();
      }
    }
  }
}
