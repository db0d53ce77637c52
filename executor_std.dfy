/**
 * The standard-library executor: a schedule of numbered entries served by a
 * single polling worker. Running an operation is the owner's business, so
 * the worker's steps hand back what they pop.
 */
module StdExecution {
  import opened Wrappers
  import opened Scheduling

  /**
   * The tag given to immediate entries. The header declaring the default
   * tag of `DoExecute` is not part of this model; the entry pushed by
   * `UnblockQueue` uses -1, and so does this model.
   */
  const ImmediateTag: int := -1

  /** A handle that cancels by entry id; a default-constructed one holds no function. */
  datatype DelayedOperation = EmptyHandle | CancelById(id: nat)

  datatype TaggedOperation<Op> = TaggedOperation(tag: int, operation: Operation<Op>)

  /** The operations of `entries`, in order. */
  function OperationsOf<Op>(entries: seq<Entry<Op>>): (r: seq<Operation<Op>>)
    ensures |r| == |entries|
    ensures forall i :: 0 <= i < |r| ==> r[i] == entries[i].operation
  {
    if entries == [] then [] else [entries[0].operation] + OperationsOf(entries[1..])
  }

  class ExecutorStd<Op(==)> {
    var schedule: seq<Entry<Op>>
    var currentId: nat
    var shuttingDown: bool

    ghost predicate Valid()
      reads this
    {
      Sorted(schedule)
    }

    constructor ()
      ensures Valid()
      ensures schedule == [] && currentId == 0 && !shuttingDown
    {
      schedule := [];
      currentId := 0;
      shuttingDown := false;
    }

    /** Post-increments the id counter; it is unbounded, wrap-around is ignored. */
    method NextId() returns (id: nat)
      modifies this
      ensures id == old(currentId) && currentId == old(currentId) + 1
      ensures schedule == old(schedule) && shuttingDown == old(shuttingDown)
    {
      id := currentId;
      currentId := currentId + 1;
    }

    method DoExecute(operation: Operation<Op>, when: Due, tag: int) returns (id: nat)
      requires Valid()
      modifies this
      ensures Valid()
      ensures id == old(currentId) && currentId == old(currentId) + 1
      ensures schedule == Insert(old(schedule), Entry(operation, id, tag, when))
      ensures shuttingDown == old(shuttingDown)
    {
      id := NextId();
      InsertKeepsSorted(schedule, Entry(operation, id, tag, when));
      schedule := Insert(schedule, Entry(operation, id, tag, when));
    }

    /** Queues `op` for immediate execution, behind earlier immediate work. */
    method Execute(op: Op)
      requires Valid()
      modifies this
      ensures Valid()
      ensures currentId == old(currentId) + 1
      ensures schedule == Insert(old(schedule), Entry(Run(op), old(currentId), ImmediateTag, Immediate))
      ensures Position(schedule, Immediate) == Position(old(schedule), Immediate) + 1
      ensures schedule[..Position(schedule, Immediate)] ==
              old(schedule)[..Position(old(schedule), Immediate)] + [Entry(Run(op), old(currentId), ImmediateTag, Immediate)]
      ensures shuttingDown == old(shuttingDown)
    {
      var e := Entry(Run(op), currentId, ImmediateTag, Immediate);
      ImmediateIsFifo(schedule, e);
      var id := DoExecute(Run(op), Immediate, ImmediateTag);
      assert schedule[..Position(schedule, Immediate)] == old(schedule)[..Position(old(schedule), Immediate)] + [e];
    }

    /**
     * Schedules `operation` at `now + delay` under its tag and returns the
     * handle that cancels it by id. A negative delay fails the assertion:
     * the result is `None` and nothing changes.
     */
    method ScheduleExecution(delay: int, operation: TaggedOperation<Op>, now: nat)
      returns (handle: Option<DelayedOperation>)
      requires Valid()
      modifies this
      ensures Valid()
      ensures delay < 0 ==> handle == None && schedule == old(schedule) && currentId == old(currentId)
      ensures delay >= 0 ==>
        handle == Some(CancelById(old(currentId))) && currentId == old(currentId) + 1 &&
        schedule == Insert(old(schedule), Entry(operation.operation, old(currentId), operation.tag, At(now + delay)))
      ensures shuttingDown == old(shuttingDown)
    {
      if delay < 0 {
        return None;
      }
      var id := DoExecute(operation.operation, At(now + delay), operation.tag);
      handle := Some(CancelById(id));
    }

    /** Removes the first entry with this id, if any is still pending. */
    method TryCancel(id: nat)
      requires Valid()
      modifies this
      ensures Valid()
      ensures schedule == WithoutId(old(schedule), id)
      ensures currentId == old(currentId) && shuttingDown == old(shuttingDown)
    {
      var k := IndexOfId(schedule, id);
      if k < |schedule| {
        RemoveKeepsOrder(schedule, k);
      }
      schedule := WithoutId(schedule, id);
    }

    /** Cancels through a handle; an empty handle has no function to call, so it fails. */
    method Cancel(handle: DelayedOperation) returns (ok: bool)
      requires Valid()
      modifies this
      ensures Valid()
      ensures ok <==> handle.CancelById?
      ensures handle.EmptyHandle? ==> schedule == old(schedule)
      ensures handle.CancelById? ==> schedule == WithoutId(old(schedule), handle.id)
      ensures currentId == old(currentId) && shuttingDown == old(shuttingDown)
    {
      if handle.EmptyHandle? {
        return false;
      }
      TryCancel(handle.id);
      ok := true;
    }

    /** `executor.h`'s contract: some pending delayed entry carries `tag`. */
    function IsScheduled(tag: int): (r: bool)
      reads this
      ensures r <==> exists x :: x in schedule && x.due.At? && x.tag == tag
    {
      ScheduledWithTag(schedule, tag)
    }

    /** `executor.h`'s contract: no delayed entry is pending; immediate ones do not count. */
    function IsScheduleEmpty(): (r: bool)
      reads this
      ensures r <==> forall x :: x in schedule ==> x.due.Immediate?
    {
      !HasDelayed(schedule)
    }

    /**
     * Removes the first delayed entry and returns its tag and operation, or
     * the empty tagged operation (tag 0, no function) when there is none.
     */
    method PopFromSchedule() returns (tagged: TaggedOperation<Op>)
      requires Valid()
      modifies this
      ensures Valid()
      ensures !HasDelayed(old(schedule)) ==> tagged == TaggedOperation(0, Empty) && schedule == old(schedule)
      ensures HasDelayed(old(schedule)) ==>
        var k := IndexOfDelayed(old(schedule));
        tagged == TaggedOperation(old(schedule)[k].tag, old(schedule)[k].operation) &&
        schedule == RemoveAt(old(schedule), k)
      ensures currentId == old(currentId) && shuttingDown == old(shuttingDown)
    {
      var k := IndexOfDelayed(schedule);
      if k == |schedule| {
        return TaggedOperation(0, Empty);
      }
      var removed := schedule[k];
      RemoveKeepsOrder(schedule, k);
      schedule := RemoveAt(schedule, k);
      tagged := TaggedOperation(removed.tag, removed.operation);
    }

    /** Pushes an immediate no-op (id 0, tag -1) so a blocked worker wakes up. */
    method UnblockQueue()
      requires Valid()
      modifies this
      ensures Valid()
      ensures schedule == Insert(old(schedule), Entry(NoOp, 0, -1, Immediate))
      ensures currentId == old(currentId) && shuttingDown == old(shuttingDown)
    {
      InsertKeepsSorted(schedule, Entry(NoOp, 0, -1, Immediate));
      schedule := Insert(schedule, Entry(NoOp, 0, -1, Immediate));
    }

    /** The destructor's part before joining the worker. */
    method ShutDown()
      requires Valid()
      modifies this
      ensures Valid()
      ensures shuttingDown
      ensures schedule == Insert(old(schedule), Entry(NoOp, 0, -1, Immediate))
      ensures currentId == old(currentId)
    {
      shuttingDown := true;
      UnblockQueue();
    }

    /**
     * One turn of the worker loop at time `now`: unless shutting down, pops
     * the front entry if it is due and returns its operation; `None` when
     * the loop has stopped or would block.
     */
    method PollOnce(now: nat) returns (popped: Option<Operation<Op>>)
      requires Valid()
      modifies this
      ensures Valid()
      ensures popped.Some? <==>
        !old(shuttingDown) && old(schedule) != [] && NoLater(old(schedule)[0].due, At(now))
      ensures popped.Some? ==> popped.value == old(schedule)[0].operation && schedule == old(schedule)[1..]
      ensures popped.None? ==> schedule == old(schedule)
      ensures currentId == old(currentId) && shuttingDown == old(shuttingDown)
    {
      if shuttingDown || schedule == [] || !NoLater(schedule[0].due, At(now)) {
        return None;
      }
      popped := Some(schedule[0].operation);
      schedule := schedule[1..];
    }

    /**
     * The worker loop run until it would block: pops, in schedule order,
     * exactly the entries due by `now`, and returns their operations.
     */
    method RunDue(now: nat) returns (ran: seq<Operation<Op>>)
      requires Valid()
      modifies this
      ensures Valid()
      ensures old(shuttingDown) ==> ran == [] && schedule == old(schedule)
      ensures !old(shuttingDown) ==>
        var due := Position(old(schedule), At(now));
        ran == OperationsOf(old(schedule)[..due]) && schedule == old(schedule)[due..]
      ensures currentId == old(currentId) && shuttingDown == old(shuttingDown)
    {
      ghost var start := schedule;
      ghost var due := Position(start, At(now));
      ran := [];
      ghost var i := 0;
      while true
        invariant Valid()
        invariant shuttingDown == old(shuttingDown) && currentId == old(currentId)
        invariant 0 <= i <= due && schedule == start[i..] && ran == OperationsOf(start[..i])
        invariant shuttingDown ==> i == 0
        decreases |schedule|
      {
        var popped := PollOnce(now);
        if popped.None? {
          break;
        }
        ran := ran + [popped.value];
        assert start[..i + 1] == start[..i] + [start[i]];
        i := i + 1;
      }
    }
  }
}
