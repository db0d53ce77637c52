/**
 * The async queue on top of the standard executor: every operation runs
 * wrapped, so that the queue knows when an operation is in progress and can
 * refuse to nest them; delayed operations are tagged by timer id, and tests
 * can drain them ahead of time.
 *
 * Whether the caller runs on the executor's worker is the `onExecutor`
 * parameter; the clock is the `now` parameter.
 */
module Queueing {
  import opened Wrappers
  import opened Scheduling
  import opened StdExecution
  import opened QueueOperations

  type Schedule = seq<Entry<Work>>

  /** The queue refuses a second delayed operation under a pending timer, so delayed tags are distinct. */
  ghost predicate DelayedTagsDistinct(s: Schedule)
  {
    forall i, j :: 0 <= i < j < |s| && s[i].due.At? && s[j].due.At? ==> s[i].tag != s[j].tag
  }

  /** Every entry holds an operation: the queue never pushes an empty one. */
  ghost predicate AllRun(s: Schedule)
  {
    forall x :: x in s ==> x.operation.Run?
  }

  ghost predicate QueueInvariant(s: Schedule, nextId: nat)
  {
    Sorted(s) && TiesInOrder(s) && DistinctIds(s) && IdsBelow(s, nextId) &&
    DelayedTagsDistinct(s) && AllRun(s)
  }

  /** The immediate entries at the front of the schedule: those a blocking call waits for. */
  function Waiting(s: Schedule): (r: Schedule)
    ensures r <= s
    ensures forall i :: 0 <= i < |r| ==> r[i].due.Immediate?
    ensures |r| < |s| ==> s[|r|].due.At?
  {
    s[..Position(s, Immediate)]
  }

  /** The ids of the operations held by `entries`, in order. */
  function WorkIds(entries: Schedule): (r: seq<OpId>)
    ensures |r| == |entries|
    ensures forall i :: 0 <= i < |r| && entries[i].operation.Run? ==> r[i] == entries[i].operation.op.id
  {
    if entries == [] then []
    else [if entries[0].operation.Run? then entries[0].operation.op.id else 0] + WorkIds(entries[1..])
  }

  /** Appending one id after `a + b` is appending it to `b`. */
  lemma AppendOneAssociates(a: seq<OpId>, b: seq<OpId>, id: OpId)
    ensures a + b + [id] == a + (b + [id])
  {
  }

  /** Extending a prefix by one entry extends its ids by that entry's id. */
  lemma WorkIdsStep(s: Schedule, i: nat)
    requires i < |s|
    ensures WorkIds(s[..i + 1]) == WorkIds(s[..i]) + WorkIds([s[i]])
  {
    assert s[..i + 1] == s[..i] + [s[i]];
    WorkIdsAppend(s[..i], [s[i]]);
  }

  lemma {:induction false} WorkIdsAppend(a: Schedule, b: Schedule)
    ensures WorkIds(a + b) == WorkIds(a) + WorkIds(b)
    decreases |a|
  {
    if a != [] {
      assert (a + b)[0] == a[0] && (a + b)[1..] == a[1..] + b;
      WorkIdsAppend(a[1..], b);
      assert WorkIds(a + b) == WorkIds([a[0]]) + WorkIds((a + b)[1..]);
    } else {
      assert a + b == b;
    }
  }

  lemma PrefixStep<T>(a: seq<T>, b: seq<T>, c: seq<T>)
    requires a != [] && a <= b && b[1..] <= c
    ensures a[1..] <= c
  {
    assert a[1..] == b[1..][..|a| - 1];
  }

  // ---- Invariant preservation ----

  lemma InsertKeepsQueueInvariant(s: Schedule, e: Entry<Work>, nextId: nat)
    requires QueueInvariant(s, nextId) && e.id == nextId && e.operation.Run?
    requires e.due.At? ==> !ScheduledWithTag(s, e.tag)
    ensures QueueInvariant(Insert(s, e), nextId + 1)
  {
    InsertKeepsSorted(s, e);
    InsertKeepsTiesInOrder(s, e);
    InsertKeepsDistinctIds(s, e, nextId);
    InsertIndices(s, e);
    var k := Position(s, e.due);
    var r := Insert(s, e);
    InsertMembers(s, e);
    forall i, j | 0 <= i < j < |r| && r[i].due.At? && r[j].due.At?
      ensures r[i].tag != r[j].tag
    {
      if i == k {
        assert r[j] == s[j - 1] && s[j - 1] in s;
      } else if j == k {
        assert r[i] == s[i] && s[i] in s;
      } else if j < k {
        assert r[i] == s[i] && r[j] == s[j];
      } else if i > k {
        assert r[i] == s[i - 1] && r[j] == s[j - 1];
      } else {
        assert r[i] == s[i] && r[j] == s[j - 1];
      }
    }
  }

  lemma RemoveKeepsQueueInvariant(s: Schedule, k: nat, nextId: nat)
    requires QueueInvariant(s, nextId) && k < |s|
    ensures QueueInvariant(RemoveAt(s, k), nextId)
  {
    RemoveKeepsOrder(s, k);
    var r := RemoveAt(s, k);
    assert forall i :: 0 <= i < |r| ==> r[i] == s[if i < k then i else i + 1];
    assert forall x :: x in r ==> x in multiset(s);
  }

  lemma CancelKeepsQueueInvariant(s: Schedule, id: nat, nextId: nat)
    requires QueueInvariant(s, nextId)
    ensures QueueInvariant(WithoutId(s, id), nextId)
  {
    var k := IndexOfId(s, id);
    if k < |s| {
      RemoveKeepsQueueInvariant(s, k, nextId);
    }
  }

  /** Cancelling a delayed entry leaves the immediate entries in front as they were. */
  lemma CancelDelayedKeepsWaiting(s: Schedule, id: nat)
    requires Sorted(s)
    requires forall x :: x in s && x.id == id ==> x.due.At?
    ensures Waiting(WithoutId(s, id)) == Waiting(s)
  {
    var k := IndexOfId(s, id);
    if k < |s| {
      var p := Position(s, Immediate);
      assert s[k] in s;
      assert p <= k;
      var r := RemoveAt(s, k);
      if p < |r| {
        if p < k {
          assert r[p] == s[p];
        } else {
          assert r[p] == s[k + 1];
          assert NoLater(s[k].due, s[k + 1].due);
        }
      }
      PositionUnique(r, Immediate, p);
      assert r[..p] == s[..p];
    }
  }

  /** Popping an immediate front entry shortens the waiting entries by that one. */
  lemma PopFrontWaiting(s: Schedule)
    requires s != [] && s[0].due.Immediate?
    ensures Waiting(s[1..]) == Waiting(s)[1..]
  {
    var p := Position(s, Immediate);
    PositionUnique(s[1..], Immediate, p - 1);
  }

  // ---- Delayed weight: what makes draining terminate ----

  /** A delayed entry weighs one plus the calls its operation will make. */
  function EntryWeight(e: Entry<Work>): (w: nat)
    ensures e.due.Immediate? ==> w == 0
  {
    if e.due.At? && e.operation.Run? then 1 + |e.operation.op.calls| else 0
  }

  function DelayedWeight(s: Schedule): (w: nat)
    ensures s == [] ==> w == 0
  {
    if s == [] then 0 else EntryWeight(s[0]) + DelayedWeight(s[1..])
  }

  lemma {:induction false} WeightOfConcat(a: Schedule, b: Schedule)
    ensures DelayedWeight(a + b) == DelayedWeight(a) + DelayedWeight(b)
    decreases |a|
  {
    if a != [] {
      assert (a + b)[0] == a[0] && (a + b)[1..] == a[1..] + b;
      WeightOfConcat(a[1..], b);
      assert DelayedWeight(a + b) == EntryWeight(a[0]) + DelayedWeight((a + b)[1..]);
    } else {
      assert a + b == b;
    }
  }

  lemma {:induction false} WeightOfInsert(s: Schedule, e: Entry<Work>)
    ensures DelayedWeight(Insert(s, e)) == DelayedWeight(s) + EntryWeight(e)
    decreases |s|
  {
    if s == [] || !NoLater(s[0].due, e.due) {
      var r := [e] + s;
      assert r[0] == e && r[1..] == s;
    } else {
      WeightOfInsert(s[1..], e);
      var r := [s[0]] + Insert(s[1..], e);
      assert r[0] == s[0] && r[1..] == Insert(s[1..], e);
    }
  }

  lemma WeightOfRemove(s: Schedule, k: nat)
    requires k < |s|
    ensures DelayedWeight(RemoveAt(s, k)) + EntryWeight(s[k]) == DelayedWeight(s)
  {
    var front, tail, back := s[..k], s[k..], s[k + 1..];
    assert s == front + tail;
    assert RemoveAt(s, k) == front + back;
    assert tail[0] == s[k] && tail[1..] == back;
    assert DelayedWeight(tail) == EntryWeight(s[k]) + DelayedWeight(back);
    WeightOfConcat(front, tail);
    WeightOfConcat(front, back);
  }

  lemma WeightOfCancel(s: Schedule, id: nat)
    ensures DelayedWeight(WithoutId(s, id)) <= DelayedWeight(s)
  {
    var k := IndexOfId(s, id);
    if k < |s| {
      WeightOfRemove(s, k);
    }
  }

  /**
   * The handles a running operation holds were issued while it ran (ids from
   * `firstId` on) and cancel only delayed entries: an entry still pending
   * under such an id is delayed.
   */
  ghost predicate HandlesDelayed(handles: seq<DelayedOperation>, s: Schedule, firstId: nat, nextId: nat)
  {
    forall h :: h in handles && h.CancelById? ==>
      firstId <= h.id < nextId && forall x :: x in s && x.id == h.id ==> x.due.At?
  }

  lemma HandlesAfterInsert(handles: seq<DelayedOperation>, s: Schedule, e: Entry<Work>, firstId: nat, nextId: nat)
    requires HandlesDelayed(handles, s, firstId, nextId) && e.id == nextId
    ensures HandlesDelayed(handles, Insert(s, e), firstId, nextId + 1)
  {
    InsertMembers(s, e);
  }

  /** A handle returned for a new delayed entry joins the others. */
  lemma HandlesAfterDelayed(handles: seq<DelayedOperation>, s: Schedule, e: Entry<Work>, firstId: nat, nextId: nat)
    requires HandlesDelayed(handles, s, firstId, nextId) && IdsBelow(s, nextId) && firstId <= nextId
    requires e.id == nextId && e.due.At?
    ensures HandlesDelayed(handles + [CancelById(nextId)], Insert(s, e), firstId, nextId + 1)
  {
    InsertMembers(s, e);
  }

  lemma HandlesAfterCancel(handles: seq<DelayedOperation>, s: Schedule, id: nat, firstId: nat, nextId: nat)
    requires HandlesDelayed(handles, s, firstId, nextId)
    ensures HandlesDelayed(handles, WithoutId(s, id), firstId, nextId)
  {
    assert forall x :: x in WithoutId(s, id) ==> x in multiset(WithoutId(s, id));
  }

  /**
   * Cancelling through a handle an operation issued keeps the waiting work,
   * every entry older than the operation's first call and the other handles.
   */
  lemma CancelByHandle(handles: seq<DelayedOperation>, nth: nat, s: Schedule, firstId: nat, nextId: nat)
    requires QueueInvariant(s, nextId) && HandlesDelayed(handles, s, firstId, nextId)
    requires nth < |handles| && handles[nth].CancelById?
    ensures Waiting(WithoutId(s, handles[nth].id)) == Waiting(s)
    ensures DelayedWeight(WithoutId(s, handles[nth].id)) <= DelayedWeight(s)
    ensures HandlesDelayed(handles, WithoutId(s, handles[nth].id), firstId, nextId)
    ensures forall x :: x in s && x.id < firstId ==> x in WithoutId(s, handles[nth].id)
  {
    var id := handles[nth].id;
    assert handles[nth] in handles;
    CancelDelayedKeepsWaiting(s, id);
    WeightOfCancel(s, id);
    HandlesAfterCancel(handles, s, id, firstId, nextId);
    CancelRemovesOnlyThatEntry(s, id);
  }

  /** A refused delayed call hands out an empty handle, which cancels nothing. */
  lemma HandlesAfterRefusal(handles: seq<DelayedOperation>, s: Schedule, firstId: nat, nextId: nat)
    requires HandlesDelayed(handles, s, firstId, nextId)
    ensures HandlesDelayed(handles + [EmptyHandle], s, firstId, nextId)
  {
    forall h | h in handles + [EmptyHandle] && h.CancelById?
      ensures h in handles
    {
    }
  }

  // ---- What a running operation does ----

  /** The schedule, the id counter and the handles after some calls, and how the last one ended. */
  datatype Effect = Effect(outcome: Outcome, schedule: Schedule, nextId: nat, handles: seq<DelayedOperation>)

  /**
   * One call made from inside a running operation. The flag is raised and
   * the caller is on the queue, so `Enqueue`, `EnqueueBlocking` and
   * `StartExecution` fail their assertions; a failed call changes nothing.
   */
  function CallEffect(c: Call, s: Schedule, nextId: nat, handles: seq<DelayedOperation>, now: nat): (e: Effect)
    ensures e.outcome.Failed? ==> e.schedule == s && e.nextId == nextId
    ensures e.nextId == nextId || (e.outcome.Ok? && e.nextId == nextId + 1 && |e.schedule| == |s| + 1)
  {
    match c
    case Enqueue(_) => Effect(Failed(NestedEnqueue), s, nextId, handles)
    case EnqueueAllowingNesting(op) =>
      Effect(Ok, Insert(s, Entry(Run(Leaf(op)), nextId, ImmediateTag, Immediate)), nextId + 1, handles)
    case EnqueueBlocking(_) => Effect(Failed(NestedEnqueue), s, nextId, handles)
    case StartExecution(_) => Effect(Failed(OperationInProgress), s, nextId, handles)
    case EnqueueAfterDelay(delay, timer, op) =>
      if ScheduledWithTag(s, TimerTag(timer)) then
        Effect(Failed(DuplicateTimer), s, nextId, handles + [EmptyHandle])
      else if delay < 0 then
        Effect(Failed(NegativeDelay), s, nextId, handles + [EmptyHandle])
      else
        Effect(Ok, Insert(s, Entry(Run(Leaf(op)), nextId, TimerTag(timer), At(now + delay))),
               nextId + 1, handles + [CancelById(nextId)])
    case CancelDelayed(nth) =>
      if nth < |handles| && handles[nth].CancelById? then
        Effect(Ok, WithoutId(s, handles[nth].id), nextId, handles)
      else
        Effect(Failed(CancelWithoutFunction), s, nextId, handles)
    case VerifyCalledFromOperation => Effect(Ok, s, nextId, handles)
  }

  /** A delayed call under a free timer with a non-negative delay schedules a leaf at `now + delay`. */
  lemma DelayedCallEffect(delay: int, timer: TimerId, op: OpId, s: Schedule, nextId: nat,
                          handles: seq<DelayedOperation>, now: nat)
    requires !ScheduledWithTag(s, TimerTag(timer)) && delay >= 0
    ensures CallEffect(Call.EnqueueAfterDelay(delay, timer, op), s, nextId, handles, now) ==
            Effect(Ok, Insert(s, Entry(Run(Leaf(op)), nextId, TimerTag(timer), At(now + delay))),
                   nextId + 1, handles + [CancelById(nextId)])
  {
  }

  /** The calls of a running operation in order, up to the first one that fails. */
  function WorkEffect(calls: seq<Call>, s: Schedule, nextId: nat, handles: seq<DelayedOperation>, now: nat): (e: Effect)
    ensures nextId <= e.nextId <= nextId + |calls|
    ensures e.outcome.Ok? ==> |handles| <= |e.handles|
    decreases |calls|
  {
    if calls == [] then Effect(Ok, s, nextId, handles)
    else
      var first := CallEffect(calls[0], s, nextId, handles, now);
      if first.outcome.Failed? then first
      else WorkEffect(calls[1..], first.schedule, first.nextId, first.handles, now)
  }

  /** The two failures only a drain reports: its timer is not pending, or nothing delayed is. */
  predicate DrainFailure(r: Outcome)
  {
    r == Failed(TimerNotScheduled) || r == Failed(NothingScheduled)
  }

  /** No call an operation makes fails the way a drain does. */
  lemma {:induction false} WorkEffectIsNoDrainFailure(calls: seq<Call>, s: Schedule, nextId: nat,
                                                     handles: seq<DelayedOperation>, now: nat)
    ensures !DrainFailure(WorkEffect(calls, s, nextId, handles, now).outcome)
    decreases |calls|
  {
    if calls != [] {
      var first := CallEffect(calls[0], s, nextId, handles, now);
      if first.outcome.Ok? {
        WorkEffectIsNoDrainFailure(calls[1..], first.schedule, first.nextId, first.handles, now);
      }
    }
  }

  /** `tag` and `id` are those of the nearest-due delayed entry of `s`, the one a pop takes. */
  ghost predicate PoppedNearest(s: Schedule, tag: int, id: OpId) {
    var k := IndexOfDelayed(s);
    k < |s| && s[k].operation.Run? && tag == s[k].tag && id == s[k].operation.op.id
  }

  /** One more turn extends the report of the drain loop by that turn's pop. */
  lemma PopReportGrows(seen: seq<Schedule>, earlier: seq<int>, ran: seq<OpId>, tag: int, s: Schedule, id: OpId)
    requires |seen| == |ran| == |earlier| + 1
    requires forall i :: 0 <= i < |earlier| ==> PoppedNearest(seen[i], earlier[i], ran[i])
    requires PoppedNearest(seen[|earlier|], tag, ran[|earlier|])
    ensures forall i :: 0 <= i < |earlier| + 1 ==> PoppedNearest((seen + [s])[i], (earlier + [tag])[i], (ran + [id])[i])
  {
  }

  /** The last turn's pop completes the report of the drain loop. */
  lemma PopReportCloses(seen: seq<Schedule>, earlier: seq<int>, ran: seq<OpId>, tag: int)
    requires |seen| == |ran| == |earlier| + 1
    requires forall i :: 0 <= i < |earlier| ==> PoppedNearest(seen[i], earlier[i], ran[i])
    requires PoppedNearest(seen[|earlier|], tag, ran[|earlier|])
    ensures forall i :: 0 <= i < |earlier| + 1 ==> PoppedNearest(seen[i], (earlier + [tag])[i], ran[i])
  {
  }

  /**
   * What a drain of the delayed work of `s` up to `last` reports: it fails
   * when `last` is a timer with no pending entry, then when nothing delayed
   * is pending, and changes nothing then; otherwise it pops at least one
   * entry, the nearest due first, and reports each popped tag and id.
   */
  ghost predicate DrainReport(last: TimerId, s: Schedule, logBefore: seq<OpId>,
                              r: Outcome, tags: seq<int>, ran: seq<OpId>, logAfter: seq<OpId>, after: Schedule)
    requires AllRun(s)
  {
    (r == Failed(TimerNotScheduled) <==> last != All && !ScheduledWithTag(s, TimerTag(last))) &&
    (DrainFailure(r) ==> tags == [] && logAfter == logBefore && after == s) &&
    ((last == All || ScheduledWithTag(s, TimerTag(last))) && !HasDelayed(s) ==>
      r == Failed(NothingScheduled)) &&
    ((last == All || ScheduledWithTag(s, TimerTag(last))) && HasDelayed(s) ==>
      !DrainFailure(r) && |tags| >= 1 && |ran| == |tags| &&
      tags[0] == s[IndexOfDelayed(s)].tag && ran[0] == s[IndexOfDelayed(s)].operation.op.id)
  }

  class AsyncQueue {
    const executor: ExecutorStd<Work>
    var operationInProgress: bool
    /** The ids of the operations started so far, in order. */
    var log: seq<OpId>

    ghost predicate Valid()
      reads this, executor
    {
      executor.Valid() && !executor.shuttingDown &&
      QueueInvariant(executor.schedule, executor.currentId)
    }

    constructor ()
      ensures Valid()
      ensures fresh(executor)
      ensures !operationInProgress && log == [] && executor.schedule == [] && executor.currentId == 0
    {
      executor := new ExecutorStd();
      operationInProgress := false;
      log := [];
    }

    /** The assertion that the caller runs on the queue. */
    function VerifyIsAsyncCall(onExecutor: bool): (r: Outcome)
      ensures r.Ok? <==> onExecutor
      ensures r.Failed? ==> r.failure == NotOnQueue
    {
      if onExecutor then Ok else Failed(NotOnQueue)
    }

    /** The inverse of `VerifyCalledFromOperation`: no operation may enqueue from inside another. */
    function VerifySequentialOrder(onExecutor: bool): (r: Outcome)
      reads this
      ensures r.Ok? <==> !operationInProgress || !onExecutor
      ensures r.Failed? ==> r.failure == NestedEnqueue
    {
      if operationInProgress && onExecutor then Failed(NestedEnqueue) else Ok
    }

    /** Succeeds exactly when called from inside a running operation. */
    function VerifyCalledFromOperation(onExecutor: bool): (r: Outcome)
      reads this
      ensures r.Ok? <==> onExecutor && operationInProgress
      ensures !onExecutor ==> r == Failed(NotOnQueue)
      ensures onExecutor && !operationInProgress ==> r == Failed(NoOperationInProgress)
      ensures r.Ok? <==> VerifySequentialOrder(onExecutor).Failed?
    {
      if !onExecutor then Failed(NotOnQueue)
      else if !operationInProgress then Failed(NoOperationInProgress)
      else Ok
    }

    /** The assertions `StartExecution` makes before running anything. */
    function StartCheck(onExecutor: bool): (r: Outcome)
      reads this
      ensures r.Ok? <==> onExecutor && !operationInProgress
      ensures r.Failed? && !onExecutor ==> r.failure == NotOnQueue
      ensures r.Failed? && onExecutor ==> r.failure == OperationInProgress
    {
      if !onExecutor then Failed(NotOnQueue)
      else if operationInProgress then Failed(OperationInProgress)
      else Ok
    }

    /**
     * Runs `w` with the in-progress flag raised. Nothing else runs meanwhile:
     * the only operation started is `w` itself. A failed assertion inside the
     * operation leaves the flag raised, as the exception skips its reset.
     */
    method StartExecution(w: Work, onExecutor: bool, now: nat) returns (r: Outcome)
      requires Valid()
      modifies this, executor
      ensures Valid()
      ensures old(StartCheck(onExecutor)).Failed? ==>
        r == old(StartCheck(onExecutor)) && unchanged(this, executor)
      ensures old(StartCheck(onExecutor)).Ok? ==>
        var e := WorkEffect(w.calls, old(executor.schedule), old(executor.currentId), [], now);
        r == e.outcome && executor.schedule == e.schedule && executor.currentId == e.nextId &&
        log == old(log) + [w.id] && operationInProgress == r.Failed?
      ensures !DrainFailure(r)
      ensures forall x :: x in old(executor.schedule) ==> x in executor.schedule
      ensures Waiting(old(executor.schedule)) <= Waiting(executor.schedule)
      ensures DelayedWeight(executor.schedule) <= DelayedWeight(old(executor.schedule)) + |w.calls|
      ensures old(executor.currentId) <= executor.currentId
    {
      r := StartCheck(onExecutor);
      if r.Failed? {
        return;
      }
      operationInProgress := true;
      log := log + [w.id];
      WorkEffectIsNoDrainFailure(w.calls, executor.schedule, executor.currentId, [], now);
      r := RunWork(w, now);
      if r.Ok? {
        operationInProgress := false;
      }
    }

    /** The body of a running operation: its calls in order, up to the first failed assertion. */
    method RunWork(w: Work, now: nat) returns (r: Outcome)
      requires Valid() && operationInProgress
      modifies this, executor
      ensures Valid() && operationInProgress && log == old(log)
      ensures var e := WorkEffect(w.calls, old(executor.schedule), old(executor.currentId), [], now);
        r == e.outcome && executor.schedule == e.schedule && executor.currentId == e.nextId
      ensures forall x :: x in old(executor.schedule) ==> x in executor.schedule
      ensures Waiting(old(executor.schedule)) <= Waiting(executor.schedule)
      ensures DelayedWeight(executor.schedule) <= DelayedWeight(old(executor.schedule)) + |w.calls|
      ensures old(executor.currentId) <= executor.currentId
    {
      ghost var firstId := executor.currentId;
      var handles: seq<DelayedOperation> := [];
      var i := 0;
      r := Ok;
      while i < |w.calls|
        invariant 0 <= i <= |w.calls|
        invariant Valid() && operationInProgress && log == old(log)
        invariant WorkEffect(w.calls, old(executor.schedule), firstId, [], now) ==
                  WorkEffect(w.calls[i..], executor.schedule, executor.currentId, handles, now)
        invariant forall x :: x in old(executor.schedule) ==> x in executor.schedule
        invariant Waiting(old(executor.schedule)) <= Waiting(executor.schedule)
        invariant DelayedWeight(executor.schedule) <= DelayedWeight(old(executor.schedule)) + i
        invariant r.Ok? && firstId <= executor.currentId
        invariant forall x :: x in old(executor.schedule) ==> x.id < firstId
        invariant HandlesDelayed(handles, executor.schedule, firstId, executor.currentId)
      {
        assert w.calls[i..][0] == w.calls[i] && w.calls[i..][1..] == w.calls[i + 1..];
        r, handles := DoCall(w.calls[i], handles, firstId, now);
        if r.Failed? {
          return;
        }
        i := i + 1;
      }
    }

    /** One queue call made by a running operation. */
    method DoCall(c: Call, handles: seq<DelayedOperation>, ghost firstId: nat, now: nat)
      returns (r: Outcome, handles': seq<DelayedOperation>)
      requires Valid() && operationInProgress && firstId <= executor.currentId
      requires HandlesDelayed(handles, executor.schedule, firstId, executor.currentId)
      modifies this, executor
      ensures Valid() && operationInProgress && log == old(log)
      ensures var e := CallEffect(c, old(executor.schedule), old(executor.currentId), handles, now);
        r == e.outcome && executor.schedule == e.schedule && executor.currentId == e.nextId && handles' == e.handles
      ensures forall x :: x in old(executor.schedule) && x.id < firstId ==> x in executor.schedule
      ensures Waiting(old(executor.schedule)) <= Waiting(executor.schedule)
      ensures DelayedWeight(executor.schedule) <= DelayedWeight(old(executor.schedule)) + 1
      ensures old(executor.currentId) <= executor.currentId
      ensures HandlesDelayed(handles', executor.schedule, firstId, executor.currentId)
    {
      handles' := handles;
      match c
      case Enqueue(op) =>
        r := Enqueue(Leaf(op), true);
      case EnqueueAllowingNesting(op) =>
        r, handles' := CallAllowingNesting(op, handles, firstId, now);
      case EnqueueBlocking(op) =>
        // the assertion fails before the executor is reached
        r := VerifySequentialOrder(true);
      case StartExecution(op) =>
        // the assertion fails before anything runs
        r := StartCheck(true);
      case EnqueueAfterDelay(delay, timer, op) =>
        r, handles' := CallAfterDelay(delay, timer, op, handles, firstId, now);
      case CancelDelayed(nth) =>
        r, handles' := CallCancel(nth, handles, firstId, now);
      case VerifyCalledFromOperation =>
        r := VerifyCalledFromOperation(true);
    }

    method CallAllowingNesting(op: OpId, handles: seq<DelayedOperation>, ghost firstId: nat, now: nat)
      returns (r: Outcome, handles': seq<DelayedOperation>)
      requires Valid() && operationInProgress && firstId <= executor.currentId
      requires HandlesDelayed(handles, executor.schedule, firstId, executor.currentId)
      modifies this, executor
      ensures Valid() && operationInProgress && log == old(log)
      ensures var e := CallEffect(Call.EnqueueAllowingNesting(op), old(executor.schedule), old(executor.currentId), handles, now);
        r == e.outcome && executor.schedule == e.schedule && executor.currentId == e.nextId && handles' == e.handles
      ensures forall x :: x in old(executor.schedule) && x.id < firstId ==> x in executor.schedule
      ensures Waiting(old(executor.schedule)) <= Waiting(executor.schedule)
      ensures DelayedWeight(executor.schedule) <= DelayedWeight(old(executor.schedule)) + 1
      ensures old(executor.currentId) <= executor.currentId
      ensures HandlesDelayed(handles', executor.schedule, firstId, executor.currentId)
    {
      ghost var before := executor.schedule;
      ghost var nextId := executor.currentId;
      var e := Entry(Run(Leaf(op)), nextId, ImmediateTag, Immediate);
      WeightOfInsert(before, e);
      HandlesAfterInsert(handles, before, e, firstId, nextId);
      InsertMembers(before, e);
      EnqueueAllowingNesting(Leaf(op));
      r := Ok;
      handles' := handles;
    }

    method CallAfterDelay(delay: int, timer: TimerId, op: OpId, handles: seq<DelayedOperation>, ghost firstId: nat, now: nat)
      returns (r: Outcome, handles': seq<DelayedOperation>)
      requires Valid() && operationInProgress && firstId <= executor.currentId
      requires HandlesDelayed(handles, executor.schedule, firstId, executor.currentId)
      modifies this, executor
      ensures Valid() && operationInProgress && log == old(log)
      ensures var e := CallEffect(Call.EnqueueAfterDelay(delay, timer, op), old(executor.schedule), old(executor.currentId), handles, now);
        r == e.outcome && executor.schedule == e.schedule && executor.currentId == e.nextId && handles' == e.handles
      ensures forall x :: x in old(executor.schedule) && x.id < firstId ==> x in executor.schedule
      ensures Waiting(old(executor.schedule)) <= Waiting(executor.schedule)
      ensures DelayedWeight(executor.schedule) <= DelayedWeight(old(executor.schedule)) + 1
      ensures old(executor.currentId) <= executor.currentId
      ensures HandlesDelayed(handles', executor.schedule, firstId, executor.currentId)
    {
      ghost var before := executor.schedule;
      ghost var nextId := executor.currentId;
      var handle;
      if !ScheduledWithTag(executor.schedule, TimerTag(timer)) && delay >= 0 {
        DelayedCallEffect(delay, timer, op, before, nextId, handles, now);
        r, handle := ScheduleIssued(delay, timer, op, handles, firstId, now);
      } else {
        HandlesAfterRefusal(handles, before, firstId, nextId);
        r, handle := ScheduleRefused(delay, timer, op, handles, now);
      }
      handles' := handles + [handle];
    }

    /** A nested `EnqueueAfterDelay` under a pending timer or with a negative delay; serves `CallAfterDelay`. */
    method ScheduleRefused(delay: int, timer: TimerId, op: OpId, handles: seq<DelayedOperation>, now: nat)
      returns (r: Outcome, handle: DelayedOperation)
      requires Valid()
      requires ScheduledWithTag(executor.schedule, TimerTag(timer)) || delay < 0
      modifies executor
      ensures Valid() && r.Failed? && handle == EmptyHandle && unchanged(executor)
      ensures CallEffect(Call.EnqueueAfterDelay(delay, timer, op), executor.schedule, executor.currentId, handles, now) ==
              Effect(r, executor.schedule, executor.currentId, handles + [EmptyHandle])
    {
      r, handle := EnqueueAfterDelay(delay, timer, Leaf(op), true, now);
    }

    /** A nested `EnqueueAfterDelay` under a free timer with a non-negative delay; serves `CallAfterDelay`. */
    method ScheduleIssued(delay: int, timer: TimerId, op: OpId, handles: seq<DelayedOperation>, ghost firstId: nat, now: nat)
      returns (r: Outcome, handle: DelayedOperation)
      requires Valid() && firstId <= executor.currentId
      requires HandlesDelayed(handles, executor.schedule, firstId, executor.currentId)
      requires !ScheduledWithTag(executor.schedule, TimerTag(timer)) && delay >= 0
      modifies executor
      ensures Valid() && r == Ok && handle == CancelById(old(executor.currentId))
      ensures executor.currentId == old(executor.currentId) + 1
      ensures executor.schedule ==
        Insert(old(executor.schedule), Entry(Run(Leaf(op)), old(executor.currentId), TimerTag(timer), At(now + delay)))
      ensures forall x :: x in old(executor.schedule) ==> x in executor.schedule
      ensures Waiting(old(executor.schedule)) == Waiting(executor.schedule)
      ensures DelayedWeight(executor.schedule) == DelayedWeight(old(executor.schedule)) + 1
      ensures HandlesDelayed(handles + [handle], executor.schedule, firstId, executor.currentId)
    {
      ghost var before := executor.schedule;
      ghost var nextId := executor.currentId;
      var e := Entry(Run(Leaf(op)), nextId, TimerTag(timer), At(now + delay));
      WeightOfInsert(before, e);
      DelayedKeepsImmediatePrefix(before, e);
      HandlesAfterDelayed(handles, before, e, firstId, nextId);
      InsertMembers(before, e);
      r, handle := EnqueueAfterDelay(delay, timer, Leaf(op), true, now);
    }

    method CallCancel(nth: nat, handles: seq<DelayedOperation>, ghost firstId: nat, now: nat)
      returns (r: Outcome, handles': seq<DelayedOperation>)
      requires Valid() && operationInProgress && firstId <= executor.currentId
      requires HandlesDelayed(handles, executor.schedule, firstId, executor.currentId)
      modifies this, executor
      ensures Valid() && operationInProgress && log == old(log)
      ensures var e := CallEffect(Call.CancelDelayed(nth), old(executor.schedule), old(executor.currentId), handles, now);
        r == e.outcome && executor.schedule == e.schedule && executor.currentId == e.nextId && handles' == e.handles
      ensures forall x :: x in old(executor.schedule) && x.id < firstId ==> x in executor.schedule
      ensures Waiting(old(executor.schedule)) <= Waiting(executor.schedule)
      ensures DelayedWeight(executor.schedule) <= DelayedWeight(old(executor.schedule)) + 1
      ensures old(executor.currentId) <= executor.currentId
      ensures HandlesDelayed(handles', executor.schedule, firstId, executor.currentId)
    {
      var handle := if nth < |handles| then handles[nth] else EmptyHandle;
      if handle.CancelById? {
        r := CancelIssued(nth, handles, firstId);
      } else {
        r := Cancel(handle);
      }
      handles' := handles;
    }

    /** A nested cancel through a handle that an earlier call of the same operation issued; serves `CallCancel`. */
    method CancelIssued(nth: nat, handles: seq<DelayedOperation>, ghost firstId: nat) returns (r: Outcome)
      requires Valid() && nth < |handles| && handles[nth].CancelById?
      requires HandlesDelayed(handles, executor.schedule, firstId, executor.currentId)
      modifies executor
      ensures Valid() && r == Ok
      ensures executor.schedule == WithoutId(old(executor.schedule), handles[nth].id)
      ensures executor.currentId == old(executor.currentId)
      ensures forall x :: x in old(executor.schedule) && x.id < firstId ==> x in executor.schedule
      ensures Waiting(old(executor.schedule)) == Waiting(executor.schedule)
      ensures DelayedWeight(executor.schedule) <= DelayedWeight(old(executor.schedule))
      ensures HandlesDelayed(handles, executor.schedule, firstId, executor.currentId)
    {
      CancelByHandle(handles, nth, executor.schedule, firstId, executor.currentId);
      r := Cancel(handles[nth]);
    }

    /** Queues `w` behind the immediate work already queued; refused from inside an operation. */
    method Enqueue(w: Work, onExecutor: bool) returns (r: Outcome)
      requires Valid()
      modifies executor
      ensures Valid()
      ensures r == VerifySequentialOrder(onExecutor)
      ensures r.Failed? ==> unchanged(executor)
      ensures r.Ok? ==>
        executor.currentId == old(executor.currentId) + 1 &&
        executor.schedule == Insert(old(executor.schedule), Entry(Run(w), old(executor.currentId), ImmediateTag, Immediate)) &&
        Waiting(executor.schedule) == Waiting(old(executor.schedule)) + [Entry(Run(w), old(executor.currentId), ImmediateTag, Immediate)]
    {
      r := VerifySequentialOrder(onExecutor);
      if r.Failed? {
        return;
      }
      EnqueueAllowingNesting(w);
    }

    /** Queues `w` behind the immediate work already queued, even from inside an operation. */
    method EnqueueAllowingNesting(w: Work)
      requires Valid()
      modifies executor
      ensures Valid()
      ensures executor.currentId == old(executor.currentId) + 1
      ensures executor.schedule == Insert(old(executor.schedule), Entry(Run(w), old(executor.currentId), ImmediateTag, Immediate))
      ensures Waiting(executor.schedule) ==
              Waiting(old(executor.schedule)) + [Entry(Run(w), old(executor.currentId), ImmediateTag, Immediate)]
    {
      InsertKeepsQueueInvariant(executor.schedule, Entry(Run(w), executor.currentId, ImmediateTag, Immediate), executor.currentId);
      executor.Execute(w);
    }

    /**
     * Schedules `w` under `timer` at `now + delay`: refused off the queue,
     * under a timer already pending, and with a negative delay.
     */
    method EnqueueAfterDelay(delay: int, timer: TimerId, w: Work, onExecutor: bool, now: nat)
      returns (r: Outcome, handle: DelayedOperation)
      requires Valid()
      modifies executor
      ensures Valid()
      ensures !onExecutor ==> r == Failed(NotOnQueue)
      ensures onExecutor && ScheduledWithTag(old(executor.schedule), TimerTag(timer)) ==> r == Failed(DuplicateTimer)
      ensures onExecutor && !ScheduledWithTag(old(executor.schedule), TimerTag(timer)) && delay < 0 ==>
        r == Failed(NegativeDelay)
      ensures onExecutor && !ScheduledWithTag(old(executor.schedule), TimerTag(timer)) && delay >= 0 ==> r == Ok
      ensures r.Failed? ==> handle == EmptyHandle && unchanged(executor)
      ensures r.Ok? ==>
        handle == CancelById(old(executor.currentId)) &&
        executor.currentId == old(executor.currentId) + 1 &&
        executor.schedule == Insert(old(executor.schedule), Entry(Run(w), old(executor.currentId), TimerTag(timer), At(now + delay))) &&
        executor.IsScheduled(TimerTag(timer))
    {
      handle := EmptyHandle;
      r := VerifyIsAsyncCall(onExecutor);
      if r.Failed? {
        return;
      }
      if executor.IsScheduled(TimerTag(timer)) {
        return Failed(DuplicateTimer), EmptyHandle;
      }
      if delay < 0 {
        return Failed(NegativeDelay), EmptyHandle;
      }
      var e := Entry(Run(w), executor.currentId, TimerTag(timer), At(now + delay));
      InsertKeepsQueueInvariant(executor.schedule, e, executor.currentId);
      DelayedIsScheduled(executor.schedule, e);
      var scheduled := executor.ScheduleExecution(delay, TaggedOperation(TimerTag(timer), Run(w)), now);
      handle := scheduled.value;
    }

    /** Cancels through a handle; an entry no longer pending makes it a no-op. */
    method Cancel(handle: DelayedOperation) returns (r: Outcome)
      requires Valid()
      modifies executor
      ensures Valid()
      ensures handle.EmptyHandle? ==> r == Failed(CancelWithoutFunction) && unchanged(executor)
      ensures handle.CancelById? ==>
        r == Ok && executor.schedule == WithoutId(old(executor.schedule), handle.id) &&
        executor.currentId == old(executor.currentId)
      ensures handle.CancelById? ==> forall x :: x in executor.schedule ==> x.id != handle.id
    {
      if handle.EmptyHandle? {
        // calling the empty function throws before anything changes
        return Failed(CancelWithoutFunction);
      }
      CancelKeepsQueueInvariant(executor.schedule, handle.id, executor.currentId);
      CancelRemovesOnlyThatEntry(executor.schedule, handle.id);
      var ok := executor.Cancel(handle);
      r := Ok;
    }

    /** Whether an operation is pending under `timer`; only asked from the queue. */
    method IsScheduled(timer: TimerId, onExecutor: bool) returns (r: Outcome, scheduled: bool)
      requires Valid()
      ensures r == VerifyIsAsyncCall(onExecutor)
      ensures scheduled <==>
        r.Ok? && exists x :: x in executor.schedule && x.due.At? && x.tag == TimerTag(timer)
    {
      r := VerifyIsAsyncCall(onExecutor);
      scheduled := r.Ok? && executor.IsScheduled(TimerTag(timer));
    }

    /**
     * The executor's blocking execution of an already wrapped `w`: a serial
     * executor first runs the immediate operations queued ahead, in order,
     * then `w`. Stops at the first failed assertion.
     */
    method ExecuteBlocking(w: Work, now: nat) returns (r: Outcome)
      requires Valid()
      modifies this, executor
      ensures Valid()
      ensures old(log) <= log
      ensures r.Ok? ==> log == old(log) + WorkIds(Waiting(old(executor.schedule))) + [w.id]
      ensures Waiting(old(executor.schedule)) == [] && !old(operationInProgress) ==>
        var e := WorkEffect(w.calls, old(executor.schedule), old(executor.currentId), [], now);
        r == e.outcome && executor.schedule == e.schedule && executor.currentId == e.nextId &&
        log == old(log) + [w.id] && operationInProgress == r.Failed?
    {
      r := DrainWaiting(now);
      if r.Failed? {
        return;
      }
      r := StartExecution(w, true, now);
    }

    /**
     * Runs the immediate operations waiting at call time, and only those,
     * through the worker; stops at the first failed assertion.
     */
    method DrainWaiting(now: nat) returns (r: Outcome)
      requires Valid()
      modifies this, executor
      ensures Valid()
      ensures old(log) <= log
      ensures r.Ok? ==>
        log == old(log) + WorkIds(Waiting(old(executor.schedule))) &&
        operationInProgress == old(operationInProgress)
      ensures r.Failed? && !old(operationInProgress) ==> |log| > |old(log)|
      ensures Waiting(old(executor.schedule)) == [] ==>
        r == Ok && log == old(log) && operationInProgress == old(operationInProgress) &&
        executor.schedule == old(executor.schedule) && executor.currentId == old(executor.currentId)
    {
      ghost var target := Waiting(executor.schedule);
      var n := Position(executor.schedule, Immediate);
      r := Ok;
      if n == 0 {
        return;
      }
      var i := 0;
      while i < n
        invariant 0 <= i <= n == |target|
        invariant Valid()
        invariant target[i..] <= Waiting(executor.schedule)
        invariant log == old(log) + WorkIds(target[..i])
        invariant i > 0 ==> !old(operationInProgress)
        invariant operationInProgress == old(operationInProgress)
        invariant r.Ok?
        decreases n - i
      {
        r := RunWaiting(target, i, now, old(log));
        if r.Failed? {
          return;
        }
        i := i + 1;
      }
      assert target[..i] == target;
    }

    /** One turn of `DrainWaiting`: runs `target[i]`, the front of the waiting work, through `RunNextDue`. */
    method RunWaiting(ghost target: Schedule, i: nat, now: nat, ghost start: seq<OpId>) returns (r: Outcome)
      requires Valid() && i < |target| && target[i..] <= Waiting(executor.schedule)
      requires log == start + WorkIds(target[..i])
      modifies this, executor
      ensures Valid() && old(log) <= log
      ensures r.Failed? && !old(operationInProgress) ==> |log| > |old(log)|
      ensures r.Ok? ==>
        !old(operationInProgress) && operationInProgress == old(operationInProgress) &&
        log == start + WorkIds(target[..i + 1]) && target[i + 1..] <= Waiting(executor.schedule)
    {
      WorkIdsStep(target, i);
      ghost var waiting := Waiting(executor.schedule);
      assert executor.schedule[0] == target[i];
      var ran;
      r, ran := RunNextDue(now);
      if r.Ok? {
        PrefixStep(target[i..], waiting, Waiting(executor.schedule));
        assert target[i..][1..] == target[i + 1..];
      }
    }

    /** Runs `w` to completion before returning; refused from inside an operation. */
    method EnqueueBlocking(w: Work, onExecutor: bool, now: nat) returns (r: Outcome)
      requires Valid()
      modifies this, executor
      ensures Valid()
      ensures old(VerifySequentialOrder(onExecutor)).Failed? ==>
        r == Failed(NestedEnqueue) && unchanged(this, executor)
      ensures old(log) <= log
      ensures r.Ok? ==> log == old(log) + WorkIds(Waiting(old(executor.schedule))) + [w.id]
      ensures Waiting(old(executor.schedule)) == [] && !old(operationInProgress) ==>
        var e := WorkEffect(w.calls, old(executor.schedule), old(executor.currentId), [], now);
        r == e.outcome && executor.schedule == e.schedule && executor.currentId == e.nextId &&
        log == old(log) + [w.id] && operationInProgress == r.Failed?
    {
      r := VerifySequentialOrder(onExecutor);
      if r.Failed? {
        return;
      }
      r := ExecuteBlocking(w, now);
    }

    /**
     * One turn of the worker at time `now`: pops the front entry if it is
     * due and runs it. `ran` says whether an entry was popped.
     */
    method RunNextDue(now: nat) returns (r: Outcome, ran: bool)
      requires Valid()
      modifies this, executor
      ensures Valid()
      ensures ran <==> old(executor.schedule) != [] && NoLater(old(executor.schedule)[0].due, At(now))
      ensures !ran ==> r == Ok && executor.schedule == old(executor.schedule) && log == old(log)
      ensures ran && !old(operationInProgress) ==>
        log == old(log) + [old(executor.schedule)[0].operation.op.id]
      ensures ran && !old(operationInProgress) ==>
        var e := WorkEffect(old(executor.schedule)[0].operation.op.calls, old(executor.schedule)[1..],
                            old(executor.currentId), [], now);
        r == e.outcome && executor.schedule == e.schedule && executor.currentId == e.nextId &&
        operationInProgress == r.Failed?
      ensures ran && old(operationInProgress) ==> r == Failed(OperationInProgress)
      ensures ran && r.Ok? ==> !operationInProgress
      ensures !ran ==> operationInProgress == old(operationInProgress)
      ensures old(log) <= log
      ensures ran && old(executor.schedule)[0].due.Immediate? ==>
        Waiting(old(executor.schedule))[1..] <= Waiting(executor.schedule)
    {
      r := Ok;
      assert executor.schedule != [] ==> executor.schedule[0] in executor.schedule;
      if executor.schedule != [] && executor.schedule[0].due.Immediate? {
        PopFrontWaiting(executor.schedule);
      }
      var popped := executor.PollOnce(now);
      ran := popped.Some?;
      if ran {
        r := StartExecution(popped.value.op, true, now);
      }
    }

    /**
     * Test support, from outside the queue: blocks on the queue, drains the
     * immediate operations ahead, then pops and runs delayed operations
     * nearest due first until an entry under `last` has run or no delayed
     * entry is left. `All` is a tag like any other: an entry scheduled under
     * it stops the drain too. `tags` are the tags
     * popped, in order, and `ran` the ids of the operations popped with them.
     */
    method RunScheduledOperationsUntil(last: TimerId, onExecutor: bool, now: nat)
      returns (r: Outcome, tags: seq<int>, ghost ran: seq<OpId>)
      requires Valid()
      modifies this, executor
      ensures Valid()
      ensures onExecutor ==> r == Failed(OnQueue) && tags == [] && unchanged(this, executor)
      ensures old(log) <= log
      ensures r.Ok? ==> |tags| >= 1
      ensures r.Ok? ==> forall i :: 0 <= i < |tags| - 1 ==> tags[i] != TimerTag(last)
      ensures r.Ok? ==> tags[|tags| - 1] == TimerTag(last) || !HasDelayed(executor.schedule)
      ensures r.Ok? && last != All ==> tags[|tags| - 1] == TimerTag(last)
      ensures r.Ok? ==> log == old(log) + WorkIds(Waiting(old(executor.schedule))) + ran
      ensures !onExecutor && Waiting(old(executor.schedule)) == [] ==>
        DrainReport(last, old(executor.schedule), old(log), r, tags, ran, log, executor.schedule)
    {
      tags, ran := [], [];
      if onExecutor {
        return Failed(OnQueue), [], [];
      }
      r := DrainWaiting(now);
      if r.Failed? {
        return;
      }
      ghost var drained, logDrained := executor.schedule, log;
      r, tags, ran := RunDelayedAfterDrain(last, now);
      if Waiting(old(executor.schedule)) == [] {
        assert drained == old(executor.schedule) && logDrained == old(log);
      }
    }

    /**
     * The part of `RunScheduledOperationsUntil` after the immediate work has
     * run. It runs on the queue, outside any wrapped operation. It fails when
     * `last` is a timer with no pending entry, then when nothing delayed is
     * pending; otherwise it pops at least one entry, the nearest due first.
     */
    method RunDelayedAfterDrain(last: TimerId, now: nat) returns (r: Outcome, tags: seq<int>, ghost ran: seq<OpId>)
      requires Valid()
      modifies this, executor
      ensures Valid()
      ensures old(log) <= log
      ensures r.Ok? ==> |tags| >= 1
      ensures r.Ok? ==> forall i :: 0 <= i < |tags| - 1 ==> tags[i] != TimerTag(last)
      ensures r.Ok? ==> tags[|tags| - 1] == TimerTag(last) || !HasDelayed(executor.schedule)
      ensures r.Ok? && last != All ==> tags[|tags| - 1] == TimerTag(last)
      ensures r.Ok? ==> log == old(log) + ran
      ensures DrainReport(last, old(executor.schedule), old(log), r, tags, ran, log, executor.schedule)
    {
      var checked, scheduled := IsScheduled(last, true);
      if last != All && !scheduled {
        return Failed(TimerNotScheduled), [], [];
      }
      if executor.IsScheduleEmpty() {
        return Failed(NothingScheduled), [], [];
      }
      ghost var seen;
      r, tags, ran, seen := RunDelayedUntil(TimerTag(last), now);
    }

    /**
     * The drain loop: pops the nearest due delayed entry and runs it, until
     * the popped tag is `lastTag`, nothing delayed is left, or an assertion
     * fails. It ends because each turn removes one delayed entry and a
     * modelled operation adds at most one per call it makes; its nested
     * operations make no calls, and its cancels reach only handles it issued.
     */
    method RunDelayedUntil(lastTag: int, now: nat)
      returns (r: Outcome, tags: seq<int>, ghost ran: seq<OpId>, ghost seen: seq<Schedule>)
      requires Valid() && HasDelayed(executor.schedule)
      modifies this, executor
      ensures Valid()
      ensures old(log) <= log
      ensures |tags| >= 1 && |ran| == |tags| && !DrainFailure(r)
      ensures |seen| == |tags| && seen[0] == old(executor.schedule)
      ensures forall i :: 0 <= i < |tags| ==> PoppedNearest(seen[i], tags[i], ran[i])
      ensures tags[0] == old(executor.schedule)[IndexOfDelayed(old(executor.schedule))].tag
      ensures ran[0] == old(executor.schedule)[IndexOfDelayed(old(executor.schedule))].operation.op.id
      ensures r.Ok? ==> log == old(log) + ran
      ensures forall i :: 0 <= i < |tags| - 1 ==> tags[i] != lastTag
      ensures r.Ok? ==> tags[|tags| - 1] == lastTag || !HasDelayed(executor.schedule)
      ensures r.Ok? && ScheduledWithTag(old(executor.schedule), lastTag) ==> tags[|tags| - 1] == lastTag
    {
      var tag;
      ghost var id;
      r, tag, id := PopAndRun(now, lastTag, old(log), []);
      var earlier: seq<int> := [];
      ran, seen := [id], [old(executor.schedule)];
      while r.Ok? && !executor.IsScheduleEmpty() && tag != lastTag
        invariant Valid()
        invariant old(log) <= log && !DrainFailure(r)
        invariant ScheduledWithTag(old(executor.schedule), lastTag) && tag != lastTag ==>
          ScheduledWithTag(executor.schedule, lastTag)
        invariant lastTag !in earlier
        invariant |ran| == |earlier| + 1
        invariant r.Ok? ==> log == old(log) + ran
        invariant |seen| == |ran| && seen[0] == old(executor.schedule)
        invariant forall i :: 0 <= i < |earlier| ==> PoppedNearest(seen[i], earlier[i], ran[i])
        invariant PoppedNearest(seen[|earlier|], tag, ran[|earlier|])
        decreases DelayedWeight(executor.schedule)
      {
        ghost var before, seenBefore, earlierBefore, ranBefore, tagBefore := executor.schedule, seen, earlier, ran, tag;
        earlier := earlier + [tag];
        r, tag, id := PopAndRun(now, lastTag, old(log), ran);
        ran, seen := ran + [id], seen + [before];
        PopReportGrows(seenBefore, earlierBefore, ranBefore, tagBefore, before, id);
      }
      PopReportCloses(seen, earlier, ran, tag);
      tags := earlier + [tag];
      assert forall i :: 0 <= i < |tags| - 1 ==> tags[i] == earlier[i];
    }

    /**
     * One turn of the drain loop: pops the nearest due delayed entry and runs it.
     * A modelled operation cancels only the entries it scheduled itself, so an
     * entry already pending under another tag stays scheduled.
     */
    method PopAndRun(now: nat, ghost lastTag: int, ghost start: seq<OpId>, ghost ran: seq<OpId>)
      returns (r: Outcome, tag: int, ghost id: OpId)
      requires Valid() && HasDelayed(executor.schedule)
      modifies this, executor
      ensures Valid()
      ensures old(log) <= log && !DrainFailure(r)
      ensures tag == old(executor.schedule)[IndexOfDelayed(old(executor.schedule))].tag
      ensures id == old(executor.schedule)[IndexOfDelayed(old(executor.schedule))].operation.op.id
      ensures r.Ok? ==> log == old(log) + [id]
      ensures r.Ok? && old(log) == start + ran ==> log == start + (ran + [id])
      ensures PoppedNearest(old(executor.schedule), tag, id)
      ensures DelayedWeight(executor.schedule) < DelayedWeight(old(executor.schedule))
      ensures forall x :: x in old(executor.schedule) && x.tag != tag ==> x in executor.schedule
      ensures ScheduledWithTag(old(executor.schedule), lastTag) && tag != lastTag ==>
        ScheduledWithTag(executor.schedule, lastTag)
    {
      var tagged := PopDelayed();
      tag, id := tagged.tag, tagged.operation.op.id;
      r := StartExecution(tagged.operation.op, true, now);
      AppendOneAssociates(start, ran, id);
    }

    /**
     * Pops the nearest due delayed entry; the schedule holds one. Its
     * operation was put there wrapped, so it is present.
     */
    method PopDelayed() returns (tagged: TaggedOperation<Work>)
      requires Valid() && HasDelayed(executor.schedule)
      modifies executor
      ensures Valid()
      ensures tagged.operation.Run?
      ensures log == old(log) && operationInProgress == old(operationInProgress)
      ensures DelayedWeight(executor.schedule) + 1 + |tagged.operation.op.calls| == DelayedWeight(old(executor.schedule))
      ensures Waiting(executor.schedule) == Waiting(old(executor.schedule))
      ensures forall x :: x in old(executor.schedule) && x.tag != tagged.tag ==> x in executor.schedule
      ensures var k := IndexOfDelayed(old(executor.schedule));
        k < |old(executor.schedule)| &&
        tagged == TaggedOperation(old(executor.schedule)[k].tag, old(executor.schedule)[k].operation) &&
        forall j :: 0 <= j < |old(executor.schedule)| && old(executor.schedule)[j].due.At? ==>
          NoLater(old(executor.schedule)[k].due, old(executor.schedule)[j].due)
    {
      ghost var s := executor.schedule;
      var k := IndexOfDelayed(s);
      FirstDelayedIsNearestDue(s);
      RemovalOfFrontDelayed(s);
      RemoveKeepsQueueInvariant(s, k, executor.currentId);
      WeightOfRemove(s, k);
      assert s[k] in s;
      var r := RemoveAt(s, k);
      assert r[..k] == s[..k];
      RemoveMembers(s, k);
      tagged := executor.PopFromSchedule();
    }
  }
}
