/**
 * The write sequencer that sits between a gRPC stream and its callers: writes
 * are accepted eagerly, but at most one of them is handed to the stream (is
 * "active") at a time; the next one is released only when the stream owner
 * acknowledges the active one.
 */
module BufferedWriting {
  import opened Wrappers

  /** `sub` is `s` with some elements dropped and the order of the rest kept. */
  predicate IsSubsequence<T(==)>(sub: seq<T>, s: seq<T>)
    decreases |s|
  {
    if sub == [] then true
    else if s == [] then false
    else if sub[0] == s[0] then IsSubsequence(sub[1..], s[1..])
    else IsSubsequence(sub, s[1..])
  }

  lemma {:induction false} SubsequenceOfLonger<T>(sub: seq<T>, s: seq<T>, x: T)
    requires IsSubsequence(sub, s)
    ensures IsSubsequence(sub, s + [x])
    decreases |s|
  {
    if sub != [] {
      assert (s + [x])[1..] == s[1..] + [x];
      if sub[0] == s[0] {
        SubsequenceOfLonger(sub[1..], s[1..], x);
      } else {
        SubsequenceOfLonger(sub, s[1..], x);
      }
    }
  }

  lemma {:induction false} SubsequenceAppendBoth<T>(sub: seq<T>, s: seq<T>, x: T)
    requires IsSubsequence(sub, s)
    ensures IsSubsequence(sub + [x], s + [x])
    decreases |s|
  {
    if sub == [] {
      if s != [] {
        assert (s + [x])[1..] == s[1..] + [x];
        SubsequenceAppendBoth(sub, s[1..], x);
      }
      assert [x][1..] == [];
    } else {
      assert (sub + [x])[1..] == sub[1..] + [x];
      assert (s + [x])[1..] == s[1..] + [x];
      if sub[0] == s[0] {
        SubsequenceAppendBoth(sub[1..], s[1..], x);
      } else {
        SubsequenceAppendBoth(sub, s[1..], x);
      }
    }
  }

  /** Dropping a tail of a subsequence leaves a subsequence. */
  lemma {:induction false} SubsequencePrefix<T>(a: seq<T>, b: seq<T>, s: seq<T>)
    requires IsSubsequence(a + b, s)
    ensures IsSubsequence(a, s)
    decreases |s|
  {
    if a != [] {
      assert (a + b)[0] == a[0];
      assert (a + b)[1..] == a[1..] + b;
      if a[0] == s[0] {
        SubsequencePrefix(a[1..], b, s[1..]);
      } else {
        SubsequencePrefix(a, b, s[1..]);
      }
    }
  }

  /**
   * The sequencer. `queue` holds the writes not yet handed to the stream and
   * `hasActiveWrite` says whether one handed-over write awaits its
   * acknowledgement. The ghost fields record the history: every message ever
   * enqueued, every message handed to the stream, and how many active writes
   * were acknowledged.
   */
  class BufferedWriter {
    var queue: seq<ByteBuffer>
    var hasActiveWrite: bool

    ghost var enqueued: seq<ByteBuffer>
    ghost var started: seq<ByteBuffer>
    ghost var acknowledged: nat

    /**
     * The class invariant: a buffered write implies an active one; exactly
     * one started write is outstanding while the flag is set and none
     * otherwise; and writes start in the order they were enqueued, the
     * unstarted ones queued behind them.
     */
    ghost predicate Valid()
      reads this
    {
      (queue != [] ==> hasActiveWrite) &&
      |started| == acknowledged + (if hasActiveWrite then 1 else 0) &&
      IsSubsequence(started + queue, enqueued)
    }

    constructor ()
      ensures Valid()
      ensures queue == [] && !hasActiveWrite
      ensures enqueued == [] && started == [] && acknowledged == 0
    {
      queue := [];
      hasActiveWrite := false;
      enqueued := [];
      started := [];
      acknowledged := 0;
    }

    /** Whether no unstarted write is buffered; the active write does not count. */
    function Empty(): (r: bool)
      reads this
      ensures r <==> |queue| == 0
      ensures Valid() && !hasActiveWrite ==> r
    {
      queue == []
    }

    method DiscardUnstartedWrites()
      requires Valid()
      modifies this
      ensures Valid()
      ensures queue == []
      ensures hasActiveWrite == old(hasActiveWrite)
      ensures started == old(started) && acknowledged == old(acknowledged)
      ensures enqueued == old(enqueued)
    {
      SubsequencePrefix(started, queue, enqueued);
      assert started + [] == started;
      queue := [];
    }

    /**
     * Starts the front write if there is one and none is active. `executed`
     * is the message handed to the stream's `Execute`, if any.
     */
    method TryStartWrite() returns (executed: Option<ByteBuffer>)
      modifies this
      ensures old(queue) == [] || old(hasActiveWrite) ==>
        executed == None && queue == old(queue) && hasActiveWrite == old(hasActiveWrite) &&
        started == old(started)
      ensures old(queue) != [] && !old(hasActiveWrite) ==>
        executed == Some(old(queue)[0]) && queue == old(queue)[1..] && hasActiveWrite &&
        started == old(started) + [old(queue)[0]]
      ensures enqueued == old(enqueued) && acknowledged == old(acknowledged)
    {
      if Empty() {
        return None;
      }
      if hasActiveWrite {
        return None;
      }
      hasActiveWrite := true;
      var message := queue[0];
      queue := queue[1..];
      started := started + [message];
      executed := Some(message);
    }

    /**
     * Appends `write` to the queue and starts it at once when no write is
     * active; `executed` is the write handed to the stream, which is `write`
     * itself or nothing.
     */
    method EnqueueWrite(write: ByteBuffer) returns (executed: Option<ByteBuffer>)
      requires Valid()
      modifies this
      ensures Valid()
      ensures hasActiveWrite
      ensures old(hasActiveWrite) ==> executed == None && queue == old(queue) + [write]
      ensures !old(hasActiveWrite) ==> executed == Some(write) && queue == [] && old(queue) == []
      ensures enqueued == old(enqueued) + [write]
      ensures started == old(started) + (if executed.Some? then [write] else [])
      ensures acknowledged == old(acknowledged)
    {
      SubsequenceAppendBoth(started + queue, enqueued, write);
      ghost var pending := started + queue + [write];
      assert pending == started + (queue + [write]);
      queue := queue + [write];
      enqueued := enqueued + [write];
      executed := TryStartWrite();
      if executed.Some? {
        assert old(queue) == [];
        assert started + queue == pending;
      } else {
        assert started + queue == pending;
      }
    }

    /**
     * Called by the stream owner once the active write completed: clears the
     * flag and starts the next buffered write, if any.
     */
    method DequeueNextWrite() returns (executed: Option<ByteBuffer>)
      requires Valid()
      modifies this
      ensures Valid()
      ensures old(queue) == [] ==> executed == None && queue == [] && !hasActiveWrite
      ensures old(queue) != [] ==>
        executed == Some(old(queue)[0]) && queue == old(queue)[1..] && hasActiveWrite
      ensures started == old(started) + (if executed.Some? then [executed.value] else [])
      ensures acknowledged == old(acknowledged) + (if old(hasActiveWrite) then 1 else 0)
      ensures enqueued == old(enqueued)
    {
      ghost var pending := started + queue;
      assert IsSubsequence(pending, enqueued);
      if hasActiveWrite {
        acknowledged := acknowledged + 1;
      }
      hasActiveWrite := false;
      executed := TryStartWrite();
      if executed.Some? {
        assert old(queue) == [old(queue)[0]] + queue;
        assert started + queue == pending;
      } else {
        assert started + queue == pending;
      }
    }
  }

  /**
   * Two writes through a fresh sequencer: the first becomes active at once,
   * the second waits for the first acknowledgement, and a further
   * acknowledgement leaves nothing buffered and nothing active.
   */
  method SequenceTwoWrites(a: ByteBuffer, b: ByteBuffer)
    returns (first: Option<ByteBuffer>, second: Option<ByteBuffer>,
             third: Option<ByteBuffer>, fourth: Option<ByteBuffer>,
             emptyWhileBuffered: bool, emptyAtEnd: bool, activeAtEnd: bool)
    ensures first == Some(a) && second == None
    ensures !emptyWhileBuffered
    ensures third == Some(b) && fourth == None
    ensures emptyAtEnd && !activeAtEnd
  {
    var writer := new BufferedWriter();
    first := writer.EnqueueWrite(a);
    second := writer.EnqueueWrite(b);
    emptyWhileBuffered := writer.Empty();
    third := writer.DequeueNextWrite();
    fourth := writer.DequeueNextWrite();
    emptyAtEnd := writer.Empty();
    activeAtEnd := writer.hasActiveWrite;
  }

  /**
   * Discarding keeps the active write: after it, the next acknowledgement
   * starts nothing.
   */
  method DiscardKeepsActiveWrite(m1: ByteBuffer, m2: ByteBuffer, m3: ByteBuffer)
    returns (activeAfterDiscard: bool, emptyAfterDiscard: bool, next: Option<ByteBuffer>,
             ghost startedAll: seq<ByteBuffer>)
    ensures activeAfterDiscard && emptyAfterDiscard
    ensures next == None
    ensures startedAll == [m1]
  {
    var writer := new BufferedWriter();
    var ignored := writer.EnqueueWrite(m1);
    ignored := writer.EnqueueWrite(m2);
    ignored := writer.EnqueueWrite(m3);
    writer.DiscardUnstartedWrites();
    activeAfterDiscard := writer.hasActiveWrite;
    emptyAfterDiscard := writer.Empty();
    next := writer.DequeueNextWrite();
    startedAll := writer.started;
  }

  /**
   * The disabled writer test, call for call as written: three enqueues, two
   * acknowledgements, two enqueues. `handedOver[i]` says whether call `i`
   * handed a write to the stream (a non-null result in the test). The last
   * call only buffers its write, so the test's final non-null expectation
   * does not hold.
   */
  method BufferedWritesTestAsWritten() returns (handedOver: seq<bool>)
    ensures handedOver == [true, false, false, true, true, false, false]
  {
    var writer := new BufferedWriter();
    var r0 := writer.EnqueueWrite([]);
    var r1 := writer.EnqueueWrite([]);
    var r2 := writer.EnqueueWrite([]);
    var r3 := writer.DequeueNextWrite();
    var r4 := writer.DequeueNextWrite();
    var r5 := writer.EnqueueWrite([]);
    var r6 := writer.EnqueueWrite([]);
    handedOver := [r0.Some?, r1.Some?, r2.Some?, r3.Some?, r4.Some?, r5.Some?, r6.Some?];
  }

  /**
   * The same test with the sixth call being the extra acknowledgement its
   * comment describes: every expectation of the test then holds
   * (non-null, null, null, non-null, non-null, null, non-null).
   */
  method BufferedWritesTestAsIntended() returns (handedOver: seq<bool>)
    ensures handedOver == [true, false, false, true, true, false, true]
  {
    var writer := new BufferedWriter();
    var r0 := writer.EnqueueWrite([]);
    var r1 := writer.EnqueueWrite([]);
    var r2 := writer.EnqueueWrite([]);
    var r3 := writer.DequeueNextWrite();
    var r4 := writer.DequeueNextWrite();
    var r5 := writer.DequeueNextWrite();
    var r6 := writer.EnqueueWrite([]);
    handedOver := [r0.Some?, r1.Some?, r2.Some?, r3.Some?, r4.Some?, r5.Some?, r6.Some?];
  }
}
