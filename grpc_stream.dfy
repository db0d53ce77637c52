/**
 * The lifecycle of one bidirectional gRPC stream: an assertion-guarded state
 * machine over its state, a pending-read flag and an optional write
 * sequencer. Calls into gRPC and notifications of the stream's observer are
 * recorded as an event trace; whether the observer's generation is still the
 * one the stream was created for is an input of every callback that asks.
 */
module GrpcStreaming {
  import opened Wrappers
  import opened BufferedWriting

  datatype State = NotStarted | Started | Open | Finishing | FinishingWithWrite | Finished

  /**
   * The position of a state in its enumeration, for the `<` and `>=`
   * comparisons the stream makes. NotStarted < Started < Open < Finishing <
   * Finished; where FinishingWithWrite stands is not known, so its position
   * is the odd number `finishingWithWriteRank`, which may fall anywhere.
   */
  function Rank(s: State, finishingWithWriteRank: int): int
  {
    match s
    case NotStarted => 0
    case Started => 2
    case Open => 4
    case Finishing => 6
    case Finished => 8
    case FinishingWithWrite => finishingWithWriteRank
  }

  datatype GrpcStatus = StatusOk | StatusError(code: int, message: string)

  /** The gRPC operations a stream issues. */
  datatype OpKind =
    | StartCall
    | ReadMessage
    | WriteMessage(message: ByteBuffer)
    | ServerInitiatedFinish
    | ClientInitiatedFinish

  /** What the stream does to the outside world, in order. */
  datatype Event =
    | Executed(op: OpKind)          // an operation handed to the gRPC call
    | ContextCancelled              // the client context's TryCancel
    | StreamStarted                 // observer notifications from here on
    | StreamRead(message: ByteBuffer)
    | StreamWrote
    | StreamError(status: GrpcStatus)

  /** Why a call stopped: a failed assertion, or a null writer dereferenced. */
  datatype Failure =
    | AlreadyStarted
    | ReadAlreadyPending
    | NotOpen
    | FinishCalledTwice
    | NoWriter
    | FailedAfterFinished
    | NullWriterDereference

  datatype Outcome = Done | Failed(failure: Failure)

  /** The trace left by handing `op` to gRPC: nothing once the queue is shut down. */
  function Issue(op: OpKind, queueShutDown: bool): (r: seq<Event>)
    ensures |r| <= 1
    ensures r != [] <==> !queueShutDown
    ensures r != [] ==> r[0] == Executed(op)
  {
    if queueShutDown then [] else [Executed(op)]
  }

  class GrpcStream {
    var state: State
    var hasPendingRead: bool
    var writer: BufferedWriter?
    var queueShutDown: bool
    var events: seq<Event>
    const finishingWithWriteRank: int

    ghost predicate Valid()
      reads this, writer
    {
      finishingWithWriteRank % 2 == 1 &&
      (writer != null ==> writer.Valid()) &&
      (state == Open || state == FinishingWithWrite ==> writer != null)
    }

    function RankOf(s: State): int
      reads this
    {
      Rank(s, finishingWithWriteRank)
    }

    constructor (finishingWithWriteRank: int)
      requires finishingWithWriteRank % 2 == 1
      ensures Valid()
      ensures state == NotStarted && !hasPendingRead && writer == null
      ensures !queueShutDown && events == []
      ensures this.finishingWithWriteRank == finishingWithWriteRank
    {
      state := NotStarted;
      hasPendingRead := false;
      writer := null;
      queueShutDown := false;
      events := [];
      this.finishingWithWriteRank := finishingWithWriteRank;
    }

    /** Hands `op` to gRPC unless the completion queue is shut down. */
    method Execute(op: OpKind)
      modifies this
      ensures events == old(events) + Issue(op, queueShutDown)
      ensures state == old(state) && hasPendingRead == old(hasPendingRead)
      ensures writer == old(writer) && queueShutDown == old(queueShutDown)
    {
      if !queueShutDown {
        events := events + [Executed(op)];
      }
    }

    /** The completion queue shuts down; later operations are not executed. */
    method ShutDownQueue()
      modifies this
      ensures queueShutDown
      ensures state == old(state) && hasPendingRead == old(hasPendingRead)
      ensures writer == old(writer) && events == old(events)
    {
      queueShutDown := true;
    }

    method Start() returns (r: Outcome)
      requires Valid()
      modifies this
      ensures Valid()
      ensures old(state) != NotStarted ==> r == Failed(AlreadyStarted) && events == old(events) && state == old(state)
      ensures old(state) == NotStarted ==>
        r == Done && state == Started && events == old(events) + Issue(StartCall, queueShutDown)
      ensures hasPendingRead == old(hasPendingRead) && writer == old(writer)
      ensures queueShutDown == old(queueShutDown)
    {
      if state != NotStarted {
        return Failed(AlreadyStarted);
      }
      state := Started;
      Execute(StartCall);
      r := Done;
    }

    method Read() returns (r: Outcome)
      requires Valid()
      modifies this
      ensures Valid()
      ensures old(hasPendingRead) ==> r == Failed(ReadAlreadyPending) && events == old(events)
      ensures !old(hasPendingRead) && old(state) != Open ==> r == Failed(NotOpen) && events == old(events)
      ensures !old(hasPendingRead) && old(state) == Open ==>
        r == Done && hasPendingRead && events == old(events) + Issue(ReadMessage, queueShutDown)
      ensures r.Failed? ==> hasPendingRead == old(hasPendingRead)
      ensures state == old(state) && writer == old(writer) && queueShutDown == old(queueShutDown)
    {
      if hasPendingRead {
        return Failed(ReadAlreadyPending);
      }
      if state != Open {
        return Failed(NotOpen);
      }
      hasPendingRead := true;
      Execute(ReadMessage);
      r := Done;
    }

    /** Enqueues `message` on the writer and hands it to gRPC if it starts at once. */
    method BufferedWrite(message: ByteBuffer)
      requires Valid() && writer != null
      modifies this, writer
      ensures Valid()
      ensures writer == old(writer)
      ensures writer.hasActiveWrite
      ensures old(writer.hasActiveWrite) ==>
        writer.queue == old(writer.queue) + [message] && events == old(events)
      ensures !old(writer.hasActiveWrite) ==>
        writer.queue == [] && events == old(events) + Issue(WriteMessage(message), queueShutDown)
      ensures writer.started == old(writer.started) + (if old(writer.hasActiveWrite) then [] else [message])
      ensures state == old(state) && hasPendingRead == old(hasPendingRead)
      ensures queueShutDown == old(queueShutDown)
    {
      var executed := writer.EnqueueWrite(message);
      if executed.Some? {
        Execute(WriteMessage(executed.value));
      }
    }

    method Write(message: ByteBuffer) returns (r: Outcome)
      requires Valid()
      modifies this, writer
      ensures Valid()
      ensures state == old(state) && writer == old(writer) && hasPendingRead == old(hasPendingRead)
      ensures old(state) != Open ==> r == Failed(NotOpen) && events == old(events)
      ensures old(state) != Open && writer != null ==>
        writer.queue == old(writer.queue) && writer.hasActiveWrite == old(writer.hasActiveWrite)
      ensures old(state) == Open ==> r == Done && writer.hasActiveWrite
      ensures old(state) == Open && old(writer.hasActiveWrite) ==>
        writer.queue == old(writer.queue) + [message] && events == old(events)
      ensures old(state) == Open && !old(writer.hasActiveWrite) ==>
        writer.queue == [] && events == old(events) + Issue(WriteMessage(message), queueShutDown)
      ensures queueShutDown == old(queueShutDown)
    {
      if state != Open {
        return Failed(NotOpen);
      }
      BufferedWrite(message);
      r := Done;
    }

    method Finish() returns (r: Outcome)
      requires Valid()
      modifies this
      ensures Valid()
      ensures old(state) == NotStarted ==>
        r == Done && state == NotStarted && writer == old(writer) && events == old(events)
      ensures old(state) != NotStarted && !(RankOf(old(state)) < RankOf(Finishing)) ==>
        r == Failed(FinishCalledTwice) && state == old(state) && writer == old(writer) && events == old(events)
      ensures old(state) != NotStarted && RankOf(old(state)) < RankOf(Finishing) ==>
        r == Done && state == Finishing && writer == null &&
        events == old(events) + [ContextCancelled] + Issue(ClientInitiatedFinish, queueShutDown)
      ensures hasPendingRead == old(hasPendingRead) && queueShutDown == old(queueShutDown)
    {
      if state == NotStarted {
        return Done;
      }
      if !(RankOf(state) < RankOf(Finishing)) {
        return Failed(FinishCalledTwice);
      }
      state := Finishing;
      writer := null;
      events := events + [ContextCancelled];
      Execute(ClientInitiatedFinish);
      r := Done;
    }

    method WriteAndFinish(message: ByteBuffer) returns (r: Outcome)
      requires Valid()
      modifies this, writer
      ensures Valid()
      ensures RankOf(old(state)) < RankOf(Open) && old(state) == NotStarted ==>
        r == Done && state == NotStarted && events == old(events)
      ensures RankOf(old(state)) < RankOf(Open) && old(state) != NotStarted ==>
        (RankOf(old(state)) < RankOf(Finishing) ==>
          r == Done && state == Finishing && writer == null &&
          events == old(events) + [ContextCancelled] + Issue(ClientInitiatedFinish, queueShutDown)) &&
        (!(RankOf(old(state)) < RankOf(Finishing)) ==>
          r == Failed(FinishCalledTwice) && state == old(state) && events == old(events))
      ensures !(RankOf(old(state)) < RankOf(Open)) && old(writer) == null ==>
        r == Failed(NoWriter) && state == old(state) && events == old(events) && writer == null
      ensures !(RankOf(old(state)) < RankOf(Open)) && old(writer) != null ==>
        r == Done && state == FinishingWithWrite && writer == old(writer) && writer.hasActiveWrite &&
        (old(writer.hasActiveWrite) ==> writer.queue == [message] && events == old(events)) &&
        (!old(writer.hasActiveWrite) ==>
          writer.queue == [] && events == old(events) + Issue(WriteMessage(message), queueShutDown))
      ensures hasPendingRead == old(hasPendingRead) && queueShutDown == old(queueShutDown)
    {
      if RankOf(state) < RankOf(Open) {
        r := Finish();
        return;
      }
      if writer == null {
        return Failed(NoWriter);
      }
      state := FinishingWithWrite;
      writer.DiscardUnstartedWrites();
      BufferedWrite(message);
      r := Done;
    }

    /** The start operation completed: the stream is open with a fresh, empty writer. */
    method OnStart(sameGeneration: bool) returns (r: Outcome)
      requires Valid()
      modifies this
      ensures Valid()
      ensures state == Open && fresh(writer)
      ensures writer.queue == [] && !writer.hasActiveWrite
      ensures !sameGeneration ==> r == Done && events == old(events) && hasPendingRead == old(hasPendingRead)
      ensures sameGeneration && old(hasPendingRead) ==>
        r == Failed(ReadAlreadyPending) && events == old(events) + [StreamStarted] && hasPendingRead
      ensures sameGeneration && !old(hasPendingRead) ==>
        r == Done && hasPendingRead &&
        events == old(events) + [StreamStarted] + Issue(ReadMessage, queueShutDown)
      ensures queueShutDown == old(queueShutDown)
    {
      state := Open;
      writer := new BufferedWriter();
      if sameGeneration {
        events := events + [StreamStarted];
        r := Read();
      } else {
        r := Done;
      }
    }

    method OnRead(message: ByteBuffer, sameGeneration: bool) returns (r: Outcome)
      requires Valid()
      modifies this
      ensures Valid()
      ensures !sameGeneration ==> r == Done && !hasPendingRead && events == old(events)
      ensures sameGeneration && old(state) != Open ==>
        r == Failed(NotOpen) && !hasPendingRead && events == old(events) + [StreamRead(message)]
      ensures sameGeneration && old(state) == Open ==>
        r == Done && hasPendingRead &&
        events == old(events) + [StreamRead(message)] + Issue(ReadMessage, queueShutDown)
      ensures state == old(state) && writer == old(writer) && queueShutDown == old(queueShutDown)
    {
      hasPendingRead := false;
      if sameGeneration {
        events := events + [StreamRead(message)];
        r := Read();
      } else {
        r := Done;
      }
    }

    /**
     * A write completed. The final write of `WriteAndFinish` finishes the
     * stream; otherwise, for the current generation, the next buffered write
     * starts and the observer is told. The writer is dereferenced without a
     * check, so a completion after `Finish` dropped it is a null dereference.
     */
    method OnWrite(sameGeneration: bool) returns (r: Outcome)
      requires Valid()
      modifies this, writer
      ensures Valid()
      ensures old(state) == FinishingWithWrite && old(writer.queue) == [] ==>
        (RankOf(FinishingWithWrite) < RankOf(Finishing) ==>
          r == Done && state == Finishing && writer == null &&
          events == old(events) + [ContextCancelled] + Issue(ClientInitiatedFinish, queueShutDown)) &&
        (!(RankOf(FinishingWithWrite) < RankOf(Finishing)) ==>
          r == Failed(FinishCalledTwice) && state == old(state) && events == old(events))
      ensures !(old(state) == FinishingWithWrite && old(writer.queue) == []) ==> state == old(state)
      ensures !(old(state) == FinishingWithWrite && old(writer.queue) == []) && !sameGeneration ==>
        r == Done && events == old(events) && writer == old(writer)
      ensures (!(old(state) == FinishingWithWrite && old(writer.queue) == []) && sameGeneration &&
               old(writer) == null) ==> r == Failed(NullWriterDereference) && events == old(events)
      ensures (!(old(state) == FinishingWithWrite && old(writer.queue) == []) && sameGeneration &&
               old(writer) != null) ==>
        r == Done && writer == old(writer) &&
        (old(writer.queue) == [] ==> events == old(events) + [StreamWrote] && !writer.hasActiveWrite) &&
        (old(writer.queue) != [] ==>
          writer.queue == old(writer.queue)[1..] && writer.hasActiveWrite &&
          events == old(events) + Issue(WriteMessage(old(writer.queue)[0]), queueShutDown) + [StreamWrote])
      ensures hasPendingRead == old(hasPendingRead) && queueShutDown == old(queueShutDown)
    {
      if state == FinishingWithWrite && writer.Empty() {
        r := Finish();
        return;
      }
      if sameGeneration {
        if writer == null {
          return Failed(NullWriterDereference);
        }
        var executed := writer.DequeueNextWrite();
        if executed.Some? {
          Execute(WriteMessage(executed.value));
        }
        events := events + [StreamWrote];
      }
      r := Done;
    }

    method OnFinishedByServer(status: GrpcStatus, sameGeneration: bool)
      requires Valid()
      modifies this
      ensures Valid()
      ensures state == Finished
      ensures events == old(events) + (if sameGeneration then [StreamError(status)] else [])
      ensures writer == old(writer) && hasPendingRead == old(hasPendingRead)
      ensures queueShutDown == old(queueShutDown)
    {
      state := Finished;
      if sameGeneration {
        events := events + [StreamError(status)];
      }
    }

    /** The observer is not told: it asked for the finish itself. */
    method OnFinishedByClient()
      requires Valid()
      modifies this
      ensures Valid()
      ensures state == Finished && events == old(events)
      ensures writer == old(writer) && hasPendingRead == old(hasPendingRead)
      ensures queueShutDown == old(queueShutDown)
    {
      state := Finished;
    }

    method OnOperationFailed(sameGeneration: bool) returns (r: Outcome)
      requires Valid()
      modifies this
      ensures Valid()
      ensures old(state) == Finished ==>
        r == Failed(FailedAfterFinished) && state == old(state) && writer == old(writer) && events == old(events)
      ensures old(state) != Finished && RankOf(old(state)) >= RankOf(Finishing) ==>
        r == Done && state == old(state) && writer == old(writer) && events == old(events)
      ensures old(state) != Finished && RankOf(old(state)) < RankOf(Finishing) ==>
        r == Done && writer == null &&
        (sameGeneration ==> state == Finishing && events == old(events) + Issue(ServerInitiatedFinish, queueShutDown)) &&
        (!sameGeneration ==> state == Finished && events == old(events))
      ensures hasPendingRead == old(hasPendingRead) && queueShutDown == old(queueShutDown)
    {
      if state == Finished {
        return Failed(FailedAfterFinished);
      }
      if RankOf(state) >= RankOf(Finishing) {
        return Done;
      }
      writer := null;
      if sameGeneration {
        state := Finishing;
        Execute(ServerInitiatedFinish);
      } else {
        state := Finished;
      }
      r := Done;
    }

    /**
     * Routes the completion of `op`: a successful one to the callback of its
     * kind (with the message read or the status received), a failed one to
     * `OnOperationFailed`.
     */
    method Complete(op: OpKind, ok: bool, sameGeneration: bool, received: ByteBuffer, status: GrpcStatus)
      returns (r: Outcome)
      requires Valid()
      modifies this, writer
      ensures Valid()
      ensures old(events) <= events
      ensures !ok ==> (old(state) == Finished <==> r == Failed(FailedAfterFinished))
      ensures !ok && old(state) != Finished && RankOf(old(state)) >= RankOf(Finishing) ==>
        r == Done && state == old(state) && writer == old(writer) && events == old(events)
      ensures !ok && old(state) != Finished && RankOf(old(state)) < RankOf(Finishing) ==>
        r == Done && writer == null &&
        (sameGeneration ==> state == Finishing && events == old(events) + Issue(ServerInitiatedFinish, queueShutDown)) &&
        (!sameGeneration ==> state == Finished && events == old(events))
      ensures ok && op == ClientInitiatedFinish ==> r == Done && state == Finished && events == old(events)
      ensures ok && op == ServerInitiatedFinish ==>
        r == Done && state == Finished &&
        events == old(events) + (if sameGeneration then [StreamError(status)] else [])
      ensures ok && op == StartCall ==>
        state == Open && fresh(writer) && writer.queue == [] && !writer.hasActiveWrite
      ensures ok && op == StartCall && !sameGeneration ==> r == Done && events == old(events)
      ensures ok && op == StartCall && sameGeneration && old(hasPendingRead) ==>
        r == Failed(ReadAlreadyPending) && events == old(events) + [StreamStarted]
      ensures ok && op == StartCall && sameGeneration && !old(hasPendingRead) ==>
        r == Done && hasPendingRead && events == old(events) + [StreamStarted] + Issue(ReadMessage, queueShutDown)
      ensures ok && op == ReadMessage ==> state == old(state)
      ensures ok && op == ReadMessage ==> (hasPendingRead <==> sameGeneration && old(state) == Open)
      ensures ok && op == ReadMessage && sameGeneration ==>
        |events| > |old(events)| && events[|old(events)|] == StreamRead(received)
      ensures ok && op == ReadMessage ==> writer == old(writer)
      ensures ok && op == ReadMessage && !sameGeneration ==> r == Done && events == old(events)
      ensures ok && op == ReadMessage && sameGeneration && old(state) != Open ==>
        r == Failed(NotOpen) && events == old(events) + [StreamRead(received)]
      ensures ok && op == ReadMessage && sameGeneration && old(state) == Open ==>
        r == Done && events == old(events) + [StreamRead(received)] + Issue(ReadMessage, queueShutDown)
      ensures ok && op.WriteMessage? && old(state) == FinishingWithWrite && old(writer.queue) == [] ==>
        (RankOf(FinishingWithWrite) < RankOf(Finishing) ==>
          r == Done && state == Finishing && writer == null &&
          events == old(events) + [ContextCancelled] + Issue(ClientInitiatedFinish, queueShutDown)) &&
        (!(RankOf(FinishingWithWrite) < RankOf(Finishing)) ==>
          r == Failed(FinishCalledTwice) && state == old(state) && events == old(events))
      ensures ok && op.WriteMessage? && !(old(state) == FinishingWithWrite && old(writer.queue) == []) ==>
        state == old(state) &&
        (!sameGeneration ==> r == Done && events == old(events) && writer == old(writer)) &&
        (sameGeneration && old(writer) == null ==> r == Failed(NullWriterDereference) && events == old(events))
      ensures (ok && op.WriteMessage? && !(old(state) == FinishingWithWrite && old(writer.queue) == []) &&
               sameGeneration && old(writer) != null) ==>
        r == Done && writer == old(writer) &&
        (old(writer.queue) == [] ==> events == old(events) + [StreamWrote] && !writer.hasActiveWrite) &&
        (old(writer.queue) != [] ==>
          writer.queue == old(writer.queue)[1..] && writer.hasActiveWrite &&
          events == old(events) + Issue(WriteMessage(old(writer.queue)[0]), queueShutDown) + [StreamWrote])
      ensures queueShutDown == old(queueShutDown)
    {
      if ok {
        match op {
          case StartCall => r := OnStart(sameGeneration);
          case ReadMessage => r := OnRead(received, sameGeneration);
          case WriteMessage(_) => r := OnWrite(sameGeneration);
          case ServerInitiatedFinish =>
            OnFinishedByServer(status, sameGeneration);
            r := Done;
          case ClientInitiatedFinish =>
            OnFinishedByClient();
            r := Done;
        }
      } else {
        r := OnOperationFailed(sameGeneration);
      }
    }
  }

  // Scenarios of the stream's test suite. The completions a test forces are
  // delivered straight to the callbacks `Complete` routes them to; `rank` places FinishingWithWrite, and a
  // result that depends on it is stated for both placements.

  /** A started stream that gRPC has opened: the first read is pending, nothing is written. */
  method OpenStream(rank: int) returns (stream: GrpcStream)
    requires rank % 2 == 1
    ensures fresh(stream) && fresh(stream.writer) && stream.Valid()
    ensures stream.state == Open && stream.hasPendingRead && !stream.queueShutDown
    ensures stream.writer.queue == [] && !stream.writer.hasActiveWrite
    ensures stream.events == [Executed(StartCall), StreamStarted, Executed(ReadMessage)]
    ensures stream.finishingWithWriteRank == rank
  {
    stream := new GrpcStream(rank);
    var r := stream.Start();
    r := stream.OnStart(true);
  }

  method CannotStartTwice(rank: int) returns (first: Outcome, second: Outcome)
    requires rank % 2 == 1
    ensures first == Done && second == Failed(AlreadyStarted)
  {
    var stream := new GrpcStream(rank);
    first := stream.Start();
    second := stream.Start();
  }

  method CannotWriteBeforeStreamIsOpen(rank: int, message: ByteBuffer)
    returns (beforeStart: Outcome, afterStart: Outcome)
    requires rank % 2 == 1
    ensures beforeStart == Failed(NotOpen) && afterStart == Failed(NotOpen)
  {
    var stream := new GrpcStream(rank);
    beforeStart := stream.Write(message);
    var started := stream.Start();
    afterStart := stream.Write(message);
  }

  /** Finish before Start does nothing; after Start it works once. */
  method FinishBeforeAndAfterStarting(rank: int)
    returns (beforeStart: Outcome, afterStart: Outcome, twice: Outcome, events: seq<Event>)
    requires rank % 2 == 1
    ensures beforeStart == Done && afterStart == Done && twice == Failed(FinishCalledTwice)
    ensures events == [Executed(StartCall), ContextCancelled, Executed(ClientInitiatedFinish)]
  {
    var stream := new GrpcStream(rank);
    beforeStart := stream.Finish();
    var started := stream.Start();
    afterStart := stream.Finish();
    twice := stream.Finish();
    events := stream.events;
  }

  /** Before the stream is open, WriteAndFinish is a plain Finish. */
  method WriteAndFinishBeforeOpen(rank: int, message: ByteBuffer)
    returns (beforeStart: Outcome, afterStart: Outcome, events: seq<Event>)
    requires rank % 2 == 1
    ensures beforeStart == Done && afterStart == Done
    ensures events == [Executed(StartCall), ContextCancelled, Executed(ClientInitiatedFinish)]
  {
    var unstarted := new GrpcStream(rank);
    beforeStart := unstarted.WriteAndFinish(message);
    var stream := new GrpcStream(rank);
    var started := stream.Start();
    afterStart := stream.WriteAndFinish(message);
    events := stream.events;
  }

  /** Opening notifies the observer and issues a read, which is re-issued after every message. */
  method ReadIsAutomaticallyReadded(rank: int, m1: ByteBuffer, m2: ByteBuffer)
    returns (events: seq<Event>, writeAfterOpen: Outcome)
    requires rank % 2 == 1
    ensures events == [Executed(StartCall), StreamStarted, Executed(ReadMessage),
                       StreamRead(m1), Executed(ReadMessage), StreamRead(m2), Executed(ReadMessage)]
    ensures writeAfterOpen == Done
  {
    var stream := OpenStream(rank);
    var r;
    r := stream.OnRead(m1, true);
    r := stream.OnRead(m2, true);
    events := stream.events;
    writeAfterOpen := stream.Write([]);
  }

  /** Three writes go out one at a time; each completion is reported. */
  method CanAddSeveralWrites(rank: int, w1: ByteBuffer, w2: ByteBuffer, w3: ByteBuffer)
    returns (events: seq<Event>)
    requires rank % 2 == 1
    ensures events == [Executed(StartCall), StreamStarted, Executed(ReadMessage),
                       Executed(WriteMessage(w1)), Executed(WriteMessage(w2)), StreamWrote,
                       Executed(WriteMessage(w3)), StreamWrote, StreamWrote]
  {
    var stream := OpenStream(rank);
    var r;
    r := stream.Write(w1);
    r := stream.Write(w2);
    r := stream.Write(w3);
    r := stream.OnWrite(true);
    r := stream.OnWrite(true);
    r := stream.OnWrite(true);
    events := stream.events;
  }

  /** A failed read makes the stream finish itself; the server's status reaches the observer. */
  method ObserverReceivesOnError(rank: int, status: GrpcStatus)
    returns (events: seq<Event>, finalState: State)
    requires rank % 2 == 1
    ensures events == [Executed(StartCall), StreamStarted, Executed(ReadMessage),
                       Executed(ServerInitiatedFinish), StreamError(status)]
    ensures finalState == Finished
  {
    var stream := OpenStream(rank);
    var r;
    r := stream.OnOperationFailed(true);
    stream.OnFinishedByServer(status, true);
    events := stream.events;
    finalState := stream.state;
  }

  /** A finish the client asked for is not reported to the observer. */
  method ClientFinishIsNotObserved(rank: int) returns (events: seq<Event>, finalState: State)
    requires rank % 2 == 1
    ensures events == [Executed(StartCall), StreamStarted, Executed(ReadMessage),
                       ContextCancelled, Executed(ClientInitiatedFinish)]
    ensures finalState == Finished
  {
    var stream := OpenStream(rank);
    var r;
    r := stream.Finish();
    stream.OnFinishedByClient();
    events := stream.events;
    finalState := stream.state;
  }

  /**
   * The final write is not reported; its completion finishes the stream
   * when FinishingWithWrite precedes Finishing, and fails Finish's
   * assertion otherwise.
   */
  method WriteAndFinishFromOpen(rank: int, message: ByteBuffer)
    returns (completion: Outcome, events: seq<Event>)
    requires rank % 2 == 1
    ensures rank < 6 ==> (completion == Done &&
      events == [Executed(StartCall), StreamStarted, Executed(ReadMessage),
                 Executed(WriteMessage(message)), ContextCancelled, Executed(ClientInitiatedFinish)])
    ensures rank > 6 ==> (completion == Failed(FinishCalledTwice) &&
      events == [Executed(StartCall), StreamStarted, Executed(ReadMessage), Executed(WriteMessage(message))])
  {
    var stream := OpenStream(rank);
    var r;
    r := stream.WriteAndFinish(message);
    completion := stream.OnWrite(true);
    events := stream.events;
  }

  /**
   * Writes buffered behind the active one are dropped by WriteAndFinish:
   * only the first write and the final one are ever handed to gRPC, and the
   * observer hears of the first write alone. The completions come in the
   * order gRPC returns them (first write, final write, then the finish),
   * and the completion queue is shut down last.
   */
  method WriteAndFinishDiscardsUnstartedWrites(rank: int, w1: ByteBuffer, w2: ByteBuffer, w3: ByteBuffer,
                                               last: ByteBuffer)
    returns (events: seq<Event>, finalWrite: Outcome, finalState: State)
    requires rank % 2 == 1
    ensures rank < 6 ==>
      finalWrite == Done && finalState == Finished &&
      events == [Executed(StartCall), StreamStarted, Executed(ReadMessage),
                 Executed(WriteMessage(w1)), Executed(WriteMessage(last)), StreamWrote,
                 ContextCancelled, Executed(ClientInitiatedFinish)]
    ensures rank > 6 ==>
      finalWrite == Failed(FinishCalledTwice) && finalState == FinishingWithWrite &&
      events == [Executed(StartCall), StreamStarted, Executed(ReadMessage),
                 Executed(WriteMessage(w1)), Executed(WriteMessage(last)), StreamWrote]
  {
    var stream := OpenStream(rank);
    var r;
    r := stream.Write(w1);
    r := stream.Write(w2);
    r := stream.Write(w3);
    r := stream.WriteAndFinish(last);
    r := stream.OnWrite(true);
    finalWrite := stream.OnWrite(true);
    if finalWrite == Done {
      stream.OnFinishedByClient();
    }
    stream.ShutDownQueue();
    events := stream.events;
    finalState := stream.state;
  }

  /** A failed start: the stream finishes itself and the observer only hears the error. */
  method ErrorOnStart(rank: int, status: GrpcStatus) returns (events: seq<Event>)
    requires rank % 2 == 1
    ensures events == [Executed(StartCall), Executed(ServerInitiatedFinish), StreamError(status)]
  {
    var stream := new GrpcStream(rank);
    var r := stream.Start();
    r := stream.OnOperationFailed(true);
    stream.OnFinishedByServer(status, true);
    events := stream.events;
  }

  /** A failed write, with or without writes buffered behind it, ends in the server's status. */
  method ErrorWithPendingWrites(rank: int, w1: ByteBuffer, w2: ByteBuffer, status: GrpcStatus)
    returns (events: seq<Event>)
    requires rank % 2 == 1
    ensures events == [Executed(StartCall), StreamStarted, Executed(ReadMessage),
                       Executed(WriteMessage(w1)), Executed(ServerInitiatedFinish), StreamError(status)]
  {
    var stream := OpenStream(rank);
    var r;
    r := stream.Write(w1);
    r := stream.Write(w2);
    r := stream.OnOperationFailed(true);
    stream.OnFinishedByServer(status, true);
    events := stream.events;
  }

  /**
   * A failed final write is never reported to the observer. Whether the
   * stream still asks the server to finish depends on where
   * FinishingWithWrite stands relative to Finishing.
   */
  method ErrorOnLastWrite(rank: int, message: ByteBuffer) returns (events: seq<Event>)
    requires rank % 2 == 1
    ensures events == [Executed(StartCall), StreamStarted, Executed(ReadMessage), Executed(WriteMessage(message))] +
                      (if rank < 6 then [Executed(ServerInitiatedFinish)] else [])
  {
    var stream := OpenStream(rank);
    var r;
    r := stream.WriteAndFinish(message);
    r := stream.OnOperationFailed(true);
    events := stream.events;
  }

  /** An open stream writes `w1` and reads `m1`; both completions are reported. */
  method ReadAndWriteOnce(rank: int, m1: ByteBuffer, w1: ByteBuffer) returns (stream: GrpcStream)
    requires rank % 2 == 1
    ensures fresh(stream) && fresh(stream.writer) && stream.Valid()
    ensures stream.state == Open && stream.hasPendingRead && !stream.queueShutDown
    ensures stream.writer.queue == [] && !stream.writer.hasActiveWrite
    ensures stream.events == [Executed(StartCall), StreamStarted, Executed(ReadMessage),
                              Executed(WriteMessage(w1)), StreamRead(m1), Executed(ReadMessage), StreamWrote]
    ensures stream.finishingWithWriteRank == rank
  {
    stream := OpenStream(rank);
    var r := stream.Write(w1);
    r := stream.OnRead(m1, true);
    r := stream.OnWrite(true);
  }

  /** Once the observer's generation moves on, its callbacks stop; gRPC work goes on. */
  method RaisingGenerationStopsNotifications(rank: int, m1: ByteBuffer, m2: ByteBuffer,
                                             w1: ByteBuffer, w2: ByteBuffer)
    returns (events: seq<Event>, finalState: State)
    requires rank % 2 == 1
    ensures events == [Executed(StartCall), StreamStarted, Executed(ReadMessage),
                       Executed(WriteMessage(w1)), StreamRead(m1), Executed(ReadMessage), StreamWrote,
                       Executed(WriteMessage(w2)), ContextCancelled, Executed(ClientInitiatedFinish)]
    ensures finalState == Finished
  {
    var stream := ReadAndWriteOnce(rank, m1, w1);
    // the observer's generation is raised here
    var r := stream.Write(w2);
    r := stream.Finish();
    r := stream.OnRead(m2, false);
    r := stream.OnWrite(false);
    stream.OnFinishedByClient();
    events := stream.events;
    finalState := stream.state;
  }

  /**
   * A write that completes after Finish dropped the writer, while the
   * generation is unchanged, dereferences the missing writer.
   */
  method WriteCompletesAfterFinish(rank: int, message: ByteBuffer) returns (completion: Outcome)
    requires rank % 2 == 1
    ensures completion == Failed(NullWriterDereference)
  {
    var stream := OpenStream(rank);
    var r;
    r := stream.Write(message);
    r := stream.Finish();
    completion := stream.OnWrite(true);
  }
}
