// When a session can still read another request. Reading resumes in two places, after an upload
// and after a write that finds the queue full, and nowhere else.
module HttpSessionReading {
  import opened HttpSessionMachine

  /** The front of the queue is being written and will be popped if its write succeeds. */
  predicate FrontWillLeave(s: State) {
    s.pendingWrites == [true]
  }

  /** A read is in flight, or an active handler or a full queue will start one. */
  predicate CanRead(s: State) {
    || s.pendingReads > 0
    || (s.handlers != [] && (|s.queue| + 1 < QUEUE_LIMIT || FrontWillLeave(s)))
    || (|s.queue| == QUEUE_LIMIT && FrontWillLeave(s))
  }

  ghost predicate MayReadAgain(s: State) {
    exists events :: IsRun(s, events) && After(s, events).arrived > s.arrived
  }

  lemma StepCannotRead(s: State, e: Event)
    requires Inv(s) && !CanRead(s) && Enabled(s, e)
    ensures !CanRead(Next(s, e)) && Next(s, e).arrived == s.arrived
  {}

  lemma {:induction false} NeverReadsAgain(s: State, events: seq<Event>)
    requires Inv(s) && !CanRead(s) && IsRun(s, events)
    ensures !CanRead(After(s, events)) && After(s, events).arrived == s.arrived
    decreases |events|
  {
    if events != [] {
      NeverReadsAgain(s, events[..|events| - 1]);
      RunKeepsInv(s, events[..|events| - 1]);
      StepCannotRead(After(s, events[..|events| - 1]), events[|events| - 1]);
    }
  }

  lemma {:induction false} Prepend(s: State, e: Event, events: seq<Event>)
    requires Enabled(s, e) && IsRun(Next(s, e), events)
    ensures IsRun(s, [e] + events) && After(s, [e] + events) == After(Next(s, e), events)
    decreases |events|
  {
    var all := [e] + events;
    if events == [] {
      assert all == [e];
      assert all[..0] == [];
    } else {
      Prepend(s, e, events[..|events| - 1]);
      assert all[..|all| - 1] == [e] + events[..|events| - 1];
      assert all[|all| - 1] == events[|events| - 1];
    }
  }

  lemma ReadsAfter(s: State, e: Event)
    requires Enabled(s, e) && Next(s, e).arrived == s.arrived && MayReadAgain(Next(s, e))
    ensures MayReadAgain(s)
  {
    var events :| IsRun(Next(s, e), events) && After(Next(s, e), events).arrived > Next(s, e).arrived;
    Prepend(s, e, events);
  }

  lemma ReadsNow(s: State)
    requires s.pendingReads > 0
    ensures MayReadAgain(s)
  {
    assert IsRun(Next(s, UploadRequest), []);
    Prepend(s, UploadRequest, []);
  }

  lemma ReadsAfterUpload(s: State)
    requires Inv(s) && s.handlers != [] && |s.queue| + 1 < QUEUE_LIMIT
    ensures MayReadAgain(s)
  {
    ReadsNow(Next(s, UploadDone(0, true)));
    ReadsAfter(s, UploadDone(0, true));
  }

  /** Another request is read in some continuation if and only if CanRead holds: what looks only
      at the current state decides about all continuations. */
  lemma CanReadExactly(s: State)
    requires Inv(s)
    ensures MayReadAgain(s) <==> CanRead(s)
  {
    if !CanRead(s) {
      forall events | IsRun(s, events) ensures After(s, events).arrived == s.arrived {
        NeverReadsAgain(s, events);
      }
    } else if s.pendingReads > 0 {
      ReadsNow(s);
    } else if s.handlers != [] && |s.queue| + 1 < QUEUE_LIMIT {
      ReadsAfterUpload(s);
    } else {
      StepKeepsInv(s, WriteDone(0));
      var t := Next(s, WriteDone(0));
      if s.handlers != [] {
        ReadsAfterUpload(t);
      } else {
        ReadsNow(t);
      }
      ReadsAfter(s, WriteDone(0));
    }
  }

  // ----- every queued response is written

  function Successes(n: nat): seq<Event> {
    seq(n, _ => WriteDone(0))
  }

  /** A success moves a front that keeps the connection out of the queue and writes the next one. */
  lemma FrontIsWritten(s: State)
    requires Inv(s) && !Stalled(s) && s.queue != [] && s.queue[0].keepAlive
    ensures Enabled(s, WriteDone(0))
    ensures var t := Next(s, WriteDone(0));
      Inv(t) && !Stalled(t) && t.queue == s.queue[1..] && t.pushed == s.pushed
  {
    StepKeepsInv(s, WriteDone(0));
  }

  lemma {:induction false} QueueShrinks(s: State, k: nat)
    requires Inv(s) && !Stalled(s) && k <= |s.queue|
    requires forall i :: 0 <= i < |s.queue| ==> s.queue[i].keepAlive
    ensures IsRun(s, Successes(k))
    ensures var t := After(s, Successes(k));
      Inv(t) && !Stalled(t) && t.queue == s.queue[k..] && t.pushed == s.pushed
  {
    if k > 0 {
      QueueShrinks(s, k - 1);
      var before := Successes(k - 1);
      assert Successes(k)[..k - 1] == before;
      FrontIsWritten(After(s, before));
    }
  }

  /** Unless a write fails or a response closes the connection, the write loop writes out the whole
      queue by itself, one response after the other. */
  lemma QueueIsWrittenOut(s: State)
    requires Inv(s) && !Stalled(s)
    requires forall i :: 0 <= i < |s.queue| ==> s.queue[i].keepAlive
    ensures IsRun(s, Successes(|s.queue|))
    ensures var t := After(s, Successes(|s.queue|));
      t.queue == [] && t.written == t.pushed == s.pushed
  {
    QueueShrinks(s, |s.queue|);
  }

  function CountWritten(events: seq<Event>): nat {
    if events == [] then 0
    else CountWritten(events[..|events| - 1]) + if events[|events| - 1].WriteDone? then 1 else 0
  }

  lemma StepWrites(s: State, e: Event)
    requires Inv(s) && !Stalled(s) && Enabled(s, e)
    ensures |Next(s, e).written| == |s.written| + (if e.WriteDone? then 1 else 0)
    ensures s.pushed <= Next(s, e).pushed
  {}

  lemma {:induction false} WritesAdvance(s: State, events: seq<Event>)
    requires Inv(s) && !Stalled(s) && IsRun(s, events) && Live(s, events)
    ensures var t := After(s, events);
      |t.written| == |s.written| + CountWritten(events) && s.pushed <= t.pushed
    decreases |events|
  {
    if events != [] {
      var before := events[..|events| - 1];
      WritesAdvance(s, before);
      RunKeepsInv(s, before);
      LiveExactly(s, before);
      StepWrites(After(s, before), events[|events| - 1]);
    }
  }

  /** Whatever requests, responses and reads come in between: as long as no write has failed and no
      response has closed the connection, every success writes one more response, the write loop has
      a write in flight while anything is queued, and so the k responses queued now have been
      written after k successes. */
  lemma EveryResponseIsWritten(s: State, events: seq<Event>)
    requires Inv(s) && !Stalled(s) && IsRun(s, events) && Live(s, events)
    ensures var t := After(s, events);
      && |t.written| == |s.written| + CountWritten(events)
      && (t.queue != [] ==> Enabled(t, WriteDone(0)))
      && (CountWritten(events) >= |s.queue| ==> s.pushed <= t.written)
  {
    WritesAdvance(s, events);
    LiveExactly(s, events);
    RunKeepsInv(s, events);
  }

  // ----- runs served by the upload handler

  predicate ServedByUpload(e: Event) {
    e.UploadRequest? || e.UploadDone? || e.WriteDone? || e.WriteFail?
  }

  /** A read is in flight, a handler is active, or the queue is full and its front is being
      written. */
  predicate Busy(s: State) {
    s.pendingReads == 1 || |s.handlers| == 1 || (|s.queue| == QUEUE_LIMIT && |s.pendingWrites| == 1)
  }

  lemma StepBusy(s: State, e: Event)
    requires Inv(s) && !Stalled(s) && Busy(s) && Enabled(s, e) && ServedByUpload(e) && !EndsWriting(s, e)
    ensures Busy(Next(s, e))
  {}

  /** Reading is never lost while every request is served by a successful upload, until a write
      fails or a response closes the connection. */
  lemma {:induction false} ReadingNeverLost(events: seq<Event>)
    requires IsRun(INIT, events) && Live(INIT, events)
    requires forall e :: e in events ==> ServedByUpload(e)
    ensures Busy(After(INIT, events))
    decreases |events|
  {
    if events != [] {
      var before, last := events[..|events| - 1], events[|events| - 1];
      assert last in events;
      assert forall e :: e in before ==> e in events;
      ReadingNeverLost(before);
      RunKeepsInv(INIT, before);
      LiveExactly(INIT, before);
      StepBusy(After(INIT, before), last);
    }
  }

  lemma BusyCanRead(s: State)
    requires Inv(s) && !Stalled(s) && Busy(s) && (s.queue != [] ==> s.queue[0].keepAlive)
    ensures CanRead(s)
  {
    if s.queue != [] {
      assert s.pendingWrites == [true];
    }
  }

  /** Until then such a session goes on reading, unless the response at the front of its queue is
      going to close it. */
  lemma UploadSessionReadsOn(events: seq<Event>)
    requires IsRun(INIT, events) && Live(INIT, events)
    requires forall e :: e in events ==> ServedByUpload(e)
    ensures var s := After(INIT, events);
      (s.queue != [] ==> s.queue[0].keepAlive) ==> MayReadAgain(s)
  {
    ReadingNeverLost(events);
    RunKeepsInv(INIT, events);
    LiveExactly(INIT, events);
    var s := After(INIT, events);
    if s.queue != [] ==> s.queue[0].keepAlive {
      BusyCanRead(s);
      CanReadExactly(s);
    }
  }

  /** Resuming after a full queue starts one read, not two, and leaves room for its response. */
  lemma FullQueueResumesOnce(s: State, i: nat)
    requires Inv(s) && |s.queue| == QUEUE_LIMIT && Enabled(s, WriteDone(i))
    ensures var t := Next(s, WriteDone(i));
      if s.queue[0].keepAlive
      then t.pendingReads == 1 && |t.queue| == QUEUE_LIMIT - 1 && |t.pendingWrites| == 1
      else t.pendingReads == 0 && Stalled(t)
  {}

  // ----- what ends reading

  /** One step ends reading for good exactly in these cases. A file request is among them: its
      handler does not resume reading, so only a queue that it has filled up will. */
  predicate EndsReading(s: State, e: Event) {
    match e
    case UploadRequest => |s.queue| + 1 >= QUEUE_LIMIT && !FrontWillLeave(s)
    case FileRequest(_) => !(|s.queue| + 1 == QUEUE_LIMIT && FrontWillLeave(s))
    case UploadDone(_, _) => |s.queue| + 1 >= QUEUE_LIMIT && !FrontWillLeave(s)
    case WriteDone(_) => false
    case WriteFail(_) => s.pendingReads == 0 && (s.handlers == [] || |s.queue| + 1 >= QUEUE_LIMIT)
    case _ => true
  }

  lemma WhatEndsReading(s: State, e: Event)
    requires Inv(s) && CanRead(s) && Enabled(s, e)
    ensures MayReadAgain(Next(s, e)) <==> !EndsReading(s, e)
  {
    StepKeepsInv(s, e);
    CanReadExactly(Next(s, e));
  }

  /** A session whose first request goes to the file handler reads no other one. */
  lemma FileRequestIsLast(keepAlive: bool)
    ensures IsRun(INIT, [FileRequest(keepAlive)])
    ensures !MayReadAgain(After(INIT, [FileRequest(keepAlive)]))
  {
    assert [FileRequest(keepAlive)][..0] == [];
    WhatEndsReading(INIT, FileRequest(keepAlive));
  }

  /** A request whose handler was dropped without a response is the last one ever read. */
  lemma UnansweredIsLast(s: State)
    requires Inv(s) && s.arrived > |s.pushed| && s.handlers == []
    ensures !MayReadAgain(s)
  {
    CanReadExactly(s);
  }
}
