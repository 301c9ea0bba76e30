// The pipelined HTTP session of http_session.hpp with the handlers of handler_file.hpp. All its
// callbacks run on one strand, so a session is a machine whose steps are completions of its
// asynchronous operations; how an operation completes is up to the outside world.
module HttpSessionMachine {
  import opened Basics

  const QUEUE_LIMIT: nat := 8

  /** A response, with the number of the request that it answers. */
  datatype Response = Response(request: nat, keepAlive: bool)

  datatype State = State(
    queue: seq<Response>,      // response_queue_: the front stays until its write has ended
    pendingReads: nat,         // header reads in flight
    handlers: seq<nat>,        // upload handlers in flight, by request
    pendingWrites: seq<bool>,  // writes in flight, each with the keep_alive of its response
    arrived: nat,              // history: requests read so far
    pushed: seq<Response>,     // history: responses given to queue_write
    written: seq<Response>)    // history: responses written out completely

  datatype Event =
    | ReadEnd                                  // end of stream: do_eof
    | ReadFail
    | HandOff                                  // upgrade, CONNECT or absolute target: the stream goes away
    | Refused                                  // the router cannot parse the target: do_eof
    | FileRequest(keepAlive: bool)             // FileRequestHandler answers at once
    | UploadRefused                            // FileUploadHandler cannot open its file: do_eof
    | UploadRequest                            // FileUploadHandler starts to read the body
    | UploadDone(i: nat, keepAlive: bool)
    | UploadFail(i: nat)
    | WriteDone(i: nat)
    | WriteFail(i: nat)

  // ----- the session's functions

  function DoRead(s: State): State {
    s.(pendingReads := s.pendingReads + 1)
  }

  function ContinueReadIfNeeded(s: State): State {
    if |s.queue| < QUEUE_LIMIT then DoRead(s) else s
  }

  function DoWrite(s: State): State {
    if s.queue != [] then s.(pendingWrites := s.pendingWrites + [s.queue[0].keepAlive]) else s
  }

  function QueueWrite(s: State, r: Response): State {
    var t := s.(queue := s.queue + [r], pushed := s.pushed + [r]);
    if |t.queue| == 1 then DoWrite(t) else t
  }

  /** on_write after a success. */
  function OnWritten(s: State, keepAlive: bool): State
    requires s.queue != []
  {
    var t := s.(written := s.written + [s.queue[0]]);
    if !keepAlive then t
    else
      var u := if |t.queue| >= QUEUE_LIMIT then DoRead(t) else t;
      DoWrite(u.(queue := u.queue[1..]))
  }

  predicate Reading(e: Event) {
    e.ReadEnd? || e.ReadFail? || e.HandOff? || e.Refused? || e.FileRequest? || e.UploadRefused? || e.UploadRequest?
  }

  predicate Enabled(s: State, e: Event) {
    match e
    case UploadDone(i, _) => i < |s.handlers|
    case UploadFail(i) => i < |s.handlers|
    case WriteDone(i) => i < |s.pendingWrites| && s.queue != []
    case WriteFail(i) => i < |s.pendingWrites|
    case _ => s.pendingReads > 0
  }

  function Next(s: State, e: Event): State
    requires Enabled(s, e)
  {
    match e
    case ReadEnd => s.(pendingReads := s.pendingReads - 1)
    case ReadFail => s.(pendingReads := s.pendingReads - 1)
    case HandOff => s.(pendingReads := s.pendingReads - 1, arrived := s.arrived + 1)
    case Refused => s.(pendingReads := s.pendingReads - 1, arrived := s.arrived + 1)
    case UploadRefused => s.(pendingReads := s.pendingReads - 1, arrived := s.arrived + 1)
    case FileRequest(keepAlive) =>
      QueueWrite(s.(pendingReads := s.pendingReads - 1, arrived := s.arrived + 1), Response(s.arrived, keepAlive))
    case UploadRequest =>
      s.(pendingReads := s.pendingReads - 1, arrived := s.arrived + 1, handlers := s.handlers + [s.arrived])
    case UploadDone(i, keepAlive) =>
      var t := s.(handlers := Without(s.handlers, i));
      ContinueReadIfNeeded(QueueWrite(t, Response(s.handlers[i], keepAlive)))
    case UploadFail(i) => s.(handlers := Without(s.handlers, i))
    case WriteDone(i) => OnWritten(s.(pendingWrites := Without(s.pendingWrites, i)), s.pendingWrites[i])
    case WriteFail(i) => s.(pendingWrites := Without(s.pendingWrites, i))
  }

  /** run() of a new session starts the first read. */
  const INIT: State := DoRead(State([], 0, [], [], 0, [], []))

  predicate IsRun(s: State, events: seq<Event>)
    decreases |events|, 0
  {
    events == [] ||
    (IsRun(s, events[..|events| - 1]) && Enabled(After(s, events[..|events| - 1]), events[|events| - 1]))
  }

  function After(s: State, events: seq<Event>): State
    requires IsRun(s, events)
    decreases |events|, 1
  {
    if events == [] then s else Next(After(s, events[..|events| - 1]), events[|events| - 1])
  }

  // ----- the invariant over all callbacks

  /** Back-pressure: one read or one handler at a time, and none while the queue is full. */
  ghost predicate PressureInv(s: State) {
    && s.pendingReads + |s.handlers| <= 1
    && |s.queue| <= QUEUE_LIMIT
    && (|s.queue| == QUEUE_LIMIT ==> s.pendingReads == 0 && s.handlers == [])
  }

  /** The write loop: at most one write, and always of the front of the queue. */
  ghost predicate WriteInv(s: State) {
    && |s.pendingWrites| <= 1
    && (s.pendingWrites != [] ==> s.queue != [] && s.pendingWrites[0] == s.queue[0].keepAlive)
  }

  /** The write loop has ended with its response still at the front of the queue. */
  predicate Stalled(s: State) {
    s.queue != [] && s.pendingWrites == []
  }

  /** Requests are answered in order. Only the last request may have no response queued: then its
      handler is active, or it was dropped and nothing more is read. */
  ghost predicate OrderInv(s: State) {
    && (forall i :: 0 <= i < |s.pushed| ==> s.pushed[i].request == i)
    && (s.arrived == |s.pushed| || s.arrived == |s.pushed| + 1)
    && (s.arrived == |s.pushed| ==> s.handlers == [])
    && (s.arrived == |s.pushed| + 1 ==>
          s.pendingReads == 0 && |s.queue| < QUEUE_LIMIT && (s.handlers == [] || s.handlers == [|s.pushed|]))
  }

  /** What has left the queue was written, in order; a stalled front may have been written. */
  ghost predicate HistoryInv(s: State) {
    && |s.queue| <= |s.pushed|
    && s.queue == s.pushed[|s.pushed| - |s.queue|..]
    && s.written <= s.pushed
    && (|s.written| == |s.pushed| - |s.queue|
        || (Stalled(s) && !s.queue[0].keepAlive && |s.written| == |s.pushed| - |s.queue| + 1))
  }

  ghost predicate Inv(s: State) {
    PressureInv(s) && WriteInv(s) && OrderInv(s) && HistoryInv(s)
  }

  lemma StepPressure(s: State, e: Event)
    requires PressureInv(s) && WriteInv(s) && Enabled(s, e)
    ensures PressureInv(Next(s, e)) && WriteInv(Next(s, e))
  {}

  /** The response to the oldest unanswered request is pushed. */
  lemma PushOrder(s: State, t: State)
    requires OrderInv(s) && |t.pushed| == |s.pushed| + 1 && s.pushed <= t.pushed
    requires t.pushed[|s.pushed|].request == |s.pushed|
    requires t.arrived == |t.pushed| && t.handlers == []
    ensures OrderInv(t)
  {}

  lemma FileOrder(s: State, keepAlive: bool)
    requires PressureInv(s) && OrderInv(s) && Enabled(s, FileRequest(keepAlive))
    ensures OrderInv(Next(s, FileRequest(keepAlive)))
  {
    PushOrder(s, Next(s, FileRequest(keepAlive)));
  }

  lemma UploadOrder(s: State, i: nat, keepAlive: bool)
    requires PressureInv(s) && OrderInv(s) && Enabled(s, UploadDone(i, keepAlive))
    ensures OrderInv(Next(s, UploadDone(i, keepAlive)))
  {
    PushOrder(s, Next(s, UploadDone(i, keepAlive)));
  }

  lemma OtherOrder(s: State, e: Event)
    requires PressureInv(s) && WriteInv(s) && OrderInv(s) && Enabled(s, e)
    requires !e.FileRequest? && !e.UploadDone?
    ensures OrderInv(Next(s, e))
  {
    assert Next(s, e).pushed == s.pushed;
  }

  lemma StepOrder(s: State, e: Event)
    requires PressureInv(s) && WriteInv(s) && OrderInv(s) && Enabled(s, e)
    ensures OrderInv(Next(s, e))
  {
    if e.FileRequest? {
      FileOrder(s, e.keepAlive);
    } else if e.UploadDone? {
      UploadOrder(s, e.i, e.keepAlive);
    } else {
      OtherOrder(s, e);
    }
  }

  lemma PushedTail(pushed: seq<Response>, queue: seq<Response>, r: Response)
    requires |queue| <= |pushed| && queue == pushed[|pushed| - |queue|..]
    ensures queue + [r] == (pushed + [r])[|pushed| - |queue|..]
  {}

  /** A response is appended; the rest of the history is as it was. */
  lemma PushHistory(s: State, u: State, r: Response)
    requires WriteInv(s) && HistoryInv(s)
    requires u.queue == s.queue + [r] && u.pushed == s.pushed + [r] && u.written == s.written
    requires Stalled(s) ==> u.pendingWrites == []
    ensures HistoryInv(u)
  {
    PushedTail(s.pushed, s.queue, r);
  }

  lemma FileHistory(s: State, keepAlive: bool)
    requires WriteInv(s) && HistoryInv(s) && Enabled(s, FileRequest(keepAlive))
    ensures HistoryInv(Next(s, FileRequest(keepAlive)))
  {
    PushHistory(s, Next(s, FileRequest(keepAlive)), Response(s.arrived, keepAlive));
  }

  lemma SilentHistory(s: State, e: Event)
    requires WriteInv(s) && HistoryInv(s) && Enabled(s, e)
    requires !e.FileRequest? && !e.UploadDone? && !e.WriteDone?
    ensures HistoryInv(Next(s, e))
  {
    var t := Next(s, e);
    assert t.queue == s.queue && t.pushed == s.pushed && t.written == s.written;
  }

  lemma UploadHistory(s: State, i: nat, keepAlive: bool)
    requires WriteInv(s) && HistoryInv(s) && Enabled(s, UploadDone(i, keepAlive))
    ensures HistoryInv(Next(s, UploadDone(i, keepAlive)))
  {
    PushHistory(s, Next(s, UploadDone(i, keepAlive)), Response(s.handlers[i], keepAlive));
  }

  lemma WrittenHistory(s: State, i: nat)
    requires WriteInv(s) && HistoryInv(s) && Enabled(s, WriteDone(i))
    ensures HistoryInv(Next(s, WriteDone(i)))
  {
    var k := |s.pushed| - |s.queue|;
    assert s.pushed[k] == s.queue[0] && s.written == s.pushed[..k];
    assert s.written + [s.queue[0]] == s.pushed[..k + 1];
    assert s.queue[1..] == s.pushed[k + 1..];
  }

  lemma StepHistory(s: State, e: Event)
    requires WriteInv(s) && HistoryInv(s) && Enabled(s, e)
    ensures HistoryInv(Next(s, e))
  {
    match e
    case FileRequest(keepAlive) => FileHistory(s, keepAlive);
    case UploadDone(i, keepAlive) => UploadHistory(s, i, keepAlive);
    case WriteDone(i) => WrittenHistory(s, i);
    case _ => SilentHistory(s, e);
  }

  /** Every completion, whatever its outcome, keeps the invariant. */
  lemma StepKeepsInv(s: State, e: Event)
    requires Inv(s) && Enabled(s, e)
    ensures Inv(Next(s, e))
  {
    StepPressure(s, e);
    StepOrder(s, e);
    StepHistory(s, e);
  }

  lemma {:induction false} RunKeepsInv(s: State, events: seq<Event>)
    requires Inv(s) && IsRun(s, events)
    ensures Inv(After(s, events))
    decreases |events|
  {
    if events != [] {
      RunKeepsInv(s, events[..|events| - 1]);
      StepKeepsInv(After(s, events[..|events| - 1]), events[|events| - 1]);
    }
  }

  // ----- main results

  /** In every run: at most one of a read and a handler is in flight, the queue never exceeds its
      limit, and a full queue holds back reading; also after a close or an error. */
  lemma BackPressure(events: seq<Event>)
    requires IsRun(INIT, events)
    ensures var s := After(INIT, events);
      && s.pendingReads + |s.handlers| <= 1
      && |s.queue| <= QUEUE_LIMIT == 8
      && (|s.queue| == QUEUE_LIMIT ==> s.pendingReads == 0 && s.handlers == [])
      && |s.pendingWrites| <= 1
  {
    RunKeepsInv(INIT, events);
  }

  /** The write loop ends with a queue exactly on an error or after a response without keep-alive. */
  lemma WhatStallsTheWriteLoop(s: State, e: Event)
    requires Inv(s) && Enabled(s, e) && !Stalled(s)
    ensures Stalled(Next(s, e)) <==> e.WriteFail? || (e.WriteDone? && !s.queue[0].keepAlive)
  {}

  lemma StaysStalled(s: State, e: Event)
    requires Inv(s) && Stalled(s) && Enabled(s, e)
    ensures Stalled(Next(s, e)) && Next(s, e).written == s.written
  {}

  /** From then on no response is written in any continuation. */
  lemma {:induction false} StalledForEver(s: State, events: seq<Event>)
    requires Inv(s) && Stalled(s) && IsRun(s, events)
    ensures Stalled(After(s, events)) && After(s, events).written == s.written
    decreases |events|
  {
    if events != [] {
      StalledForEver(s, events[..|events| - 1]);
      RunKeepsInv(s, events[..|events| - 1]);
      StaysStalled(After(s, events[..|events| - 1]), events[|events| - 1]);
    }
  }

  /** A write error, or the success of a response that closes the connection. */
  predicate EndsWriting(s: State, e: Event) {
    e.WriteFail? || (e.WriteDone? && s.queue != [] && !s.queue[0].keepAlive)
  }

  /** No such thing has happened so far. */
  predicate Live(s: State, events: seq<Event>)
    requires IsRun(s, events)
    decreases |events|
  {
    events == [] ||
    (Live(s, events[..|events| - 1]) && !EndsWriting(After(s, events[..|events| - 1]), events[|events| - 1]))
  }

  /** The write loop is stalled exactly if something in the past of the run has ended it; until then
      the queue is non-empty exactly while its front is being written. */
  lemma {:induction false} LiveExactly(s: State, events: seq<Event>)
    requires Inv(s) && !Stalled(s) && IsRun(s, events)
    ensures Live(s, events) <==> !Stalled(After(s, events))
    ensures Live(s, events) ==> (After(s, events).queue != [] <==> |After(s, events).pendingWrites| == 1)
    decreases |events|
  {
    if events != [] {
      var before, last := events[..|events| - 1], events[|events| - 1];
      LiveExactly(s, before);
      RunKeepsInv(s, before);
      if Live(s, before) {
        WhatStallsTheWriteLoop(After(s, before), last);
      } else {
        StaysStalled(After(s, before), last);
      }
    }
    RunKeepsInv(s, events);
  }

  lemma WrittenInOrder(s: State)
    requires Inv(s)
    ensures s.written <= s.pushed && forall i :: 0 <= i < |s.written| ==> s.written[i].request == i
    ensures |s.pendingWrites| == 1 ==> |s.written| < |s.pushed| && s.queue == s.pushed[|s.written|..]
  {
    assert forall i :: 0 <= i < |s.written| ==> s.written[i] == s.pushed[i];
  }

  /** In every run the i-th response written is the response to the i-th request: responses leave
      in the order of the requests, with no gap and none twice. Until a write fails or a response
      closes the connection, the write loop writes whenever there is something to write. */
  lemma ResponsesInRequestOrder(events: seq<Event>)
    requires IsRun(INIT, events)
    ensures var s := After(INIT, events);
      && s.written <= s.pushed && |s.pushed| <= s.arrived
      && (forall i :: 0 <= i < |s.written| ==> s.written[i].request == i)
      && (Live(INIT, events) ==> (s.queue != [] <==> |s.pendingWrites| == 1))
      && (|s.pendingWrites| == 1 ==> |s.written| < |s.pushed| && s.queue == s.pushed[|s.written|..])
  {
    RunKeepsInv(INIT, events);
    LiveExactly(INIT, events);
    WrittenInOrder(After(INIT, events));
  }
}
