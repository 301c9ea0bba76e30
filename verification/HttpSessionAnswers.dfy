// What a session answers, told from the events alone: which requests were read, which response each
// of them got, how many were written, and when the connection is closed.
module HttpSessionAnswers {
  import opened HttpSessionMachine
  import opened HttpSessionReading

  /** Every header that was read and parsed is a request. */
  predicate IsRequest(e: Event) {
    e.HandOff? || e.Refused? || e.FileRequest? || e.UploadRefused? || e.UploadRequest?
  }

  function CountRequests(events: seq<Event>): nat {
    if events == [] then 0
    else CountRequests(events[..|events| - 1]) + if IsRequest(events[|events| - 1]) then 1 else 0
  }

  /** A handler has its answer: whether the connection is to be kept after it. */
  function AnswerOf(e: Event): seq<bool> {
    match e
    case FileRequest(keepAlive) => [keepAlive]
    case UploadDone(_, keepAlive) => [keepAlive]
    case _ => []
  }

  function Answers(events: seq<Event>): seq<bool> {
    if events == [] then [] else Answers(events[..|events| - 1]) + AnswerOf(events[|events| - 1])
  }

  /** The i-th answer as the response to the i-th request. */
  function Responses(answers: seq<bool>): seq<Response> {
    seq(|answers|, i requires 0 <= i < |answers| => Response(i, answers[i]))
  }

  lemma NextResponse(answers: seq<bool>, keepAlive: bool)
    ensures Responses(answers + [keepAlive]) == Responses(answers) + [Response(|answers|, keepAlive)]
  {}

  ghost predicate Agrees(s: State, events: seq<Event>) {
    && s.pushed == Responses(Answers(events))
    && s.arrived == CountRequests(events)
    && |s.written| == CountWritten(events)
  }

  lemma StepAnswers(s: State, e: Event)
    requires OrderInv(s) && Enabled(s, e)
    ensures Next(s, e).pushed
         == s.pushed + (if AnswerOf(e) == [] then [] else [Response(|s.pushed|, AnswerOf(e)[0])])
    ensures Next(s, e).arrived == s.arrived + if IsRequest(e) then 1 else 0
    ensures |Next(s, e).written| == |s.written| + if e.WriteDone? then 1 else 0
  {}

  lemma {:induction false} RunAnswers(events: seq<Event>)
    requires IsRun(INIT, events)
    ensures Agrees(After(INIT, events), events)
    decreases |events|
  {
    if events != [] {
      var before, last := events[..|events| - 1], events[|events| - 1];
      RunAnswers(before);
      RunKeepsInv(INIT, before);
      StepAnswers(After(INIT, before), last);
      if AnswerOf(last) == [] {
        assert Answers(before) + [] == Answers(before);
      } else {
        NextResponse(Answers(before), AnswerOf(last)[0]);
        assert AnswerOf(last) == [AnswerOf(last)[0]];
      }
    }
  }

  lemma FrontOf(written: seq<Response>, pushed: seq<Response>, n: nat)
    requires written <= pushed && |written| == n
    ensures n <= |pushed| && written == pushed[..n]
  {}

  lemma AnsweredRequests(s: State)
    requires Inv(s)
    ensures s.written <= s.pushed && |s.pushed| <= s.arrived
  {}

  /** In every run the responses queued so far are, in order, the answers of the handlers, and those
      written are the first of them, one for each success. */
  lemma WrittenAreTheAnswers(events: seq<Event>)
    requires IsRun(INIT, events)
    ensures var s := After(INIT, events);
      && s.pushed == Responses(Answers(events))
      && CountWritten(events) <= |Answers(events)| <= CountRequests(events) == s.arrived
      && s.written == Responses(Answers(events))[..CountWritten(events)]
  {
    RunAnswers(events);
    RunKeepsInv(INIT, events);
    var s := After(INIT, events);
    AnsweredRequests(s);
    FrontOf(s.written, Responses(Answers(events)), CountWritten(events));
  }

  // ----- when the connection is closed

  /** A write has failed, or the answer just written was not to keep the connection. */
  predicate Ended(events: seq<Event>) {
    events != [] &&
    var before, last := events[..|events| - 1], events[|events| - 1];
    || Ended(before)
    || last.WriteFail?
    || (last.WriteDone? && CountWritten(before) < |Answers(before)| && !Answers(before)[CountWritten(before)])
  }

  /** The front of the queue is the next answer to be written. */
  lemma FrontIsNextAnswer(events: seq<Event>)
    requires IsRun(INIT, events) && !Stalled(After(INIT, events)) && After(INIT, events).queue != []
    ensures CountWritten(events) < |Answers(events)|
    ensures After(INIT, events).queue[0].keepAlive == Answers(events)[CountWritten(events)]
  {
    RunAnswers(events);
    RunKeepsInv(INIT, events);
  }

  /** The events decide: the write loop has ended with its response at the front of the queue exactly if
      a write has failed or an answer that closes the connection has been written. */
  lemma {:induction false} ClosedExactly(events: seq<Event>)
    requires IsRun(INIT, events)
    ensures Stalled(After(INIT, events)) <==> Ended(events)
    decreases |events|
  {
    if events != [] {
      var before, last := events[..|events| - 1], events[|events| - 1];
      var s := After(INIT, before);
      ClosedExactly(before);
      RunKeepsInv(INIT, before);
      if Stalled(s) {
        StaysStalled(s, last);
      } else {
        WhatStallsTheWriteLoop(s, last);
        if last.WriteDone? {
          FrontIsNextAnswer(before);
        }
      }
    }
  }

  // ----- the outside world decides

  /** A read in flight may end in any way; so may a handler; and so may a write. */
  lemma AnyOutcome(s: State, i: nat, keepAlive: bool)
    requires Inv(s)
    ensures forall e :: Reading(e) ==> (Enabled(s, e) <==> s.pendingReads == 1)
    ensures Enabled(s, UploadDone(i, keepAlive)) <==> i < |s.handlers|
    ensures Enabled(s, UploadFail(i)) <==> i < |s.handlers|
    ensures Enabled(s, WriteDone(i)) <==> i < |s.pendingWrites|
    ensures Enabled(s, WriteFail(i)) <==> i < |s.pendingWrites|
  {}
}
