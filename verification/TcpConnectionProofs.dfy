// The invariant of the proxy connection and what follows for its runs.
module TcpConnectionProofs {
  import opened Basics
  import opened RequestRewriter
  import opened RewriterMeaning
  import opened TcpConnectionMachine
  import R = Relay

  // ----- every step keeps the invariant

  lemma DownStep(s: State, d: R.Event)
    requires DownInv(s) && Enabled(s, Down(d))
    ensures DownInv(Next(s, Down(d)))
  {
    R.StepKeepsInv(s.down, d);
    assert !s.connecting;
  }

  lemma DownStarts(s: State)
    requires DownInv(s) && Enabled(s, Connected)
    ensures DownInv(Next(s, Connected))
  {}

  lemma DownKept(s: State, e: Event)
    requires Enabled(s, e) && !e.Down? && !e.Connected?
    ensures Next(s, e).down == s.down && (Next(s, e).connecting ==> s.connecting)
  {}

  lemma StepDown(s: State, e: Event)
    requires DownInv(s) && Enabled(s, e)
    ensures DownInv(Next(s, e))
  {
    if e.Down? {
      DownStep(s, e.e);
    } else if e.Connected? {
      DownStarts(s);
    } else {
      DownKept(s, e);
    }
  }

  lemma OpsBytes(s: State, bytes: string)
    requires Ops(s) && Enabled(s, ClientBytes(bytes))
    ensures Ops(Next(s, ClientBytes(bytes)))
  {
    R.FilledFront(s.dataClient, bytes);
  }

  lemma OpsWritten(s: State, e: Event)
    requires Ops(s) && Enabled(s, e) && (e.DataWritten? || e.DataFail? || e.RequestWritten? || e.RequestFail?)
    ensures Ops(Next(s, e))
  {}

  lemma OpsTake(s: State, e: Event)
    requires Ops(s) && Enabled(s, e) && (e.TakeData? || e.TakeRequest?)
    ensures Ops(Next(s, e))
  {}

  lemma OpsEnd(s: State, e: Event)
    requires Ops(s) && Enabled(s, e) && (e.Connected? || e.ConnectFail? || e.ClientEnd?)
    ensures Ops(Next(s, e))
  {}

  lemma OpsDown(s: State, d: R.Event)
    requires Ops(s) && Enabled(s, Down(d))
    ensures Ops(Next(s, Down(d)))
  {
    assert Ops(s.(down := R.Next(s.down, d)));
  }

  lemma StepOps(s: State, e: Event)
    requires Ops(s) && Enabled(s, e)
    ensures Ops(Next(s, e))
  {
    if e.ClientBytes? {
      OpsBytes(s, e.bytes);
    } else if e.TakeData? || e.TakeRequest? {
      OpsTake(s, e);
    } else if e.Down? {
      OpsDown(s, e.e);
    } else if e.Connected? || e.ConnectFail? || e.ClientEnd? {
      OpsEnd(s, e);
    } else {
      OpsWritten(s, e);
    }
  }

  lemma PlainBytes(s: State, bytes: string)
    requires Ops(s) && PlainInv(s) && !s.debugMode && Enabled(s, ClientBytes(bytes)) && Ops(Next(s, ClientBytes(bytes)))
    ensures PlainInv(Next(s, ClientBytes(bytes)))
  {
    R.FilledFront(s.dataClient, bytes);
    R.WholeRest(R.Filled(s.dataClient, bytes), |bytes|);
  }

  lemma PlainTake(s: State, i: nat, n: nat)
    requires Ops(s) && PlainInv(s) && Enabled(s, TakeData(i, n)) && Ops(Next(s, TakeData(i, n)))
    ensures PlainInv(Next(s, TakeData(i, n)))
  {
    R.TakenMoves(s.forwarded, s.dataClient, s.dataWrites[i], n);
  }

  lemma PlainWritten(s: State, i: nat)
    requires Ops(s) && PlainInv(s) && Enabled(s, DataWritten(i)) && Ops(Next(s, DataWritten(i)))
    ensures PlainInv(Next(s, DataWritten(i)))
  {
    R.WholeRest(s.dataClient, s.dataWrites[i].length);
  }

  lemma PlainOther(s: State, e: Event)
    requires Ops(s) && PlainInv(s) && Enabled(s, e) && Ops(Next(s, e))
    requires !e.ClientBytes? && !e.TakeData? && !e.DataWritten?
    ensures PlainInv(Next(s, e))
  {}

  lemma StepPlain(s: State, e: Event)
    requires Ops(s) && PlainInv(s) && !s.debugMode && Enabled(s, e) && Ops(Next(s, e))
    ensures PlainInv(Next(s, e))
  {
    if e.ClientBytes? {
      PlainBytes(s, e.bytes);
    } else if e.TakeData? {
      PlainTake(s, e.i, e.n);
    } else if e.DataWritten? {
      PlainWritten(s, e.i);
    } else {
      PlainOther(s, e);
    }
  }

  lemma NothingIsIncomplete()
    ensures !HasCompleteHttpRequest("")
  {}

  lemma CompleteIsNotEmpty(s: string)
    requires HasCompleteHttpRequest(s)
    ensures s != ""
  {}

  lemma Append(batches: seq<Batch>, b: Batch)
    ensures Received(batches + [b]) == Received(batches) + b.Bytes()
    ensures Rewritten(batches + [b]) == Rewritten(batches) + Rewrite(b.Bytes())
  {
    assert (batches + [b])[..|batches|] == batches;
  }

  /** A read in debug mode: the request goes on or is completed, rewritten and sent. */
  lemma DebugBytes(s: State, bytes: string)
    requires Ops(s) && s.debugMode && Enabled(s, ClientBytes(bytes))
    ensures var t, request := Next(s, ClientBytes(bytes)), s.requestBuffer + bytes;
      && t.received == s.received + bytes && t.forwarded == s.forwarded
      && t.dataWrites == s.dataWrites && t.failedData == s.failedData && t.failedRequest == []
      && (if HasCompleteHttpRequest(request) then
            t.batches == s.batches + [Batch(s.requestBuffer, bytes)]
            && t.requestBuffer == Rewrite(request) && t.requestWrites == [R.Write(|t.requestBuffer|, 0)]
          else
            t.batches == s.batches && t.requestBuffer == request && t.requestWrites == [])
  {
    R.FilledFront(s.dataClient, bytes);
    if HasCompleteHttpRequest(s.requestBuffer + bytes) {
      CompleteIsNotEmpty(s.requestBuffer + bytes);
      RewriteIsComplete(s.requestBuffer + bytes);
    }
  }

  lemma BatchBytes(s: State, bytes: string)
    requires Ops(s) && BatchInv(s) && s.debugMode && Enabled(s, ClientBytes(bytes))
    ensures BatchInv(Next(s, ClientBytes(bytes)))
  {
    DebugBytes(s, bytes);
    NothingIsIncomplete();
    Regroup(Received(s.batches), s.requestBuffer, bytes);
    Append(s.batches, Batch(s.requestBuffer, bytes));
  }

  lemma OnlyReadsReceive(s: State, e: Event)
    requires Enabled(s, e) && !e.ClientBytes?
    ensures Next(s, e).received == s.received
  {}

  lemma SentIsNotCollected(s: State, e: Event)
    requires Ops(s) && Enabled(s, e) && (e.TakeRequest? || e.RequestWritten? || e.RequestFail?)
    ensures Next(s, e).batches == s.batches && Collected(Next(s, e)) == Collected(s) == ""
  {}

  lemma SameBatches(s: State, e: Event)
    requires Ops(s) && Enabled(s, e) && !e.ClientBytes?
    ensures Next(s, e).batches == s.batches && Collected(Next(s, e)) == Collected(s)
  {
    if e.TakeRequest? || e.RequestWritten? || e.RequestFail? {
      SentIsNotCollected(s, e);
    }
  }

  lemma KeptBatches(s: State, t: State)
    requires BatchInv(s) && t.received == s.received && t.batches == s.batches && Collected(t) == Collected(s)
    ensures BatchInv(t)
  {}

  lemma StepBatches(s: State, e: Event)
    requires Ops(s) && BatchInv(s) && s.debugMode && Enabled(s, e)
    ensures BatchInv(Next(s, e))
  {
    if e.ClientBytes? {
      BatchBytes(s, e.bytes);
    } else {
      OnlyReadsReceive(s, e);
      SameBatches(s, e);
      KeptBatches(s, Next(s, e));
    }
  }

  lemma ForwardBytes(s: State, bytes: string)
    requires Ops(s) && ForwardInv(s) && s.debugMode && Enabled(s, ClientBytes(bytes))
    requires Ops(Next(s, ClientBytes(bytes)))
    ensures ForwardInv(Next(s, ClientBytes(bytes)))
  {
    DebugBytes(s, bytes);
    var t := Next(s, ClientBytes(bytes));
    assert s.forwarded + "" == s.forwarded == Rewritten(s.batches);
    if HasCompleteHttpRequest(s.requestBuffer + bytes) {
      Append(s.batches, Batch(s.requestBuffer, bytes));
      R.WholeRest(t.requestBuffer, |t.requestBuffer|);
      assert Unsent(t) == t.requestBuffer;
    } else {
      assert Unsent(t) == "";
    }
  }

  lemma ForwardTake(s: State, i: nat, n: nat)
    requires Ops(s) && ForwardInv(s) && Enabled(s, TakeRequest(i, n)) && Ops(Next(s, TakeRequest(i, n)))
    ensures ForwardInv(Next(s, TakeRequest(i, n)))
  {
    R.TakenMoves(s.forwarded, s.requestBuffer, s.requestWrites[i], n);
  }

  lemma ForwardWritten(s: State, i: nat)
    requires Ops(s) && ForwardInv(s) && Enabled(s, RequestWritten(i)) && Ops(Next(s, RequestWritten(i)))
    ensures ForwardInv(Next(s, RequestWritten(i)))
  {
    R.WholeRest(s.requestBuffer, s.requestWrites[i].length);
  }

  lemma ForwardFailed(s: State, i: nat)
    requires Ops(s) && ForwardInv(s) && Enabled(s, RequestFail(i)) && Ops(Next(s, RequestFail(i)))
    ensures ForwardInv(Next(s, RequestFail(i)))
  {
    var t := Next(s, RequestFail(i));
    assert t.failedRequest == [s.requestWrites[0]];
    assert Unsent(t) == Unsent(s);
  }

  /** What the client's loop has in flight and has sent is the same. */
  predicate SameClientSide(s: State, t: State) {
    && t.dataWrites == s.dataWrites && t.failedData == s.failedData && t.requestBuffer == s.requestBuffer
    && t.requestWrites == s.requestWrites && t.failedRequest == s.failedRequest
    && t.forwarded == s.forwarded && t.batches == s.batches
  }

  lemma SameForward(s: State, t: State)
    requires Ops(s) && ForwardInv(s) && Ops(t) && SameClientSide(s, t)
    ensures ForwardInv(t)
  {}

  lemma OtherSide(s: State, e: Event)
    requires Enabled(s, e) && (e.Connected? || e.ConnectFail? || e.ClientEnd? || e.Down?)
    ensures SameClientSide(s, Next(s, e))
  {}

  lemma NoData(s: State, e: Event)
    requires Ops(s) && ForwardInv(s) && Enabled(s, e)
    ensures !e.TakeData? && !e.DataWritten? && !e.DataFail?
  {}

  lemma StepForward(s: State, e: Event)
    requires Ops(s) && ForwardInv(s) && s.debugMode && Enabled(s, e) && Ops(Next(s, e))
    ensures ForwardInv(Next(s, e))
  {
    if e.ClientBytes? {
      ForwardBytes(s, e.bytes);
    } else if e.TakeRequest? {
      ForwardTake(s, e.i, e.n);
    } else if e.RequestWritten? {
      ForwardWritten(s, e.i);
    } else if e.RequestFail? {
      ForwardFailed(s, e.i);
    } else {
      NoData(s, e);
      OtherSide(s, e);
      SameForward(s, Next(s, e));
    }
  }

  lemma ModeIsKept(s: State, e: Event)
    requires Enabled(s, e)
    ensures Next(s, e).debugMode == s.debugMode
  {}

  lemma StepKeepsInv(s: State, e: Event)
    requires Inv(s) && Enabled(s, e)
    ensures Inv(Next(s, e)) && Next(s, e).debugMode == s.debugMode
  {
    ModeIsKept(s, e);
    StepOps(s, e);
    StepDown(s, e);
    if s.debugMode {
      StepBatches(s, e);
      StepForward(s, e);
    } else {
      StepPlain(s, e);
    }
  }

  lemma StartInv(debugMode: bool, client: string, proxy: string)
    ensures Inv(Start(debugMode, client, proxy))
  {
    NothingIsIncomplete();
  }

  lemma {:induction false} RunKeepsInv(s: State, events: seq<Event>)
    requires Inv(s) && IsRun(s, events)
    ensures Inv(After(s, events)) && After(s, events).debugMode == s.debugMode
    decreases |events|
  {
    if events != [] {
      RunKeepsInv(s, events[..|events| - 1]);
      StepKeepsInv(After(s, events[..|events| - 1]), events[|events| - 1]);
    }
  }

  /** The state after some run of a new connection with buffers of 4096 bytes. */
  ghost predicate Reached(s: State, debugMode: bool) {
    exists client, proxy, events ::
      |client| == R.MAX_LENGTH && |proxy| == R.MAX_LENGTH
      && IsRun(Start(debugMode, client, proxy), events) && s == After(Start(debugMode, client, proxy), events)
  }

  lemma ReachedInv(s: State, debugMode: bool)
    requires Reached(s, debugMode)
    ensures Inv(s) && s.debugMode == debugMode
  {
    var client, proxy, events :|
      |client| == R.MAX_LENGTH && |proxy| == R.MAX_LENGTH
      && IsRun(Start(debugMode, client, proxy), events) && s == After(Start(debugMode, client, proxy), events);
    StartInv(debugMode, client, proxy);
    RunKeepsInv(Start(debugMode, client, proxy), events);
  }

  // ----- main results

  /** Conservation without debug mode, under every interleaving of the two loops, partial writes and
      teardown: in each direction the bytes sent and the unsent part of the buffer are the bytes
      received; a buffer is not read into while a write takes bytes from it. */
  lemma PlainConservation(s: State)
    requires Reached(s, false)
    ensures Ops(s) && s.forwarded + Unsent(s) == s.received
    ensures R.Ops(s.down) && s.down.sent + R.Unsent(s.down) == s.down.received
    ensures s.dataWrites != [] ==> s.clientReads == 0
    ensures s.down.pendingWrites != [] ==> s.down.pendingReads == 0
  {
    ReachedInv(s, false);
  }

  /** Conservation in debug mode: the client's bytes are the batches and what is being collected.
      Each batch holds the end of a header and would not without its last chunk, what is being
      collected holds none, and the proxy gets the rewritten batches in order. */
  lemma DebugConservation(s: State)
    requires Reached(s, true)
    ensures s.received == Received(s.batches) + Collected(s)
    ensures forall b :: b in s.batches ==>
      (forall k :: !HeaderEndAt(b.before, k)) && exists k :: HeaderEndAt(b.before + b.chunk, k)
    ensures forall k :: !HeaderEndAt(Collected(s), k)
    ensures Ops(s) && s.forwarded + Unsent(s) == Rewritten(s.batches)
    ensures s.forwarded <= Rewritten(s.batches)
    ensures s.headerState.ReadingHeaders?
  {
    ReachedInv(s, true);
    forall b | b in s.batches
      ensures (forall k :: !HeaderEndAt(b.before, k)) && exists k :: HeaderEndAt(b.before + b.chunk, k)
    {
      assert JustComplete(b);
      CompleteExactly(b.before);
      CompleteExactly(b.before + b.chunk);
    }
    CompleteExactly(Collected(s));
  }

  function ClientOps(s: State): nat {
    (if s.connecting then 1 else 0) + s.clientReads + |s.dataWrites| + |s.requestWrites|
  }

  ghost predicate BothLoopsRun(s: State) {
    ClientOps(s) == 1 && (s.connecting || R.HasOneOp(s.down))
  }

  lemma BytesRun(s: State, bytes: string)
    requires Ops(s) && ClientOps(s) == 1 && Enabled(s, ClientBytes(bytes))
    ensures ClientOps(Next(s, ClientBytes(bytes))) == 1
  {
    R.FilledFront(s.dataClient, bytes);
  }

  lemma ClientRuns(s: State, e: Event)
    requires Ops(s) && ClientOps(s) == 1 && Enabled(s, e) && Next(s, e).open
    ensures ClientOps(Next(s, e)) == 1
  {
    if e.ClientBytes? {
      BytesRun(s, e.bytes);
    }
  }

  lemma DownRuns(s: State, e: Event)
    requires DownInv(s) && Enabled(s, e) && Next(s, e).open
    requires s.connecting || R.HasOneOp(s.down)
    ensures Next(s, e).connecting || R.HasOneOp(Next(s, e).down)
  {
    match e
    case Down(d) =>
      assert !d.ReadEnd? && !d.WriteFail?;
      if !s.connecting {
        R.GoesOnUntilItEnds(s.down, d);
      }
    case _ =>
  }

  lemma StaysClosed(s: State, e: Event)
    requires Enabled(s, e) && Next(s, e).open
    ensures s.open
  {}

  lemma StepRuns(s: State, e: Event)
    requires Inv(s) && (s.open ==> BothLoopsRun(s)) && Enabled(s, e)
    ensures Next(s, e).open ==> BothLoopsRun(Next(s, e))
  {
    if Next(s, e).open {
      StaysClosed(s, e);
      ClientRuns(s, e);
      DownRuns(s, e);
    }
  }

  lemma {:induction false} LoopsRun(s: State, events: seq<Event>)
    requires Inv(s) && BothLoopsRun(s) && IsRun(s, events)
    ensures After(s, events).open ==> BothLoopsRun(After(s, events))
    decreases |events|
  {
    if events != [] {
      LoopsRun(s, events[..|events| - 1]);
      RunKeepsInv(s, events[..|events| - 1]);
      StepRuns(After(s, events[..|events| - 1]), events[|events| - 1]);
    }
  }

  /** Neither loop stalls: until the teardown each has exactly one operation in flight, in both
      modes and whatever the lengths of the reads. */
  lemma LoopsNeverStall(s: State, debugMode: bool)
    requires Reached(s, debugMode) && s.open
    ensures BothLoopsRun(s)
  {
    var client, proxy, events :|
      |client| == R.MAX_LENGTH && |proxy| == R.MAX_LENGTH
      && IsRun(Start(debugMode, client, proxy), events) && s == After(Start(debugMode, client, proxy), events);
    StartInv(debugMode, client, proxy);
    LoopsRun(Start(debugMode, client, proxy), events);
  }

  /** The client's loop has ended. */
  predicate ClientLoopEnded(s: State) {
    !s.connecting && s.clientReads == 0 && s.dataWrites == [] && s.requestWrites == []
  }

  lemma {:induction false} EndedForEver(s: State, events: seq<Event>)
    requires ClientLoopEnded(s) && IsRun(s, events)
    ensures var t := After(s, events);
      ClientLoopEnded(t) && t.forwarded == s.forwarded && t.received == s.received
      && t.batches == s.batches && t.requestBuffer == s.requestBuffer
    decreases |events|
  {
    if events != [] {
      EndedForEver(s, events[..|events| - 1]);
    }
  }

  lemma DownEndedStep(s: State, e: Event)
    requires !s.connecting && s.down.pendingReads == 0 && s.down.pendingWrites == [] && Enabled(s, e)
    ensures Next(s, e).down == s.down && !Next(s, e).connecting
  {}

  lemma {:induction false} DownEndedForEver(s: State, events: seq<Event>)
    requires !s.connecting && s.down.pendingReads == 0 && s.down.pendingWrites == [] && IsRun(s, events)
    ensures After(s, events).down == s.down && !After(s, events).connecting
    decreases |events|
  {
    if events != [] {
      DownEndedForEver(s, events[..|events| - 1]);
      DownEndedStep(After(s, events[..|events| - 1]), events[|events| - 1]);
    }
  }

  /** When a peer's stream ends, whether or not it is what ends the connection, everything read
      from this peer has been written onward, and nothing changes that afterwards. */
  lemma EndOfStreamDelivers(s: State, e: Event, more: seq<Event>)
    requires Reached(s, false) && Enabled(s, e) && (e == ClientEnd || e == Down(R.ReadEnd))
    requires IsRun(Next(s, e), more)
    ensures var t := After(Next(s, e), more);
      && (e == ClientEnd ==> t.forwarded == t.received == s.received)
      && (e == Down(R.ReadEnd) ==> t.down.sent == t.down.received == s.down.received)
  {
    ReachedInv(s, false);
    StepKeepsInv(s, e);
    var u := Next(s, e);
    if e == ClientEnd {
      EndedForEver(u, more);
      assert s.forwarded + "" == s.received;
    } else {
      DownEndedForEver(u, more);
      assert s.down.sent + "" == s.down.received;
    }
  }

  // ----- the requests that the client's chunks make up

  /** What the client's reads have delivered, chunk by chunk. */
  function Chunks(events: seq<Event>): seq<string> {
    if events == [] then []
    else
      var last := events[|events| - 1];
      Chunks(events[..|events| - 1]) + if last.ClientBytes? then [last.bytes] else []
  }

  /** The chunks since the last request was complete. */
  function Unfinished(chunks: seq<string>): string {
    if chunks == [] then ""
    else
      var request := Unfinished(chunks[..|chunks| - 1]) + chunks[|chunks| - 1];
      if HasCompleteHttpRequest(request) then "" else request
  }

  /** The requests, each closed by the chunk that completes it. */
  function Requests(chunks: seq<string>): seq<Batch> {
    if chunks == [] then []
    else
      var before, last := chunks[..|chunks| - 1], chunks[|chunks| - 1];
      Requests(before) +
      if HasCompleteHttpRequest(Unfinished(before) + last) then [Batch(Unfinished(before), last)] else []
  }

  /** No byte has come after the chunk that completed the last request. */
  predicate EndsWithRequest(chunks: seq<string>) {
    chunks == [] ||
    var before, last := chunks[..|chunks| - 1], chunks[|chunks| - 1];
    HasCompleteHttpRequest(Unfinished(before) + last) || (last == "" && EndsWithRequest(before))
  }

  lemma {:induction false} NothingUnfinished(chunks: seq<string>)
    ensures Unfinished(chunks) == "" <==> EndsWithRequest(chunks)
  {
    if chunks != [] {
      NothingUnfinished(chunks[..|chunks| - 1]);
    }
  }

  lemma ChunkArrives(t: State, chunks: seq<string>, bytes: string)
    requires Ops(t) && t.debugMode && Enabled(t, ClientBytes(bytes))
    requires t.batches == Requests(chunks) && Collected(t) == Unfinished(chunks)
    ensures var u := Next(t, ClientBytes(bytes));
      u.batches == Requests(chunks + [bytes]) && Collected(u) == Unfinished(chunks + [bytes])
  {
    assert (chunks + [bytes])[..|chunks|] == chunks;
    assert Requests(chunks) + [] == Requests(chunks);
    DebugBytes(t, bytes);
  }

  /** In debug mode the chunks alone decide about the batches: not the writes in between, nor the
      other loop. */
  lemma {:induction false} BatchesAreRequests(s: State, events: seq<Event>)
    requires Inv(s) && s.debugMode && IsRun(s, events) && s.batches == [] && Collected(s) == ""
    ensures var t := After(s, events);
      t.batches == Requests(Chunks(events)) && Collected(t) == Unfinished(Chunks(events))
    decreases |events|
  {
    if events != [] {
      var before, last := events[..|events| - 1], events[|events| - 1];
      BatchesAreRequests(s, before);
      RunKeepsInv(s, before);
      var t := After(s, before);
      if last.ClientBytes? {
        ChunkArrives(t, Chunks(before), last.bytes);
      } else {
        SameBatches(t, last);
        assert Chunks(before) + [] == Chunks(before);
      }
    }
  }

  /** In debug mode the end of the client's stream loses what is being collected, and nothing else:
      the proxy gets the rewritten form of each request that the chunks completed, and that is every
      byte of the client if and only if none came after the chunk that completed the last one. */
  lemma EndOfStreamInDebugMode(client: string, proxy: string, events: seq<Event>, more: seq<Event>)
    requires |client| == R.MAX_LENGTH && |proxy| == R.MAX_LENGTH
    requires IsRun(Start(true, client, proxy), events)
    requires Enabled(After(Start(true, client, proxy), events), ClientEnd)
    requires IsRun(Next(After(Start(true, client, proxy), events), ClientEnd), more)
    ensures var t := After(Next(After(Start(true, client, proxy), events), ClientEnd), more);
      var chunks := Chunks(events);
      && t.batches == Requests(chunks) && t.forwarded == Rewritten(Requests(chunks))
      && t.received == Received(Requests(chunks)) + Unfinished(chunks)
      && (t.received == Received(Requests(chunks)) <==> EndsWithRequest(chunks))
  {
    var s0 := Start(true, client, proxy);
    var s := After(s0, events);
    StartInv(true, client, proxy);
    RunKeepsInv(s0, events);
    BatchesAreRequests(s0, events);
    NothingUnfinished(Chunks(events));
    EndedForEver(Next(s, ClientEnd), more);
    assert s.forwarded + "" == Rewritten(s.batches);
    assert |s.received| == |Received(s.batches)| + |Unfinished(Chunks(events))|;
  }

  lemma OneRead(client: string, proxy: string)
    ensures IsRun(Start(true, client, proxy), [Connected])
    ensures After(Start(true, client, proxy), [Connected])
         == Start(true, client, proxy).(connecting := false, clientReads := 1, down := R.DoRead(R.Idle(proxy)))
  {
    assert [Connected][..0] == [];
  }

  const ONE_LETTER: seq<Event> := [Connected] + [ClientBytes("G")]

  /** So a client that sends one letter and ends its stream: the letter reaches nobody. */
  lemma OneLetterIsLost(client: string, proxy: string)
    requires |client| == R.MAX_LENGTH && |proxy| == R.MAX_LENGTH
    ensures IsRun(Start(true, client, proxy), ONE_LETTER)
    ensures var s := After(Start(true, client, proxy), ONE_LETTER);
      && s.requestBuffer == "G" && Enabled(s, ClientEnd)
      && Next(s, ClientEnd).received == "G" && Next(s, ClientEnd).forwarded == ""
    ensures !EndsWithRequest(Chunks(ONE_LETTER))
  {
    OneRead(client, proxy);
    assert ONE_LETTER[..1] == [Connected];
    assert "" + "G" == "G" && !HasCompleteHttpRequest("G");
    DebugBytes(After(Start(true, client, proxy), [Connected]), "G");
    assert Chunks([Connected]) == [];
    NothingUnfinished(Chunks(ONE_LETTER));
  }

  lemma ClosedStep(s: State, e: Event)
    requires !s.open && Enabled(s, e)
    ensures var t := Next(s, e); !t.open && t.forwarded == s.forwarded && t.down.sent == s.down.sent
  {}

  /** After the teardown neither peer gets another byte. */
  lemma {:induction false} ClosedForEver(s: State, events: seq<Event>)
    requires !s.open && IsRun(s, events)
    ensures var t := After(s, events);
      !t.open && t.forwarded == s.forwarded && t.down.sent == s.down.sent
    decreases |events|
  {
    if events != [] {
      ClosedForEver(s, events[..|events| - 1]);
      ClosedStep(After(s, events[..|events| - 1]), events[|events| - 1]);
    }
  }
}
