// The proxy connection told from its events alone: when it is torn down, and how many bytes of what
// each peer has got.
module TcpConnectionEvents {
  import opened RequestRewriter
  import opened TcpConnectionMachine
  import opened TcpConnectionProofs
  import R = Relay
  import RelayEvents

  /** The end of a stream, a failed connect or a failed write. */
  predicate Ends(e: Event) {
    || e.ConnectFail? || e.ClientEnd? || e.DataFail? || e.RequestFail?
    || (e.Down? && (e.e.ReadEnd? || e.e.WriteFail?))
  }

  predicate SomethingEnds(events: seq<Event>) {
    events != [] && (SomethingEnds(events[..|events| - 1]) || Ends(events[|events| - 1]))
  }

  predicate HasConnected(events: seq<Event>) {
    events != [] && (HasConnected(events[..|events| - 1]) || events[|events| - 1].Connected?)
  }

  function Text(chunks: seq<string>): string {
    if chunks == [] then "" else Text(chunks[..|chunks| - 1]) + chunks[|chunks| - 1]
  }

  /** What the reads from the proxy have delivered, chunk by chunk. */
  function DownChunks(events: seq<Event>): seq<string> {
    if events == [] then []
    else
      var last := events[|events| - 1];
      DownChunks(events[..|events| - 1]) + if last.Down? && last.e.ReadSome? then [last.e.bytes] else []
  }

  /** How many bytes the proxy takes in a step, and the client. */
  function ToProxy(e: Event): nat {
    match e
    case TakeData(_, n) => n
    case TakeRequest(_, n) => n
    case _ => 0
  }

  function ToClient(e: Event): nat {
    if e.Down? && e.e.Accept? then e.e.n else 0
  }

  function CountToProxy(events: seq<Event>): nat {
    if events == [] then 0 else CountToProxy(events[..|events| - 1]) + ToProxy(events[|events| - 1])
  }

  function CountToClient(events: seq<Event>): nat {
    if events == [] then 0 else CountToClient(events[..|events| - 1]) + ToClient(events[|events| - 1])
  }

  // ----- one step

  lemma StepOpen(s: State, e: Event)
    requires Enabled(s, e)
    ensures Next(s, e).open <==> s.open && !Ends(e)
  {}

  lemma StepConnecting(s: State, e: Event)
    requires Enabled(s, e)
    ensures Next(s, e).connecting ==> s.connecting
    ensures s.connecting && !Next(s, e).connecting ==> e.Connected? || e.ConnectFail?
  {}

  lemma StepUp(s: State, e: Event)
    requires Enabled(s, e)
    ensures Next(s, e).received == if e.ClientBytes? then s.received + e.bytes else s.received
    ensures |Next(s, e).forwarded| == |s.forwarded| + ToProxy(e)
  {}

  lemma StepBack(s: State, e: Event)
    requires Enabled(s, e)
    ensures Next(s, e).down.received
         == if e.Down? && e.e.ReadSome? then s.down.received + e.e.bytes else s.down.received
    ensures |Next(s, e).down.sent| == |s.down.sent| + ToClient(e)
  {
    if e.Down? {
      RelayEvents.StepHistories(s.down, e.e);
      assert s.down.received + "" == s.down.received;
    }
  }

  lemma AddChunk(chunks: seq<string>, bytes: string)
    ensures Text(chunks + [bytes]) == Text(chunks) + bytes
    ensures Text(chunks + []) == Text(chunks)
  {
    assert (chunks + [bytes])[..|chunks|] == chunks;
    assert chunks + [] == chunks;
  }

  // ----- runs

  /** In every run and in both modes the connection is torn down exactly by the end of a stream, a
      failed connect or a failed write, whichever comes first. */
  lemma {:induction false} OpenExactly(debugMode: bool, client: string, proxy: string, events: seq<Event>)
    requires IsRun(Start(debugMode, client, proxy), events)
    ensures After(Start(debugMode, client, proxy), events).open <==> !SomethingEnds(events)
    decreases |events|
  {
    if events != [] {
      var before := events[..|events| - 1];
      OpenExactly(debugMode, client, proxy, before);
      StepOpen(After(Start(debugMode, client, proxy), before), events[|events| - 1]);
    }
  }

  lemma {:induction false} RunUp(s0: State, events: seq<Event>)
    requires IsRun(s0, events) && s0.received == s0.forwarded == ""
    ensures After(s0, events).received == Text(Chunks(events))
    ensures |After(s0, events).forwarded| == CountToProxy(events)
    decreases |events|
  {
    if events != [] {
      var before, last := events[..|events| - 1], events[|events| - 1];
      RunUp(s0, before);
      StepUp(After(s0, before), last);
      AddChunk(Chunks(before), if last.ClientBytes? then last.bytes else "");
    }
  }

  lemma {:induction false} RunBack(s0: State, events: seq<Event>)
    requires IsRun(s0, events) && s0.down.received == s0.down.sent == ""
    ensures After(s0, events).down.received == Text(DownChunks(events))
    ensures |After(s0, events).down.sent| == CountToClient(events)
    decreases |events|
  {
    if events != [] {
      var before, last := events[..|events| - 1], events[|events| - 1];
      RunBack(s0, before);
      StepBack(After(s0, before), last);
      AddChunk(DownChunks(before), if last.Down? && last.e.ReadSome? then last.e.bytes else "");
    }
  }

  lemma Front(a: string, b: string, c: string, n: nat)
    requires a + b == c && |a| == n
    ensures n <= |c| && a == c[..n]
  {}

  /** In every run each peer has got, of what its other side has sent, the first so many bytes that it
      took: the client of the proxy's bytes; the proxy of the client's bytes or, in debug mode, of the
      rewritten requests. */
  lemma StreamsByTheByte(debugMode: bool, client: string, proxy: string, events: seq<Event>)
    requires IsRun(Start(debugMode, client, proxy), events)
    ensures var s := After(Start(debugMode, client, proxy), events);
      var source := if debugMode then Rewritten(Requests(Chunks(events))) else Text(Chunks(events));
      && CountToProxy(events) <= |source| && s.forwarded == source[..CountToProxy(events)]
      && CountToClient(events) <= |Text(DownChunks(events))|
      && s.down.sent == Text(DownChunks(events))[..CountToClient(events)]
  {
    var s0 := Start(debugMode, client, proxy);
    var s := After(s0, events);
    StartInv(debugMode, client, proxy);
    RunKeepsInv(s0, events);
    RunUp(s0, events);
    RunBack(s0, events);
    Front(s.down.sent, R.Unsent(s.down), s.down.received, CountToClient(events));
    if debugMode {
      BatchesAreRequests(s0, events);
      Front(s.forwarded, Unsent(s), Rewritten(s.batches), CountToProxy(events));
    } else {
      Front(s.forwarded, Unsent(s), s.received, CountToProxy(events));
    }
  }

  // ----- before the connect

  /** Nothing is in flight but the connect, or nothing at all. */
  predicate Untouched(s: State) {
    && s.clientReads == 0 && s.dataWrites == [] && s.requestWrites == [] && s.received == s.forwarded == ""
    && s.down == R.Idle(s.down.buffer)
  }

  lemma StepUntouched(s: State, e: Event)
    requires Untouched(s) && Enabled(s, e) && !e.Connected?
    ensures Untouched(Next(s, e))
  {}

  /** In every run nothing is read from either peer unless the connect has succeeded. */
  lemma {:induction false} NothingBeforeTheConnect(debugMode: bool, client: string, proxy: string, events: seq<Event>)
    requires IsRun(Start(debugMode, client, proxy), events)
    ensures !HasConnected(events) ==> Untouched(After(Start(debugMode, client, proxy), events))
    decreases |events|
  {
    if events != [] {
      var before := events[..|events| - 1];
      NothingBeforeTheConnect(debugMode, client, proxy, before);
      if !HasConnected(events) {
        StepUntouched(After(Start(debugMode, client, proxy), before), events[|events| - 1]);
      }
    }
  }

  // ----- the outside world decides

  /** The connect and a read may end in any way at any time, a read with any bytes that fit. */
  lemma AnyOutcomeOfReads(s: State, bytes: string)
    requires Ops(s) && |bytes| <= |s.dataClient|
    ensures Enabled(s, Connected) <==> s.connecting
    ensures Enabled(s, ConnectFail) <==> s.connecting
    ensures Enabled(s, ClientBytes(bytes)) <==> s.clientReads == 1
    ensures Enabled(s, ClientEnd) <==> s.clientReads == 1
  {}

  /** A write may fail at any time; while the sockets are open any part of what is left of it may be
      taken; and it is done when all is taken. */
  lemma AnyOutcomeOfWrites(s: State, n: nat)
    requires Ops(s)
    ensures Enabled(s, DataFail(0)) <==> |s.dataWrites| == 1
    ensures Enabled(s, RequestFail(0)) <==> |s.requestWrites| == 1
    ensures |s.dataWrites| == 1 ==>
      && (Enabled(s, TakeData(0, n)) <==> s.open && n <= |Unsent(s)|)
      && (Enabled(s, DataWritten(0)) <==> |Unsent(s)| == 0)
    ensures |s.requestWrites| == 1 ==>
      && (Enabled(s, TakeRequest(0, n)) <==> s.open && n <= |Unsent(s)|)
      && (Enabled(s, RequestWritten(0)) <==> |Unsent(s)| == 0)
  {}
}
