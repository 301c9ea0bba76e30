// tcp_connection of the simple proxy: two independent loops over two sockets, with one teardown.
// The loop from the proxy to the client is a plain relay direction; the loop from the client to
// the proxy either relays or, in debug mode, collects requests and rewrites them.
module TcpConnectionMachine {
  import opened Basics
  import opened RequestRewriter
  import R = Relay

  datatype HeaderState = ReadingHeaders | ReadingBody

  /** A completed request: what was collected before its last chunk, and that chunk. */
  datatype Batch = Batch(before: string, chunk: string) {
    function Bytes(): string {
      before + chunk
    }
  }

  datatype State = State(
    debugMode: bool,
    headerState: HeaderState,
    open: bool,                    // neither socket has been closed by cleanup
    dataClient: string,            // data_client_
    requestBuffer: string,         // request_buffer_
    connecting: bool,              // the connect of start() is in flight
    clientReads: nat,              // reads into dataClient in flight
    dataWrites: seq<R.Write>,      // writes out of dataClient in flight
    requestWrites: seq<R.Write>,   // writes out of requestBuffer in flight
    failedData: seq<R.Write>,      // the same, ended in an error
    failedRequest: seq<R.Write>,
    down: R.Direction,             // from the proxy to the client
    received: string,              // history: bytes read from the client
    forwarded: string,             // history: bytes taken by the proxy
    batches: seq<Batch>)           // history: requests collected in debug mode

  datatype Event =
    | Connected
    | ConnectFail
    | ClientBytes(bytes: string)
    | ClientEnd                          // end of stream or an error
    | TakeData(i: nat, n: nat)           // the proxy takes n more bytes of a data write
    | DataWritten(i: nat)
    | DataFail(i: nat)
    | TakeRequest(i: nat, n: nat)        // the same for a request write
    | RequestWritten(i: nat)
    | RequestFail(i: nat)
    | Down(e: R.Event)

  function Start(debugMode: bool, client: string, proxy: string): State {
    State(debugMode, ReadingHeaders, true, client, "", true, 0, [], [], [], [], R.Idle(proxy), "", "", [])
  }

  // ----- the code

  function DoReadClient(s: State): State {
    s.(clientReads := s.clientReads + 1)
  }

  /** A length of zero means: send the request buffer, if there is anything in it. */
  function DoWriteProxy(s: State, length: nat): State {
    if length == 0 then
      if s.requestBuffer != "" then
        s.(requestWrites := s.requestWrites + [R.Write(|s.requestBuffer|, 0)])
      else DoReadClient(s)
    else s.(dataWrites := s.dataWrites + [R.Write(length, 0)])
  }

  function Cleanup(s: State): State {
    s.(open := false)
  }

  /** The handler of a read from the client, after the bytes have arrived in the buffer. */
  function OnClientBytes(s: State, length: nat): State
    requires length <= |s.dataClient|
  {
    if s.debugMode then
      if s.headerState.ReadingHeaders? then
        var request := s.requestBuffer + s.dataClient[..length];
        if HasCompleteHttpRequest(request) then
          DoWriteProxy(s.(requestBuffer := Rewrite(request),
                          batches := s.batches + [Batch(s.requestBuffer, s.dataClient[..length])]), 0)
        else DoReadClient(s.(requestBuffer := request))
      else DoWriteProxy(s, length)
    else DoWriteProxy(s, length)
  }

  predicate InFlight(writes: seq<R.Write>, i: nat, n: nat, size: nat) {
    i < |writes| && writes[i].done + n <= writes[i].length <= size
  }

  predicate Complete(writes: seq<R.Write>, i: nat) {
    i < |writes| && writes[i].done == writes[i].length
  }

  /** Once the sockets are closed nothing more is taken from a buffer; a completion that is already
      under way may still arrive. */
  predicate Enabled(s: State, e: Event) {
    match e
    case Connected => s.connecting
    case ConnectFail => s.connecting
    case ClientBytes(bytes) => s.clientReads > 0 && |bytes| <= |s.dataClient|
    case ClientEnd => s.clientReads > 0
    case TakeData(i, n) => s.open && InFlight(s.dataWrites, i, n, |s.dataClient|)
    case DataWritten(i) => Complete(s.dataWrites, i)
    case DataFail(i) => i < |s.dataWrites|
    case TakeRequest(i, n) => s.open && InFlight(s.requestWrites, i, n, |s.requestBuffer|)
    case RequestWritten(i) => Complete(s.requestWrites, i)
    case RequestFail(i) => i < |s.requestWrites|
    case Down(d) => R.Enabled(s.down, d) && (d.Accept? ==> s.open)
  }

  function Next(s: State, e: Event): State
    requires Enabled(s, e)
  {
    match e
    case Connected => DoReadClient(s.(connecting := false)).(down := R.DoRead(s.down))
    case ConnectFail => Cleanup(s.(connecting := false))
    case ClientBytes(bytes) =>
      OnClientBytes(s.(clientReads := s.clientReads - 1, dataClient := R.Filled(s.dataClient, bytes),
                       received := s.received + bytes), |bytes|)
    case ClientEnd => Cleanup(s.(clientReads := s.clientReads - 1))
    case TakeData(i, n) =>
      var w := s.dataWrites[i];
      s.(forwarded := s.forwarded + s.dataClient[w.done..w.done + n],
         dataWrites := s.dataWrites[i := R.Write(w.length, w.done + n)])
    case DataWritten(i) => DoReadClient(s.(dataWrites := Without(s.dataWrites, i)))
    case DataFail(i) =>
      Cleanup(s.(dataWrites := Without(s.dataWrites, i), failedData := s.failedData + [s.dataWrites[i]]))
    case TakeRequest(i, n) =>
      var w := s.requestWrites[i];
      s.(forwarded := s.forwarded + s.requestBuffer[w.done..w.done + n],
         requestWrites := s.requestWrites[i := R.Write(w.length, w.done + n)])
    case RequestWritten(i) =>
      DoReadClient(s.(requestWrites := Without(s.requestWrites, i), requestBuffer := ""))
    case RequestFail(i) =>
      Cleanup(s.(requestWrites := Without(s.requestWrites, i),
                 failedRequest := s.failedRequest + [s.requestWrites[i]]))
    case Down(d) =>
      var t := s.(down := R.Next(s.down, d));
      if d.ReadEnd? || d.WriteFail? then Cleanup(t) else t
  }

  predicate IsRun(s: State, events: seq<Event>)
    decreases |events|, 0
  {
    events == [] ||
    (IsRun(s, events[..|events| - 1]) && Enabled(After(s, events[..|events| - 1]), events[|events| - 1]))
  }

  function After(s: State, events: seq<Event>): State
    requires IsRun(s, events)
    decreases |events|, 1
  {
    if events == [] then s else Next(After(s, events[..|events| - 1]), events[|events| - 1])
  }

  // ----- the invariant

  function Received(batches: seq<Batch>): string {
    if batches == [] then "" else Received(batches[..|batches| - 1]) + batches[|batches| - 1].Bytes()
  }

  function Rewritten(batches: seq<Batch>): string {
    if batches == [] then "" else Rewritten(batches[..|batches| - 1]) + Rewrite(batches[|batches| - 1].Bytes())
  }

  /** The client's loop has one operation in flight, or has ended; each write fits its buffer. */
  predicate Ops(s: State) {
    && (if s.connecting then 1 else 0) + s.clientReads + |s.dataWrites| + |s.requestWrites|
       + |s.failedData| + |s.failedRequest| <= 1
    && R.Fits(s.dataWrites, |s.dataClient|) && R.Fits(s.failedData, |s.dataClient|)
    && R.Fits(s.requestWrites, |s.requestBuffer|) && R.Fits(s.failedRequest, |s.requestBuffer|)
    && (|s.requestWrites| == 1 ==> s.requestWrites[0].length == |s.requestBuffer|)
    && s.headerState == ReadingHeaders
  }

  /** What is still to be forwarded. */
  function Unsent(s: State): string
    requires Ops(s)
  {
    if |s.dataWrites| == 1 then R.Rest(s.dataClient, s.dataWrites[0])
    else if |s.failedData| == 1 then R.Rest(s.dataClient, s.failedData[0])
    else if |s.requestWrites| == 1 then R.Rest(s.requestBuffer, s.requestWrites[0])
    else if |s.failedRequest| == 1 then R.Rest(s.requestBuffer, s.failedRequest[0])
    else ""
  }

  /** In debug mode, what has been collected towards the next request. */
  function Collected(s: State): string {
    if s.requestWrites == [] && s.failedRequest == [] then s.requestBuffer else ""
  }

  /** Without debug mode the client's bytes are forwarded as they are. */
  ghost predicate PlainInv(s: State)
    requires Ops(s)
  {
    && s.requestBuffer == "" && s.requestWrites == [] && s.failedRequest == [] && s.batches == []
    && s.forwarded + Unsent(s) == s.received
  }

  /** A batch ends with the chunk that completes it. */
  ghost predicate JustComplete(b: Batch) {
    !HasCompleteHttpRequest(b.before) && HasCompleteHttpRequest(b.Bytes())
  }

  /** In debug mode the client's bytes are cut into batches ... */
  ghost predicate BatchInv(s: State) {
    && (forall b :: b in s.batches ==> JustComplete(b))
    && !HasCompleteHttpRequest(Collected(s))
    && s.received == Received(s.batches) + Collected(s)
  }

  /** ... and the batches are rewritten and forwarded. */
  ghost predicate ForwardInv(s: State)
    requires Ops(s)
  {
    && s.dataWrites == [] && s.failedData == []
    && s.forwarded + Unsent(s) == Rewritten(s.batches)
  }

  ghost predicate DownInv(s: State) {
    && R.Inv(s.down)
    && (s.connecting ==> s.down == R.Idle(s.down.buffer))
  }

  ghost predicate Inv(s: State) {
    && Ops(s)
    && (if s.debugMode then BatchInv(s) && ForwardInv(s) else PlainInv(s))
    && DownInv(s)
  }
}
