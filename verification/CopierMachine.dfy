// The two proxies of a session that hands its connection over: http_copier first sends a request
// to the remote server, socket_copier first sends a reply to the client. Then both send what the
// session had read too much, and relay in both directions.
module CopierMachine {
  import opened Basics
  import R = Relay

  datatype Kind = Http | Socket

  /** Where the chain of callbacks is: each starts the next operation, the last starts both relays. */
  datatype Phase =
    | Resolving
    | Connecting
    | SendingPreamble(done: nat)
    | SendingLeftover(done: nat)
    | Relaying
    | Stopped

  datatype State = State(
    kind: Kind,
    phase: Phase,
    preamble: string,     // the serialized request, or the reply to CONNECT
    buffer: string,       // buffer_: bytes of the client that the session has already read
    up: R.Direction,      // from the client to the remote server
    down: R.Direction,    // from the remote server to the client
    remote: string,       // history: bytes taken by the remote server
    client: string)       // history: bytes taken by the client

  const REPLY: string := "HTTP/1.1 200 OK\r\nConnection: keep-alive\r\n\r\n"

  /** http_copier takes over the bytes that the session has read. */
  function HttpStart(request: string, leftover: string, toRemote: string, toClient: string): State {
    State(Http, Resolving, request, leftover, R.Idle(toRemote), R.Idle(toClient), "", "")
  }

  /** The constructor of socket_copier does not: its member buffer_ starts empty. */
  function SocketStart(leftover: string, toRemote: string, toClient: string): State {
    State(Socket, Resolving, REPLY, "", R.Idle(toRemote), R.Idle(toClient), "", "")
  }

  datatype Event =
    | Resolved(ok: bool)
    | Connected(ok: bool)
    | TakePreamble(n: nat)
    | PreambleSent
    | PreambleFail
    | TakeLeftover(n: nat)
    | LeftoverSent
    | LeftoverFail
    | Up(e: R.Event)
    | Down(e: R.Event)

  predicate Enabled(s: State, e: Event) {
    match e
    case Resolved(_) => s.phase.Resolving?
    case Connected(_) => s.phase.Connecting?
    case TakePreamble(n) => s.phase.SendingPreamble? && s.phase.done + n <= |s.preamble|
    case PreambleSent => s.phase.SendingPreamble? && s.phase.done == |s.preamble|
    case PreambleFail => s.phase.SendingPreamble?
    case TakeLeftover(n) => s.phase.SendingLeftover? && s.phase.done + n <= |s.buffer|
    case LeftoverSent => s.phase.SendingLeftover? && s.phase.done == |s.buffer|
    case LeftoverFail => s.phase.SendingLeftover?
    case Up(d) => R.Enabled(s.up, d)
    case Down(d) => R.Enabled(s.down, d)
  }

  /** What a step of a relay hands to its destination. */
  function Taken(d: R.Direction, e: R.Event): string
    requires R.Enabled(d, e)
  {
    if e.Accept? then
      var w := d.pendingWrites[e.i];
      d.buffer[w.done..w.done + e.n]
    else ""
  }

  function Next(s: State, e: Event): State
    requires Enabled(s, e)
  {
    match e
    case Resolved(ok) => s.(phase := if ok then Connecting else Stopped)
    case Connected(ok) => s.(phase := if ok then SendingPreamble(0) else Stopped)
    case TakePreamble(n) =>
      var bytes := s.preamble[s.phase.done..s.phase.done + n];
      var t := s.(phase := SendingPreamble(s.phase.done + n));
      if s.kind.Http? then t.(remote := s.remote + bytes) else t.(client := s.client + bytes)
    case PreambleSent => s.(phase := SendingLeftover(0))
    case PreambleFail => s.(phase := Stopped)
    case TakeLeftover(n) =>
      s.(phase := SendingLeftover(s.phase.done + n),
         remote := s.remote + s.buffer[s.phase.done..s.phase.done + n])
    case LeftoverSent => s.(phase := Relaying, down := R.DoRead(s.down), up := R.DoRead(s.up))
    case LeftoverFail => s.(phase := Stopped)
    case Up(d) => s.(up := R.Next(s.up, d), remote := s.remote + Taken(s.up, d))
    case Down(d) => s.(down := R.Next(s.down, d), client := s.client + Taken(s.down, d))
  }

  predicate IsRun(s: State, events: seq<Event>)
    decreases |events|, 0
  {
    events == [] ||
    (IsRun(s, events[..|events| - 1]) && Enabled(After(s, events[..|events| - 1]), events[|events| - 1]))
  }

  function After(s: State, events: seq<Event>): State
    requires IsRun(s, events)
    decreases |events|, 1
  {
    if events == [] then s else Next(After(s, events[..|events| - 1]), events[|events| - 1])
  }

  // ----- the invariant

  function PreambleSoFar(s: State): string {
    match s.phase
    case SendingPreamble(done) => if done <= |s.preamble| then s.preamble[..done] else s.preamble
    case SendingLeftover(_) => s.preamble
    case Relaying => s.preamble
    case _ => ""
  }

  function LeftoverSoFar(s: State): string {
    match s.phase
    case SendingLeftover(done) => if done <= |s.buffer| then s.buffer[..done] else s.buffer
    case Relaying => s.buffer
    case _ => ""
  }

  /** What has been sent to each peer ahead of the relay. */
  function ToRemote(s: State): string {
    if s.kind.Http? then PreambleSoFar(s) + LeftoverSoFar(s) else LeftoverSoFar(s)
  }

  function ToClient(s: State): string {
    if s.kind.Http? then "" else PreambleSoFar(s)
  }

  /** What the remote server and the client have got. */
  ghost predicate StreamInv(s: State) {
    match s.phase
    case Relaying => s.remote == ToRemote(s) + s.up.sent && s.client == ToClient(s) + s.down.sent
    case Stopped =>
      && s.remote <= (if s.kind.Http? then s.preamble + s.buffer else s.buffer)
      && s.client <= (if s.kind.Http? then "" else s.preamble)
    case SendingPreamble(done) => done <= |s.preamble| && s.remote == ToRemote(s) && s.client == ToClient(s)
    case SendingLeftover(done) => done <= |s.buffer| && s.remote == ToRemote(s) && s.client == ToClient(s)
    case _ => s.remote == "" && s.client == ""
  }

  ghost predicate RelayInv(s: State) {
    && R.Inv(s.up) && R.Inv(s.down)
    && (!s.phase.Relaying? ==> s.up == R.Idle(s.up.buffer) && s.down == R.Idle(s.down.buffer))
  }

  ghost predicate Inv(s: State) {
    StreamInv(s) && RelayInv(s)
  }

  lemma PhasesKeepRelay(s: State, e: Event)
    requires RelayInv(s) && Enabled(s, e) && !e.Up? && !e.Down?
    ensures RelayInv(Next(s, e))
  {}

  lemma UpKeepsRelay(s: State, d: R.Event)
    requires RelayInv(s) && Enabled(s, Up(d))
    ensures RelayInv(Next(s, Up(d)))
  {
    R.StepKeepsInv(s.up, d);
    assert s.phase.Relaying?;
  }

  lemma DownKeepsRelay(s: State, d: R.Event)
    requires RelayInv(s) && Enabled(s, Down(d))
    ensures RelayInv(Next(s, Down(d)))
  {
    R.StepKeepsInv(s.down, d);
    assert s.phase.Relaying?;
  }

  lemma StepRelay(s: State, e: Event)
    requires RelayInv(s) && Enabled(s, e)
    ensures RelayInv(Next(s, e))
  {
    if e.Up? {
      UpKeepsRelay(s, e.e);
    } else if e.Down? {
      DownKeepsRelay(s, e.e);
    } else {
      PhasesKeepRelay(s, e);
    }
  }

  lemma Longer(s: string, done: nat, n: nat)
    requires done + n <= |s|
    ensures s[..done] + s[done..done + n] == s[..done + n]
  {}

  lemma StreamPreamble(s: State, n: nat)
    requires StreamInv(s) && Enabled(s, TakePreamble(n))
    ensures StreamInv(Next(s, TakePreamble(n)))
  {
    Longer(s.preamble, s.phase.done, n);
    assert ToRemote(Next(s, TakePreamble(n))) == if s.kind.Http? then s.preamble[..s.phase.done + n] else "";
  }

  lemma StreamLeftover(s: State, n: nat)
    requires StreamInv(s) && Enabled(s, TakeLeftover(n))
    ensures StreamInv(Next(s, TakeLeftover(n)))
  {
    var done := s.phase.done;
    Longer(s.buffer, done, n);
    Regroup(s.preamble, s.buffer[..done], s.buffer[done..done + n]);
  }

  lemma RelayTakes(d: R.Direction, e: R.Event)
    requires R.Enabled(d, e)
    ensures R.Next(d, e).sent == d.sent + Taken(d, e)
  {}

  lemma StreamUp(s: State, e: R.Event)
    requires Inv(s) && Enabled(s, Up(e))
    ensures StreamInv(Next(s, Up(e)))
  {
    assert s.phase.Relaying?;
    RelayTakes(s.up, e);
    Regroup(ToRemote(s), s.up.sent, Taken(s.up, e));
    assert ToRemote(Next(s, Up(e))) == ToRemote(s);
  }

  lemma StreamDown(s: State, e: R.Event)
    requires Inv(s) && Enabled(s, Down(e))
    ensures StreamInv(Next(s, Down(e)))
  {
    assert s.phase.Relaying?;
    RelayTakes(s.down, e);
    Regroup(ToClient(s), s.down.sent, Taken(s.down, e));
    assert ToClient(Next(s, Down(e))) == ToClient(s);
  }

  /** Ahead of the relay each peer has got a front part of what is meant for it. */
  lemma FrontsSoFar(s: State)
    requires StreamInv(s) && !s.phase.Relaying?
    ensures s.remote <= if s.kind.Http? then s.preamble + s.buffer else s.buffer
    ensures s.client <= if s.kind.Http? then "" else s.preamble
  {
    if s.phase.SendingPreamble? {
      assert s.preamble[..s.phase.done] + "" == s.preamble[..s.phase.done];
    } else if s.phase.SendingLeftover? {
      assert s.preamble + s.buffer[..s.phase.done] <= s.preamble + s.buffer;
    }
  }

  lemma StreamStop(s: State, e: Event)
    requires StreamInv(s) && !s.phase.Relaying? && Enabled(s, e)
    requires e.Resolved? || e.Connected? || e.PreambleFail? || e.LeftoverFail?
    requires Next(s, e).phase.Stopped?
    ensures StreamInv(Next(s, e))
  {
    FrontsSoFar(s);
  }

  lemma StreamGoOn(s: State, e: Event)
    requires Inv(s) && Enabled(s, e) && !Next(s, e).phase.Stopped?
    requires e.Resolved? || e.Connected? || e.PreambleSent? || e.LeftoverSent?
    ensures StreamInv(Next(s, e))
  {}

  lemma StepStream(s: State, e: Event)
    requires Inv(s) && Enabled(s, e)
    ensures StreamInv(Next(s, e))
  {
    if e.TakePreamble? {
      StreamPreamble(s, e.n);
    } else if e.TakeLeftover? {
      StreamLeftover(s, e.n);
    } else if e.Up? {
      StreamUp(s, e.e);
    } else if e.Down? {
      StreamDown(s, e.e);
    } else if Next(s, e).phase.Stopped? {
      StreamStop(s, e);
    } else {
      StreamGoOn(s, e);
    }
  }

  lemma StepKeepsInv(s: State, e: Event)
    requires Inv(s) && Enabled(s, e)
    ensures Inv(Next(s, e))
  {
    StepRelay(s, e);
    StepStream(s, e);
  }

  lemma {:induction false} RunKeepsInv(s: State, events: seq<Event>)
    requires Inv(s) && IsRun(s, events)
    ensures Inv(After(s, events))
    ensures var t := After(s, events); t.kind == s.kind && t.preamble == s.preamble && t.buffer == s.buffer
    decreases |events|
  {
    if events != [] {
      RunKeepsInv(s, events[..|events| - 1]);
      StepKeepsInv(After(s, events[..|events| - 1]), events[|events| - 1]);
    }
  }
}
