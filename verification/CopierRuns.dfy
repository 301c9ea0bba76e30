// What each peer of a copier gets, in every run.
module CopierRuns {
  import opened Basics
  import opened CopierMachine
  import R = Relay
  import RelayEvents
  import W = RequestRewriter
  import RewriterMeaning

  lemma StartInv(request: string, leftover: string, toRemote: string, toClient: string)
    ensures Inv(HttpStart(request, leftover, toRemote, toClient))
    ensures Inv(SocketStart(leftover, toRemote, toClient))
  {}

  lemma PrefixOfConcat(a: string, b: string, c: string)
    requires a == b + c
    ensures b <= a
  {}

  lemma HttpAhead(s: State)
    requires Inv(s) && s.kind.Http? && !s.phase.Relaying?
    ensures s.remote <= s.preamble + s.buffer && s.client == "" && s.up.received == s.down.received == ""
  {}

  lemma HttpStreams(s: State)
    requires Inv(s) && s.kind.Http?
    ensures s.phase.Relaying? ==> s.remote + R.Unsent(s.up) == s.preamble + s.buffer + s.up.received
    ensures s.remote <= s.preamble + s.buffer + s.up.received
    ensures s.client + R.Unsent(s.down) == s.down.received
  {
    if s.phase.Relaying? {
      Regroup(s.preamble + s.buffer, s.up.sent, R.Unsent(s.up));
      Regroup("", s.down.sent, R.Unsent(s.down));
    } else {
      HttpAhead(s);
    }
  }

  /** A copier that has just been started, of either kind. */
  ghost predicate NewCopier(s0: State) {
    || (exists request, leftover, a, b :: s0 == HttpStart(request, leftover, a, b))
    || (exists leftover, a, b :: s0 == SocketStart(leftover, a, b))
  }

  /** http_copier: at every moment the remote server has got a prefix of the request, then the
      bytes the session had read too much, then what was read from the client later; once the
      copier relays, what is missing is in its buffer. The client gets only what the server sent. */
  lemma HttpPhaseOrder(request: string, leftover: string, toRemote: string, toClient: string, events: seq<Event>)
    requires IsRun(HttpStart(request, leftover, toRemote, toClient), events)
    ensures var s := After(HttpStart(request, leftover, toRemote, toClient), events);
      && R.Ops(s.up) && R.Ops(s.down)
      && (s.phase.Relaying? ==> s.remote + R.Unsent(s.up) == request + leftover + s.up.received)
      && s.remote <= request + leftover + s.up.received
      && s.client + R.Unsent(s.down) == s.down.received
  {
    var s0 := HttpStart(request, leftover, toRemote, toClient);
    StartInv(request, leftover, toRemote, toClient);
    RunKeepsInv(s0, events);
    HttpStreams(After(s0, events));
  }

  lemma SocketStreams(s: State)
    requires Inv(s) && s.kind.Socket? && s.buffer == ""
    ensures s.phase.Relaying? ==> s.client + R.Unsent(s.down) == s.preamble + s.down.received
    ensures s.client <= s.preamble + s.down.received
    ensures s.remote + R.Unsent(s.up) == s.up.received
  {
    if s.phase.Relaying? {
      assert s.client + R.Unsent(s.down) == s.preamble + (s.down.sent + R.Unsent(s.down));
    }
  }

  /** socket_copier: the client has got a prefix of the reply, then what was read from the remote
      server; the server gets what is read from the client after the relay has started. */
  lemma SocketPhaseOrder(leftover: string, toRemote: string, toClient: string, events: seq<Event>)
    requires IsRun(SocketStart(leftover, toRemote, toClient), events)
    ensures var s := After(SocketStart(leftover, toRemote, toClient), events);
      && R.Ops(s.up) && R.Ops(s.down)
      && (s.phase.Relaying? ==> s.client + R.Unsent(s.down) == REPLY + s.down.received)
      && s.client <= REPLY + s.down.received
      && s.remote + R.Unsent(s.up) == s.up.received
  {
    var s0 := SocketStart(leftover, toRemote, toClient);
    StartInv("", leftover, toRemote, toClient);
    RunKeepsInv(s0, events);
    SocketStreams(After(s0, events));
  }

  // ----- the bytes that socket_copier drops

  lemma {:induction false} Extend(s0: State, events: seq<Event>, s: State, e: Event)
    requires IsRun(s0, events) && After(s0, events) == s && Enabled(s, e)
    ensures IsRun(s0, events + [e]) && After(s0, events + [e]) == Next(s, e)
  {
    var all := events + [e];
    assert all[..|all| - 1] == events && all[|all| - 1] == e;
  }

  /** The remote server is reached and everything ahead of the relay is sent: the relay starts. */
  function Started(s0: State): State {
    s0.(phase := Relaying, up := R.DoRead(s0.up), down := R.DoRead(s0.down),
        remote := if s0.kind.Http? then s0.preamble + s0.buffer else s0.buffer,
        client := if s0.kind.Http? then "" else s0.preamble)
  }

  /** The request or the reply is sent. */
  lemma PreambleRun(s0: State) returns (events: seq<Event>)
    requires s0.phase.Resolving? && s0.remote == s0.client == ""
    ensures IsRun(s0, events)
    ensures After(s0, events)
         == s0.(phase := SendingLeftover(0), remote := if s0.kind.Http? then s0.preamble else "",
                client := if s0.kind.Http? then "" else s0.preamble)
  {
    var n := |s0.preamble|;
    Extend(s0, [], s0, Resolved(true));
    events := [] + [Resolved(true)];
    Extend(s0, events, s0.(phase := Connecting), Connected(true));
    events := events + [Connected(true)];
    Extend(s0, events, s0.(phase := SendingPreamble(0)), TakePreamble(n));
    events := events + [TakePreamble(n)];
    assert "" + s0.preamble[0..n] == s0.preamble;
    Extend(s0, events, After(s0, events), PreambleSent);
    events := events + [PreambleSent];
  }

  /** There is such a run of both copiers. */
  lemma RelayStarts(s0: State) returns (events: seq<Event>)
    requires NewCopier(s0)
    ensures IsRun(s0, events) && After(s0, events) == Started(s0)
  {
    events := PreambleRun(s0);
    var s, n := After(s0, events), |s0.buffer|;
    Extend(s0, events, s, TakeLeftover(n));
    events := events + [TakeLeftover(n)];
    assert s0.buffer[0..n] == s0.buffer && "" + s0.buffer == s0.buffer;
    Extend(s0, events, After(s0, events), LeftoverSent);
    events := events + [LeftoverSent];
  }

  /** Then the client sends one byte, and the server gets it. */
  lemma OneByteRelayed(s0: State, c: char) returns (events: seq<Event>)
    requires exists leftover, a, b :: s0 == SocketStart(leftover, a, b)
    requires |s0.up.buffer| == R.MAX_LENGTH
    ensures IsRun(s0, events)
    ensures After(s0, events).remote == [c] && After(s0, events).up.received == [c]
  {
    events := RelayStarts(s0);
    var s := After(s0, events);
    Extend(s0, events, s, Up(R.ReadSome([c])));
    events := events + [Up(R.ReadSome([c]))];
    s := Next(s, Up(R.ReadSome([c])));
    assert s.up.pendingWrites == [R.Write(1, 0)];
    Extend(s0, events, s, Up(R.Accept(0, 1)));
    events := events + [Up(R.Accept(0, 1))];
    assert s.up.buffer[0..1] == [c];
  }

  /** The server's stream is a prefix of the bytes read too much and the later ones, in every run,
      if and only if there were none read too much: socket_copier drops them. */
  lemma SocketDropsLeftover(leftover: string, toRemote: string, toClient: string)
    requires |toRemote| == R.MAX_LENGTH
    ensures (forall events :: IsRun(SocketStart(leftover, toRemote, toClient), events) ==>
               var s := After(SocketStart(leftover, toRemote, toClient), events);
               s.remote <= leftover + s.up.received)
            <==> leftover == ""
  {
    var s0 := SocketStart(leftover, toRemote, toClient);
    if leftover == "" {
      forall events | IsRun(s0, events)
        ensures After(s0, events).remote <= leftover + After(s0, events).up.received
      {
        SocketPhaseOrder(leftover, toRemote, toClient, events);
        PrefixOfConcat(After(s0, events).up.received, After(s0, events).remote, R.Unsent(After(s0, events).up));
        assert "" + After(s0, events).up.received == After(s0, events).up.received;
      }
    } else {
      var c := if leftover[0] == 'a' then 'b' else 'a';
      var events := OneByteRelayed(s0, c);
      var s := After(s0, events);
      assert s.remote[0] != (leftover + s.up.received)[0];
    }
  }

  const STATUS: string := "HTTP/1.1 200 OK\r"
  const OPTION: string := "Connection: keep-alive\r"

  lemma ReplyText()
    ensures W.Unlines([STATUS] + ([OPTION] + (["\r"] + []))) == REPLY
  {
    RewriterMeaning.UnlinesMore("\r", []);
    RewriterMeaning.UnlinesMore(OPTION, ["\r"] + []);
    RewriterMeaning.UnlinesMore(STATUS, [OPTION] + (["\r"] + []));
  }

  lemma ReplyLines()
    ensures RewriterMeaning.OneLine(STATUS) && RewriterMeaning.OneLine(OPTION) && RewriterMeaning.OneLine("\r")
  {}

  lemma ThreeLines(a: string, b: string, c: string)
    requires RewriterMeaning.OneLine(a) && RewriterMeaning.OneLine(b) && RewriterMeaning.OneLine(c)
    ensures W.Lines(W.Unlines([a] + ([b] + ([c] + [])))) == [a, b, c]
  {
    assert [a] + ([b] + ([c] + [])) == [a, b, c];
    RewriterMeaning.LinesOfUnlines([a, b, c]);
  }

  /** The reply of socket_copier is a header of two lines: the request to connect is accepted. */
  lemma ReplyIsAHeader()
    ensures W.Lines(REPLY) == ["HTTP/1.1 200 OK\r", "Connection: keep-alive\r", "\r"]
  {
    ReplyText();
    ReplyLines();
    ThreeLines(STATUS, OPTION, "\r");
  }

  // ----- failures ahead of the relay

  /** A step ahead of the relay has failed. */
  predicate Fails(e: Event) {
    e == Resolved(false) || e == Connected(false) || e.PreambleFail? || e.LeftoverFail?
  }

  predicate IsConnected(p: Phase) {
    p.SendingPreamble? || p.SendingLeftover? || p.Relaying?
  }

  /** What the state tells about the past. */
  ghost predicate Past(s: State, events: seq<Event>) {
    && (s.phase.Stopped? <==> exists e :: e in events && Fails(e))
    && (s.phase.Connecting? || IsConnected(s.phase) ==> Resolved(true) in events)
    && (IsConnected(s.phase) || s.remote != "" || s.client != "" ==>
          Resolved(true) in events && Connected(true) in events)
  }
  lemma NewCopierInv(s0: State)
    requires NewCopier(s0)
    ensures Inv(s0)
  {
    if request, leftover, a, b :| s0 == HttpStart(request, leftover, a, b) {
      StartInv(request, leftover, a, b);
    } else {
      var leftover, a, b :| s0 == SocketStart(leftover, a, b);
      StartInv("", leftover, a, b);
    }
  }

  lemma StepPhase(s: State, e: Event)
    requires RelayInv(s) && Enabled(s, e)
    ensures !s.phase.Stopped?
    ensures Next(s, e).phase.Stopped? <==> Fails(e)
    ensures Next(s, e).phase.Connecting? ==> e == Resolved(true)
    ensures IsConnected(Next(s, e).phase) ==> IsConnected(s.phase) || e == Connected(true)
    ensures e == Connected(true) ==> s.phase.Connecting?
    ensures Next(s, e).remote != s.remote || Next(s, e).client != s.client ==> IsConnected(s.phase)
  {}

  lemma StepPast(s: State, before: seq<Event>, e: Event, events: seq<Event>)
    requires RelayInv(s) && Past(s, before) && Enabled(s, e)
    requires forall x :: x in events <==> x in before || x == e
    ensures Past(Next(s, e), events)
  {
    StepPhase(s, e);
  }

  /** What is in a run is in front of its last step, or is the last step. */
  lemma InFrontOrLast(events: seq<Event>)
    requires events != []
    ensures forall x :: x in events <==> x in events[..|events| - 1] || x == events[|events| - 1]
  {
    assert events == events[..|events| - 1] + [events[|events| - 1]];
  }

  lemma {:induction false} RunPast(s0: State, events: seq<Event>)
    requires NewCopier(s0) && IsRun(s0, events)
    ensures Past(After(s0, events), events)
    decreases |events|
  {
    NewCopierInv(s0);
    if events != [] {
      var before, last := events[..|events| - 1], events[|events| - 1];
      RunPast(s0, before);
      RunKeepsInv(s0, before);
      InFrontOrLast(events);
      StepPast(After(s0, before), before, last, events);
    }
  }

  /** For both copiers and in every run: nothing reaches a peer and nothing is relayed unless the server
      was resolved and connected to; and the copier has stopped exactly if a step ahead of the relay
      has failed. */
  lemma NothingBeforeTheConnect(s0: State, events: seq<Event>)
    requires NewCopier(s0) && IsRun(s0, events)
    ensures var s := After(s0, events);
      && (s.remote != "" || s.client != "" || s.phase.Relaying? ==>
            Resolved(true) in events && Connected(true) in events)
      && (s.phase.Stopped? <==> exists e :: e in events && Fails(e))
  {
    RunPast(s0, events);
  }

  /** After a failed step ahead of the relay nothing more happens: no peer gets another byte. */
  lemma FailureIsFinal(s0: State, events: seq<Event>, more: seq<Event>)
    requires NewCopier(s0) && IsRun(s0, events) && (exists e :: e in events && Fails(e))
    requires IsRun(After(s0, events), more)
    ensures more == []
    decreases |more|
  {
    RunPast(s0, events);
    NewCopierInv(s0);
    RunKeepsInv(s0, events);
    if more != [] {
      FailureIsFinal(s0, events, more[..|more| - 1]);
      assert more[..|more| - 1] == [];
      StepPhase(After(s0, events), more[|more| - 1]);
    }
  }

  // ----- how much each peer has got

  /** Bytes that a step hands to the remote server, and to the client. */
  function ToServer(kind: Kind, e: Event): nat {
    match e
    case TakePreamble(n) => if kind.Http? then n else 0
    case TakeLeftover(n) => n
    case Up(d) => if d.Accept? then d.n else 0
    case _ => 0
  }

  function ToPeer(kind: Kind, e: Event): nat {
    match e
    case TakePreamble(n) => if kind.Http? then 0 else n
    case Down(d) => if d.Accept? then d.n else 0
    case _ => 0
  }

  function CountServer(kind: Kind, events: seq<Event>): nat {
    if events == [] then 0
    else CountServer(kind, events[..|events| - 1]) + ToServer(kind, events[|events| - 1])
  }

  function CountPeer(kind: Kind, events: seq<Event>): nat {
    if events == [] then 0
    else CountPeer(kind, events[..|events| - 1]) + ToPeer(kind, events[|events| - 1])
  }

  /** What was read from the client during the relay, and from the server. */
  function ReadUp(events: seq<Event>): string {
    if events == [] then ""
    else
      var last := events[|events| - 1];
      ReadUp(events[..|events| - 1]) + if last.Up? && last.e.ReadSome? then last.e.bytes else ""
  }

  function ReadDown(events: seq<Event>): string {
    if events == [] then ""
    else
      var last := events[|events| - 1];
      ReadDown(events[..|events| - 1]) + if last.Down? && last.e.ReadSome? then last.e.bytes else ""
  }

  lemma StepCounts(s: State, e: Event)
    requires Enabled(s, e)
    ensures |Next(s, e).remote| == |s.remote| + ToServer(s.kind, e)
    ensures |Next(s, e).client| == |s.client| + ToPeer(s.kind, e)
    ensures Next(s, e).kind == s.kind
  {}

  lemma StepReads(s: State, e: Event)
    requires Enabled(s, e)
    ensures Next(s, e).up.received == s.up.received + if e.Up? && e.e.ReadSome? then e.e.bytes else ""
    ensures Next(s, e).down.received == s.down.received + if e.Down? && e.e.ReadSome? then e.e.bytes else ""
  {
    assert s.up.received + "" == s.up.received && s.down.received + "" == s.down.received;
    if e.Up? {
      RelayEvents.StepHistories(s.up, e.e);
    } else if e.Down? {
      RelayEvents.StepHistories(s.down, e.e);
    }
  }

  /** In every run each peer has got as many bytes as it took, and the relay has read what it was given:
      with the phase order these are the streams, byte by byte. */
  lemma {:induction false} StreamsAreCounted(s0: State, events: seq<Event>)
    requires NewCopier(s0) && IsRun(s0, events)
    ensures var s := After(s0, events);
      && |s.remote| == CountServer(s0.kind, events) && |s.client| == CountPeer(s0.kind, events)
      && s.up.received == ReadUp(events) && s.down.received == ReadDown(events) && s.kind == s0.kind
    decreases |events|
  {
    if events != [] {
      StreamsAreCounted(s0, events[..|events| - 1]);
      StepCounts(After(s0, events[..|events| - 1]), events[|events| - 1]);
      StepReads(After(s0, events[..|events| - 1]), events[|events| - 1]);
    }
  }
}
