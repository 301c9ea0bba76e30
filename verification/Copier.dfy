// The copier object: a chain of callbacks, each of which starts the next operation, and the two
// relay loops that the last of them starts.
module CopierObject {
  import opened CopierMachine
  import CopierRuns
  import R = Relay
  import L = RelayLoops

  class Copier {
    const kind: Kind
    const preamble: string
    const buffer: string
    const up: L.RelayLoop
    const down: L.RelayLoop
    var phase: Phase
    ghost var remote: string
    ghost var client: string

    ghost function View(): State
      reads this, up, up.buffer, down, down.buffer
    {
      State(kind, phase, preamble, buffer, up.View(), down.View(), remote, client)
    }

    ghost predicate Valid()
      reads this, up, up.buffer, down, down.buffer
    {
      up != down && up.buffer != down.buffer && Inv(View())
    }

    /** http_copier: the request has been rewritten and its server is being resolved. */
    constructor Http(request: string, leftover: string)
      ensures Valid() && View() == HttpStart(request, leftover, up.buffer[..], down.buffer[..])
      ensures fresh(up) && fresh(up.buffer) && fresh(down) && fresh(down.buffer)
    {
      kind, preamble, buffer := CopierMachine.Http, request, leftover;
      phase, remote, client := Resolving, "", "";
      up := new L.RelayLoop();
      down := new L.RelayLoop();
      new;
      CopierRuns.StartInv(request, leftover, up.buffer[..], down.buffer[..]);
    }

    /** socket_copier: the bytes it is given are not taken over into its member. */
    constructor Socket(leftover: string)
      ensures Valid() && View() == SocketStart(leftover, up.buffer[..], down.buffer[..])
      ensures fresh(up) && fresh(up.buffer) && fresh(down) && fresh(down.buffer)
    {
      kind, preamble, buffer := CopierMachine.Socket, REPLY, "";
      phase, remote, client := Resolving, "", "";
      up := new L.RelayLoop();
      down := new L.RelayLoop();
      new;
      CopierRuns.StartInv("", leftover, up.buffer[..], down.buffer[..]);
    }

    method OnResolved(ok: bool)
      requires phase.Resolving?
      modifies this
      ensures View() == Next(old(View()), Resolved(ok))
    {
      phase := if ok then Connecting else Stopped;
    }

    method OnConnected(ok: bool)
      requires phase.Connecting?
      modifies this
      ensures View() == Next(old(View()), Connected(ok))
    {
      phase := if ok then SendingPreamble(0) else Stopped;
    }

    /** The first peer takes bytes of the request or of the reply. */
    method PreambleTaken(n: nat)
      requires phase.SendingPreamble? && phase.done + n <= |preamble|
      modifies this
      ensures View() == Next(old(View()), TakePreamble(n))
    {
      var bytes := preamble[phase.done..phase.done + n];
      if kind.Http? {
        remote := remote + bytes;
      } else {
        client := client + bytes;
      }
      phase := SendingPreamble(phase.done + n);
    }

    method OnPreambleSent(ok: bool)
      requires phase.SendingPreamble? && (ok ==> phase.done == |preamble|)
      modifies this
      ensures View() == Next(old(View()), if ok then PreambleSent else PreambleFail)
    {
      phase := if ok then SendingLeftover(0) else Stopped;
    }

    method LeftoverTaken(n: nat)
      requires phase.SendingLeftover? && phase.done + n <= |buffer|
      modifies this
      ensures View() == Next(old(View()), TakeLeftover(n))
    {
      remote := remote + buffer[phase.done..phase.done + n];
      phase := SendingLeftover(phase.done + n);
    }

    /** Everything ahead of the relay is sent: both directions start to read. */
    method OnLeftoverSent(ok: bool)
      requires up != down && phase.SendingLeftover? && (ok ==> phase.done == |buffer|)
      modifies this, up, down
      ensures View() == Next(old(View()), if ok then LeftoverSent else LeftoverFail)
    {
      if ok {
        down.StartRead();
        up.StartRead();
        phase := Relaying;
      } else {
        phase := Stopped;
      }
    }

    /** The callbacks of do_relay. */
    static method Dispatch(relay: L.RelayLoop, e: R.Event) returns (taken: string)
      requires R.Enabled(relay.View(), e)
      modifies relay, relay.buffer
      ensures relay.View() == R.Next(old(relay.View()), e)
      ensures taken == Taken(old(relay.View()), e)
    {
      taken := "";
      match e {
        case ReadSome(bytes) => relay.OnRead(bytes);
        case ReadEnd => relay.OnReadEnd();
        case Accept(i, n) =>
          ghost var sent := relay.sent;
          taken := relay.Take(i, n);
          assert relay.sent[|sent|..] == taken;
        case WriteDone(i) => relay.OnWritten(i);
        case WriteFail(i) => relay.OnWriteFailed(i);
      }
    }

    /** A completion in the direction from the client to the remote server. */
    method OnUp(e: R.Event)
      requires up != down && up.buffer != down.buffer && R.Enabled(up.View(), e)
      modifies this, up, up.buffer
      ensures View() == Next(old(View()), Up(e))
    {
      var taken := Dispatch(up, e);
      remote := remote + taken;
    }

    /** A completion in the direction from the remote server to the client. */
    method OnDown(e: R.Event)
      requires up != down && up.buffer != down.buffer && R.Enabled(down.View(), e)
      modifies this, down, down.buffer
      ensures View() == Next(old(View()), Down(e))
    {
      var taken := Dispatch(down, e);
      client := client + taken;
    }

    /** Any completion keeps the invariant of the copier. */
    method Complete(e: Event)
      requires Valid() && Enabled(View(), e)
      modifies this, up, up.buffer, down, down.buffer
      ensures Valid() && View() == Next(old(View()), e)
    {
      ghost var next := Next(View(), e);
      assert Inv(next) by { StepKeepsInv(View(), e); }
      match e {
        case Resolved(ok) => OnResolved(ok);
        case Connected(ok) => OnConnected(ok);
        case TakePreamble(n) => PreambleTaken(n);
        case PreambleSent => OnPreambleSent(true);
        case PreambleFail => OnPreambleSent(false);
        case TakeLeftover(n) => LeftoverTaken(n);
        case LeftoverSent => OnLeftoverSent(true);
        case LeftoverFail => OnLeftoverSent(false);
        case Up(d) => OnUp(d);
        case Down(d) => OnDown(d);
      }
      assert View() == next;
    }
  }
}
