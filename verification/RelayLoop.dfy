// The relay direction as an object: a fixed array, filled in place by reads and drained by writes.
// It is do_relay of the copiers, and the loop from the proxy to the client of the simple proxy.
module RelayLoops {
  import opened Basics
  import opened Relay

  /** Bytes arrive in a buffer: its front is overwritten, the rest stays. */
  method Fill(buffer: array<char>, bytes: string)
    requires |bytes| <= buffer.Length
    modifies buffer
    ensures buffer[..] == Filled(old(buffer[..]), bytes)
  {
    forall k | 0 <= k < |bytes| {
      buffer[k] := bytes[k];
    }
  }

  class RelayLoop {
    const buffer: array<char>
    var pendingReads: nat
    var pendingWrites: seq<Write>
    ghost var failed: seq<Write>
    ghost var received: string
    ghost var sent: string

    ghost function View(): Direction
      reads this, buffer
    {
      Direction(buffer[..], pendingReads, pendingWrites, failed, received, sent)
    }

    constructor ()
      ensures buffer.Length == MAX_LENGTH == 4096 && fresh(buffer)
      ensures View() == Idle(buffer[..])
    {
      buffer := new char[MAX_LENGTH];
      pendingReads, pendingWrites, failed, received, sent := 0, [], [], "", "";
    }

    method StartRead()
      modifies this
      ensures View() == DoRead(old(View()))
    {
      pendingReads := pendingReads + 1;
    }

    method StartWrite(length: nat)
      modifies this
      ensures View() == DoWrite(old(View()), length)
    {
      pendingWrites := pendingWrites + [Write(length, 0)];
    }

    /** Some bytes have been read: write them on. */
    method OnRead(bytes: string)
      requires Enabled(View(), ReadSome(bytes))
      modifies this, buffer
      ensures View() == Next(old(View()), ReadSome(bytes))
    {
      pendingReads := pendingReads - 1;
      Fill(buffer, bytes);
      received := received + bytes;
      StartWrite(|bytes|);
    }

    method OnReadEnd()
      requires Enabled(View(), ReadEnd)
      modifies this
      ensures View() == Next(old(View()), ReadEnd)
    {
      pendingReads := pendingReads - 1;
    }

    /** The destination takes bytes out of the buffer, as they are in it at that time. */
    method Take(i: nat, n: nat) returns (taken: string)
      requires Enabled(View(), Accept(i, n))
      modifies this
      ensures View() == Next(old(View()), Accept(i, n))
      ensures sent == old(sent) + taken
    {
      var w := pendingWrites[i];
      taken := buffer[w.done..w.done + n];
      assert taken == buffer[..][w.done..w.done + n];
      sent := sent + taken;
      pendingWrites := pendingWrites[i := Write(w.length, w.done + n)];
    }

    /** All of a write has been taken: read on. */
    method OnWritten(i: nat)
      requires Enabled(View(), WriteDone(i))
      modifies this
      ensures View() == Next(old(View()), WriteDone(i))
    {
      pendingWrites := Without(pendingWrites, i);
      StartRead();
    }

    method OnWriteFailed(i: nat)
      requires Enabled(View(), WriteFail(i))
      modifies this
      ensures View() == Next(old(View()), WriteFail(i))
    {
      failed := failed + [pendingWrites[i]];
      pendingWrites := Without(pendingWrites, i);
    }
  }
}
