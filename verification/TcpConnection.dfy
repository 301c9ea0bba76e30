// The connection object: two fixed arrays that reads fill in place and writes take bytes from,
// and a request buffer. Each method is one function or callback of tcp_connection.
module TcpConnectionObject {
  import opened Basics
  import opened RequestRewriter
  import opened TcpConnectionMachine
  import opened TcpConnectionProofs
  import R = Relay
  import L = RelayLoops

  class TcpConnection {
    const debugMode: bool
    const dataClient: array<char>
    const down: L.RelayLoop          // its array is data_proxy_
    var headerState: HeaderState
    var isOpen: bool
    var requestBuffer: string
    var connecting: bool
    // operations in flight, and those that have failed
    var clientReads: nat
    var dataWrites: seq<R.Write>
    var requestWrites: seq<R.Write>
    ghost var failedData: seq<R.Write>
    ghost var failedRequest: seq<R.Write>
    // history
    ghost var received: string
    ghost var forwarded: string
    ghost var batches: seq<Batch>

    ghost function View(): State
      reads this, dataClient, down, down.buffer
    {
      State(debugMode, headerState, isOpen, dataClient[..], requestBuffer, connecting, clientReads,
            dataWrites, requestWrites, failedData, failedRequest, down.View(), received, forwarded, batches)
    }

    ghost predicate Valid()
      reads this, dataClient, down, down.buffer
    {
      dataClient != down.buffer && dataClient.Length == down.buffer.Length == R.MAX_LENGTH && Inv(View())
    }

    /** A new connection whose connect to the proxy is in flight. */
    constructor (debugMode: bool)
      ensures Valid() && fresh(dataClient) && fresh(down) && fresh(down.buffer)
      ensures View() == Start(debugMode, dataClient[..], down.buffer[..])
    {
      this.debugMode := debugMode;
      dataClient := new char[R.MAX_LENGTH];
      down := new L.RelayLoop();
      headerState, isOpen, requestBuffer, connecting := ReadingHeaders, true, "", true;
      clientReads, dataWrites, requestWrites, failedData, failedRequest := 0, [], [], [], [];
      received, forwarded, batches := "", "", [];
      new;
      StartInv(debugMode, dataClient[..], down.buffer[..]);
    }

    // ----- functions

    method DoReadClient()
      modifies this
      ensures View() == TcpConnectionMachine.DoReadClient(old(View()))
    {
      clientReads := clientReads + 1;
    }

    method DoWriteProxy(length: nat)
      modifies this
      ensures View() == TcpConnectionMachine.DoWriteProxy(old(View()), length)
    {
      if length == 0 {
        if requestBuffer != "" {
          requestWrites := requestWrites + [R.Write(|requestBuffer|, 0)];
        } else {
          DoReadClient();
        }
      } else {
        dataWrites := dataWrites + [R.Write(length, 0)];
      }
    }

    method Cleanup()
      modifies this
      ensures View() == TcpConnectionMachine.Cleanup(old(View()))
    {
      isOpen := false;
    }

    // ----- callbacks

    method OnConnect(ok: bool)
      requires connecting
      modifies this, down
      ensures View() == Next(old(View()), if ok then Connected else ConnectFail)
    {
      connecting := false;
      if ok {
        DoReadClient();
        down.StartRead();
      } else {
        Cleanup();
      }
    }

    /** The handler of the read, with the bytes in the buffer. */
    method HandleClientBytes(length: nat)
      requires length <= dataClient.Length
      modifies this
      ensures View() == OnClientBytes(old(View()), length)
    {
      if debugMode {
        if headerState.ReadingHeaders? {
          ghost var before := requestBuffer;
          requestBuffer := requestBuffer + dataClient[..length];
          assert dataClient[..][..length] == dataClient[..length];
          if HasCompleteHttpRequest(requestBuffer) {
            batches := batches + [Batch(before, dataClient[..length])];
            requestBuffer := ParseHttpRequest(requestBuffer);
            DoWriteProxy(0);
          } else {
            DoReadClient();
          }
        } else {
          DoWriteProxy(length);
        }
      } else {
        DoWriteProxy(length);
      }
    }

    /** Some bytes of the client have arrived. */
    method OnReadClient(bytes: string)
      requires dataClient != down.buffer && Enabled(View(), ClientBytes(bytes))
      modifies this, dataClient
      ensures View() == Next(old(View()), ClientBytes(bytes))
    {
      clientReads := clientReads - 1;
      received := received + bytes;
      L.Fill(dataClient, bytes);
      HandleClientBytes(|bytes|);
    }

    method OnReadClientEnd()
      requires clientReads > 0
      modifies this
      ensures View() == Next(old(View()), ClientEnd)
    {
      clientReads := clientReads - 1;
      Cleanup();
    }

    /** The proxy takes bytes out of the buffer, as they are in it at that time. */
    method ProxyTakesData(i: nat, n: nat) returns (taken: string)
      requires Enabled(View(), TakeData(i, n))
      modifies this
      ensures View() == Next(old(View()), TakeData(i, n))
      ensures forwarded == old(forwarded) + taken
    {
      var w := dataWrites[i];
      taken := dataClient[w.done..w.done + n];
      assert taken == dataClient[..][w.done..w.done + n];
      forwarded := forwarded + taken;
      dataWrites := dataWrites[i := R.Write(w.length, w.done + n)];
    }

    method OnDataWritten(i: nat)
      requires Enabled(View(), DataWritten(i))
      modifies this
      ensures View() == Next(old(View()), DataWritten(i))
    {
      dataWrites := Without(dataWrites, i);
      DoReadClient();
    }

    method OnDataFailed(i: nat)
      requires Enabled(View(), DataFail(i))
      modifies this
      ensures View() == Next(old(View()), DataFail(i))
    {
      failedData := failedData + [dataWrites[i]];
      dataWrites := Without(dataWrites, i);
      Cleanup();
    }

    method ProxyTakesRequest(i: nat, n: nat) returns (taken: string)
      requires Enabled(View(), TakeRequest(i, n))
      modifies this
      ensures View() == Next(old(View()), TakeRequest(i, n))
      ensures forwarded == old(forwarded) + taken
    {
      var w := requestWrites[i];
      taken := requestBuffer[w.done..w.done + n];
      forwarded := forwarded + taken;
      requestWrites := requestWrites[i := R.Write(w.length, w.done + n)];
    }

    method OnRequestWritten(i: nat)
      requires Enabled(View(), RequestWritten(i))
      modifies this
      ensures View() == Next(old(View()), RequestWritten(i))
    {
      requestWrites := Without(requestWrites, i);
      requestBuffer := "";
      DoReadClient();
    }

    method OnRequestFailed(i: nat)
      requires Enabled(View(), RequestFail(i))
      modifies this
      ensures View() == Next(old(View()), RequestFail(i))
    {
      failedRequest := failedRequest + [requestWrites[i]];
      requestWrites := Without(requestWrites, i);
      Cleanup();
    }

    // ----- the loop from the proxy to the client

    method OnReadProxy(bytes: string)
      requires dataClient != down.buffer && Enabled(View(), Down(R.ReadSome(bytes)))
      modifies down, down.buffer
      ensures View() == Next(old(View()), Down(R.ReadSome(bytes)))
    {
      down.OnRead(bytes);
    }

    method OnReadProxyEnd()
      requires Enabled(View(), Down(R.ReadEnd))
      modifies this, down
      ensures View() == Next(old(View()), Down(R.ReadEnd))
    {
      down.OnReadEnd();
      Cleanup();
    }

    method ClientTakes(i: nat, n: nat) returns (taken: string)
      requires Enabled(View(), Down(R.Accept(i, n)))
      modifies down
      ensures View() == Next(old(View()), Down(R.Accept(i, n)))
      ensures down.sent == old(down.sent) + taken
    {
      taken := down.Take(i, n);
    }

    method OnWriteClientDone(i: nat)
      requires Enabled(View(), Down(R.WriteDone(i)))
      modifies down
      ensures View() == Next(old(View()), Down(R.WriteDone(i)))
    {
      down.OnWritten(i);
    }

    method OnWriteClientFailed(i: nat)
      requires Enabled(View(), Down(R.WriteFail(i)))
      modifies this, down
      ensures View() == Next(old(View()), Down(R.WriteFail(i)))
    {
      down.OnWriteFailed(i);
      Cleanup();
    }

    // ----- any completion

    /** A completion of the loop from the client to the proxy. */
    method OnClientLoop(e: Event)
      requires dataClient != down.buffer && Enabled(View(), e) && !e.Down?
      modifies this, dataClient, down
      ensures View() == Next(old(View()), e)
    {
      match e {
        case Connected => OnConnect(true);
        case ConnectFail => OnConnect(false);
        case ClientBytes(bytes) => OnReadClient(bytes);
        case ClientEnd => OnReadClientEnd();
        case TakeData(i, n) => var _ := ProxyTakesData(i, n);
        case DataWritten(i) => OnDataWritten(i);
        case DataFail(i) => OnDataFailed(i);
        case TakeRequest(i, n) => var _ := ProxyTakesRequest(i, n);
        case RequestWritten(i) => OnRequestWritten(i);
        case RequestFail(i) => OnRequestFailed(i);
      }
    }

    /** A completion of the loop from the proxy to the client. */
    method OnProxyLoop(d: R.Event)
      requires dataClient != down.buffer && Enabled(View(), Down(d))
      modifies this, down, down.buffer
      ensures View() == Next(old(View()), Down(d))
    {
      match d {
        case ReadSome(bytes) => OnReadProxy(bytes);
        case ReadEnd => OnReadProxyEnd();
        case Accept(i, n) => var _ := ClientTakes(i, n);
        case WriteDone(i) => OnWriteClientDone(i);
        case WriteFail(i) => OnWriteClientFailed(i);
      }
    }

    /** Each of them keeps the invariant, in particular that no byte is lost, repeated or moved. */
    method Complete(e: Event)
      requires Valid() && Enabled(View(), e)
      modifies this, dataClient, down, down.buffer
      ensures Valid() && View() == Next(old(View()), e)
    {
      ghost var next := Next(View(), e);
      assert Inv(next) by { StepKeepsInv(View(), e); }
      if e.Down? {
        OnProxyLoop(e.e);
      } else {
        OnClientLoop(e);
      }
      assert View() == next;
    }
  }
}
