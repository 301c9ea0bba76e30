// The session object: its fields, changed in place by the callbacks and by the handlers.
module HttpSessionObject {
  import opened Basics
  import M = HttpSessionMachine

  class HttpSession {
    var responseQueue: seq<M.Response>
    var pendingReads: nat
    var uploads: seq<nat>
    var pendingWrites: seq<bool>
    var requests: nat
    ghost var pushed: seq<M.Response>
    ghost var written: seq<M.Response>

    ghost function View(): M.State
      reads this
    {
      M.State(responseQueue, pendingReads, uploads, pendingWrites, requests, pushed, written)
    }

    ghost predicate Valid()
      reads this
    {
      M.Inv(View())
    }

    /** A new session that is run. */
    constructor ()
      ensures Valid() && View() == M.INIT
    {
      responseQueue, pendingReads, uploads, pendingWrites, requests := [], 0, [], [], 0;
      pushed, written := [], [];
      new;
      DoRead();
    }

    method DoRead()
      modifies this
      ensures View() == M.DoRead(old(View()))
    {
      pendingReads := pendingReads + 1;
    }

    method ContinueReadIfNeeded()
      modifies this
      ensures View() == M.ContinueReadIfNeeded(old(View()))
    {
      if |responseQueue| < M.QUEUE_LIMIT {
        DoRead();
      }
    }

    method DoWrite()
      modifies this
      ensures View() == M.DoWrite(old(View()))
    {
      if responseQueue != [] {
        var keepAlive := responseQueue[0].keepAlive;
        pendingWrites := pendingWrites + [keepAlive];
      }
    }

    method QueueWrite(response: M.Response)
      modifies this
      ensures View() == M.QueueWrite(old(View()), response)
    {
      responseQueue := responseQueue + [response];
      pushed := pushed + [response];
      if |responseQueue| == 1 {
        DoWrite();
      }
    }

    /** A header read has ended as `e` says; a request is dispatched to its handler. */
    method OnRead(e: M.Event)
      requires M.Reading(e) && M.Enabled(View(), e)
      modifies this
      ensures View() == M.Next(old(View()), e)
    {
      pendingReads := pendingReads - 1;
      if e.ReadEnd? || e.ReadFail? {
        return;
      }
      var request := requests;
      requests := requests + 1;
      if e.FileRequest? {
        QueueWrite(M.Response(request, e.keepAlive));
      } else if e.UploadRequest? {
        uploads := uploads + [request];
      }
    }

    /** The body of an upload has been read, or reading it has failed. */
    method OnUploadRead(i: nat, ok: bool, keepAlive: bool)
      requires i < |uploads|
      modifies this
      ensures View() == M.Next(old(View()), if ok then M.UploadDone(i, keepAlive) else M.UploadFail(i))
    {
      var request := uploads[i];
      uploads := Without(uploads, i);
      if !ok {
        return;
      }
      QueueWrite(M.Response(request, keepAlive));
      ContinueReadIfNeeded();
    }

    /** A write has ended. A success pops its response, unless the response closes the connection;
        a queue at its limit resumes reading before the pop. */
    method OnWrite(i: nat, ok: bool)
      requires i < |pendingWrites| && (ok ==> responseQueue != [])
      modifies this
      ensures View() == M.Next(old(View()), if ok then M.WriteDone(i) else M.WriteFail(i))
    {
      var keepAlive := pendingWrites[i];
      pendingWrites := Without(pendingWrites, i);
      if !ok {
        return;
      }
      written := written + [responseQueue[0]];
      if !keepAlive {
        return;
      }
      if |responseQueue| >= M.QUEUE_LIMIT {
        DoRead();
      }
      responseQueue := responseQueue[1..];
      DoWrite();
    }

    /** Any completion, on the session's strand: it keeps the invariant, in particular the limit of
        the queue and the order of the responses. */
    method Complete(e: M.Event)
      requires Valid() && M.Enabled(View(), e)
      modifies this
      ensures Valid() && View() == M.Next(old(View()), e)
    {
      M.StepKeepsInv(View(), e);
      match e {
        case UploadDone(i, keepAlive) => OnUploadRead(i, true, keepAlive);
        case UploadFail(i) => OnUploadRead(i, false, false);
        case WriteDone(i) => OnWrite(i, true);
        case WriteFail(i) => OnWrite(i, false);
        case _ => OnRead(e);
      }
    }
  }
}
