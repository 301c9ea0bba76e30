# A formal model of the asynchronous HTTP server and its proxies

This Dafny 4.11 project models the parts of the repository that hold real state, and proves what
they guarantee. `dafny verify dfyconfig.toml` checks all of it.

Each asynchronous operation completes as the outside world decides: with some bytes, with the end
of a stream, or with an error. A component is therefore a machine whose steps are completions (or,
for the task queue, single steps of its threads), given by `Enabled` and `Next`; a run is a sequence
of steps; and the theorems speak about every run. Beside each machine stands a class with the fields
of the original object. Its methods are the original functions and callbacks, and each of them is
proved to change the object exactly as the machine says.

- **JSON printer** (`JsonText`, `JsonGrammar`, `PrettyPrinter`, `JsonRoundTrip`, `JsonLayout`,
  `JsonCompact`): the recursive printer with one shared indent that is changed in place; a reader
  for RFC 8259; for all trees the round trip, the compact form, which is a shortest text of its
  tree, and the indentation, which is what a formatter makes of the compact form.
- **Task queue** (`TaskQueueMachine`, `TaskQueueProgress`, `TaskQueueResults`, `TaskQueueService`,
  `TaskQueueCalls`, `TaskQueue`): any number of producers, one worker, the destructor, an explicit
  mutex, spurious wakeups, and notifies that come after the unlock. No lost wakeup, exactly-once
  order, absence of deadlock, and the results map as a plain map. The steps of the drain are
  bounded, and so are the worker's steps before a task has run or a get can return while others go
  on adding tasks (and all steps if they do not), for every scheduler and any spurious wakeups.
- **HTTP session** (`HttpSessionMachine`, `HttpSessionReading`, `HttpSessionAnswers`,
  `HttpSession`): the pipelined read and write loops over one response queue with limit eight, with
  the file and the upload handler.
- **Simple proxy** (`Relay`, `RelayEvents`, `RelayLoop`, `TcpConnectionMachine`,
  `TcpConnectionProofs`, `TcpConnectionEvents`, `TcpConnection`, `RequestRewriter`,
  `RewriterMeaning`): two loops over fixed arrays with partial writes and one teardown, and the
  debug mode that collects and rewrites requests.
- **Copiers** (`CopierMachine`, `CopierRuns`, `Copier`): the phases of `http_copier` and
  `socket_copier` before and during their relay.
- **Paths** (`Paths`, `FilePaths`): the cursor loop over path segments, and the path a file is
  served from.

Some findings are that the code does less, or other, than a reader may expect; each is stated with
the exact condition under which the expected property holds.

- The comment at `apps/http_server_async_include/http_session.hpp:185` says that the queue may exceed
  its limit. It never does: a handler is active only when no read is, and the queue then has room.
- `FileRequestHandler` does not resume reading, so a session that has served a file reads no further
  request unless that response filled the queue up (`HttpSessionReading.WhatEndsReading`,
  `HttpSessionReading.FileRequestIsLast`).
- `parse_http_request` keeps the carriage return of each line and adds another
  (`RewriterMeaning.LineContentKept`), so it changes every complete request
  (`RewriterMeaning.EveryRequestIsChanged`).
- The constructor of `socket_copier` drops the bytes it is handed
  (`CopierRuns.SocketDropsLeftover`).
- An empty answer of `next_segment` does not mean what its documentation says when two slashes
  precede a segment or the path starts with another character (`Paths.EmptyAnswerExactly`); on a
  path of the second kind `all_segments` does not end (`Paths.LoopEndsExactly`).
- In debug mode the end of the client's stream drops an unfinished request
  (`TcpConnectionProofs.EndOfStreamInDebugMode`, `TcpConnectionProofs.OneLetterIsLost`).
- A task added while the destructor waits may never run (`TaskQueueProgress.JoinedAndDrained`).

Histories in the states of the machines (what was submitted, answered, received, sent) are proved to
be what the events of the run say, by functions of the events alone (`TaskQueueCalls`,
`HttpSessionAnswers`, `RelayEvents`, `TcpConnectionEvents` and the last part of `CopierRuns`).

The table lists the theorems first. Of the classes it names the members that decide something; the
other callbacks are one or two assignments, proved in the same way, and `Step` or `Complete` of
their class covers them all.

## Model

| member | source | states |
|---|---|---|
| `PrettyPrinter.PrettyPrint` | apps/http_server_async_include/json_util.hpp:15-95 | the text written is exactly the rendering of the tree at the depth given by the indent, a call with an empty indent also ends its line, and the shared indent comes back as it was |
| `PrettyPrinter.PrintObject` | apps/http_server_async_include/json_util.hpp:23-44 | an object one step deeper: the shared indent grows by four for the members and is cut back to what it was |
| `PrettyPrinter.PrintList` | apps/http_server_async_include/json_util.hpp:46-67 | the same for an array |
| `PrettyPrinter.PrintMembers` | apps/http_server_async_include/json_util.hpp:28-39 | the loop over the members writes each with its key and a comma between two, and none after the last |
| `PrettyPrinter.PrintElements` | apps/http_server_async_include/json_util.hpp:51-62 | the loop over the elements, likewise |
| `JsonRoundTrip.PrettyRoundTrip` | apps/http_server_async_include/json_util.hpp:15-95 | for every tree and every blank indent, reading the printed text with the grammar of sections 2 to 7 of RFC 8259 gives that tree, with members and elements in order |
| `JsonRoundTrip.PrettyInjective` | apps/http_server_async_include/json_util.hpp:15-95 | two trees print alike only if they are equal |
| `JsonRoundTrip.SafeIndents` | apps/http_server_async_include/json_util.hpp:15-20 | the round trip holds for all trees exactly if the caller's indent is blank |
| `JsonRoundTrip.NonBlankIndentFails` | apps/http_server_async_include/json_util.hpp:46-66 | with any other indent the empty list does not read back |
| `JsonRoundTrip.StringBack` | apps/http_server_async_include/json_util.hpp:33-33 | a quoted key or string reads back as itself, whatever its characters and whatever follows it |
| `JsonRoundTrip.ValueBack` | apps/http_server_async_include/json_util.hpp:21-91 | every value reads back from the front of any text that does not continue a number |
| `JsonLayout.PrettyErasesToCompact` | apps/http_server_async_include/json_util.hpp:18-94 | without the white space outside strings the printed text is the compact serialization |
| `JsonLayout.AcceptedIsLaidOut` | apps/http_server_async_include/json_util.hpp:25-66 | what the reader of lines accepts: each line starts outside strings, with four spaces for each container around its first character; the brackets match; the only line end outside all containers is the last character |
| `JsonLayout.PrettyIndented` | apps/http_server_async_include/json_util.hpp:18-94 | the text of every top-level call is laid out like that: indentation by four times the nesting, and exactly one line end of its own, at its end |
| `JsonLayout.ScanValue` | apps/http_server_async_include/json_util.hpp:21-91 | a value at any depth leaves a reader at that depth, within a line |
| `JsonCompact.EscapedExactly` | apps/http_server_async_include/json_util.hpp:33-33 | exactly quotation marks, backslashes and control characters are escaped: by two characters where section 7 of RFC 8259 has such an escape, otherwise by their code in lower-case hexadecimal digits |
| `JsonCompact.SignExactly` | apps/http_server_async_include/json_util.hpp:78-78 | exactly the negative integers are printed with a sign |
| `JsonCompact.CompactIsShortest` | apps/http_server_async_include/json_util.hpp:18-94 | the compact serialization reads back as its tree, and no JSON text of that tree, however written, is shorter |
| `JsonCompact.PrettyIsFormatted` | apps/http_server_async_include/json_util.hpp:18-94 | the printed text of every tree is what a formatter that counts open brackets makes of the compact serialization, one character after the other, with one line end at its end |
| `TaskQueueMachine.StepKeepsInv` | apps/http_server_async_include/dic_task.hpp:25-118 | every step of a producer, the worker or the destructor keeps mutual exclusion, the stop discipline, the wakeup invariant and the order of the tasks |
| `TaskQueueMachine.NoLostWakeup` | apps/http_server_async_include/dic_task.hpp:25-46 | in every interleaving a worker that sleeps on queued tasks or on stop has a notify coming |
| `TaskQueueMachine.ExactlyOnceFifo` | apps/http_server_async_include/dic_task.hpp:39-46 | finished, running and queued tasks are, in this order, the submitted ones; the mutex has one holder at a time |
| `TaskQueueCalls.SubmittedAreTheCalls` | apps/http_server_async_include/dic_task.hpp:39-59 | in every run the submitted tasks are, in the order of their pushes, the tasks that the calls were given, as told from the actions alone; a thread has a task open exactly until it has pushed it |
| `TaskQueueCalls.EveryCallIsServed` | apps/http_server_async_include/dic_task.hpp:39-118 | nothing is lost and nothing added: the tasks that calls were given, each as often as given, are the finished ones, the running one, the queued ones and those of calls that have not pushed yet |
| `TaskQueueCalls.CallersWaitOnlyForTheMutex` | apps/http_server_async_include/dic_task.hpp:39-46 | a call can start at any time, and a thread in a call waits for nothing but the mutex |
| `TaskQueueCalls.NotifyWakes` | apps/http_server_async_include/dic_task.hpp:31-45 | a notify wakes a sleeping worker and disturbs no other |
| `TaskQueueCalls.DestructorByItsSteps` | apps/http_server_async_include/dic_task.hpp:25-36 | in every run the destructor has been called, has set stop, has notified and has joined exactly if it took these steps |
| `TaskQueueProgress.MeasureDecreases` | apps/http_server_async_include/dic_task.hpp:98-118 | every step other than a spurious wakeup or a new call decreases the measure; a spurious wakeup adds three |
| `TaskQueueProgress.InternalStepsBounded` | apps/http_server_async_include/dic_task.hpp:98-118 | hence a run without new calls makes at most as many steps other than spurious wakeups as the measure allows, plus three for each spurious wakeup |
| `TaskQueueProgress.HolderCanStep` | apps/http_server_async_include/dic_task.hpp:104-114 | whoever holds the mutex can go on |
| `TaskQueueProgress.SomeoneCanStep` | apps/http_server_async_include/dic_task.hpp:25-118 | no deadlock: while a call, a task or the destructor is unfinished some thread can take a step that is not a spurious wakeup |
| `TaskQueueProgress.RestMeansDone` | apps/http_server_async_include/dic_task.hpp:25-118 | the system is at rest exactly when all calls are over, every submitted task has run in order and a started destructor has joined |
| `TaskQueueProgress.RestAfterAnyRun` | apps/http_server_async_include/dic_task.hpp:25-118 | after any run within the object's lifetime, as long as no new call is started: the bound on the steps that are not spurious wakeups, which grows by three with each of these; and at rest every task has run and the join of a destructor that was called has returned |
| `TaskQueueProgress.DrainAndJoin` | apps/http_server_async_include/dic_task.hpp:25-36 | from the moment the destructor has the mutex the threads make at most as many steps as the measure plus four, spurious wakeups included and whatever the scheduler does; they can go on exactly until the join has returned, and then every submitted task has run |
| `TaskQueueProgress.BoundedExactly` | apps/http_server_async_include/dic_task.hpp:25-118 | the continuations of a state are bounded at all if and only if the destructor has got as far as the mutex; before, a sleeping worker may wake up and go to sleep again without end, so that the destructor gets the mutex needs a fair mutex |
| `TaskQueueProgress.JoinedAndDrained` | apps/http_server_async_include/dic_task.hpp:25-36 | when the join has returned every submitted task has run, if and only if none was pushed after the worker's exit; runs within the object's lifetime push none |
| `TaskQueueProgress.LateTaskIsLost` | apps/http_server_async_include/dic_task.hpp:39-46 | a run in which a task added during the join is never run |
| `TaskQueueResults.GetReturnsLatest` | apps/http_server_async_include/dic_task.hpp:75-86 | whatever the other threads do, a get returns the result of the latest command of that id, or the empty text; the id is gone afterwards and a second get returns the empty text at once |
| `TaskQueueResults.QueryTellsTheTruth` | apps/http_server_async_include/dic_task.hpp:61-73 | a query fails exactly for an unknown id and says ready exactly when the latest command of that id has ended; then a get does not block |
| `TaskQueueResults.GetWaitsForEarlier` | apps/http_server_async_include/dic_task.hpp:75-86 | when a get can return, there is exactly one submitted task that is its command, with the result of the latest command of that id, and that task and every task submitted before it have finished in order |
| `TaskQueueResults.GetReturnsSoon` | apps/http_server_async_include/dic_task.hpp:75-86 | if no new call is started: from the call of a get on all threads together make at most as many steps as the measure plus four before it can return, spurious wakeups included and whatever the scheduler does, and until then some thread can go on |
| `TaskQueueService.NoTaskStarves` | apps/http_server_async_include/dic_task.hpp:98-118 | in every run, however many calls others start, the worker makes at most four steps for each unfinished task up to the i-th submitted one, and five more, before that task has run; within the object's lifetime, until then, the worker or a notify can go on whenever the mutex is free, and its holder can otherwise |
| `TaskQueueService.NoGetStarves` | apps/http_server_async_include/dic_task.hpp:75-118 | the same for a get, with the position of the client's command: no get is starved by the calls of other threads |
| `TaskQueueService.AllStepsUnbounded` | apps/http_server_async_include/dic_task.hpp:39-46 | the steps of all threads together have no such bound: with two threads, for every k there is a run in which a client waits for its result for more than k steps, none of them the worker's |
| `TaskQueueResults.GetsReturnAtRest` | apps/http_server_async_include/dic_task.hpp:75-86 | at rest every get of the client can return |
| `TaskQueueResults.FuturesFollowLatest` | apps/http_server_async_include/dic_task.hpp:49-59 | in every run the map of futures refines the plain map from id to the latest result |
| `TaskQueueResults.StepTickets` | apps/http_server_async_include/dic_task.hpp:49-59 | commands are pushed in the order in which they were issued, each once |
| `TaskQueueResults.StepReady` | apps/http_server_async_include/dic_task.hpp:51-56 | shared states become ready in that order, with the results of their commands |
| `HttpSessionMachine.StepKeepsInv` | apps/http_server_async_include/http_session.hpp:84-255 | every completion, whatever its outcome, keeps back-pressure, the write loop, the order of requests and the history of responses |
| `HttpSessionMachine.BackPressure` | apps/http_server_async_include/http_session.hpp:84-255 | in every run at most one of a read and a handler is in flight, the queue holds at most eight responses, a full queue means no read and no handler, and at most one write is in flight; also after a close or an error |
| `HttpSessionMachine.LiveExactly` | apps/http_server_async_include/http_session.hpp:229-255 | the write loop is stalled with a response queued if and only if some earlier step of the run was a write error or the success of a response without keep-alive; until then the queue is non-empty exactly while its front is being written |
| `HttpSessionMachine.ResponsesInRequestOrder` | apps/http_server_async_include/http_session.hpp:196-255 | the i-th response written is the response to the i-th request, as section 9.3.2 of RFC 9112 requires; a write in flight is of the front of the queue, which is the next response; as long as no write has failed and no response has closed the connection there is one exactly if anything is queued |
| `HttpSessionMachine.WhatStallsTheWriteLoop` | apps/http_server_async_include/http_session.hpp:229-255 | the write loop ends with a response still queued exactly on a write error or after a response without keep-alive |
| `HttpSessionMachine.StalledForEver` | apps/http_server_async_include/http_session.hpp:196-255 | from then on no response is written in any continuation |
| `HttpSessionAnswers.WrittenAreTheAnswers` | apps/http_server_async_include/http_session.hpp:196-255 | told from the events alone, in every run: the responses queued so far are the answers of the handlers in order, each with the keep-alive of its request, and those written are the first of them, one for each success |
| `HttpSessionAnswers.ClosedExactly` | apps/http_server_async_include/http_session.hpp:229-255 | the write loop has ended with its response at the front of the queue exactly if a write has failed or an answer that closes the connection has been written, as told from the events alone |
| `HttpSessionAnswers.AnyOutcome` | apps/http_server_async_include/http_session.hpp:52-255 | a read, a handler and a write in flight may end in any way |
| `HttpSessionReading.CanReadExactly` | apps/http_server_async_include/http_session.hpp:190-255 | another request is read in some continuation if and only if a read is in flight, or an active handler or a full queue whose front will be popped can still start one |
| `HttpSessionReading.NeverReadsAgain` | apps/http_server_async_include/http_session.hpp:190-255 | otherwise no continuation reads another request |
| `HttpSessionReading.ReadingNeverLost` | apps/http_server_async_include/handler_file.hpp:147-163 | while every request is served by a successful upload, no write has failed and no response has closed the connection, there is a read, a handler, or a full queue with a write in flight |
| `HttpSessionReading.UploadSessionReadsOn` | apps/http_server_async_include/handler_file.hpp:160-161 | until then such a session reads on unless the response at the front of the queue is going to close it |
| `HttpSessionReading.FullQueueResumesOnce` | apps/http_server_async_include/http_session.hpp:247-254 | a success that finds the queue full starts exactly one read, pops one response and writes the next, unless the response closes the connection |
| `HttpSessionReading.WhatEndsReading` | apps/http_server_async_include/handler_file.hpp:22-81 | which completions end reading for good; a request to the file handler does, unless its response fills the queue up while the front will be popped |
| `HttpSessionReading.QueueIsWrittenOut` | apps/http_server_async_include/http_session.hpp:229-255 | successes alone write out the whole queue, if no response in it closes the connection |
| `HttpSessionReading.EveryResponseIsWritten` | apps/http_server_async_include/http_session.hpp:196-255 | in every run, whatever comes in between: until a write fails or a response closes the connection, each success writes one more response, a write is in flight while anything is queued, and the k responses queued now have been written after k successes |
| `HttpSessionReading.UnansweredIsLast` | apps/http_server_async_include/handler_file.hpp:103-113 | a request that was dropped without a response is the last one ever read |
| `HttpSessionReading.FileRequestIsLast` | apps/http_server_async_include/handler_file.hpp:22-81 | a session whose first request goes to the file handler reads no other one |
| `Relay.StepKeepsInv` | asio-server/server-async-simple.cpp:176-219 | every step of a relay direction keeps: sent bytes, then unsent bytes of the buffer, are the bytes received |
| `Relay.Conservation` | apps/http_server_async_include/socket_copier.h:36-73 | this holds in every run, with partial writes, and the buffer is not read into while a write takes bytes from it |
| `Relay.GoesOnUntilItEnds` | apps/http_server_async_include/socket_copier.h:46-71 | a direction has exactly one operation in flight until its reading ends or a write fails |
| `Relay.EndsWithoutLoss` | apps/http_server_async_include/socket_copier.h:57-71 | a direction that ends by reading has delivered everything; one that ends by a failed write has lost what that write did not take |
| `RelayEvents.SentIsWhatWasTaken` | apps/http_server_async_include/socket_copier.h:36-73 | in every run what has been sent is the first so many bytes that the source delivered, as many as the destination took, both told from the events alone |
| `RelayEvents.AnyOutcome` | apps/http_server_async_include/socket_copier.h:40-71 | a read may end in any way; a write may be taken in parts of any size, may fail at any time, and is done when all is taken |
| `TcpConnectionProofs.StepKeepsInv` | asio-server/server-async-simple.cpp:65-219 | every completion of either loop keeps the conservation of its bytes, in both modes |
| `TcpConnectionProofs.PlainConservation` | asio-server/server-async-simple.cpp:65-219 | in every run without debug mode and in each direction, sent bytes and the unsent part of the buffer are the received bytes; no buffer is read into during its write |
| `TcpConnectionProofs.DebugConservation` | asio-server/server-async-simple.cpp:87-154 | in debug mode received bytes are the completed batches and the unfinished rest; each batch holds the end of a header and would not without its last chunk, the rest holds none; the proxy gets a prefix of the rewritten batches; the state for reading bodies is never entered |
| `TcpConnectionProofs.EndOfStreamDelivers` | asio-server/server-async-simple.cpp:73-86 | when a peer's stream ends everything read from it has been written onward, and stays so |
| `TcpConnectionProofs.BatchesAreRequests` | asio-server/server-async-simple.cpp:87-115 | in debug mode the client's chunks alone decide about the batches and about what is being collected, under every interleaving with the writes and the other loop |
| `TcpConnectionProofs.EndOfStreamInDebugMode` | asio-server/server-async-simple.cpp:73-115 | in debug mode the end of the client's stream loses exactly the chunks since the last completed request, so nothing if and only if no byte came after the chunk that completed it |
| `TcpConnectionProofs.OneLetterIsLost` | asio-server/server-async-simple.cpp:73-115 | a run in which the client sends one letter and then ends its stream, and the letter reaches nobody |
| `TcpConnectionProofs.LoopsNeverStall` | asio-server/server-async-simple.cpp:65-219 | until the teardown each loop has exactly one operation in flight |
| `TcpConnectionProofs.ClosedForEver` | asio-server/server-async-simple.h:83-96 | after the teardown neither peer gets another byte |
| `TcpConnectionEvents.OpenExactly` | asio-server/server-async-simple.cpp:5-219 | in every run and both modes the connection is torn down exactly by the end of a stream, a failed connect or a failed write |
| `TcpConnectionEvents.StreamsByTheByte` | asio-server/server-async-simple.cpp:65-219 | in every run each peer has got the first so many bytes, as many as it took, of what the other sent; in debug mode the proxy of the rewritten requests; all told from the events alone |
| `TcpConnectionEvents.NothingBeforeTheConnect` | asio-server/server-async-simple.cpp:5-23 | nothing is read from either peer unless the connect has succeeded |
| `TcpConnectionEvents.AnyOutcomeOfReads` | asio-server/server-async-simple.cpp:5-125 | the connect and a read may end in any way at any time |
| `TcpConnectionEvents.AnyOutcomeOfWrites` | asio-server/server-async-simple.cpp:128-174 | a write may fail at any time, be taken in parts of any size until the teardown, and is done when all is taken |
| `RequestRewriter.GetLine` | asio-server/server-async-simple.cpp:33-33 | the next line and the lines after it are the lines of the rest of the text; it fails exactly at the end |
| `RequestRewriter.ParseHttpRequest` | asio-server/server-async-simple.cpp:25-63 | the rewritten request: three words of the first line, then every line with a carriage return added, then an empty line |
| `RewriterMeaning.CompleteExactly` | asio-server/server-async-simple.h:49-53 | a request is recognised as complete exactly if the end of a header is somewhere in it |
| `RewriterMeaning.CompleteStays` | asio-server/server-async-simple.h:49-53 | more bytes, for instance of a body, keep a complete request complete |
| `RewriterMeaning.LinesExactly` | asio-server/server-async-simple.cpp:33-53 | the lines that getline delivers, put together again, are the text with a line end after its last line |
| `RewriterMeaning.RequestLineSpaces` | asio-server/server-async-simple.cpp:50-50 | the rewritten request line has one space after each of the first two words, a carriage return at its end and no other white space, as in section 3 of RFC 9112 |
| `RewriterMeaning.NothingRewritten` | asio-server/server-async-simple.cpp:25-63 | of an empty request the rewriter makes an empty line |
| `RewriterMeaning.RequestLineKept` | asio-server/server-async-simple.cpp:35-50 | reading the rewritten first line gives the same method, url and version, also if some are missing, and no fourth word |
| `RewriterMeaning.RewrittenSplitsBack` | asio-server/server-async-simple.cpp:53-62 | split again, the rewritten request has exactly the lines that were written |
| `RewriterMeaning.RewriteKeepsMeaning` | asio-server/server-async-simple.cpp:25-63 | on any non-empty request the three words are kept, the other lines are the same in number and order up to trailing carriage returns, and one empty line is added |
| `RewriterMeaning.LineContentKept` | asio-server/server-async-simple.cpp:54-58 | the content of a later line is kept if and only if it had no carriage return: lines that end in CR LF get a stray one |
| `RewriterMeaning.EveryRequestIsChanged` | asio-server/server-async-simple.cpp:53-62 | so every request that is complete, and therefore rewritten, is changed in some line after the first |
| `RewriterMeaning.RewriteIsComplete` | asio-server/server-async-simple.h:49-53 | the rewritten form of a non-empty request ends with the end of a header, so it is recognised as complete |
| `CopierMachine.StepKeepsInv` | apps/http_server_async_include/http_copier.h:52-153 | every completion keeps what each peer has got ahead of and during the relay |
| `CopierRuns.HttpPhaseOrder` | apps/http_server_async_include/http_copier.h:52-153 | in every run the remote server has a prefix of the request, the bytes read too much and the later client bytes; during the relay the rest is in the buffer; the client gets only what the server sent |
| `CopierRuns.SocketPhaseOrder` | apps/http_server_async_include/socket_copier.h:126-164 | in every run the client has a prefix of the reply and the server's bytes; the server gets the bytes read after the relay started |
| `CopierRuns.SocketDropsLeftover` | apps/http_server_async_include/socket_copier.h:90-101 | the server's stream is a prefix of the bytes read too much and the later ones in every run, if and only if there were none read too much |
| `CopierRuns.RelayStarts` | apps/http_server_async_include/http_copier.h:52-153 | for both copiers there is a run that sends the whole request or reply and all of the buffer to the right peers and starts a read in both directions |
| `CopierRuns.NothingBeforeTheConnect` | apps/http_server_async_include/socket_copier.h:215-245 | for both copiers and in every run: no byte reaches a peer and nothing is relayed unless the server was resolved and connected to, and the copier has stopped exactly if a step ahead of the relay has failed |
| `CopierRuns.FailureIsFinal` | apps/http_server_async_include/http_copier.h:59-151 | after a failed step ahead of the relay nothing more happens, so no peer gets another byte |
| `CopierRuns.StreamsAreCounted` | apps/http_server_async_include/socket_copier.h:36-164 | in every run each peer has got as many bytes as it took, and the relay has read what it was given, told from the events alone |
| `CopierRuns.ReplyIsAHeader` | apps/http_server_async_include/socket_copier.h:230-230 | the reply to CONNECT is a header of two lines with status 200 |
| `Paths.NextSegment` | apps/http_server_async_include/string_util.hpp:40-49 | the piece after the slash at the cursor and the position of the next slash or the end; no progress exactly if the cursor is not at a slash |
| `Paths.AllSegments` | apps/http_server_async_include/string_util.hpp:58-69 | for a path that is empty or starts with a slash, the loop ends and delivers the non-empty pieces between slashes |
| `Paths.LoopEndsExactly` | apps/http_server_async_include/string_util.hpp:58-69 | the loop reaches the end of a path if and only if the path is empty or starts with a slash |
| `Paths.EmptyAnswerExactly` | apps/http_server_async_include/string_util.hpp:30-39 | an empty answer means that no segment is left, as documented, for exactly the paths that are empty or start with a slash and have no double slash ahead of a segment |
| `Paths.SplitAfterBuild` | apps/http_server_async_include/string_util.hpp:58-69 | splitting a path built from slash-free non-empty segments gives them back |
| `Paths.NormalForm` | apps/http_server_async_include/string_util.hpp:58-69 | splitting and building again changes exactly the paths with an empty piece, and keeps the segments of all |
| `FilePaths.PathCat` | apps/http_server_async_include/http_handler_util.hpp:108-131 | the root without one trailing slash, then the target |
| `FilePaths.JoinedSegments` | apps/http_server_async_include/http_handler_util.hpp:108-131 | the joined path has the root's segments followed by the target's |
| `FilePaths.JoinedAbsolute` | apps/http_server_async_include/http_handler_util.hpp:108-131 | it is absolute exactly if the root is |
| `FilePaths.OneSlashAtTheSeam` | apps/http_server_async_include/http_handler_util.hpp:108-131 | a root gives the same path with and without a slash at its end, and no more than one slash is dropped |
| `FilePaths.WhatIsServed` | apps/http_server_async_include/handler_file.hpp:22-39 | which of the three answers a request gets and why, and when the index file is served |
| `FilePaths.FileFor` | apps/http_server_async_include/handler_file.hpp:22-39 | a bad request for another method or an illegal target, otherwise the joined path, with the index file after a final slash |
| `FilePaths.ServedBelowRoot` | apps/http_server_async_include/handler_file.hpp:30-39 | the resolved path of every served file is the resolved root, the target's segments without dots, and maybe the index file |
| `FilePaths.UpNeedsDotDot` | apps/http_server_async_include/handler_file.hpp:30-34 | a target with a segment of two dots contains two dots, so the check refuses it |
| `FilePaths.UpLeavesRoot` | apps/http_server_async_include/handler_file.hpp:30-34 | without the check the target of two dots would leave the root |
| `TaskQueueObject.TaskQueue.constructor` | apps/http_server_async_include/dic_task.hpp:19-23 | a new queue with its worker about to enter its loop |
| `TaskQueueObject.TaskQueue.RunCommandAsync` | apps/http_server_async_include/dic_task.hpp:49-59 | the id gets the future of a new packaged task, replacing an older one, and the task is on its way to the queue |
| `TaskQueueObject.TaskQueue.QueryTaskResult` | apps/http_server_async_include/dic_task.hpp:61-73 | the answer for the latest future of the id, or the failure for an unknown id |
| `TaskQueueObject.TaskQueue.GetTaskResult` | apps/http_server_async_include/dic_task.hpp:75-86 | the value behind the id's future is returned and the entry removed; an unknown id gives the empty text |
| `TaskQueueObject.TaskQueue.Wait` | apps/http_server_async_include/dic_task.hpp:106-107 | it goes on if there is work or stop is set, and otherwise releases the mutex and sleeps in one step |
| `TaskQueueObject.TaskQueue.TakeOrLeave` | apps/http_server_async_include/dic_task.hpp:109-114 | it leaves exactly when stop is set and no task is left, otherwise it takes the front task; the queue is never empty there |
| `TaskQueueObject.TaskQueue.JoinWorker` | apps/http_server_async_include/dic_task.hpp:32-35 | it returns when the worker has left |
| `TaskQueueObject.TaskQueue.Step` | apps/http_server_async_include/dic_task.hpp:19-118 | any step of any thread is the machine's step and keeps the invariants |
| `HttpSessionObject.HttpSession.constructor` | apps/http_server_async_include/http_session.hpp:279-284 | a new session that runs has one read in flight and nothing queued |
| `HttpSessionObject.HttpSession.QueueWrite` | apps/http_server_async_include/http_session.hpp:196-208 | the response is appended, and the write loop is started by the first one |
| `HttpSessionObject.HttpSession.OnRead` | apps/http_server_async_include/http_session.hpp:84-188 | a read ends the reading or becomes a request for its handler |
| `HttpSessionObject.HttpSession.OnUploadRead` | apps/http_server_async_include/handler_file.hpp:147-163 | a successful upload queues its response and then continues reading; a failed one does nothing |
| `HttpSessionObject.HttpSession.OnWrite` | apps/http_server_async_include/http_session.hpp:229-255 | an error or a response without keep-alive leaves the queue as it is; otherwise reading is resumed at the limit before the pop |
| `HttpSessionObject.HttpSession.Complete` | apps/http_server_async_include/http_session.hpp:84-255 | any completion is the machine's step and keeps the invariant of the session |
| `RelayLoops.Fill` | asio-server/server-async-simple.h:112-117 | bytes that arrive overwrite the front of the array and leave the rest |
| `RelayLoops.RelayLoop.OnRead` | apps/http_server_async_include/socket_copier.h:44-50 | the bytes are in the array and their write is started |
| `RelayLoops.RelayLoop.Take` | apps/http_server_async_include/socket_copier.h:48-51 | the destination gets the bytes that are in the array when it takes them |
| `RelayLoops.RelayLoop.OnWritten` | apps/http_server_async_include/socket_copier.h:53-56 | a completed write starts the next read |
| `TcpConnectionObject.TcpConnection.constructor` | asio-server/server-async-simple.h:33-47 | a new connection with its connect in flight and two arrays of 4096 bytes |
| `TcpConnectionObject.TcpConnection.DoWriteProxy` | asio-server/server-async-simple.cpp:128-174 | length zero sends the request buffer if it is not empty and otherwise reads on; any other length sends that much of the array |
| `TcpConnectionObject.TcpConnection.HandleClientBytes` | asio-server/server-async-simple.cpp:87-124 | in debug mode bytes are collected until the end of a header is there, then rewritten and sent; otherwise they are sent on |
| `TcpConnectionObject.TcpConnection.Complete` | asio-server/server-async-simple.cpp:65-219 | any completion is the machine's step and keeps the invariant of the connection |
| `CopierObject.Copier.Http` | apps/http_server_async_include/http_copier.h:32-44 | http_copier takes over the bytes that were read too much |
| `CopierObject.Copier.Socket` | apps/http_server_async_include/socket_copier.h:90-101 | socket_copier does not: its buffer starts empty |
| `CopierObject.Copier.Complete` | apps/http_server_async_include/http_copier.h:52-153 | any completion is a step of the machine and keeps the invariant of the copier |
| `CopierObject.Copier.Dispatch` | apps/http_server_async_include/socket_copier.h:36-73 | each completion of a relay goes to its callback, and what was taken is reported |

## Left out

- Boost.Asio, Boost.Beast and the operating system: sockets, resolver, acceptors, timeouts, TLS
  handshake and shutdown. An operation completes with a success, an end of stream or an error.
- Boost.JSON and the standard library: the text of strings and integers follows RFC 8259 with the
  mandatory escapes, `getline`, `>>` and `find` follow their standard; numbers with a fraction or an
  exponent are not part of the model, neither as values nor in the reader, and the reader takes no
  lone surrogate.
- The contents of responses: a response is the number of its request and its keep-alive flag.
- WebSocket, CONNECT and absolute targets in a session: the stream is handed over, which for the
  session is the end of its reading.
- `http_copier::start`: how the request target is taken apart with Boost.URL; the serialized request
  is a parameter. Likewise the host and port of a CONNECT target, and the copier that is not started
  because its target has no colon.
- `do_eof` of the sessions and copiers: it shuts down sending, which in the model is one of the ways
  in which later writes fail.
- C++ lifetimes, among them the reference captures of `do_relay`.
- Tasks that throw, several threads that use the unsynchronised results map, and tasks that add
  tasks to their own queue.
- The order in which several spurious wakeups and notifies reach more than one waiter: there is one.
- `path_cat` for Windows, `mime_type`, the router's branches, `get_content_length` (unused),
  `models.hpp`, timestamps and identifiers: tables, logging or copying.
- `http_client_async.hpp`, `http_proxy_server_side.hpp`, `connection_session.hpp`,
  `apps/boost_relay.cpp`, the echo, SSH and SSL servers and the language exercises under `gtest`.
