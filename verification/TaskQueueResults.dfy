// The results map of the task queue, seen by the one thread that runs commands and asks for
// their results, is a plain map from id to the result of the latest command of that id.
module TaskQueueResults {
  import opened Basics
  import opened TaskQueueMachine
  import opened TaskQueueProgress

  // ----- tickets

  /** The commands among some tasks, in order. */
  function Commands(tasks: seq<Task>): seq<Task> {
    if tasks == [] then []
    else (if tasks[0].Command? then [tasks[0]] else []) + Commands(tasks[1..])
  }

  /** The commands issued so far, in the order of their tickets. */
  function Packaged(issued: seq<string>): seq<Task> {
    seq(|issued|, k requires 0 <= k < |issued| => Command(k, issued[k]))
  }

  /** What a thread inside add_task has not pushed yet. */
  function Pending(p: Producer): seq<Task> {
    if p.Locking? || p.Pushing? then [p.task] else []
  }

  function ClientPending(s: State): seq<Task> {
    if CLIENT < |s.producers| then Commands(Pending(s.producers[CLIENT])) else []
  }

  /** Commands are pushed in the order they were issued, each of them once. */
  ghost predicate TicketInv(s: State) {
    && Commands(s.submitted) + ClientPending(s) == Packaged(s.issued)
    && (forall p :: 0 <= p < |s.producers| && p != CLIENT ==> Commands(Pending(s.producers[p])) == [])
  }

  /** Shared states become ready in the same order, with the results of their commands. */
  ghost predicate ReadyInv(s: State) {
    && |Commands(s.finished)| <= |s.issued|
    && (forall k: nat :: k in s.ready <==> k < |Commands(s.finished)|)
    && (forall k: nat :: k in s.ready ==> s.ready[k] == s.issued[k])
    && (forall id :: id in s.futures ==> s.futures[id] < |s.issued|)
  }

  lemma {:induction false} CommandsConcat(a: seq<Task>, b: seq<Task>)
    ensures Commands(a + b) == Commands(a) + Commands(b)
  {
    if a == [] {
      assert a + b == b;
    } else {
      assert (a + b)[0] == a[0] && (a + b)[1..] == a[1..] + b;
      CommandsConcat(a[1..], b);
    }
  }

  lemma CommandsOne(t: Task)
    ensures Commands([t]) == if t.Command? then [t] else []
  {
    assert [t][1..] == [];
  }

  lemma PushTickets(s: State, p: nat)
    requires TicketInv(s) && Enabled(s, Push(p))
    ensures TicketInv(Next(s, Push(p)))
  {
    CommandsConcat(s.submitted, [s.producers[p].task]);
    if p == CLIENT {
      assert ClientPending(s) == Commands([s.producers[p].task]);
      assert ClientPending(Next(s, Push(p))) == [];
    } else {
      assert Commands(Pending(s.producers[p])) == Commands([s.producers[p].task]);
    }
  }

  lemma BeginTickets(s: State, p: nat, name: nat)
    requires TicketInv(s) && Enabled(s, BeginAdd(p, name))
    ensures TicketInv(Next(s, BeginAdd(p, name)))
  {
    CommandsOne(Plain(name));
  }

  lemma RunTickets(s: State, id: string, result: string)
    requires TicketInv(s) && Enabled(s, RunCommand(id, result))
    ensures TicketInv(Next(s, RunCommand(id, result)))
  {
    CommandsOne(Command(|s.issued|, result));
    assert ClientPending(s) == [];
    assert Packaged(s.issued + [result]) == Packaged(s.issued) + [Command(|s.issued|, result)];
  }

  lemma LockTickets(s: State, p: nat)
    requires TicketInv(s) && Enabled(s, LockQueue(p))
    ensures TicketInv(Next(s, LockQueue(p)))
  {
    assert Pending(Pushing(s.producers[p].task)) == Pending(s.producers[p]);
  }

  lemma OtherTickets(s: State, a: Action)
    requires TicketInv(s) && Enabled(s, a)
    requires !a.BeginAdd? && !a.RunCommand? && !a.LockQueue? && !a.Push?
    ensures TicketInv(Next(s, a))
  {
    var t := Next(s, a);
    assert t.submitted == s.submitted && t.issued == s.issued;
    assert forall p :: 0 <= p < |s.producers| ==> Pending(t.producers[p]) == Pending(s.producers[p]);
  }

  lemma StepTickets(s: State, a: Action)
    requires TicketInv(s) && Enabled(s, a)
    ensures TicketInv(Next(s, a))
  {
    if a.BeginAdd? {
      BeginTickets(s, a.p, a.name);
    } else if a.RunCommand? {
      RunTickets(s, a.id, a.result);
    } else if a.LockQueue? {
      LockTickets(s, a.p);
    } else if a.Push? {
      PushTickets(s, a.p);
    } else {
      OtherTickets(s, a);
    }
  }

  /** What has finished is a front part of what was issued. */
  lemma FinishedInOrder(s: State)
    requires FifoInv(s) && TicketInv(s)
    ensures Commands(s.finished) + Commands(InHand(s.worker)) <= Packaged(s.issued)
  {
    CommandsConcat(s.finished, InHand(s.worker));
    CommandsConcat(s.finished + InHand(s.worker), s.tasks);
  }

  /** A command that ends has the ticket after those of the commands that have ended. */
  lemma NextToFinish(s: State)
    requires FifoInv(s) && TicketInv(s) && s.worker.Running?
    ensures var t, k := s.worker.task, |Commands(s.finished)|;
      && Commands(s.finished + [t]) == Commands(s.finished) + (if t.Command? then [t] else [])
      && (t.Command? ==> k < |s.issued| && t == Command(k, s.issued[k]))
  {
    var t, k := s.worker.task, |Commands(s.finished)|;
    CommandsConcat(s.finished, [t]);
    CommandsOne(t);
    FinishedInOrder(s);
    if t.Command? {
      assert (Commands(s.finished) + [t])[k] == t == Packaged(s.issued)[k];
    }
  }

  lemma FinishReady(s: State)
    requires FifoInv(s) && TicketInv(s) && ReadyInv(s) && Enabled(s, WorkerFinish)
    ensures ReadyInv(Next(s, WorkerFinish))
  {
    NextToFinish(s);
  }

  lemma StepReady(s: State, a: Action)
    requires FifoInv(s) && TicketInv(s) && ReadyInv(s) && Enabled(s, a)
    ensures ReadyInv(Next(s, a))
  {
    if a.WorkerFinish? {
      FinishReady(s);
    }
  }

  lemma {:induction false} RunKeepsResults(n: nat, acts: seq<Action>)
    requires IsRun(Init(n), acts)
    ensures Inv(After(Init(n), acts)) && TicketInv(After(Init(n), acts)) && ReadyInv(After(Init(n), acts))
    decreases |acts|
  {
    RunKeepsInv(n, acts);
    if acts != [] {
      var before, last := acts[..|acts| - 1], acts[|acts| - 1];
      RunKeepsInv(n, before);
      RunKeepsResults(n, before);
      StepTickets(After(Init(n), before), last);
      StepReady(After(Init(n), before), last);
    }
  }

  // ----- the plain map

  /** A step of the client alone, on a plain map. */
  function Apply(m: map<string, string>, a: Action): map<string, string> {
    match a
    case RunCommand(id, result) => m[id := result]
    case GetResult(id) => m - {id}
    case _ => m
  }

  function Latest(acts: seq<Action>): map<string, string>
    decreases |acts|
  {
    if acts == [] then map[] else Apply(Latest(acts[..|acts| - 1]), acts[|acts| - 1])
  }

  ghost predicate Follows(s: State, m: map<string, string>) {
    && s.futures.Keys == m.Keys
    && forall id :: id in s.futures ==> s.futures[id] < |s.issued| && s.issued[s.futures[id]] == m[id]
  }

  lemma RunFollows(s: State, id: string, result: string, m: map<string, string>)
    requires Follows(s, m) && Enabled(s, RunCommand(id, result))
    ensures Follows(Next(s, RunCommand(id, result)), m[id := result])
  {}

  lemma StepFollows(s: State, a: Action, m: map<string, string>)
    requires Follows(s, m) && Enabled(s, a)
    ensures Follows(Next(s, a), Apply(m, a))
  {
    match a
    case RunCommand(id, result) => RunFollows(s, id, result, m);
    case GetResult(id) => assert Next(s, a).issued == s.issued;
    case _ => assert Next(s, a).futures == s.futures && Next(s, a).issued == s.issued;
  }

  lemma {:induction false} FuturesFollowLatest(n: nat, acts: seq<Action>)
    requires IsRun(Init(n), acts)
    ensures Follows(After(Init(n), acts), Latest(acts))
    decreases |acts|
  {
    if acts != [] {
      FuturesFollowLatest(n, acts[..|acts| - 1]);
      StepFollows(After(Init(n), acts[..|acts| - 1]), acts[|acts| - 1], Latest(acts[..|acts| - 1]));
    }
  }

  /** Whatever the threads have done in between, a get returns the result of the latest command
      of that id, or the empty text if there is none left to get; afterwards the id is gone, and
      a second get returns the empty text at once. */
  lemma GetReturnsLatest(n: nat, acts: seq<Action>, id: string)
    requires IsRun(Init(n), acts) && Enabled(After(Init(n), acts), GetResult(id))
    ensures var s := After(Init(n), acts);
      var s' := Next(s, GetResult(id));
      && GetValue(s, id) == (if id in Latest(acts) then Latest(acts)[id] else "")
      && s'.futures.Keys == Latest(acts).Keys - {id}
      && Enabled(s', GetResult(id)) && GetValue(s', id) == ""
  {
    RunKeepsResults(n, acts);
    FuturesFollowLatest(n, acts);
  }

  /** query_task_result: no entry is the exception of `at`, otherwise 1 if the value is there. */
  function Query(s: State, id: string): Option<int> {
    if id !in s.futures then None
    else if s.futures[id] in s.ready then Some(1) else Some(0)
  }

  lemma {:induction false} CommandsMember(tasks: seq<Task>, t: Task)
    requires t.Command?
    ensures t in tasks <==> t in Commands(tasks)
  {
    if tasks != [] {
      assert tasks == [tasks[0]] + tasks[1..];
      CommandsMember(tasks[1..], t);
    }
  }

  lemma ReadyIffFinished(s: State, k: nat)
    requires FifoInv(s) && TicketInv(s) && ReadyInv(s) && k < |s.issued|
    ensures k in s.ready <==> Command(k, s.issued[k]) in s.finished
  {
    var t := Command(k, s.issued[k]);
    CommandsMember(s.finished, t);
    FinishedInOrder(s);
    assert forall i :: 0 <= i < |Commands(s.finished)| ==> Commands(s.finished)[i] == Packaged(s.issued)[i];
    if k in s.ready {
      assert Commands(s.finished)[k] == t;
    }
  }

  /** A query fails exactly when there is no entry, and otherwise says 1 if the latest command of that
      id has ended and 0 if not; after a 1 a get of the client does not block. */
  lemma QueryTellsTheTruth(n: nat, acts: seq<Action>, id: string)
    requires IsRun(Init(n), acts)
    ensures var s := After(Init(n), acts);
      && (Query(s, id).None? <==> id !in Latest(acts))
      && (id in Latest(acts) ==>
            && id in s.futures
            && Query(s, id) == Some(if Command(s.futures[id], Latest(acts)[id]) in s.finished then 1 else 0))
      && (Query(s, id) == Some(1) && n > 0 && s.producers[CLIENT].Idle? ==> Enabled(s, GetResult(id)))
  {
    RunKeepsResults(n, acts);
    FuturesFollowLatest(n, acts);
    var s := After(Init(n), acts);
    if id in s.futures {
      ReadyIffFinished(s, s.futures[id]);
    }
  }

  lemma FrontHasFewer(tasks: seq<Task>, a: nat, b: nat)
    requires a <= b <= |tasks|
    ensures |Commands(tasks[..a])| <= |Commands(tasks[..b])|
  {
    assert tasks[..a] + tasks[a..b] == tasks[..b];
    CommandsConcat(tasks[..a], tasks[a..b]);
  }

  /** The ticket of a submitted command counts the commands submitted before it. */
  lemma TicketCounts(s: State, i: nat)
    requires TicketInv(s) && i < |s.submitted| && s.submitted[i].Command?
    ensures s.submitted[i].ticket == |Commands(s.submitted[..i])|
  {
    var front, rest := s.submitted[..i], s.submitted[i..];
    assert front + rest == s.submitted;
    CommandsConcat(front, rest);
    assert Commands(rest)[0] == s.submitted[i];
    assert Commands(s.submitted)[|Commands(front)|] == s.submitted[i];
    assert Packaged(s.issued)[|Commands(front)|] == s.submitted[i];
  }

  /** No two submitted commands have the same ticket. */
  lemma TicketsDiffer(s: State, i: nat, j: nat)
    requires TicketInv(s) && i < j < |s.submitted| && s.submitted[i].Command? && s.submitted[j].Command?
    ensures s.submitted[i].ticket < s.submitted[j].ticket
  {
    TicketCounts(s, i);
    TicketCounts(s, j);
    assert s.submitted[..i + 1] == s.submitted[..i] + [s.submitted[i]];
    CommandsConcat(s.submitted[..i], [s.submitted[i]]);
    CommandsOne(s.submitted[i]);
    FrontHasFewer(s.submitted, i + 1, j);
  }

  /** The command behind a shared state that is ready, among the submitted tasks. */
  lemma ReadyIsSubmitted(s: State, k: nat) returns (i: nat)
    requires FifoInv(s) && TicketInv(s) && ReadyInv(s) && k in s.ready
    ensures i < |s.finished| <= |s.submitted| && s.finished[..i + 1] == s.submitted[..i + 1]
    ensures s.submitted[i] == Command(k, s.issued[k])
  {
    ReadyIffFinished(s, k);
    i :| 0 <= i < |s.finished| && s.finished[i] == Command(k, s.issued[k]);
    assert s.finished == s.submitted[..|s.finished|];
  }

  /** When a get can return, the command that it waits for is the i-th submitted task for some i,
      and that task and all submitted before it have ended, in order. */
  lemma GetWaitsForEarlier(n: nat, acts: seq<Action>, id: string) returns (i: nat)
    requires IsRun(Init(n), acts)
    requires Enabled(After(Init(n), acts), GetResult(id)) && id in After(Init(n), acts).futures
    ensures var s := After(Init(n), acts);
      && i < |s.finished| <= |s.submitted| && s.finished[..i + 1] == s.submitted[..i + 1]
      && id in Latest(acts) && s.submitted[i] == Command(s.futures[id], Latest(acts)[id])
      && (forall j :: 0 <= j < |s.submitted| && s.submitted[j].Command? && s.submitted[j].ticket == s.futures[id]
            ==> j == i)
  {
    RunKeepsResults(n, acts);
    FuturesFollowLatest(n, acts);
    var s := After(Init(n), acts);
    i := ReadyIsSubmitted(s, s.futures[id]);
    forall j | 0 <= j < |s.submitted| && s.submitted[j].Command? && s.submitted[j].ticket == s.futures[id]
      ensures j == i
    {
      if j != i {
        TicketsDiffer(s, if i < j then i else j, if i < j then j else i);
      }
    }
  }

  /** The command behind a future of the idle client has ended, runs, or is queued. */
  lemma UnreadyKeepsAwake(s: State, k: nat)
    requires FifoInv(s) && TicketInv(s) && ReadyInv(s) && k < |s.issued|
    requires CLIENT < |s.producers| && s.producers[CLIENT].Idle?
    ensures k in s.ready || NoMoreSleep(s)
  {
    assert ClientPending(s) == [];
    assert |Packaged(s.issued)| == |s.issued|;
    if !NoMoreSleep(s) {
      assert s.finished == s.submitted;
    }
  }

  lemma ContinuationStep(s: State, a: Action)
    requires Enabled(s, a) && (Internal(a) || a.SpuriousWake?)
    requires CLIENT < |s.producers| && s.producers[CLIENT].Idle?
    ensures Next(s, a).futures == s.futures && Next(s, a).issued == s.issued
    ensures Next(s, a).producers[CLIENT].Idle?
    ensures forall k :: k in s.ready ==> k in Next(s, a).ready
  {}

  ghost predicate ResultsInv(s: State) {
    Inv(s) && TicketInv(s) && ReadyInv(s)
  }

  lemma {:induction false} ReadySoon(s: State, k: nat, more: seq<Action>)
    requires ResultsInv(s) && IsContinuation(s, more)
    requires CLIENT < |s.producers| && s.producers[CLIENT].Idle?
    ensures var e := After(s, more);
      && ResultsInv(e) && e.futures == s.futures && e.issued == s.issued && e.producers[CLIENT].Idle?
      && (k < |s.issued| && k !in e.ready ==> |more| + AwakeMeasure(e) <= AwakeMeasure(s))
    decreases |more|
  {
    if more != [] {
      var before, last := more[..|more| - 1], more[|more| - 1];
      assert last in more;
      assert forall a :: a in before ==> a in more;
      ReadySoon(s, k, before);
      var e := After(s, before);
      StepKeepsInv(e, last);
      StepTickets(e, last);
      StepReady(e, last);
      ContinuationStep(e, last);
      if k < |s.issued| && k !in e.ready {
        UnreadyKeepsAwake(e, k);
        AwakeMeasureDecreases(e, last);
      }
    }
  }

  /** While the client waits for a get, some thread can carry on. */
  lemma SomeoneWorks(e: State, id: string)
    requires ResultsInv(e) && LifetimeInv(e) && id in e.futures && e.futures[id] !in e.ready
    requires CLIENT < |e.producers| && e.producers[CLIENT].Idle?
    ensures exists a :: Internal(a) && Enabled(e, a)
  {
    assert !Done(e) by {
      UnreadyKeepsAwake(e, e.futures[id]);
    }
    var a := SomeoneCanStep(e);
  }

  lemma GetWaitsNotForLong(s: State, id: string, more: seq<Action>)
    requires ResultsInv(s) && LifetimeInv(s) && IsContinuation(s, more)
    requires CLIENT < |s.producers| && s.producers[CLIENT].Idle?
    ensures var e := After(s, more);
      Enabled(e, GetResult(id)) || (|more| <= Measure(s) + 4 && exists a :: Internal(a) && Enabled(e, a))
  {
    var e := After(s, more);
    ContinuationKeepsLifetime(s, more);
    ReadySoon(s, if id in s.futures then s.futures[id] else 0, more);
    if !Enabled(e, GetResult(id)) {
      SomeoneWorks(e, id);
    }
  }

  /** If no new call is started: from the moment the client calls a get, the threads make at most so
      many steps before it can return, whatever the scheduler and the spurious wakeups do, and until
      then one of them can carry on. With new calls only the worker's steps are bounded: see
      TaskQueueService. */
  lemma GetReturnsSoon(s: State, id: string, more: seq<Action>)
    requires LifetimeReached(s) && CLIENT < |s.producers| && s.producers[CLIENT].Idle?
    requires IsContinuation(s, more)
    ensures var e := After(s, more);
      Enabled(e, GetResult(id)) || (|more| <= Measure(s) + 4 && exists a :: Internal(a) && Enabled(e, a))
  {
    var n, acts :| IsLifetimeRun(Init(n), acts) && s == After(Init(n), acts);
    RunKeepsInv(n, acts);
    RunKeepsResults(n, acts);
    GetWaitsNotForLong(s, id, more);
  }

  /** Once no thread can carry on, every get of the client can return. */
  lemma GetsReturnAtRest(n: nat, acts: seq<Action>, id: string)
    requires n > 0 && IsLifetimeRun(Init(n), acts) && AtRest(After(Init(n), acts))
    ensures Enabled(After(Init(n), acts), GetResult(id))
  {
    RunKeepsResults(n, acts);
    RunKeepsInv(n, acts);
    var s := After(Init(n), acts);
    RestMeansDone(s);
    assert ClientPending(s) == [];
    assert |Commands(s.finished)| == |Packaged(s.issued)|;
  }
}
