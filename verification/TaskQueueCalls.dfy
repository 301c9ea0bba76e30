// What the calls of add_task and run_command_async submit, told from the actions alone: every task
// that a call was given is pushed once, as it was given.
module TaskQueueCalls {
  import opened TaskQueueMachine

  /** The calls seen from outside: the task of each thread's call that has not been pushed, the tasks
      that have, in order, and the number of commands. */
  datatype Calls = Calls(open: map<nat, Task>, pushed: seq<Task>, commands: nat)

  function Observe(c: Calls, a: Action): Calls {
    match a
    case BeginAdd(p, name) => c.(open := c.open[p := Plain(name)])
    case RunCommand(_, result) =>
      Calls(c.open[CLIENT := Command(c.commands, result)], c.pushed, c.commands + 1)
    case Push(p) => if p in c.open then Calls(c.open - {p}, c.pushed + [c.open[p]], c.commands) else c
    case _ => c
  }

  function Observed(acts: seq<Action>): Calls {
    if acts == [] then Calls(map[], [], 0) else Observe(Observed(acts[..|acts| - 1]), acts[|acts| - 1])
  }

  /** The thread is in a call whose task is still to be pushed. */
  predicate BeforePush(p: Producer) {
    p.Locking? || p.Pushing?
  }

  ghost predicate Agrees(s: State, c: Calls) {
    && s.submitted == c.pushed && |s.issued| == c.commands
    && (forall p: nat :: p in c.open <==> p < |s.producers| && BeforePush(s.producers[p]))
    && (forall p: nat :: p in c.open && p < |s.producers| && BeforePush(s.producers[p])
          ==> c.open[p] == s.producers[p].task)
  }

  lemma StepAgrees(s: State, c: Calls, a: Action)
    requires Agrees(s, c) && Enabled(s, a)
    ensures Agrees(Next(s, a), Observe(c, a))
  {}

  /** In every run the submitted tasks are those of the calls, in the order of their pushes. */
  lemma {:induction false} SubmittedAreTheCalls(n: nat, acts: seq<Action>)
    requires IsRun(Init(n), acts)
    ensures Agrees(After(Init(n), acts), Observed(acts))
    decreases |acts|
  {
    if acts != [] {
      SubmittedAreTheCalls(n, acts[..|acts| - 1]);
      StepAgrees(After(Init(n), acts[..|acts| - 1]), Observed(acts[..|acts| - 1]), acts[|acts| - 1]);
    }
  }

  // ----- no call is lost

  function CountCommands(acts: seq<Action>): nat {
    if acts == [] then 0
    else CountCommands(acts[..|acts| - 1]) + if acts[|acts| - 1].RunCommand? then 1 else 0
  }

  /** The task that a call is given, after so many commands. */
  function GivenBy(a: Action, commands: nat): seq<Task> {
    match a
    case BeginAdd(_, name) => [Plain(name)]
    case RunCommand(_, result) => [Command(commands, result)]
    case _ => []
  }

  /** The tasks that calls were given, in the order of the calls. */
  function Given(acts: seq<Action>): seq<Task> {
    if acts == [] then []
    else Given(acts[..|acts| - 1]) + GivenBy(acts[|acts| - 1], CountCommands(acts[..|acts| - 1]))
  }

  function InCall(p: Producer): multiset<Task> {
    if BeforePush(p) then multiset{p.task} else multiset{}
  }

  /** The tasks of the calls that have not pushed yet. */
  function InCalls(ps: seq<Producer>): multiset<Task> {
    if ps == [] then multiset{} else InCall(ps[0]) + InCalls(ps[1..])
  }

  lemma {:induction false} SameCalls(ps: seq<Producer>, i: nat, p: Producer)
    requires i < |ps| && InCall(p) == InCall(ps[i])
    ensures InCalls(ps[i := p]) == InCalls(ps)
  {
    if i == 0 {
      assert ps[i := p][1..] == ps[1..];
    } else {
      assert ps[i := p][1..] == ps[1..][i - 1 := p];
      SameCalls(ps[1..], i - 1, p);
    }
  }

  lemma {:induction false} OneMoreCall(ps: seq<Producer>, i: nat, p: Producer)
    requires i < |ps| && !BeforePush(ps[i]) && BeforePush(p)
    ensures InCalls(ps[i := p]) == InCalls(ps) + multiset{p.task}
  {
    if i == 0 {
      assert ps[i := p][1..] == ps[1..];
    } else {
      assert ps[i := p][1..] == ps[1..][i - 1 := p];
      OneMoreCall(ps[1..], i - 1, p);
    }
  }

  lemma {:induction false} NoCalls(n: nat)
    ensures InCalls(seq(n, _ => Idle)) == multiset{}
  {
    if n > 0 {
      assert seq(n, _ => Idle)[1..] == seq(n - 1, _ => Idle);
      NoCalls(n - 1);
    }
  }

  ghost predicate Conserved(s: State, given: seq<Task>) {
    multiset(given) == multiset(s.submitted) + InCalls(s.producers)
  }

  lemma BeginConserves(s: State, given: seq<Task>, p: nat, task: Task, t: State)
    requires Conserved(s, given) && p < |s.producers| && s.producers[p].Idle?
    requires t.submitted == s.submitted && t.producers == s.producers[p := Locking(task)]
    ensures Conserved(t, given + [task])
  {
    OneMoreCall(s.producers, p, Locking(task));
  }

  lemma OneCallLess(ps: seq<Producer>, i: nat)
    requires i < |ps| && BeforePush(ps[i])
    ensures InCalls(ps) == InCalls(ps[i := Unlocking]) + multiset{ps[i].task}
  {
    OneMoreCall(ps[i := Unlocking], i, ps[i]);
    assert ps[i := Unlocking][i := ps[i]] == ps;
  }

  lemma Appended(tasks: seq<Task>, task: Task)
    ensures multiset(tasks + [task]) == multiset(tasks) + multiset{task}
  {}

  lemma PushConserves(s: State, given: seq<Task>, p: nat)
    requires Conserved(s, given) && Enabled(s, Push(p))
    ensures Conserved(Next(s, Push(p)), given)
  {
    OneCallLess(s.producers, p);
    Appended(s.submitted, s.producers[p].task);
  }

  lemma SameConserves(s: State, given: seq<Task>, t: State)
    requires Conserved(s, given) && t.submitted == s.submitted && InCalls(t.producers) == InCalls(s.producers)
    ensures Conserved(t, given)
  {}

  lemma AddTaskKeepsCalls(s: State, a: Action)
    requires Enabled(s, a) && (a.LockQueue? || a.Unlock? || a.NotifyOne?)
    ensures Next(s, a).submitted == s.submitted && InCalls(Next(s, a).producers) == InCalls(s.producers)
  {
    match a
    case LockQueue(p) => SameCalls(s.producers, p, Pushing(s.producers[p].task));
    case Unlock(p) => SameCalls(s.producers, p, Notifying);
    case NotifyOne(p) => SameCalls(s.producers, p, Idle);
  }

  lemma OthersKeepCalls(s: State, a: Action)
    requires Enabled(s, a) && !a.BeginAdd? && !a.RunCommand? && !a.Push?
    requires !a.LockQueue? && !a.Unlock? && !a.NotifyOne?
    ensures Next(s, a).submitted == s.submitted && Next(s, a).producers == s.producers
  {}

  lemma OtherConserves(s: State, given: seq<Task>, a: Action)
    requires Conserved(s, given) && Enabled(s, a)
    requires !a.BeginAdd? && !a.RunCommand? && !a.Push?
    ensures Conserved(Next(s, a), given)
  {
    if a.LockQueue? || a.Unlock? || a.NotifyOne? {
      AddTaskKeepsCalls(s, a);
    } else {
      OthersKeepCalls(s, a);
    }
    SameConserves(s, given, Next(s, a));
  }

  lemma StepConserves(s: State, given: seq<Task>, a: Action)
    requires Conserved(s, given) && Enabled(s, a)
    ensures Conserved(Next(s, a), given + GivenBy(a, |s.issued|))
    ensures |Next(s, a).issued| == |s.issued| + if a.RunCommand? then 1 else 0
  {
    if a.BeginAdd? {
      BeginConserves(s, given, a.p, Plain(a.name), Next(s, a));
    } else if a.RunCommand? {
      BeginConserves(s, given, CLIENT, Command(|s.issued|, a.result), Next(s, a));
    } else {
      assert given + [] == given;
      if a.Push? {
        PushConserves(s, given, a.p);
      } else {
        OtherConserves(s, given, a);
      }
    }
  }

  lemma {:induction false} RunConserves(n: nat, acts: seq<Action>)
    requires IsRun(Init(n), acts)
    ensures Conserved(After(Init(n), acts), Given(acts))
    ensures |After(Init(n), acts).issued| == CountCommands(acts)
    decreases |acts|
  {
    if acts == [] {
      NoCalls(n);
    } else {
      var before, last := acts[..|acts| - 1], acts[|acts| - 1];
      RunConserves(n, before);
      StepConserves(After(Init(n), before), Given(before), last);
    }
  }

  lemma {:induction false} NoOpenCall(ps: seq<Producer>)
    requires forall p :: 0 <= p < |ps| ==> !BeforePush(ps[p])
    ensures InCalls(ps) == multiset{}
  {
    if ps != [] {
      NoOpenCall(ps[1..]);
    }
  }

  /** Nothing is lost and nothing is added: in every run the tasks that calls were given, each as often
      as it was given, are those that have finished, the one that runs, those that are queued, and
      those of calls that have not pushed yet; and if there is no such call they are exactly the
      submitted ones. */
  lemma EveryCallIsServed(n: nat, acts: seq<Action>)
    requires IsRun(Init(n), acts)
    ensures var s := After(Init(n), acts);
      && multiset(Given(acts))
         == multiset(s.finished) + multiset(InHand(s.worker)) + multiset(s.tasks) + InCalls(s.producers)
      && ((forall p :: 0 <= p < n ==> !BeforePush(s.producers[p])) ==> multiset(Given(acts)) == multiset(s.submitted))
  {
    RunConserves(n, acts);
    RunKeepsInv(n, acts);
    var s := After(Init(n), acts);
    assert multiset(s.submitted) == multiset(s.finished + InHand(s.worker)) + multiset(s.tasks);
    if forall p :: 0 <= p < n ==> !BeforePush(s.producers[p]) {
      NoOpenCall(s.producers);
    }
  }

  // ----- what a thread waits for

  /** A notify, of a caller or of the destructor, wakes a sleeping worker and disturbs no other. */
  lemma NotifyWakes(s: State, a: Action)
    requires Enabled(s, a) && (a.NotifyOne? || a.NotifyAll?)
    ensures Next(s, a).worker == if s.worker.Asleep? then Waking else s.worker
  {}

  predicate StepOf(p: nat, a: Action) {
    a == LockQueue(p) || a == Push(p) || a == Unlock(p) || a == NotifyOne(p)
  }

  /** A thread inside add_task has one next step, and waits only for the mutex; outside it can start a
      call at any time, whatever the worker, the queue and the destructor do. */
  lemma CallersWaitOnlyForTheMutex(s: State, p: nat)
    requires p < |s.producers|
    ensures s.producers[p].Idle? <==> (forall name :: Enabled(s, BeginAdd(p, name)))
    ensures p == CLIENT ==> (s.producers[p].Idle? <==> (forall id, result :: Enabled(s, RunCommand(id, result))))
    ensures (exists a :: StepOf(p, a) && Enabled(s, a))
      <==> !s.producers[p].Idle? && (s.producers[p].Locking? ==> s.mtx.Free?)
  {
    var t := s.producers[p];
    if t.Idle? {
      assert forall name :: Enabled(s, BeginAdd(p, name));
    } else {
      assert !Enabled(s, BeginAdd(p, 0));
      assert p == CLIENT ==> !Enabled(s, RunCommand("", ""));
      var a := if t.Locking? then LockQueue(p) else if t.Pushing? then Push(p)
               else if t.Unlocking? then Unlock(p) else NotifyOne(p);
      assert StepOf(p, a) && (Enabled(s, a) <==> (t.Locking? ==> s.mtx.Free?));
    }
  }

  // ----- the destructor

  /** How far the destructor's own actions have brought it. */
  ghost predicate DestructorAgrees(s: State, acts: seq<Action>) {
    && (s.destructor.NotStarted? <==> Destroy !in acts)
    && (s.stop <==> SetStop in acts)
    && (s.destructor.Joining? || s.destructor.Joined? <==> NotifyAll in acts)
    && (s.destructor.Joined? <==> Join in acts)
  }

  lemma StepDestructor(s: State, before: seq<Action>, a: Action, acts: seq<Action>)
    requires DestructorAgrees(s, before) && Enabled(s, a)
    requires forall x :: x in acts <==> x in before || x == a
    ensures DestructorAgrees(Next(s, a), acts)
  {}

  /** What is in a run is in front of its last step, or is the last step. */
  lemma InFrontOrLast(acts: seq<Action>)
    requires acts != []
    ensures forall x :: x in acts <==> x in acts[..|acts| - 1] || x == acts[|acts| - 1]
  {
    assert acts == acts[..|acts| - 1] + [acts[|acts| - 1]];
  }

  lemma {:induction false} RunDestructor(n: nat, acts: seq<Action>)
    requires IsRun(Init(n), acts)
    ensures DestructorAgrees(After(Init(n), acts), acts)
    decreases |acts|
  {
    if acts != [] {
      var before, last := acts[..|acts| - 1], acts[|acts| - 1];
      RunDestructor(n, before);
      InFrontOrLast(acts);
      StepDestructor(After(Init(n), before), before, last, acts);
    }
  }

  /** In every run the destructor has been called, has set stop, has notified and has joined exactly if
      it took these steps, nothing else starts it or sets stop, and it can be called until it is. */
  lemma DestructorByItsSteps(n: nat, acts: seq<Action>)
    requires IsRun(Init(n), acts)
    ensures DestructorAgrees(After(Init(n), acts), acts)
    ensures Enabled(After(Init(n), acts), Destroy) <==> Destroy !in acts
  {
    RunDestructor(n, acts);
  }
}
