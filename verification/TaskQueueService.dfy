// Nobody is starved by the calls of others: however many tasks other threads go on adding, the
// worker needs a bounded number of its own steps until a given task has run or a get can return.
module TaskQueueService {
  import opened TaskQueueMachine
  import opened TaskQueueProgress
  import opened TaskQueueResults

  predicate WorkerStep(a: Action) {
    a.WorkerLock? || a.WorkerTest? || a.WorkerTake? || a.WorkerFinish? || a.SpuriousWake?
  }

  function CountWorker(acts: seq<Action>): nat {
    if acts == [] then 0
    else CountWorker(acts[..|acts| - 1]) + if WorkerStep(acts[|acts| - 1]) then 1 else 0
  }

  /** Four steps for each task up to position i that the worker has not taken yet, and the rest of the
      round it is in. */
  function Work(s: State, i: nat): int {
    4 * (i + 1 - |s.finished| - |InHand(s.worker)|) + if s.worker.Asleep? then 5 else WorkerRank(s.worker)
  }

  // ----- the bound on the worker's steps

  lemma TaskIsAhead(s: State, i: nat)
    requires FifoInv(s) && |s.finished| <= i < |s.submitted|
    ensures s.tasks != [] || s.worker.Running?
  {
    assert |s.finished| + |InHand(s.worker)| + |s.tasks| == |s.submitted|;
  }

  /** A step of the worker takes it nearer to the task, and no other step takes it back. */
  lemma StepServes(s: State, i: nat, a: Action)
    requires FifoInv(s) && Enabled(s, a) && |s.finished| <= i < |s.submitted|
    ensures Work(Next(s, a), i) + (if WorkerStep(a) then 1 else 0) <= Work(s, i)
  {
    TaskIsAhead(s, i);
  }

  lemma HistoryGrows(s: State, a: Action)
    requires Enabled(s, a)
    ensures s.submitted <= Next(s, a).submitted && s.finished <= Next(s, a).finished
  {}

  lemma {:induction false} ServedSoon(s: State, i: nat, more: seq<Action>)
    requires Inv(s) && i < |s.submitted| && IsRun(s, more)
    ensures var e := After(s, more);
      && Inv(e) && s.submitted <= e.submitted && s.finished <= e.finished
      && (|e.finished| <= i ==> CountWorker(more) + Work(e, i) <= Work(s, i))
    decreases |more|
  {
    if more != [] {
      var before, last := more[..|more| - 1], more[|more| - 1];
      ServedSoon(s, i, before);
      var e := After(s, before);
      StepKeepsInv(e, last);
      HistoryGrows(e, last);
      if |e.finished| <= i {
        StepServes(e, i, last);
      }
    }
  }

  lemma {:induction false} LifetimeKept(s: State, more: seq<Action>)
    requires Inv(s) && LifetimeInv(s) && IsLifetimeRun(s, more)
    ensures Inv(After(s, more)) && LifetimeInv(After(s, more))
    decreases |more|
  {
    if more != [] {
      var before, last := more[..|more| - 1], more[|more| - 1];
      LifetimeKept(s, before);
      StepKeepsInv(After(s, before), last);
      StepLifetime(After(s, before), last);
    }
  }

  /** What serves the queue while the mutex is free: the worker goes on, or a notify wakes it. */
  predicate Serves(a: Action) {
    a.WorkerLock? || a.WorkerFinish? || a.NotifyOne?
  }

  /** The service is not stuck: if the mutex is free the worker or a notify can go on, and otherwise the
      thread that holds the mutex can. */
  ghost predicate InService(s: State) {
    exists a :: Enabled(s, a) && if s.mtx.Free? then Serves(a) else Internal(a)
  }

  lemma ServiceGoesOn(s: State, i: nat)
    requires Inv(s) && LifetimeInv(s) && |s.finished| <= i < |s.submitted|
    ensures InService(s)
  {
    TaskIsAhead(s, i);
    if !s.mtx.Free? {
      var a := HolderCanStep(s);
    } else if s.worker.Asleep? {
      var p :| 0 <= p < |s.producers| && WillNotify(s.producers[p]);
      assert !HoldsMutex(s.producers[p]);
      assert Enabled(s, NotifyOne(p)) && Serves(NotifyOne(p));
    } else if s.worker.Running? {
      assert Enabled(s, WorkerFinish) && Serves(WorkerFinish);
    } else {
      assert Enabled(s, WorkerLock) && Serves(WorkerLock);
    }
  }

  /** No task is starved: in every run, whatever calls are started, the worker makes at most four steps
      for each task up to the i-th, and five more, before the i-th submitted task has run; and within
      the object's lifetime the service goes on until then. */
  lemma NoTaskStarves(s: State, i: nat, more: seq<Action>)
    requires Reached(s) && i < |s.submitted| && IsRun(s, more)
    ensures var e := After(s, more);
      && s.submitted <= e.submitted
      && (|e.finished| > i || CountWorker(more) <= 4 * (i + 1 - |s.finished|) + 5)
      && (LifetimeReached(s) && IsLifetimeRun(s, more) ==> |e.finished| > i || InService(e))
  {
    ReachedInv(s);
    ServedSoon(s, i, more);
    if LifetimeReached(s) && IsLifetimeRun(s, more) {
      LifetimeKept(s, more);
      if |After(s, more).finished| <= i {
        ServiceGoesOn(After(s, more), i);
      }
    }
  }

  // ----- a get while others go on adding tasks

  /** Calls of the client, which does not make any while it waits. */
  predicate ByClient(a: Action) {
    a.RunCommand? || a.GetResult? || (a.BeginAdd? && a.p == CLIENT)
  }

  lemma ClientWaits(s: State, a: Action)
    requires Enabled(s, a) && !ByClient(a) && CLIENT < |s.producers| && s.producers[CLIENT].Idle?
    ensures Next(s, a).futures == s.futures && Next(s, a).issued == s.issued
    ensures Next(s, a).producers[CLIENT].Idle?
  {}

  lemma {:induction false} ResultsKept(s: State, more: seq<Action>)
    requires ResultsInv(s) && IsRun(s, more) && forall a :: a in more ==> !ByClient(a)
    requires CLIENT < |s.producers| && s.producers[CLIENT].Idle?
    ensures var e := After(s, more);
      ResultsInv(e) && e.futures == s.futures && e.issued == s.issued && e.producers[CLIENT].Idle?
    decreases |more|
  {
    if more != [] {
      var before, last := more[..|more| - 1], more[|more| - 1];
      assert last in more;
      assert forall a :: a in before ==> a in more;
      ResultsKept(s, before);
      var e := After(s, before);
      StepKeepsInv(e, last);
      StepTickets(e, last);
      StepReady(e, last);
      ClientWaits(e, last);
    }
  }

  /** The idle client's command has been pushed. */
  lemma CommandIsSubmitted(s: State, k: nat) returns (i: nat)
    requires TicketInv(s) && k < |s.issued|
    requires CLIENT < |s.producers| && s.producers[CLIENT].Idle?
    ensures i < |s.submitted| && s.submitted[i] == Command(k, s.issued[k])
  {
    assert ClientPending(s) == [];
    assert Commands(s.submitted)[k] == Packaged(s.issued)[k] == Command(k, s.issued[k]);
    CommandsMember(s.submitted, Command(k, s.issued[k]));
    i :| 0 <= i < |s.submitted| && s.submitted[i] == Command(k, s.issued[k]);
  }

  /** A command that is among the finished tasks has set its result. */
  lemma FinishedIsReady(s: State, i: nat, k: nat)
    requires FifoInv(s) && TicketInv(s) && ReadyInv(s) && k < |s.issued|
    requires i < |s.finished| && i < |s.submitted| && s.submitted[i] == Command(k, s.issued[k])
    ensures k in s.ready
  {
    assert s.finished == s.submitted[..|s.finished|];
    assert s.finished[i] == s.submitted[i];
    ReadyIffFinished(s, k);
  }

  /** While the get cannot return its command is unfinished. */
  lemma GetIsServed(s: State, i: nat, k: nat, more: seq<Action>)
    requires ResultsInv(s) && IsRun(s, more) && forall a :: a in more ==> !ByClient(a)
    requires CLIENT < |s.producers| && s.producers[CLIENT].Idle? && k < |s.issued|
    requires i < |s.submitted| && s.submitted[i] == Command(k, s.issued[k])
    ensures var e := After(s, more);
      k in e.ready || (|e.finished| <= i < |e.submitted| && CountWorker(more) <= 4 * (i + 1 - |s.finished|) + 5)
  {
    ResultsKept(s, more);
    ServedSoon(s, i, more);
    var e := After(s, more);
    if i < |e.finished| {
      FinishedIsReady(e, i, k);
    }
  }

  lemma WaitingGetIsServed(s: State, id: string, i: nat, more: seq<Action>)
    requires ResultsInv(s) && IsRun(s, more) && forall a :: a in more ==> !ByClient(a)
    requires CLIENT < |s.producers| && s.producers[CLIENT].Idle? && id in s.futures && i < |s.submitted|
    requires s.futures[id] < |s.issued| && s.submitted[i] == Command(s.futures[id], s.issued[s.futures[id]])
    ensures var e := After(s, more);
      && (Enabled(e, GetResult(id)) || CountWorker(more) <= 4 * (i + 1 - |s.finished|) + 5)
      && (LifetimeInv(s) && IsLifetimeRun(s, more) ==> Enabled(e, GetResult(id)) || InService(e))
  {
    ResultsKept(s, more);
    GetIsServed(s, i, s.futures[id], more);
    var e := After(s, more);
    if LifetimeInv(s) && IsLifetimeRun(s, more) && !Enabled(e, GetResult(id)) {
      LifetimeKept(s, more);
      ServiceGoesOn(e, i);
    }
  }

  /** No get is starved: in every run in which other threads start as many calls as they like, the
      worker makes at most four steps for each unfinished task up to the client's command, and five
      more, before the get can return; and within the object's lifetime the service goes on until then. */
  lemma NoGetStarves(n: nat, acts: seq<Action>, id: string, more: seq<Action>) returns (i: nat)
    requires IsRun(Init(n), acts) && n > 0 && After(Init(n), acts).producers[CLIENT].Idle?
    requires id in After(Init(n), acts).futures
    requires IsRun(After(Init(n), acts), more) && forall a :: a in more ==> !ByClient(a)
    ensures var s := After(Init(n), acts);
      var e := After(s, more);
      && id in Latest(acts) && i < |s.submitted|
      && s.submitted[i] == Command(s.futures[id], Latest(acts)[id])
      && (Enabled(e, GetResult(id)) || CountWorker(more) <= 4 * (i + 1 - |s.finished|) + 5)
      && (IsLifetimeRun(Init(n), acts) && IsLifetimeRun(s, more) ==> Enabled(e, GetResult(id)) || InService(e))
  {
    RunKeepsInv(n, acts);
    RunKeepsResults(n, acts);
    FuturesFollowLatest(n, acts);
    var s := After(Init(n), acts);
    i := CommandIsSubmitted(s, s.futures[id]);
    WaitingGetIsServed(s, id, i, more);
  }

  // ----- only the worker's steps are bounded

  function Round(p: nat): seq<Action> {
    [BeginAdd(p, 0)] + [LockQueue(p)] + [Push(p)] + [Unlock(p)] + [NotifyOne(p)]
  }

  lemma CountOne(more: seq<Action>, a: Action)
    ensures CountWorker(more + [a]) == CountWorker(more) + if WorkerStep(a) then 1 else 0
  {
    assert (more + [a])[..|more|] == more;
  }

  lemma CountsNothing(more: seq<Action>, p: nat)
    ensures CountWorker(more + Round(p)) == CountWorker(more)
  {
    var r := more;
    CountOne(r, BeginAdd(p, 0));
    r := r + [BeginAdd(p, 0)];
    CountOne(r, LockQueue(p));
    r := r + [LockQueue(p)];
    CountOne(r, Push(p));
    r := r + [Push(p)];
    CountOne(r, Unlock(p));
    r := r + [Unlock(p)];
    CountOne(r, NotifyOne(p));
    assert r + [NotifyOne(p)] == more + Round(p);
  }

  /** One more step of a run within the object's lifetime. */
  lemma ExtendLifetime(s0: State, acts: seq<Action>, s: State, a: Action)
    requires IsLifetimeRun(s0, acts) && After(s0, acts) == s && Enabled(s, a) && RespectsLifetime(s, a)
    ensures IsLifetimeRun(s0, acts + [a]) && After(s0, acts + [a]) == Next(s, a)
  {
    Extend(s0, acts, s, a);
    assert (acts + [a])[..|acts|] == acts;
  }

  /** While the worker runs a task another thread can add one, and is then where it was. */
  ghost predicate BusyWorker(s: State, p: nat) {
    && s.worker.Running? && s.mtx.Free? && s.destructor.NotStarted?
    && p != CLIENT && p < |s.producers| && s.producers[p].Idle?
  }

  /** The state once thread p has pushed its task. */
  function Pushed(s: State, p: nat): State
    requires p < |s.producers|
  {
    s.(tasks := s.tasks + [Plain(0)], submitted := s.submitted + [Plain(0)],
       mtx := ByProducer(p), producers := s.producers[p := Unlocking])
  }

  lemma PushesOne(s0: State, more: seq<Action>, s: State, p: nat)
    requires IsLifetimeRun(s0, more) && After(s0, more) == s && BusyWorker(s, p)
    ensures IsLifetimeRun(s0, more + [BeginAdd(p, 0)] + [LockQueue(p)] + [Push(p)])
    ensures After(s0, more + [BeginAdd(p, 0)] + [LockQueue(p)] + [Push(p)]) == Pushed(s, p)
  {
    var r, t := more, s;
    ExtendLifetime(s0, r, t, BeginAdd(p, 0));
    r, t := r + [BeginAdd(p, 0)], s.(producers := s.producers[p := Locking(Plain(0))]);
    ExtendLifetime(s0, r, t, LockQueue(p));
    r, t := r + [LockQueue(p)], Next(t, LockQueue(p));
    ExtendLifetime(s0, r, t, Push(p));
    assert Next(t, Push(p)).producers == s.producers[p := Unlocking];
  }

  lemma AddsOne(s0: State, more: seq<Action>, s: State, p: nat)
    requires IsLifetimeRun(s0, more) && After(s0, more) == s && BusyWorker(s, p)
    ensures IsLifetimeRun(s0, more + Round(p))
    ensures After(s0, more + Round(p))
         == s.(tasks := s.tasks + [Plain(0)], submitted := s.submitted + [Plain(0)])
  {
    PushesOne(s0, more, s, p);
    var r, t := more + [BeginAdd(p, 0)] + [LockQueue(p)] + [Push(p)], Pushed(s, p);
    ExtendLifetime(s0, r, t, Unlock(p));
    r, t := r + [Unlock(p)], Next(t, Unlock(p));
    ExtendLifetime(s0, r, t, NotifyOne(p));
    assert r + [NotifyOne(p)] == more + Round(p);
    assert Next(t, NotifyOne(p)).producers == s.producers;
  }

  /** While the worker runs one task, others can go on adding tasks for any number of steps. */
  lemma {:induction false} OthersGoOn(s: State, p: nat, k: nat) returns (more: seq<Action>)
    requires BusyWorker(s, p)
    ensures IsLifetimeRun(s, more) && |more| >= k && CountWorker(more) == 0
    ensures forall a :: a in more ==> !ByClient(a)
    ensures var e := After(s, more);
      && BusyWorker(e, p) && e.worker == s.worker && e.producers == s.producers
      && e.ready == s.ready && e.futures == s.futures
  {
    more := [];
    if k > 0 {
      more := OthersGoOn(s, p, k - 1);
      AddsOne(s, more, After(s, more), p);
      CountsNothing(more, p);
      more := more + Round(p);
    }
  }

  /** A client with a command, up to the point where the worker runs it. */
  const PUSHED: seq<Action> := [RunCommand("id", "result")] + [LockQueue(0)] + [Push(0)] + [Unlock(0)] + [NotifyOne(0)]
  const TAKEN: seq<Action> := PUSHED + [WorkerLock] + [WorkerTest] + [WorkerTake]

  lemma PushedRun()
    ensures IsLifetimeRun(Init(2), PUSHED)
    ensures After(Init(2), PUSHED)
         == Init(2).(tasks := [Command(0, "result")], futures := map["id" := 0], issued := ["result"],
                     submitted := [Command(0, "result")])
  {
    var r, t := [], Init(2);
    ExtendLifetime(Init(2), r, t, RunCommand("id", "result"));
    r, t := r + [RunCommand("id", "result")], Next(t, RunCommand("id", "result"));
    ExtendLifetime(Init(2), r, t, LockQueue(0));
    r, t := r + [LockQueue(0)], Next(t, LockQueue(0));
    ExtendLifetime(Init(2), r, t, Push(0));
    r, t := r + [Push(0)], Next(t, Push(0));
    ExtendLifetime(Init(2), r, t, Unlock(0));
    r, t := r + [Unlock(0)], Next(t, Unlock(0));
    ExtendLifetime(Init(2), r, t, NotifyOne(0));
    assert r + [NotifyOne(0)] == PUSHED;
    assert Next(t, NotifyOne(0)).producers == Init(2).producers;
  }

  lemma TakenRun()
    ensures IsLifetimeRun(Init(2), TAKEN)
    ensures var s := After(Init(2), TAKEN);
      BusyWorker(s, 1) && s.producers[CLIENT].Idle? && s.futures == map["id" := 0] && s.ready == map[]
  {
    PushedRun();
    var r, t := PUSHED, After(Init(2), PUSHED);
    ExtendLifetime(Init(2), r, t, WorkerLock);
    r, t := r + [WorkerLock], Next(t, WorkerLock);
    ExtendLifetime(Init(2), r, t, WorkerTest);
    r, t := r + [WorkerTest], Next(t, WorkerTest);
    ExtendLifetime(Init(2), r, t, WorkerTake);
  }

  lemma ClientWaitsAlready() returns (s: State)
    ensures LifetimeReached(s) && BusyWorker(s, 1) && |s.producers| == 2 && s.producers[CLIENT].Idle?
    ensures "id" in s.futures && s.futures["id"] !in s.ready
  {
    TakenRun();
    s := After(Init(2), TAKEN);
  }

  /** So the steps of all threads together have no bound before a get returns: with two threads, for
      every k there is a run in which the client waits for more than k steps, none of them the
      worker's. */
  lemma AllStepsUnbounded(k: nat) returns (s: State, more: seq<Action>)
    ensures LifetimeReached(s) && IsLifetimeRun(s, more) && |s.producers| == 2 && |more| > k
    ensures CountWorker(more) == 0 && forall a :: a in more ==> !ByClient(a)
    ensures var e := After(s, more);
      "id" in e.futures && e.producers[CLIENT].Idle? && !Enabled(e, GetResult("id"))
  {
    s := ClientWaitsAlready();
    more := OthersGoOn(s, 1, k + 1);
  }
}
