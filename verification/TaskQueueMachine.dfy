// TaskQueue of dic_task.hpp as a system of interleaved steps: any number of threads that call
// add_task, one worker, one destructor, one mutex and one condition variable. Between two steps
// of a thread every other thread may take steps.
module TaskQueueMachine {

  /** A queued task. A command is a packaged task: its ticket names the shared state that its
      future reads, and `result` is what the command will return. */
  datatype Task = Plain(name: nat) | Command(ticket: nat, result: string)

  datatype Owner = Free | ByProducer(p: nat) | ByWorker | ByDestructor

  /** A thread inside add_task: before the lock, with it, after the push, and after the unlock
      with its notify still to come. */
  datatype Producer = Idle | Locking(task: Task) | Pushing(task: Task) | Unlocking | Notifying

  /** The worker in process_tasks. `Testing` holds the mutex and evaluates the wait's predicate,
      `Taking` holds it after the wait, `Waking` was woken and still has to get the mutex back. */
  datatype Worker = Entering | Testing | Asleep | Waking | Taking | Running(task: Task) | Exited

  datatype Destructor = NotStarted | DLocking | DSetting | DUnlocking | DNotifying | Joining | Joined

  datatype State = State(
    tasks: seq<Task>,
    stop: bool,
    mtx: Owner,
    producers: seq<Producer>,
    worker: Worker,
    destructor: Destructor,
    futures: map<string, nat>,   // task_results: from id to the ticket of its future
    ready: map<nat, string>,     // shared states whose value has been set
    issued: seq<string>,         // history: results of the commands, by ticket
    submitted: seq<Task>,        // history: tasks in the order they were pushed
    finished: seq<Task>)         // history: tasks in the order they ended

  /** run_command_async and the two result calls belong to one thread. */
  const CLIENT: nat := 0

  function Init(n: nat): State {
    State([], false, Free, seq(n, _ => Idle), Entering, NotStarted, map[], map[], [], [], [])
  }

  datatype Action =
    | BeginAdd(p: nat, name: nat)
    | RunCommand(id: string, result: string)
    | LockQueue(p: nat)
    | Push(p: nat)
    | Unlock(p: nat)
    | NotifyOne(p: nat)
    | GetResult(id: string)
    | WorkerLock
    | WorkerTest
    | WorkerTake
    | WorkerFinish
    | SpuriousWake
    | Destroy
    | DtorLock
    | SetStop
    | DtorUnlock
    | NotifyAll
    | Join

  predicate Enabled(s: State, a: Action) {
    match a
    case BeginAdd(p, _) => p < |s.producers| && s.producers[p].Idle?
    case RunCommand(_, _) => CLIENT < |s.producers| && s.producers[CLIENT].Idle?
    case LockQueue(p) => p < |s.producers| && s.producers[p].Locking? && s.mtx.Free?
    case Push(p) => p < |s.producers| && s.producers[p].Pushing?
    case Unlock(p) => p < |s.producers| && s.producers[p].Unlocking?
    case NotifyOne(p) => p < |s.producers| && s.producers[p].Notifying?
    case GetResult(id) =>
      CLIENT < |s.producers| && s.producers[CLIENT].Idle?
      && (id in s.futures ==> s.futures[id] in s.ready)
    case WorkerLock => (s.worker.Entering? || s.worker.Waking?) && s.mtx.Free?
    case WorkerTest => s.worker.Testing?
    case WorkerTake => s.worker.Taking?
    case WorkerFinish => s.worker.Running?
    case SpuriousWake => s.worker.Asleep?
    case Destroy => s.destructor.NotStarted?
    case DtorLock => s.destructor.DLocking? && s.mtx.Free?
    case SetStop => s.destructor.DSetting?
    case DtorUnlock => s.destructor.DUnlocking?
    case NotifyAll => s.destructor.DNotifying?
    case Join => s.destructor.Joining? && s.worker.Exited?
  }

  /** What a notify does to the worker: nothing unless it sleeps. */
  function Woken(w: Worker): Worker {
    if w.Asleep? then Waking else w
  }

  function Next(s: State, a: Action): (r: State)
    requires Enabled(s, a)
    ensures |r.producers| == |s.producers|
  {
    match a
    case BeginAdd(p, name) => s.(producers := s.producers[p := Locking(Plain(name))])
    case RunCommand(id, result) =>
      var ticket := |s.issued|;
      s.(futures := s.futures[id := ticket], issued := s.issued + [result],
         producers := s.producers[CLIENT := Locking(Command(ticket, result))])
    case LockQueue(p) => s.(mtx := ByProducer(p), producers := s.producers[p := Pushing(s.producers[p].task)])
    case Push(p) =>
      var task := s.producers[p].task;
      s.(tasks := s.tasks + [task], submitted := s.submitted + [task], producers := s.producers[p := Unlocking])
    case Unlock(p) => s.(mtx := Free, producers := s.producers[p := Notifying])
    case NotifyOne(p) => s.(worker := Woken(s.worker), producers := s.producers[p := Idle])
    case GetResult(id) => s.(futures := s.futures - {id})
    case WorkerLock => s.(worker := Testing, mtx := ByWorker)
    case WorkerTest =>
      if s.tasks != [] || s.stop then s.(worker := Taking) else s.(worker := Asleep, mtx := Free)
    case WorkerTake =>
      if s.stop && s.tasks == [] then s.(worker := Exited, mtx := Free)
      else if s.tasks == [] then s   // ruled out by the wait: see Inv
      else s.(worker := Running(s.tasks[0]), tasks := s.tasks[1..], mtx := Free)
    case WorkerFinish =>
      var t := s.worker.task;
      s.(worker := Entering, finished := s.finished + [t],
         ready := if t.Command? then s.ready[t.ticket := t.result] else s.ready)
    case SpuriousWake => s.(worker := Waking)
    case Destroy => s.(destructor := DLocking)
    case DtorLock => s.(destructor := DSetting, mtx := ByDestructor)
    case SetStop => s.(destructor := DUnlocking, stop := true)
    case DtorUnlock => s.(destructor := DNotifying, mtx := Free)
    case NotifyAll => s.(destructor := Joining, worker := Woken(s.worker))
    case Join => s.(destructor := Joined)
  }

  /** What get_task_result returns when it does not block. */
  function GetValue(s: State, id: string): string
    requires Enabled(s, GetResult(id))
  {
    if id in s.futures then s.ready[s.futures[id]] else ""
  }

  // ----- runs

  predicate IsRun(s: State, acts: seq<Action>)
    decreases |acts|, 0
  {
    acts == [] ||
    (IsRun(s, acts[..|acts| - 1]) && Enabled(After(s, acts[..|acts| - 1]), acts[|acts| - 1]))
  }

  function After(s: State, acts: seq<Action>): (r: State)
    requires IsRun(s, acts)
    ensures |r.producers| == |s.producers|
    decreases |acts|, 1
  {
    if acts == [] then s else Next(After(s, acts[..|acts| - 1]), acts[|acts| - 1])
  }

  /** The lifetime rule of C++ for the object: no call starts once its destructor has started,
      and the destructor starts when no thread is inside add_task. */
  predicate RespectsLifetime(s: State, a: Action) {
    && (a.BeginAdd? || a.RunCommand? ==> s.destructor.NotStarted?)
    && (a.Destroy? ==> forall p :: 0 <= p < |s.producers| ==> s.producers[p].Idle?)
  }

  predicate IsLifetimeRun(s: State, acts: seq<Action>)
    decreases |acts|
  {
    IsRun(s, acts) &&
    (acts == [] ||
     (IsLifetimeRun(s, acts[..|acts| - 1])
      && RespectsLifetime(After(s, acts[..|acts| - 1]), acts[|acts| - 1])))
  }

  // ----- invariants

  function InHand(w: Worker): seq<Task> {
    if w.Running? then [w.task] else []
  }

  /** A thread that has pushed and whose notify is still to come. */
  predicate WillNotify(p: Producer) {
    p.Unlocking? || p.Notifying?
  }

  predicate SomeoneWillNotify(s: State) {
    exists p :: 0 <= p < |s.producers| && WillNotify(s.producers[p])
  }

  predicate HoldsMutex(p: Producer) {
    p.Pushing? || p.Unlocking?
  }

  ghost predicate MutexInv(s: State) {
    && (forall p :: 0 <= p < |s.producers| ==> (HoldsMutex(s.producers[p]) <==> s.mtx == ByProducer(p)))
    && (s.mtx.ByProducer? ==> s.mtx.p < |s.producers|)
    && (s.worker.Testing? || s.worker.Taking? <==> s.mtx.ByWorker?)
    && (s.destructor.DSetting? || s.destructor.DUnlocking? <==> s.mtx.ByDestructor?)
  }

  ghost predicate StopInv(s: State) {
    && (s.stop <==>
          s.destructor.DUnlocking? || s.destructor.DNotifying? || s.destructor.Joining? || s.destructor.Joined?)
    && (s.worker.Exited? ==> s.stop)
    && (s.destructor.Joined? ==> s.worker.Exited?)
    && (s.worker.Taking? ==> s.tasks != [] || s.stop)
  }

  /** No lost wakeup: a worker that sleeps on work has a notify coming. */
  ghost predicate WakeInv(s: State) {
    s.worker.Asleep? ==>
      && (s.tasks != [] ==> SomeoneWillNotify(s))
      && (s.stop ==> s.destructor.DUnlocking? || s.destructor.DNotifying?)
  }

  /** Every submitted task is done, in hand or queued, in the order of submission. */
  ghost predicate FifoInv(s: State) {
    s.finished + InHand(s.worker) + s.tasks == s.submitted
  }

  ghost predicate Inv(s: State) {
    MutexInv(s) && StopInv(s) && WakeInv(s) && FifoInv(s)
  }

  /** Under the lifetime rule nothing is pushed once the destructor runs. */
  ghost predicate LifetimeInv(s: State) {
    && (!s.destructor.NotStarted? ==> forall p :: 0 <= p < |s.producers| ==> s.producers[p].Idle?)
    && (s.worker.Exited? ==> s.tasks == [])
  }

  lemma InitInv(n: nat)
    ensures Inv(Init(n)) && LifetimeInv(Init(n))
  {}

  lemma StepMutex(s: State, a: Action)
    requires MutexInv(s) && Enabled(s, a)
    ensures MutexInv(Next(s, a))
  {}

  lemma StepStop(s: State, a: Action)
    requires MutexInv(s) && StopInv(s) && Enabled(s, a)
    ensures StopInv(Next(s, a))
  {}

  lemma StepWake(s: State, a: Action)
    requires MutexInv(s) && StopInv(s) && WakeInv(s) && Enabled(s, a)
    ensures WakeInv(Next(s, a))
  {
    var s' := Next(s, a);
    if s'.worker.Asleep? && s'.tasks != [] {
      if a.Push? {
        assert WillNotify(s'.producers[a.p]);
      } else {
        var p :| 0 <= p < |s.producers| && WillNotify(s.producers[p]);
        assert WillNotify(s'.producers[p]);
      }
    }
  }

  lemma StepFifo(s: State, a: Action)
    requires FifoInv(s) && Enabled(s, a)
    ensures FifoInv(Next(s, a))
  {
    match a
    case WorkerTake =>
      if s.tasks != [] {
        assert [s.tasks[0]] + s.tasks[1..] == s.tasks;
      }
    case _ =>
  }

  /** Every step of every thread keeps the invariant. */
  lemma StepKeepsInv(s: State, a: Action)
    requires Inv(s) && Enabled(s, a)
    ensures Inv(Next(s, a))
  {
    StepMutex(s, a);
    StepStop(s, a);
    StepWake(s, a);
    StepFifo(s, a);
  }

  lemma StepLifetime(s: State, a: Action)
    requires Inv(s) && LifetimeInv(s) && Enabled(s, a) && RespectsLifetime(s, a)
    ensures LifetimeInv(Next(s, a))
  {}

  lemma {:induction false} RunKeepsInv(n: nat, acts: seq<Action>)
    requires IsRun(Init(n), acts)
    ensures Inv(After(Init(n), acts))
    ensures IsLifetimeRun(Init(n), acts) ==> LifetimeInv(After(Init(n), acts))
    decreases |acts|
  {
    if acts == [] {
      InitInv(n);
    } else {
      var before, last := acts[..|acts| - 1], acts[|acts| - 1];
      RunKeepsInv(n, before);
      StepKeepsInv(After(Init(n), before), last);
      if IsLifetimeRun(Init(n), acts) {
        StepLifetime(After(Init(n), before), last);
      }
    }
  }

  /** The state after some run, with any number of threads. */
  ghost predicate Reached(s: State) {
    exists n, acts :: IsRun(Init(n), acts) && s == After(Init(n), acts)
  }

  /** The same for a run within the object's lifetime. */
  ghost predicate LifetimeReached(s: State) {
    exists n, acts :: IsLifetimeRun(Init(n), acts) && s == After(Init(n), acts)
  }

  lemma ReachedInv(s: State)
    ensures Reached(s) ==> Inv(s)
    ensures LifetimeReached(s) ==> Inv(s) && LifetimeInv(s)
  {
    if Reached(s) {
      var n, acts :| IsRun(Init(n), acts) && s == After(Init(n), acts);
      RunKeepsInv(n, acts);
    }
    if LifetimeReached(s) {
      var n, acts :| IsLifetimeRun(Init(n), acts) && s == After(Init(n), acts);
      RunKeepsInv(n, acts);
    }
  }

  // ----- main results on safety

  /** In every reachable state a worker that sleeps while tasks are queued or stop is set has a
      notify coming, from a thread in add_task or from the destructor. */
  lemma NoLostWakeup(n: nat, acts: seq<Action>)
    requires IsRun(Init(n), acts)
    ensures var s := After(Init(n), acts);
      s.worker.Asleep? && (s.tasks != [] || s.stop)
      ==> SomeoneWillNotify(s) || s.destructor.DUnlocking? || s.destructor.DNotifying?
  {
    RunKeepsInv(n, acts);
  }

  /** Exactly once and in order: what is finished, in hand and queued is, in this order, what was
      submitted; and the mutex admits one holder. */
  lemma ExactlyOnceFifo(n: nat, acts: seq<Action>)
    requires IsRun(Init(n), acts)
    ensures var s := After(Init(n), acts);
      && s.finished + InHand(s.worker) + s.tasks == s.submitted
      && (forall p, q :: 0 <= p < n && 0 <= q < n && HoldsMutex(s.producers[p]) && HoldsMutex(s.producers[q])
            ==> p == q)
      && (forall p :: 0 <= p < n && HoldsMutex(s.producers[p]) ==> !s.worker.Testing? && !s.worker.Taking?)
  {
    RunKeepsInv(n, acts);
  }
}
