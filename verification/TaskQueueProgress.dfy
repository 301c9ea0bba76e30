// The task queue never gets stuck: a bound on the steps of a run that starts no new call, and
// what holds when no thread can step.
module TaskQueueProgress {
  import opened TaskQueueMachine

  /** Steps that carry on what has begun: no new call, and no wakeup out of nowhere. */
  predicate Internal(a: Action) {
    !a.BeginAdd? && !a.RunCommand? && !a.GetResult? && !a.Destroy? && !a.SpuriousWake?
  }

  // ----- the measure

  function ProducerRank(p: Producer): nat {
    match p
    case Idle => 0
    case Notifying => 4
    case Unlocking => 5
    case Pushing(_) => 10
    case Locking(_) => 11
  }

  function WorkerRank(w: Worker): nat {
    match w
    case Exited => 0
    case Asleep => 1
    case Taking => 2
    case Testing => 3
    case Entering => 4
    case Waking => 4
    case Running(_) => 5
  }

  function DestructorRank(d: Destructor): nat {
    match d
    case NotStarted => 0
    case Joined => 0
    case Joining => 1
    case DNotifying => 5
    case DUnlocking => 6
    case DSetting => 7
    case DLocking => 8
  }

  function ProducerRanks(ps: seq<Producer>): nat {
    if ps == [] then 0 else ProducerRank(ps[0]) + ProducerRanks(ps[1..])
  }

  function Measure(s: State): nat {
    4 * |s.tasks| + ProducerRanks(s.producers) + WorkerRank(s.worker) + DestructorRank(s.destructor)
  }

  lemma {:induction false} ChangeOneRank(ps: seq<Producer>, i: nat, p: Producer)
    requires i < |ps|
    ensures ProducerRanks(ps[i := p]) == ProducerRanks(ps) - ProducerRank(ps[i]) + ProducerRank(p)
  {
    if i == 0 {
      assert ps[i := p][1..] == ps[1..];
    } else {
      assert ps[i := p][1..] == ps[1..][i - 1 := p];
      ChangeOneRank(ps[1..], i - 1, p);
    }
  }

  predicate InAddTask(a: Action) {
    a.LockQueue? || a.Push? || a.Unlock? || a.NotifyOne?
  }

  lemma AddTaskDecreases(s: State, a: Action)
    requires Enabled(s, a) && InAddTask(a)
    ensures Measure(Next(s, a)) < Measure(s)
  {
    match a
    case LockQueue(p) => ChangeOneRank(s.producers, p, Pushing(s.producers[p].task));
    case Push(p) => ChangeOneRank(s.producers, p, Unlocking);
    case Unlock(p) => ChangeOneRank(s.producers, p, Notifying);
    case NotifyOne(p) => ChangeOneRank(s.producers, p, Idle);
  }

  /** Every internal step decreases the measure; a spurious wakeup adds at most three. */
  lemma MeasureDecreases(s: State, a: Action)
    requires Inv(s) && Enabled(s, a)
    ensures Internal(a) ==> Measure(Next(s, a)) < Measure(s)
    ensures a.SpuriousWake? ==> Measure(Next(s, a)) == Measure(s) + 3
  {
    if InAddTask(a) {
      AddTaskDecreases(s, a);
    }
  }

  function CountInternal(acts: seq<Action>): nat {
    if acts == [] then 0
    else CountInternal(acts[..|acts| - 1]) + if Internal(acts[|acts| - 1]) then 1 else 0
  }

  /** From any state of the invariant, a run that starts no new call makes at most as many internal
      steps as the measure allows, plus three for every spurious wakeup. */
  lemma {:induction false} InternalStepsBounded(s: State, acts: seq<Action>)
    requires Inv(s) && IsRun(s, acts)
    requires forall a :: a in acts ==> Internal(a) || a.SpuriousWake?
    ensures Inv(After(s, acts))
    ensures CountInternal(acts) + Measure(After(s, acts))
         <= Measure(s) + 3 * (|acts| - CountInternal(acts))
    decreases |acts|
  {
    if acts != [] {
      var before, last := acts[..|acts| - 1], acts[|acts| - 1];
      assert forall a :: a in before ==> a in acts;
      InternalStepsBounded(s, before);
      assert last in acts;
      MeasureDecreases(After(s, before), last);
      StepKeepsInv(After(s, before), last);
    }
  }

  // ----- rest

  /** No thread can carry on. */
  ghost predicate AtRest(s: State) {
    forall a :: Internal(a) ==> !Enabled(s, a)
  }

  /** All calls are over, every submitted task has run in order, and the destructor, if it was
      called, has joined the worker. */
  ghost predicate Done(s: State) {
    && (forall p :: 0 <= p < |s.producers| ==> s.producers[p].Idle?)
    && s.finished == s.submitted && s.tasks == []
    && (s.destructor.NotStarted? || s.destructor.Joined?)
    && (if s.destructor.Joined? then s.worker.Exited? else s.worker.Asleep?)
  }

  /** Whoever holds the mutex can go on. */
  lemma HolderCanStep(s: State) returns (a: Action)
    requires Inv(s) && !s.mtx.Free?
    ensures Internal(a) && Enabled(s, a)
  {
    match s.mtx
    case ByProducer(p) =>
      assert HoldsMutex(s.producers[p]);
      a := if s.producers[p].Pushing? then Push(p) else Unlock(p);
    case ByWorker => a := if s.worker.Testing? then WorkerTest else WorkerTake;
    case ByDestructor => a := if s.destructor.DSetting? then SetStop else DtorUnlock;
  }

  /** No deadlock: while anything is left to do, some thread can carry on. */
  lemma SomeoneCanStep(s: State) returns (a: Action)
    requires Inv(s) && LifetimeInv(s) && !Done(s)
    ensures Internal(a) && Enabled(s, a)
  {
    if !s.mtx.Free? {
      a := HolderCanStep(s);
    } else if p :| 0 <= p < |s.producers| && !s.producers[p].Idle? {
      assert !HoldsMutex(s.producers[p]);
      a := if s.producers[p].Locking? then LockQueue(p) else NotifyOne(p);
    } else if s.worker.Entering? || s.worker.Waking? {
      a := WorkerLock;
    } else if s.worker.Running? {
      a := WorkerFinish;
    } else if s.destructor.DLocking? {
      a := DtorLock;
    } else if s.destructor.DNotifying? {
      a := NotifyAll;
    } else {
      // The worker sleeps or has left. It does not sleep on work or on stop: nobody would notify.
      a := Join;
    }
  }

  /** The system comes to rest exactly when everything is done. */
  lemma RestMeansDone(s: State)
    requires Inv(s) && LifetimeInv(s)
    ensures AtRest(s) <==> Done(s)
  {
    if !Done(s) {
      var a := SomeoneCanStep(s);
    }
  }

  predicate IsContinuation(s: State, acts: seq<Action>) {
    IsRun(s, acts) && forall a :: a in acts ==> Internal(a) || a.SpuriousWake?
  }

  lemma {:induction false} ContinuationKeepsLifetime(s: State, acts: seq<Action>)
    requires Inv(s) && LifetimeInv(s) && IsContinuation(s, acts)
    ensures Inv(After(s, acts)) && LifetimeInv(After(s, acts))
    ensures s.destructor.NotStarted? <==> After(s, acts).destructor.NotStarted?
    ensures s.submitted <= After(s, acts).submitted
    decreases |acts|
  {
    if acts != [] {
      var before, last := acts[..|acts| - 1], acts[|acts| - 1];
      assert forall a :: a in before ==> a in acts;
      assert last in acts;
      ContinuationKeepsLifetime(s, before);
      StepKeepsInv(After(s, before), last);
      StepLifetime(After(s, before), last);
    }
  }

  /** After any run that respects the object's lifetime, let the threads carry on in any order. They
      make as many internal steps as the measure allows, plus three for every spurious wakeup; and
      when none is left every task submitted so far has run, and the join of a destructor that was
      called has returned. */
  lemma RestAfterAnyRun(s: State, more: seq<Action>)
    requires LifetimeReached(s) && IsContinuation(s, more)
    ensures var e := After(s, more);
      && CountInternal(more) <= Measure(s) + 3 * (|more| - CountInternal(more))
      && (AtRest(e) ==>
            && e.finished == e.submitted && s.submitted <= e.finished
            && (e.destructor.Joined? <==> !s.destructor.NotStarted?))
  {
    ReachedInv(s);
    InternalStepsBounded(s, more);
    ContinuationKeepsLifetime(s, more);
    RestMeansDone(After(s, more));
  }

  // ----- whatever the scheduler and the spurious wakeups do

  /** The destructor has the mutex, or has set `stop`: nobody can test the wait before it is set. */
  predicate StopIsSure(s: State) {
    s.stop || s.destructor.DSetting?
  }

  /** The worker will not find its wait's predicate false. */
  predicate NoMoreSleep(s: State) {
    StopIsSure(s) || s.tasks != [] || s.worker.Running?
  }

  /** Room for one spurious wakeup, if the worker sleeps already. */
  function AwakeMeasure(s: State): nat {
    Measure(s) + if s.worker.Asleep? then 4 else 0
  }

  lemma AwakeMeasureDecreases(s: State, a: Action)
    requires Inv(s) && NoMoreSleep(s) && Enabled(s, a) && (Internal(a) || a.SpuriousWake?)
    ensures AwakeMeasure(Next(s, a)) < AwakeMeasure(s)
    ensures StopIsSure(s) ==> StopIsSure(Next(s, a))
  {
    MeasureDecreases(s, a);
  }

  /** Once stop is sure, every step counts, spurious wakeups included. */
  lemma {:induction false} ContinuationEnds(s: State, more: seq<Action>)
    requires Inv(s) && StopIsSure(s) && IsContinuation(s, more)
    ensures Inv(After(s, more)) && StopIsSure(After(s, more))
    ensures |more| + AwakeMeasure(After(s, more)) <= AwakeMeasure(s)
    decreases |more|
  {
    if more != [] {
      var before, last := more[..|more| - 1], more[|more| - 1];
      assert last in more;
      assert forall a :: a in before ==> a in more;
      ContinuationEnds(s, before);
      StepKeepsInv(After(s, before), last);
      AwakeMeasureDecreases(After(s, before), last);
    }
  }

  lemma Extend(s0: State, acts: seq<Action>, s: State, a: Action)
    requires IsRun(s0, acts) && After(s0, acts) == s && Enabled(s, a)
    ensures IsRun(s0, acts + [a]) && After(s0, acts + [a]) == Next(s, a)
  {
    var all := acts + [a];
    assert all[..|all| - 1] == acts && all[|all| - 1] == a;
  }

  lemma ExtendContinuation(s: State, more: seq<Action>, a: Action)
    requires IsContinuation(s, more)
    ensures IsContinuation(s, more + [a]) <==> Enabled(After(s, more), a) && (Internal(a) || a.SpuriousWake?)
  {
    var all := more + [a];
    assert all[..|all| - 1] == more && all[|all| - 1] == a;
    assert a in all;
  }

  /** A continuation that no step can carry on. */
  ghost predicate IsMaximal(s: State, more: seq<Action>) {
    IsContinuation(s, more) && forall a :: !IsContinuation(s, more + [a])
  }

  lemma NothingLeft(s: State)
    requires Inv(s) && s.worker.Exited?
    ensures s.finished == s.submitted <==> s.tasks == []
  {
    assert |s.finished| + |s.tasks| == |s.submitted|;
  }

  /** No step at all can carry on. */
  ghost predicate IsStill(s: State) {
    forall a :: Internal(a) || a.SpuriousWake? ==> !Enabled(s, a)
  }

  lemma MaximalIsStill(s: State, more: seq<Action>)
    requires IsContinuation(s, more)
    ensures IsMaximal(s, more) <==> IsStill(After(s, more))
  {
    if IsMaximal(s, more) {
      forall a | Internal(a) || a.SpuriousWake? ensures !Enabled(After(s, more), a) {
        ExtendContinuation(s, more, a);
      }
    }
    if IsStill(After(s, more)) {
      forall a ensures !IsContinuation(s, more + [a]) {
        ExtendContinuation(s, more, a);
      }
    }
  }

  lemma StillIsJoined(s: State)
    requires Inv(s) && LifetimeInv(s) && StopIsSure(s)
    ensures IsStill(s) <==> s.destructor.Joined?
    ensures s.destructor.Joined? ==> Done(s)
  {
    if IsStill(s) {
      RestMeansDone(s);
    }
    if s.destructor.Joined? {
      NothingLeft(s);
    }
  }

  /** Drain and join: in any run that respects the object's lifetime, from the moment the destructor
      has the mutex, the threads make at most so many steps, spurious wakeups included, whatever the
      scheduler does; they can go on until the join has returned, and no longer; and then every
      submitted task has run. */
  lemma DrainAndJoin(s: State, more: seq<Action>)
    requires LifetimeReached(s) && StopIsSure(s) && IsContinuation(s, more)
    ensures var e := After(s, more);
      && |more| <= Measure(s) + 4
      && (IsMaximal(s, more) <==> e.destructor.Joined?)
      && (e.destructor.Joined? ==> e.finished == e.submitted && s.submitted <= e.finished)
  {
    ReachedInv(s);
    ContinuationEnds(s, more);
    ContinuationKeepsLifetime(s, more);
    MaximalIsStill(s, more);
    StillIsJoined(After(s, more));
  }

  // ----- before that moment nothing but fairness ends a run

  lemma {:induction false} RunConcat(s: State, a: seq<Action>, b: seq<Action>)
    requires IsContinuation(s, a) && IsContinuation(After(s, a), b)
    ensures IsContinuation(s, a + b) && After(s, a + b) == After(After(s, a), b)
    decreases |b|
  {
    if b == [] {
      assert a + b == a;
    } else {
      var before, last := b[..|b| - 1], b[|b| - 1];
      assert last in b;
      assert forall x :: x in before ==> x in b;
      RunConcat(s, a, before);
      ExtendContinuation(s, a + before, last);
      Extend(s, a + before, After(s, a + before), last);
      assert a + before + [last] == a + b;
    }
  }

  /** The worker sleeps for want of work, and can look again whenever it likes. */
  predicate MayDoze(s: State) {
    s.worker.Asleep? && s.mtx.Free? && s.tasks == [] && !s.stop
  }

  const DOZE: seq<Action> := [SpuriousWake] + [WorkerLock] + [WorkerTest]

  lemma DozesOnce(s: State)
    requires MayDoze(s)
    ensures IsContinuation(s, DOZE) && After(s, DOZE) == s
  {
    Extend(s, [], s, SpuriousWake);
    assert [] + [SpuriousWake] == [SpuriousWake];
    Extend(s, [SpuriousWake], s.(worker := Waking), WorkerLock);
    Extend(s, [SpuriousWake] + [WorkerLock], s.(worker := Testing, mtx := ByWorker), WorkerTest);
  }

  lemma {:induction false} DozesOn(s: State, k: nat) returns (acts: seq<Action>)
    requires MayDoze(s)
    ensures IsContinuation(s, acts) && |acts| >= k
  {
    acts := [];
    if k > 0 {
      acts := DozesOn(s, k - 1);
      DozesOnce(s);
      RunConcat(s, DOZE, acts);
      acts := DOZE + acts;
    }
  }

  /** As long as stop is not sure, the others can leave the destructor waiting for the mutex. */
  lemma OthersCanStep(s: State) returns (a: Action)
    requires Inv(s) && !StopIsSure(s) && !MayDoze(s)
    ensures Internal(a) && Enabled(s, a) && !StopIsSure(Next(s, a))
  {
    if !s.mtx.Free? {
      a := HolderCanStep(s);
    } else if p :| 0 <= p < |s.producers| && !s.producers[p].Idle? {
      assert !HoldsMutex(s.producers[p]);
      a := if s.producers[p].Locking? then LockQueue(p) else NotifyOne(p);
    } else {
      a := if s.worker.Running? then WorkerFinish else WorkerLock;
    }
  }

  lemma {:induction false} ReachesDoze(s: State) returns (acts: seq<Action>)
    requires Inv(s) && !StopIsSure(s)
    ensures IsContinuation(s, acts) && MayDoze(After(s, acts))
    decreases Measure(s)
  {
    acts := [];
    if !MayDoze(s) {
      var a := OthersCanStep(s);
      StepKeepsInv(s, a);
      MeasureDecreases(s, a);
      acts := ReachesDoze(Next(s, a));
      Extend(s, [], s, a);
      assert [] + [a] == [a];
      RunConcat(s, [a], acts);
      acts := [a] + acts;
    }
  }

  ghost predicate BoundedBy(s: State, bound: nat) {
    forall more :: IsContinuation(s, more) ==> |more| <= bound
  }

  /** The continuations of a state are bounded whatever the scheduler and the spurious wakeups do if
      and only if the destructor has got as far as the mutex. */
  lemma BoundedExactly(s: State)
    requires Inv(s)
    ensures (exists bound :: BoundedBy(s, bound)) <==> StopIsSure(s)
  {
    if StopIsSure(s) {
      forall more | IsContinuation(s, more) ensures |more| <= AwakeMeasure(s) {
        ContinuationEnds(s, more);
      }
      assert BoundedBy(s, AwakeMeasure(s));
    } else {
      forall bound: nat ensures !BoundedBy(s, bound) {
        var acts := ReachesDoze(s);
        var dozing := DozesOn(After(s, acts), bound + 1);
        RunConcat(s, acts, dozing);
      }
    }
  }

  // ----- exactly when the join leaves nothing behind

  /** No task was pushed after the worker had left its loop. */
  predicate NoLatePush(s: State, acts: seq<Action>)
    requires IsRun(s, acts)
    decreases |acts|
  {
    acts == [] ||
    (NoLatePush(s, acts[..|acts| - 1])
     && !(acts[|acts| - 1].Push? && After(s, acts[..|acts| - 1]).worker.Exited?))
  }

  lemma LeftoverStep(s: State, a: Action)
    requires Inv(s) && Enabled(s, a)
    ensures var s' := Next(s, a);
      (s'.worker.Exited? ==> s'.tasks == [])
      <==> ((s.worker.Exited? ==> s.tasks == []) && !(a.Push? && s.worker.Exited?))
  {}

  lemma {:induction false} LeftoversAreLate(n: nat, acts: seq<Action>)
    requires IsRun(Init(n), acts)
    ensures var s := After(Init(n), acts);
      NoLatePush(Init(n), acts) <==> (s.worker.Exited? ==> s.tasks == [])
    decreases |acts|
  {
    if acts != [] {
      var before, last := acts[..|acts| - 1], acts[|acts| - 1];
      RunKeepsInv(n, before);
      LeftoversAreLate(n, before);
      LeftoverStep(After(Init(n), before), last);
    }
  }

  /** In any run, also one that breaks the lifetime rule: when the join has returned, every
      submitted task has run if and only if none was pushed after the worker's exit. */
  lemma JoinedAndDrained(n: nat, acts: seq<Action>)
    requires IsRun(Init(n), acts)
    requires After(Init(n), acts).destructor.Joined?
    ensures After(Init(n), acts).finished == After(Init(n), acts).submitted <==> NoLatePush(Init(n), acts)
    ensures IsLifetimeRun(Init(n), acts) ==> NoLatePush(Init(n), acts)
  {
    RunKeepsInv(n, acts);
    LeftoversAreLate(n, acts);
    NothingLeft(After(Init(n), acts));
  }

  /** The destructor called on an idle queue, up to its join and then up to the worker's exit. */
  const STOPPED: seq<Action> := [Destroy] + [DtorLock] + [SetStop] + [DtorUnlock] + [NotifyAll]
  const EXIT: seq<Action> := STOPPED + [WorkerLock] + [WorkerTest] + [WorkerTake]

  lemma LockedRun()
    ensures IsRun(Init(1), [Destroy] + [DtorLock])
    ensures After(Init(1), [Destroy] + [DtorLock]) == Init(1).(destructor := DSetting, mtx := ByDestructor)
  {
    Extend(Init(1), [], Init(1), Destroy);
    assert [] + [Destroy] == [Destroy];
    Extend(Init(1), [Destroy], Init(1).(destructor := DLocking), DtorLock);
  }

  lemma StoppedRun()
    ensures IsRun(Init(1), STOPPED)
    ensures After(Init(1), STOPPED) == Init(1).(stop := true, destructor := Joining)
  {
    LockedRun();
    var r, s := [Destroy] + [DtorLock], Init(1).(destructor := DSetting, mtx := ByDestructor);
    Extend(Init(1), r, s, SetStop);
    Extend(Init(1), r + [SetStop], s.(destructor := DUnlocking, stop := true), DtorUnlock);
    Extend(Init(1), r + [SetStop] + [DtorUnlock], Init(1).(destructor := DNotifying, stop := true), NotifyAll);
  }

  lemma ExitRun()
    ensures IsRun(Init(1), EXIT)
    ensures After(Init(1), EXIT) == Init(1).(stop := true, worker := Exited, destructor := Joining)
  {
    StoppedRun();
    var s := Init(1).(stop := true, destructor := Joining);
    Extend(Init(1), STOPPED, s, WorkerLock);
    Extend(Init(1), STOPPED + [WorkerLock], s.(worker := Testing, mtx := ByWorker), WorkerTest);
    Extend(Init(1), STOPPED + [WorkerLock] + [WorkerTest], s.(worker := Taking, mtx := ByWorker), WorkerTake);
  }

  const LATE: seq<Action> := EXIT + [BeginAdd(0, 7)] + [LockQueue(0)] + [Push(0)] + [Join]

  /** A task added from then on is never run, and the join returns all the same. */
  lemma LateTaskIsLost()
    ensures IsRun(Init(1), LATE) && After(Init(1), LATE).destructor.Joined?
    ensures After(Init(1), LATE).submitted == [Plain(7)] && After(Init(1), LATE).finished == []
  {
    ExitRun();
    var s := After(Init(1), EXIT);
    var r := EXIT;
    Extend(Init(1), r, s, BeginAdd(0, 7));
    r, s := r + [BeginAdd(0, 7)], Next(s, BeginAdd(0, 7));
    Extend(Init(1), r, s, LockQueue(0));
    r, s := r + [LockQueue(0)], Next(s, LockQueue(0));
    Extend(Init(1), r, s, Push(0));
    r, s := r + [Push(0)], Next(s, Push(0));
    Extend(Init(1), r, s, Join);
  }
}
