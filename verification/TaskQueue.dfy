// The object itself: the fields of TaskQueue, changed in place by the steps of its threads.
// Each method is one step of one thread; what it does is the step of the machine.
module TaskQueueObject {
  import opened Basics
  import opened TaskQueueMachine
  import opened TaskQueueResults

  class TaskQueue {
    var tasks: seq<Task>
    var taskResults: map<string, nat>
    var stop: bool
    var mtx: Owner
    var threads: seq<Producer>      // where each thread that may call add_task is
    var worker: Worker              // where the worker is
    var closing: Destructor         // where the destructor is
    var shared: map<nat, string>    // the values behind the futures
    ghost var issued: seq<string>
    ghost var submitted: seq<Task>
    ghost var finished: seq<Task>
    var nextTicket: nat

    ghost function View(): State
      reads this
    {
      State(tasks, stop, mtx, threads, worker, closing, taskResults, shared, issued, submitted, finished)
    }

    ghost predicate Valid()
      reads this
    {
      Inv(View()) && TicketInv(View()) && ReadyInv(View()) && nextTicket == |issued|
    }

    /** The constructor starts the worker. */
    constructor (n: nat)
      ensures Valid() && View() == Init(n)
    {
      tasks, taskResults, stop := [], map[], false;
      mtx, threads, worker, closing := Free, seq(n, _ => Idle), Entering, NotStarted;
      shared, issued, submitted, finished, nextTicket := map[], [], [], [], 0;
      new;
      InitInv(n);
    }

    // ----- add_task, by thread p

    /** The invariants survive the step that is about to be taken. */
    lemma Keep(a: Action)
      requires Valid() && Enabled(View(), a)
      ensures var s := Next(View(), a); Inv(s) && TicketInv(s) && ReadyInv(s)
    {
      StepKeepsInv(View(), a);
      StepTickets(View(), a);
      StepReady(View(), a);
    }

    method AddTask(p: nat, name: nat)
      requires Valid() && Enabled(View(), BeginAdd(p, name))
      modifies this
      ensures Valid() && View() == Next(old(View()), BeginAdd(p, name))
    {
      Keep(BeginAdd(p, name));
      threads := threads[p := Locking(Plain(name))];
    }

    method LockForPush(p: nat)
      requires Valid() && Enabled(View(), LockQueue(p))
      modifies this
      ensures Valid() && View() == Next(old(View()), LockQueue(p))
    {
      Keep(LockQueue(p));
      mtx, threads := ByProducer(p), threads[p := Pushing(threads[p].task)];
    }

    method PushTask(p: nat)
      requires Valid() && Enabled(View(), Push(p))
      modifies this
      ensures Valid() && View() == Next(old(View()), Push(p))
    {
      Keep(Push(p));
      var task := threads[p].task;
      tasks := tasks + [task];
      submitted := submitted + [task];
      threads := threads[p := Unlocking];
    }

    method UnlockAfterPush(p: nat)
      requires Valid() && Enabled(View(), Unlock(p))
      modifies this
      ensures Valid() && View() == Next(old(View()), Unlock(p))
    {
      Keep(Unlock(p));
      mtx, threads := Free, threads[p := Notifying];
    }

    method NotifyAfterPush(p: nat)
      requires Valid() && Enabled(View(), NotifyOne(p))
      modifies this
      ensures Valid() && View() == Next(old(View()), NotifyOne(p))
    {
      Keep(NotifyOne(p));
      if worker.Asleep? {
        worker := Waking;
      }
      threads := threads[p := Idle];
    }

    // ----- the client's calls

    /** Registers the future of a new packaged task, then goes on as add_task. */
    method RunCommandAsync(command: string, id: string)
      requires Valid() && Enabled(View(), RunCommand(id, command))
      modifies this
      ensures Valid() && View() == Next(old(View()), RunCommand(id, command))
    {
      Keep(RunCommand(id, command));
      taskResults := taskResults[id := nextTicket];
      threads := threads[CLIENT := Locking(Command(nextTicket, command))];
      issued := issued + [command];
      nextTicket := nextTicket + 1;
    }

    /** None stands for the exception that `at` throws when the id is unknown. */
    method QueryTaskResult(id: string) returns (r: Option<int>)
      requires Valid()
      ensures r == Query(View(), id)
    {
      if id !in taskResults {
        return None;
      }
      var future := taskResults[id];
      if future in shared {
        return Some(1);
      } else {
        return Some(0);
      }
    }

    /** Called when it does not block: see GetReturnsSoon. */
    method GetTaskResult(id: string) returns (r: string)
      requires Valid() && Enabled(View(), GetResult(id))
      modifies this
      ensures Valid() && View() == Next(old(View()), GetResult(id))
      ensures r == GetValue(old(View()), id)
    {
      Keep(GetResult(id));
      if id !in taskResults {
        assert taskResults - {id} == taskResults;
        return "";
      }
      r := shared[taskResults[id]];
      taskResults := taskResults - {id};
    }

    // ----- process_tasks, by the worker

    method LockToTest()
      requires Valid() && Enabled(View(), WorkerLock)
      modifies this
      ensures Valid() && View() == Next(old(View()), WorkerLock)
    {
      Keep(WorkerLock);
      mtx, worker := ByWorker, Testing;
    }

    /** The wait: go on if the predicate holds, otherwise release the mutex and sleep, in one step. */
    method Wait()
      requires Valid() && Enabled(View(), WorkerTest)
      modifies this
      ensures Valid() && View() == Next(old(View()), WorkerTest)
    {
      Keep(WorkerTest);
      if tasks != [] || stop {
        worker := Taking;
      } else {
        mtx, worker := Free, Asleep;
      }
    }

    /** After the wait: leave the loop or take the front task. The wait has made sure that there
        is one. */
    method TakeOrLeave()
      requires Valid() && Enabled(View(), WorkerTake)
      modifies this
      ensures Valid() && View() == Next(old(View()), WorkerTake)
      ensures worker.Exited? || worker == Running(old(tasks)[0])
    {
      Keep(WorkerTake);
      if stop && tasks == [] {
        mtx, worker := Free, Exited;
      } else {
        var task := tasks[0];
        tasks := tasks[1..];
        mtx, worker := Free, Running(task);
      }
    }

    method FinishTask()
      requires Valid() && Enabled(View(), WorkerFinish)
      modifies this
      ensures Valid() && View() == Next(old(View()), WorkerFinish)
    {
      Keep(WorkerFinish);
      var task := worker.task;
      if task.Command? {
        shared := shared[task.ticket := task.result];
      }
      finished := finished + [task];
      worker := Entering;
    }

    method WakeSpuriously()
      requires Valid() && Enabled(View(), SpuriousWake)
      modifies this
      ensures Valid() && View() == Next(old(View()), SpuriousWake)
    {
      Keep(SpuriousWake);
      worker := Waking;
    }

    // ----- the destructor

    method StartDestructor()
      requires Valid() && Enabled(View(), Destroy)
      modifies this
      ensures Valid() && View() == Next(old(View()), Destroy)
    {
      Keep(Destroy);
      closing := DLocking;
    }

    method LockToStop()
      requires Valid() && Enabled(View(), DtorLock)
      modifies this
      ensures Valid() && View() == Next(old(View()), DtorLock)
    {
      Keep(DtorLock);
      mtx, closing := ByDestructor, DSetting;
    }

    method SetStopFlag()
      requires Valid() && Enabled(View(), SetStop)
      modifies this
      ensures Valid() && View() == Next(old(View()), SetStop)
    {
      Keep(SetStop);
      stop, closing := true, DUnlocking;
    }

    method UnlockAfterStop()
      requires Valid() && Enabled(View(), DtorUnlock)
      modifies this
      ensures Valid() && View() == Next(old(View()), DtorUnlock)
    {
      Keep(DtorUnlock);
      mtx, closing := Free, DNotifying;
    }

    method NotifyEveryone()
      requires Valid() && Enabled(View(), NotifyAll)
      modifies this
      ensures Valid() && View() == Next(old(View()), NotifyAll)
    {
      Keep(NotifyAll);
      if worker.Asleep? {
        worker := Waking;
      }
      closing := Joining;
    }

    /** When the join returns, no task is unfinished unless it came after the worker's exit. */
    method JoinWorker()
      requires Valid() && Enabled(View(), Join)
      modifies this
      ensures Valid() && View() == Next(old(View()), Join)
      ensures tasks == [] ==> finished == submitted
    {
      Keep(Join);
      closing := Joined;
    }

    /** Any step of any thread is the machine's and keeps the invariants. */
    method Step(a: Action)
      requires Valid() && Enabled(View(), a)
      modifies this
      ensures Valid() && View() == Next(old(View()), a)
    {
      match a {
        case BeginAdd(p, name) => AddTask(p, name);
        case RunCommand(id, result) => RunCommandAsync(result, id);
        case LockQueue(p) => LockForPush(p);
        case Push(p) => PushTask(p);
        case Unlock(p) => UnlockAfterPush(p);
        case NotifyOne(p) => NotifyAfterPush(p);
        case GetResult(id) => var _ := GetTaskResult(id);
        case WorkerLock => LockToTest();
        case WorkerTest => Wait();
        case WorkerTake => TakeOrLeave();
        case WorkerFinish => FinishTask();
        case SpuriousWake => WakeSpuriously();
        case Destroy => StartDestructor();
        case DtorLock => LockToStop();
        case SetStop => SetStopFlag();
        case DtorUnlock => UnlockAfterStop();
        case NotifyAll => NotifyEveryone();
        case Join => JoinWorker();
      }
    }
  }
}
