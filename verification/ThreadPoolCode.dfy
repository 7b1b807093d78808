/**
  The thread pool as the program writes it: a queue, a mutex and a condition variable updated
  in place, and the static pointer with its own mutex.  Every method is one instruction of one
  thread and one Step of the protocol it imports.
 */
module ThreadPoolCode {
  import opened Prelude
  import opened Transitions
  import opened ThreadPoolProtocol

  class ThreadPool<T(!new)> {
    var taskQueue: seq<T>
    var mtx: Option<nat>
    var threads: seq<PC<T>>    // the callers of pushTask and the workers
    ghost var pushed: seq<T>
    var taken: nat             // tickets handed out so far
    ghost var executed: seq<nat>
    ghost var ran: seq<T>

    ghost function View(): State<T>
      reads this
    {
      State(taskQueue, mtx, threads, pushed, taken, executed, ran)
    }

    ghost predicate Valid()
      reads this
    {
      Inv(View())
    }

    predicate IsEmpty()
      reads this
    {
      taskQueue == []
    }

    constructor (workers: nat, callers: nat)
      ensures Valid() && Init(View())
      ensures threads == seq(workers, _ => Unstarted) + seq(callers, _ => Idle)
    {
      taskQueue := [];
      mtx := None;
      threads := seq(workers, _ => Unstarted) + seq(callers, _ => Idle);
      pushed, taken, executed, ran := [], 0, [], [];
    }

    /** run() starts worker i. */
    method StartWorker(i: nat)
      requires Valid() && i < |threads| && threads[i].Unstarted?
      modifies this`threads
      ensures Valid() && Step(old(View()), Move(i, Start)) == Next(View())
    {
      StepKeepsInv(View(), Move(i, Start));
      threads := threads[i := WorkerEntry];
    }

    /** A caller enters pushTask. */
    method CallPush(i: nat, task: T)
      requires Valid() && i < |threads| && threads[i].Idle?
      modifies this`threads
      ensures Valid() && Step(old(View()), Move(i, Event.CallPush(task))) == Next(View())
    {
      StepKeepsInv(View(), Move(i, Event.CallPush(task)));
      threads := threads[i := PushEntry(task)];
    }

    /** A sleeping worker wakes up although nobody signalled. */
    method WakeSpuriously(i: nat)
      requires Valid() && i < |threads| && threads[i].WorkerAsleep?
      modifies this`threads
      ensures Valid() && Step(old(View()), Move(i, Spurious)) == Next(View())
    {
      StepKeepsInv(View(), Move(i, Spurious));
      threads := threads[i := WorkerWoken];
    }

    /** pthread_cond_signal; wake is the system's choice among the sleeping workers. */
    method Signal(wake: nat) returns (done: bool)
      modifies this`threads
      ensures done == WakeWorker(old(threads), wake).Some?
      ensures threads == if done then WakeWorker(old(threads), wake).value else old(threads)
    {
      done := true;
      if wake < |threads| && threads[wake].WorkerAsleep? {
        threads := threads[wake := WorkerWoken];
      } else {
        done := forall k :: 0 <= k < |threads| ==> !threads[k].WorkerAsleep?;
      }
    }

    /** The next instruction of caller i inside pushTask. */
    method PushTask(i: nat, wake: nat) returns (moved: bool)
      requires Valid() && i < |threads| && InPush(threads[i])
      modifies this
      ensures Valid()
      ensures moved ==> Step(old(View()), Move(i, Go(wake))) == Next(View())
      ensures !moved ==> Step(old(View()), Move(i, Go(wake))) == Blocked && View() == old(View())
      ensures taskQueue ==
        if old(threads[i]).PushStore? then old(taskQueue) + [old(threads[i]).task] else old(taskQueue)
      ensures |threads| == |old(threads)| && Bringing(threads[i]) ==
        if old(threads[i]).PushStore? then [] else Bringing(old(threads[i]))
      ensures threads[i].Idle? ==> old(threads[i]).PushUnlock?
    {
      StepKeepsInv(View(), Move(i, Go(wake)));
      moved := true;
      match threads[i] {
        case PushEntry(task) =>
          moved := mtx.None?;
          if moved {
            mtx, threads := Some(i), threads[i := PushStore(task)];
          }
        case PushStore(task) =>
          taskQueue := taskQueue + [task];
          pushed := pushed + [task];
          threads := threads[i := PushSignal];
        case PushSignal =>
          moved := Signal(wake);
          if moved {
            threads := threads[i := PushUnlock];
          }
        case PushUnlock =>
          mtx, threads := None, threads[i := Idle];
      }
    }

    /** A whole pushTask while nobody holds the mutex: the task goes to the end of the queue and one
        sleeping worker, if there is any, is woken. */
    method WholePushTask(i: nat, task: T, wake: nat)
      requires Valid() && i < |threads| && threads[i].Idle? && mtx.None? && WakeWorker(threads, wake).Some?
      modifies this
      ensures Valid() && mtx.None? && taskQueue == old(taskQueue) + [task] && pushed == old(pushed) + [task]
      ensures threads == WakeWorker(old(threads), wake).value
      ensures taken == old(taken) && executed == old(executed) && ran == old(ran)
    {
      ghost var s := View();
      PushAlone(s, i, task, wake);
      CallPush(i, task);
      assert View() == At(s, i, PushEntry(task));
      hide Inv, Step, WakeWorker;
      var moved := PushTask(i, wake);
      assert View() == Holding(s, i, PushStore(task));
      moved := PushTask(i, wake);
      assert View() == Stored(Holding(s, i, PushSignal), task);
      moved := PushTask(i, wake);
      moved := PushTask(i, wake);
    }

    /** Removes and returns the oldest task. */
    method GetTask() returns (task: T)
      requires !IsEmpty()
      modifies this`taskQueue
      ensures [task] + taskQueue == old(taskQueue)
    {
      task := taskQueue[0];
      taskQueue := taskQueue[1..];
    }

    /** The next instruction of worker i in its routine. */
    method Routine(i: nat) returns (moved: bool)
      requires Valid() && i < |threads|
      requires !InPush(threads[i]) && !threads[i].Idle? && !threads[i].Unstarted?
      modifies this
      ensures Valid()
      ensures moved ==> Step(old(View()), Move(i, Go(0))) == Next(View())
      ensures !moved ==> Step(old(View()), Move(i, Go(0))) == Blocked && View() == old(View())
    {
      StepKeepsInv(View(), Move(i, Go(0)));
      moved := true;
      match threads[i] {
        case WorkerEntry =>
          moved := mtx.None?;
          if moved {
            mtx, threads := Some(i), threads[i := WorkerTest];
          }
        case WorkerTest =>
          if IsEmpty() {
            mtx, threads := None, threads[i := WorkerAsleep];
          } else {
            threads := threads[i := WorkerTake];
          }
        case WorkerAsleep =>
          moved := false;
        case WorkerWoken =>
          moved := mtx.None?;
          if moved {
            mtx, threads := Some(i), threads[i := WorkerTest];
          }
        case WorkerTake =>
          var task := GetTask();
          threads := threads[i := WorkerUnlock(task, taken)];
          taken := taken + 1;
        case WorkerUnlock(task, ticket) =>
          mtx, threads := None, threads[i := WorkerRun(task, ticket)];
        case WorkerRun(task, ticket) =>
          executed, ran := executed + [ticket], ran + [task];
          threads := threads[i := WorkerEntry];
      }
    }
  }
}

module SingletonCode {
  import opened Prelude
  import opened Transitions
  import opened SingletonProtocol

  /** The static members of the pool class, and the threads that call getThreadPool. */
  class PoolHolder {
    var ptr: Option<nat>
    var mtx: Option<nat>
    var threads: seq<PC>
    ghost var built: seq<nat>
    ghost var returned: seq<Option<nat>>
    var count: nat               // constructor calls so far; names the next pool

    ghost function View(): State
      reads this
    {
      State(ptr, mtx, threads, built, returned)
    }

    ghost predicate Valid()
      reads this
    {
      Inv(View()) && count == |built|
    }

    constructor (callers: nat)
      ensures Valid() && Init(View()) && |threads| == callers
    {
      ptr, mtx, count := None, None, 0;
      threads := seq(callers, _ => Outside);
      built, returned := [], [];
    }

    method Call(i: nat, num: nat)
      requires Valid() && i < |threads| && threads[i].Outside?
      modifies this`threads
      ensures Valid() && Step(old(View()), Move(i, Event.Call(num))) == Next(View())
    {
      StepKeepsInv(View(), Move(i, Event.Call(num)));
      threads := threads[i := FirstTest(num)];
    }

    /** The next instruction of caller i inside getThreadPool; the last one returns the pool. */
    method GetThreadPool(i: nat) returns (moved: bool, pool: Option<nat>)
      requires Valid() && i < |threads| && !threads[i].Outside?
      modifies this
      ensures Valid()
      ensures moved ==> Step(old(View()), Move(i, Go)) == Next(View())
      ensures !moved ==> Step(old(View()), Move(i, Go)) == Blocked && View() == old(View())
      ensures returned == if old(threads[i].Return?) then old(returned) + [pool] else old(returned)
      ensures built == if old(threads[i]).Construct? then old(built) + [old(threads[i]).num] else old(built)
      ensures |threads| == |old(threads)|
      ensures Carried(threads[i]).Some? ==> Carried(threads[i]) == Carried(old(threads[i]))
      ensures threads[i].Outside? ==> old(threads[i]).Return?
    {
      StepKeepsInv(View(), Move(i, Go));
      moved, pool := true, None;
      match threads[i] {
        case FirstTest(num) =>
          threads := threads[i := if ptr.None? then Entry(num) else Return];
        case Entry(num) =>
          moved := mtx.None?;
          if moved {
            mtx, threads := Some(i), threads[i := SecondTest(num)];
          }
        case SecondTest(num) =>
          threads := threads[i := if ptr.None? then Construct(num) else Unlock];
        case Construct(num) =>
          threads := threads[i := Publish(count)];
          count := count + 1;
          built := built + [num];
        case Publish(p) =>
          ptr, threads := Some(p), threads[i := Unlock];
        case Unlock =>
          mtx, threads := None, threads[i := Return];
        case Return =>
          pool := ptr;
          returned := returned + [pool];
          threads := threads[i := Outside];
      }
    }
  }
}
