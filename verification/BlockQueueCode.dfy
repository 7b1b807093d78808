/**
  The blocking queue as the program writes it: a queue, a mutex and two condition variables
  updated in place.  Push and Pop run the next instruction of one caller; every call is one
  Step of BlockQueueProtocol.
 */
module BlockQueueCode {
  import opened Prelude
  import opened Transitions
  import opened BlockQueueProtocol

  class BlockQueue<T(!new)> {
    const capacity: nat
    var bq: seq<T>
    var mtx: Option<nat>
    var threads: seq<PC<T>>    // where each caller is; the sleepers on "empty" and on "full" are among them
    ghost var accepted: seq<T>
    ghost var pushed: seq<T>
    ghost var popped: seq<T>
    ghost var returned: seq<T>

    ghost function View(): State<T>
      reads this
    {
      State(bq, capacity, mtx, threads, accepted, pushed, popped, returned)
    }

    ghost predicate Valid()
      reads this
    {
      Inv(View())
    }

    predicate IsQueueEmpty()
      reads this
    {
      |bq| == 0
    }

    predicate IsQueueFull()
      reads this
    {
      |bq| == capacity
    }

    constructor (capacity: nat, callers: nat)
      ensures Valid() && Init(View()) && this.capacity == capacity && |threads| == callers
    {
      this.capacity := capacity;
      bq := [];
      mtx := None;
      threads := seq(callers, _ => Idle);
      accepted, pushed, popped, returned := [], [], [], [];
    }

    /** A caller enters push. */
    method CallPush(i: nat, x: T)
      requires Valid() && i < |threads| && threads[i].Idle?
      modifies this`threads, this`accepted
      ensures Valid() && Step(old(View()), Move(i, Event.CallPush(x))) == Next(View())
    {
      StepKeepsInv(View(), Move(i, Event.CallPush(x)));
      accepted := accepted + [x];
      threads := threads[i := PushEntry(x)];
    }

    /** A caller enters pop. */
    method CallPop(i: nat)
      requires Valid() && i < |threads| && threads[i].Idle?
      modifies this`threads
      ensures Valid() && Step(old(View()), Move(i, Event.CallPop)) == Next(View())
    {
      StepKeepsInv(View(), Move(i, Event.CallPop));
      threads := threads[i := PopEntry];
    }

    /** A sleeper wakes up although nobody signalled. */
    method WakeSpuriously(i: nat)
      requires Valid() && i < |threads| && Asleep(threads[i])
      modifies this`threads
      ensures Valid() && Step(old(View()), Move(i, Spurious)) == Next(View())
    {
      StepKeepsInv(View(), Move(i, Spurious));
      threads := threads[i := if threads[i].PushAsleep? then PushWoken(threads[i].x) else PopWoken];
    }

    /** pthread_cond_signal on "empty": moves one sleeping consumer, if there is any, to the
        mutex; wake is the system's choice. */
    method SignalEmpty(wake: nat) returns (done: bool)
      modifies this`threads
      ensures done == WakeConsumer(old(threads), wake).Some?
      ensures threads == if done then WakeConsumer(old(threads), wake).value else old(threads)
    {
      done := true;
      if wake < |threads| && threads[wake].PopAsleep? {
        threads := threads[wake := PopWoken];
      } else {
        done := forall k :: 0 <= k < |threads| ==> !threads[k].PopAsleep?;
      }
    }

    /** pthread_cond_signal on "full". */
    method SignalFull(wake: nat) returns (done: bool)
      modifies this`threads
      ensures done == WakeProducer(old(threads), wake).Some?
      ensures threads == if done then WakeProducer(old(threads), wake).value else old(threads)
    {
      done := true;
      if wake < |threads| && threads[wake].PushAsleep? {
        threads := threads[wake := PushWoken(threads[wake].x)];
      } else {
        done := forall k :: 0 <= k < |threads| ==> !threads[k].PushAsleep?;
      }
    }

    /** The next instruction of caller i inside push. */
    method Push(i: nat, wake: nat) returns (moved: bool)
      requires Valid() && i < |threads| && InPush(threads[i])
      modifies this
      ensures Valid()
      ensures moved ==> Step(old(View()), Move(i, Go(wake))) == Next(View())
      ensures !moved ==> Step(old(View()), Move(i, Go(wake))) == Blocked && View() == old(View())
    {
      StepKeepsInv(View(), Move(i, Go(wake)));
      moved := true;
      if threads[i].PushEntry? || threads[i].PushWoken? {
        moved := mtx.None?;
        if moved {
          mtx, threads := Some(i), threads[i := PushTest(threads[i].x)];
        }
      } else if threads[i].PushTest? {
        if IsQueueFull() {
          mtx, threads := None, threads[i := PushAsleep(threads[i].x)];
        } else {
          threads := threads[i := PushStore(threads[i].x)];
        }
      } else if threads[i].PushStore? {
        bq := bq + [threads[i].x];
        pushed := pushed + [threads[i].x];
        threads := threads[i := PushSignal];
      } else if threads[i].PushSignal? {
        if |bq| >= capacity / 2 {
          moved := SignalEmpty(wake);
        }
        if moved {
          threads := threads[i := PushUnlock];
        }
      } else if threads[i].PushUnlock? {
        mtx, threads := None, threads[i := Idle];
      } else {
        moved := false;
      }
    }

    /** The next instruction of caller i inside pop; the last one hands out the value. */
    method Pop(i: nat, wake: nat) returns (moved: bool, out: Option<T>)
      requires Valid() && i < |threads| && InPop(threads[i])
      modifies this
      ensures Valid()
      ensures moved ==> Step(old(View()), Move(i, Go(wake))) == Next(View())
      ensures !moved ==> Step(old(View()), Move(i, Go(wake))) == Blocked && View() == old(View())
      ensures returned == if out.Some? then old(returned) + [out.value] else old(returned)
    {
      StepKeepsInv(View(), Move(i, Go(wake)));
      moved, out := true, None;
      if threads[i].PopEntry? || threads[i].PopWoken? {
        moved := mtx.None?;
        if moved {
          mtx, threads := Some(i), threads[i := PopTest];
        }
      } else if threads[i].PopTest? {
        if IsQueueEmpty() {
          mtx, threads := None, threads[i := PopAsleep];
        } else {
          threads := threads[i := PopTake];
        }
      } else if threads[i].PopTake? {
        var y := bq[0];
        bq := bq[1..];
        popped := popped + [y];
        threads := threads[i := PopSignal(y)];
      } else if threads[i].PopSignal? {
        var y := threads[i].y;
        moved := SignalFull(wake);
        if moved {
          threads := threads[i := PopUnlock(y)];
        }
      } else if threads[i].PopUnlock? {
        out := Some(threads[i].y);
        returned := returned + [threads[i].y];
        mtx, threads := None, threads[i := Idle];
      } else {
        moved := false;
      }
    }

    /** A whole push while nobody holds the mutex: x goes to the end of the queue and, from half
        the capacity on, one sleeping consumer is woken; or the caller sleeps beside a full queue. */
    method WholePush(i: nat, x: T, wake: nat) returns (done: bool)
      requires Valid() && i < |threads| && threads[i].Idle? && mtx.None? && WakeConsumer(threads, wake).Some?
      modifies this
      ensures Valid() && mtx.None? && accepted == old(accepted) + [x] && returned == old(returned)
      ensures done == (old(|bq|) < capacity)
      ensures bq == if done then old(bq) + [x] else old(bq)
      ensures threads ==
        if !done then old(threads)[i := PushAsleep(x)]
        else if |bq| >= capacity / 2 then WakeConsumer(old(threads), wake).value
        else old(threads)
    {
      ghost var s := View().(accepted := accepted + [x]);
      assert |s.queue| <= s.capacity;
      PushEnters(s, i, x, wake);
      PushLeaves(s, i, x, wake);
      CallPush(i, x);
      hide Inv, Step;
      assert View() == At(s, i, PushEntry(x));
      var moved := Push(i, wake);
      moved := Push(i, wake);
      done := threads[i].PushStore?;
      if done {
        moved := Push(i, wake);
        moved := Push(i, wake);
        moved := Push(i, wake);
      }
    }

    /** A whole pop while nobody holds the mutex: the oldest element is returned and one sleeping
        producer woken; or the caller sleeps beside an empty queue. */
    method WholePop(i: nat, wake: nat) returns (out: Option<T>)
      requires Valid() && i < |threads| && threads[i].Idle? && mtx.None? && WakeProducer(threads, wake).Some?
      modifies this
      ensures Valid() && mtx.None? && accepted == old(accepted)
      ensures out.Some? == (old(bq) != [])
      ensures if out.Some? then old(bq) == [out.value] + bq else bq == old(bq)
      ensures returned == if out.Some? then old(returned) + [out.value] else old(returned)
      ensures threads == if out.Some? then WakeProducer(old(threads), wake).value else old(threads)[i := PopAsleep]
    {
      ghost var s := View();
      EnterPop(i, wake);
      hide Inv, WakeProducer;
      out := None;
      if threads[i].PopTake? {
        out := FinishPop(i, wake, s);
        assert s.queue == [s.queue[0]] + s.queue[1..];
      }
    }

    /** From the call to the end of the loop test. */
    method EnterPop(i: nat, wake: nat)
      requires Valid() && i < |threads| && threads[i].Idle? && mtx.None?
      modifies this
      ensures Valid()
      ensures var s := old(View()); View() == if s.queue != [] then Holding(s, i, PopTake) else At(s, i, PopAsleep)
    {
      ghost var s := View();
      PopEnters(s, i, wake);
      CallPop(i);
      assert View() == At(s, i, PopEntry);
      hide Inv, Step;
      var moved, out := Pop(i, wake);
      assert View() == Holding(s, i, PopTest);
      moved, out := Pop(i, wake);
    }

    /** From the end of the wait to the return. */
    method FinishPop(i: nat, wake: nat, ghost s: State<T>) returns (out: Option<T>)
      requires i < |s.threads| && s.threads[i].Idle? && s.mtx.None? && WakeProducer(s.threads, wake).Some? && s.queue != []
      requires Valid() && View() == Holding(s, i, PopTake)
      modifies this
      ensures Valid() && out == Some(s.queue[0])
      ensures View() == Taken(s).(threads := PopSignalled(s, wake), returned := s.returned + [s.queue[0]])
    {
      PopLeaves(s, i, wake);
      hide Inv, Step, WakeProducer;
      var moved;
      moved, out := Pop(i, wake);
      assert View() == Taken(Holding(s, i, PopSignal(s.queue[0])));
      moved, out := Pop(i, wake);
      assert View() == Holding(Taken(s).(threads := PopSignalled(s, wake)), i, PopUnlock(s.queue[0]));
      moved, out := Pop(i, wake);
      assert View().returned == s.returned + [s.queue[0]];
      assert returned[|s.returned|] == s.queue[0];
    }
  }
}
