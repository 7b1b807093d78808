/**
  The ring queue as the program writes it: a vector and two indices updated in place, two
  semaphores, two mutexes.  Push and Pop run the next instruction of one caller; any
  interleaving of callers is a sequence of such calls, and each call is one Step of
  RingQueueProtocol, whose theorems therefore hold of this object.
 */
module RingQueueCode {
  import opened Prelude
  import opened Transitions
  import opened RingQueueProtocol

  /** A counting semaphore. */
  class Sem {
    var count: nat

    constructor (value: nat)
      ensures count == value
    {
      count := value;
    }

    /** Takes a token, or reports that the caller has to sleep. */
    method P() returns (passed: bool)
      modifies this
      ensures passed == (old(count) > 0)
      ensures count == if passed then old(count) - 1 else old(count)
    {
      passed := count > 0;
      if passed {
        count := count - 1;
      }
    }

    method V()
      modifies this
      ensures count == old(count) + 1
    {
      count := count + 1;
    }
  }

  class RingQueue<T(0,!new)> {
    const ring: array<T>
    const spaceSem: Sem
    const dataSem: Sem
    var cStep: nat
    var pStep: nat
    var cLock: Option<nat>
    var pLock: Option<nat>
    var threads: seq<PC<T>>    // where each caller is inside push or pop
    ghost var accepted: seq<T>
    ghost var written: seq<T>
    ghost var taken: seq<T>
    ghost var returned: seq<T>

    ghost function View(): State<T>
      reads this, ring, spaceSem, dataSem
    {
      State(ring[..], pStep, cStep, spaceSem.count, dataSem.count, pLock, cLock, threads,
            accepted, written, taken, returned)
    }

    ghost predicate Valid()
      reads this, ring, spaceSem, dataSem
    {
      spaceSem != dataSem && Inv(View())
    }

    constructor (size: nat, callers: nat)
      ensures Valid() && Init(View()) && ring.Length == size && |threads| == callers
      ensures fresh(ring) && fresh(spaceSem) && fresh(dataSem)
    {
      ring := new T[size];
      spaceSem := new Sem(size);
      dataSem := new Sem(0);
      cStep, pStep := 0, 0;
      cLock, pLock := None, None;
      threads := seq(callers, _ => Idle);
      accepted, written, taken, returned := [], [], [], [];
      new;
      InitHasInv(View());
    }

    /** A caller enters push. */
    method CallPush(i: nat, x: T)
      requires Valid() && i < |threads| && threads[i].Idle?
      modifies this`threads, this`accepted
      ensures Valid() && Step(old(View()), Move(i, Event.CallPush(x))) == Next(View())
    {
      StepKeepsInv(View(), Move(i, Event.CallPush(x)));
      accepted := accepted + [x];
      threads := threads[i := PushWait(x)];
    }

    /** A caller enters pop. */
    method CallPop(i: nat)
      requires Valid() && i < |threads| && threads[i].Idle?
      modifies this`threads
      ensures Valid() && Step(old(View()), Move(i, Event.CallPop)) == Next(View())
    {
      StepKeepsInv(View(), Move(i, Event.CallPop));
      threads := threads[i := PopWait];
    }

    /** Writes the slot that push stands on. */
    method Assign(x: T)
      requires pStep < ring.Length
      modifies ring
      ensures ring[..] == old(ring[..])[pStep := x]
    {
      ring[pStep] := x;
    }

    /** p_step++ */
    method CountWrite(ghost x: T)
      modifies this`pStep, this`written
      ensures pStep == old(pStep) + 1 && written == old(written) + [x]
    {
      pStep, written := pStep + 1, written + [x];
    }

    /** The copy of an element into the slot: it begins, and the slot holds junk. */
    method BeginCopy(i: nat, junk: T)
      requires Valid() && i < |threads| && threads[i].PushLocked?
      modifies this`threads, ring
      ensures Valid() && Step(old(View()), Move(i, Go(junk))) == Next(View())
    {
      StepKeepsInv(View(), Move(i, Go(junk)));
      hide Inv;
      Assign(junk);
      threads := threads[i := PushCopying(threads[i].x)];
    }

    /** It ends, and p_step goes up. */
    method EndCopy(i: nat, junk: T)
      requires Valid() && i < |threads| && threads[i].PushCopying?
      modifies this`pStep, this`written, this`threads, ring
      ensures Valid() && Step(old(View()), Move(i, Go(junk))) == Next(View())
    {
      StepKeepsInv(View(), Move(i, Go(junk)));
      StoresAt(View(), i, junk);
      hide Inv, Step;
      Assign(threads[i].x);
      CountWrite(threads[i].x);
      threads := threads[i := PushStored];
    }

    /** p_step wraps around. */
    method WrapPush(i: nat, junk: T)
      requires Valid() && i < |threads| && threads[i].PushStored?
      modifies this`pStep, this`threads
      ensures Valid() && Step(old(View()), Move(i, Go(junk))) == Next(View())
    {
      StepKeepsInv(View(), Move(i, Go(junk)));
      hide Inv;
      pStep := pStep % ring.Length;
      threads := threads[i := PushWrapped];
    }

    /** The instructions of push under p_lock: fill the slot, step on, wrap around. */
    method Store(i: nat, junk: T)
      requires Valid() && i < |threads|
      requires threads[i].PushLocked? || threads[i].PushCopying? || threads[i].PushStored?
      modifies this`pStep, this`written, this`threads, ring
      ensures Valid() && Step(old(View()), Move(i, Go(junk))) == Next(View())
    {
      hide Inv, Step;
      if threads[i].PushLocked? {
        BeginCopy(i, junk);
      } else if threads[i].PushCopying? {
        EndCopy(i, junk);
      } else {
        WrapPush(i, junk);
      }
    }

    /** c_step++ */
    method CountRead(ghost y: T)
      modifies this`cStep, this`taken
      ensures cStep == old(cStep) + 1 && taken == old(taken) + [y]
    {
      cStep, taken := cStep + 1, taken + [y];
    }

    /** The instructions of pop under c_lock. */
    method Load(i: nat, junk: T)
      requires Valid() && i < |threads|
      requires threads[i].PopLocked? || threads[i].PopCopying? || threads[i].PopLoaded?
      modifies this`cStep, this`taken, this`threads
      ensures Valid() && Step(old(View()), Move(i, Go(junk))) == Next(View())
      ensures returned == old(returned)
    {
      StepKeepsInv(View(), Move(i, Go(junk)));
      hide Inv, PushGo;
      match threads[i] {
        case PopLocked =>
          threads := threads[i := PopCopying];
        case PopCopying =>
          var y := ring[cStep];
          CountRead(y);
          threads := threads[i := PopLoaded(y)];
        case PopLoaded(y) =>
          cStep := cStep % ring.Length;
          threads := threads[i := PopWrapped(y)];
      }
    }

    /** space_sem.p() and the lock of p_lock. */
    method EnterPush(i: nat, junk: T) returns (moved: bool)
      requires Valid() && i < |threads| && (threads[i].PushWait? || threads[i].PushReserved?)
      modifies this`threads, this`pLock, spaceSem
      ensures Valid()
      ensures moved ==> Step(old(View()), Move(i, Go(junk))) == Next(View())
      ensures !moved ==> Step(old(View()), Move(i, Go(junk))) == Blocked && View() == old(View())
    {
      StepKeepsInv(View(), Move(i, Go(junk)));
      hide Inv;
      if threads[i].PushWait? {
        moved := spaceSem.P();
        if moved {
          threads := threads[i := PushReserved(threads[i].x)];
        }
      } else {
        moved := pLock.None?;
        if moved {
          pLock, threads := Some(i), threads[i := PushLocked(threads[i].x)];
        }
      }
    }

    /** data_sem.p() and the lock of c_lock. */
    method EnterPop(i: nat, junk: T) returns (moved: bool)
      requires Valid() && i < |threads| && (threads[i].PopWait? || threads[i].PopReserved?)
      modifies this`threads, this`cLock, dataSem
      ensures Valid()
      ensures moved ==> Step(old(View()), Move(i, Go(junk))) == Next(View())
      ensures !moved ==> Step(old(View()), Move(i, Go(junk))) == Blocked && View() == old(View())
      ensures returned == old(returned)
    {
      StepKeepsInv(View(), Move(i, Go(junk)));
      hide Inv;
      if threads[i].PopWait? {
        moved := dataSem.P();
        if moved {
          threads := threads[i := PopReserved];
        }
      } else {
        moved := cLock.None?;
        if moved {
          cLock, threads := Some(i), threads[i := PopLocked];
        }
      }
    }

    method UnlockPush(i: nat, junk: T)
      requires Valid() && i < |threads| && threads[i].PushWrapped?
      modifies this`threads, this`pLock
      ensures Valid() && Step(old(View()), Move(i, Go(junk))) == Next(View())
    {
      StepKeepsInv(View(), Move(i, Go(junk)));
      hide Inv, PopGo;
      pLock, threads := None, threads[i := PushReleased];
    }

    /** data_sem.v(), after which push returns. */
    method LeavePush(i: nat, junk: T)
      requires Valid() && i < |threads| && threads[i].PushReleased?
      modifies this`threads, dataSem
      ensures Valid() && Step(old(View()), Move(i, Go(junk))) == Next(View())
    {
      StepKeepsInv(View(), Move(i, Go(junk)));
      hide Inv, PopGo;
      dataSem.V();
      threads := threads[i := Idle];
    }

    /** The next instruction of caller i inside push; junk is what a half-copied slot holds. */
    method Push(i: nat, junk: T) returns (moved: bool)
      requires Valid() && i < |threads| && InPush(threads[i])
      modifies this, ring, spaceSem, dataSem
      ensures Valid()
      ensures moved ==> Step(old(View()), Move(i, Go(junk))) == Next(View())
      ensures !moved ==> Step(old(View()), Move(i, Go(junk))) == Blocked && View() == old(View())
    {
      hide Inv, Step;
      moved := true;
      if threads[i].PushWait? || threads[i].PushReserved? {
        moved := EnterPush(i, junk);
      } else if threads[i].PushWrapped? {
        UnlockPush(i, junk);
      } else if threads[i].PushReleased? {
        LeavePush(i, junk);
      } else {
        Store(i, junk);
      }
    }

    method UnlockPop(i: nat, junk: T)
      requires Valid() && i < |threads| && threads[i].PopWrapped?
      modifies this`threads, this`cLock
      ensures Valid() && Step(old(View()), Move(i, Go(junk))) == Next(View()) && returned == old(returned)
    {
      StepKeepsInv(View(), Move(i, Go(junk)));
      hide Inv, PushGo;
      cLock, threads := None, threads[i := PopReleased(threads[i].y)];
    }

    /** space_sem.v(), after which pop returns its value. */
    method LeavePop(i: nat, junk: T) returns (y: T)
      requires Valid() && i < |threads| && threads[i].PopReleased?
      modifies this`threads, this`returned, spaceSem
      ensures Valid() && Step(old(View()), Move(i, Go(junk))) == Next(View()) && returned == old(returned) + [y]
    {
      StepKeepsInv(View(), Move(i, Go(junk)));
      hide Inv, PushGo;
      ghost var s := View();
      y := threads[i].y;
      threads, returned := threads[i := Idle], returned + [y];
      spaceSem.V();
      assert View() == At(s, i, Idle).(space := s.space + 1, returned := s.returned + [y]);
    }

    /** The next instruction of caller i inside pop; the last one hands out the value. */
    method Pop(i: nat, junk: T) returns (moved: bool, out: Option<T>)
      requires Valid() && i < |threads| && InPop(threads[i])
      modifies this, spaceSem, dataSem
      ensures Valid()
      ensures moved ==> Step(old(View()), Move(i, Go(junk))) == Next(View())
      ensures !moved ==> Step(old(View()), Move(i, Go(junk))) == Blocked && View() == old(View())
      ensures returned == if out.Some? then old(returned) + [out.value] else old(returned)
    {
      moved, out := true, None;
      if threads[i].PopWait? || threads[i].PopReserved? {
        moved := EnterPop(i, junk);
      } else if threads[i].PopWrapped? {
        UnlockPop(i, junk);
      } else if threads[i].PopReleased? {
        var y := LeavePop(i, junk);
        out := Some(y);
      } else {
        Load(i, junk);
      }
    }

    /** The instructions of a push for which there is room and which nobody disturbs. */
    method RunPush(i: nat, junk: T)
      requires Valid() && i < |threads| && threads[i].PushWait? && pLock.None? && spaceSem.count > 0
      modifies this, ring, spaceSem, dataSem
      ensures Valid() && PushedFor(old(View()), i, 7, View())
    {
      ghost var s := View();
      assert PushedFor(s, i, 0, s) by { hide Inv; }
      hide Inv, Step, PushedFor;
      for k := 0 to 7
        invariant Valid() && i < |threads| && PushedFor(s, i, k, View())
      {
        PushStepAlone(s, i, junk, k, View());
        assert InPush(threads[i]) by { PushIsAt(s, i, k, View()); }
        var moved := Push(i, junk);
      }
    }

    /** The instructions of a pop for which there is an element and which nobody disturbs. */
    method RunPop(i: nat, junk: T) returns (y: T)
      requires Valid() && i < |threads| && threads[i].PopWait? && cLock.None? && dataSem.count > 0
      modifies this, spaceSem, dataSem
      ensures |old(View()).taken| < |old(View()).written|
      ensures Valid() && PoppedFor(old(View()), i, 7, View()) && returned == old(returned) + [y]
    {
      ghost var s := View();
      SomethingToTake(s);
      assert PoppedFor(s, i, 0, s) by { hide Inv; }
      hide Inv, Step, PoppedFor;
      for k := 0 to 6
        invariant Valid() && i < |threads| && PoppedFor(s, i, k, View())
      {
        PopStepAlone(s, i, junk, k, View());
        PopIsAt(s, i, k, View());
        var moved, out := Pop(i, junk);
      }
      PopStepAlone(s, i, junk, 6, View());
      PopIsAt(s, i, 6, View());
      y := LeavePop(i, junk);
    }

    /** A whole push, nobody else being between the lock and the unlock: it adds x at the end and
        returns, or sleeps at its semaphore if there is no room. */
    method WholePush(i: nat, x: T, junk: T) returns (done: bool)
      requires Valid() && i < |threads| && threads[i].Idle? && pLock.None?
      modifies this, ring, spaceSem, dataSem
      ensures Valid() && accepted == old(accepted) + [x] && returned == old(returned)
      ensures done == (old(spaceSem.count) > 0)
      ensures threads == if done then old(threads) else old(threads)[i := PushWait(x)]
      ensures Queue(View()) == if done then old(Queue(View())) + [x] else old(Queue(View()))
      ensures done ==> spaceSem.count == old(spaceSem.count) - 1 && dataSem.count == old(dataSem.count) + 1
    {
      ghost var s := View();
      CallKeepsQueue(s, i, PushWait(x), s.accepted + [x]);
      hide Inv, PushGo, PopGo, Queue, PushedFor;
      CallPush(i, x);
      ghost var called := View();
      done := spaceSem.count > 0;
      if done {
        RunPush(i, junk);
        PushAlone(s, i, x, called, View());
      }
    }

    /** A whole pop, nobody else being between the lock and the unlock: it removes the oldest
        element and returns it, or sleeps at its semaphore if there is none. */
    method WholePop(i: nat, junk: T) returns (out: Option<T>)
      requires Valid() && i < |threads| && threads[i].Idle? && cLock.None?
      modifies this, spaceSem, dataSem
      ensures Valid() && accepted == old(accepted)
      ensures out.Some? == (old(dataSem.count) > 0)
      ensures threads == if out.Some? then old(threads) else old(threads)[i := PopWait]
      ensures if out.Some? then old(Queue(View())) == [out.value] + Queue(View()) else Queue(View()) == old(Queue(View()))
      ensures returned == if out.Some? then old(returned) + [out.value] else old(returned)
      ensures out.Some? ==> dataSem.count == old(dataSem.count) - 1 && spaceSem.count == old(spaceSem.count) + 1
    {
      ghost var s := View();
      CallKeepsQueue(s, i, PopWait, s.accepted);
      hide Inv, PushGo, PopGo, Queue, PoppedFor;
      CallPop(i);
      ghost var called := View();
      out := None;
      if dataSem.count > 0 {
        var y := RunPop(i, junk);
        PopAlone(s, i, called, View(), y);
        out := Some(y);
      }
    }
  }
}
