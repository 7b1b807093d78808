/**
  The blocking queue as a transition system: one mutex, two condition variables, any number of
  threads in push and in pop.  push wakes a consumer only once the queue is at least half
  full; pop always wakes a producer.  A condition variable may also wake anyone for no reason.
 */
module BlockQueueProtocol {
  import opened Prelude
  import opened Transitions
  import opened AtomicQueue

  datatype PC<T> =
    | Idle
    | PushEntry(x: T)     // before locking the mutex
    | PushTest(x: T)      // at the loop test, holding the mutex
    | PushAsleep(x: T)    // waiting on the condition "not full"
    | PushWoken(x: T)     // woken, has to take the mutex again
    | PushStore(x: T)     // the test said "not full"
    | PushSignal          // stored, the signal still to come
    | PushUnlock
    | PopEntry
    | PopTest
    | PopAsleep           // waiting on the condition "not empty"
    | PopWoken
    | PopTake             // the test said "not empty"
    | PopSignal(y: T)
    | PopUnlock(y: T)

  /** The histories: what callers passed to push, what entered and left the queue, and what
      pop returned. */
  datatype State<T> = State(
    queue: seq<T>, capacity: nat, mtx: Option<nat>, threads: seq<PC<T>>,
    accepted: seq<T>, pushed: seq<T>, popped: seq<T>, returned: seq<T>)

  /** Go(wake) runs the next instruction; if that instruction signals and somebody sleeps on
      the condition, wake is the sleeper the system picks. */
  datatype Event<T> = CallPush(x: T) | CallPop | Go(wake: nat) | Spurious

  datatype Move<T> = Move(thread: nat, event: Event<T>)

  ghost predicate Init<T(!new)>(s: State<T>) {
    && s.queue == [] && s.mtx == None
    && s.accepted == [] && s.pushed == [] && s.popped == [] && s.returned == []
    && forall i :: 0 <= i < |s.threads| ==> s.threads[i] == Idle
  }

  predicate InPush<T>(pc: PC<T>) {
    pc.PushEntry? || pc.PushTest? || pc.PushAsleep? || pc.PushWoken? || pc.PushStore? ||
    pc.PushSignal? || pc.PushUnlock?
  }

  predicate InPop<T>(pc: PC<T>) {
    !pc.Idle? && !InPush(pc)
  }

  predicate Asleep<T>(pc: PC<T>) {
    pc.PushAsleep? || pc.PopAsleep?
  }

  predicate Owns<T>(pc: PC<T>) {
    pc.PushTest? || pc.PushStore? || pc.PushSignal? || pc.PushUnlock? ||
    pc.PopTest? || pc.PopTake? || pc.PopSignal? || pc.PopUnlock?
  }

  function At<T>(s: State<T>, i: nat, pc: PC<T>): State<T>
    requires i < |s.threads|
  {
    s.(threads := s.threads[i := pc])
  }

  /** pthread_cond_signal on "not empty". */
  function WakeConsumer<T>(threads: seq<PC<T>>, wake: nat): Option<seq<PC<T>>> {
    if wake < |threads| && threads[wake].PopAsleep? then Some(threads[wake := PopWoken])
    else if forall k :: 0 <= k < |threads| ==> !threads[k].PopAsleep? then Some(threads)
    else None
  }

  /** pthread_cond_signal on "not full". */
  function WakeProducer<T>(threads: seq<PC<T>>, wake: nat): Option<seq<PC<T>>> {
    if wake < |threads| && threads[wake].PushAsleep? then Some(threads[wake := PushWoken(threads[wake].x)])
    else if forall k :: 0 <= k < |threads| ==> !threads[k].PushAsleep? then Some(threads)
    else None
  }

  function PushGo<T>(s: State<T>, i: nat, wake: nat): Outcome<State<T>>
    requires i < |s.threads|
  {
    match s.threads[i]
    case PushEntry(x) =>
      if s.mtx.Some? then Blocked else Next(At(s, i, PushTest(x)).(mtx := Some(i)))
    case PushTest(x) =>
      if |s.queue| == s.capacity then Next(At(s, i, PushAsleep(x)).(mtx := None))
      else Next(At(s, i, PushStore(x)))
    case PushWoken(x) =>
      if s.mtx.Some? then Blocked else Next(At(s, i, PushTest(x)).(mtx := Some(i)))
    case PushStore(x) =>
      Next(At(s, i, PushSignal).(queue := s.queue + [x], pushed := s.pushed + [x]))
    case PushSignal =>
      if |s.queue| >= s.capacity / 2 then
        match WakeConsumer(s.threads, wake)
        case Some(woken) => Next(s.(threads := woken[i := PushUnlock]))
        case None => Blocked
      else Next(At(s, i, PushUnlock))
    case PushUnlock =>
      if s.mtx != Some(i) then Fault else Next(At(s, i, Idle).(mtx := None))
    case _ => Blocked
  }

  function PopGo<T>(s: State<T>, i: nat, wake: nat): Outcome<State<T>>
    requires i < |s.threads|
  {
    match s.threads[i]
    case PopEntry =>
      if s.mtx.Some? then Blocked else Next(At(s, i, PopTest).(mtx := Some(i)))
    case PopTest =>
      if s.queue == [] then Next(At(s, i, PopAsleep).(mtx := None))
      else Next(At(s, i, PopTake))
    case PopWoken =>
      if s.mtx.Some? then Blocked else Next(At(s, i, PopTest).(mtx := Some(i)))
    case PopTake =>
      if s.queue == [] then Fault
      else Next(At(s, i, PopSignal(s.queue[0])).(queue := s.queue[1..], popped := s.popped + [s.queue[0]]))
    case PopSignal(y) =>
      (match WakeProducer(s.threads, wake)
       case Some(woken) => Next(s.(threads := woken[i := PopUnlock(y)]))
       case None => Blocked)
    case PopUnlock(y) =>
      if s.mtx != Some(i) then Fault else Next(At(s, i, Idle).(mtx := None, returned := s.returned + [y]))
    case _ => Blocked
  }

  function Step<T>(s: State<T>, m: Move<T>): Outcome<State<T>> {
    if m.thread >= |s.threads| then Blocked
    else
      var i, pc := m.thread, s.threads[m.thread];
      match m.event
      case CallPush(x) =>
        if pc.Idle? then Next(At(s, i, PushEntry(x)).(accepted := s.accepted + [x])) else Blocked
      case CallPop => if pc.Idle? then Next(At(s, i, PopEntry)) else Blocked
      case Go(wake) => if InPush(pc) then PushGo(s, i, wake) else PopGo(s, i, wake)
      case Spurious =>
        if pc.PushAsleep? then Next(At(s, i, PushWoken(pc.x)))
        else if pc.PopAsleep? then Next(At(s, i, PopWoken))
        else Blocked
  }

  function Run<T>(s: State<T>, schedule: seq<Move<T>>): State<T> {
    RunOf(Step, s, schedule)
  }

  // ---- the invariant ----

  /** Consumers inside pop that are awake and have not dequeued. */
  function AwakePop<T>(pc: PC<T>): nat {
    if pc.PopEntry? || pc.PopTest? || pc.PopWoken? || pc.PopTake? then 1 else 0
  }

  /** Producers inside push that are awake and have not enqueued. */
  function AwakePush<T>(pc: PC<T>): nat {
    if pc.PushEntry? || pc.PushTest? || pc.PushWoken? || pc.PushStore? then 1 else 0
  }

  function DuePush<T>(pc: PC<T>): nat {
    if pc.PushSignal? then 1 else 0
  }

  function DuePop<T>(pc: PC<T>): nat {
    if pc.PopSignal? then 1 else 0
  }

  /** The items a sleeping consumer may be left waiting beside: the signal is skipped below
      half the capacity. */
  function Strandable(capacity: nat): nat {
    if capacity / 2 == 0 then 0 else capacity / 2 - 1
  }

  ghost predicate Lock<T(!new)>(s: State<T>) {
    && (s.mtx.Some? ==> s.mtx.value < |s.threads| && Owns(s.threads[s.mtx.value]))
    && (forall i :: 0 <= i < |s.threads| && Owns(s.threads[i]) ==> s.mtx == Some(i))
  }

  ghost predicate Bounds<T(!new)>(s: State<T>) {
    && |s.queue| <= s.capacity
    && s.pushed == s.popped + s.queue
    && (forall i :: 0 <= i < |s.threads| && s.threads[i].PushStore? ==> |s.queue| < s.capacity)
    && (forall i :: 0 <= i < |s.threads| && s.threads[i].PopTake? ==> s.queue != [])
  }

  ghost predicate SleepingConsumers<T(!new)>(s: State<T>) {
    forall i :: 0 <= i < |s.threads| && s.threads[i].PopAsleep? ==>
      |s.queue| <= Sum(s.threads, AwakePop) + Sum(s.threads, DuePush) + Strandable(s.capacity)
  }

  ghost predicate SleepingProducers<T(!new)>(s: State<T>) {
    forall i :: 0 <= i < |s.threads| && s.threads[i].PushAsleep? ==>
      s.capacity - |s.queue| <= Sum(s.threads, AwakePush) + Sum(s.threads, DuePop)
  }

  ghost predicate Inv<T(!new)>(s: State<T>) {
    Lock(s) && Bounds(s) && SleepingConsumers(s) && SleepingProducers(s)
  }

  lemma Moved<T(!new)>(threads: seq<PC<T>>, i: nat, pc: PC<T>)
    requires i < |threads|
    ensures var t := threads[i := pc];
      && Sum(t, AwakePop) + AwakePop(threads[i]) == Sum(threads, AwakePop) + AwakePop(pc)
      && Sum(t, AwakePush) + AwakePush(threads[i]) == Sum(threads, AwakePush) + AwakePush(pc)
      && Sum(t, DuePush) + DuePush(threads[i]) == Sum(threads, DuePush) + DuePush(pc)
      && Sum(t, DuePop) + DuePop(threads[i]) == Sum(threads, DuePop) + DuePop(pc)
  {
    SumUpdate(threads, i, pc, AwakePop);
    SumUpdate(threads, i, pc, AwakePush);
    SumUpdate(threads, i, pc, DuePush);
    SumUpdate(threads, i, pc, DuePop);
  }

  lemma PushKeepsLock<T(!new)>(s: State<T>, i: nat, wake: nat, s': State<T>)
    requires Lock(s) && i < |s.threads| && PushGo(s, i, wake) == Next(s')
    ensures Lock(s')
  {
  }

  lemma PopKeepsLock<T(!new)>(s: State<T>, i: nat, wake: nat, s': State<T>)
    requires Lock(s) && i < |s.threads| && PopGo(s, i, wake) == Next(s')
    ensures Lock(s')
  {
  }

  lemma StepKeepsLock<T(!new)>(s: State<T>, m: Move<T>, s': State<T>)
    requires Lock(s) && Step(s, m) == Next(s')
    ensures Lock(s')
  {
    hide PushGo, PopGo;
    if m.event.Go? {
      hide Lock;
      if InPush(s.threads[m.thread]) {
        PushKeepsLock(s, m.thread, m.event.wake, s');
      } else {
        PopKeepsLock(s, m.thread, m.event.wake, s');
      }
    }
  }

  lemma PushKeepsBounds<T(!new)>(s: State<T>, i: nat, wake: nat, s': State<T>)
    requires Lock(s) && Bounds(s) && i < |s.threads| && PushGo(s, i, wake) == Next(s')
    ensures Bounds(s')
  {
  }

  lemma PopKeepsBounds<T(!new)>(s: State<T>, i: nat, wake: nat, s': State<T>)
    requires Lock(s) && Bounds(s) && i < |s.threads| && PopGo(s, i, wake) == Next(s')
    ensures Bounds(s')
  {
  }

  lemma StepKeepsBounds<T(!new)>(s: State<T>, m: Move<T>, s': State<T>)
    requires Lock(s) && Bounds(s) && Step(s, m) == Next(s')
    ensures Bounds(s')
  {
    hide PushGo, PopGo;
    if m.event.Go? {
      hide Lock, Bounds;
      if InPush(s.threads[m.thread]) {
        PushKeepsBounds(s, m.thread, m.event.wake, s');
      } else {
        PopKeepsBounds(s, m.thread, m.event.wake, s');
      }
    }
  }

  lemma SignalMoves<T(!new)>(threads: seq<PC<T>>, wake: nat, pc: PC<T>, i: nat, pc': PC<T>)
    requires wake < |threads| && i < |threads|
    ensures var t := threads[wake := pc]; var u := t[i := pc'];
      && Sum(u, AwakePop) + AwakePop(t[i]) + AwakePop(threads[wake]) == Sum(threads, AwakePop) + AwakePop(pc) + AwakePop(pc')
      && Sum(u, AwakePush) + AwakePush(t[i]) + AwakePush(threads[wake]) == Sum(threads, AwakePush) + AwakePush(pc) + AwakePush(pc')
      && Sum(u, DuePush) + DuePush(t[i]) + DuePush(threads[wake]) == Sum(threads, DuePush) + DuePush(pc) + DuePush(pc')
      && Sum(u, DuePop) + DuePop(t[i]) + DuePop(threads[wake]) == Sum(threads, DuePop) + DuePop(pc) + DuePop(pc')
  {
    Moved(threads, wake, pc);
    Moved(threads[wake := pc], i, pc');
  }

  lemma PushGoKeepsSleepers<T(!new)>(s: State<T>, i: nat, wake: nat, s': State<T>)
    requires Inv(s) && i < |s.threads| && PushGo(s, i, wake) == Next(s')
    ensures SleepingConsumers(s') && SleepingProducers(s')
  {
    hide Sum;
    if s.threads[i].PushSignal? {
      Moved(s.threads, i, PushUnlock);
      if wake < |s.threads| && s.threads[wake].PopAsleep? {
        SignalMoves(s.threads, wake, PopWoken, i, PushUnlock);
      }
    } else {
      Moved(s.threads, i, s'.threads[i]);
    }
  }

  lemma PopGoKeepsSleepers<T(!new)>(s: State<T>, i: nat, wake: nat, s': State<T>)
    requires Inv(s) && i < |s.threads| && PopGo(s, i, wake) == Next(s')
    ensures SleepingConsumers(s') && SleepingProducers(s')
  {
    hide Sum;
    if s.threads[i].PopSignal? {
      Moved(s.threads, i, PopUnlock(s.threads[i].y));
      if wake < |s.threads| && s.threads[wake].PushAsleep? {
        SignalMoves(s.threads, wake, PushWoken(s.threads[wake].x), i, PopUnlock(s.threads[i].y));
      }
    } else {
      Moved(s.threads, i, s'.threads[i]);
    }
  }

  lemma WakeupKeepsSleepers<T(!new)>(s: State<T>, i: nat, pc: PC<T>, s': State<T>)
    requires Inv(s) && i < |s.threads|
    requires if Asleep(s.threads[i]) then (pc.PushWoken? || pc.PopWoken?) && InPush(pc) == InPush(s.threads[i])
             else s.threads[i].Idle? && (pc.PushEntry? || pc.PopEntry?)
    requires s' == At(s, i, pc).(accepted := s'.accepted)
    ensures SleepingConsumers(s') && SleepingProducers(s')
  {
    hide Sum;
    Moved(s.threads, i, pc);
  }

  lemma StepKeepsSleepers<T(!new)>(s: State<T>, m: Move<T>, s': State<T>)
    requires Inv(s) && Step(s, m) == Next(s')
    ensures SleepingConsumers(s') && SleepingProducers(s')
  {
    hide Sum, Inv, SleepingConsumers, SleepingProducers;
    var i := m.thread;
    match m.event {
      case Go(wake) =>
        hide PushGo, PopGo;
        if InPush(s.threads[i]) {
          PushGoKeepsSleepers(s, i, wake, s');
        } else {
          PopGoKeepsSleepers(s, i, wake, s');
        }
      case _ =>
        WakeupKeepsSleepers(s, i, s'.threads[i], s');
    }
  }

  lemma StepKeepsInv<T(!new)>(s: State<T>, m: Move<T>)
    requires Inv(s)
    ensures !Step(s, m).Fault?
    ensures Step(s, m).Next? ==>
      var s' := Step(s, m).state; Inv(s') && s'.capacity == s.capacity && |s'.threads| == |s.threads|
  {
    if Step(s, m).Next? {
      StepKeepsLock(s, m, Step(s, m).state);
      StepKeepsBounds(s, m, Step(s, m).state);
      StepKeepsSleepers(s, m, Step(s, m).state);
    }
  }

  lemma RunKeepsInv<T(!new)>(s: State<T>, schedule: seq<Move<T>>)
    requires Inv(s)
    ensures var t := Run(s, schedule);
      Inv(t) && t.capacity == s.capacity && |t.threads| == |s.threads|
  {
    hide Inv, Step;
    forall t: State<T>, m | Inv(t) && Step(t, m).Next?
      ensures var u := Step(t, m).state; Inv(u) && u.capacity == t.capacity && |u.threads| == |t.threads|
    {
      StepKeepsInv(t, m);
    }
    RunKeeps(Step, (t: State<T>) => Inv(t) && t.capacity == s.capacity && |t.threads| == |s.threads|, s, schedule);
  }

  // ---- the theorems, about every schedule of every number of threads ----

  /** pop never takes the front of an empty queue and no thread unlocks a mutex it does not
      hold, whoever is woken and whenever. */
  lemma NoRunFaults<T(!new)>(s: State<T>, schedule: seq<Move<T>>, m: Move<T>)
    requires Init(s)
    ensures !Step(Run(s, schedule), m).Fault?
  {
    RunKeepsInv(s, schedule);
    StepKeepsInv(Run(s, schedule), m);
  }

  /** What was popped is, in order, the first part of what was pushed; the rest is in the
      queue, which never holds more than its capacity. */
  lemma RunIsBoundedFifo<T(!new)>(s: State<T>, schedule: seq<Move<T>>)
    requires Init(s)
    ensures var t := Run(s, schedule);
      && |t.queue| <= s.capacity
      && t.pushed == t.popped + t.queue
  {
    RunKeepsInv(s, schedule);
  }

  // ---- every run refines the atomic queue ----

  function PhaseOf<T>(pc: PC<T>): Phase<T> {
    match pc
    case Idle => Outside
    case PushEntry(x) => Pushing(x)
    case PushTest(x) => Pushing(x)
    case PushAsleep(x) => Pushing(x)
    case PushWoken(x) => Pushing(x)
    case PushStore(x) => Pushing(x)
    case PushSignal => Pushed
    case PushUnlock => Pushed
    case PopSignal(y) => Popped(y)
    case PopUnlock(y) => Popped(y)
    case _ => Popping
  }

  /** What the monitor stands for. */
  function Abstract<T>(s: State<T>): Fifo<T> {
    Fifo(s.capacity, s.queue, PhasesOf(s.threads, PhaseOf), s.accepted, s.pushed, s.popped, s.returned)
  }

  /** The linearization points: the push and the pop of the underlying queue, under the mutex. */
  function MarkOf<T>(s: State<T>, m: Move<T>): Option<Mark<T>> {
    if m.thread >= |s.threads| then None
    else
      var i := m.thread;
      match m.event
      case CallPush(x) => Some(Mark(i, PushBegins(x)))
      case CallPop => Some(Mark(i, PopBegins))
      case Spurious => None
      case Go(_) =>
        match s.threads[i]
        case PushStore(x) => Some(Mark(i, Enqueues(x)))
        case PushUnlock => Some(Mark(i, PushEnds))
        case PopTake => if s.queue == [] then None else Some(Mark(i, Dequeues(s.queue[0])))
        case PopUnlock(y) => Some(Mark(i, PopEnds(y)))
        case _ => None
  }

  lemma PushIsSimulated<T(!new)>(s: State<T>, i: nat, wake: nat, s': State<T>)
    requires Bounds(s) && i < |s.threads| && InPush(s.threads[i]) && PushGo(s, i, wake) == Next(s')
    ensures Simulated(Abstract(s), MarkOf(s, Move(i, Go(wake))), Abstract(s'))
  {
    PhasesMove(s.threads, PhaseOf, i, s'.threads[i]);
    if s.threads[i].PushSignal? && wake < |s.threads| && s.threads[wake].PopAsleep? {
      PhasesMove(s.threads, PhaseOf, wake, PopWoken);
      PhasesMove(s.threads[wake := PopWoken], PhaseOf, i, PushUnlock);
    }
    hide PhasesOf;
  }

  lemma PopIsSimulated<T(!new)>(s: State<T>, i: nat, wake: nat, s': State<T>)
    requires Bounds(s) && i < |s.threads| && !InPush(s.threads[i]) && PopGo(s, i, wake) == Next(s')
    ensures Simulated(Abstract(s), MarkOf(s, Move(i, Go(wake))), Abstract(s'))
  {
    PhasesMove(s.threads, PhaseOf, i, s'.threads[i]);
    if s.threads[i].PopSignal? && wake < |s.threads| && s.threads[wake].PushAsleep? {
      var woken := PushWoken(s.threads[wake].x);
      PhasesMove(s.threads, PhaseOf, wake, woken);
      PhasesMove(s.threads[wake := woken], PhaseOf, i, PopUnlock(s.threads[i].y));
    }
    hide PhasesOf;
  }

  lemma StepIsSimulated<T(!new)>(s: State<T>, m: Move<T>)
    requires Bounds(s) && Step(s, m).Next?
    ensures Simulated(Abstract(s), MarkOf(s, m), Abstract(Step(s, m).state))
  {
    var s' := Step(s, m).state;
    hide Bounds, PushGo, PopGo;
    if m.event.Go? {
      hide Simulated;
      if InPush(s.threads[m.thread]) {
        PushIsSimulated(s, m.thread, m.event.wake, s');
      } else {
        PopIsSimulated(s, m.thread, m.event.wake, s');
      }
    } else {
      PhasesMove(s.threads, PhaseOf, m.thread, s'.threads[m.thread]);
      hide PhasesOf;
    }
  }

  /** What can be seen of a run: when calls begin, take effect and end. */
  ghost function Trace<T(!new)>(s: State<T>, schedule: seq<Move<T>>): seq<Mark<T>> {
    TraceOf(Step, MarkOf, s, schedule)
  }

  /** Every run is one of the atomic queue: whatever is seen of it, the atomic queue can do. */
  lemma RunRefinesBoundedFifo<T(!new)>(s: State<T>, schedule: seq<Move<T>>)
    requires Init(s)
    ensures Fresh(Abstract(s)) && Possible(Abstract(s), Trace(s, schedule))
    ensures Final(Abstract(s), Trace(s, schedule)) == Abstract(Run(s, schedule))
  {
    hide Inv, Step, MarkOf;
    forall t: State<T>, m | Inv(t) && Step(t, m).Next?
      ensures Inv(Step(t, m).state) && Simulated(Abstract(t), MarkOf(t, m), Abstract(Step(t, m).state))
    {
      StepKeepsInv(t, m);
      InvHasBounds(t);
      StepIsSimulated(t, m);
    }
    InitHasInv(s);
    RunIsSimulated(Step, MarkOf, Inv, Abstract, s, schedule);
  }

  lemma InvHasBounds<T(!new)>(s: State<T>)
    requires Inv(s)
    ensures Bounds(s)
  {
  }

  lemma InitHasInv<T(!new)>(s: State<T>)
    requires Init(s)
    ensures Inv(s)
  {
  }

  /** Linearizability: every call that has returned took effect exactly once, at a moment e
      between its beginning c and its end r, with its own argument or with the value that it
      returned, and before every call that begins after r; and the effects so far, in their
      order, are those of a sequential bounded FIFO. */
  lemma RunIsLinearizable<T(!new)>(s: State<T>, schedule: seq<Move<T>>, r: nat) returns (c: nat, e: nat)
    requires Init(s) && r < |Trace(s, schedule)|
    requires Trace(s, schedule)[r].act.PushEnds? || Trace(s, schedule)[r].act.PopEnds?
    ensures IsCall(Trace(s, schedule), c, e, r)
    ensures forall c', e', r' :: IsCall(Trace(s, schedule), c', e', r') && r < c' ==> e < e'
    ensures Sequential(s.capacity, Trace(s, schedule)) == Some(Run(s, schedule).queue)
  {
    RunRefinesBoundedFifo(s, schedule);
    EffectsAreSequential(Abstract(s), Trace(s, schedule));
    c, e := EveryCallTakesEffectOnce(Abstract(s), Trace(s, schedule), r);
  }

  /** Between the callers and the queue no value is lost, duplicated or made up: once nobody is
      inside an operation, what was pushed is what was returned and what is still queued. */
  lemma NothingLostOrMadeUp<T(!new)>(s: State<T>, schedule: seq<Move<T>>)
    requires Init(s) && forall i :: 0 <= i < |Run(s, schedule).threads| ==> Run(s, schedule).threads[i].Idle?
    ensures var t := Run(s, schedule);
      multiset(t.accepted) == multiset(t.returned) + multiset(t.queue)
  {
    RunRefinesBoundedFifo(s, schedule);
    NothingLost(Abstract(s), Trace(s, schedule));
  }

  // ---- what lies beside a sleeper ----

  /** What is left beside a sleeping consumer is at most what the awake consumers will take, and
      the items below the signal threshold. */
  ghost predicate ConsumersBounded<T(!new)>(s: State<T>) {
    forall i :: 0 <= i < |s.threads| && s.threads[i].PopAsleep? ==>
      |s.queue| <= Sum(s.threads, AwakePop) + Strandable(s.capacity)
  }

  /** What is free beside a sleeping producer is at most what the awake producers will fill. */
  ghost predicate ProducersBounded<T(!new)>(s: State<T>) {
    forall i :: 0 <= i < |s.threads| && s.threads[i].PushAsleep? ==>
      s.capacity - |s.queue| <= Sum(s.threads, AwakePush)
  }

  lemma {:induction false} SumAtMostOwner<T(!new)>(threads: seq<PC<T>>, w: PC<T> -> nat, owner: Option<nat>)
    requires forall pc: PC<T> :: w(pc) <= 1
    requires forall i :: 0 <= i < |threads| && w(threads[i]) > 0 ==> owner == Some(i)
    ensures Sum(threads, w) <= if owner.Some? then 1 else 0
  {
    if threads != [] {
      SumAtMostOwner(threads[..|threads| - 1], w, owner);
      if w(threads[|threads| - 1]) > 0 {
        SumZero(threads[..|threads| - 1], w);
      }
    }
  }

  /** Both bounds hold unless a signal is owed: by a push between its store and its signal, or
      by a pop between its take and its signal; and then they are exceeded by one at most. */
  lemma StrandingBound<T(!new)>(s: State<T>, schedule: seq<Move<T>>, i: nat)
    requires Init(s) && i < |s.threads|
    ensures var t := Run(s, schedule);
      && |t.threads| == |s.threads| && t.capacity == s.capacity
      && ((forall k :: 0 <= k < |t.threads| ==> !t.threads[k].PushSignal?) ==> ConsumersBounded(t))
      && ((forall k :: 0 <= k < |t.threads| ==> !t.threads[k].PopSignal?) ==> ProducersBounded(t))
      && (t.threads[i].PopAsleep? ==> |t.queue| <= Sum(t.threads, AwakePop) + Strandable(s.capacity) + 1)
      && (t.threads[i].PushAsleep? ==> s.capacity - |t.queue| <= Sum(t.threads, AwakePush) + 1)
  {
    RunKeepsInv(s, schedule);
    var t := Run(s, schedule);
    SumAtMostOwner(t.threads, DuePush, t.mtx);
    SumAtMostOwner(t.threads, DuePop, t.mtx);
    if forall k :: 0 <= k < |t.threads| ==> !t.threads[k].PushSignal? {
      SumZero(t.threads, DuePush);
    }
    if forall k :: 0 <= k < |t.threads| ==> !t.threads[k].PopSignal? {
      SumZero(t.threads, DuePop);
    }
  }

  ghost predicate CanGo<T(!new)>(s: State<T>, i: nat, wake: nat) {
    Step(s, Move(i, Go(wake))).Next?
  }

  /** Nothing can happen without a spurious wakeup or a new call. */
  ghost predicate AllStuck<T(!new)>(s: State<T>) {
    forall i: nat, wake: nat :: !CanGo(s, i, wake)
  }

  /** Someone awake inside an operation can always get on, or the owner of the mutex can. */
  lemma AwakeMeansProgress<T(!new)>(s: State<T>, i: nat) returns (k: nat, wake: nat)
    requires Inv(s) && i < |s.threads| && !s.threads[i].Idle? && !Asleep(s.threads[i])
    ensures CanGo(s, k, wake)
  {
    hide Sum;
    k, wake := i, 0;
    if s.mtx.Some? {
      k := s.mtx.value;
    }
    if s.threads[k].PushSignal? && exists j: nat :: j < |s.threads| && s.threads[j].PopAsleep? {
      wake :| wake < |s.threads| && s.threads[wake].PopAsleep?;
    } else if s.threads[k].PopSignal? && exists j: nat :: j < |s.threads| && s.threads[j].PushAsleep? {
      wake :| wake < |s.threads| && s.threads[wake].PushAsleep?;
    }
  }

  /** Exactly when nothing can move: everyone in an operation sleeps. Then a sleeping producer
      means a full queue and a sleeping consumer a queue the signal threshold never reached. */
  lemma StuckExactlyWhenAllAsleep<T(!new)>(s: State<T>, schedule: seq<Move<T>>)
    requires Init(s)
    ensures var t := Run(s, schedule);
      && (AllStuck(t) <==> forall i :: 0 <= i < |t.threads| ==> t.threads[i].Idle? || Asleep(t.threads[i]))
      && (AllStuck(t) ==> forall i :: 0 <= i < |t.threads| ==>
            && (t.threads[i].PushAsleep? ==> |t.queue| == s.capacity)
            && (t.threads[i].PopAsleep? ==> |t.queue| <= Strandable(s.capacity)))
  {
    RunKeepsInv(s, schedule);
    var t := Run(s, schedule);
    hide Run, Bounds;
    if i :| 0 <= i < |t.threads| && !t.threads[i].Idle? && !Asleep(t.threads[i]) {
      var k, wake := AwakeMeansProgress(t, i);
    } else {
      SleepersLeaveBounds(t);
    }
  }

  lemma SleepersLeaveBounds<T(!new)>(s: State<T>)
    requires Inv(s) && forall i :: 0 <= i < |s.threads| ==> s.threads[i].Idle? || Asleep(s.threads[i])
    ensures forall i :: 0 <= i < |s.threads| && s.threads[i].PushAsleep? ==> |s.queue| == s.capacity
    ensures forall i :: 0 <= i < |s.threads| && s.threads[i].PopAsleep? ==> |s.queue| <= Strandable(s.capacity)
  {
    SumZero(s.threads, AwakePop);
    SumZero(s.threads, AwakePush);
    SumZero(s.threads, DuePush);
    SumZero(s.threads, DuePop);
    hide Sum;
  }

  /** A pending push and a pending pop never both sleep with nobody left to wake them,
      provided the queue can hold something. */
  lemma PushAndPopNeverDeadlock<T(!new)>(s: State<T>, schedule: seq<Move<T>>, i: nat, j: nat)
    requires Init(s) && s.capacity >= 1
    requires i < |Run(s, schedule).threads| && j < |Run(s, schedule).threads|
    requires InPush(Run(s, schedule).threads[i]) && InPop(Run(s, schedule).threads[j])
    ensures !AllStuck(Run(s, schedule))
  {
    StuckExactlyWhenAllAsleep(s, schedule);
  }

  // ---- the bounds are exact ----

  /** Thread i takes n instructions in a row. */
  function GoOn<T>(s: State<T>, i: nat, n: nat): State<T> {
    Repeat(Step, s, Move(i, Go(0)), n)
  }

  /** Thread i is called and takes n instructions. */
  lemma CallAhead<T(!new)>(s: State<T>, schedule: seq<Move<T>>, i: nat, call: Event<T>, n: nat, called: State<T>)
    returns (longer: seq<Move<T>>)
    requires Step(Run(s, schedule), Move(i, call)) == Next(called)
    ensures Run(s, longer) == GoOn(called, i, n)
  {
    longer := Continue(Step, s, schedule, Run(s, schedule), Move(i, call), called);
    longer := RunAhead(Step, s, longer, Move(i, Go(0)), n);
  }

  ghost predicate Deadlocked<T(!new)>(s: State<T>) {
    && AllStuck(s)
    && (exists i :: 0 <= i < |s.threads| && InPush(s.threads[i]))
    && (exists i :: 0 <= i < |s.threads| && InPop(s.threads[i]))
  }

  /** Thread i finds nothing to take and goes to sleep. */
  lemma FallAsleepInPop<T(!new)>(u: State<T>, i: nat)
    requires i < |u.threads| && u.threads[i].Idle? && u.mtx == None && u.queue == []
    ensures GoOn(At(u, i, PopEntry), i, 2) == At(u, i, PopAsleep)
  {
    assert GoOn(At(u, i, PopEntry), i, 0) == At(u, i, PopEntry);
    assert GoOn(At(u, i, PopEntry), i, 1) == At(u, i, PopTest).(mtx := Some(i));
  }

  /** Thread i finds no room and goes to sleep. */
  lemma FallAsleepInPush<T(!new)>(u: State<T>, i: nat, x: T)
    requires i < |u.threads| && u.threads[i].Idle? && u.mtx == None && |u.queue| == u.capacity
    ensures GoOn(At(u, i, PushEntry(x)), i, 2) == At(u, i, PushAsleep(x))
  {
    assert GoOn(At(u, i, PushEntry(x)), i, 0) == At(u, i, PushEntry(x));
    assert GoOn(At(u, i, PushEntry(x)), i, 1) == At(u, i, PushTest(x)).(mtx := Some(i));
  }

  /** A queue without capacity puts both sides to sleep for good. */
  lemma ZeroCapacityDeadlocks<T(!new)>(s: State<T>, x: T) returns (schedule: seq<Move<T>>)
    requires Init(s) && |s.threads| >= 2 && s.capacity == 0
    ensures Deadlocked(Run(s, schedule))
  {
    var s1 := s.(accepted := s.accepted + [x]);
    schedule := CallAhead(s, [], 0, CallPush(x), 2, At(s1, 0, PushEntry(x)));
    FallAsleepInPush(s1, 0, x);
    var t := At(s1, 0, PushAsleep(x));
    schedule := CallAhead(s, schedule, 1, CallPop, 2, At(t, 1, PopEntry));
    FallAsleepInPop(t, 1);
    StuckExactlyWhenAllAsleep(s, schedule);
    assert InPush(Run(s, schedule).threads[0]) && InPop(Run(s, schedule).threads[1]);
  }

  /** With at least two threads, some run deadlocks if and only if the capacity is zero. */
  lemma DeadlockExactlyWithoutCapacity<T(!new)>(s: State<T>, x: T)
    requires Init(s) && |s.threads| >= 2
    ensures (exists schedule: seq<Move<T>> :: Deadlocked(Run(s, schedule))) <==> s.capacity == 0
  {
    if s.capacity == 0 {
      var schedule := ZeroCapacityDeadlocks(s, x);
      hide *;
      assert Deadlocked(Run(s, schedule));
      assert exists schedule: seq<Move<T>> :: Deadlocked(Run(s, schedule));
    } else {
      forall schedule ensures !Deadlocked(Run(s, schedule)) {
        StuckExactlyWhenAllAsleep(s, schedule);
      }
    }
  }

  /** Thread 1 has stored x and owes the signal. */
  function Storing<T>(u: State<T>, x: T): State<T>
    requires |u.threads| >= 2
  {
    At(u, 1, PushSignal).(mtx := Some(1), queue := u.queue + [x], pushed := u.pushed + [x])
  }

  lemma PushUpToSignal<T(!new)>(u: State<T>, x: T)
    requires |u.threads| >= 2 && u.threads[1].Idle? && u.mtx == None && |u.queue| < u.capacity
    ensures GoOn(At(u, 1, PushEntry(x)), 1, 3) == Storing(u, x)
  {
    var v := u.(mtx := Some(1));
    assert GoOn(At(u, 1, PushEntry(x)), 1, 0) == At(u, 1, PushEntry(x));
    assert GoOn(At(u, 1, PushEntry(x)), 1, 1) == At(v, 1, PushTest(x));
    assert GoOn(At(u, 1, PushEntry(x)), 1, 2) == At(v, 1, PushStore(x));
  }

  /** Thread 1 pushes x and wakes nobody: nobody sleeps, or the threshold is out of reach. */
  lemma QuietPush<T(!new)>(u: State<T>, x: T)
    requires |u.threads| >= 2 && u.threads[1].Idle? && u.mtx == None && |u.queue| < u.capacity
    requires |u.queue| + 1 < u.capacity / 2 || forall k :: 0 <= k < |u.threads| ==> !u.threads[k].PopAsleep?
    ensures GoOn(At(u, 1, PushEntry(x)), 1, 5) == u.(queue := u.queue + [x], pushed := u.pushed + [x])
  {
    PushUpToSignal(u, x);
    var w := Storing(u, x);
    assert GoOn(At(u, 1, PushEntry(x)), 1, 4) == At(w, 1, PushUnlock);
    assert At(w, 1, Idle).threads == u.threads;
  }

  /** From a state with an empty queue, thread 1 pushes k times and wakes nobody. */
  lemma {:induction false} PushItems<T(!new)>(s: State<T>, schedule: seq<Move<T>>, x: T, k: nat) returns (longer: seq<Move<T>>)
    requires var u := Run(s, schedule);
      && |u.threads| >= 2 && u.threads[1].Idle? && u.mtx == None
      && u.queue == [] && u.accepted == [] && u.pushed == [] && k <= u.capacity
      && (k < u.capacity / 2 || k == 0 || forall i :: 0 <= i < |u.threads| ==> !u.threads[i].PopAsleep?)
    ensures var items := seq(k, _ => x);
      Run(s, longer) == Run(s, schedule).(queue := items, accepted := items, pushed := items)
  {
    longer := schedule;
    if k > 0 {
      longer := PushItems(s, schedule, x, k - 1);
      var u := Run(s, longer);
      hide Run, GoOn;
      longer := CallAhead(s, longer, 1, CallPush(x), 5, At(u, 1, PushEntry(x)).(accepted := u.accepted + [x]));
      QuietPush(u.(accepted := u.accepted + [x]), x);
      assert seq(k - 1, _ => x) + [x] == seq(k, _ => x);
    }
  }

  /** A consumer goes to sleep first, then k items are pushed. */
  lemma StrandItems<T(!new)>(s: State<T>, x: T, k: nat) returns (schedule: seq<Move<T>>)
    requires Init(s) && |s.threads| >= 2 && k <= Strandable(s.capacity)
    ensures var items := seq(k, _ => x);
      Run(s, schedule) == At(s, 0, PopAsleep).(queue := items, accepted := items, pushed := items)
  {
    schedule := CallAhead(s, [], 0, CallPop, 2, At(s, 0, PopEntry));
    FallAsleepInPop(s, 0);
    schedule := PushItems(s, schedule, x, k);
  }

  /** The stranding bound is reached: a consumer can sleep for good beside capacity/2 - 1 items
      while every producer has gone home. */
  lemma StrandingBoundIsExact<T(!new)>(s: State<T>, x: T) returns (schedule: seq<Move<T>>)
    requires Init(s) && |s.threads| >= 2
    ensures var t := Run(s, schedule);
      && AllStuck(t) && |t.queue| == Strandable(s.capacity)
      && |t.threads| == |s.threads| && t.threads[0].PopAsleep?
      && forall i :: 1 <= i < |t.threads| ==> t.threads[i].Idle?
  {
    schedule := StrandItems(s, x, Strandable(s.capacity));
    StuckExactlyWhenAllAsleep(s, schedule);
  }

  /** A push that owes its signal can leave one item more than the bound beside a sleeping
      consumer, with no consumer awake. */
  lemma OwedPushExceedsBound<T(!new)>(s: State<T>, x: T) returns (schedule: seq<Move<T>>)
    requires Init(s) && |s.threads| >= 2 && s.capacity >= 1
    ensures var t := Run(s, schedule);
      && t.capacity == s.capacity && |t.threads| == |s.threads|
      && t.threads[0] == PopAsleep && t.threads[1] == PushSignal
      && (forall i :: 2 <= i < |t.threads| ==> t.threads[i] == Idle)
      && Sum(t.threads, AwakePop) == 0 && |t.queue| == Strandable(s.capacity) + 1
  {
    schedule := StrandItems(s, x, Strandable(s.capacity));
    var u := Run(s, schedule);
    var v := u.(accepted := u.accepted + [x]);
    schedule := CallAhead(s, schedule, 1, CallPush(x), 3, At(v, 1, PushEntry(x)));
    PushUpToSignal(v, x);
    SumZero(Run(s, schedule).threads, AwakePop);
  }

  lemma PopUpToSignal<T(!new)>(u: State<T>)
    requires |u.threads| >= 2 && u.threads[1].Idle? && u.mtx == None && u.queue != []
    ensures GoOn(At(u, 1, PopEntry), 1, 3) ==
      At(u, 1, PopSignal(u.queue[0])).(mtx := Some(1), queue := u.queue[1..], popped := u.popped + [u.queue[0]])
  {
    var v := u.(mtx := Some(1));
    assert GoOn(At(u, 1, PopEntry), 1, 0) == At(u, 1, PopEntry);
    assert GoOn(At(u, 1, PopEntry), 1, 1) == At(v, 1, PopTest);
    assert GoOn(At(u, 1, PopEntry), 1, 2) == At(v, 1, PopTake);
  }

  /** And a pop that owes its signal can leave a free slot beside a sleeping producer, with no
      producer awake. */
  lemma OwedPopExceedsBound<T(!new)>(s: State<T>, x: T, y: T) returns (schedule: seq<Move<T>>)
    requires Init(s) && |s.threads| >= 2 && s.capacity >= 1
    ensures var t := Run(s, schedule);
      && t.capacity == s.capacity && |t.threads| == |s.threads|
      && t.threads[0] == PushAsleep(x) && t.threads[1] == PopSignal(y)
      && (forall i :: 2 <= i < |t.threads| ==> t.threads[i] == Idle)
      && Sum(t.threads, AwakePush) == 0 && s.capacity - |t.queue| == 1
  {
    schedule := PushItems(s, [], y, s.capacity);
    var u := Run(s, schedule);
    var v := u.(accepted := u.accepted + [x]);
    schedule := CallAhead(s, schedule, 0, CallPush(x), 2, At(v, 0, PushEntry(x)));
    FallAsleepInPush(v, 0, x);
    var w := At(v, 0, PushAsleep(x));
    schedule := CallAhead(s, schedule, 1, CallPop, 3, At(w, 1, PopEntry));
    PopUpToSignal(w);
    SumZero(Run(s, schedule).threads, AwakePush);
  }

  ghost predicate AllAt<T(!new)>(s: State<T>, points: PC<T> -> bool) {
    forall i :: 0 <= i < |s.threads| ==> points(s.threads[i])
  }

  /** At which program points the bound beside sleeping consumers can be relied on: at any,
      exactly as long as no thread is between its store and its signal (which none ever is when
      the queue can hold nothing). */
  lemma ConsumersBoundedExactlyWithoutOwedPush<T(!new)>(s: State<T>, points: PC<T> -> bool, x: T)
    requires Init(s) && |s.threads| >= 2 && points(Idle) && points(PopAsleep)
    ensures (forall schedule: seq<Move<T>> :: AllAt(Run(s, schedule), points) ==> ConsumersBounded(Run(s, schedule)))
      <==> s.capacity == 0 || !points(PushSignal)
  {
    if points(PushSignal) && s.capacity > 0 {
      var schedule := OwedPushExceedsBound(s, x);
      hide Run;
      assert AllAt(Run(s, schedule), points) && !ConsumersBounded(Run(s, schedule));
    } else {
      forall schedule: seq<Move<T>> | AllAt(Run(s, schedule), points) ensures ConsumersBounded(Run(s, schedule)) {
        StrandingBound(s, schedule, 0);
        RunIsBoundedFifo(s, schedule);
      }
    }
  }

  /** And the bound beside sleeping producers: as long as no thread is between its take and its
      signal. */
  lemma ProducersBoundedExactlyWithoutOwedPop<T(!new)>(s: State<T>, points: PC<T> -> bool, x: T)
    requires Init(s) && |s.threads| >= 2 && points(Idle) && points(PushAsleep(x))
    ensures (forall schedule: seq<Move<T>> :: AllAt(Run(s, schedule), points) ==> ProducersBounded(Run(s, schedule)))
      <==> s.capacity == 0 || forall y: T :: !points(PopSignal(y))
  {
    if y: T :| points(PopSignal(y)) && s.capacity > 0 {
      var schedule := OwedPopExceedsBound(s, x, y);
      hide Run;
      assert AllAt(Run(s, schedule), points) && !ProducersBounded(Run(s, schedule));
    } else {
      forall schedule: seq<Move<T>> | AllAt(Run(s, schedule), points) ensures ProducersBounded(Run(s, schedule)) {
        StrandingBound(s, schedule, 0);
        RunIsBoundedFifo(s, schedule);
      }
    }
  }

  // ---- every run ends ----

  function Weight<T>(pc: PC<T>): nat {
    match pc
    case Idle => 0
    case PushEntry(_) => 7
    case PushTest(_) => 6
    case PushAsleep(_) => 5
    case PushWoken(_) => 7
    case PushStore(_) => 5
    case PushSignal => 4
    case PushUnlock => 1
    case PopEntry => 7
    case PopTest => 6
    case PopAsleep => 5
    case PopWoken => 7
    case PopTake => 5
    case PopSignal(_) => 4
    case PopUnlock(_) => 1
  }

  /** What a move may add to the total weight, counting the move itself. */
  function Cost<T>(m: Move<T>): nat {
    match m.event
    case CallPush(_) => 8
    case CallPop => 8
    case Go(_) => 0
    case Spurious => 3
  }

  lemma PushUsesUpWeight<T(!new)>(s: State<T>, i: nat, wake: nat, s': State<T>)
    requires i < |s.threads| && PushGo(s, i, wake) == Next(s')
    ensures Sum(s'.threads, Weight) < Sum(s.threads, Weight)
  {
    hide Sum;
    SumUpdate(s.threads, i, s'.threads[i], Weight);
    if s.threads[i].PushSignal? && wake < |s.threads| && s.threads[wake].PopAsleep? {
      SumUpdate(s.threads, wake, PopWoken, Weight);
      SumUpdate(s.threads[wake := PopWoken], i, PushUnlock, Weight);
    }
  }

  lemma PopUsesUpWeight<T(!new)>(s: State<T>, i: nat, wake: nat, s': State<T>)
    requires i < |s.threads| && PopGo(s, i, wake) == Next(s')
    ensures Sum(s'.threads, Weight) < Sum(s.threads, Weight)
  {
    hide Sum;
    SumUpdate(s.threads, i, s'.threads[i], Weight);
    if s.threads[i].PopSignal? && wake < |s.threads| && s.threads[wake].PushAsleep? {
      var woken := PushWoken(s.threads[wake].x);
      SumUpdate(s.threads, wake, woken, Weight);
      SumUpdate(s.threads[wake := woken], i, PopUnlock(s.threads[i].y), Weight);
    }
  }

  lemma StepUsesUpWeight<T(!new)>(s: State<T>, m: Move<T>, s': State<T>)
    requires Step(s, m) == Next(s')
    ensures 1 + Sum(s'.threads, Weight) <= Sum(s.threads, Weight) + Cost(m)
  {
    hide Sum, PushGo, PopGo;
    if m.event.Go? {
      if InPush(s.threads[m.thread]) {
        PushUsesUpWeight(s, m.thread, m.event.wake, s');
      } else {
        PopUsesUpWeight(s, m.thread, m.event.wake, s');
      }
    } else {
      SumUpdate(s.threads, m.thread, s'.threads[m.thread], Weight);
    }
  }

  /** No livelock: a run has at most eight moves for each call and three for each spurious
      wakeup. With finitely many of them it ends, with everybody outside or asleep, and not
      both a push and a pop asleep. */
  lemma EveryRunEnds<T(!new)>(s: State<T>, schedule: seq<Move<T>>, i: nat, j: nat)
    requires Init(s) && IsEffective(Step, s, schedule)
    ensures |schedule| <= TotalCost(Cost, schedule)
    ensures var t := Run(s, schedule);
      AllStuck(t) && s.capacity >= 1 && i < |t.threads| && j < |t.threads| ==>
        !(InPush(t.threads[i]) && InPop(t.threads[j]))
  {
    SumZero(s.threads, Weight);
    StuckExactlyWhenAllAsleep(s, schedule);
    hide Step, Sum, Cost, Weight;
    forall t: State<T>, m | Step(t, m).Next?
      ensures 1 + Sum(Step(t, m).state.threads, Weight) <= Sum(t.threads, Weight) + Cost(m)
    {
      StepUsesUpWeight(t, m, Step(t, m).state);
    }
    RunUsesUp(Step, _ => true, (t: State<T>) => Sum(t.threads, Weight), Cost, s, schedule);
  }

  // ---- a call that nobody disturbs ----

  /** Thread i is at pc and holds the mutex. */
  function Holding<T>(s: State<T>, i: nat, pc: PC<T>): State<T>
    requires i < |s.threads|
  {
    At(s, i, pc).(mtx := Some(i))
  }

  /** After the store, and after the take. */
  function Stored<T>(s: State<T>, x: T): State<T> {
    s.(queue := s.queue + [x], pushed := s.pushed + [x])
  }

  function Taken<T>(s: State<T>): State<T>
    requires s.queue != []
  {
    s.(queue := s.queue[1..], popped := s.popped + [s.queue[0]])
  }

  /** The threads once the signal of a push, or of a pop, has been sent. */
  function PushSignalled<T>(s: State<T>, wake: nat): seq<PC<T>>
    requires WakeConsumer(s.threads, wake).Some?
  {
    if |s.queue| >= s.capacity / 2 then WakeConsumer(s.threads, wake).value else s.threads
  }

  function PopSignalled<T>(s: State<T>, wake: nat): seq<PC<T>>
    requires WakeProducer(s.threads, wake).Some?
  {
    WakeProducer(s.threads, wake).value
  }

  lemma PushEnters<T(!new)>(s: State<T>, i: nat, x: T, wake: nat)
    requires i < |s.threads| && s.threads[i].Idle? && s.mtx.None? && |s.queue| <= s.capacity
    ensures Step(At(s, i, PushEntry(x)), Move(i, Go(wake))) == Next(Holding(s, i, PushTest(x)))
    ensures Step(Holding(s, i, PushTest(x)), Move(i, Go(wake))) ==
      Next(if |s.queue| < s.capacity then Holding(s, i, PushStore(x)) else At(s, i, PushAsleep(x)))
  {
    Overwritten(s.threads, i, PushEntry(x), PushTest(x));
    Overwritten(s.threads, i, PushTest(x), PushStore(x));
    Overwritten(s.threads, i, PushTest(x), PushAsleep(x));
  }

  lemma PushLeaves<T(!new)>(s: State<T>, i: nat, x: T, wake: nat)
    requires i < |s.threads| && s.threads[i].Idle? && s.mtx.None? && WakeConsumer(s.threads, wake).Some?
    ensures Step(Holding(s, i, PushStore(x)), Move(i, Go(wake))) == Next(Stored(Holding(s, i, PushSignal), x))
    ensures var t := Stored(s, x).(threads := PushSignalled(Stored(s, x), wake));
      && |t.threads| == |s.threads|
      && Step(Stored(Holding(s, i, PushSignal), x), Move(i, Go(wake))) == Next(Holding(t, i, PushUnlock))
      && Step(Holding(t, i, PushUnlock), Move(i, Go(wake))) == Next(t)
  {
    var t := Stored(s, x).(threads := PushSignalled(Stored(s, x), wake));
    assert Holding(t, i, PushUnlock).threads[i := Idle] == t.threads;
    Overwritten(s.threads, i, PushStore(x), PushSignal);
    if |s.queue| + 1 >= s.capacity / 2 && wake < |s.threads| && s.threads[wake].PopAsleep? {
      assert s.threads[i := PushSignal][wake := PopWoken][i := PushUnlock] == t.threads[i := PushUnlock];
    } else {
      Overwritten(s.threads, i, PushSignal, PushUnlock);
    }
  }

  lemma PopEnters<T(!new)>(s: State<T>, i: nat, wake: nat)
    requires i < |s.threads| && s.threads[i].Idle? && s.mtx.None?
    ensures Step(At(s, i, PopEntry), Move(i, Go(wake))) == Next(Holding(s, i, PopTest))
    ensures Step(Holding(s, i, PopTest), Move(i, Go(wake))) ==
      Next(if s.queue != [] then Holding(s, i, PopTake) else At(s, i, PopAsleep))
  {
    Overwritten(s.threads, i, PopEntry, PopTest);
    Overwritten(s.threads, i, PopTest, PopTake);
    Overwritten(s.threads, i, PopTest, PopAsleep);
  }

  lemma PopLeaves<T(!new)>(s: State<T>, i: nat, wake: nat)
    requires i < |s.threads| && s.threads[i].Idle? && s.mtx.None? && WakeProducer(s.threads, wake).Some? && s.queue != []
    ensures Step(Holding(s, i, PopTake), Move(i, Go(wake))) == Next(Taken(Holding(s, i, PopSignal(s.queue[0]))))
    ensures var y, t := s.queue[0], Taken(s).(threads := PopSignalled(s, wake));
      && |t.threads| == |s.threads|
      && Step(Taken(Holding(s, i, PopSignal(y))), Move(i, Go(wake))) == Next(Holding(t, i, PopUnlock(y)))
      && Step(Holding(t, i, PopUnlock(y)), Move(i, Go(wake))) == Next(t.(returned := s.returned + [y]))
  {
    var y, t := s.queue[0], Taken(s).(threads := PopSignalled(s, wake));
    assert Holding(t, i, PopUnlock(y)).threads[i := Idle] == t.threads;
    Overwritten(s.threads, i, PopTake, PopSignal(y));
    if wake < |s.threads| && s.threads[wake].PushAsleep? {
      var woken := PushWoken(s.threads[wake].x);
      assert s.threads[i := PopSignal(y)][wake := woken][i := PopUnlock(y)] == t.threads[i := PopUnlock(y)];
    } else {
      Overwritten(s.threads, i, PopSignal(y), PopUnlock(y));
    }
  }
}
