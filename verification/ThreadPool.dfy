/**
  The thread pool as a transition system: any number of callers of pushTask and any number of
  workers share an unbounded queue, one mutex and one condition variable.
 */
module ThreadPoolProtocol {
  import opened Prelude
  import opened Transitions

  datatype PC<T> =
    | Idle                      // outside pushTask
    | PushEntry(task: T)        // before locking
    | PushStore(task: T)
    | PushSignal
    | PushUnlock
    | Unstarted                 // a worker that run() has not started
    | WorkerEntry               // at the top of the routine's loop, before locking
    | WorkerTest                // at the inner loop test, holding the mutex
    | WorkerAsleep
    | WorkerWoken
    | WorkerTake                // the test said "not empty"
    | WorkerUnlock(task: T, ticket: nat)
    | WorkerRun(task: T, ticket: nat)

  /** ran lists the tasks that workers have run, in the order in which they finished them.
      A task's ticket is its position in the order of pushes; executed lists the tickets of
      those that have been run, in the order in which the workers finished them. */
  datatype State<T> = State(
    queue: seq<T>, mtx: Option<nat>, threads: seq<PC<T>>,
    pushed: seq<T>, taken: nat, executed: seq<nat>, ran: seq<T>)

  datatype Event<T> = CallPush(task: T) | Start | Go(wake: nat) | Spurious

  datatype Move<T> = Move(thread: nat, event: Event<T>)

  ghost predicate Init<T(!new)>(s: State<T>) {
    && s.queue == [] && s.mtx == None && s.pushed == [] && s.taken == 0 && s.executed == [] && s.ran == []
    && forall i :: 0 <= i < |s.threads| ==> s.threads[i].Idle? || s.threads[i].Unstarted?
  }

  predicate InPush<T>(pc: PC<T>) {
    pc.PushEntry? || pc.PushStore? || pc.PushSignal? || pc.PushUnlock?
  }

  predicate Owns<T>(pc: PC<T>) {
    pc.PushStore? || pc.PushSignal? || pc.PushUnlock? ||
    pc.WorkerTest? || pc.WorkerTake? || pc.WorkerUnlock?
  }

  predicate Holds<T>(pc: PC<T>) {
    pc.WorkerUnlock? || pc.WorkerRun?
  }

  function At<T>(s: State<T>, i: nat, pc: PC<T>): State<T>
    requires i < |s.threads|
  {
    s.(threads := s.threads[i := pc])
  }

  /** pthread_cond_signal: moves one sleeping worker, if there is any, to the mutex. */
  function WakeWorker<T>(threads: seq<PC<T>>, wake: nat): Option<seq<PC<T>>> {
    if wake < |threads| && threads[wake].WorkerAsleep? then Some(threads[wake := WorkerWoken])
    else if forall k :: 0 <= k < |threads| ==> !threads[k].WorkerAsleep? then Some(threads)
    else None
  }

  function PushGo<T>(s: State<T>, i: nat, wake: nat): Outcome<State<T>>
    requires i < |s.threads|
  {
    match s.threads[i]
    case PushEntry(task) =>
      if s.mtx.Some? then Blocked else Next(At(s, i, PushStore(task)).(mtx := Some(i)))
    case PushStore(task) =>
      Next(At(s, i, PushSignal).(queue := s.queue + [task], pushed := s.pushed + [task]))
    case PushSignal =>
      (match WakeWorker(s.threads, wake)
       case Some(woken) => Next(s.(threads := woken[i := PushUnlock]))
       case None => Blocked)
    case PushUnlock =>
      if s.mtx != Some(i) then Fault else Next(At(s, i, Idle).(mtx := None))
    case _ => Blocked
  }

  function WorkerGo<T>(s: State<T>, i: nat): Outcome<State<T>>
    requires i < |s.threads|
  {
    match s.threads[i]
    case WorkerEntry =>
      if s.mtx.Some? then Blocked else Next(At(s, i, WorkerTest).(mtx := Some(i)))
    case WorkerTest =>
      if s.queue == [] then Next(At(s, i, WorkerAsleep).(mtx := None))
      else Next(At(s, i, WorkerTake))
    case WorkerWoken =>
      if s.mtx.Some? then Blocked else Next(At(s, i, WorkerTest).(mtx := Some(i)))
    case WorkerTake =>
      if s.queue == [] then Fault
      else Next(At(s, i, WorkerUnlock(s.queue[0], s.taken)).(queue := s.queue[1..], taken := s.taken + 1))
    case WorkerUnlock(task, ticket) =>
      if s.mtx != Some(i) then Fault else Next(At(s, i, WorkerRun(task, ticket)).(mtx := None))
    case WorkerRun(task, ticket) =>
      Next(At(s, i, WorkerEntry).(executed := s.executed + [ticket], ran := s.ran + [task]))
    case _ => Blocked
  }

  function Step<T>(s: State<T>, m: Move<T>): Outcome<State<T>> {
    if m.thread >= |s.threads| then Blocked
    else
      var i, pc := m.thread, s.threads[m.thread];
      match m.event
      case CallPush(task) => if pc.Idle? then Next(At(s, i, PushEntry(task))) else Blocked
      case Start => if pc.Unstarted? then Next(At(s, i, WorkerEntry)) else Blocked
      case Go(wake) => if InPush(pc) then PushGo(s, i, wake) else WorkerGo(s, i)
      case Spurious => if pc.WorkerAsleep? then Next(At(s, i, WorkerWoken)) else Blocked
  }

  function Run<T>(s: State<T>, schedule: seq<Move<T>>): State<T> {
    RunOf(Step, s, schedule)
  }

  // ---- the invariant ----

  /** Workers that are awake, between finishing one task and taking the next. */
  function Looking<T>(pc: PC<T>): nat {
    if pc.WorkerEntry? || pc.WorkerTest? || pc.WorkerWoken? || pc.WorkerTake? then 1 else 0
  }

  function DueSignal<T>(pc: PC<T>): nat {
    if pc.PushSignal? then 1 else 0
  }

  ghost predicate Lock<T(!new)>(s: State<T>) {
    && (s.mtx.Some? ==> s.mtx.value < |s.threads| && Owns(s.threads[s.mtx.value]))
    && (forall i :: 0 <= i < |s.threads| && Owns(s.threads[i]) ==> s.mtx == Some(i))
  }

  ghost predicate Fifo<T(!new)>(s: State<T>) {
    && s.taken <= |s.pushed|
    && s.queue == s.pushed[s.taken..]
    && (forall i :: 0 <= i < |s.threads| && s.threads[i].WorkerTake? ==> s.queue != [])
  }

  /** Who has which ticket. */
  ghost predicate Tickets<T(!new)>(s: State<T>) {
    && s.taken <= |s.pushed|
    && (forall i :: 0 <= i < |s.threads| && Holds(s.threads[i]) ==>
          && s.threads[i].ticket < s.taken
          && s.threads[i].task == s.pushed[s.threads[i].ticket]
          && s.threads[i].ticket !in s.executed)
    && (forall i, j :: 0 <= i < j < |s.threads| && Holds(s.threads[i]) && Holds(s.threads[j]) ==>
          s.threads[i].ticket != s.threads[j].ticket)
    && (forall a, b :: 0 <= a < b < |s.executed| ==> s.executed[a] != s.executed[b])
    && (forall a :: 0 <= a < |s.executed| ==> s.executed[a] < s.taken)
  }

  ghost predicate HeldBySomeone<T(!new)>(s: State<T>, ticket: nat) {
    exists i :: 0 <= i < |s.threads| && Holds(s.threads[i]) && s.threads[i].ticket == ticket
  }

  ghost predicate NothingLost<T(!new)>(s: State<T>) {
    forall ticket: nat :: ticket < s.taken ==> ticket in s.executed || HeldBySomeone(s, ticket)
  }

  ghost predicate Sleepers<T(!new)>(s: State<T>) {
    forall i :: 0 <= i < |s.threads| && s.threads[i].WorkerAsleep? ==>
      |s.queue| <= Sum(s.threads, Looking) + Sum(s.threads, DueSignal)
  }

  ghost predicate Inv<T(!new)>(s: State<T>) {
    Lock(s) && Fifo(s) && Tickets(s) && NothingLost(s) && Sleepers(s)
  }

  lemma Moved<T(!new)>(threads: seq<PC<T>>, i: nat, pc: PC<T>)
    requires i < |threads|
    ensures var t := threads[i := pc];
      && Sum(t, Looking) + Looking(threads[i]) == Sum(threads, Looking) + Looking(pc)
      && Sum(t, DueSignal) + DueSignal(threads[i]) == Sum(threads, DueSignal) + DueSignal(pc)
  {
    SumUpdate(threads, i, pc, Looking);
    SumUpdate(threads, i, pc, DueSignal);
  }

  lemma StepKeepsLock<T(!new)>(s: State<T>, m: Move<T>, s': State<T>)
    requires Lock(s) && Step(s, m) == Next(s')
    ensures Lock(s')
  {
  }

  lemma StepKeepsFifo<T(!new)>(s: State<T>, m: Move<T>, s': State<T>)
    requires Lock(s) && Fifo(s) && Step(s, m) == Next(s')
    ensures Fifo(s')
  {
  }

  /** No task changes hands. */
  ghost predicate SameHolders<T(!new)>(a: seq<PC<T>>, b: seq<PC<T>>) {
    |a| == |b| && forall i :: 0 <= i < |a| ==>
      && Holds(a[i]) == Holds(b[i])
      && (Holds(a[i]) ==> a[i].ticket == b[i].ticket && a[i].task == b[i].task)
  }

  lemma StepKeepsHolders<T(!new)>(s: State<T>, m: Move<T>, s': State<T>)
    requires Step(s, m) == Next(s')
    requires m.event.Go? ==> !s.threads[m.thread].WorkerTake? && !s.threads[m.thread].WorkerRun?
    ensures SameHolders(s.threads, s'.threads) && s.pushed <= s'.pushed
    ensures s'.taken == s.taken && s'.executed == s.executed
  {
  }

  lemma TakeKeepsTickets<T(!new)>(s: State<T>, i: nat, s': State<T>)
    requires Fifo(s) && Tickets(s) && i < |s.threads| && s.threads[i].WorkerTake?
    requires WorkerGo(s, i) == Next(s')
    ensures Tickets(s')
  {
    assert s.queue[0] == s.pushed[s.taken];
    assert s'.threads[i] == WorkerUnlock(s.pushed[s.taken], s.taken);
    assert forall k :: 0 <= k < |s.threads| && k != i ==> s'.threads[k] == s.threads[k];
  }

  lemma FinishKeepsTickets<T(!new)>(s: State<T>, i: nat, s': State<T>)
    requires Tickets(s) && i < |s.threads| && s.threads[i].WorkerRun?
    requires WorkerGo(s, i) == Next(s')
    ensures Tickets(s')
  {
    var ticket := s.threads[i].ticket;
    assert !Holds(s'.threads[i]);
    assert forall k :: 0 <= k < |s.threads| && k != i ==> s'.threads[k] == s.threads[k];
    forall k | 0 <= k < |s.threads| && k != i && Holds(s.threads[k])
      ensures s.threads[k].ticket != ticket
    {
      assert Holds(s.threads[i]);
    }
  }

  lemma StepKeepsTickets<T(!new)>(s: State<T>, m: Move<T>, s': State<T>)
    requires Fifo(s) && Tickets(s) && Step(s, m) == Next(s')
    ensures Tickets(s')
  {
    if m.event.Go? && s.threads[m.thread].WorkerTake? {
      TakeKeepsTickets(s, m.thread, s');
    } else if m.event.Go? && s.threads[m.thread].WorkerRun? {
      FinishKeepsTickets(s, m.thread, s');
    } else {
      StepKeepsHolders(s, m, s');
      hide Step;
    }
  }

  lemma StepKeepsSleepers<T(!new)>(s: State<T>, m: Move<T>, s': State<T>)
    requires Lock(s) && Sleepers(s) && Step(s, m) == Next(s')
    ensures Sleepers(s')
  {
    hide Sum;
    var i := m.thread;
    if m.event.Go? && s.threads[i].PushSignal? {
      var wake := m.event.wake;
      Moved(s.threads, i, PushUnlock);
      if wake < |s.threads| && s.threads[wake].WorkerAsleep? {
        Moved(s.threads, wake, WorkerWoken);
        Moved(s.threads[wake := WorkerWoken], i, PushUnlock);
      }
    } else {
      Moved(s.threads, i, s'.threads[i]);
    }
  }

  lemma StepLosesNothing<T(!new)>(s: State<T>, m: Move<T>, s': State<T>)
    requires Tickets(s) && NothingLost(s) && Step(s, m) == Next(s')
    ensures NothingLost(s')
  {
    forall ticket: nat | ticket < s'.taken
      ensures ticket in s'.executed || HeldBySomeone(s', ticket)
    {
      if ticket == s.taken {
        assert Holds(s'.threads[m.thread]);
      } else if HeldBySomeone(s, ticket) {
        var i :| 0 <= i < |s.threads| && Holds(s.threads[i]) && s.threads[i].ticket == ticket;
        if i == m.thread && !Holds(s'.threads[i]) {
          assert s'.executed[|s.executed|] == ticket;
        } else {
          assert Holds(s'.threads[i]) && s'.threads[i].ticket == ticket;
        }
      }
    }
  }

  lemma StepKeepsInv<T(!new)>(s: State<T>, m: Move<T>)
    requires Inv(s)
    ensures !Step(s, m).Fault?
    ensures Step(s, m).Next? ==>
      var s' := Step(s, m).state; Inv(s') && |s'.threads| == |s.threads| && s.pushed <= s'.pushed
  {
    if Step(s, m).Next? {
      var s' := Step(s, m).state;
      StepKeepsLock(s, m, s');
      StepKeepsFifo(s, m, s');
      StepKeepsTickets(s, m, s');
      StepKeepsSleepers(s, m, s');
      StepLosesNothing(s, m, s');
    }
  }

  lemma RunKeepsInv<T(!new)>(s: State<T>, schedule: seq<Move<T>>)
    requires Inv(s)
    ensures Inv(Run(s, schedule)) && |Run(s, schedule).threads| == |s.threads|
  {
    hide Inv, Step;
    forall t: State<T>, m | Inv(t) && Step(t, m).Next?
      ensures Inv(Step(t, m).state) && |Step(t, m).state.threads| == |t.threads|
    {
      StepKeepsInv(t, m);
    }
    RunKeeps(Step, (t: State<T>) => Inv(t) && |t.threads| == |s.threads|, s, schedule);
  }

  // ---- the theorems, about every schedule of every number of threads ----

  /** getTask is never called on an empty queue, even by a worker that lost the race to the
      task it was woken for. */
  lemma NoRunFaults<T(!new)>(s: State<T>, schedule: seq<Move<T>>, m: Move<T>)
    requires Init(s)
    ensures !Step(Run(s, schedule), m).Fault?
  {
    RunKeepsInv(s, schedule);
    StepKeepsInv(Run(s, schedule), m);
  }

  /** The whereabouts of a ticket. */
  datatype Place = Queued(position: nat) | Held(worker: nat) | Executed(finish: nat)

  ghost predicate IsAt<T(!new)>(s: State<T>, ticket: nat, p: Place)
    requires ticket < |s.pushed|
  {
    match p
    case Queued(position) =>
      position < |s.queue| && s.taken + position == ticket && s.queue[position] == s.pushed[ticket]
    case Held(worker) =>
      && worker < |s.threads| && Holds(s.threads[worker])
      && s.threads[worker].ticket == ticket && s.threads[worker].task == s.pushed[ticket]
    case Executed(finish) =>
      finish < |s.executed| && s.executed[finish] == ticket
  }

  lemma QueuedOnlyOnce<T(!new)>(s: State<T>, ticket: nat)
    requires Fifo(s) && Tickets(s) && s.taken <= ticket < |s.pushed|
    ensures var p := Queued(ticket - s.taken); IsAt(s, ticket, p) && forall p' :: IsAt(s, ticket, p') ==> p' == p
  {
  }

  lemma ExecutedOnlyOnce<T(!new)>(s: State<T>, ticket: nat, finish: nat)
    requires Tickets(s) && finish < |s.executed| && s.executed[finish] == ticket < |s.pushed|
    ensures forall p :: IsAt(s, ticket, p) ==> p == Executed(finish)
  {
    assert ticket in s.executed;
  }

  lemma HeldOnlyOnce<T(!new)>(s: State<T>, ticket: nat, worker: nat)
    requires Tickets(s) && worker < |s.threads| && Holds(s.threads[worker]) && s.threads[worker].ticket == ticket
    ensures ticket < |s.pushed|
    ensures IsAt(s, ticket, Held(worker)) && forall p :: IsAt(s, ticket, p) ==> p == Held(worker)
  {
    assert ticket !in s.executed;
  }

  /** Every task ever pushed is in exactly one place: waiting in the queue in push order, with
      one worker, or among the executed ones, once. */
  lemma EveryTaskInOnePlace<T(!new)>(s: State<T>, schedule: seq<Move<T>>, ticket: nat) returns (p: Place)
    requires Init(s) && ticket < |Run(s, schedule).pushed|
    ensures var t := Run(s, schedule);
      IsAt(t, ticket, p) && forall p' :: IsAt(t, ticket, p') ==> p' == p
  {
    RunKeepsInv(s, schedule);
    var t := Run(s, schedule);
    hide Run, Fifo, Tickets, Sleepers, Lock;
    if ticket >= t.taken {
      p := Queued(ticket - t.taken);
      QueuedOnlyOnce(t, ticket);
    } else if ticket in t.executed {
      var a :| 0 <= a < |t.executed| && t.executed[a] == ticket;
      p := Executed(a);
      ExecutedOnlyOnce(t, ticket, a);
    } else {
      assert HeldBySomeone(t, ticket);
      var i :| 0 <= i < |t.threads| && Holds(t.threads[i]) && t.threads[i].ticket == ticket;
      p := Held(i);
      HeldOnlyOnce(t, ticket, i);
    }
  }

  /** Tasks are taken in the order in which they were pushed: the next one taken is the oldest
      one not taken, with the ticket that says so. */
  lemma TakesInPushOrder<T(!new)>(s: State<T>, schedule: seq<Move<T>>, m: Move<T>, s': State<T>)
    requires Init(s) && Step(Run(s, schedule), m) == Next(s')
    ensures var t := Run(s, schedule);
      && m.thread < |t.threads| == |s'.threads|
      && t.taken <= |t.pushed| && t.queue == t.pushed[t.taken..]
      && (s'.taken != t.taken ==>
            && s'.taken == t.taken + 1 && t.taken < |t.pushed|
            && s'.threads[m.thread] == WorkerUnlock(t.pushed[t.taken], t.taken))
  {
    RunKeepsInv(s, schedule);
    hide Run, Lock, Tickets, NothingLost, Sleepers;
    TakesTheOldest(Run(s, schedule), m, s');
  }

  lemma TakesTheOldest<T(!new)>(s: State<T>, m: Move<T>, s': State<T>)
    requires Fifo(s) && Step(s, m) == Next(s')
    ensures m.thread < |s.threads| == |s'.threads|
    ensures s'.taken != s.taken ==>
      s'.taken == s.taken + 1 && s.queue != [] && s'.threads[m.thread] == WorkerUnlock(s.queue[0], s.taken)
  {
    hide Fifo;
  }

  lemma DueOnlyUnderLock<T(!new)>(s: State<T>)
    requires Lock(s)
    ensures Sum(s.threads, DueSignal) <= if s.mtx.Some? then 1 else 0
  {
    if owner: nat :| owner < |s.threads| && s.threads[owner].PushSignal? {
      var rest := s.threads[owner := Idle];
      SumUpdate(s.threads, owner, Idle, DueSignal);
      SumZero(rest, DueSignal);
    } else {
      SumZero(s.threads, DueSignal);
    }
  }

  /** While a worker sleeps, there are no more queued tasks than awake workers looking for one. */
  ghost predicate NoWorkBesideSleepers<T(!new)>(s: State<T>) {
    forall i :: 0 <= i < |s.threads| && s.threads[i].WorkerAsleep? ==> |s.queue| <= Sum(s.threads, Looking)
  }

  /** That holds, and so nothing is queued while all workers sleep, unless a push is between its
      store and its signal; and then it is exceeded by one at most. */
  lemma SleepersLeaveNoWork<T(!new)>(s: State<T>, schedule: seq<Move<T>>, i: nat)
    requires Init(s) && i < |s.threads|
    ensures var t := Run(s, schedule);
      && |t.threads| == |s.threads|
      && ((forall k :: 0 <= k < |t.threads| ==> !t.threads[k].PushSignal?) ==>
            && NoWorkBesideSleepers(t)
            && (t.threads[i].WorkerAsleep? && (forall k :: 0 <= k < |t.threads| ==> Looking(t.threads[k]) == 0) ==>
                  t.queue == []))
      && (t.threads[i].WorkerAsleep? ==> |t.queue| <= Sum(t.threads, Looking) + 1)
  {
    RunKeepsInv(s, schedule);
    var t := Run(s, schedule);
    DueOnlyUnderLock(t);
    hide Run, Tickets, NothingLost, Fifo;
    if forall k :: 0 <= k < |t.threads| ==> !t.threads[k].PushSignal? {
      SumZero(t.threads, DueSignal);
      if forall k :: 0 <= k < |t.threads| ==> Looking(t.threads[k]) == 0 {
        SumZero(t.threads, Looking);
      }
    }
  }

  /** A run that exceeds it: the only worker sleeps, the task is stored, the signal not sent. */
  lemma OwedSignalExceedsBound<T(!new)>(s: State<T>, worker: nat, pusher: nat, task: T) returns (schedule: seq<Move<T>>)
    requires Init(s) && worker < |s.threads| && pusher < |s.threads|
    requires s.threads[worker].Unstarted? && s.threads[pusher].Idle?
    ensures Run(s, schedule) ==
      At(At(s, worker, WorkerAsleep), pusher, PushSignal).(mtx := Some(pusher), queue := [task], pushed := [task])
    ensures Sum(Run(s, schedule).threads, Looking) == 0
  {
    var s1 := At(s, worker, WorkerEntry);
    var s2 := At(s1, worker, WorkerTest).(mtx := Some(worker));
    var s3 := At(s2, worker, WorkerAsleep).(mtx := None);
    schedule := Continue(Step, s, [], s, Move(worker, Start), s1);
    schedule := Continue(Step, s, schedule, s1, Move(worker, Go(0)), s2);
    schedule := Continue(Step, s, schedule, s2, Move(worker, Go(0)), s3);
    var s4 := At(s3, pusher, PushEntry(task));
    var s5 := At(s4, pusher, PushStore(task)).(mtx := Some(pusher));
    var s6 := At(s5, pusher, PushSignal).(queue := s5.queue + [task], pushed := s5.pushed + [task]);
    schedule := Continue(Step, s, schedule, s3, Move(pusher, Event.CallPush(task)), s4);
    schedule := Continue(Step, s, schedule, s4, Move(pusher, Go(0)), s5);
    schedule := Continue(Step, s, schedule, s5, Move(pusher, Go(0)), s6);
    hide Step;
    assert s6.threads == s.threads[worker := WorkerAsleep][pusher := PushSignal];
    assert s6.queue == [task] && s6.pushed == [task];
    SumZero(s6.threads, Looking);
  }

  ghost predicate AllAt<T(!new)>(s: State<T>, points: PC<T> -> bool) {
    forall i :: 0 <= i < |s.threads| ==> points(s.threads[i])
  }

  /** At which program points the bound can be relied on: at any, exactly as long as no thread is
      between its store and its signal. */
  lemma NoWorkExactlyWithoutOwedSignal<T(!new)>(
      s: State<T>, points: PC<T> -> bool, worker: nat, pusher: nat, task: T)
    requires Init(s) && worker < |s.threads| && pusher < |s.threads|
    requires s.threads[worker].Unstarted? && s.threads[pusher].Idle?
    requires points(Idle) && points(Unstarted) && points(WorkerAsleep)
    ensures (forall schedule: seq<Move<T>> :: AllAt(Run(s, schedule), points) ==> NoWorkBesideSleepers(Run(s, schedule)))
      <==> !points(PushSignal)
  {
    if points(PushSignal) {
      var schedule := OwedSignalExceedsBound(s, worker, pusher, task);
      hide Run;
      assert Run(s, schedule).threads[worker] == WorkerAsleep;
      assert AllAt(Run(s, schedule), points) && !NoWorkBesideSleepers(Run(s, schedule));
    } else {
      forall schedule: seq<Move<T>> | AllAt(Run(s, schedule), points) ensures NoWorkBesideSleepers(Run(s, schedule)) {
        SleepersLeaveNoWork(s, schedule, worker);
      }
    }
  }

  ghost predicate AllStuck<T(!new)>(s: State<T>) {
    forall i: nat, wake: nat :: !Step(s, Move(i, Go(wake))).Next?
  }

  lemma AwakeMeansProgress<T(!new)>(s: State<T>, i: nat) returns (k: nat, wake: nat)
    requires Inv(s) && i < |s.threads|
    requires !s.threads[i].Idle? && !s.threads[i].Unstarted? && !s.threads[i].WorkerAsleep?
    ensures Step(s, Move(k, Go(wake))).Next?
  {
    hide Sum;
    k, wake := i, 0;
    if s.mtx.Some? && !s.threads[i].WorkerRun? {
      k := s.mtx.value;
    }
    if s.threads[k].PushSignal? && exists j: nat :: j < |s.threads| && s.threads[j].WorkerAsleep? {
      wake :| wake < |s.threads| && s.threads[wake].WorkerAsleep?;
    }
  }

  lemma StuckCondition<T(!new)>(s: State<T>)
    requires Inv(s)
    ensures AllStuck(s) <==> forall i :: 0 <= i < |s.threads| ==>
      s.threads[i].Idle? || s.threads[i].Unstarted? || s.threads[i].WorkerAsleep?
  {
    if i :| 0 <= i < |s.threads| && !s.threads[i].Idle? && !s.threads[i].Unstarted? && !s.threads[i].WorkerAsleep? {
      var k, wake := AwakeMeansProgress(s, i);
    }
  }

  /** With everybody outside or asleep, and a worker among the sleepers, all work is done. */
  lemma AsleepMeansDone<T(!new)>(s: State<T>, worker: nat)
    requires Inv(s) && worker < |s.threads| && s.threads[worker].WorkerAsleep?
    requires forall i :: 0 <= i < |s.threads| ==>
      s.threads[i].Idle? || s.threads[i].Unstarted? || s.threads[i].WorkerAsleep?
    ensures s.queue == [] && forall ticket: nat :: ticket in s.executed <==> ticket < |s.pushed|
  {
    SumZero(s.threads, Looking);
    SumZero(s.threads, DueSignal);
    hide Sum, Lock;
  }

  /** Exactly when nothing can move: nobody is inside pushTask and every started worker sleeps.
      If one of them does, everything ever pushed has been taken and executed, exactly once. */
  lemma StuckExactlyWhenDone<T(!new)>(s: State<T>, schedule: seq<Move<T>>)
    requires Init(s)
    ensures var t := Run(s, schedule);
      && (AllStuck(t) <==> forall i :: 0 <= i < |t.threads| ==>
            t.threads[i].Idle? || t.threads[i].Unstarted? || t.threads[i].WorkerAsleep?)
      && (AllStuck(t) && (exists i :: 0 <= i < |t.threads| && t.threads[i].WorkerAsleep?) ==>
            && t.queue == []
            && (forall ticket: nat :: ticket in t.executed <==> ticket < |t.pushed|)
            && (forall a, b :: 0 <= a < b < |t.executed| ==> t.executed[a] != t.executed[b]))
  {
    RunKeepsInv(s, schedule);
    var t := Run(s, schedule);
    StuckCondition(t);
    hide Run, AllStuck, Sum;
    if i: nat :| AllStuck(t) && i < |t.threads| && t.threads[i].WorkerAsleep? {
      AsleepMeansDone(t, i);
    }
  }

  // ---- every run ends ----

  function Weight<T>(pc: PC<T>): nat {
    match pc
    case Idle => 0
    case PushEntry(_) => 11
    case PushStore(_) => 10
    case PushSignal => 4
    case PushUnlock => 1
    case Unstarted => 0
    case WorkerEntry => 3
    case WorkerTest => 2
    case WorkerAsleep => 1
    case WorkerWoken => 3
    case WorkerTake => 1
    case WorkerUnlock(_, _) => 5
    case WorkerRun(_, _) => 4
  }

  /** The instructions left, given the queued tasks and the program points. */
  ghost function Measure<T(!new)>(s: State<T>): nat {
    5 * |s.queue| + Sum(s.threads, Weight)
  }

  /** What a move may add to the measure, counting the move itself. */
  function Cost<T>(m: Move<T>): nat {
    match m.event
    case CallPush(_) => 12
    case Start => 4
    case Go(_) => 0
    case Spurious => 3
  }

  lemma SignalUsesUpMeasure<T(!new)>(s: State<T>, i: nat, wake: nat, s': State<T>)
    requires i < |s.threads| && s.threads[i].PushSignal? && PushGo(s, i, wake) == Next(s')
    ensures 1 + Measure(s') <= Measure(s)
  {
    hide Sum;
    SumUpdate(s.threads, i, PushUnlock, Weight);
    if wake < |s.threads| && s.threads[wake].WorkerAsleep? {
      SumUpdate(s.threads, wake, WorkerWoken, Weight);
      SumUpdate(s.threads[wake := WorkerWoken], i, PushUnlock, Weight);
    }
  }

  lemma StepUsesUpMeasure<T(!new)>(s: State<T>, m: Move<T>, s': State<T>)
    requires Step(s, m) == Next(s')
    ensures 1 + Measure(s') <= Measure(s) + Cost(m)
  {
    hide Sum;
    if m.event.Go? && s.threads[m.thread].PushSignal? {
      SignalUsesUpMeasure(s, m.thread, m.event.wake, s');
    } else {
      assert s'.threads == s.threads[m.thread := s'.threads[m.thread]];
      SumUpdate(s.threads, m.thread, s'.threads[m.thread], Weight);
    }
  }

  /** A run is no longer than the calls, the workers started and the spurious wakeups in it
      allow: with finitely many of them it ends, and then every task has been executed. */
  lemma EveryRunEnds<T(!new)>(s: State<T>, schedule: seq<Move<T>>, i: nat)
    requires Init(s) && IsEffective(Step, s, schedule)
    ensures |schedule| <= TotalCost(Cost, schedule)
    ensures var t := Run(s, schedule);
      AllStuck(t) && i < |t.threads| && t.threads[i].WorkerAsleep? ==>
        forall ticket: nat :: ticket < |t.pushed| ==> ticket in t.executed
  {
    SumZero(s.threads, Weight);
    StuckExactlyWhenDone(s, schedule);
    assert Measure(s) == 0;
    hide Step, Measure, Cost;
    forall t: State<T>, m | Step(t, m).Next? ensures 1 + Measure(Step(t, m).state) <= Measure(t) + Cost(m) {
      StepUsesUpMeasure(t, m, Step(t, m).state);
    }
    RunUsesUp(Step, _ => true, Measure, Cost, s, schedule);
  }

  // ---- from the calls of pushTask to the tasks run ----

  /** The task that a move passes to pushTask. */
  function TaskOf<T>(m: Move<T>): seq<T> {
    if m.event.CallPush? then [m.event.task] else []
  }

  /** The task of a call that has not stored it yet. */
  function Bringing<T>(pc: PC<T>): seq<T> {
    if pc.PushEntry? || pc.PushStore? then [pc.task] else []
  }

  /** The task that a worker has taken and not run to its end. */
  function Working<T>(pc: PC<T>): seq<T> {
    if Holds(pc) then [pc.task] else []
  }

  /** How often v has been asked for, and where all of them are. */
  ghost predicate Account<T(!new)>(s: State<T>, asked: seq<T>, v: T) {
    && Count(asked, v) == Count(s.pushed, v) + Count(Gather(s.threads, Bringing), v)
    && Count(s.pushed, v) == Count(s.queue, v) + Count(Gather(s.threads, Working), v) + Count(s.ran, v)
  }

  lemma OneTask<T(!new)>(s: seq<T>, task: T, v: T)
    ensures Count(s + [task], v) == Count(s, v) + Count([task], v)
    ensures s != [] ==> Count(s, v) == Count([s[0]], v) + Count(s[1..], v)
    ensures Count<T>([], v) == 0
  {
    CountAppend(s, [task], v);
    if s != [] {
      CountAppend([s[0]], s[1..], v);
      assert [s[0]] + s[1..] == s;
    }
  }

  /** Thread i alone moves, to pc', and the tasks in it, in the queue and in the histories still
      add up when it is given the tasks in given. */
  ghost predicate TasksMove<T(!new)>(s: State<T>, i: nat, given: seq<T>, s': State<T>, v: T)
    requires i < |s.threads|
  {
    && |s'.threads| == |s.threads| && s'.threads == s.threads[i := s'.threads[i]]
    && var pc, pc' := s.threads[i], s'.threads[i];
      && Count(given, v) + Count(Bringing(pc), v) + Count(s.pushed, v) == Count(Bringing(pc'), v) + Count(s'.pushed, v)
      && Count(s'.pushed, v) + Count(s.queue, v) + Count(Working(pc), v) + Count(s.ran, v) ==
         Count(s.pushed, v) + Count(s'.queue, v) + Count(Working(pc'), v) + Count(s'.ran, v)
  }

  lemma PushMovesTasks<T(!new)>(s: State<T>, i: nat, wake: nat, s': State<T>, v: T)
    requires i < |s.threads| && PushGo(s, i, wake) == Next(s') && !s.threads[i].PushSignal?
    ensures TasksMove(s, i, [], s', v)
  {
    hide Count;
    OneTask(s.queue, v, v);
    if s.threads[i].PushStore? {
      OneTask(s.queue, s.threads[i].task, v);
      OneTask(s.pushed, s.threads[i].task, v);
    }
  }

  lemma WorkerMovesTasks<T(!new)>(s: State<T>, i: nat, s': State<T>, v: T)
    requires i < |s.threads| && WorkerGo(s, i) == Next(s')
    ensures TasksMove(s, i, [], s', v)
  {
    hide Count;
    OneTask(s.queue, v, v);
    if s.threads[i].WorkerRun? {
      OneTask(s.ran, s.threads[i].task, v);
    }
  }

  lemma MovingKeepsAccount<T(!new)>(s: State<T>, asked: seq<T>, i: nat, given: seq<T>, s': State<T>, v: T)
    requires Account(s, asked, v) && i < |s.threads| && TasksMove(s, i, given, s', v)
    ensures Account(s', asked + given, v)
  {
    hide Gather, Count, Bringing, Working;
    CountAppend(asked, given, v);
    GatherUpdate(s.threads, i, s'.threads[i], Bringing, v);
    GatherUpdate(s.threads, i, s'.threads[i], Working, v);
  }

  lemma SignalKeepsAccount<T(!new)>(s: State<T>, asked: seq<T>, i: nat, wake: nat, s': State<T>, v: T)
    requires Account(s, asked, v) && i < |s.threads| && s.threads[i].PushSignal? && PushGo(s, i, wake) == Next(s')
    ensures Account(s', asked, v)
  {
    hide Gather, Count;
    if wake < |s.threads| && s.threads[wake].WorkerAsleep? {
      GatherUpdate(s.threads, wake, WorkerWoken, Bringing, v);
      GatherUpdate(s.threads, wake, WorkerWoken, Working, v);
      GatherUpdate(s.threads[wake := WorkerWoken], i, PushUnlock, Bringing, v);
      GatherUpdate(s.threads[wake := WorkerWoken], i, PushUnlock, Working, v);
    } else {
      GatherUpdate(s.threads, i, PushUnlock, Bringing, v);
      GatherUpdate(s.threads, i, PushUnlock, Working, v);
    }
  }

  lemma GoKeepsAccount<T(!new)>(s: State<T>, asked: seq<T>, i: nat, wake: nat, s': State<T>, v: T)
    requires Account(s, asked, v) && Step(s, Move(i, Go(wake))) == Next(s')
    ensures Account(s', asked, v)
  {
    hide Account, TasksMove, PushGo, WorkerGo;
    assert asked + [] == asked;
    if s.threads[i].PushSignal? {
      SignalKeepsAccount(s, asked, i, wake, s', v);
    } else {
      if InPush(s.threads[i]) {
        PushMovesTasks(s, i, wake, s', v);
      } else {
        WorkerMovesTasks(s, i, s', v);
      }
      MovingKeepsAccount(s, asked, i, [], s', v);
    }
  }

  lemma OtherMovesTasks<T(!new)>(s: State<T>, m: Move<T>, s': State<T>, v: T)
    requires Step(s, m) == Next(s') && !m.event.Go?
    ensures m.thread < |s.threads| && TasksMove(s, m.thread, TaskOf(m), s', v)
  {
    hide Count;
    OneTask([v], v, v);
  }

  lemma StepKeepsAccount<T(!new)>(s: State<T>, asked: seq<T>, m: Move<T>, s': State<T>, v: T)
    requires Account(s, asked, v) && Step(s, m) == Next(s')
    ensures Account(s', asked + TaskOf(m), v)
  {
    hide Account, TasksMove, Step;
    if m.event.Go? {
      assert asked + TaskOf(m) == asked;
      GoKeepsAccount(s, asked, m.thread, m.event.wake, s', v);
    } else {
      OtherMovesTasks(s, m, s', v);
      MovingKeepsAccount(s, asked, m.thread, TaskOf(m), s', v);
    }
  }

  lemma RunKeepsAccount<T(!new)>(s: State<T>, schedule: seq<Move<T>>, v: T)
    requires Init(s) && IsEffective(Step, s, schedule)
    ensures Account(Run(s, schedule), Gather(schedule, TaskOf), v)
  {
    GatherNone(s.threads, Bringing);
    GatherNone(s.threads, Working);
    forall t: State<T>, asked, m | Account(t, asked, v) && Step(t, m).Next?
      ensures Account(Step(t, m).state, asked + TaskOf(m), v)
    {
      StepKeepsAccount(t, asked, m, Step(t, m).state, v);
    }
    RunGathers(Step, TaskOf, (t: State<T>, asked: seq<T>) => Account(t, asked, v), s, schedule);
  }

  /** No task passed to pushTask is dropped, doubled or exchanged for another: those that the
      schedule asks for are the ones pushed and the ones that calls are still bringing; and those
      pushed are queued, with a worker, or run. */
  lemma EveryTaskAskedForIsKept<T(!new)>(s: State<T>, schedule: seq<Move<T>>)
    requires Init(s) && IsEffective(Step, s, schedule)
    ensures var t := Run(s, schedule);
      && multiset(Gather(schedule, TaskOf)) == multiset(t.pushed) + multiset(Gather(t.threads, Bringing))
      && multiset(t.pushed) == multiset(t.queue) + multiset(Gather(t.threads, Working)) + multiset(t.ran)
  {
    var t := Run(s, schedule);
    hide Run, Gather, Step;
    forall v: T
      ensures multiset(Gather(schedule, TaskOf))[v] == (multiset(t.pushed) + multiset(Gather(t.threads, Bringing)))[v]
      ensures multiset(t.pushed)[v] == (multiset(t.queue) + multiset(Gather(t.threads, Working)) + multiset(t.ran))[v]
    {
      RunKeepsAccount(s, schedule, v);
    }
  }

  predicate IsWorker<T>(pc: PC<T>) {
    !pc.Idle? && !InPush(pc)
  }

  /** Nobody changes sides, and a worker is at work from its start on. */
  ghost predicate Roles<T(!new)>(s: State<T>, t: State<T>, made: seq<Move<T>>, i: nat) {
    && |t.threads| == |s.threads| && i < |s.threads|
    && IsWorker(t.threads[i]) == IsWorker(s.threads[i])
    && (t.threads[i].Unstarted? <==> s.threads[i].Unstarted? && Move(i, Start) !in made)
  }

  lemma StepKeepsRoles<T(!new)>(s: State<T>, t: State<T>, made: seq<Move<T>>, m: Move<T>, i: nat)
    requires Roles(s, t, made, i) && Step(t, m).Next?
    ensures Roles(s, Step(t, m).state, made + [m], i)
  {
  }

  function Itself<T>(m: Move<T>): seq<Move<T>> {
    [m]
  }

  lemma {:induction false} GatherMoves<T(!new)>(schedule: seq<Move<T>>)
    ensures Gather(schedule, Itself) == schedule
  {
    if schedule != [] {
      var last := |schedule| - 1;
      GatherMoves(schedule[..last]);
      assert Gather(schedule, Itself) == schedule[..last] + [schedule[last]];
    }
  }

  /** Callers stay callers and workers stay workers; a worker has been started if and only if the
      schedule starts it. */
  lemma RolesAreKept<T(!new)>(s: State<T>, schedule: seq<Move<T>>, i: nat)
    requires Init(s) && IsEffective(Step, s, schedule) && i < |s.threads|
    ensures var t := Run(s, schedule);
      && |t.threads| == |s.threads|
      && IsWorker(t.threads[i]) == s.threads[i].Unstarted?
      && (t.threads[i].Unstarted? <==> s.threads[i].Unstarted? && Move(i, Start) !in schedule)
  {
    forall t: State<T>, made, m | Roles(s, t, made, i) && Step(t, m).Next?
      ensures Roles(s, Step(t, m).state, made + Itself(m), i)
    {
      StepKeepsRoles(s, t, made, m, i);
    }
    RunGathers(Step, Itself, (t: State<T>, made: seq<Move<T>>) => Roles(s, t, made, i), s, schedule);
    GatherMoves(schedule);
  }

  /** Once nothing can move, and at least one worker was started, the tasks that have been run are
      exactly those passed to pushTask, each as often as it was passed. */
  lemma EveryTaskAskedForIsRun<T(!new)>(s: State<T>, schedule: seq<Move<T>>, worker: nat)
    requires Init(s) && IsEffective(Step, s, schedule) && AllStuck(Run(s, schedule))
    requires worker < |s.threads| && s.threads[worker].Unstarted? && Move(worker, Start) in schedule
    ensures multiset(Run(s, schedule).ran) == multiset(Gather(schedule, TaskOf))
  {
    var t := Run(s, schedule);
    StuckExactlyWhenDone(s, schedule);
    EveryTaskAskedForIsKept(s, schedule);
    RolesAreKept(s, schedule, worker);
    hide Run, AllStuck, Step, Gather;
    assert t.threads[worker].WorkerAsleep?;
    NothingUnderWay(t.threads);
  }

  lemma NothingUnderWay<T(!new)>(threads: seq<PC<T>>)
    requires forall i :: 0 <= i < |threads| ==> threads[i].Idle? || threads[i].Unstarted? || threads[i].WorkerAsleep?
    ensures Gather(threads, Bringing) == [] && Gather(threads, Working) == []
  {
    GatherNone(threads, Bringing);
    GatherNone(threads, Working);
  }

  // ---- a call of pushTask that nobody disturbs ----

  function Holding<T>(s: State<T>, i: nat, pc: PC<T>): State<T>
    requires i < |s.threads|
  {
    At(s, i, pc).(mtx := Some(i))
  }

  function Stored<T>(s: State<T>, task: T): State<T> {
    s.(queue := s.queue + [task], pushed := s.pushed + [task])
  }

  lemma PushAlone<T(!new)>(s: State<T>, i: nat, task: T, wake: nat)
    requires i < |s.threads| && s.threads[i].Idle? && s.mtx.None? && WakeWorker(s.threads, wake).Some?
    ensures Step(At(s, i, PushEntry(task)), Move(i, Go(wake))) == Next(Holding(s, i, PushStore(task)))
    ensures Step(Holding(s, i, PushStore(task)), Move(i, Go(wake))) == Next(Stored(Holding(s, i, PushSignal), task))
    ensures var t := Stored(s, task).(threads := WakeWorker(s.threads, wake).value);
      && |t.threads| == |s.threads|
      && Step(Stored(Holding(s, i, PushSignal), task), Move(i, Go(wake))) == Next(Holding(t, i, PushUnlock))
      && Step(Holding(t, i, PushUnlock), Move(i, Go(wake))) == Next(t)
  {
    Overwritten(s.threads, i, PushEntry(task), PushStore(task));
    Overwritten(s.threads, i, PushStore(task), PushSignal);
    var t := Stored(s, task).(threads := WakeWorker(s.threads, wake).value);
    assert Holding(t, i, PushUnlock).threads[i := Idle] == t.threads;
    if wake < |s.threads| && s.threads[wake].WorkerAsleep? {
      assert s.threads[i := PushSignal][wake := WorkerWoken][i := PushUnlock] == t.threads[i := PushUnlock];
    } else {
      Overwritten(s.threads, i, PushSignal, PushUnlock);
    }
  }
}
