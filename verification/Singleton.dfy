/**
  The lazily created pool as a transition system: any number of threads call getThreadPool,
  which tests the pointer without the lock, tests it again under the lock, and only then builds.
 */
module SingletonProtocol {
  import opened Prelude
  import opened Transitions

  datatype PC =
    | Outside
    | FirstTest(num: nat)     // reads the pointer without the lock
    | Entry(num: nat)         // before locking
    | SecondTest(num: nat)    // holds the lock
    | Construct(num: nat)
    | Publish(pool: nat)      // built, the pointer not yet assigned
    | Unlock
    | Return                  // reads the pointer for the caller

  /** built lists the size each constructor call was given; a pool is named by its position
      there.  returned lists what the calls have returned so far. */
  datatype State = State(
    ptr: Option<nat>, mtx: Option<nat>, threads: seq<PC>,
    built: seq<nat>, returned: seq<Option<nat>>)

  datatype Event = Call(num: nat) | Go

  datatype Move = Move(thread: nat, event: Event)

  ghost predicate Init(s: State) {
    && s.ptr == None && s.mtx == None && s.built == [] && s.returned == []
    && forall i :: 0 <= i < |s.threads| ==> s.threads[i] == Outside
  }

  function At(s: State, i: nat, pc: PC): State
    requires i < |s.threads|
  {
    s.(threads := s.threads[i := pc])
  }

  function GoOn(s: State, i: nat): Outcome<State>
    requires i < |s.threads|
  {
    match s.threads[i]
    case Outside => Blocked
    case FirstTest(num) => Next(At(s, i, if s.ptr.None? then Entry(num) else Return))
    case Entry(num) =>
      if s.mtx.Some? then Blocked else Next(At(s, i, SecondTest(num)).(mtx := Some(i)))
    case SecondTest(num) => Next(At(s, i, if s.ptr.None? then Construct(num) else Unlock))
    case Construct(num) => Next(At(s, i, Publish(|s.built|)).(built := s.built + [num]))
    case Publish(pool) => Next(At(s, i, Unlock).(ptr := Some(pool)))
    case Unlock =>
      if s.mtx != Some(i) then Fault else Next(At(s, i, Return).(mtx := None))
    case Return => Next(At(s, i, Outside).(returned := s.returned + [s.ptr]))
  }

  function Step(s: State, m: Move): Outcome<State> {
    if m.thread >= |s.threads| then Blocked
    else
      match m.event
      case Call(num) => if s.threads[m.thread].Outside? then Next(At(s, m.thread, FirstTest(num))) else Blocked
      case Go => GoOn(s, m.thread)
  }

  function Run(s: State, schedule: seq<Move>): State {
    RunOf(Step, s, schedule)
  }

  predicate Owns(pc: PC) {
    pc.SecondTest? || pc.Construct? || pc.Publish? || pc.Unlock?
  }

  ghost predicate Lock(s: State) {
    && (s.mtx.Some? ==> s.mtx.value < |s.threads| && Owns(s.threads[s.mtx.value]))
    && (forall i :: 0 <= i < |s.threads| && Owns(s.threads[i]) ==> s.mtx == Some(i))
  }

  /** What a thread can rely on, where it is. */
  predicate PointOk(s: State, pc: PC) {
    match pc
    case Construct(_) => s.ptr.None? && s.built == []
    case Publish(pool) => s.ptr.None? && |s.built| == 1 && pool == 0
    case Unlock => s.ptr.Some?
    case Return => s.ptr.Some?
    case _ => true
  }

  ghost predicate Building(s: State) {
    && (s.ptr.Some? ==> s.ptr == Some(0) && |s.built| == 1)
    && (s.ptr.None? ==>
          s.built == [] ||
          (|s.built| == 1 && s.mtx.Some? && s.mtx.value < |s.threads| && s.threads[s.mtx.value] == Publish(0)))
    && (forall i :: 0 <= i < |s.threads| ==> PointOk(s, s.threads[i]))
  }

  ghost predicate HandedOut(s: State) {
    && (s.returned != [] ==> s.ptr.Some?)
    && (forall k :: 0 <= k < |s.returned| ==> IsFirst(s.returned[k]))
  }

  /** The pool that was built first. */
  predicate IsFirst(pool: Option<nat>) {
    pool == Some(0)
  }

  ghost predicate Inv(s: State) {
    Lock(s) && Building(s) && HandedOut(s)
  }

  lemma StepKeepsLock(s: State, m: Move, s': State)
    requires Lock(s) && Step(s, m) == Next(s')
    ensures Lock(s') && |s'.threads| == |s.threads|
  {
  }

  lemma StepKeepsBuilding(s: State, m: Move, s': State)
    requires Lock(s) && Building(s) && Step(s, m) == Next(s')
    ensures Building(s')
    ensures s.built <= s'.built && (s.ptr.Some? ==> s'.ptr == s.ptr)
  {
    var i := m.thread;
    assert PointOk(s, s.threads[i]);
    assert |s'.threads| == |s.threads| && s'.threads == s.threads[i := s'.threads[i]];
    if s.threads[i].Construct? || s.threads[i].Publish? {
      assert s.mtx == Some(i);
      forall k | 0 <= k < |s.threads| && k != i ensures PointOk(s', s'.threads[k]) {
        assert !Owns(s.threads[k]) && PointOk(s, s.threads[k]);
      }
    } else {
      assert s'.ptr == s.ptr && s'.built == s.built;
      forall k | 0 <= k < |s.threads| && k != i ensures PointOk(s', s'.threads[k]) {
        assert PointOk(s, s.threads[k]);
      }
    }
  }

  lemma StepHandsOut(s: State, m: Move, s': State)
    requires Building(s) && Step(s, m) == Next(s')
    ensures s.ptr.Some? ==> s'.ptr.Some?
    ensures s'.returned == s.returned || (s'.returned == s.returned + [Some(0)] && s'.ptr.Some?)
  {
    assert PointOk(s, s.threads[m.thread]);
  }

  lemma StepKeepsHandedOut(s: State, m: Move, s': State)
    requires Building(s) && HandedOut(s) && Step(s, m) == Next(s')
    ensures HandedOut(s')
  {
    StepHandsOut(s, m, s');
    hide Building, Step;
  }

  lemma StepKeepsInv(s: State, m: Move)
    requires Inv(s)
    ensures !Step(s, m).Fault?
    ensures Step(s, m).Next? ==>
      var s' := Step(s, m).state;
      Inv(s') && |s'.threads| == |s.threads| && s.built <= s'.built && (s.ptr.Some? ==> s'.ptr == s.ptr)
  {
    assert !Step(s, m).Fault? by { hide Building, HandedOut; }
    if Step(s, m).Next? {
      var s' := Step(s, m).state;
      StepKeepsLock(s, m, s');
      StepKeepsBuilding(s, m, s');
      StepKeepsHandedOut(s, m, s');
    }
    hide Lock, Building, HandedOut, Step;
  }

  lemma InitHasInv(s: State)
    requires Init(s)
    ensures Inv(s)
  {
  }

  /** What holds from a state on: the invariant, and that nothing published is taken back. */
  ghost predicate Follows(s: State, t: State) {
    Inv(t) && |t.threads| == |s.threads| && s.built <= t.built && (s.ptr.Some? ==> t.ptr == s.ptr)
  }

  lemma RunKeepsInv(s: State, schedule: seq<Move>)
    requires Inv(s)
    ensures Follows(s, Run(s, schedule))
  {
    forall t, m | Follows(s, t) && Step(t, m).Next? ensures Follows(s, Step(t, m).state) {
      hide Inv, Step;
      StepKeepsInv(t, m);
    }
    RunKeeps(Step, t => Follows(s, t), s, schedule);
  }

  /** However many threads call at once: at most one pool is ever built, every call that
      returns hands out that pool, and it was built before the call returned. */
  lemma OnePoolForEveryone(s: State, schedule: seq<Move>)
    requires Init(s)
    ensures var t := Run(s, schedule);
      && |t.built| <= 1
      && (forall k :: 0 <= k < |t.returned| ==> t.returned[k] == Some(0) && |t.built| == 1)
  {
    InitHasInv(s);
    RunKeepsInv(s, schedule);
    hide Run, Owns;
    var t := Run(s, schedule);
    assert Inv(t);
    assert t.ptr.Some? ==> |t.built| == 1;
    assert t.ptr.None? ==> |t.built| <= 1;
    forall k | 0 <= k < |t.returned| ensures t.returned[k] == Some(0) && |t.built| == 1 {
    }
  }

  /** Once set, the pointer never changes again, and the size of the pool stays the one that
      the building caller asked for. */
  lemma PointerNeverChanges(s: State, schedule: seq<Move>, further: seq<Move>)
    requires Init(s) && Run(s, schedule).ptr.Some?
    ensures var t, u := Run(s, schedule), Run(s, schedule + further);
      u.ptr == t.ptr && u.built == t.built
  {
    InitHasInv(s);
    RunKeepsInv(s, schedule);
    RunInTwoParts(Step, s, schedule, further);
    RunKeepsInv(Run(s, schedule), further);
  }

  // ---- whose call builds, and what every call gets ----

  /** The size that a call on its way to the constructor carries. */
  function Carried(pc: PC): Option<nat> {
    match pc
    case FirstTest(num) => Some(num)
    case Entry(num) => Some(num)
    case SecondTest(num) => Some(num)
    case Construct(num) => Some(num)
    case _ => None
  }

  /** The latest call of thread i in the schedule is the move at position call, and asks for num. */
  ghost predicate IsLatestCall(schedule: seq<Move>, i: nat, call: nat, num: nat) {
    && call < |schedule| && schedule[call] == Move(i, Call(num))
    && forall k :: call < k < |schedule| && schedule[k].thread == i ==> schedule[k].event.Go?
  }

  lemma StepCarries(s: State, m: Move, s': State, i: nat)
    requires Step(s, m) == Next(s')
    ensures |s'.threads| == |s.threads| && m.thread < |s.threads|
    ensures i < |s.threads| && Carried(s'.threads[i]).Some? ==>
      if i == m.thread && m.event.Call? then Carried(s'.threads[i]) == Some(m.event.num)
      else Carried(s'.threads[i]) == Carried(s.threads[i])
  {
  }

  lemma LatestCallStays(schedule: seq<Move>, i: nat, call: nat, num: nat)
    requires schedule != [] && IsLatestCall(schedule[..|schedule| - 1], i, call, num)
    requires schedule[|schedule| - 1].thread == i ==> schedule[|schedule| - 1].event.Go?
    ensures IsLatestCall(schedule, i, call, num)
  {
    var before := schedule[..|schedule| - 1];
    assert before[call] == schedule[call];
    forall k | call < k < |schedule| && schedule[k].thread == i ensures schedule[k].event.Go? {
      assert k < |before| ==> before[k] == schedule[k];
    }
  }

  lemma {:induction false} CarriesItsArgument(s: State, schedule: seq<Move>, i: nat) returns (call: nat)
    requires Init(s) && IsEffective(Step, s, schedule)
    ensures var t := Run(s, schedule);
      i < |t.threads| && Carried(t.threads[i]).Some? ==>
        IsLatestCall(schedule, i, call, Carried(t.threads[i]).value)
  {
    call := 0;
    if schedule != [] {
      var last := |schedule| - 1;
      hide Step, Carried;
      call := CarriesItsArgument(s, schedule[..last], i);
      var t := Run(s, schedule);
      StepCarries(Run(s, schedule[..last]), schedule[last], t, i);
      if schedule[last].thread == i && schedule[last].event.Call? {
        call := last;
      } else if i < |t.threads| && Carried(t.threads[i]).Some? {
        LatestCallStays(schedule, i, call, Carried(t.threads[i]).value);
      }
    }
  }

  /** The one move that built the pool, and the call it belongs to. */
  ghost predicate BuiltBy(s: State, schedule: seq<Move>, call: nat, build: nat, size: nat) {
    && build < |schedule| && schedule[build].event.Go?
    && IsLatestCall(schedule[..build], schedule[build].thread, call, size)
    && Run(s, schedule[..build]).built == [] && Run(s, schedule[..build + 1]).built == [size]
  }

  lemma StepBuilds(s: State, m: Move, s': State)
    requires Step(s, m) == Next(s') && s'.built != s.built
    ensures m.event.Go? && m.thread < |s.threads| && Carried(s.threads[m.thread]).Some?
    ensures s'.built == s.built + [Carried(s.threads[m.thread]).value]
  {
  }

  /** The pool has the size that was asked for by the call that built it, made by the same thread
      and not followed by another call of that thread before it built. */
  lemma {:induction false} PoolHasTheSizeAskedFor(s: State, schedule: seq<Move>) returns (call: nat, build: nat)
    requires Init(s) && IsEffective(Step, s, schedule) && Run(s, schedule).built != []
    ensures |Run(s, schedule).built| == 1
    ensures BuiltBy(s, schedule, call, build, Run(s, schedule).built[0])
  {
    OnePoolForEveryone(s, schedule);
    var last := |schedule| - 1;
    hide Step, Carried;
    var t := Run(s, schedule[..last]);
    if t.built != [] {
      call, build := PoolHasTheSizeAskedFor(s, schedule[..last]);
      assert schedule[..last][..build] == schedule[..build];
      assert schedule[..last][..build + 1] == schedule[..build + 1];
      InitHasInv(s);
      RunKeepsInv(s, schedule[..last]);
      StepKeepsInv(t, schedule[last]);
    } else {
      StepBuilds(t, schedule[last], Run(s, schedule));
      build := last;
      call := CarriesItsArgument(s, schedule[..last], schedule[last].thread);
      assert schedule[..build + 1] == schedule;
    }
  }

  /** In particular, when all calls ask for the same size, the pool has that size. */
  lemma SizeEveryoneAskedFor(s: State, schedule: seq<Move>, num: nat)
    requires Init(s) && IsEffective(Step, s, schedule) && Run(s, schedule).built != []
    requires forall k :: 0 <= k < |schedule| && schedule[k].event.Call? ==> schedule[k].event.num == num
    ensures Run(s, schedule).built == [num]
  {
    var call, build := PoolHasTheSizeAskedFor(s, schedule);
    assert schedule[..build][call] == schedule[call];
  }

  function ArgumentOf(m: Move): seq<nat> {
    if m.event.Call? then [m.event.num] else []
  }

  function Inside(pc: PC): nat {
    if pc.Outside? then 0 else 1
  }

  ghost predicate Answered(s: State, asked: seq<nat>) {
    |asked| == |s.returned| + Sum(s.threads, Inside)
  }

  lemma StepKeepsAnswered(s: State, asked: seq<nat>, m: Move, s': State)
    requires Answered(s, asked) && Step(s, m) == Next(s')
    ensures Answered(s', asked + ArgumentOf(m))
  {
    hide Sum;
    assert |s'.returned| + Inside(s'.threads[m.thread]) == |s.returned| + Inside(s.threads[m.thread]) + |ArgumentOf(m)|;
    SumUpdate(s.threads, m.thread, s'.threads[m.thread], Inside);
  }

  /** No call is lost: each one made has returned a pool or is still under way. */
  lemma EveryCallIsAnswered(s: State, schedule: seq<Move>)
    requires Init(s) && IsEffective(Step, s, schedule)
    ensures var t := Run(s, schedule);
      |Gather(schedule, ArgumentOf)| == |t.returned| + Sum(t.threads, Inside)
  {
    SumZero(s.threads, Inside);
    assert Answered(s, []);
    hide Step, ArgumentOf;
    forall t: State, asked, m | Answered(t, asked) && Step(t, m).Next?
      ensures Answered(Step(t, m).state, asked + ArgumentOf(m))
    {
      StepKeepsAnswered(t, asked, m, Step(t, m).state);
    }
    RunGathers(Step, ArgumentOf, Answered, s, schedule);
  }

  /** Nothing can move exactly when every call has returned. */
  lemma StuckExactlyWhenAllReturned(s: State, schedule: seq<Move>)
    requires Init(s)
    ensures var t := Run(s, schedule);
      (forall k: nat :: !Step(t, Move(k, Go)).Next?) <==>
      (forall i :: 0 <= i < |t.threads| ==> t.threads[i].Outside?)
  {
    InitHasInv(s);
    RunKeepsInv(s, schedule);
    hide Run;
    var t := Run(s, schedule);
    if i :| 0 <= i < |t.threads| && !t.threads[i].Outside? {
      var k := if t.threads[i].Entry? && t.mtx.Some? then t.mtx.value else i;
      assert Step(t, Move(k, Go)).Next?;
    }
  }

  function Weight(pc: PC): nat {
    match pc
    case Outside => 0
    case FirstTest(_) => 7
    case Entry(_) => 6
    case SecondTest(_) => 5
    case Construct(_) => 4
    case Publish(_) => 3
    case Unlock => 2
    case Return => 1
  }

  /** What a move may add to the total weight, counting the move itself. */
  function Cost(m: Move): nat {
    if m.event.Go? then 0 else 8
  }

  lemma StepUsesUpWeight(s: State, m: Move, s': State)
    requires Step(s, m) == Next(s')
    ensures 1 + Sum(s'.threads, Weight) <= Sum(s.threads, Weight) + Cost(m)
  {
    hide Sum;
    SumUpdate(s.threads, m.thread, s'.threads[m.thread], Weight);
  }

  /** No call takes more than eight moves: every run with finitely many calls ends, and then
      all of them have returned. */
  lemma EveryRunEnds(s: State, schedule: seq<Move>)
    requires Init(s) && IsEffective(Step, s, schedule)
    ensures |schedule| <= TotalCost(Cost, schedule)
  {
    SumZero(s.threads, Weight);
    forall t, m | Step(t, m).Next? ensures 1 + Sum(Step(t, m).state.threads, Weight) <= Sum(t.threads, Weight) + Cost(m) {
      StepUsesUpWeight(t, m, Step(t, m).state);
    }
    hide Step, Sum, Cost;
    RunUsesUp(Step, _ => true, (t: State) => Sum(t.threads, Weight), Cost, s, schedule);
  }
}
