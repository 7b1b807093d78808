/**
  Two threads print 0, 1, 2, ... in turns: a mutex, one condition variable and the flag
  `ready` say whose turn it is.  The loop test i < n is made without the mutex.
 */
module OddEvenProtocol {
  import opened Prelude
  import opened Transitions

  datatype Who = Odd | Even   // thread 1 prints odd numbers, thread 2 even ones

  datatype PC =
    | Test      // the loop test, without the mutex
    | Entry     // before locking
    | Check     // the predicate of cv.wait, holding the mutex
    | Asleep
    | Woken
    | Print
    | Count     // i += 1
    | Flip      // ready = ...
    | Notify
    | Unlock
    | Done

  datatype State = State(
    n: nat, i: nat, ready: bool, mtx: Option<Who>, odd: PC, even: PC,
    out: seq<(Who, nat)>)

  /** A thread runs its next instruction, or wakes up for no reason. */
  datatype Move = Go(w: Who) | Spurious(w: Who)

  ghost predicate Init(s: State) {
    s.i == 0 && s.ready && s.mtx == None && s.odd == Test && s.even == Test && s.out == []
  }

  function Other(w: Who): Who {
    if w.Odd? then Even else Odd
  }

  function Pc(s: State, w: Who): PC {
    if w.Odd? then s.odd else s.even
  }

  function At(s: State, w: Who, pc: PC): State {
    if w.Odd? then s.(odd := pc) else s.(even := pc)
  }

  predicate Turn(s: State, w: Who) {
    s.ready == w.Even?
  }

  function GoOn(s: State, w: Who): Outcome<State> {
    match Pc(s, w)
    case Test => Next(At(s, w, if s.i < s.n then Entry else Done))
    case Entry => if s.mtx.Some? then Blocked else Next(At(s, w, Check).(mtx := Some(w)))
    case Check => if Turn(s, w) then Next(At(s, w, Print)) else Next(At(s, w, Asleep).(mtx := None))
    case Asleep => Blocked
    case Woken => if s.mtx.Some? then Blocked else Next(At(s, w, Check).(mtx := Some(w)))
    case Print => Next(At(s, w, Count).(out := s.out + [(w, s.i)]))
    case Count => Next(At(s, w, Flip).(i := s.i + 1))
    case Flip => Next(At(s, w, Notify).(ready := w.Odd?))
    case Notify =>
      var t := if Pc(s, Other(w)).Asleep? then At(s, Other(w), Woken) else s;
      Next(At(t, w, Unlock))
    case Unlock => if s.mtx != Some(w) then Fault else Next(At(s, w, Test).(mtx := None))
    case Done => Blocked
  }

  function Step(s: State, m: Move): Outcome<State> {
    match m
    case Go(w) => GoOn(s, w)
    case Spurious(w) => if Pc(s, w).Asleep? then Next(At(s, w, Woken)) else Blocked
  }

  function Run(s: State, schedule: seq<Move>): State {
    RunOf(Step, s, schedule)
  }

  // ---- the invariant ----

  predicate Owns(pc: PC) {
    pc.Check? || pc.Print? || pc.Count? || pc.Flip? || pc.Notify? || pc.Unlock?
  }

  /** Past the loop test, with its number still to be counted. */
  predicate Pending(pc: PC) {
    pc.Entry? || pc.Check? || pc.Asleep? || pc.Woken? || pc.Print? || pc.Count?
  }

  function PrinterOf(k: nat): Who {
    if k % 2 == 0 then Even else Odd
  }

  function Numbers(m: nat): seq<(Who, nat)> {
    seq(m, k requires 0 <= k => (PrinterOf(k), k))
  }

  ghost predicate Lock(s: State) {
    && (s.mtx.Some? ==> Owns(Pc(s, s.mtx.value)))
    && (Owns(s.odd) ==> s.mtx == Some(Odd))
    && (Owns(s.even) ==> s.mtx == Some(Even))
  }

  ghost predicate TurnOf(s: State, w: Who) {
    && (Pc(s, w).Print? || Pc(s, w).Count? || Pc(s, w).Flip? ==> Turn(s, w))
    && (Pc(s, w).Notify? ==> !Turn(s, w))
  }

  ghost predicate Turns(s: State) {
    && (s.ready == (s.i % 2 == 0)) == !(s.odd.Flip? || s.even.Flip?)
    && TurnOf(s, Odd) && TurnOf(s, Even)
  }

  /** No wakeup is lost: a thread asleep in its own turn is about to be notified. */
  ghost predicate Wakeups(s: State) {
    && (s.odd.Asleep? && Turn(s, Odd) ==> s.even.Notify?)
    && (s.even.Asleep? && Turn(s, Even) ==> s.odd.Notify?)
  }

  ghost predicate Output(s: State) {
    s.out == Numbers(if s.odd.Count? || s.even.Count? then s.i + 1 else s.i)
  }

  /** How far the counter can run past n. */
  ghost predicate Limit(s: State) {
    && s.i <= s.n + 1
    && (s.i >= s.n ==> !Pending(Pc(s, Other(PrinterOf(s.i)))))
    && (s.i > s.n || s.n == 0 ==> !Pending(s.odd) && !Pending(s.even))
    && (s.n == 0 ==> s.i == 0)
    && (s.odd.Done? || s.even.Done? ==> s.i >= s.n)
  }

  ghost predicate Inv(s: State) {
    Lock(s) && Turns(s) && Wakeups(s) && Output(s) && Limit(s)
  }

  lemma StepKeepsLock(s: State, m: Move, s': State)
    requires Lock(s) && Step(s, m) == Next(s')
    ensures Lock(s')
  {
  }

  lemma StepKeepsTurns(s: State, m: Move, s': State)
    requires Lock(s) && Turns(s) && Step(s, m) == Next(s')
    ensures Turns(s')
  {
  }

  lemma StepKeepsWakeups(s: State, m: Move, s': State)
    requires Lock(s) && Turns(s) && Wakeups(s) && Step(s, m) == Next(s')
    ensures Wakeups(s')
  {
  }

  lemma StepKeepsOutput(s: State, m: Move, s': State)
    requires Lock(s) && Turns(s) && Output(s) && Step(s, m) == Next(s')
    ensures Output(s')
  {
  }

  lemma StepKeepsLimit(s: State, m: Move, s': State)
    requires Lock(s) && Turns(s) && Limit(s) && Step(s, m) == Next(s')
    ensures Limit(s')
  {
  }

  lemma StepKeepsInv(s: State, m: Move)
    requires Inv(s)
    ensures !Step(s, m).Fault?
    ensures Step(s, m).Next? ==> Inv(Step(s, m).state) && Step(s, m).state.n == s.n
  {
    if Step(s, m).Next? {
      var s' := Step(s, m).state;
      StepKeepsLock(s, m, s');
      StepKeepsTurns(s, m, s');
      StepKeepsWakeups(s, m, s');
      StepKeepsOutput(s, m, s');
      StepKeepsLimit(s, m, s');
      hide Lock, Turns, Wakeups, Output, Limit;
    }
  }

  lemma RunKeepsInv(s: State, schedule: seq<Move>)
    requires Inv(s)
    ensures Inv(Run(s, schedule)) && Run(s, schedule).n == s.n
  {
    forall t, m | Inv(t) && t.n == s.n && Step(t, m).Next? ensures Inv(Step(t, m).state) && Step(t, m).state.n == s.n {
      hide Inv, Step;
      StepKeepsInv(t, m);
    }
    RunKeeps(Step, (t: State) => Inv(t) && t.n == s.n, s, schedule);
  }

  // ---- the theorems, about every schedule ----

  /** The output is always 0, 1, 2, ... without a gap or a repetition, even numbers printed by
      thread 2 and odd ones by thread 1, and it never gets past n. */
  lemma OutputIsCountingInTurns(s: State, schedule: seq<Move>, k: nat)
    requires Init(s) && k < |Run(s, schedule).out|
    ensures var t := Run(s, schedule);
      && t.out[k] == (if k % 2 == 0 then Even else Odd, k)
      && |t.out| <= s.n + 1 && (s.n == 0 ==> t.out == [])
  {
    RunKeepsInv(s, schedule);
  }

  /** Nobody can move without a spurious wakeup. */
  ghost predicate Stuck(s: State) {
    !Step(s, Go(Odd)).Next? && !Step(s, Go(Even)).Next?
  }

  /** No wakeup is ever lost: a run that cannot go on has ended, both threads have left their
      loops, and the numbers 0..m-1 are on the screen with m = n, or m = n + 1 if n >= 1. */
  lemma RunsEndProperly(s: State, schedule: seq<Move>)
    requires Init(s)
    ensures var t := Run(s, schedule);
      Stuck(t) ==>
        && t.odd == Done && t.even == Done
        && t.out == Numbers(t.i)
        && (t.i == s.n || (s.n >= 1 && t.i == s.n + 1))
  {
    RunKeepsInv(s, schedule);
  }

  function Weight(pc: PC): nat {
    match pc
    case Done => 0
    case Asleep => 1
    case Count => 2
    case Print => 3
    case Check => 4
    case Woken => 5
    case Entry => 5
    case Test => 6
    case Unlock => 7
    case Notify => 12
    case Flip => 13
  }

  ghost function Measure(s: State): nat {
    12 * (if s.i <= s.n then s.n + 1 - s.i else 0) + Weight(s.odd) + Weight(s.even)
  }

  lemma GoDecreasesMeasure(s: State, w: Who, s': State)
    requires Inv(s) && Inv(s') && Step(s, Go(w)) == Next(s')
    ensures Measure(s') < Measure(s)
  {
    assert s.i <= s.n + 1 && s'.i <= s.n + 1;
    hide Wakeups, Output, Limit, Numbers;
  }

  lemma SpuriousRaisesMeasure(s: State, w: Who, s': State)
    requires Inv(s) && Inv(s') && Step(s, Spurious(w)) == Next(s')
    ensures Measure(s') == Measure(s) + 4
  {
  }

  /** What a move may add to the measure, counting the move itself. */
  function Cost(m: Move): nat {
    if m.Spurious? then 5 else 0
  }

  lemma StepUsesUpMeasure(s: State, m: Move)
    requires Inv(s) && Step(s, m).Next?
    ensures var s' := Step(s, m).state; Inv(s') && 1 + Measure(s') <= Measure(s) + Cost(m)
  {
    StepKeepsInv(s, m);
    hide Inv, Step;
    if m.Go? {
      GoDecreasesMeasure(s, m.w, Step(s, m).state);
    } else {
      SpuriousRaisesMeasure(s, m.w, Step(s, m).state);
    }
  }

  /** Both threads terminate: no run has more than 12n + 24 moves, plus five for each wakeup
      that nobody asked for. */
  lemma EveryRunTerminates(s: State, schedule: seq<Move>)
    requires Init(s) && IsEffective(Step, s, schedule)
    ensures |schedule| <= 12 * s.n + 24 + TotalCost(Cost, schedule)
  {
    forall t, m | Inv(t) && Step(t, m).Next?
      ensures Inv(Step(t, m).state) && 1 + Measure(Step(t, m).state) <= Measure(t) + Cost(m)
    {
      StepUsesUpMeasure(t, m);
    }
    RunUsesUp(Step, Inv, Measure, Cost, s, schedule);
  }

  // ---- when the counter runs past n ----

  lemma StepAtLimit(s: State, m: Move)
    requires Inv(s) && s.i == s.n && s.n >= 1 && Step(s, m).Next?
    ensures var s' := Step(s, m).state; var w := PrinterOf(s.n);
      if Pending(Pc(s, w)) then (s'.i == s.n && Pending(Pc(s', w))) || s'.i == s.n + 1
      else s'.i == s.n && !Pending(Pc(s', w))
  {
    hide Output, Wakeups;
  }

  lemma StepPastLimit(s: State, m: Move)
    requires Inv(s) && s.i == s.n + 1 && Step(s, m).Next?
    ensures Step(s, m).state.i == s.n + 1
  {
    hide Output, Wakeups;
  }

  /** Where a run can be once the counter has reached n: whether the thread whose number n
      would be was past its test then decides it. */
  ghost predicate FromLimit(n: nat, early: bool, t: State) {
    && Inv(t) && t.n == n
    && if early then (t.i == n && Pending(Pc(t, PrinterOf(n)))) || t.i == n + 1
       else t.i == n && !Pending(Pc(t, PrinterOf(n)))
  }

  lemma RunFromLimit(s: State, schedule: seq<Move>)
    requires Inv(s) && s.i == s.n && s.n >= 1
    ensures FromLimit(s.n, Pending(Pc(s, PrinterOf(s.n))), Run(s, schedule))
  {
    var early := Pending(Pc(s, PrinterOf(s.n)));
    forall t, m | FromLimit(s.n, early, t) && Step(t, m).Next? ensures FromLimit(s.n, early, Step(t, m).state) {
      hide Inv, Step;
      StepKeepsInv(t, m);
      if t.i == t.n {
        StepAtLimit(t, m);
      } else {
        StepPastLimit(t, m);
      }
    }
    RunKeeps(Step, t => FromLimit(s.n, early, t), s, schedule);
  }

  /** One number too many is printed if and only if, when the counter reaches n, the thread
      whose number n would be has already passed its loop test. */
  lemma OvershootExactlyWhenTestedEarly(s: State, schedule: seq<Move>, further: seq<Move>)
    requires Init(s) && s.n >= 1 && Run(s, schedule).i == s.n
    requires Stuck(Run(s, schedule + further))
    ensures var t, u := Run(s, schedule), Run(s, schedule + further);
      |u.out| == s.n + 1 <==> Pending(Pc(t, PrinterOf(s.n)))
  {
    RunKeepsInv(s, schedule);
    RunInTwoParts(Step, s, schedule, further);
    RunFromLimit(Run(s, schedule), further);
    RunsEndProperly(s, schedule + further);
  }

  /** n instructions of one thread in a row. */
  function GoTimes(s: State, w: Who, n: nat): State {
    Repeat(Step, s, Go(w), n)
  }

  lemma GoAhead(s: State, schedule: seq<Move>, w: Who, n: nat) returns (longer: seq<Move>)
    ensures Run(s, longer) == GoTimes(Run(s, schedule), w, n)
  {
    longer := RunAhead(Step, s, schedule, Go(w), n);
  }

  /** Nobody past the loop test, k numbers printed. */
  ghost function Between(n: nat, k: nat): State {
    State(n, k, k % 2 == 0, None, Test, Test, Numbers(k))
  }

  /** From the lock to the unlock, whatever the other thread is doing outside. */
  lemma OneRound(s: State, w: Who)
    requires Pc(s, w).Entry? && s.mtx == None && Turn(s, w) && !Pc(s, Other(w)).Asleep?
    ensures GoTimes(s, w, 7) ==
      At(s, w, Test).(i := s.i + 1, ready := w.Odd?, out := s.out + [(w, s.i)])
  {
    var t := s.(mtx := Some(w));
    assert GoTimes(s, w, 1) == At(t, w, Check);
    assert GoTimes(s, w, 2) == At(t, w, Print);
    var u := t.(out := s.out + [(w, s.i)]);
    assert GoTimes(s, w, 3) == At(u, w, Count);
    var v := u.(i := s.i + 1);
    assert GoTimes(s, w, 4) == At(v, w, Flip);
    var x := v.(ready := w.Odd?);
    assert GoTimes(s, w, 5) == At(x, w, Notify);
    assert GoTimes(s, w, 6) == At(x, w, Unlock);
  }

  lemma PassTest(s: State, schedule: seq<Move>, w: Who) returns (longer: seq<Move>)
    requires var t := Run(s, schedule); Pc(t, w).Test? && t.i < t.n
    ensures Run(s, longer) == At(Run(s, schedule), w, Entry)
  {
    longer := GoAhead(s, schedule, w, 1);
    assert GoTimes(Run(s, schedule), w, 0) == Run(s, schedule);
  }

  /** A thread that finds its turn prints, counts and is back at its loop test. */
  lemma RoundFromTest(s: State, schedule: seq<Move>, w: Who) returns (longer: seq<Move>)
    requires var t := Run(s, schedule);
      Pc(t, w).Test? && t.i < t.n && t.mtx == None && Turn(t, w) && !Pc(t, Other(w)).Asleep?
    ensures var t := Run(s, schedule);
      Run(s, longer) == t.(i := t.i + 1, ready := w.Odd?, out := t.out + [(w, t.i)])
  {
    hide Run, GoTimes;
    longer := PassTest(s, schedule, w);
    OneRound(At(Run(s, schedule), w, Entry), w);
    longer := GoAhead(s, longer, w, 7);
  }

  lemma NextBetween(n: nat, k: nat)
    ensures Turn(Between(n, k), PrinterOf(k))
    ensures Between(n, k).(i := k + 1, ready := PrinterOf(k).Odd?, out := Numbers(k) + [(PrinterOf(k), k)]) ==
            Between(n, k + 1)
  {
    assert Numbers(k) + [(PrinterOf(k), k)] == Numbers(k + 1);
  }

  lemma {:induction false} CountTo(s: State, k: nat) returns (schedule: seq<Move>)
    requires Init(s) && k <= s.n
    ensures Run(s, schedule) == Between(s.n, k)
  {
    if k == 0 {
      schedule := [];
    } else {
      hide Run, GoTimes, Numbers, PrinterOf;
      schedule := CountTo(s, k - 1);
      NextBetween(s.n, k - 1);
      schedule := RoundFromTest(s, schedule, PrinterOf(k - 1));
    }
  }

  lemma LeaveLoops(s: State, schedule: seq<Move>) returns (longer: seq<Move>)
    requires var t := Run(s, schedule); t.odd == Test && t.even == Test && t.i >= t.n
    ensures Run(s, longer) == Run(s, schedule).(odd := Done, even := Done)
  {
    var t := Run(s, schedule);
    longer := GoAhead(s, schedule, Odd, 1);
    assert Run(s, longer) == t.(odd := Done) by { assert GoTimes(t, Odd, 0) == t; }
    var u := t.(odd := Done);
    longer := GoAhead(s, longer, Even, 1);
    assert GoTimes(u, Even, 0) == u;
  }

  /** The thread whose number n would be tests its loop early, waits for number n - 1, and
      prints n. */
  lemma Overshoot(s: State, schedule: seq<Move>) returns (over: seq<Move>)
    requires s.n >= 1 && Run(s, schedule) == Between(s.n, s.n - 1)
    ensures Run(s, over) == Between(s.n, s.n + 1)
  {
    hide Run, GoTimes, Numbers;
    var w, early := PrinterOf(s.n - 1), PrinterOf(s.n);
    var t := Between(s.n, s.n - 1);
    over := PassTest(s, schedule, early);
    NextBetween(s.n, s.n - 1);
    over := RoundFromTest(s, over, w);
    var u := At(Between(s.n, s.n), early, Entry);
    assert Run(s, over) == u;
    OneRound(u, early);
    NextBetween(s.n, s.n);
    over := GoAhead(s, over, early, 7);
  }

  /** Both endings happen, for every n from 1 on. */
  lemma BothEndingsHappen(s: State) returns (exact: seq<Move>, over: seq<Move>)
    requires Init(s) && s.n >= 1
    ensures Stuck(Run(s, exact)) && |Run(s, exact).out| == s.n
    ensures Stuck(Run(s, over)) && |Run(s, over).out| == s.n + 1
  {
    hide Run;
    exact := CountTo(s, s.n);
    exact := LeaveLoops(s, exact);
    over := CountTo(s, s.n - 1);
    over := Overshoot(s, over);
    over := LeaveLoops(s, over);
  }
}
