/**
  Runs of a transition system.  Every protocol here is a function step from a state and a move
  to an Outcome; what holds of runs whatever the protocol is stated once in this module.
 */
module Transitions {
  import opened Prelude

  /** What one instruction of a thread does: it is not allowed to proceed yet, it has
      undefined behaviour (or fails an assert of the program), or it produces a new state. */
  datatype Outcome<+S> = Blocked | Fault | Next(state: S)

  /** One scheduled move; a move that cannot be made is skipped. */
  function After<S, M>(step: (S, M) -> Outcome<S>, s: S, m: M): S {
    match step(s, m)
    case Next(s') => s'
    case _ => s
  }

  /** The state after a whole schedule. */
  function RunOf<S, M>(step: (S, M) -> Outcome<S>, s: S, schedule: seq<M>): S {
    if schedule == [] then s
    else After(step, RunOf(step, s, schedule[..|schedule| - 1]), schedule[|schedule| - 1])
  }

  /** Every move of the schedule is one that can be made. */
  ghost predicate IsEffective<S, M(!new)>(step: (S, M) -> Outcome<S>, s: S, schedule: seq<M>) {
    schedule == [] ||
    (var last := |schedule| - 1;
     && IsEffective(step, s, schedule[..last])
     && step(RunOf(step, s, schedule[..last]), schedule[last]).Next?)
  }

  lemma RunOneMore<S, M>(step: (S, M) -> Outcome<S>, s: S, schedule: seq<M>, m: M)
    ensures RunOf(step, s, schedule + [m]) == After(step, RunOf(step, s, schedule), m)
  {
    assert (schedule + [m])[..|schedule|] == schedule;
  }

  lemma EffectiveOneMore<S, M(!new)>(step: (S, M) -> Outcome<S>, s: S, schedule: seq<M>, m: M)
    requires IsEffective(step, s, schedule) && step(RunOf(step, s, schedule), m).Next?
    ensures IsEffective(step, s, schedule + [m])
  {
    assert (schedule + [m])[..|schedule|] == schedule;
  }

  lemma {:induction false} RunInTwoParts<S, M>(step: (S, M) -> Outcome<S>, s: S, first: seq<M>, second: seq<M>)
    ensures RunOf(step, s, first + second) == RunOf(step, RunOf(step, s, first), second)
  {
    if second == [] {
      assert first + second == first;
    } else {
      var last := |second| - 1;
      assert (first + second)[..|first + second| - 1] == first + second[..last];
      RunInTwoParts(step, s, first, second[..last]);
    }
  }

  /** An invariant of every step is an invariant of every run. */
  lemma {:induction false} RunKeeps<S(!new), M(!new)>(step: (S, M) -> Outcome<S>, inv: S -> bool, s: S, schedule: seq<M>)
    requires inv(s)
    requires forall t, m :: inv(t) && step(t, m).Next? ==> inv(step(t, m).state)
    ensures inv(RunOf(step, s, schedule))
  {
    if schedule != [] {
      var last := |schedule| - 1;
      RunKeeps(step, inv, s, schedule[..last]);
    }
  }

  /** An invariant that relates the state to what the moves made so far contribute. */
  lemma {:induction false} RunGathers<S(!new), M(!new), A(!new)>(
      step: (S, M) -> Outcome<S>, read: M -> seq<A>, inv: (S, seq<A>) -> bool, s: S, schedule: seq<M>)
    requires inv(s, []) && IsEffective(step, s, schedule)
    requires forall t, c, m :: inv(t, c) && step(t, m).Next? ==> inv(step(t, m).state, c + read(m))
    ensures inv(RunOf(step, s, schedule), Gather(schedule, read))
  {
    if schedule != [] {
      var last := |schedule| - 1;
      RunGathers(step, read, inv, s, schedule[..last]);
      assert step(RunOf(step, s, schedule[..last]), schedule[last]).Next?;
    }
  }

  // ---- particular runs ----

  /** The same move made n times in a row. */
  function Repeat<S, M>(step: (S, M) -> Outcome<S>, s: S, m: M, n: nat): S {
    if n == 0 then s else After(step, Repeat(step, s, m, n - 1), m)
  }

  lemma {:induction false} RunAhead<S, M>(step: (S, M) -> Outcome<S>, s: S, schedule: seq<M>, m: M, n: nat)
    returns (longer: seq<M>)
    ensures RunOf(step, s, longer) == Repeat(step, RunOf(step, s, schedule), m, n)
  {
    longer := schedule;
    if n > 0 {
      longer := RunAhead(step, s, schedule, m, n - 1);
      RunOneMore(step, s, longer, m);
      longer := longer + [m];
    }
  }

  /** A run that leads to t goes on to u if t can step to u. */
  lemma Continue<S, M>(step: (S, M) -> Outcome<S>, s: S, schedule: seq<M>, t: S, m: M, u: S)
    returns (longer: seq<M>)
    requires RunOf(step, s, schedule) == t && step(t, m) == Next(u)
    ensures RunOf(step, s, longer) == u
  {
    RunOneMore(step, s, schedule, m);
    longer := schedule + [m];
  }

  // ---- how long a run can be ----

  function TotalCost<M>(cost: M -> nat, schedule: seq<M>): nat {
    if schedule == [] then 0
    else TotalCost(cost, schedule[..|schedule| - 1]) + cost(schedule[|schedule| - 1])
  }

  /** When every move uses up some of a measure, up to what the move itself costs, the length
      of a run is bounded. */
  lemma {:induction false} RunUsesUp<S(!new), M(!new)>(
      step: (S, M) -> Outcome<S>, inv: S -> bool, measure: S -> nat, cost: M -> nat, s: S, schedule: seq<M>)
    requires inv(s) && IsEffective(step, s, schedule)
    requires forall t, m :: inv(t) && step(t, m).Next? ==>
      inv(step(t, m).state) && 1 + measure(step(t, m).state) <= measure(t) + cost(m)
    ensures inv(RunOf(step, s, schedule))
    ensures |schedule| + measure(RunOf(step, s, schedule)) <= measure(s) + TotalCost(cost, schedule)
  {
    if schedule != [] {
      var last := |schedule| - 1;
      RunUsesUp(step, inv, measure, cost, s, schedule[..last]);
      assert step(RunOf(step, s, schedule[..last]), schedule[last]).Next?;
    }
  }
}
