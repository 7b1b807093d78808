/**
  What a concurrent bounded queue is meant to be: an atomic FIFO whose callers enter, take
  effect in one step, and return.  Both queues of the repository refine it; what follows from
  that is stated once here.
 */
module AtomicQueue {
  import opened Prelude
  import opened Transitions

  /** Where a caller is: outside, in push before or after taking effect, or the same in pop. */
  datatype Phase<T> = Outside | Pushing(x: T) | Pushed | Popping | Popped(y: T)

  /** What can be seen of a caller. */
  datatype Act<T> = PushBegins(x: T) | Enqueues(x: T) | PushEnds | PopBegins | Dequeues(y: T) | PopEnds(y: T)

  datatype Mark<T> = Mark(thread: nat, act: Act<T>)

  /** The histories: what was passed to push, enqueued, dequeued, and returned by pop. */
  datatype Fifo<T> = Fifo(
    capacity: nat, items: seq<T>, phases: seq<Phase<T>>,
    accepted: seq<T>, enqueued: seq<T>, dequeued: seq<T>, returned: seq<T>)

  function AtPhase<T>(q: Fifo<T>, i: nat, p: Phase<T>): Fifo<T>
    requires i < |q.phases|
  {
    q.(phases := q.phases[i := p])
  }

  function Take<T(==)>(q: Fifo<T>, m: Mark<T>): Outcome<Fifo<T>> {
    if m.thread >= |q.phases| then Blocked
    else
      var i, p := m.thread, q.phases[m.thread];
      match m.act
      case PushBegins(x) =>
        if p == Outside then Next(AtPhase(q, i, Pushing(x)).(accepted := q.accepted + [x])) else Blocked
      case Enqueues(x) =>
        if p == Pushing(x) && |q.items| < q.capacity then
          Next(AtPhase(q, i, Pushed).(items := q.items + [x], enqueued := q.enqueued + [x]))
        else Blocked
      case PushEnds => if p == Pushed then Next(AtPhase(q, i, Outside)) else Blocked
      case PopBegins => if p == Outside then Next(AtPhase(q, i, Popping)) else Blocked
      case Dequeues(y) =>
        if p == Popping && q.items != [] && y == q.items[0] then
          Next(AtPhase(q, i, Popped(y)).(items := q.items[1..], dequeued := q.dequeued + [y]))
        else Blocked
      case PopEnds(y) =>
        if p == Popped(y) then Next(AtPhase(q, i, Outside).(returned := q.returned + [y])) else Blocked
  }

  ghost predicate Fresh<T(!new)>(q: Fifo<T>) {
    && q.items == [] && q.accepted == [] && q.enqueued == [] && q.dequeued == [] && q.returned == []
    && forall i :: 0 <= i < |q.phases| ==> q.phases[i] == Outside
  }

  /** A trace that the atomic queue can go through, step by step. */
  ghost predicate Possible<T(!new)>(q: Fifo<T>, trace: seq<Mark<T>>) {
    IsEffective(Take, q, trace)
  }

  ghost function Final<T(!new)>(q: Fifo<T>, trace: seq<Mark<T>>): Fifo<T> {
    RunOf(Take, q, trace)
  }

  // ---- every call takes effect once, between its beginning and its end ----

  /** j and k are neighbours among the marks of one thread. */
  ghost predicate Neighbours<T(!new)>(trace: seq<Mark<T>>, j: nat, k: nat) {
    && j < k < |trace| && trace[j].thread == trace[k].thread
    && forall l :: j < l < k ==> trace[l].thread != trace[k].thread
  }

  /** The mark at k is the last one of thread i. */
  ghost predicate IsLast<T(!new)>(trace: seq<Mark<T>>, i: nat, k: nat) {
    k < |trace| && trace[k].thread == i && forall l :: k < l < |trace| ==> trace[l].thread != i
  }

  /** The act that has brought a caller to its phase. */
  ghost predicate LeadsTo<T(!new)>(act: Act<T>, p: Phase<T>) {
    match p
    case Outside => act.PushEnds? || act.PopEnds?
    case Pushing(x) => act == PushBegins(x)
    case Pushed => act.Enqueues?
    case Popping => act.PopBegins?
    case Popped(y) => act == Dequeues(y)
  }

  lemma TakeLeadsToPhase<T(!new)>(q: Fifo<T>, m: Mark<T>, q': Fifo<T>)
    requires Take(q, m) == Next(q')
    ensures m.thread < |q.phases| == |q'.phases| && LeadsTo(m.act, q'.phases[m.thread])
    ensures forall i :: 0 <= i < |q.phases| && i != m.thread ==> q'.phases[i] == q.phases[i]
  {
  }

  lemma {:induction false} PhaseTellsLastMark<T(!new)>(q: Fifo<T>, trace: seq<Mark<T>>, i: nat) returns (k: nat)
    requires Fresh(q) && Possible(q, trace) && i < |q.phases|
    ensures var f := Final(q, trace);
      && |f.phases| == |q.phases|
      && (f.phases[i] != Outside ==> IsLast(trace, i, k) && LeadsTo(trace[k].act, f.phases[i]))
  {
    k := 0;
    if trace != [] {
      var last := |trace| - 1;
      k := PhaseTellsLastMark(q, trace[..last], i);
      TakeLeadsToPhase(Final(q, trace[..last]), trace[last], Final(q, trace));
      hide Take, LeadsTo;
      if trace[last].thread == i {
        k := last;
      }
    }
  }

  /** What may come directly before a mark of the same caller. */
  ghost predicate Precedes<T(!new)>(before: Act<T>, act: Act<T>) {
    match act
    case PushBegins(_) => before.PushEnds? || before.PopEnds?
    case PopBegins => before.PushEnds? || before.PopEnds?
    case Enqueues(x) => before == PushBegins(x)
    case PushEnds => before.Enqueues?
    case Dequeues(_) => before == PopBegins
    case PopEnds(y) => before == Dequeues(y)
  }

  lemma {:induction false} PrefixPossible<T(!new)>(q: Fifo<T>, trace: seq<Mark<T>>, k: nat)
    requires Possible(q, trace) && k < |trace|
    ensures Possible(q, trace[..k]) && Take(Final(q, trace[..k]), trace[k]).Next?
    ensures trace[..k + 1][..k] == trace[..k]
  {
    var last := |trace| - 1;
    if k < last {
      PrefixPossible(q, trace[..last], k);
      assert trace[..last][..k] == trace[..k];
    }
  }

  /** Before each effect and each return, the same caller's mark just before it is the right one. */
  lemma MarkBefore<T(!new)>(q: Fifo<T>, trace: seq<Mark<T>>, k: nat) returns (j: nat)
    requires Fresh(q) && Possible(q, trace) && k < |trace|
    requires !trace[k].act.PushBegins? && !trace[k].act.PopBegins?
    ensures Neighbours(trace, j, k) && Precedes(trace[j].act, trace[k].act)
  {
    PrefixPossible(q, trace, k);
    var i := trace[k].thread;
    var phases := Final(q, trace[..k]).phases;
    assert i < |phases|;
    SamePhases(q, trace[..k]);
    j := PhaseTellsLastMark(q, trace[..k], i);
  }

  lemma {:induction false} SamePhases<T(!new)>(q: Fifo<T>, trace: seq<Mark<T>>)
    ensures |Final(q, trace).phases| == |q.phases|
  {
    if trace != [] {
      SamePhases(q, trace[..|trace| - 1]);
    }
  }

  /** The call that ends at r began at c with the argument it enqueues, or as a pop, and took
      effect at e with that argument or with the value it returns; and at c, e and r alone is
      there a mark of its thread. */
  ghost predicate IsCall<T(!new)>(trace: seq<Mark<T>>, c: nat, e: nat, r: nat) {
    && Neighbours(trace, c, e) && Neighbours(trace, e, r)
    && ((exists x :: trace[c].act == PushBegins(x) && trace[e].act == Enqueues(x) && trace[r].act == PushEnds) ||
        (exists y :: trace[c].act == PopBegins && trace[e].act == Dequeues(y) && trace[r].act == PopEnds(y)))
  }

  /** Every call that returns took effect exactly once, in between; and so before every call that
      begins only after its return. */
  lemma EveryCallTakesEffectOnce<T(!new)>(q: Fifo<T>, trace: seq<Mark<T>>, r: nat) returns (c: nat, e: nat)
    requires Fresh(q) && Possible(q, trace) && r < |trace| && (trace[r].act.PushEnds? || trace[r].act.PopEnds?)
    ensures IsCall(trace, c, e, r)
    ensures forall c', e', r' :: IsCall(trace, c', e', r') && r < c' ==> e < e'
  {
    e := MarkBefore(q, trace, r);
    c := MarkBefore(q, trace, e);
  }

  // ---- the effects, in their order, are those of a sequential FIFO ----

  /** A sequential bounded queue, given only the effects; None if one of them is not its own. */
  function Sequential<T(==)>(capacity: nat, trace: seq<Mark<T>>): Option<seq<T>> {
    if trace == [] then Some([])
    else
      var before := Sequential(capacity, trace[..|trace| - 1]);
      match (before, trace[|trace| - 1].act)
      case (None, _) => None
      case (Some(items), Enqueues(x)) => if |items| < capacity then Some(items + [x]) else None
      case (Some(items), Dequeues(y)) => if items != [] && items[0] == y then Some(items[1..]) else None
      case (Some(items), _) => before
  }

  lemma {:induction false} EffectsAreSequential<T(!new)>(q: Fifo<T>, trace: seq<Mark<T>>)
    requires Fresh(q) && Possible(q, trace)
    ensures var f := Final(q, trace);
      f.capacity == q.capacity && Sequential(q.capacity, trace) == Some(f.items)
  {
    if trace != [] {
      EffectsAreSequential(q, trace[..|trace| - 1]);
    }
  }

  ghost predicate InOrder<T(!new)>(q: Fifo<T>) {
    q.enqueued == q.dequeued + q.items && |q.items| <= q.capacity
  }

  lemma FinalInOrder<T(!new)>(q: Fifo<T>, trace: seq<Mark<T>>)
    requires Fresh(q)
    ensures InOrder(Final(q, trace)) && Final(q, trace).capacity == q.capacity
  {
    forall t: Fifo<T>, m | InOrder(t) && Take(t, m).Next?
      ensures InOrder(Take(t, m).state) && Take(t, m).state.capacity == t.capacity
    {
    }
    RunKeeps(Take, (t: Fifo<T>) => InOrder(t) && t.capacity == q.capacity, q, trace);
  }

  // ---- nothing is lost or made up ----

  function BringsIn<T(==)>(p: Phase<T>, v: T): nat {
    if p == Pushing(v) then 1 else 0
  }

  function TakesOut<T(==)>(p: Phase<T>, v: T): nat {
    if p == Popped(v) then 1 else 0
  }

  ghost function Incoming<T(!new)>(v: T): Phase<T> -> nat {
    (p: Phase<T>) => BringsIn(p, v)
  }

  ghost function Outgoing<T(!new)>(v: T): Phase<T> -> nat {
    (p: Phase<T>) => TakesOut(p, v)
  }

  /** How often v has come in, been enqueued, been dequeued and gone out. */
  ghost predicate Cargo<T(!new)>(q: Fifo<T>, v: T) {
    && Count(q.accepted, v) == Count(q.enqueued, v) + Sum(q.phases, Incoming(v))
    && Count(q.dequeued, v) == Count(q.returned, v) + Sum(q.phases, Outgoing(v))
  }

  lemma Rearranged<T(!new)>(phases: seq<Phase<T>>, i: nat, p: Phase<T>, v: T)
    requires i < |phases|
    ensures Sum(phases[i := p], Incoming(v)) + BringsIn(phases[i], v) == Sum(phases, Incoming(v)) + BringsIn(p, v)
    ensures Sum(phases[i := p], Outgoing(v)) + TakesOut(phases[i], v) == Sum(phases, Outgoing(v)) + TakesOut(p, v)
  {
    SumUpdate(phases, i, p, Incoming(v));
    SumUpdate(phases, i, p, Outgoing(v));
  }

  lemma TakeMoves<T(!new)>(q: Fifo<T>, m: Mark<T>, q': Fifo<T>, v: T)
    requires Take(q, m) == Next(q')
    ensures m.thread < |q.phases| && q'.phases == q.phases[m.thread := q'.phases[m.thread]]
    ensures var p, p' := q.phases[m.thread], q'.phases[m.thread];
      && Count(q'.accepted, v) + Count(q.enqueued, v) + BringsIn(p, v) ==
         Count(q.accepted, v) + Count(q'.enqueued, v) + BringsIn(p', v)
      && Count(q'.dequeued, v) + Count(q.returned, v) + TakesOut(p, v) ==
         Count(q.dequeued, v) + Count(q'.returned, v) + TakesOut(p', v)
  {
    match m.act {
      case PushBegins(x) => CountOneMore(q.accepted, x, v);
      case Enqueues(x) => CountOneMore(q.enqueued, x, v);
      case Dequeues(y) => CountOneMore(q.dequeued, y, v);
      case PopEnds(y) => CountOneMore(q.returned, y, v);
      case _ =>
    }
    hide Count;
  }

  lemma CountOneMore<T(!new)>(s: seq<T>, x: T, v: T)
    ensures Count(s + [x], v) == Count(s, v) + if x == v then 1 else 0
  {
  }

  lemma TakeKeepsCargo<T(!new)>(q: Fifo<T>, m: Mark<T>, v: T)
    requires Cargo(q, v) && Take(q, m).Next?
    ensures Cargo(Take(q, m).state, v)
  {
    var q' := Take(q, m).state;
    TakeMoves(q, m, q', v);
    hide Sum, Incoming, Outgoing, Take, BringsIn, TakesOut;
    Rearranged(q.phases, m.thread, q'.phases[m.thread], v);
  }

  lemma FinalCargo<T(!new)>(q: Fifo<T>, trace: seq<Mark<T>>, v: T)
    requires Fresh(q)
    ensures Cargo(Final(q, trace), v)
  {
    SumZero(q.phases, Incoming(v));
    SumZero(q.phases, Outgoing(v));
    forall t, m | Cargo(t, v) && Take(t, m).Next? ensures Cargo(Take(t, m).state, v) {
      TakeKeepsCargo(t, m, v);
    }
    RunKeeps(Take, (t: Fifo<T>) => Cargo(t, v), q, trace);
  }

  /** Once every caller is outside, what was passed to push is what pop returned and what is
      still in the queue. */
  lemma NothingLost<T(!new)>(q: Fifo<T>, trace: seq<Mark<T>>)
    requires Fresh(q)
    requires forall i :: 0 <= i < |Final(q, trace).phases| ==> Final(q, trace).phases[i] == Outside
    ensures var f := Final(q, trace); multiset(f.accepted) == multiset(f.returned) + multiset(f.items)
  {
    var f := Final(q, trace);
    FinalInOrder(q, trace);
    forall v: T ensures multiset(f.accepted)[v] == (multiset(f.returned) + multiset(f.items))[v] {
      FinalCargo(q, trace, v);
      hide Final;
      SumZero(f.phases, Incoming(v));
      SumZero(f.phases, Outgoing(v));
      assert multiset(f.enqueued)[v] == multiset(f.dequeued)[v] + multiset(f.items)[v];
    }
  }

  // ---- refining the atomic queue ----

  /** The phases of callers given by their program points. */
  function PhasesOf<P, T>(threads: seq<P>, phase: P -> Phase<T>): (phases: seq<Phase<T>>)
    ensures |phases| == |threads| && forall k :: 0 <= k < |threads| ==> phases[k] == phase(threads[k])
  {
    seq(|threads|, k requires 0 <= k < |threads| => phase(threads[k]))
  }

  lemma PhasesMove<P(!new), T(!new)>(threads: seq<P>, phase: P -> Phase<T>, i: nat, pc: P)
    requires i < |threads|
    ensures PhasesOf(threads[i := pc], phase) == PhasesOf(threads, phase)[i := phase(pc)]
    ensures phase(pc) == phase(threads[i]) ==> PhasesOf(threads[i := pc], phase) == PhasesOf(threads, phase)
  {
  }

  /** The marks that a run of some system leaves. */
  ghost function TraceOf<S(!new), M(!new), T(!new)>(
      step: (S, M) -> Outcome<S>, mark: (S, M) -> Option<Mark<T>>, s: S, schedule: seq<M>): seq<Mark<T>> {
    if schedule == [] then []
    else
      var before, m := schedule[..|schedule| - 1], schedule[|schedule| - 1];
      var t := RunOf(step, s, before);
      var trace := TraceOf(step, mark, s, before);
      if step(t, m).Next? && mark(t, m).Some? then trace + [mark(t, m).value] else trace
  }

  /** A step of the system is the step of the atomic queue that its mark names, or invisible. */
  ghost predicate Simulated<T(!new)>(q: Fifo<T>, mark: Option<Mark<T>>, q': Fifo<T>) {
    match mark
    case None => q' == q
    case Some(k) => Take(q, k) == Next(q')
  }

  /** When every step is simulated, the atomic queue can go through the marks of every run, and
      ends up with what the system then stands for. */
  lemma {:induction false} RunIsSimulated<S(!new), M(!new), T(!new)>(
      step: (S, M) -> Outcome<S>, mark: (S, M) -> Option<Mark<T>>, inv: S -> bool, abs: S -> Fifo<T>,
      s: S, schedule: seq<M>)
    requires inv(s)
    requires forall t, m :: inv(t) && step(t, m).Next? ==>
      inv(step(t, m).state) && Simulated(abs(t), mark(t, m), abs(step(t, m).state))
    ensures inv(RunOf(step, s, schedule))
    ensures var trace := TraceOf(step, mark, s, schedule);
      Possible(abs(s), trace) && Final(abs(s), trace) == abs(RunOf(step, s, schedule))
  {
    if schedule != [] {
      var before, m := schedule[..|schedule| - 1], schedule[|schedule| - 1];
      RunIsSimulated(step, mark, inv, abs, s, before);
      var t, trace := RunOf(step, s, before), TraceOf(step, mark, s, before);
      if step(t, m).Next? && mark(t, m).Some? {
        EffectiveOneMore(Take, abs(s), trace, mark(t, m).value);
        RunOneMore(Take, abs(s), trace, mark(t, m).value);
      }
      hide Take;
    }
  }
}
