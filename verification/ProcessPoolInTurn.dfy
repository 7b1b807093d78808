/**
  The shutdown that the process pool does not have: closing a slot and waiting for its child
  before the next slot is closed.  Everything else is ProcessPoolProtocol's.
 */
module ProcessPoolInTurn {
  import opened Prelude
  import opened Transitions
  import opened Commands
  import opened ProcessPoolProtocol

  function ParentInTurn(s: State): Outcome<State> {
    match s.parent
    case CloseSlot(k) =>
      if k < |s.slots| then Next(s.(parent := WaitFor(k), fds := s.fds - {s.slots[k].fd}))
      else Next(s.(parent := Finished))
    case WaitFor(k) =>
      if k >= |s.slots| || s.slots[k].pid >= |s.children| then Fault
      else if s.children[s.slots[k].pid].pc.Exited? then Next(s.(parent := CloseSlot(k + 1)))
      else Blocked
    case _ => ParentStep(s)
  }

  function StepInTurn(s: State, m: Move): Outcome<State> {
    if m.ParentGo? then ParentInTurn(s) else Step(s, m)
  }

  function RunInTurn(s: State, schedule: seq<Move>): State {
    RunOf(StepInTurn, s, schedule)
  }

  /** Waiting for the first child, the parent has closed as much as the real one has when it is
      about to close its second slot. */
  function AsReal(s: State): State {
    if s.parent == WaitFor(0) then s.(parent := CloseSlot(1)) else s
  }

  /** The parent has come no further than its first wait. */
  ghost predicate BeforeFirstExit(s: State) {
    && s.n >= 2 && Inv(AsReal(s)) && !s.parent.Finished?
    && (s.parent.CloseSlot? ==> s.parent.k == 0)
    && (s.parent.WaitFor? ==> s.parent.k == 0)
  }

  /** A child does not notice where the parent is. */
  lemma ChildStepAsReal(s: State, j: nat)
    requires j < |s.children|
    ensures var o, r := ChildStep(s, j), ChildStep(AsReal(s), j);
      && (o.Next? <==> r.Next?)
      && (o.Next? ==> o.state.parent == s.parent && o.state.n == s.n && AsReal(o.state) == r.state)
  {
    hide AsInt;
    assert forall p :: HasWriter(AsReal(s), p) == HasWriter(s, p);
  }

  lemma NobodyExits(s: State, j: nat)
    requires BeforeFirstExit(s) && j < |s.children|
    ensures !Leaving(s.children[j])
  {
    if Leaving(s.children[j]) {
      LastChildLeavesFirst(AsReal(s), j);
    }
  }

  lemma FirstWaitLasts(s: State)
    requires BeforeFirstExit(s) && s.parent.WaitFor?
    ensures ParentInTurn(s).Blocked?
  {
    NobodyExits(s, 0);
  }

  lemma StepKeepsFirstWait(s: State, m: Move)
    requires BeforeFirstExit(s) && StepInTurn(s, m).Next?
    ensures BeforeFirstExit(StepInTurn(s, m).state)
  {
    StepKeepsInv(AsReal(s), m);
    if s.parent.WaitFor? && m.ParentGo? {
      FirstWaitLasts(s);
    } else if m.ChildGo? {
      hide Inv;
      ChildStepAsReal(s, m.j);
    } else {
      hide ParentFds, ChildFds, LowestFree, HasReader;
    }
  }

  /** With two children or more, closing and waiting in turn hangs in its first wait, whatever
      the schedule: no child ever sees the end of its pipe, let alone exits. */
  lemma HangsInFirstWait(s: State, schedule: seq<Move>)
    requires Init(s) && s.n >= 2
    ensures var t := RunInTurn(s, schedule);
      && !t.parent.Finished?
      && (t.parent.WaitFor? ==> t.parent == WaitFor(0) && StepInTurn(t, ParentGo).Blocked?)
      && forall j :: 0 <= j < |t.children| ==> !Leaving(t.children[j])
  {
    InitHasInv(s);
    hide Inv, StepInTurn;
    forall t, m | BeforeFirstExit(t) && StepInTurn(t, m).Next? ensures BeforeFirstExit(StepInTurn(t, m).state) {
      StepKeepsFirstWait(t, m);
    }
    RunKeeps(StepInTurn, BeforeFirstExit, s, schedule);
    var t := RunInTurn(s, schedule);
    forall j | 0 <= j < |t.children| ensures !Leaving(t.children[j]) {
      NobodyExits(t, j);
    }
    if t.parent.WaitFor? {
      FirstWaitLasts(t);
    }
  }

  /** The only child of a pool of one, at its different points. */
  ghost function Only(s: State, parent: ParentPC, closed: nat, pc: ChildPC): State {
    var fds := if pc.Exited? then map[] else ChildFds(0, !pc.CloseWrite?);
    s.(parent := parent, fds := ParentFds(closed, 1), slots := [Slot(0, 4)],
       children := [Child(pc, fds, 3, 4, [], 0)], pipes := [[]], sent := [[]])
  }

  /** Between pipe and fork, and after fork. */
  ghost function Forking(s: State): State {
    s.(parent := Fork(3, 4), fds := ChildFds(0, false), pipes := [[]], sent := [[]])
  }

  ghost function Forked(s: State): State {
    Forking(s).(parent := CloseRead(3, 4), children := [Child(CloseWrite, ChildFds(0, false), 3, 4, [], 0)])
  }

  lemma PipeOfOne(s: State)
    requires ParentOk(s) && ChildrenOk(s) && s.parent == Create && s.n == 1
    requires s.slots == [] && s.pipes == [] && s.sent == []
    ensures StepInTurn(s, ParentGo) == Next(Forking(s))
  {
    ParentKeepsTables(s);
    var s' := ParentStep(s).state;
    assert ParentOk(s') && s'.parent.Fork? && s'.slots == [];
    hide LowestFree, ParentFds, ChildFds, ChildrenOk;
    assert s.pipes + [[]] == [[]] && s.sent + [[]] == [[]];
  }

  lemma ForkOfOne(s: State)
    requires Init(s) && s.n == 1
    ensures StepInTurn(Forking(s), ParentGo) == Next(Forked(s))
    ensures StepInTurn(Forked(s), ParentGo) == Next(Only(s, Create, 0, CloseWrite))
  {
    CloseInTables(0, 1);
    hide LowestFree, ParentFds, ChildFds;
    var c := Child(CloseWrite, ChildFds(0, false), 3, 4, [], 0);
    assert s.children + [c] == [c] && s.slots + [Slot(0, 4)] == [Slot(0, 4)];
  }

  /** What the parent does before and after its one wait. */
  lemma ParentOfOne(s: State)
    requires Init(s) && s.n == 1
    ensures StepInTurn(Only(s, Create, 0, CloseWrite), ParentGo) == Next(Only(s, Dispatch, 0, CloseWrite))
    ensures StepInTurn(Only(s, Dispatch, 0, CloseWrite), Shutdown) == Next(Only(s, CloseSlot(0), 0, CloseWrite))
    ensures StepInTurn(Only(s, CloseSlot(0), 0, CloseWrite), ParentGo) == Next(Only(s, WaitFor(0), 1, CloseWrite))
    ensures StepInTurn(Only(s, WaitFor(0), 1, Exited), ParentGo) == Next(Only(s, CloseSlot(1), 1, Exited))
    ensures StepInTurn(Only(s, CloseSlot(1), 1, Exited), ParentGo) == Next(Only(s, Finished, 1, Exited))
  {
    CloseInTables(0, 1);
    hide ParentFds, ChildFds, LowestFree;
  }

  lemma ChildOfOne(s: State)
    ensures StepInTurn(Only(s, WaitFor(0), 1, CloseWrite), ChildGo(0)) == Next(Only(s, WaitFor(0), 1, Read))
    ensures StepInTurn(Only(s, WaitFor(0), 1, Read), ChildGo(0)) == Next(Only(s, WaitFor(0), 1, Quit))
    ensures StepInTurn(Only(s, WaitFor(0), 1, Quit), ChildGo(0)) == Next(Only(s, WaitFor(0), 1, Exited))
  {
    CloseInTables(0, 1);
    ChildEnds(0, true, 0);
    ParentEnds(1, 1, 0);
    assert ChildFds(0, true)[3] == ReadEnd(0);
    hide ParentFds, ChildFds;
    forall a: Child, b: Child ensures [a][0 := b] == [b] {
    }
    assert !HasWriter(Only(s, WaitFor(0), 1, Read), 0);
  }

  lemma FinishesWithOne(s: State) returns (schedule: seq<Move>)
    requires Init(s) && s.n == 1
    ensures RunInTurn(s, schedule).parent.Finished?
  {
    InitHasInv(s);
    PipeOfOne(s);
    ForkOfOne(s);
    ParentOfOne(s);
    ChildOfOne(s);
    hide StepInTurn, ParentFds, ChildFds;
    var created, dispatching := Only(s, Create, 0, CloseWrite), Only(s, Dispatch, 0, CloseWrite);
    var closing, waiting := Only(s, CloseSlot(0), 0, CloseWrite), Only(s, WaitFor(0), 1, CloseWrite);
    var reading, quitting := Only(s, WaitFor(0), 1, Read), Only(s, WaitFor(0), 1, Quit);
    var exited, closed := Only(s, WaitFor(0), 1, Exited), Only(s, CloseSlot(1), 1, Exited);
    var over := Only(s, Finished, 1, Exited);
    assert over.parent.Finished?;
    hide Only, Forking, Forked;
    schedule := Continue(StepInTurn, s, [], s, ParentGo, Forking(s));
    schedule := Continue(StepInTurn, s, schedule, Forking(s), ParentGo, Forked(s));
    schedule := Continue(StepInTurn, s, schedule, Forked(s), ParentGo, created);
    schedule := Continue(StepInTurn, s, schedule, created, ParentGo, dispatching);
    schedule := Continue(StepInTurn, s, schedule, dispatching, Shutdown, closing);
    schedule := Continue(StepInTurn, s, schedule, closing, ParentGo, waiting);
    schedule := Continue(StepInTurn, s, schedule, waiting, ChildGo(0), reading);
    schedule := Continue(StepInTurn, s, schedule, reading, ChildGo(0), quitting);
    schedule := Continue(StepInTurn, s, schedule, quitting, ChildGo(0), exited);
    schedule := Continue(StepInTurn, s, schedule, exited, ParentGo, closed);
    schedule := Continue(StepInTurn, s, schedule, closed, ParentGo, over);
  }

  /** It is only because all slots are closed before the first wait that the pool of the program
      can be shut down: in turn, that works if and only if there is at most one child. */
  lemma InTurnFinishesExactlyWithoutSecondChild(s: State)
    requires Init(s)
    ensures (exists schedule: seq<Move> :: RunInTurn(s, schedule).parent.Finished?) <==> s.n <= 1
  {
    if s.n == 0 {
      var t := s.(parent := Dispatch);
      var schedule := Continue(StepInTurn, s, [], s, ParentGo, t);
      schedule := Continue(StepInTurn, s, schedule, t, Shutdown, t.(parent := CloseSlot(0)));
      schedule := Continue(StepInTurn, s, schedule, t.(parent := CloseSlot(0)), ParentGo, t.(parent := Finished));
      assert RunInTurn(s, schedule).parent.Finished?;
    } else if s.n == 1 {
      var schedule := FinishesWithOne(s);
    } else {
      forall schedule: seq<Move> ensures !RunInTurn(s, schedule).parent.Finished? {
        HangsInFirstWait(s, schedule);
      }
    }
  }
}
