/**
  The process pool as a transition system: a parent that creates n pipes and forks n children,
  dispatches commands, closes all write ends and then waits; children that read commands until
  end of file.  fork copies the parent's descriptor table, so a child also inherits the write
  ends of all earlier pipes.
 */
module ProcessPoolProtocol {
  import opened Prelude
  import opened Transitions
  import opened Commands

  datatype End = Std | ReadEnd(pipe: nat) | WriteEnd(pipe: nat)

  type Fds = map<nat, End>

  datatype ChildPC =
    | CloseWrite               // before close(pipefd[1])
    | Read                     // at read() in __waitCommand
    | Handle(command: nat)
    | Quit                     // saw end of file, before exit
    | Exited

  datatype Child = Child(pc: ChildPC, fds: Fds, rfd: nat, wfd: nat, executed: seq<nat>, rejected: nat)

  datatype ParentPC =
    | Create                   // top of the creation loop
    | Fork(rfd: nat, wfd: nat)
    | CloseRead(rfd: nat, wfd: nat)
    | Dispatch
    | CloseSlot(k: nat)        // in the loop over the slots that closes
    | WaitFor(k: nat)          // in the loop over the slots that waits
    | Finished

  datatype Slot = Slot(pid: nat, fd: nat)

  /** A process is named by its position among the children, a pipe by its position among the
      pipes.  sent lists the commands dispatched to each slot so far. */
  datatype State = State(
    n: nat, handlers: nat, room: nat,
    parent: ParentPC, fds: Fds, slots: seq<Slot>,
    children: seq<Child>, pipes: seq<seq<byte>>, sent: seq<seq<nat>>)

  datatype Move = ParentGo | Send(choice: nat, command: nat) | Shutdown | ChildGo(j: nat)

  const STD: Fds := map[0 := Std, 1 := Std, 2 := Std]

  ghost predicate Init(s: State) {
    && s.handlers < 0x8000_0000
    && s.parent == Create && s.fds == STD
    && s.slots == [] && s.children == [] && s.pipes == [] && s.sent == []
  }

  // ---- descriptors ----

  /** The lowest descriptor from k on that is not in use; there is one among the first |fds| + 1. */
  function LowestFrom(fds: Fds, k: nat): nat
    decreases |fds| - k
  {
    if k >= |fds| || k !in fds then k else LowestFrom(fds, k + 1)
  }

  function LowestFree(fds: Fds): nat {
    LowestFrom(fds, 0)
  }

  ghost predicate IsLowestFree(fds: Fds, fd: nat) {
    fd !in fds && forall q: nat :: q < fd ==> q in fds
  }

  ghost function Below(k: nat): (r: set<nat>)
    ensures forall q: nat :: q in r <==> q < k
  {
    if k == 0 then {} else Below(k - 1) + {k - 1}
  }

  lemma {:induction false} BelowSize(k: nat)
    ensures |Below(k)| == k
  {
    if k > 0 {
      BelowSize(k - 1);
    }
  }

  lemma {:induction false} LowestFromIsFree(fds: Fds, k: nat)
    requires Below(k) <= fds.Keys
    ensures IsLowestFree(fds, LowestFrom(fds, k))
    decreases |fds| - k
  {
    hide Below;
    BelowSize(k);
    if k in fds {
      assert Below(k + 1) == Below(k) + {k};
      BelowSize(k + 1);
      SubsetSize(Below(k + 1), fds.Keys);
      LowestFromIsFree(fds, k + 1);
    } else {
      assert forall q: nat :: q < k ==> q in Below(k);
    }
  }

  lemma {:induction false} SubsetSize(a: set<nat>, b: set<nat>)
    requires a <= b
    ensures |a| <= |b|
  {
    assert b == a + (b - a);
  }

  lemma LowestFreeIs(fds: Fds, fd: nat)
    requires IsLowestFree(fds, fd)
    ensures LowestFree(fds) == fd
  {
    LowestFromIsFree(fds, 0);
  }

  function HasWriter(s: State, p: nat): bool {
    WriteEnd(p) in s.fds.Values ||
    exists c :: 0 <= c < |s.children| && WriteEnd(p) in s.children[c].fds.Values
  }

  function HasReader(s: State, p: nat): bool {
    ReadEnd(p) in s.fds.Values ||
    exists c :: 0 <= c < |s.children| && ReadEnd(p) in s.children[c].fds.Values
  }

  // ---- the steps ----

  function ParentStep(s: State): Outcome<State> {
    match s.parent
    case Create =>
      if |s.slots| < s.n then
        var r := LowestFree(s.fds);
        var fds := s.fds[r := ReadEnd(|s.pipes|)];
        var w := LowestFree(fds);
        Next(s.(parent := Fork(r, w), fds := fds[w := WriteEnd(|s.pipes|)],
                pipes := s.pipes + [[]], sent := s.sent + [[]]))
      else Next(s.(parent := Dispatch))
    case Fork(r, w) =>
      Next(s.(parent := CloseRead(r, w), children := s.children + [Child(CloseWrite, s.fds, r, w, [], 0)]))
    case CloseRead(r, w) =>
      if s.children == [] then Fault
      else Next(s.(parent := Create, fds := s.fds - {r}, slots := s.slots + [Slot(|s.children| - 1, w)]))
    case Dispatch => Blocked
    case CloseSlot(k) =>
      if k < |s.slots| then Next(s.(parent := CloseSlot(k + 1), fds := s.fds - {s.slots[k].fd}))
      else Next(s.(parent := WaitFor(0)))
    case WaitFor(k) =>
      if k >= |s.slots| then Next(s.(parent := Finished))
      else if s.slots[k].pid >= |s.children| then Fault
      else if s.children[s.slots[k].pid].pc.Exited? then Next(s.(parent := WaitFor(k + 1)))
      else Blocked
    case Finished => Blocked
  }

  /** __sendAndWakeUp: writing to a pipe that nobody reads would kill the parent. */
  function SendStep(s: State, choice: nat, command: nat): Outcome<State> {
    if s.parent != Dispatch || choice >= |s.slots| || command >= s.handlers || command >= WORD then Blocked
    else
      var fd := s.slots[choice].fd;
      if fd !in s.fds || !s.fds[fd].WriteEnd? || s.fds[fd].pipe >= |s.pipes| || choice >= |s.sent| then Fault
      else
        var p := s.fds[fd].pipe;
        if !HasReader(s, p) then Fault
        else if |s.pipes[p]| + 4 > s.room then Blocked
        else Next(s.(pipes := s.pipes[p := s.pipes[p] + Encode(command)],
                     sent := s.sent[choice := s.sent[choice] + [command]]))
  }

  function SetChild(s: State, j: nat, c: Child): State
    requires j < |s.children|
  {
    s.(children := s.children[j := c])
  }

  /** __waitCommand: four bytes, or end of file once the pipe is empty and has no writer. */
  function ReadStep(s: State, j: nat): Outcome<State>
    requires j < |s.children|
  {
    var c := s.children[j];
    if c.rfd !in c.fds || !c.fds[c.rfd].ReadEnd? || c.fds[c.rfd].pipe >= |s.pipes| then Fault
    else
      var p := c.fds[c.rfd].pipe;
      if |s.pipes[p]| >= 4 then
        Next(SetChild(s, j, c.(pc := Handle(Decode(s.pipes[p][..4])))).(pipes := s.pipes[p := s.pipes[p][4..]]))
      else if |s.pipes[p]| > 0 then Fault        // fewer than four bytes: the assert fails
      else if HasWriter(s, p) then Blocked
      else Next(SetChild(s, j, c.(pc := Quit)))
  }

  function ChildStep(s: State, j: nat): Outcome<State>
    requires j < |s.children|
  {
    var c := s.children[j];
    match c.pc
    case CloseWrite => Next(SetChild(s, j, c.(pc := Read, fds := c.fds - {c.wfd})))
    case Read => ReadStep(s, j)
    case Handle(command) =>
      if command < WORD && 0 <= AsInt(command) < s.handlers then
        Next(SetChild(s, j, c.(pc := Read, executed := c.executed + [command])))
      else Next(SetChild(s, j, c.(pc := Read, rejected := c.rejected + 1)))
    case Quit => Next(SetChild(s, j, c.(pc := Exited, fds := map[])))
    case Exited => Blocked
  }

  function Step(s: State, m: Move): Outcome<State> {
    match m
    case ParentGo => ParentStep(s)
    case Send(choice, command) => SendStep(s, choice, command)
    case Shutdown => if s.parent == Dispatch then Next(s.(parent := CloseSlot(0))) else Blocked
    case ChildGo(j) => if j < |s.children| then ChildStep(s, j) else Blocked
  }

  function Run(s: State, schedule: seq<Move>): State {
    RunOf(Step, s, schedule)
  }

  // ---- the invariant ----

  /** The parent's table with k slots, the first c of them closed. */
  ghost function ParentFds(c: nat, k: nat): Fds {
    var range := Below(4 + k);
    map fd | fd in range && (fd < 3 || fd >= 4 + c) :: if fd < 3 then Std else WriteEnd(fd - 4)
  }

  /** Child j's table: its own read end and every write end the parent had at the fork. */
  ghost function ChildFds(j: nat, closedOwn: bool): Fds {
    var range := Below(5 + j);
    map fd | fd in range && !(closedOwn && fd == 4 + j) ::
      if fd < 3 then Std else if fd == 3 then ReadEnd(j) else WriteEnd(fd - 4)
  }

  /** How many slots the parent has closed. */
  function ClosedSlots(s: State): nat {
    match s.parent
    case CloseSlot(k) => k
    case WaitFor(_) => s.n
    case Finished => s.n
    case _ => 0
  }

  ghost predicate ParentOk(s: State) {
    && s.handlers < 0x8000_0000
    && |s.slots| <= s.n && |s.sent| == |s.pipes|
    && (forall j :: 0 <= j < |s.slots| ==> s.slots[j] == Slot(j, 4 + j))
    && match s.parent
       case Create => |s.children| == |s.pipes| == |s.slots| && s.fds == ParentFds(0, |s.slots|)
       case Fork(r, w) =>
         r == 3 && w == 4 + |s.slots| && |s.children| == |s.slots| < s.n && |s.pipes| == |s.slots| + 1 &&
         s.fds == ChildFds(|s.slots|, false)
       case CloseRead(r, w) =>
         r == 3 && w == 4 + |s.slots| && |s.slots| < s.n && |s.children| == |s.pipes| == |s.slots| + 1 &&
         s.fds == ChildFds(|s.slots|, false)
       case CloseSlot(k) =>
         k <= s.n == |s.slots| == |s.children| == |s.pipes| && s.fds == ParentFds(k, s.n)
       case WaitFor(k) =>
         k <= s.n == |s.slots| == |s.children| == |s.pipes| && s.fds == ParentFds(s.n, s.n)
       case _ =>
         s.n == |s.slots| == |s.children| == |s.pipes| && s.fds == ParentFds(ClosedSlots(s), s.n)
  }

  ghost predicate ChildOk(c: Child, j: nat) {
    && c.rfd == 3 && c.wfd == 4 + j && c.rejected == 0
    && c.fds == (if c.pc.Exited? then map[] else ChildFds(j, !c.pc.CloseWrite?))
  }

  ghost predicate ChildrenOk(s: State) {
    forall j :: 0 <= j < |s.children| ==> ChildOk(s.children[j], j)
  }

  /** What a child has read so far. */
  function Taken(c: Child): seq<nat> {
    c.executed + if c.pc.Handle? then [c.pc.command] else []
  }

  /** Commands are executed in the order sent, and what is still in the pipe is the rest. */
  ghost predicate TrafficOf(s: State, j: nat)
    requires j < |s.pipes| == |s.sent|
  {
    var taken := if j < |s.children| then Taken(s.children[j]) else [];
    && (forall k :: 0 <= k < |s.sent[j]| ==> s.sent[j][k] < s.handlers && s.sent[j][k] < WORD)
    && taken <= s.sent[j]
    && s.pipes[j] == EncodeAll(s.sent[j][|taken|..])
  }

  ghost predicate Traffic(s: State)
    requires |s.pipes| == |s.sent|
  {
    forall j :: 0 <= j < |s.pipes| ==> TrafficOf(s, j)
  }

  /** Nobody leaves before the parent has closed its pipe and all later children have exited. */
  ghost predicate Cascade(s: State)
    requires |s.children| <= |s.pipes|
  {
    && (forall j :: 0 <= j < |s.children| && (s.children[j].pc.Quit? || s.children[j].pc.Exited?) ==>
          && s.pipes[j] == [] && ClosedSlots(s) > j
          && forall k :: j < k < |s.children| ==> s.children[k].pc.Exited?)
    && (s.parent.WaitFor? ==> forall j :: 0 <= j < s.parent.k && j < |s.children| ==> s.children[j].pc.Exited?)
    && (s.parent.Finished? ==> forall j :: 0 <= j < |s.children| ==> s.children[j].pc.Exited?)
  }

  ghost predicate Inv(s: State) {
    ParentOk(s) && ChildrenOk(s) && Traffic(s) && Cascade(s)
  }

  // ---- what the descriptor tables look like ----

  lemma OpenPipe(k: nat)
    ensures LowestFree(ParentFds(0, k)) == 3
    ensures LowestFree(ParentFds(0, k)[3 := ReadEnd(k)]) == 4 + k
    ensures ParentFds(0, k)[3 := ReadEnd(k)][4 + k := WriteEnd(k)] == ChildFds(k, false)
  {
    LowestFreeIs(ParentFds(0, k), 3);
    LowestFreeIs(ParentFds(0, k)[3 := ReadEnd(k)], 4 + k);
  }

  lemma CloseInTables(j: nat, k: nat)
    ensures ParentFds(0, 0) == STD
    ensures ChildFds(j, false) - {3} == ParentFds(0, j + 1)
    ensures ChildFds(j, false) - {4 + j} == ChildFds(j, true)
    ensures j < k ==> ParentFds(j, k) - {4 + j} == ParentFds(j + 1, k)
  {
  }

  lemma ParentEnds(c: nat, k: nat, p: nat)
    ensures WriteEnd(p) in ParentFds(c, k).Values <==> c <= p < k
    ensures ReadEnd(p) !in ParentFds(c, k).Values
  {
    if c <= p < k {
      assert ParentFds(c, k)[4 + p] == WriteEnd(p);
    }
  }

  lemma ChildEnds(j: nat, closedOwn: bool, p: nat)
    ensures WriteEnd(p) in ChildFds(j, closedOwn).Values <==> p < j || (p == j && !closedOwn)
    ensures ReadEnd(p) in ChildFds(j, closedOwn).Values <==> p == j
  {
    if p < j || (p == j && !closedOwn) {
      assert ChildFds(j, closedOwn)[4 + p] == WriteEnd(p);
    }
    if p == j {
      assert ChildFds(j, closedOwn)[3] == ReadEnd(p);
    }
  }

  /** Who holds which end of pipe p. */
  lemma Holders(s: State, p: nat)
    requires ParentOk(s) && ChildrenOk(s)
    ensures WriteEnd(p) in s.fds.Values <==> ClosedSlots(s) <= p < |s.pipes|
    ensures ReadEnd(p) in s.fds.Values <==> (s.parent.Fork? || s.parent.CloseRead?) && p == |s.slots|
    ensures forall c :: 0 <= c < |s.children| ==>
      (WriteEnd(p) in s.children[c].fds.Values <==>
         !s.children[c].pc.Exited? && (p < c || (p == c && s.children[c].pc.CloseWrite?)))
    ensures forall c :: 0 <= c < |s.children| ==>
      (ReadEnd(p) in s.children[c].fds.Values <==> !s.children[c].pc.Exited? && p == c)
  {
    ParentEnds(ClosedSlots(s), |s.slots|, p);
    ChildEnds(|s.slots|, false, p);
    forall c | 0 <= c < |s.children|
      ensures WriteEnd(p) in s.children[c].fds.Values <==>
         !s.children[c].pc.Exited? && (p < c || (p == c && s.children[c].pc.CloseWrite?))
      ensures ReadEnd(p) in s.children[c].fds.Values <==> !s.children[c].pc.Exited? && p == c
    {
      assert ChildOk(s.children[c], c);
      ChildEnds(c, !s.children[c].pc.CloseWrite?, p);
    }
  }

  // ---- the invariant is inductive ----

  lemma ParentKeepsTables(s: State)
    requires ParentOk(s) && ChildrenOk(s)
    ensures ParentStep(s).Next? ==> ParentOk(ParentStep(s).state) && ChildrenOk(ParentStep(s).state)
    ensures !ParentStep(s).Fault?
  {
    hide Below, ParentFds, ChildFds, LowestFree;
    var k := |s.slots|;
    OpenPipe(k);
    CloseInTables(k, s.n);
    if s.parent.CloseSlot? {
      CloseInTables(s.parent.k, s.n);
    }
    CloseInTables(0, s.n);
  }

  /** One slot's traffic depends on its pipe, its history and its child alone. */
  lemma SameTraffic(s: State, s': State, j: nat)
    requires j < |s.pipes| == |s.sent| && j < |s'.pipes| == |s'.sent| && s'.handlers == s.handlers
    requires TrafficOf(s, j) && s'.pipes[j] == s.pipes[j] && s'.sent[j] == s.sent[j]
    requires j < |s.children| ==> j < |s'.children| && Taken(s'.children[j]) == Taken(s.children[j])
    requires |s.children| <= j < |s'.children| ==> Taken(s'.children[j]) == []
    ensures TrafficOf(s', j)
  {
  }

  lemma ParentKeepsTraffic(s: State, s': State)
    requires ParentOk(s) && Traffic(s) && ParentStep(s) == Next(s') && ParentOk(s')
    ensures Traffic(s')
  {
    hide Below, ParentFds, ChildFds, LowestFree, EncodeAll;
    forall j | 0 <= j < |s'.pipes| ensures TrafficOf(s', j) {
      if j < |s.pipes| {
        hide TrafficOf;
        SameTraffic(s, s', j);
      } else {
        assert s'.sent[j] == [] && s'.pipes[j] == EncodeAll([]);
      }
    }
  }

  lemma ParentKeepsCascade(s: State, s': State)
    requires ParentOk(s) && Cascade(s) && ParentStep(s) == Next(s') && ParentOk(s')
    ensures Cascade(s')
  {
    hide Below, ParentFds, ChildFds, LowestFree;
    if s.parent.Create? || s.parent.Fork? || s.parent.CloseRead? {
      assert forall j :: 0 <= j < |s.children| ==> !s.children[j].pc.Quit? && !s.children[j].pc.Exited?;
    }
  }

  /** A dispatched command goes to the pipe of its slot, and somebody is there to read it. */
  lemma SendReaches(s: State, choice: nat)
    requires Inv(s) && s.parent == Dispatch && choice < |s.slots|
    ensures 4 + choice in s.fds && s.fds[4 + choice] == WriteEnd(choice) && s.slots[choice].fd == 4 + choice
    ensures HasReader(s, choice)
  {
    Holders(s, choice);
    assert ReadEnd(choice) in s.children[choice].fds.Values;
  }

  lemma SendKeepsInv(s: State, choice: nat, command: nat)
    requires Inv(s)
    ensures !SendStep(s, choice, command).Fault?
    ensures SendStep(s, choice, command).Next? ==> Inv(SendStep(s, choice, command).state)
  {
    if s.parent == Dispatch && choice < |s.slots| && command < s.handlers && command < WORD {
      SendReaches(s, choice);
      hide Below, ParentFds, ChildFds, HasReader;
      if SendStep(s, choice, command).Next? {
        SendKeepsTraffic(s, choice, command, SendStep(s, choice, command).state);
      }
    }
  }

  lemma SendKeepsTraffic(s: State, choice: nat, command: nat, s': State)
    requires |s.pipes| == |s.sent| && Traffic(s) && choice < |s.pipes|
    requires command < s.handlers && command < WORD
    requires s' == s.(pipes := s.pipes[choice := s.pipes[choice] + Encode(command)],
                      sent := s.sent[choice := s.sent[choice] + [command]])
    ensures Traffic(s')
  {
    hide EncodeAll, Encode;
    forall j | 0 <= j < |s'.pipes| ensures TrafficOf(s', j) {
      assert TrafficOf(s, j);
      if j == choice {
        var taken := if j < |s.children| then Taken(s.children[j]) else [];
        var left := s.sent[j][|taken|..];
        EncodeAllAppend(left, command);
        assert s'.sent[j][|taken|..] == left + [command];
      }
    }
  }

  lemma OtherChildrenKeepTraffic(s: State, j: nat, c: Child, s': State)
    requires |s.pipes| == |s.sent| && Traffic(s) && j < |s.children| <= |s.pipes|
    requires s' == SetChild(s, j, c).(pipes := s'.pipes) && |s'.pipes| == |s.pipes|
    requires forall p :: 0 <= p < |s.pipes| && p != j ==> s'.pipes[p] == s.pipes[p]
    requires TrafficOf(s', j)
    ensures Traffic(s')
  {
    hide EncodeAll, Taken;
    forall p | 0 <= p < |s'.pipes| ensures TrafficOf(s', p) {
      if p != j {
        assert TrafficOf(s, p);
        SameTraffic(s, s', p);
      }
    }
  }

  /** A child's step may change that child and its own pipe. */
  lemma ChildMoves(s: State, j: nat, c: Child, s': State)
    requires Inv(s) && j < |s.children| && !s.children[j].pc.Exited?
    requires s' == SetChild(s, j, c).(pipes := s'.pipes) && |s'.pipes| == |s.pipes|
    requires forall p :: 0 <= p < |s.pipes| && p != j ==> s'.pipes[p] == s.pipes[p]
    requires ChildOk(c, j) && TrafficOf(s', j)
    requires c.pc.Quit? || c.pc.Exited? ==>
      s'.pipes[j] == [] && ClosedSlots(s) > j && forall k :: j < k < |s.children| ==> s.children[k].pc.Exited?
    ensures Inv(s')
  {
    OtherChildrenKeepTraffic(s, j, c, s');
    hide Below, ParentFds, ChildFds, EncodeAll, TrafficOf;
  }

  /** A command that was read is one of those sent, so it passes the child's test. */
  lemma CommandIsValid(s: State, j: nat)
    requires Inv(s) && j < |s.children| && s.children[j].pc.Handle?
    ensures var command := s.children[j].pc.command; command < WORD && 0 <= AsInt(command) < s.handlers
  {
    var c := s.children[j];
    assert TrafficOf(s, j);
    assert s.sent[j][|c.executed|] == Taken(c)[|c.executed|] == c.pc.command;
  }

  /** The steps of a child that touch no pipe. */
  lemma ChildKeepsInv(s: State, j: nat)
    requires Inv(s) && j < |s.children| && !s.children[j].pc.Read?
    ensures !ChildStep(s, j).Fault?
    ensures ChildStep(s, j).Next? ==> Inv(ChildStep(s, j).state)
  {
    var c := s.children[j];
    assert ChildOk(c, j) && TrafficOf(s, j);
    if ChildStep(s, j).Next? {
      var s' := ChildStep(s, j).state;
      CloseInTables(j, 0);
      hide Below, ParentFds, ChildFds, EncodeAll, Inv;
      if c.pc.Handle? {
        CommandIsValid(s, j);
        hide AsInt;
        assert Taken(s'.children[j]) == Taken(c);
      }
      SameTraffic(s, s', j);
      assert ChildOk(s'.children[j], j);
      ChildMoves(s, j, s'.children[j], s');
    }
  }

  /** End of file comes only after the parent closed the pipe and every later child exited. */
  lemma EndOfFile(s: State, j: nat)
    requires Inv(s) && j < |s.children| && s.children[j].pc.Read? && !HasWriter(s, j)
    ensures ClosedSlots(s) > j
    ensures forall k :: j < k < |s.children| ==> s.children[k].pc.Exited?
  {
    Holders(s, j);
  }

  lemma ReadsOwnPipe(s: State, j: nat)
    requires Inv(s) && j < |s.children| && s.children[j].pc.Read?
    ensures var c := s.children[j]; c.rfd in c.fds && c.fds[c.rfd] == ReadEnd(j) && j < |s.pipes|
    ensures |s.pipes[j]| % 4 == 0
  {
    assert ChildOk(s.children[j], j);
    assert TrafficOf(s, j);
  }

  lemma ReadKeepsInv(s: State, j: nat)
    requires Inv(s) && j < |s.children| && s.children[j].pc.Read?
    ensures !ReadStep(s, j).Fault?
    ensures ReadStep(s, j).Next? ==> Inv(ReadStep(s, j).state)
  {
    ReadsOwnPipe(s, j);
    if !HasWriter(s, j) {
      EndOfFile(s, j);
    }
    assert ChildOk(s.children[j], j) && TrafficOf(s, j);
    if ReadStep(s, j).Next? {
      hide Below, ParentFds, ChildFds, HasWriter, Inv;
      var s' := ReadStep(s, j).state;
      ReadKeepsTraffic(s, j, s');
      assert ChildOk(s'.children[j], j);
      ChildMoves(s, j, s'.children[j], s');
    }
  }

  lemma ReadKeepsTraffic(s: State, j: nat, s': State)
    requires |s.pipes| == |s.sent| && j < |s.children| <= |s.pipes| && TrafficOf(s, j)
    requires s.children[j].pc.Read? && ReadStep(s, j) == Next(s')
    requires var c := s.children[j]; c.rfd in c.fds && c.fds[c.rfd] == ReadEnd(j)
    ensures TrafficOf(s', j)
  {
    var taken := Taken(s.children[j]);
    var left := s.sent[j][|taken|..];
    if |s.pipes[j]| >= 4 {
      TakeFront(left);
      assert s'.sent[j][|taken| + 1..] == left[1..];
      assert Taken(s'.children[j]) == taken + [left[0]];
    } else {
      assert Taken(s'.children[j]) == taken;
    }
  }

  lemma StepKeepsInv(s: State, m: Move)
    requires Inv(s)
    ensures !Step(s, m).Fault?
    ensures Step(s, m).Next? ==> Inv(Step(s, m).state)
  {
    match m {
      case ParentGo =>
        ParentKeepsTables(s);
        if ParentStep(s).Next? {
          ParentKeepsTraffic(s, ParentStep(s).state);
          ParentKeepsCascade(s, ParentStep(s).state);
        }
      case Send(choice, command) =>
        SendKeepsInv(s, choice, command);
      case Shutdown =>
        ShutdownKeepsInv(s);
      case ChildGo(j) =>
        if j < |s.children| {
          if s.children[j].pc.Read? {
            ReadKeepsInv(s, j);
          } else {
            ChildKeepsInv(s, j);
          }
        }
    }
  }

  lemma ShutdownKeepsInv(s: State)
    requires Inv(s)
    ensures s.parent == Dispatch ==> Inv(s.(parent := CloseSlot(0)))
  {
    hide Below, ParentFds, ChildFds, EncodeAll;
    if s.parent == Dispatch {
      var s' := s.(parent := CloseSlot(0));
      forall j | 0 <= j < |s.pipes| ensures TrafficOf(s', j) {
        assert TrafficOf(s, j);
      }
    }
  }

  lemma RunKeepsInv(s: State, schedule: seq<Move>)
    requires Inv(s)
    ensures Inv(Run(s, schedule))
  {
    hide Inv, Step;
    forall t, m | Inv(t) && Step(t, m).Next? ensures Inv(Step(t, m).state) {
      StepKeepsInv(t, m);
    }
    RunKeeps(Step, Inv, s, schedule);
  }

  lemma InitHasInv(s: State)
    requires Init(s)
    ensures Inv(s)
  {
    CloseInTables(0, 0);
  }

  // ---- the theorems, about every schedule and every number of children ----

  /** No descriptor is misused, no read returns part of a command, no write meets a pipe
      without a reader. */
  lemma NoRunFaults(s: State, schedule: seq<Move>, m: Move)
    requires Init(s)
    ensures !Step(Run(s, schedule), m).Fault?
  {
    InitHasInv(s);
    RunKeepsInv(s, schedule);
    StepKeepsInv(Run(s, schedule), m);
  }

  /** Who holds the ends of pipe p at any moment: the write end the parent until it closes the
      slot, every later child until it exits, and child p itself until its own close; the read
      end child p, and the parent only until the slot is complete. Slot j has descriptor 4 + j. */
  lemma DescriptorInheritance(s: State, schedule: seq<Move>, p: nat, c: nat)
    requires Init(s) && p < |Run(s, schedule).pipes| && c < |Run(s, schedule).children|
    ensures var t := Run(s, schedule);
      && (WriteEnd(p) in t.fds.Values <==> ClosedSlots(t) <= p)
      && (WriteEnd(p) in t.children[c].fds.Values <==>
            !t.children[c].pc.Exited? && (p < c || (p == c && t.children[c].pc.CloseWrite?)))
      && (ReadEnd(p) in t.fds.Values <==> p == |t.slots|)
      && (ReadEnd(p) in t.children[c].fds.Values <==> !t.children[c].pc.Exited? && p == c)
      && (forall j :: 0 <= j < |t.slots| ==> t.slots[j] == Slot(j, 4 + j))
  {
    InitHasInv(s);
    RunKeepsInv(s, schedule);
    Holders(Run(s, schedule), p);
  }

  predicate Leaving(c: Child) {
    c.pc.Quit? || c.pc.Exited?
  }

  /** Children leave in the reverse order of their creation, and none of them before the parent
      has closed every slot. */
  lemma ReverseCascade(s: State, schedule: seq<Move>, j: nat)
    requires Init(s) && j < |Run(s, schedule).children| && Leaving(Run(s, schedule).children[j])
    ensures var t := Run(s, schedule);
      && ClosedSlots(t) == t.n == |t.children|
      && forall k :: j < k < t.n ==> t.children[k].pc.Exited?
  {
    InitHasInv(s);
    RunKeepsInv(s, schedule);
    LastChildLeavesFirst(Run(s, schedule), j);
  }

  lemma LastChildLeavesFirst(s: State, j: nat)
    requires ParentOk(s) && Cascade(s) && j < |s.children| && Leaving(s.children[j])
    ensures ClosedSlots(s) == s.n == |s.children|
    ensures forall k :: j < k < s.n ==> s.children[k].pc.Exited?
  {
    hide ParentFds, ChildFds, Below;
    assert Leaving(s.children[s.n - 1]);
  }

  /** The command that a move sends to slot j. */
  function CommandTo(j: nat): Move -> seq<nat> {
    (m: Move) => if m.Send? && m.choice == j then [m.command] else []
  }

  /** The history of slot j is what the moves so far have sent to it. */
  ghost predicate Recorded(s: State, j: nat, commands: seq<nat>) {
    Inv(s) && commands == if j < |s.sent| then s.sent[j] else []
  }

  lemma StepKeepsRecorded(s: State, j: nat, commands: seq<nat>, m: Move, s': State)
    requires Recorded(s, j, commands) && Step(s, m) == Next(s')
    ensures Recorded(s', j, commands + CommandTo(j)(m))
  {
    StepKeepsInv(s, m);
    SentGrows(s, m, s');
    assert |s.slots| <= |s.sent|;
    hide Inv, Step;
  }

  lemma SentGrows(s: State, m: Move, s': State)
    requires Step(s, m) == Next(s')
    ensures match m
      case Send(choice, command) =>
        choice < |s.slots| && choice < |s.sent| && s'.sent == s.sent[choice := s.sent[choice] + [command]]
      case _ => s'.sent == s.sent || s'.sent == s.sent + [[]]
  {
    hide HasWriter, HasReader, LowestFree, AsInt;
  }

  /** What a slot was sent is what the dispatcher chose it for, command by command. */
  lemma SlotGetsItsCommands(s: State, schedule: seq<Move>, j: nat)
    requires Init(s) && IsEffective(Step, s, schedule) && j < |Run(s, schedule).sent|
    ensures Run(s, schedule).sent[j] == Gather(schedule, CommandTo(j))
  {
    InitHasInv(s);
    hide Inv, Step;
    forall t, commands, m | Recorded(t, j, commands) && Step(t, m).Next?
      ensures Recorded(Step(t, m).state, j, commands + CommandTo(j)(m))
    {
      StepKeepsRecorded(t, j, commands, m, Step(t, m).state);
    }
    RunGathers(Step, CommandTo(j), (t, commands) => Recorded(t, j, commands), s, schedule);
  }

  /** Every child executes exactly the commands sent to its slot, in order and none other: at
      any moment a prefix of them, and all of them once it has left.  They are those for which
      the schedule has chosen the slot. */
  lemma Delivery(s: State, schedule: seq<Move>, j: nat)
    requires Init(s) && j < |Run(s, schedule).children|
    ensures var t := Run(s, schedule);
      && |t.children| <= |t.pipes| == |t.sent|
      && t.children[j].rejected == 0
      && t.children[j].executed <= t.sent[j]
      && |t.pipes[j]| == 4 * (|t.sent[j]| - |Taken(t.children[j])|)
      && (Leaving(t.children[j]) ==> t.children[j].executed == t.sent[j])
    ensures IsEffective(Step, s, schedule) ==>
      var t, commands := Run(s, schedule), Gather(schedule, CommandTo(j));
      && t.children[j].executed <= commands
      && (Leaving(t.children[j]) ==> t.children[j].executed == commands)
  {
    InitHasInv(s);
    RunKeepsInv(s, schedule);
    var t := Run(s, schedule);
    assert ChildOk(t.children[j], j) && TrafficOf(t, j);
    if IsEffective(Step, s, schedule) {
      SlotGetsItsCommands(s, schedule, j);
    }
  }

  /** A command can be sent exactly when the parent dispatches and the pipe of the chosen slot has
      room, and then it is that pipe that gets it. */
  lemma SendReachesTheChosenSlot(s: State, schedule: seq<Move>, choice: nat, command: nat)
    requires Init(s)
    ensures var t, o := Run(s, schedule), Step(Run(s, schedule), Send(choice, command));
      && |t.slots| <= |t.pipes|
      && (o.Next? <==> t.parent == Dispatch && choice < |t.slots| && command < t.handlers &&
                       |t.pipes[choice]| + 4 <= t.room)
      && (o.Next? ==> o.state.pipes == t.pipes[choice := t.pipes[choice] + Encode(command)])
  {
    InitHasInv(s);
    RunKeepsInv(s, schedule);
    var t := Run(s, schedule);
    if t.parent == Dispatch && choice < |t.slots| && command < t.handlers {
      SendReaches(t, choice);
    }
    hide Run, HasReader, ParentFds, ChildFds;
  }

  predicate ShuttingDown(s: State) {
    s.parent.CloseSlot? || s.parent.WaitFor? || s.parent.Finished?
  }

  /** When the parent is through, everything is over: all commands executed, all children
      exited, all pipes empty, and the parent left with the descriptors it began with. */
  lemma FinishedMeansDone(s: State, schedule: seq<Move>)
    requires Init(s) && Run(s, schedule).parent.Finished?
    ensures var t := Run(s, schedule);
      && |t.children| == |t.sent| == |t.pipes| == t.n
      && (forall j :: 0 <= j < t.n ==>
            t.children[j].pc.Exited? && t.children[j].executed == t.sent[j] && t.pipes[j] == [])
      && t.fds == STD
    ensures IsEffective(Step, s, schedule) ==>
      forall j :: 0 <= j < |Run(s, schedule).children| ==>
        Run(s, schedule).children[j].executed == Gather(schedule, CommandTo(j))
  {
    InitHasInv(s);
    RunKeepsInv(s, schedule);
    var t := Run(s, schedule);
    hide Run;
    forall j | 0 <= j < t.n
      ensures t.children[j].executed == t.sent[j]
      ensures IsEffective(Step, s, schedule) ==> t.children[j].executed == Gather(schedule, CommandTo(j))
    {
      assert TrafficOf(t, j);
      if IsEffective(Step, s, schedule) {
        SlotGetsItsCommands(s, schedule, j);
      }
    }
    assert ParentFds(t.n, t.n) == STD;
  }

  /** Some process can always go on until the parent has finished; the last child that has not
      left is never waiting. */
  lemma ShutdownNeverStuck(s: State) returns (m: Move)
    requires Inv(s) && ShuttingDown(s) && !s.parent.Finished?
    ensures Step(s, m).Next?
  {
    m := ParentGo;
    StepKeepsInv(s, m);
    if ParentStep(s).Blocked? {
      var j := LastRunning(s, s.n);
      m := ChildGo(j);
      StepKeepsInv(s, m);
      if s.children[j].pc.Read? {
        ReadsOwnPipe(s, j);
        Holders(s, j);
      }
    }
  }

  lemma {:induction false} LastRunning(s: State, bound: nat) returns (j: nat)
    requires bound <= |s.children| && exists k :: 0 <= k < bound && !s.children[k].pc.Exited?
    ensures j < bound && !s.children[j].pc.Exited?
    ensures forall k :: j < k < bound ==> s.children[k].pc.Exited?
  {
    j := bound - 1;
    if s.children[j].pc.Exited? {
      j := LastRunning(s, bound - 1);
    }
  }

  function ParentLeft(s: State): nat {
    match s.parent
    case Create => if |s.slots| <= s.n then 6 * (s.n - |s.slots|) + 1 else 0
    case Fork(_, _) => if |s.slots| < s.n then 6 * (s.n - |s.slots|) else 0
    case CloseRead(_, _) => if |s.slots| < s.n then 6 * (s.n - |s.slots|) - 4 else 0
    case Dispatch => 0
    case CloseSlot(k) => if k <= s.n then (s.n - k) + s.n + 3 else 0
    case WaitFor(k) => if k <= s.n then (s.n - k) + 1 else 0
    case Finished => 0
  }

  function ChildLeft(c: Child): nat {
    match c.pc
    case CloseWrite => 3
    case Read => 2
    case Handle(_) => 3
    case Quit => 1
    case Exited => 0
  }

  function Size(pipe: seq<byte>): nat {
    |pipe|
  }

  /** The work left: system calls of the parent up to the dispatch loop or, in a shutdown, to its
      end; program points of the children; and the bytes still in the pipes. */
  ghost function Measure(s: State): nat {
    ParentLeft(s) + Sum(s.children, ChildLeft) + Sum(s.pipes, Size)
  }

  lemma ReadUsesUpMeasure(s: State, j: nat, s': State)
    requires Inv(s) && j < |s.children| && s.children[j].pc.Read? && ReadStep(s, j) == Next(s')
    ensures Sum(s'.children, ChildLeft) + Sum(s'.pipes, Size) < Sum(s.children, ChildLeft) + Sum(s.pipes, Size)
  {
    ReadsOwnPipe(s, j);
    hide Sum, Inv, HasWriter;
    SumUpdate(s.children, j, s'.children[j], ChildLeft);
    SumUpdate(s.pipes, j, s'.pipes[j], Size);
  }

  lemma ChildUsesUpMeasure(s: State, j: nat, s': State)
    requires Inv(s) && j < |s.children| && ChildStep(s, j) == Next(s')
    ensures Sum(s'.children, ChildLeft) + Sum(s'.pipes, Size) < Sum(s.children, ChildLeft) + Sum(s.pipes, Size)
  {
    if s.children[j].pc.Read? {
      ReadUsesUpMeasure(s, j, s');
    } else {
      hide Sum, Inv, AsInt;
      SumUpdate(s.children, j, s'.children[j], ChildLeft);
    }
  }

  lemma ParentUsesUpMeasure(s: State, s': State)
    requires ParentOk(s) && ParentStep(s) == Next(s')
    ensures ShuttingDown(s) ==> ShuttingDown(s')
    ensures Measure(s') < Measure(s)
  {
    hide ParentFds, ChildFds, LowestFree, Sum;
    SumGrows(s.children, s'.children);
    PipesGrow(s.pipes, s'.pipes);
  }

  lemma SumGrows(a: seq<Child>, b: seq<Child>)
    ensures b == a ==> Sum(b, ChildLeft) == Sum(a, ChildLeft)
    ensures |b| == |a| + 1 && b[..|a|] == a ==> Sum(b, ChildLeft) == Sum(a, ChildLeft) + ChildLeft(b[|a|])
  {
  }

  lemma PipesGrow(a: seq<seq<byte>>, b: seq<seq<byte>>)
    ensures b == a || b == a + [[]] ==> Sum(b, Size) == Sum(a, Size)
  {
    assert (a + [[]])[..|a|] == a;
  }

  lemma SendUsesUpMeasure(s: State, choice: nat, command: nat, s': State)
    requires Inv(s) && SendStep(s, choice, command) == Next(s')
    ensures Measure(s') == Measure(s) + 4
  {
    SendReaches(s, choice);
    hide Sum, Inv, HasReader;
    SumUpdate(s.pipes, choice, s'.pipes[choice], Size);
  }

  lemma ShutdownMakesProgress(s: State, m: Move, s': State)
    requires Inv(s) && ShuttingDown(s) && Step(s, m) == Next(s')
    ensures ShuttingDown(s') && Measure(s') < Measure(s)
  {
    hide Sum;
    if m.ParentGo? {
      ParentUsesUpMeasure(s, s');
      hide Inv, ParentStep, ShuttingDown, Measure;
    } else {
      hide Inv;
      ChildUsesUpMeasure(s, m.j, s');
      ChildLeavesParent(s, m.j, s');
      hide ChildStep, ParentLeft;
    }
  }

  lemma ChildLeavesParent(s: State, j: nat, s': State)
    requires j < |s.children| && ChildStep(s, j) == Next(s')
    ensures s'.parent == s.parent && s'.n == s.n && s'.slots == s.slots
  {
    hide HasWriter, AsInt;
  }

  lemma ShutdownUsesUpMeasure(s: State, schedule: seq<Move>)
    requires Inv(s) && ShuttingDown(s) && IsEffective(Step, s, schedule)
    ensures var t := Run(s, schedule);
      Inv(t) && ShuttingDown(t) && |schedule| + Measure(t) <= Measure(s)
  {
    hide Inv, Step, Measure, ShuttingDown;
    forall t, m | Inv(t) && ShuttingDown(t) && Step(t, m).Next?
      ensures var u := Step(t, m).state; Inv(u) && ShuttingDown(u) && 1 + Measure(u) <= Measure(t)
    {
      StepKeepsInv(t, m);
      ShutdownMakesProgress(t, m, Step(t, m).state);
    }
    RunUsesUp(Step, t => Inv(t) && ShuttingDown(t), Measure, (m: Move) => 0, s, schedule);
    CostsNothing(schedule);
  }

  lemma {:induction false} CostsNothing(schedule: seq<Move>)
    ensures TotalCost((m: Move) => 0, schedule) == 0
  {
    if schedule != [] {
      CostsNothing(schedule[..|schedule| - 1]);
    }
  }

  /** Shutdown always terminates: from any reachable state in which the parent has begun to
      close, the remaining run has a bounded number of moves, and it can go on until the parent
      has collected every child. */
  lemma ShutdownTerminates(s: State, schedule: seq<Move>, further: seq<Move>) returns (m: Move)
    requires Init(s) && ShuttingDown(Run(s, schedule)) && IsEffective(Step, Run(s, schedule), further)
    ensures var t := Run(s, schedule);
      && |further| <= Measure(t)
      && (!Run(t, further).parent.Finished? ==> Step(Run(t, further), m).Next?)
  {
    InitHasInv(s);
    RunKeepsInv(s, schedule);
    ShutdownUsesUpMeasure(Run(s, schedule), further);
    m := ParentGo;
    if !Run(Run(s, schedule), further).parent.Finished? {
      m := ShutdownNeverStuck(Run(Run(s, schedule), further));
    }
  }

  /** What a move may add to the measure, counting the move itself. */
  function Cost(n: nat): Move -> nat {
    (m: Move) =>
      match m
      case Send(_, _) => 5
      case Shutdown => 2 * n + 4
      case _ => 0
  }

  lemma StepUsesUpMeasure(s: State, m: Move, s': State)
    requires Inv(s) && Step(s, m) == Next(s')
    ensures 1 + Measure(s') <= Measure(s) + Cost(s.n)(m) && s'.n == s.n
  {
    hide Sum;
    match m {
      case ParentGo =>
        ParentUsesUpMeasure(s, s');
        hide Inv, Measure;
      case Send(choice, command) =>
        SendUsesUpMeasure(s, choice, command, s');
        hide Inv, Measure, HasReader;
      case Shutdown =>
        hide Inv;
      case ChildGo(j) =>
        ChildUsesUpMeasure(s, j, s');
        ChildLeavesParent(s, j, s');
        hide Inv, ChildStep, ParentLeft;
    }
  }

  /** A whole run has at most 6n + 1 moves, five for each command and 2n + 4 for a shutdown. */
  lemma EveryRunEnds(s: State, schedule: seq<Move>)
    requires Init(s) && IsEffective(Step, s, schedule)
    ensures |schedule| <= 6 * s.n + 1 + TotalCost(Cost(s.n), schedule)
  {
    InitHasInv(s);
    assert Measure(s) == 6 * s.n + 1;
    hide Inv, Step, Measure, Cost;
    forall t, m | Inv(t) && t.n == s.n && Step(t, m).Next?
      ensures var u := Step(t, m).state; Inv(u) && u.n == s.n && 1 + Measure(u) <= Measure(t) + Cost(s.n)(m)
    {
      StepKeepsInv(t, m);
      StepUsesUpMeasure(t, m, Step(t, m).state);
    }
    RunUsesUp(Step, (t: State) => Inv(t) && t.n == s.n, Measure, Cost(s.n), s, schedule);
  }

  /** Nothing moves without a new decision of the dispatcher exactly when the pool is idle, every
      command sent having been executed, or when the parent has finished. */
  lemma StuckExactlyWhenIdleOrFinished(s: State, schedule: seq<Move>)
    requires Init(s)
    ensures var t := Run(s, schedule);
      && |t.sent| == |t.pipes| >= |t.children|
      && ((Step(t, ParentGo).Blocked? && forall j: nat :: Step(t, ChildGo(j)).Blocked?) <==>
           || t.parent.Finished?
           || (t.parent == Dispatch && forall j :: 0 <= j < |t.children| ==>
                 t.children[j].pc.Read? && t.children[j].executed == t.sent[j]))
  {
    InitHasInv(s);
    RunKeepsInv(s, schedule);
    var t := Run(s, schedule);
    hide Run;
    StepKeepsInv(t, ParentGo);
    if t.parent == Dispatch {
      forall j | 0 <= j < |t.children|
        ensures Step(t, ChildGo(j)).Blocked? <==> t.children[j].pc.Read? && t.children[j].executed == t.sent[j]
      {
        IdleChild(t, j);
      }
    } else if ShuttingDown(t) && !t.parent.Finished? {
      var m := ShutdownNeverStuck(t);
      assert m.ParentGo? || m.ChildGo?;
    } else if t.parent.Finished? {
      hide Traffic, ParentFds, ChildFds;
    }
  }

  /** While the parent dispatches, a child waits exactly when it has executed all it was sent. */
  lemma IdleChild(s: State, j: nat)
    requires Inv(s) && s.parent == Dispatch && j < |s.children|
    ensures Step(s, ChildGo(j)).Blocked? <==> s.children[j].pc.Read? && s.children[j].executed == s.sent[j]
  {
    StepKeepsInv(s, ChildGo(j));
    assert TrafficOf(s, j);
    if s.children[j].pc.Read? {
      ReadsOwnPipe(s, j);
      Holders(s, j);
      hide ParentFds, ChildFds;
    }
  }
}
