/**
  The process pool as the program writes it: tables, slots and pipes updated in place by the
  loops of the parent and of the children.  Every method that makes one system call is one Step
  of ProcessPoolProtocol.
 */
module ProcessPoolCode {
  import opened Prelude
  import opened Transitions
  import opened Commands
  import opened ProcessPoolProtocol

  ghost predicate NothingSent(sent: seq<seq<nat>>) {
    forall j :: 0 <= j < |sent| ==> sent[j] == []
  }

  /** A child before its first command. */
  ghost predicate Started(c: Child, j: nat) {
    c == Child(c.pc, ChildFds(j, c.pc.Read?), 3, 4 + j, [], 0) && (c.pc.CloseWrite? || c.pc.Read?)
  }

  lemma AllStarted(s: State)
    requires Inv(s) && s.parent == Dispatch && NothingSent(s.sent)
    ensures forall j :: 0 <= j < |s.children| ==> Started(s.children[j], j)
  {
    hide ParentFds, ChildFds;
    forall j | 0 <= j < |s.children| ensures Started(s.children[j], j) {
      assert ChildOk(s.children[j], j) && TrafficOf(s, j);
    }
  }

  class ProcessPool {
    const n: nat
    const handlers: nat
    const room: nat            // capacity of a pipe in bytes
    var parent: ParentPC
    var fds: Fds
    var slots: seq<Slot>
    var children: seq<Child>
    var pipes: seq<seq<byte>>
    ghost var sent: seq<seq<nat>>

    ghost function View(): State
      reads this
    {
      State(n, handlers, room, parent, fds, slots, children, pipes, sent)
    }

    ghost predicate Valid()
      reads this
    {
      Inv(View())
    }

    /** load() has filled the table of handlers before the pool starts. */
    constructor (n: nat, room: nat, tasks: Tasks)
      requires tasks.HandlerSize() < 0x8000_0000
      ensures Valid() && Init(View()) && this.n == n && this.room == room && handlers == tasks.HandlerSize()
    {
      this.n, this.room, handlers := n, room, tasks.HandlerSize();
      parent, fds := Create, STD;
      slots, children, pipes, sent := [], [], [], [];
      new;
      InitHasInv(View());
    }

    /** The descriptor that open, pipe and the like hand out next. */
    method LowestDescriptor(table: Fds) returns (fd: nat)
      ensures IsLowestFree(table, fd) && fd == LowestFree(table)
    {
      hide Below, LowestFree;
      fd := 0;
      while fd in table
        invariant Below(fd) <= table.Keys
        decreases |table| - fd
      {
        BelowSize(fd + 1);
        SubsetSize(Below(fd + 1), table.Keys);
        fd := fd + 1;
      }
      assert forall q: nat :: q < fd ==> q in Below(fd);
      LowestFreeIs(table, fd);
    }

    /** pipe(pipefd) */
    method OpenPipe()
      requires Valid() && parent == Create && |slots| < n
      modifies this
      ensures Valid() && Step(old(View()), ParentGo) == Next(View())
    {
      StepKeepsInv(View(), ParentGo);
      var r := LowestDescriptor(fds);
      fds := fds[r := ReadEnd(|pipes|)];
      var w := LowestDescriptor(fds);
      fds := fds[w := WriteEnd(|pipes|)];
      pipes := pipes + [[]];
      sent := sent + [[]];
      parent := Fork(r, w);
    }

    /** The next system call of the parent, outside the dispatch loop. */
    method ParentContinue() returns (moved: bool)
      requires Valid()
      modifies this
      ensures Valid()
      ensures moved ==> Step(old(View()), ParentGo) == Next(View())
      ensures !moved ==> Step(old(View()), ParentGo) == Blocked && View() == old(View())
    {
      StepKeepsInv(View(), ParentGo);
      moved := true;
      match parent {
        case Create =>
          if |slots| < n {
            OpenPipe();
          } else {
            parent := Dispatch;
          }
        case Fork(r, w) =>
          children := children + [Child(CloseWrite, fds, r, w, [], 0)];
          parent := CloseRead(r, w);
        case CloseRead(r, w) =>
          fds := fds - {r};
          slots := slots + [Slot(|children| - 1, w)];
          parent := Create;
        case Dispatch =>
          moved := false;
        case CloseSlot(k) =>
          if k < |slots| {
            fds := fds - {slots[k].fd};
            parent := CloseSlot(k + 1);
          } else {
            parent := WaitFor(0);
          }
        case WaitFor(k) =>
          if k >= |slots| {
            parent := Finished;
          } else if children[slots[k].pid].pc.Exited? {
            parent := WaitFor(k + 1);
          } else {
            moved := false;
          }
        case Finished =>
          moved := false;
      }
    }

    /** The children that already exist run on, in any order; one that cannot move is passed over. */
    method RunChildren(order: seq<nat>)
      requires Valid()
      modifies this`children, this`pipes
      ensures Valid() && |children| == |old(children)|
    {
      for k := 0 to |order|
        invariant Valid() && |children| == |old(children)|
      {
        var j := order[k];
        if j < |children| && children[j].pc.Read? {
          var moved := WaitCommand(j);
        } else if j < |children| && !children[j].pc.Exited? {
          ChildContinue(j);
        }
      }
    }

    /** The creation loop, while the children forked so far run as meanwhile says: afterwards slot
        j writes to pipe j through descriptor 4 + j, the parent holds no read end, and child j is
        at its own close or already waits for its first command. */
    method CreateSlots(meanwhile: nat -> seq<nat>)
      requires Valid() && Init(View())
      modifies this
      ensures Valid() && parent == Dispatch && |slots| == |children| == n
      ensures fds == ParentFds(0, n)
      ensures forall j :: 0 <= j < n ==> slots[j] == Slot(j, 4 + j) && Started(children[j], j)
    {
      hide LowestFree, ParentFds, ChildFds, Below, Traffic, Cascade, ChildrenOk;
      while |slots| < n
        invariant Valid() && parent == Create && |slots| <= n && NothingSent(sent)
      {
        OpenPipe();
        RunChildren(meanwhile(3 * |slots|));
        var moved := ParentContinue();
        RunChildren(meanwhile(3 * |slots| + 1));
        moved := ParentContinue();
        RunChildren(meanwhile(3 * |slots| + 2));
      }
      var moved := ParentContinue();
      AllStarted(View());
    }

    /** __sendAndWakeUp for the slot and the command that were drawn. */
    method SendAndWakeUp(choice: nat, command: nat) returns (moved: bool)
      requires Valid() && parent == Dispatch && choice < |slots| && command < handlers
      modifies this`pipes, this`sent
      ensures Valid()
      ensures moved ==> Step(old(View()), Send(choice, command)) == Next(View())
      ensures |old(pipes)| == |pipes| >= |slots|
      ensures moved ==> pipes == old(pipes)[choice := old(pipes)[choice] + Encode(command)]
      ensures moved <==> |old(pipes)[choice]| + 4 <= room
      ensures !moved ==> Step(old(View()), Send(choice, command)) == Blocked && View() == old(View())
    {
      StepKeepsInv(View(), Send(choice, command));
      SendReaches(View(), choice);
      var p := fds[slots[choice].fd].pipe;
      moved := |pipes[p]| + 4 <= room;
      if moved {
        pipes := pipes[p := pipes[p] + Encode(command)];
        sent := sent[choice := sent[choice] + [command]];
      }
    }

    /** The parent leaves the dispatch loop. */
    method BeginShutdown()
      requires Valid() && parent == Dispatch
      modifies this`parent
      ensures Valid() && Step(old(View()), Shutdown) == Next(View())
    {
      StepKeepsInv(View(), Shutdown);
      parent := CloseSlot(0);
    }

    method IsWritten(p: nat) returns (written: bool)
      ensures written == HasWriter(View(), p)
    {
      written := WriteEnd(p) in fds.Values;
      for c := 0 to |children|
        invariant written == (WriteEnd(p) in fds.Values ||
          exists k :: 0 <= k < c && WriteEnd(p) in children[k].fds.Values)
      {
        written := written || WriteEnd(p) in children[c].fds.Values;
      }
    }

    /** __waitCommand in child j. */
    method WaitCommand(j: nat) returns (moved: bool)
      requires Valid() && j < |children| && children[j].pc.Read?
      modifies this`children, this`pipes
      ensures Valid()
      ensures moved ==> Step(old(View()), ChildGo(j)) == Next(View())
      ensures !moved ==> Step(old(View()), ChildGo(j)) == Blocked && View() == old(View())
    {
      StepKeepsInv(View(), ChildGo(j));
      ReadsOwnPipe(View(), j);
      var c := children[j];
      var p := c.fds[c.rfd].pipe;
      moved := true;
      if |pipes[p]| > 0 {
        children := children[j := c.(pc := Handle(Decode(pipes[p][..4])))];
        pipes := pipes[p := pipes[p][4..]];
      } else {
        var written := IsWritten(p);
        if written {
          moved := false;
        } else {
          children := children[j := c.(pc := Quit)];
        }
      }
    }

    /** The next instruction of child j outside __waitCommand. */
    method ChildContinue(j: nat)
      requires Valid() && j < |children| && !children[j].pc.Read? && !children[j].pc.Exited?
      modifies this`children
      ensures Valid() && Step(old(View()), ChildGo(j)) == Next(View())
    {
      StepKeepsInv(View(), ChildGo(j));
      var c := children[j];
      match c.pc {
        case CloseWrite =>
          c := c.(pc := Read, fds := c.fds - {c.wfd});
        case Handle(command) =>
          if command < WORD && 0 <= AsInt(command) < handlers {
            c := c.(pc := Read, executed := c.executed + [command]);
          } else {
            c := c.(pc := Read, rejected := c.rejected + 1);
          }
        case Quit =>
          c := c.(pc := Exited, fds := map[]);
      }
      children := children[j := c];
    }
  }
}
