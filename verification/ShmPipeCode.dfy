/** Both processes as the programs write them: a shared character buffer and a FIFO. */
module ShmPipeCode {
  import opened Transitions
  import opened CString
  import opened ShmPipeProtocol

  const SHM_SIZE := 4096

  class Channel {
    const shm: array<char>
    const capacity: nat
    var bytes: nat
    var client: Client
    var server: Server
    ghost var stored: seq<string>
    ghost var signals: nat
    ghost var waits: nat
    ghost var prints: seq<nat>
    ghost var shown: seq<string>

    ghost function View(): State
      reads this, shm
    {
      State(CStr(shm[..], 0), bytes, capacity, client, server, stored, signals, waits, prints, shown)
    }

    ghost predicate Valid()
      reads this, shm
    {
      shm.Length == SHM_SIZE && |CStr(shm[..], 0)| < SHM_SIZE && Inv(View())
    }

    constructor (capacity: nat)
      requires capacity >= TOKEN
      ensures Valid() && Init(View()) && this.capacity == capacity && fresh(shm)
    {
      shm := new char[SHM_SIZE](_ => NUL);
      this.capacity := capacity;
      bytes := 0;
      client, server := Client.Input, Server.Wait;
      stored, signals, waits, prints, shown := [], 0, 0, [], [];
    }

    /** read(0, shmaddr, SHM_SIZE - 1), then the last byte is cut off.  What an earlier, longer
        line left behind stays in the buffer, after the NUL. */
    method Publish(line: string)
      requires Valid() && client == Input && 0 < |line| <= SHM_SIZE - 1
      modifies this`client, this`stored, shm
      ensures Valid() && Step(old(View()), Type(line)) == Next(View())
      ensures IsTextOf(CStr(shm[..], 0), line)
      ensures NUL !in line ==> CStr(shm[..], 0) + line[|line| - 1..] == line
    {
      StepKeepsInv(View(), Type(line));
      for k := 0 to |line|
        invariant shm[..k] == line[..k]
        modifies shm
      {
        shm[k] := line[k];
      }
      shm[|line| - 1] := NUL;
      SameText(shm[..], line);
      TextIs(line);
      stored := stored + [Text(line)];
      client := Client.Signal;
    }

    /** strcmp(shmaddr, s) == 0 */
    method Matches(s: string) returns (same: bool)
      requires shm.Length == SHM_SIZE && |s| < SHM_SIZE && NUL !in s
      ensures same == (CStr(shm[..], 0) == s)
    {
      CStrIsPrefix(shm[..], 0);
      for k := 0 to |s|
        invariant shm[..k] == s[..k]
      {
        if shm[k] != s[k] {
          return false;
        }
      }
      same := shm[|s|] == NUL;
      if same {
        CStrUpTo(shm[..], 0, |s|);
      }
    }

    /** cout << shmaddr: the characters up to the first NUL. */
    method Show() returns (text: string)
      requires shm.Length == SHM_SIZE && |CStr(shm[..], 0)| < SHM_SIZE
      ensures text == CStr(shm[..], 0)
    {
      CStrIsPrefix(shm[..], 0);
      text := "";
      while shm[|text|] != NUL
        invariant text <= CStr(shm[..], 0)
        decreases SHM_SIZE - |text|
      {
        text := text + [shm[|text|]];
      }
    }

    /** Signal(): writes one token; not to be called when the FIFO is full or has no reader. */
    method WriteToken()
      requires bytes + TOKEN <= capacity
      modifies this`bytes, this`signals
      ensures bytes == old(bytes) + TOKEN && signals == old(signals) + 1
    {
      bytes := bytes + TOKEN;
      signals := signals + 1;
    }

    /** Wait(): reads one token. */
    method ReadToken()
      requires bytes >= TOKEN
      modifies this`bytes, this`waits
      ensures bytes == old(bytes) - TOKEN && waits == old(waits) + 1
    {
      bytes := bytes - TOKEN;
      waits := waits + 1;
    }

    /** The client's next instruction after a line was stored. */
    method ClientContinue() returns (r: Outcome<()>)
      requires Valid()
      modifies this
      ensures Valid()
      ensures r.Next? ==> Step(old(View()), GoClient) == Next(View())
      ensures !r.Next? ==> View() == old(View())
      ensures r.Blocked? ==> Step(old(View()), GoClient) == Blocked
      ensures r.Fault? ==> Step(old(View()), GoClient) == Fault
    {
      StepKeepsInv(View(), GoClient);
      hide Inv, CStr;
      r := Next(());
      match client {
        case Input =>
          r := Blocked;
        case Signal =>
          if server == Gone {
            r := Fault;
          } else if bytes + TOKEN > capacity {
            r := Blocked;
          } else {
            WriteToken();
            client := Client.Compare;
          }
        case Compare =>
          var quit := Matches(QUIT);
          client := if quit then Client.Close else Client.Input;
        case Close =>
          client := Client.Closed;
        case Closed =>
          r := Blocked;
      }
    }

    /** The server's next instruction. */
    method ServerContinue() returns (moved: bool)
      requires Valid()
      modifies this
      ensures Valid()
      ensures moved ==> Step(old(View()), GoServer) == Next(View())
      ensures !moved ==> View() == old(View()) && Step(old(View()), GoServer) == Blocked
    {
      StepKeepsInv(View(), GoServer);
      hide CStr;
      moved := true;
      match server {
        case Wait =>
          moved := bytes != 0;
          if moved {
            ReadToken();
            server := Server.Print;
          }
        case Print =>
          var text := Show();
          prints, shown := prints + [|stored|], shown + [text];
          server := Server.Check;
        case Check =>
          var quit := Matches(QUIT);
          server := if quit then Server.Finish else Server.Wait;
        case Finish =>
          server := Server.Gone;
        case Gone =>
          moved := false;
      }
    }
  }

  /** The line cut off by its last byte reads the same in the buffer as on its own. */
  lemma SameText(b: seq<char>, line: string)
    requires 0 < |line| <= |b| && b[..|line| - 1] == line[..|line| - 1] && b[|line| - 1] == NUL
    ensures CStr(b, 0) == Text(line)
  {
    var cut := line[..|line| - 1];
    CStrIsPrefix(cut, 0);
    var end := |CStr(cut, 0)|;
    assert forall k :: 0 <= k < end ==> b[k] == cut[k] && cut[k] in CStr(cut, 0);
    assert end < |cut| ==> b[end] == cut[end];
    CStrUpTo(b, 0, end);
  }
}
