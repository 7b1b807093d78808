/**
  A client publishes lines in shared memory and sends one four-byte token through a FIFO for
  each of them; a server waits for a token, prints the memory, and compares it with "quit".
  Storing a line is one step.
 */
module ShmPipeProtocol {
  import opened Prelude
  import opened Transitions
  import opened CString

  datatype Client = Input | Signal | Compare | Close | Closed

  datatype Server = Wait | Print | Check | Finish | Gone

  /** bytes is what the FIFO holds.  stored lists every line published, waits and signals count
      the tokens, prints lists how many lines had been stored when each line was printed: the
      index, counted from 1, of the line that was shown; and shown lists the texts printed. */
  datatype State = State(
    shm: string, bytes: nat, capacity: nat, client: Client, server: Server,
    stored: seq<string>, signals: nat, waits: nat, prints: seq<nat>, shown: seq<string>)

  /** The user types a line, newline included; or one of the two processes runs on. */
  datatype Move = Type(line: string) | GoClient | GoServer

  const QUIT := "quit"
  const TOKEN := 4

  ghost predicate Init(s: State) {
    && s.shm == "" && s.bytes == 0 && s.capacity >= TOKEN
    && s.client == Input && s.server == Wait
    && s.stored == [] && s.signals == 0 && s.waits == 0 && s.prints == [] && s.shown == []
  }

  /** The C string left in memory by reading the line and cutting off its last byte. */
  function Text(line: string): string
    requires line != ""
  {
    CStr(line[..|line| - 1], 0)
  }

  function ClientGo(s: State): Outcome<State> {
    match s.client
    case Input => Blocked
    case Signal =>
      if s.server == Gone then Fault              // no reader is left: the write kills the client
      else if s.bytes + TOKEN > s.capacity then Blocked
      else Next(s.(client := Compare, bytes := s.bytes + TOKEN, signals := s.signals + 1))
    case Compare => Next(s.(client := if s.shm == QUIT then Close else Input))
    case Close => Next(s.(client := Closed))
    case Closed => Blocked
  }

  function ServerGo(s: State): Outcome<State> {
    match s.server
    case Wait =>
      if s.bytes >= TOKEN then Next(s.(server := Print, bytes := s.bytes - TOKEN, waits := s.waits + 1))
      else if s.bytes == 0 && s.client != Closed then Blocked
      else Fault                                  // end of file, or part of a token
    case Print => Next(s.(server := Check, prints := s.prints + [|s.stored|], shown := s.shown + [s.shm]))
    case Check => Next(s.(server := if s.shm == QUIT then Finish else Wait))
    case Finish => Next(s.(server := Gone))       // closes its end of the FIFO
    case Gone => Blocked
  }

  function Step(s: State, m: Move): Outcome<State> {
    match m
    case Type(line) =>
      if s.client == Input && line != "" then
        Next(s.(client := Signal, shm := Text(line), stored := s.stored + [Text(line)]))
      else Blocked
    case GoClient => ClientGo(s)
    case GoServer => ServerGo(s)
  }

  function Run(s: State, schedule: seq<Move>): State {
    RunOf(Step, s, schedule)
  }

  // ---- the invariant ----

  predicate QuitStored(s: State) {
    s.stored != [] && s.stored[|s.stored| - 1] == QUIT
  }

  ghost predicate Counts(s: State) {
    && s.waits <= s.signals
    && s.bytes == TOKEN * (s.signals - s.waits)
    && s.bytes <= s.capacity
    && |s.stored| == s.signals + (if s.client == Signal then 1 else 0)
    && |s.prints| + (if s.server == Print then 1 else 0) == s.waits
  }

  ghost predicate Shown(s: State) {
    && (s.stored != [] ==> s.shm == s.stored[|s.stored| - 1])
    && (forall k :: 0 <= k < |s.prints| ==> k + 1 <= s.prints[k] <= |s.stored|)
    && (forall j, k :: 0 <= j < k < |s.prints| ==> s.prints[j] <= s.prints[k])
    && |s.shown| == |s.prints|
    && (forall k :: 0 <= k < |s.shown| ==> s.shown[k] == s.stored[s.prints[k] - 1])
  }

  ghost predicate Quitting(s: State) {
    && (forall k :: 0 <= k < |s.stored| - 1 ==> s.stored[k] != QUIT)
    && (s.client == Input ==> !QuitStored(s))
    && (s.client == Close || s.client == Closed ==> QuitStored(s))
    && (s.client != Input ==> s.stored != [])
    && (s.server == Finish || s.server == Gone ==> QuitStored(s))
    && (s.server == Check ==> s.waits > 0)
    && (s.server == Wait && QuitStored(s) ==> s.waits < |s.stored|)
  }

  ghost predicate Inv(s: State) {
    s.capacity >= TOKEN && Counts(s) && Shown(s) && Quitting(s)
  }

  lemma StepKeepsCounts(s: State, m: Move, s': State)
    requires s.capacity >= TOKEN && Counts(s) && Step(s, m) == Next(s')
    ensures Counts(s') && s'.capacity == s.capacity
  {
  }

  lemma StepKeepsShown(s: State, m: Move, s': State)
    requires Counts(s) && Shown(s) && Quitting(s) && Step(s, m) == Next(s')
    ensures Shown(s')
  {
  }

  lemma StepKeepsQuitting(s: State, m: Move, s': State)
    requires Counts(s) && Shown(s) && Quitting(s) && Step(s, m) == Next(s')
    ensures Quitting(s')
  {
  }

  lemma StepKeepsInv(s: State, m: Move)
    requires Inv(s)
    ensures Step(s, m).Next? ==> Inv(Step(s, m).state)
    ensures Step(s, m).Fault? ==> m == GoClient && s.client == Signal && s.server == Gone
  {
    if Step(s, m).Next? {
      StepKeepsCounts(s, m, Step(s, m).state);
      StepKeepsShown(s, m, Step(s, m).state);
      StepKeepsQuitting(s, m, Step(s, m).state);
    }
  }

  lemma RunKeepsInv(s: State, schedule: seq<Move>)
    requires Inv(s)
    ensures Inv(Run(s, schedule))
  {
    forall t, m | Inv(t) && Step(t, m).Next? ensures Inv(Step(t, m).state) {
      StepKeepsInv(t, m);
    }
    RunKeeps(Step, Inv, s, schedule);
  }

  // ---- the theorems, about every schedule and everything the user may type ----

  /** The k-th print shows a line that was stored as the k-th or later, prints never go back to
      an earlier line, and there are at most as many waits as lines. */
  lemma PrintsKeepUp(s: State, schedule: seq<Move>, k: nat)
    requires Init(s) && k < |Run(s, schedule).prints|
    ensures var t := Run(s, schedule);
      && k + 1 <= t.prints[k] <= |t.stored|
      && (k > 0 ==> t.prints[k - 1] <= t.prints[k])
      && |t.prints| <= t.waits <= |t.stored|
  {
    RunKeepsInv(s, schedule);
  }

  /** What a print shows is exactly the line whose index it records. */
  lemma PrintShowsTheLatestLine(s: State, schedule: seq<Move>, s': State)
    requires Init(s) && Run(s, schedule).server == Print && Step(Run(s, schedule), GoServer) == Next(s')
    ensures var t := Run(s, schedule);
      && |s'.prints| == |t.prints| + 1 == |s'.shown|
      && 0 < s'.prints[|t.prints|] <= |t.stored|
      && s'.shown[|t.prints|] == t.stored[s'.prints[|t.prints|] - 1]
  {
    RunKeepsInv(s, schedule);
  }

  // ---- from what is typed to what is printed ----

  function LineOf(m: Move): seq<string> {
    if m.Type? then [m.line] else []
  }

  /** text is the line without its last byte, up to the first NUL if there is one before. */
  ghost predicate IsTextOf(text: string, line: string) {
    && |text| < |line| && text <= line && NUL !in text
    && (|text| == |line| - 1 || line[|text|] == NUL)
  }

  lemma TextIs(line: string)
    requires line != ""
    ensures IsTextOf(Text(line), line)
  {
    var cut := line[..|line| - 1];
    CStrIsPrefix(cut, 0);
    assert CStr(cut, 0) == cut[..|CStr(cut, 0)|] == line[..|CStr(cut, 0)|];
  }

  ghost predicate Published(stored: seq<string>, lines: seq<string>) {
    |stored| == |lines| && forall k :: 0 <= k < |lines| ==> IsTextOf(stored[k], lines[k])
  }

  lemma StepPublishes(s: State, lines: seq<string>, m: Move, s': State)
    requires Published(s.stored, lines) && Step(s, m) == Next(s')
    ensures Published(s'.stored, lines + LineOf(m))
  {
    if m.Type? {
      TextIs(m.line);
    }
    hide Text, IsTextOf;
  }

  /** The lines stored are those typed: the k-th is the text of the k-th line typed. */
  lemma StoresWhatIsTyped(s: State, schedule: seq<Move>)
    requires Init(s) && IsEffective(Step, s, schedule)
    ensures Published(Run(s, schedule).stored, Gather(schedule, LineOf))
  {
    hide Step, LineOf;
    forall t: State, lines, m | Published(t.stored, lines) && Step(t, m).Next?
      ensures Published(Step(t, m).state.stored, lines + LineOf(m))
    {
      StepPublishes(t, lines, m, Step(t, m).state);
    }
    RunGathers(Step, LineOf, (t: State, lines: seq<string>) => Published(t.stored, lines), s, schedule);
  }

  /** What the k-th print puts on the screen is the text of a line typed as the k-th or later, the
      one whose index it records. */
  lemma PrintsWhatIsTyped(s: State, schedule: seq<Move>, k: nat)
    requires Init(s) && IsEffective(Step, s, schedule) && k < |Run(s, schedule).shown|
    ensures var t, lines := Run(s, schedule), Gather(schedule, LineOf);
      && |t.prints| == |t.shown|
      && k <= t.prints[k] - 1 < |lines|
      && IsTextOf(t.shown[k], lines[t.prints[k] - 1])
  {
    RunKeepsInv(s, schedule);
    StoresWhatIsTyped(s, schedule);
    hide Run, Gather, Quitting, Counts, IsTextOf;
    assert k + 1 <= Run(s, schedule).prints[k] <= |Run(s, schedule).stored|;
  }

  /** The server's Wait never meets the end of the FIFO, nor part of a token. */
  lemma WaitNeverFails(s: State, schedule: seq<Move>)
    requires Init(s)
    ensures !Step(Run(s, schedule), GoServer).Fault?
  {
    RunKeepsInv(s, schedule);
    StepKeepsInv(Run(s, schedule), GoServer);
  }

  /** Nothing moves exactly when both wait for the user, or both have left; and the server
      leaves only after "quit" was stored. */
  lemma StuckExactlyWhenIdleOrOver(s: State, schedule: seq<Move>)
    requires Init(s)
    ensures var t := Run(s, schedule);
      && (Step(t, GoClient).Blocked? && Step(t, GoServer).Blocked? <==>
            || (t.client == Input && t.server == Wait && t.waits == |t.stored|)
            || (t.client == Closed && t.server == Gone))
      && (t.server == Gone ==> QuitStored(t))
  {
    RunKeepsInv(s, schedule);
  }

  function ClientLeft(c: Client): nat {
    match c
    case Input => 0
    case Signal => 7
    case Compare => 2
    case Close => 1
    case Closed => 0
  }

  function ServerLeft(w: Server): nat {
    match w
    case Wait => 0
    case Print => 3
    case Check => 2
    case Finish => 1
    case Gone => 0
  }

  /** The work left before both wait for the user or have left. */
  function Measure(s: State): nat {
    s.bytes + ClientLeft(s.client) + ServerLeft(s.server)
  }

  /** What a move may add to the measure, counting the move itself. */
  function Cost(m: Move): nat {
    if m.Type? then 8 else 0
  }

  lemma MoveUsesUpMeasure(s: State, m: Move)
    requires Counts(s) && Step(s, m).Next?
    ensures 1 + Measure(Step(s, m).state) <= Measure(s) + Cost(m)
  {
  }

  /** A run has at most eight moves for each line typed; and when it cannot go on although the
      last line was "quit", and the client was not cut short, both processes have left. */
  lemma EveryRunEnds(s: State, schedule: seq<Move>)
    requires Init(s) && IsEffective(Step, s, schedule)
    ensures |schedule| <= TotalCost(Cost, schedule)
    ensures var t := Run(s, schedule);
      Step(t, GoClient).Blocked? && Step(t, GoServer).Blocked? && QuitStored(t) ==>
        t.client == Closed && t.server == Gone && t.waits <= |t.stored|
  {
    forall t, m | Inv(t) && Step(t, m).Next?
      ensures Inv(Step(t, m).state) && 1 + Measure(Step(t, m).state) <= Measure(t) + Cost(m)
    {
      StepKeepsInv(t, m);
      MoveUsesUpMeasure(t, m);
    }
    RunUsesUp(Step, Inv, Measure, Cost, s, schedule);
  }

  // ---- when typing "quit" is safe ----

  /** A run in which the user types nothing. */
  ghost predicate Quiet(schedule: seq<Move>) {
    forall k :: 0 <= k < |schedule| ==> !schedule[k].Type?
  }

  lemma {:induction false} QuietRunStoresNothing(s: State, schedule: seq<Move>)
    requires Quiet(schedule)
    ensures Run(s, schedule).stored == s.stored
  {
    if schedule != [] {
      QuietRunStoresNothing(s, schedule[..|schedule| - 1]);
    }
  }

  /** "quit" has been stored, and its token is not sent unless the server waits for it. */
  ghost predicate SafeQuit(s: State) {
    Inv(s) && QuitStored(s) && s.client != Input && (s.client == Signal ==> s.server == Wait && s.bytes == 0)
  }

  lemma RunKeepsSafeQuit(s: State, schedule: seq<Move>)
    requires SafeQuit(s)
    ensures SafeQuit(Run(s, schedule))
  {
    forall t, m | SafeQuit(t) && Step(t, m).Next? ensures SafeQuit(Step(t, m).state) {
      StepKeepsInv(t, m);
    }
    RunKeeps(Step, SafeQuit, s, schedule);
  }

  /** One move of a server that has the token of an earlier line, or is about to take it. */
  lemma ServerComesNearer(s: State)
    requires s.client == Signal && s.shm == QUIT && ServerSteps(s.server) > 0
    requires s.server == Wait ==> s.bytes >= TOKEN
    ensures Step(s, GoServer).Next?
    ensures var s' := Step(s, GoServer).state;
      && s'.client == Signal && s'.shm == QUIT && s'.server != Wait
      && ServerSteps(s'.server) == ServerSteps(s.server) - 1
  {
  }

  /** The server catches up with "quit" before the client has signalled: at most four moves. */
  lemma {:induction false} ServerLeaves(s: State, n: nat)
    requires s.client == Signal && s.shm == QUIT && n <= ServerSteps(s.server)
    requires s.server == Wait ==> s.bytes >= TOKEN
    ensures var t := Repeat(Step, s, GoServer, n);
      && t.client == Signal && t.shm == QUIT && (n > 0 ==> t.server != Wait)
      && ServerSteps(t.server) == ServerSteps(s.server) - n
  {
    if n > 0 {
      ServerLeaves(s, n - 1);
      hide Step, ServerSteps;
      ServerComesNearer(Repeat(Step, s, GoServer, n - 1));
    }
  }

  lemma ServerLeavesFirst(s: State) returns (n: nat)
    requires Inv(s) && s.client == Signal && QuitStored(s) && !(s.server == Wait && s.bytes == 0)
    ensures var t := Repeat(Step, s, GoServer, n); t.client == Signal && t.server == Gone
  {
    n := ServerSteps(s.server);
    ServerLeaves(s, n);
  }

  function ServerSteps(server: Server): nat {
    match server
    case Wait => 4
    case Print => 3
    case Check => 2
    case Finish => 1
    case Gone => 0
  }

  ghost predicate SomeSignalFails(s: State) {
    exists further: seq<Move>, m: Move :: Quiet(further) && Step(Run(s, further), m).Fault?
  }

  /** Whether typing a line can cost the client its life before the next line: exactly when the
      line is "quit" and the server is not waiting at an empty FIFO. It may then compare the
      memory with "quit" for an earlier token, and leave before this one is sent. */
  lemma LineFailsExactlyWhenQuitMeetsBusyServer(s: State, schedule: seq<Move>, line: string)
    requires Init(s) && Run(s, schedule).client == Input && line != ""
    ensures var t := Run(s, schedule);
      && Step(t, Type(line)).Next?
      && (SomeSignalFails(Step(t, Type(line)).state) <==>
            Text(line) == QUIT && !(t.server == Wait && t.bytes == 0))
  {
    RunKeepsInv(s, schedule);
    var t := Run(s, schedule);
    StepKeepsInv(t, Type(line));
    var u := Step(t, Type(line)).state;
    if Text(line) != QUIT {
      forall further: seq<Move>, m: Move | Quiet(further) ensures !Step(Run(u, further), m).Fault? {
        RunKeepsInv(u, further);
        QuietRunStoresNothing(u, further);
        StepKeepsInv(Run(u, further), m);
      }
    } else if t.server == Wait && t.bytes == 0 {
      forall further: seq<Move>, m: Move ensures !Step(Run(u, further), m).Fault? {
        RunKeepsSafeQuit(u, further);
        StepKeepsInv(Run(u, further), m);
      }
    } else {
      var n := ServerLeavesFirst(u);
      var further := GoServers(u, n);
      assert Step(Run(u, further), GoClient).Fault?;
    }
  }

  lemma {:induction false} GoServers(s: State, n: nat) returns (schedule: seq<Move>)
    ensures Run(s, schedule) == Repeat(Step, s, GoServer, n) && Quiet(schedule)
  {
    schedule := [];
    if n > 0 {
      schedule := GoServers(s, n - 1);
      RunOneMore(Step, s, schedule, GoServer);
      schedule := schedule + [GoServer];
    }
  }

  /** It does happen: "quit" typed while the token of the line before is still in the FIFO. */
  lemma LastSignalCanFail(s: State) returns (schedule: seq<Move>)
    requires Init(s)
    ensures Run(s, schedule).client == Signal && Step(Run(s, schedule), GoClient).Fault?
  {
    CStrUpTo("a", 0, 1);
    CStrUpTo("quit", 0, 4);
    assert "a\n"[..1] == "a" && "quit\n"[..4] == QUIT;
    var line := Text("a\n");
    assert |line| == 1 && Text("quit\n") == QUIT && line != QUIT;
    hide CStr, Text;
    var s1 := s.(client := Signal, shm := line, stored := s.stored + [line]);
    var s2 := s1.(client := Compare, bytes := s1.bytes + TOKEN, signals := s1.signals + 1);
    var s3 := s2.(client := Input);
    assert Run(s, []) == s;
    schedule := Continue(Step, s, [], s, Type("a\n"), s1);
    schedule := Continue(Step, s, schedule, s1, GoClient, s2);
    schedule := Continue(Step, s, schedule, s2, GoClient, s3);
    LineFailsExactlyWhenQuitMeetsBusyServer(s, schedule, "quit\n");
    var u := Step(s3, Type("quit\n")).state;
    var further: seq<Move>, m :| Quiet(further) && Step(Run(u, further), m).Fault?;
    RunKeepsInv(s, schedule);
    StepKeepsInv(s3, Type("quit\n"));
    RunKeepsInv(u, further);
    StepKeepsInv(Run(u, further), m);
    schedule := Continue(Step, s, schedule, s3, Type("quit\n"), u);
    RunInTwoParts(Step, s, schedule, further);
    schedule := schedule + further;
  }
}
