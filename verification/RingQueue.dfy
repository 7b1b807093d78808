/**
  The ring queue as a transition system: any number of threads call push and pop in any
  interleaving.  A push and a pop hold different mutexes, so the two critical sections may
  overlap; only the two semaphores keep them apart.
 */
module RingQueueProtocol {
  import opened Prelude
  import opened Transitions
  import opened AtomicQueue

  /** Where a thread is.  The copy of an element into or out of a slot is not atomic: it has
      a beginning and an end, and while a push is copying, the slot holds junk. */
  datatype PC<T> =
    | Idle
    | PushWait(x: T)      // before space_sem.p()
    | PushReserved(x: T)  // before locking p_lock
    | PushLocked(x: T)    // before the copy into the slot
    | PushCopying(x: T)   // halfway through the copy
    | PushStored          // p_step incremented, not yet reduced modulo the size
    | PushWrapped         // before unlocking p_lock
    | PushReleased        // before data_sem.v()
    | PopWait             // before data_sem.p()
    | PopReserved         // before locking c_lock
    | PopLocked           // before the copy out of the slot
    | PopCopying          // halfway through the copy
    | PopLoaded(y: T)     // c_step incremented, not yet reduced modulo the size
    | PopWrapped(y: T)    // before unlocking c_lock
    | PopReleased(y: T)   // before space_sem.v()

  /** The shared variables, the program counters, and four histories: every value a caller
      passed to push, every value stored into a slot and every value loaded from one, in the
      order in which the copies ended, and every value pop returned. */
  datatype State<T> = State(
    slots: seq<T>, pStep: nat, cStep: nat,
    space: nat, data: nat,
    pLock: Option<nat>, cLock: Option<nat>,
    threads: seq<PC<T>>,
    accepted: seq<T>, written: seq<T>, taken: seq<T>, returned: seq<T>)

  /** What the scheduler lets a thread do: call an operation, or run its next instruction. */
  datatype Event<T> = CallPush(x: T) | CallPop | Go(junk: T)

  datatype Move<T> = Move(thread: nat, event: Event<T>)

  ghost predicate Init<T(!new)>(s: State<T>) {
    && s.pStep == 0 && s.cStep == 0
    && s.space == |s.slots| && s.data == 0
    && s.pLock == None && s.cLock == None
    && (forall i :: 0 <= i < |s.threads| ==> s.threads[i] == Idle)
    && s.accepted == [] && s.written == [] && s.taken == [] && s.returned == []
  }

  function At<T>(s: State<T>, i: nat, pc: PC<T>): State<T>
    requires i < |s.threads|
  {
    s.(threads := s.threads[i := pc])
  }

  function PushGo<T>(s: State<T>, i: nat, junk: T): Outcome<State<T>>
    requires i < |s.threads|
  {
    match s.threads[i]
    case PushWait(x) =>
      if s.space == 0 then Blocked
      else Next(At(s, i, PushReserved(x)).(space := s.space - 1))
    case PushReserved(x) =>
      if s.pLock.Some? then Blocked
      else Next(At(s, i, PushLocked(x)).(pLock := Some(i)))
    case PushLocked(x) =>
      if s.pStep >= |s.slots| then Fault
      else Next(At(s, i, PushCopying(x)).(slots := s.slots[s.pStep := junk]))
    case PushCopying(x) =>
      if s.pStep >= |s.slots| then Fault
      else Next(At(s, i, PushStored).(slots := s.slots[s.pStep := x], pStep := s.pStep + 1,
                                      written := s.written + [x]))
    case PushStored =>
      if s.slots == [] then Fault
      else Next(At(s, i, PushWrapped).(pStep := s.pStep % |s.slots|))
    case PushWrapped =>
      if s.pLock != Some(i) then Fault
      else Next(At(s, i, PushReleased).(pLock := None))
    case PushReleased =>
      Next(At(s, i, Idle).(data := s.data + 1))
    case _ => Blocked
  }

  function PopGo<T>(s: State<T>, i: nat): Outcome<State<T>>
    requires i < |s.threads|
  {
    match s.threads[i]
    case PopWait =>
      if s.data == 0 then Blocked
      else Next(At(s, i, PopReserved).(data := s.data - 1))
    case PopReserved =>
      if s.cLock.Some? then Blocked
      else Next(At(s, i, PopLocked).(cLock := Some(i)))
    case PopLocked =>
      if s.cStep >= |s.slots| then Fault
      else Next(At(s, i, PopCopying))
    case PopCopying =>
      if s.cStep >= |s.slots| then Fault
      else Next(At(s, i, PopLoaded(s.slots[s.cStep])).(cStep := s.cStep + 1,
                                                       taken := s.taken + [s.slots[s.cStep]]))
    case PopLoaded(y) =>
      if s.slots == [] then Fault
      else Next(At(s, i, PopWrapped(y)).(cStep := s.cStep % |s.slots|))
    case PopWrapped(y) =>
      if s.cLock != Some(i) then Fault
      else Next(At(s, i, PopReleased(y)).(cLock := None))
    case PopReleased(y) =>
      Next(At(s, i, Idle).(space := s.space + 1, returned := s.returned + [y]))
    case _ => Blocked
  }

  predicate InPush<T>(pc: PC<T>) {
    pc.PushWait? || pc.PushReserved? || pc.PushLocked? || pc.PushCopying? ||
    pc.PushStored? || pc.PushWrapped? || pc.PushReleased?
  }

  predicate InPop<T>(pc: PC<T>) {
    !pc.Idle? && !InPush(pc)
  }

  function Step<T>(s: State<T>, m: Move<T>): Outcome<State<T>> {
    if m.thread >= |s.threads| then Blocked
    else
      match m.event
      case CallPush(x) =>
        if s.threads[m.thread].Idle? then Next(At(s, m.thread, PushWait(x)).(accepted := s.accepted + [x]))
        else Blocked
      case CallPop => if s.threads[m.thread].Idle? then Next(At(s, m.thread, PopWait)) else Blocked
      case Go(junk) => if InPush(s.threads[m.thread]) then PushGo(s, m.thread, junk) else PopGo(s, m.thread)
  }

  function Run<T>(s: State<T>, schedule: seq<Move<T>>): State<T> {
    RunOf(Step, s, schedule)
  }

  // ---- the invariant ----

  /** A push that has taken a space token but not stored yet, or a pop that has loaded but not
      given the token back. */
  function HoldsSpace<T>(pc: PC<T>): nat {
    if pc.PushReserved? || pc.PushLocked? || pc.PushCopying? ||
       pc.PopLoaded? || pc.PopWrapped? || pc.PopReleased? then 1 else 0
  }

  /** The same for data tokens. */
  function HoldsData<T>(pc: PC<T>): nat {
    if pc.PushStored? || pc.PushWrapped? || pc.PushReleased? ||
       pc.PopReserved? || pc.PopLocked? || pc.PopCopying? then 1 else 0
  }

  predicate OwnsPLock<T>(pc: PC<T>) {
    pc.PushLocked? || pc.PushCopying? || pc.PushStored? || pc.PushWrapped?
  }

  predicate OwnsCLock<T>(pc: PC<T>) {
    pc.PopLocked? || pc.PopCopying? || pc.PopLoaded? || pc.PopWrapped?
  }

  /** The slot of the k-th element ever stored: one further round the ring for each element. */
  function Slot(k: nat, n: nat): (r: nat)
    ensures n > 0 ==> r < n
  {
    if k == 0 then 0
    else
      var next := Slot(k - 1, n) + 1;
      if next >= n then 0 else next
  }

  ghost predicate Tokens<T(!new)>(s: State<T>) {
    && |s.taken| <= |s.written|
    && s.space + Sum(s.threads, HoldsSpace) + (|s.written| - |s.taken|) == |s.slots|
    && s.data + Sum(s.threads, HoldsData) == |s.written| - |s.taken|
  }

  ghost predicate Locks<T(!new)>(s: State<T>) {
    && (s.pLock.Some? ==> s.pLock.value < |s.threads| && OwnsPLock(s.threads[s.pLock.value]))
    && (s.cLock.Some? ==> s.cLock.value < |s.threads| && OwnsCLock(s.threads[s.cLock.value]))
    && (forall i :: 0 <= i < |s.threads| && OwnsPLock(s.threads[i]) ==> s.pLock == Some(i))
    && (forall i :: 0 <= i < |s.threads| && OwnsCLock(s.threads[i]) ==> s.cLock == Some(i))
  }

  ghost predicate MidPush<T(!new)>(s: State<T>) {
    s.pLock.Some? && s.pLock.value < |s.threads| && s.threads[s.pLock.value].PushStored?
  }

  ghost predicate MidPop<T(!new)>(s: State<T>) {
    s.cLock.Some? && s.cLock.value < |s.threads| && s.threads[s.cLock.value].PopLoaded?
  }

  ghost predicate Indices<T(!new)>(s: State<T>) {
    && (if MidPush(s) then |s.written| > 0 && s.pStep == Slot(|s.written| - 1, |s.slots|) + 1
        else s.pStep == Slot(|s.written|, |s.slots|))
    && (if MidPop(s) then |s.taken| > 0 && s.cStep == Slot(|s.taken| - 1, |s.slots|) + 1
        else s.cStep == Slot(|s.taken|, |s.slots|))
  }

  ghost predicate Contents<T(!new)>(s: State<T>)
    requires |s.taken| <= |s.written| <= |s.taken| + |s.slots|
  {
    && s.taken == s.written[..|s.taken|]
    && forall k :: |s.taken| <= k < |s.written| ==> s.slots[Slot(k, |s.slots|)] == s.written[k]
  }

  ghost predicate Inv<T(!new)>(s: State<T>) {
    Tokens(s) && Locks(s) && Indices(s) && Contents(s)
  }

  lemma Gap(q: int, q': int, n: nat)
    requires q < q'
    ensures q * n + n <= q' * n
  {
    assert (q' - q - 1) * n >= 0;
    assert (q' - q - 1) * n == q' * n - q * n - n;
  }

  lemma QuotientUnique(n: nat, q: int, r: nat, q': int, r': nat)
    requires r < n && r' < n
    requires q * n + r == q' * n + r'
    ensures q == q' && r == r'
  {
    if q < q' {
      Gap(q, q', n);
    } else if q' < q {
      Gap(q', q, n);
    }
  }

  lemma ModUnique(a: nat, q: nat, r: nat, n: nat)
    requires r < n && a == q * n + r
    ensures a % n == r
  {
    var q', r' := a / n, a % n;
    assert a == q' * n + r';
    QuotientUnique(n, q, r, q', r');
  }

  lemma {:induction false} SlotIsModulo(k: nat, n: nat)
    requires n > 0
    ensures Slot(k, n) == k % n
  {
    if k == 0 {
      ModUnique(0, 0, 0, n);
    } else {
      SlotIsModulo(k - 1, n);
      var q, r := (k - 1) / n, (k - 1) % n;
      assert k - 1 == q * n + r;
      if r + 1 == n {
        assert (q + 1) * n == q * n + n;
        ModUnique(k, q + 1, 0, n);
      } else {
        ModUnique(k, q, r + 1, n);
      }
    }
  }

  lemma SlotInjective(a: nat, b: nat, n: nat)
    requires a < b < a + n
    ensures Slot(a, n) != Slot(b, n)
  {
    SlotIsModulo(a, n);
    SlotIsModulo(b, n);
    if a % n == b % n {
      var q, q', r := a / n, b / n, a % n;
      assert a == q * n + r && b == q' * n + r;
      assert b - a == (q' - q) * n by { assert (q' - q) * n == q' * n - q * n; }
      QuotientUnique(n, q' - q, 0, 0, b - a);
    }
  }

  lemma WrapAtEnd(step: nat, n: nat)
    requires 0 < n && step <= n
    ensures step % n == if step == n then 0 else step
  {
    ModUnique(step, if step == n then 1 else 0, if step == n then 0 else step, n);
  }

  // ---- the invariant is inductive ----

  lemma CountsMove<T(!new)>(s: State<T>, i: nat, pc: PC<T>)
    requires i < |s.threads|
    ensures var t := s.threads[i := pc];
      && Sum(t, HoldsSpace) + HoldsSpace(s.threads[i]) == Sum(s.threads, HoldsSpace) + HoldsSpace(pc)
      && Sum(t, HoldsData) + HoldsData(s.threads[i]) == Sum(s.threads, HoldsData) + HoldsData(pc)
    ensures HoldsSpace(s.threads[i]) <= Sum(s.threads, HoldsSpace)
    ensures HoldsData(s.threads[i]) <= Sum(s.threads, HoldsData)
  {
    SumUpdate(s.threads, i, pc, HoldsSpace);
    SumUpdate(s.threads, i, pc, HoldsData);
    SumAtLeast(s.threads, i, HoldsSpace);
    SumAtLeast(s.threads, i, HoldsData);
  }

  /** The slot a push is about to fill holds no unread element. */
  lemma FreeSlot<T(!new)>(s: State<T>)
    requires Inv(s) && |s.written| < |s.taken| + |s.slots|
    ensures forall k :: |s.taken| <= k < |s.written| ==> Slot(k, |s.slots|) != Slot(|s.written|, |s.slots|)
  {
    forall k | |s.taken| <= k < |s.written|
      ensures Slot(k, |s.slots|) != Slot(|s.written|, |s.slots|)
    {
      SlotInjective(k, |s.written|, |s.slots|);
    }
  }

  lemma PushKeepsTokens<T(!new)>(s: State<T>, i: nat, junk: T)
    requires Tokens(s) && i < |s.threads| && InPush(s.threads[i])
    ensures PushGo(s, i, junk).Next? ==> Tokens(PushGo(s, i, junk).state)
  {
    hide Sum;
    if PushGo(s, i, junk).Next? {
      CountsMove(s, i, PushGo(s, i, junk).state.threads[i]);
    }
  }

  /** Taking a lock, giving it back, or leaving both locks alone. */
  ghost predicate LocksPass<T(!new)>(s: State<T>, i: nat, s': State<T>)
    requires i < |s.threads|
  {
    && |s'.threads| == |s.threads| && s'.threads == s.threads[i := s'.threads[i]]
    && var pc, pc' := s.threads[i], s'.threads[i];
      && (OwnsPLock(pc) != OwnsPLock(pc') ==> s.pLock == (if OwnsPLock(pc) then Some(i) else None))
      && (OwnsCLock(pc) != OwnsCLock(pc') ==> s.cLock == (if OwnsCLock(pc) then Some(i) else None))
      && s'.pLock == (if OwnsPLock(pc) == OwnsPLock(pc') then s.pLock else if OwnsPLock(pc') then Some(i) else None)
      && s'.cLock == (if OwnsCLock(pc) == OwnsCLock(pc') then s.cLock else if OwnsCLock(pc') then Some(i) else None)
  }

  lemma PassingKeepsLocks<T(!new)>(s: State<T>, i: nat, s': State<T>)
    requires Locks(s) && i < |s.threads| && LocksPass(s, i, s')
    ensures Locks(s')
  {
    hide OwnsPLock, OwnsCLock;
  }

  lemma PushKeepsLocks<T(!new)>(s: State<T>, i: nat, junk: T)
    requires Locks(s) && i < |s.threads| && InPush(s.threads[i])
    ensures PushGo(s, i, junk).Next? ==> Locks(PushGo(s, i, junk).state)
  {
    if PushGo(s, i, junk).Next? {
      assert LocksPass(s, i, PushGo(s, i, junk).state) by { hide Locks; }
      hide PushGo, LocksPass;
      PassingKeepsLocks(s, i, PushGo(s, i, junk).state);
    }
  }

  lemma PushKeepsIndices<T(!new)>(s: State<T>, i: nat, junk: T)
    requires Tokens(s) && Locks(s) && Indices(s) && i < |s.threads| && InPush(s.threads[i])
    ensures PushGo(s, i, junk).Next? ==> Indices(PushGo(s, i, junk).state)
  {
    hide Sum;
    CountsMove(s, i, Idle);
    if s.threads[i].PushStored? {
      WrapAtEnd(s.pStep, |s.slots|);
    }
  }

  lemma PushKeepsContents<T(!new)>(s: State<T>, i: nat, junk: T)
    requires Inv(s) && i < |s.threads| && InPush(s.threads[i])
    requires PushGo(s, i, junk).Next? ==> Tokens(PushGo(s, i, junk).state)
    ensures PushGo(s, i, junk).Next? ==> Contents(PushGo(s, i, junk).state)
  {
    hide Sum;
    CountsMove(s, i, Idle);
    if s.threads[i].PushLocked? || s.threads[i].PushCopying? {
      FreeSlot(s);
    }
  }

  lemma PopKeepsTokens<T(!new)>(s: State<T>, i: nat)
    requires Tokens(s) && i < |s.threads| && InPop(s.threads[i])
    ensures PopGo(s, i).Next? ==> Tokens(PopGo(s, i).state)
  {
    hide Sum;
    if PopGo(s, i).Next? {
      CountsMove(s, i, PopGo(s, i).state.threads[i]);
    }
  }

  lemma PopKeepsLocks<T(!new)>(s: State<T>, i: nat)
    requires Locks(s) && i < |s.threads| && InPop(s.threads[i])
    ensures PopGo(s, i).Next? ==> Locks(PopGo(s, i).state)
  {
    if PopGo(s, i).Next? {
      assert LocksPass(s, i, PopGo(s, i).state) by { hide Locks; }
      hide PopGo, LocksPass;
      PassingKeepsLocks(s, i, PopGo(s, i).state);
    }
  }

  lemma PopKeepsIndices<T(!new)>(s: State<T>, i: nat)
    requires Tokens(s) && Locks(s) && Indices(s) && i < |s.threads| && InPop(s.threads[i])
    ensures PopGo(s, i).Next? ==> Indices(PopGo(s, i).state)
  {
    hide Sum;
    CountsMove(s, i, Idle);
    if s.threads[i].PopLoaded? {
      WrapAtEnd(s.cStep, |s.slots|);
    }
  }

  lemma PopKeepsContents<T(!new)>(s: State<T>, i: nat)
    requires Inv(s) && i < |s.threads| && InPop(s.threads[i])
    requires PopGo(s, i).Next? ==> Tokens(PopGo(s, i).state)
    ensures PopGo(s, i).Next? ==> Contents(PopGo(s, i).state)
  {
    hide Sum;
    CountsMove(s, i, Idle);
  }

  lemma StepKeepsInv<T(!new)>(s: State<T>, m: Move<T>)
    requires Inv(s)
    ensures !Step(s, m).Fault?
    ensures Step(s, m).Next? ==> Inv(Step(s, m).state)
  {
    if m.thread < |s.threads| {
      var i := m.thread;
      match m.event {
        case CallPush(x) =>
          if s.threads[i].Idle? {
            CallKeepsInv(s, i, PushWait(x), s.accepted + [x]);
          }
        case CallPop =>
          if s.threads[i].Idle? {
            CallKeepsInv(s, i, PopWait, s.accepted);
          }
        case Go(junk) =>
          if InPush(s.threads[i]) {
            PushNeverFaults(s, i, junk);
            PushKeepsTokens(s, i, junk);
            PushKeepsLocks(s, i, junk);
            PushKeepsIndices(s, i, junk);
            PushKeepsContents(s, i, junk);
          } else if InPop(s.threads[i]) {
            PopNeverFaults(s, i);
            PopKeepsTokens(s, i);
            PopKeepsLocks(s, i);
            PopKeepsIndices(s, i);
            PopKeepsContents(s, i);
          }
      }
    }
  }

  lemma StoresAt<T(!new)>(s: State<T>, i: nat, junk: T)
    requires Inv(s) && i < |s.threads| && s.threads[i].PushCopying?
    ensures s.pStep < |s.slots|
    ensures Step(s, Move(i, Go(junk))) == Next(s.(
      slots := s.slots[s.pStep := s.threads[i].x], pStep := s.pStep + 1,
      written := s.written + [s.threads[i].x], threads := s.threads[i := PushStored]))
  {
    PushNeverFaults(s, i, junk);
    hide Inv;
  }

  lemma CallKeepsInv<T(!new)>(s: State<T>, i: nat, pc: PC<T>, accepted: seq<T>)
    requires Inv(s) && i < |s.threads| && s.threads[i].Idle? && (pc.PushWait? || pc.PopWait?)
    ensures Inv(At(s, i, pc).(accepted := accepted))
  {
    hide Sum;
    CountsMove(s, i, pc);
  }

  lemma PushNeverFaults<T(!new)>(s: State<T>, i: nat, junk: T)
    requires Inv(s) && i < |s.threads| && InPush(s.threads[i])
    ensures !PushGo(s, i, junk).Fault?
  {
    hide Sum;
    CountsMove(s, i, Idle);
  }

  lemma PopNeverFaults<T(!new)>(s: State<T>, i: nat)
    requires Inv(s) && i < |s.threads| && InPop(s.threads[i])
    ensures !PopGo(s, i).Fault?
  {
    hide Sum;
    CountsMove(s, i, Idle);
  }

  lemma InitHasInv<T(!new)>(s: State<T>)
    requires Init(s)
    ensures Inv(s)
  {
    SumZero(s.threads, HoldsSpace);
    SumZero(s.threads, HoldsData);
  }

  lemma RunKeepsInv<T(!new)>(s: State<T>, schedule: seq<Move<T>>)
    requires Inv(s)
    ensures Inv(Run(s, schedule))
  {
    hide Inv, Step;
    forall t: State<T>, m | Inv(t) && Step(t, m).Next? ensures Inv(Step(t, m).state) {
      StepKeepsInv(t, m);
    }
    RunKeeps(Step, Inv, s, schedule);
  }

  // ---- the theorems, about every schedule of every number of threads ----

  /** No run indexes out of bounds, unlocks a mutex it does not own, or divides by zero. */
  lemma NoRunFaults<T(!new)>(s: State<T>, schedule: seq<Move<T>>, m: Move<T>)
    requires Init(s)
    ensures !Step(Run(s, schedule), m).Fault?
  {
    InitHasInv(s);
    RunKeepsInv(s, schedule);
    StepKeepsInv(Run(s, schedule), m);
  }

  /** The unread elements, read off the ring itself, oldest first. */
  ghost function Queue<T(!new)>(s: State<T>): (q: seq<T>)
    requires Inv(s)
    ensures |q| == |s.written| - |s.taken| <= |s.slots|
  {
    seq(|s.written| - |s.taken|, k requires 0 <= k < |s.written| - |s.taken| =>
      s.slots[Slot(|s.taken| + k, |s.slots|)])
  }

  lemma QueueIsUnread<T(!new)>(s: State<T>)
    requires Inv(s)
    ensures Queue(s) == s.written[|s.taken|..]
  {
  }

  function PhaseOf<T>(pc: PC<T>): Phase<T> {
    match pc
    case Idle => Outside
    case PushWait(x) => Pushing(x)
    case PushReserved(x) => Pushing(x)
    case PushLocked(x) => Pushing(x)
    case PushCopying(x) => Pushing(x)
    case PushStored => Pushed
    case PushWrapped => Pushed
    case PushReleased => Pushed
    case PopLoaded(y) => Popped(y)
    case PopWrapped(y) => Popped(y)
    case PopReleased(y) => Popped(y)
    case _ => Popping
  }

  /** The atomic queue that the ring stands for, its unread elements being given. */
  ghost function With<T(!new)>(s: State<T>, unread: seq<T>): Fifo<T> {
    Fifo(|s.slots|, unread, PhasesOf(s.threads, PhaseOf), s.accepted, s.written, s.taken, s.returned)
  }

  /** What the ring stands for, the elements read off the slots. */
  ghost function Abstract<T(!new)>(s: State<T>): Fifo<T>
    requires Inv(s)
  {
    With(s, Queue(s))
  }

  /** The same, read off the histories. */
  ghost function Unread<T(!new)>(s: State<T>): seq<T> {
    if |s.taken| <= |s.written| then s.written[|s.taken|..] else []
  }

  lemma AbstractIsUnread<T(!new)>(s: State<T>)
    requires Inv(s)
    ensures Abstract(s) == With(s, Unread(s)) && |s.taken| <= |s.written|
  {
    QueueIsUnread(s);
  }

  /** The linearization points: the end of the copy into a slot, carrying the value the caller
      passed to push, and the end of the copy out of one, carrying the value in the slot. */
  function MarkOf<T>(s: State<T>, m: Move<T>): Option<Mark<T>> {
    if m.thread >= |s.threads| then None
    else
      var i := m.thread;
      match m.event
      case CallPush(x) => Some(Mark(i, PushBegins(x)))
      case CallPop => Some(Mark(i, PopBegins))
      case Go(_) =>
        match s.threads[i]
        case PushCopying(x) => Some(Mark(i, Enqueues(x)))
        case PushReleased => Some(Mark(i, PushEnds))
        case PopCopying => if s.cStep < |s.slots| then Some(Mark(i, Dequeues(s.slots[s.cStep]))) else None
        case PopReleased(y) => Some(Mark(i, PopEnds(y)))
        case _ => None
  }

  lemma PushMoves<T(!new)>(s: State<T>, i: nat, junk: T, s': State<T>)
    requires i < |s.threads| && InPush(s.threads[i]) && PushGo(s, i, junk) == Next(s')
    ensures s'.threads == s.threads[i := s'.threads[i]] && |s'.slots| == |s.slots|
    ensures s'.accepted == s.accepted && s'.taken == s.taken && s'.returned == s.returned
    ensures match s.threads[i]
      case PushCopying(x) => s'.written == s.written + [x] && s'.threads[i] == PushStored
      case PushReleased => s'.written == s.written && s'.threads[i] == Idle
      case pc => s'.written == s.written && PhaseOf(s'.threads[i]) == PhaseOf(pc)
  {
  }

  lemma PopMoves<T(!new)>(s: State<T>, i: nat, s': State<T>)
    requires i < |s.threads| && !InPush(s.threads[i]) && PopGo(s, i) == Next(s')
    ensures s'.threads == s.threads[i := s'.threads[i]] && |s'.slots| == |s.slots|
    ensures s'.accepted == s.accepted && s'.written == s.written
    ensures match s.threads[i]
      case PopCopying =>
        s.cStep < |s.slots| && s'.taken == s.taken + [s.slots[s.cStep]] && s'.returned == s.returned &&
        s'.threads[i] == PopLoaded(s.slots[s.cStep])
      case PopReleased(y) => s'.taken == s.taken && s'.returned == s.returned + [y] && s'.threads[i] == Idle
      case pc => s'.taken == s.taken && s'.returned == s.returned && PhaseOf(s'.threads[i]) == PhaseOf(pc)
  {
  }

  lemma RoomToStore<T(!new)>(s: State<T>, i: nat)
    requires Inv(s) && i < |s.threads| && s.threads[i].PushCopying?
    ensures |s.written| < |s.taken| + |s.slots|
  {
    hide Sum;
    CountsMove(s, i, Idle);
  }

  lemma OldestInSlot<T(!new)>(s: State<T>, i: nat)
    requires Inv(s) && i < |s.threads| && s.threads[i].PopCopying?
    ensures s.cStep < |s.slots| && |s.taken| < |s.written| && s.slots[s.cStep] == s.written[|s.taken|]
  {
    hide Sum;
    CountsMove(s, i, Idle);
  }

  lemma PushIsSimulated<T(!new)>(s: State<T>, i: nat, junk: T, s': State<T>)
    requires Inv(s) && i < |s.threads| && InPush(s.threads[i]) && PushGo(s, i, junk) == Next(s')
    ensures Simulated(With(s, Unread(s)), MarkOf(s, Move(i, Go(junk))), With(s', Unread(s')))
  {
    AbstractIsUnread(s);
    if s.threads[i].PushCopying? {
      RoomToStore(s, i);
      assert (s.written + [s.threads[i].x])[|s.taken|..] == s.written[|s.taken|..] + [s.threads[i].x];
    }
    PushMoves(s, i, junk, s');
    PhasesMove(s.threads, PhaseOf, i, s'.threads[i]);
    hide Inv, PushGo, PhasesOf;
  }

  lemma PopIsSimulated<T(!new)>(s: State<T>, i: nat, junk: T, s': State<T>)
    requires Inv(s) && i < |s.threads| && !InPush(s.threads[i]) && PopGo(s, i) == Next(s')
    ensures Simulated(With(s, Unread(s)), MarkOf(s, Move(i, Go(junk))), With(s', Unread(s')))
  {
    AbstractIsUnread(s);
    if s.threads[i].PopCopying? {
      OldestInSlot(s, i);
      assert s.written[|s.taken| + 1..] == s.written[|s.taken|..][1..];
    }
    PopMoves(s, i, s');
    PhasesMove(s.threads, PhaseOf, i, s'.threads[i]);
    hide Inv, PopGo, PhasesOf;
  }

  lemma StepIsSimulated<T(!new)>(s: State<T>, m: Move<T>)
    requires Inv(s) && Step(s, m).Next?
    ensures Simulated(With(s, Unread(s)), MarkOf(s, m), With(Step(s, m).state, Unread(Step(s, m).state)))
  {
    var s' := Step(s, m).state;
    hide Inv, PushGo, PopGo;
    if m.event.Go? {
      hide Simulated, Unread, With;
      if InPush(s.threads[m.thread]) {
        PushIsSimulated(s, m.thread, m.event.junk, s');
      } else {
        PopIsSimulated(s, m.thread, m.event.junk, s');
      }
    } else {
      PhasesMove(s.threads, PhaseOf, m.thread, s'.threads[m.thread]);
      hide PhasesOf;
    }
  }

  /** What can be seen of a run: when calls begin, take effect and end. */
  ghost function Trace<T(!new)>(s: State<T>, schedule: seq<Move<T>>): seq<Mark<T>> {
    TraceOf(Step, MarkOf, s, schedule)
  }

  /** Every run is one of the atomic queue: whatever is seen of it, the atomic queue can do, and
      it then holds what can be read off the ring. */
  lemma RunRefinesBoundedFifo<T(!new)>(s: State<T>, schedule: seq<Move<T>>)
    requires Init(s)
    ensures Inv(s) && Inv(Run(s, schedule))
    ensures Fresh(Abstract(s)) && Possible(Abstract(s), Trace(s, schedule))
    ensures Final(Abstract(s), Trace(s, schedule)) == Abstract(Run(s, schedule))
  {
    InitHasInv(s);
    RunKeepsInv(s, schedule);
    AbstractIsUnread(s);
    AbstractIsUnread(Run(s, schedule));
    hide Inv, Step, MarkOf, Unread, With, Abstract;
    forall t: State<T>, m | Inv(t) && Step(t, m).Next?
      ensures var u := Step(t, m).state;
        Inv(u) && Simulated(With(t, Unread(t)), MarkOf(t, m), With(u, Unread(u)))
    {
      StepKeepsInv(t, m);
      StepIsSimulated(t, m);
    }
    RunIsSimulated(Step, MarkOf, Inv, (t: State<T>) => With(t, Unread(t)), s, schedule);
    InitIsFresh(s);
  }

  lemma InitIsFresh<T(!new)>(s: State<T>)
    requires Init(s)
    ensures Fresh(With(s, Unread(s)))
  {
  }

  /** Linearizability: every call that has returned took effect exactly once, at a moment e
      between its beginning c and its end r, with its own argument or with the value that it
      returned, and before every call that begins after r; and the effects so far, in their
      order, are those of a sequential bounded FIFO. */
  lemma RunIsLinearizable<T(!new)>(s: State<T>, schedule: seq<Move<T>>, r: nat) returns (c: nat, e: nat)
    requires Init(s) && r < |Trace(s, schedule)|
    requires Trace(s, schedule)[r].act.PushEnds? || Trace(s, schedule)[r].act.PopEnds?
    ensures IsCall(Trace(s, schedule), c, e, r)
    ensures forall c', e', r' :: IsCall(Trace(s, schedule), c', e', r') && r < c' ==> e < e'
    ensures Inv(Run(s, schedule))
    ensures Sequential(|s.slots|, Trace(s, schedule)) == Some(Queue(Run(s, schedule)))
  {
    RunRefinesBoundedFifo(s, schedule);
    EffectsAreSequential(Abstract(s), Trace(s, schedule));
    c, e := EveryCallTakesEffectOnce(Abstract(s), Trace(s, schedule), r);
  }

  /** Between the callers and the ring no value is lost, duplicated or made up: once nobody is
      inside an operation, what was pushed is what was returned and what is still queued. */
  lemma NothingLostOrMadeUp<T(!new)>(s: State<T>, schedule: seq<Move<T>>)
    requires Init(s) && forall i :: 0 <= i < |Run(s, schedule).threads| ==> Run(s, schedule).threads[i].Idle?
    ensures var t := Run(s, schedule);
      Inv(t) && multiset(t.accepted) == multiset(t.returned) + multiset(Queue(t))
  {
    RunRefinesBoundedFifo(s, schedule);
    NothingLost(Abstract(s), Trace(s, schedule));
  }

  /** The values popped so far are, in order, the first of the values pushed so far; the queue
      never holds more than its capacity; and it does not shrink, grow or move in memory. */
  lemma RunIsFirstInFirstOut<T(!new)>(s: State<T>, schedule: seq<Move<T>>)
    requires Init(s)
    ensures var t := Run(s, schedule);
      && |t.taken| <= |t.written| <= |t.taken| + |s.slots|
      && t.taken == t.written[..|t.taken|]
  {
    InitHasInv(s);
    RunKeepsInv(s, schedule);
    RunKeepsSize(s, schedule);
  }

  lemma {:induction false} RunKeepsSize<T(!new)>(s: State<T>, schedule: seq<Move<T>>)
    ensures var t := Run(s, schedule); |t.slots| == |s.slots| && |t.threads| == |s.threads|
  {
    RunKeeps(Step, (t: State<T>) => |t.slots| == |s.slots| && |t.threads| == |s.threads|, s, schedule);
  }

  /** While a push is filling a slot, no pop is emptying that slot, no other push is filling
      any slot, and the slot holds no unread element; and dually for a pop. */
  lemma CopiesNeverCollide<T(!new)>(s: State<T>, schedule: seq<Move<T>>, i: nat, j: nat)
    requires Init(s) && i < |s.threads| && j < |s.threads| && i != j
    ensures var t := Run(s, schedule);
      |t.threads| == |s.threads| &&
      (t.threads[i].PushLocked? || t.threads[i].PushCopying? ==>
        && (t.threads[j].PopLocked? || t.threads[j].PopCopying? ==> t.pStep != t.cStep)
        && !OwnsPLock(t.threads[j])
        && (forall k :: |t.taken| <= k < |t.written| ==> t.pStep != Slot(k, |t.slots|))) &&
      (t.threads[i].PopLocked? || t.threads[i].PopCopying? ==>
        && !OwnsCLock(t.threads[j])
        && t.cStep < |t.slots| && |t.taken| < |t.written| && t.slots[t.cStep] == t.written[|t.taken|])
  {
    InitHasInv(s);
    RunKeepsInv(s, schedule);
    RunKeepsSize(s, schedule);
    var t := Run(s, schedule);
    CountsMove(t, i, Idle);
    CountsMove(t, j, Idle);
    hide Sum;
    if t.threads[i].PushLocked? || t.threads[i].PushCopying? {
      FreeSlot(t);
    }
  }

  /** Between p and v: exactly the calls that hold one token of either kind. */
  function InFlight<T>(pc: PC<T>): nat {
    if pc.Idle? || pc.PushWait? || pc.PopWait? then 0 else 1
  }

  lemma {:induction false} InFlightSplits<T(!new)>(threads: seq<PC<T>>)
    ensures Sum(threads, InFlight) == Sum(threads, HoldsSpace) + Sum(threads, HoldsData)
  {
    if threads != [] {
      InFlightSplits(threads[..|threads| - 1]);
    }
  }

  /** No token is ever lost or made up. */
  lemma TokensAreConserved<T(!new)>(s: State<T>, schedule: seq<Move<T>>)
    requires Init(s)
    ensures var t := Run(s, schedule);
      t.space + t.data + Sum(t.threads, InFlight) == |s.slots|
  {
    InitHasInv(s);
    RunKeepsInv(s, schedule);
    RunKeepsSize(s, schedule);
    InFlightSplits(Run(s, schedule).threads);
  }

  ghost predicate CanGo<T(!new)>(s: State<T>, i: nat, junk: T) {
    Step(s, Move(i, Go(junk))).Next?
  }

  ghost predicate AllStuck<T(!new)>(s: State<T>, junk: T) {
    forall i: nat :: !CanGo(s, i, junk)
  }

  /** A thread between p and v is never the reason for a standstill. */
  lemma InFlightMeansProgress<T(!new)>(s: State<T>, i: nat, junk: T) returns (k: nat)
    requires Inv(s) && i < |s.threads| && InFlight(s.threads[i]) == 1
    ensures CanGo(s, k, junk)
  {
    StepKeepsInv(s, Move(i, Go(junk)));
    k := i;
    if s.threads[i].PushReserved? && s.pLock.Some? {
      k := s.pLock.value;
    } else if s.threads[i].PopReserved? && s.cLock.Some? {
      k := s.cLock.value;
    }
    StepKeepsInv(s, Move(k, Go(junk)));
  }

  /** Exactly when nothing can move: every call in progress is at its first semaphore, pushes
      only because the queue is full and pops only because it is empty. */
  lemma StuckExactlyWhenFullOrEmpty<T(!new)>(s: State<T>, schedule: seq<Move<T>>, junk: T)
    requires Init(s)
    ensures var t := Run(s, schedule);
      && Inv(t)
      && (AllStuck(t, junk) <==>
           forall i :: 0 <= i < |t.threads| ==>
             || t.threads[i].Idle?
             || (t.threads[i].PushWait? && |Queue(t)| == |t.slots|)
             || (t.threads[i].PopWait? && |Queue(t)| == 0))
  {
    InitHasInv(s);
    RunKeepsInv(s, schedule);
    StuckCondition(Run(s, schedule), junk);
  }

  lemma StuckCondition<T(!new)>(s: State<T>, junk: T)
    requires Inv(s)
    ensures AllStuck(s, junk) <==>
           forall i :: 0 <= i < |s.threads| ==>
             || s.threads[i].Idle?
             || (s.threads[i].PushWait? && |Queue(s)| == |s.slots|)
             || (s.threads[i].PopWait? && |Queue(s)| == 0)
  {
    if exists i :: 0 <= i < |s.threads| && InFlight(s.threads[i]) == 1 {
      var i :| 0 <= i < |s.threads| && InFlight(s.threads[i]) == 1;
      var k := InFlightMeansProgress(s, i, junk);
    } else {
      forall i | 0 <= i < |s.threads| ensures HoldsSpace(s.threads[i]) == 0 && HoldsData(s.threads[i]) == 0 {
        assert InFlight(s.threads[i]) == 0;
      }
      SumZero(s.threads, HoldsSpace);
      SumZero(s.threads, HoldsData);
      assert forall i: nat :: i < |s.threads| && !s.threads[i].Idle? ==>
        (CanGo(s, i, junk) <==> if s.threads[i].PushWait? then s.space > 0 else s.data > 0);
    }
  }

  /** With room for at least one element, a pending push and a pending pop never block each other. */
  lemma PushAndPopNeverDeadlock<T(!new)>(s: State<T>, schedule: seq<Move<T>>, i: nat, j: nat, junk: T)
    requires Init(s) && |s.slots| >= 1
    requires i < |Run(s, schedule).threads| && j < |Run(s, schedule).threads|
    requires InPush(Run(s, schedule).threads[i]) && InPop(Run(s, schedule).threads[j])
    ensures !AllStuck(Run(s, schedule), junk)
  {
    StuckExactlyWhenFullOrEmpty(s, schedule, junk);
    RunKeepsSize(s, schedule);
  }

  // ---- every run ends ----

  function Weight<T>(pc: PC<T>): nat {
    match pc
    case Idle => 0
    case PushWait(_) => 7
    case PushReserved(_) => 6
    case PushLocked(_) => 5
    case PushCopying(_) => 4
    case PushStored => 3
    case PushWrapped => 2
    case PushReleased => 1
    case PopWait => 7
    case PopReserved => 6
    case PopLocked => 5
    case PopCopying => 4
    case PopLoaded(_) => 3
    case PopWrapped(_) => 2
    case PopReleased(_) => 1
  }

  /** What a move may add to the total weight, counting the move itself. */
  function Cost<T>(m: Move<T>): nat {
    if m.event.Go? then 0 else 8
  }

  lemma PushLowersWeight<T(!new)>(s: State<T>, i: nat, junk: T, s': State<T>)
    requires i < |s.threads| && PushGo(s, i, junk) == Next(s')
    ensures s'.threads == s.threads[i := s'.threads[i]] && Weight(s'.threads[i]) == Weight(s.threads[i]) - 1
  {
  }

  lemma PopLowersWeight<T(!new)>(s: State<T>, i: nat, s': State<T>)
    requires i < |s.threads| && PopGo(s, i) == Next(s')
    ensures s'.threads == s.threads[i := s'.threads[i]] && Weight(s'.threads[i]) == Weight(s.threads[i]) - 1
  {
  }

  /** Each instruction of a call brings the call one step nearer to its end. */
  lemma StepLowersWeight<T(!new)>(s: State<T>, m: Move<T>, s': State<T>)
    requires Step(s, m) == Next(s')
    ensures 1 + Sum(s'.threads, Weight) == Sum(s.threads, Weight) + Cost(m)
  {
    hide Sum, PushGo, PopGo;
    if m.event.Go? {
      if InPush(s.threads[m.thread]) {
        PushLowersWeight(s, m.thread, m.event.junk, s');
      } else {
        PopLowersWeight(s, m.thread, s');
      }
      hide Weight;
    }
    SumUpdate(s.threads, m.thread, s'.threads[m.thread], Weight);
  }

  lemma {:induction false} RunLowersWeight<T(!new)>(s: State<T>, schedule: seq<Move<T>>)
    requires IsEffective(Step, s, schedule)
    ensures |schedule| + Sum(Run(s, schedule).threads, Weight) == Sum(s.threads, Weight) + TotalCost(Cost, schedule)
  {
    if schedule != [] {
      hide Step, Sum;
      var last := |schedule| - 1;
      RunLowersWeight(s, schedule[..last]);
      StepLowersWeight(Run(s, schedule[..last]), schedule[last], Run(s, schedule));
    }
  }

  /** No run has more than eight moves for each call in it. */
  lemma EveryRunEnds<T(!new)>(s: State<T>, schedule: seq<Move<T>>)
    requires Init(s) && IsEffective(Step, s, schedule)
    ensures |schedule| <= TotalCost(Cost, schedule)
    ensures |schedule| == TotalCost(Cost, schedule) <==>
            forall i :: 0 <= i < |Run(s, schedule).threads| ==> Run(s, schedule).threads[i].Idle?
  {
    NoWeightMeansIdle(s.threads);
    RunLowersWeight(s, schedule);
    hide Run, Sum, TotalCost, IsEffective;
    NoWeightMeansIdle(Run(s, schedule).threads);
  }

  lemma NoWeightMeansIdle<T(!new)>(threads: seq<PC<T>>)
    ensures Sum(threads, Weight) == 0 <==> forall i :: 0 <= i < |threads| ==> threads[i].Idle?
  {
    hide Sum;
    if i :| 0 <= i < |threads| && !threads[i].Idle? {
      SumAtLeast(threads, i, Weight);
    } else {
      SumZero(threads, Weight);
    }
  }

  // ---- a call that nobody disturbs ----

  /** Where a push, or a pop that loads y, is after k instructions. */
  function PushPoint<T>(x: T, k: nat): PC<T> {
    if k == 0 then PushWait(x) else if k == 1 then PushReserved(x) else if k == 2 then PushLocked(x)
    else if k == 3 then PushCopying(x) else if k == 4 then PushStored else if k == 5 then PushWrapped
    else if k == 6 then PushReleased else Idle
  }

  function PopPoint<T>(y: T, k: nat): PC<T> {
    if k == 0 then PopWait else if k == 1 then PopReserved else if k == 2 then PopLocked
    else if k == 3 then PopCopying else if k == 4 then PopLoaded(y) else if k == 5 then PopWrapped(y)
    else if k == 6 then PopReleased(y) else Idle
  }

  lemma PushProceeds<T(!new)>(s: State<T>, i: nat, junk: T, x: T, k: nat)
    requires Inv(s) && i < |s.threads| && k < 7 && s.threads[i] == PushPoint(x, k)
    requires (k == 0 ==> s.space > 0) && (k == 1 ==> s.pLock.None?)
    ensures var o := Step(s, Move(i, Go(junk)));
      && o.Next? && Inv(o.state) && o.state.threads == s.threads[i := PushPoint(x, k + 1)]
      && o.state.pLock == (if k == 1 then Some(i) else if k == 5 then None else s.pLock)
      && o.state.written == (if k == 3 then s.written + [x] else s.written)
      && o.state.space == (if k == 0 then s.space - 1 else s.space)
      && o.state.data == (if k == 6 then s.data + 1 else s.data)
      && o.state.accepted == s.accepted && o.state.taken == s.taken && o.state.returned == s.returned
  {
    StepKeepsInv(s, Move(i, Go(junk)));
    hide Inv, PopGo;
  }

  lemma PopProceeds<T(!new)>(s: State<T>, i: nat, junk: T, y: T, k: nat)
    requires Inv(s) && i < |s.threads| && k < 7 && s.threads[i] == PopPoint(y, k)
    requires (k == 0 ==> s.data > 0) && (k == 1 ==> s.cLock.None?)
    requires k == 3 ==> |s.taken| < |s.written| && y == s.written[|s.taken|]
    ensures var o := Step(s, Move(i, Go(junk)));
      && o.Next? && Inv(o.state) && o.state.threads == s.threads[i := PopPoint(y, k + 1)]
      && o.state.cLock == (if k == 1 then Some(i) else if k == 5 then None else s.cLock)
      && o.state.taken == (if k == 3 then s.taken + [y] else s.taken)
      && o.state.data == (if k == 0 then s.data - 1 else s.data)
      && o.state.space == (if k == 6 then s.space + 1 else s.space)
      && o.state.returned == (if k == 6 then s.returned + [y] else s.returned)
      && o.state.accepted == s.accepted && o.state.written == s.written
  {
    StepKeepsInv(s, Move(i, Go(junk)));
    if k == 3 {
      OldestInSlot(s, i);
    }
    hide Inv, PushGo;
  }

  /** t is s after k instructions of the push of thread i. */
  ghost predicate PushedFor<T(!new)>(s: State<T>, i: nat, k: nat, t: State<T>)
    requires i < |s.threads| && s.threads[i].PushWait?
  {
    && Inv(t) && t.threads == s.threads[i := PushPoint(s.threads[i].x, k)]
    && t.pLock == (if 2 <= k <= 5 then Some(i) else None)
    && t.written == (if k < 4 then s.written else s.written + [s.threads[i].x])
    && t.space == (if k < 1 then s.space else s.space - 1)
    && t.data == (if k < 7 then s.data else s.data + 1)
    && t.accepted == s.accepted && t.taken == s.taken && t.returned == s.returned
  }

  /** t is s after k instructions of the pop of thread i. */
  ghost predicate PoppedFor<T(!new)>(s: State<T>, i: nat, k: nat, t: State<T>)
    requires i < |s.threads| && |s.taken| < |s.written|
  {
    var y := s.written[|s.taken|];
    && Inv(t) && t.threads == s.threads[i := PopPoint(y, k)]
    && t.cLock == (if 2 <= k <= 5 then Some(i) else None)
    && t.taken == (if k < 4 then s.taken else s.taken + [y])
    && t.data == (if k < 1 then s.data else s.data - 1)
    && t.space == (if k < 7 then s.space else s.space + 1)
    && t.returned == (if k < 7 then s.returned else s.returned + [y])
    && t.accepted == s.accepted && t.written == s.written
  }

  lemma PushStepAlone<T(!new)>(s: State<T>, i: nat, junk: T, k: nat, t: State<T>)
    requires i < |s.threads| && s.threads[i].PushWait? && s.space > 0 && k < 7 && PushedFor(s, i, k, t)
    ensures Step(t, Move(i, Go(junk))).Next? && PushedFor(s, i, k + 1, Step(t, Move(i, Go(junk))).state)
  {
    PushProceeds(t, i, junk, s.threads[i].x, k);
    hide Inv, Step, PushPoint;
  }

  lemma PopStepAlone<T(!new)>(s: State<T>, i: nat, junk: T, k: nat, t: State<T>)
    requires i < |s.threads| && |s.taken| < |s.written| && s.data > 0 && k < 7 && PoppedFor(s, i, k, t)
    ensures Step(t, Move(i, Go(junk))).Next? && PoppedFor(s, i, k + 1, Step(t, Move(i, Go(junk))).state)
  {
    PopProceeds(t, i, junk, s.written[|s.taken|], k);
    hide Inv, Step, PopPoint;
  }

  lemma SomethingToTake<T(!new)>(s: State<T>)
    requires Inv(s) && s.data > 0
    ensures |s.taken| < |s.written|
  {
  }

  lemma PushIsAt<T(!new)>(s: State<T>, i: nat, k: nat, t: State<T>)
    requires i < |s.threads| && s.threads[i].PushWait? && k < 7 && PushedFor(s, i, k, t)
    ensures i < |t.threads| && InPush(t.threads[i])
  {
    hide Inv;
  }

  lemma PopIsAt<T(!new)>(s: State<T>, i: nat, k: nat, t: State<T>)
    requires i < |s.threads| && |s.taken| < |s.written| && k < 7 && PoppedFor(s, i, k, t)
    ensures i < |t.threads| && InPop(t.threads[i]) && (k == 6 ==> t.threads[i].PopReleased?)
  {
    hide Inv;
  }

  /** A push that nobody disturbs adds its value at the end and leaves everybody where they were. */
  lemma PushAlone<T(!new)>(s: State<T>, i: nat, x: T, called: State<T>, t: State<T>)
    requires Inv(s) && i < |s.threads| && s.threads[i].Idle?
    requires called == At(s, i, PushWait(x)).(accepted := s.accepted + [x]) && PushedFor(called, i, 7, t)
    ensures t.threads == s.threads && t.accepted == called.accepted && t.returned == s.returned
    ensures Inv(t) && Queue(t) == Queue(s) + [x] && t.space == s.space - 1 && t.data == s.data + 1
  {
    QueueIsUnread(s);
    QueueIsUnread(t);
    hide Inv, Queue;
  }

  /** A pop that nobody disturbs returns the oldest value. */
  lemma PopAlone<T(!new)>(s: State<T>, i: nat, called: State<T>, t: State<T>, y: T)
    requires Inv(s) && i < |s.threads| && s.threads[i].Idle? && |s.taken| < |s.written|
    requires called == At(s, i, PopWait) && PoppedFor(called, i, 7, t) && t.returned == s.returned + [y]
    ensures t.threads == s.threads && t.accepted == s.accepted
    ensures Inv(t) && Queue(s) == [y] + Queue(t) && t.data == s.data - 1 && t.space == s.space + 1
  {
    QueueIsUnread(s);
    QueueIsUnread(t);
    hide Inv, Queue;
    assert (s.returned + [y])[|s.returned|] == y;
  }

  lemma CallKeepsQueue<T(!new)>(s: State<T>, i: nat, pc: PC<T>, accepted: seq<T>)
    requires Inv(s) && i < |s.threads| && s.threads[i].Idle? && (pc.PushWait? || pc.PopWait?)
    ensures var t := At(s, i, pc).(accepted := accepted); Inv(t) && Queue(t) == Queue(s)
  {
    CallKeepsInv(s, i, pc, accepted);
    hide Inv;
  }
}
