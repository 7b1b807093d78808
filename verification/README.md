# Concurrency exercises: a verified model

This project models the programs of the repository that hold real protocols, and proves what
each of them keeps for any number of threads or processes, any capacity and every schedule.

| files | program |
|---|---|
| `RingQueue.dfy`, `RingQueueCode.dfy` | the ring queue with two semaphores and two mutexes |
| `BlockQueue.dfy`, `BlockQueueCode.dfy` | the bounded queue with two condition variables |
| `ThreadPool.dfy`, `Singleton.dfy`, `ThreadPoolCode.dfy` | the thread pool, and its double-checked lazy creation |
| `Commands.dfy`, `ProcessPool.dfy`, `ProcessPoolInTurn.dfy`, `ProcessPoolCode.dfy` | the process pool: pipes, forked children, descriptor tables |
| `ShellSyntax.dfy`, `CString.dfy`, `ShellCode.dfy` | the shell's front end: redirection, strtok, the argument vector |
| `OddEven.dfy`, `OddEvenCode.dfy` | two threads printing odd and even numbers in turns |
| `ShmPipe.dfy`, `ShmPipeCode.dfy` | shared memory gated by a FIFO |
| `AtomicQueue.dfy` | the atomic bounded FIFO that both queues refine, and what follows from that |
| `Transitions.dfy`, `Prelude.dfy` | runs of a transition system, and sums over threads |

Each concurrent program appears twice. A `...Protocol` module is its transition system: a state
with one program counter per thread, a function `Step` that makes one instruction of one thread,
blocks, or yields `Fault` where the program would have undefined behaviour or fail an assert, and
`Run`, which folds a schedule with the runner of `Transitions`. The theorems speak about `Run(s, schedule)` for an initial `s` and
an arbitrary schedule. The `...Code` module is the program's own object, with the fields that it
updates in place; each method makes one instruction of one thread and its contract says that this
is the corresponding `Step`. The `Whole...` methods make all instructions of a call that nobody
disturbs. Memory is sequentially consistent. Histories (everything pushed,
popped, sent, printed) are part of the state and are not read by any instruction.

The shell is sequential: its buffer and its argument vector are arrays that the methods write to,
and the meaning of a command line is given by the functions of `ShellSyntax`.

## Where the code differs from what it is expected to do

- Process pool: the comment before the class calls the inherited descriptors a small problem that
  does not matter. That is so because all write ends are closed before the first wait: no child
  leaves before the last slot is closed (`ReverseCascade`), and closing and waiting slot by slot
  would work only for one child (`InTurnFinishesExactlyWithoutSecondChild`). The closing and
  waiting loops cannot be reached in the code as it stands, since the dispatch loop has no exit;
  the model lets a shutdown follow any sequence of dispatched commands.
- Blocking queue: a consumer can sleep for good beside `capacity/2 - 1` items when no producer
  comes back (`StrandingBoundIsExact`), and a queue of capacity zero deadlocks
  (`DeadlockExactlyWithoutCapacity`). The bounds on what lies beside a sleeper are exceeded, by
  one, between a store or a take and its signal (`OwedPushExceedsBound`, `OwedPopExceedsBound`),
  and at no other program point (`ConsumersBoundedExactlyWithoutOwedPush`,
  `ProducersBoundedExactlyWithoutOwedPop`).
- Thread pool: in the same way a task can be queued beside sleeping workers only, between the
  store and the signal of `pushTask` (`OwedSignalExceedsBound`), and at no other program point
  (`NoWorkExactlyWithoutOwedSignal`).
- Odd/even printer: because the loop test is made without the mutex, the numbers can run up to
  `n` instead of `n - 1`; `OvershootExactlyWhenTestedEarly` says exactly when.
- Shared memory: the server prints the memory and then compares it, and the client may store a
  line in between. So the server can leave on a `quit` whose token has not been sent, and the
  client's last signal then meets a FIFO without a reader (a run is in `LastSignalCanFail`).
  Typing `quit` is safe exactly when the server waits at an empty FIFO, and any other line always
  is (`LineFailsExactlyWhenQuitMeetsBusyServer`).
- Shell: a line that begins with a NUL makes the program write, and one whose only operator is a
  `>` at its very beginning makes it read, the byte before its buffer; a line without any word makes it compare a null pointer; a vector that
  needs more than 32 entries, its final null included, overruns the array. `ParseLine` says which
  lines do, and what all the others give.

## Model

| member | source | states |
|---|---|---|
| `RingQueueProtocol.SlotIsModulo` | 0208/RingQueue/ringQueue.hpp:45-46 | walking round the ring slot by slot is taking the count modulo the size |
| `RingQueueProtocol.StepKeepsInv` | 0208/RingQueue/ringQueue.hpp:37-60 | every instruction of every thread keeps the token counts, lock ownership, indices and unread slots consistent, and none is undefined |
| `RingQueueProtocol.NoRunFaults` | 0208/RingQueue/ringQueue.hpp:42-59 | no schedule leads to an index out of bounds, a modulo by zero or an unlock by a stranger |
| `RingQueueProtocol.RunRefinesBoundedFifo` | 0208/RingQueue/ringQueue.hpp:37-60 | every run, seen by when calls begin, take effect and end, is a run of an atomic FIFO of the given capacity with the same callers, which holds the elements read off the ring; the ends of the two copies are the moments of effect |
| `RingQueueProtocol.RunIsLinearizable` | 0208/RingQueue/ringQueue.hpp:37-60 | each call that returned took effect exactly once between its beginning and its end, with its own argument or result, before every call begun after its end; and all effects in their order are those of a sequential bounded FIFO |
| `RingQueueProtocol.RunIsFirstInFirstOut` | 0208/RingQueue/ringQueue.hpp:37-60 | the values loaded are, in order, the first of the values stored, and at most a ringful is unread |
| `RingQueueProtocol.NothingLostOrMadeUp` | 0208/RingQueue/ringQueue.hpp:37-60 | once all calls are over, what callers passed to push is what pop returned plus what is queued |
| `RingQueueProtocol.CopiesNeverCollide` | 0208/RingQueue/ringQueue.hpp:42-59 | a push and a pop in their critical sections use different slots, two pushes are never there together, and a slot being filled holds no unread element |
| `RingQueueProtocol.TokensAreConserved` | 0208/RingQueue/ringQueue.hpp:42-59 | free tokens, data tokens and calls between p and v always add up to the capacity |
| `RingQueueProtocol.StuckExactlyWhenFullOrEmpty` | 0208/RingQueue/ringQueue.hpp:42-59 | nothing can move if and only if every pending call is at its first semaphore, pushes with a full queue and pops with an empty one |
| `RingQueueProtocol.PushAndPopNeverDeadlock` | 0208/RingQueue/ringQueue.hpp:37-60 | with capacity at least one, a pending push and a pending pop are never both stuck |
| `RingQueueProtocol.EveryRunEnds` | 0208/RingQueue/ringQueue.hpp:37-60 | a run has at most eight moves per call, and exactly eight per call if and only if all calls have returned |
| `RingQueueCode.Sem.P` | 0208/RingQueue/sem.hpp:23-27 | takes a token if there is one, else the caller does not pass |
| `RingQueueCode.Sem.V` | 0208/RingQueue/sem.hpp:28-32 | adds one token |
| `RingQueueCode.RingQueue.constructor` | 0208/RingQueue/ringQueue.hpp:25-31 | all slots free, no data token, indices zero, both mutexes open |
| `RingQueueCode.RingQueue.Push` | 0208/RingQueue/ringQueue.hpp:37-49 | one instruction of push in place is the protocol's step of that caller, or it blocks and changes nothing |
| `RingQueueCode.RingQueue.EnterPush` | 0208/RingQueue/ringQueue.hpp:42-43 | takes a space token, then the push lock; blocks without changing anything if there is none or the lock is held |
| `RingQueueCode.RingQueue.Store` | 0208/RingQueue/ringQueue.hpp:45-46 | filling the slot, stepping on and wrapping, in the array itself |
| `RingQueueCode.RingQueue.Pop` | 0208/RingQueue/ringQueue.hpp:50-60 | the same for pop, whose last instruction hands out the value |
| `RingQueueCode.RingQueue.EnterPop` | 0208/RingQueue/ringQueue.hpp:54-55 | takes a data token, then the pop lock, or blocks without changing anything |
| `RingQueueCode.RingQueue.LeavePop` | 0208/RingQueue/ringQueue.hpp:59 | returns the space token, and the value |
| `RingQueueCode.RingQueue.Load` | 0208/RingQueue/ringQueue.hpp:56-57 | reading the slot, stepping on and wrapping |
| `RingQueueCode.RingQueue.WholePush` | 0208/RingQueue/ringQueue.hpp:37-49 | an undisturbed push appends its value to the queue and moves one token from space to data, or sleeps if and only if there is no space token |
| `RingQueueCode.RingQueue.WholePop` | 0208/RingQueue/ringQueue.hpp:50-60 | an undisturbed pop removes and returns the oldest value and moves the token back, or sleeps if and only if there is no data token |
| `BlockQueueProtocol.StepKeepsInv` | 0114/BlockQueue.hpp:77-98 | every instruction, call, wakeup and spurious wakeup keeps the lock, the capacity, the order of values and both stranding bounds |
| `BlockQueueProtocol.NoRunFaults` | 0114/BlockQueue.hpp:92-97 | front is never taken on an empty queue, whoever is woken and whenever |
| `BlockQueueProtocol.RunIsBoundedFifo` | 0114/BlockQueue.hpp:77-98 | the length stays within the capacity, and pushed is popped followed by the queue |
| `BlockQueueProtocol.RunRefinesBoundedFifo` | 0114/BlockQueue.hpp:77-98 | every run, seen by when calls begin, take effect and end, is a run of an atomic FIFO of the given capacity with the same callers and the same contents |
| `BlockQueueProtocol.RunIsLinearizable` | 0114/BlockQueue.hpp:77-98 | each call that returned took effect exactly once between its beginning and its end, with its own argument or result, before every call begun after its end; and all effects in their order are those of a sequential bounded FIFO |
| `BlockQueueProtocol.NothingLostOrMadeUp` | 0114/BlockQueue.hpp:77-98 | once all calls are over, what callers passed to push is what pop returned plus what is queued |
| `BlockQueueProtocol.StrandingBound` | 0114/BlockQueue.hpp:78-98 | unless a push owes its signal, beside a sleeping consumer lie at most the awake consumers' items plus capacity/2 - 1; unless a pop owes its signal, beside a sleeping producer at most the awake producers' slots are free; and never more than one beyond |
| `BlockQueueProtocol.StrandingBoundIsExact` | 0114/BlockQueue.hpp:83-84 | for every capacity a run leaves a consumer asleep for good beside exactly that many items |
| `BlockQueueProtocol.OwedPushExceedsBound` | 0114/BlockQueue.hpp:82-84 | for every capacity from 1 on, a run with a push before its signal leaves one item too many beside a sleeping consumer |
| `BlockQueueProtocol.OwedPopExceedsBound` | 0114/BlockQueue.hpp:97-98 | for every capacity from 1 on, a run with a pop before its signal leaves a free slot beside a sleeping producer |
| `BlockQueueProtocol.ConsumersBoundedExactlyWithoutOwedPush` | 0114/BlockQueue.hpp:77-98 | for any set of program points, the bound beside consumers holds whenever all threads are at them if and only if the point before push's signal is not among them, or the capacity is zero |
| `BlockQueueProtocol.ProducersBoundedExactlyWithoutOwedPop` | 0114/BlockQueue.hpp:77-98 | the same for the bound beside producers and the point before pop's signal |
| `BlockQueueProtocol.StuckExactlyWhenAllAsleep` | 0114/BlockQueue.hpp:77-98 | nothing can move if and only if everyone inside sleeps; then a sleeping producer means a full queue and a sleeping consumer one below the threshold |
| `BlockQueueProtocol.PushAndPopNeverDeadlock` | 0114/BlockQueue.hpp:77-98 | with capacity at least one, a pending push and a pending pop never both sleep with nobody awake |
| `BlockQueueProtocol.ZeroCapacityDeadlocks` | 0114/BlockQueue.hpp:29-32 | with capacity zero some run puts a push and a pop to sleep for good |
| `BlockQueueProtocol.DeadlockExactlyWithoutCapacity` | 0114/BlockQueue.hpp:77-98 | some run deadlocks if and only if the capacity is zero |
| `BlockQueueProtocol.EveryRunEnds` | 0114/BlockQueue.hpp:77-98 | a run has at most eight moves per call and three per spurious wakeup, and does not end with a push and a pop both pending |
| `BlockQueueCode.BlockQueue.constructor` | 0114/BlockQueue.hpp:35-41 | an empty queue of the given capacity, mutex open, nobody waiting |
| `BlockQueueCode.BlockQueue.SignalEmpty` | 0114/BlockQueue.hpp:84 | wakes one sleeping consumer if there is one, else does nothing |
| `BlockQueueCode.BlockQueue.SignalFull` | 0114/BlockQueue.hpp:98 | wakes one sleeping producer if there is one, else does nothing |
| `BlockQueueCode.BlockQueue.Push` | 0114/BlockQueue.hpp:77-87 | one instruction of push in place is the protocol's step of that caller |
| `BlockQueueCode.BlockQueue.Pop` | 0114/BlockQueue.hpp:90-100 | the same for pop, whose last instruction hands out the value |
| `BlockQueueCode.BlockQueue.WholePush` | 0114/BlockQueue.hpp:77-87 | an undisturbed push appends its value and, from half the capacity on, wakes one sleeping consumer; or sleeps if and only if the queue is full |
| `BlockQueueCode.BlockQueue.WholePop` | 0114/BlockQueue.hpp:90-100 | an undisturbed pop removes and returns the oldest value and wakes one sleeping producer; or sleeps if and only if the queue is empty |
| `BlockQueueCode.BlockQueue.WakeSpuriously` | 0114/BlockQueue.hpp:78-95 | a sleeper wakes without a signal and goes back to the loop test |
| `ThreadPoolProtocol.StepKeepsInv` | 0211/threadPool.hpp:98-134 | every instruction keeps the lock, the push order, the tickets, and the bound on work beside sleepers |
| `ThreadPoolProtocol.NoRunFaults` | 0211/threadPool.hpp:126-129 | getTask never runs on an empty queue, even for a woken worker that lost the race |
| `ThreadPoolProtocol.EveryTaskInOnePlace` | 0211/threadPool.hpp:98-134 | every pushed task is at exactly one place: in the queue at its position, with one worker, or executed once |
| `ThreadPoolProtocol.TakesInPushOrder` | 0211/threadPool.hpp:129-155 | whenever a task is taken it is the oldest one not taken yet |
| `ThreadPoolProtocol.SleepersLeaveNoWork` | 0211/threadPool.hpp:98-134 | unless a push owes its signal, queued tasks beside a sleeper are at most the awake workers looking for one, and none is queued while all sleep; and never more than one beyond |
| `ThreadPoolProtocol.OwedSignalExceedsBound` | 0211/threadPool.hpp:102-104 | a run with a push before its signal has a task queued beside sleeping workers only |
| `ThreadPoolProtocol.NoWorkExactlyWithoutOwedSignal` | 0211/threadPool.hpp:98-134 | for any set of program points, the bound holds whenever all threads are at them if and only if the point before the signal is not among them |
| `ThreadPoolProtocol.StuckExactlyWhenDone` | 0211/threadPool.hpp:98-134 | nothing can move if and only if no call is in progress and every started worker sleeps; if one does, all tasks have been executed exactly once |
| `ThreadPoolProtocol.EveryTaskAskedForIsKept` | 0211/threadPool.hpp:98-134 | in every run, the tasks that its calls pass to pushTask are those pushed and those still being brought; and those pushed are queued, with a worker, or run, each as often |
| `ThreadPoolProtocol.EveryTaskAskedForIsRun` | 0211/threadPool.hpp:98-134 | once nothing can move and some worker was started, the tasks run are exactly those passed to pushTask |
| `ThreadPoolProtocol.RolesAreKept` | 0211/threadPool.hpp:76-134 | no worker ever leaves its routine and no caller becomes one; a worker is at work if and only if the run starts it |
| `ThreadPoolProtocol.EveryRunEnds` | 0211/threadPool.hpp:98-134 | the length of a run is bounded by its calls, started workers and spurious wakeups, and at its end every task has been executed |
| `ThreadPoolCode.ThreadPool.constructor` | 0211/threadPool.hpp:33-42 | an empty queue and the given number of workers, none started |
| `ThreadPoolCode.ThreadPool.StartWorker` | 0211/threadPool.hpp:76-83 | a worker enters its routine |
| `ThreadPoolCode.ThreadPool.PushTask` | 0211/threadPool.hpp:98-105 | one instruction of pushTask in place is the protocol's step of that caller; the task stays with the caller until it is stored, and only the unlock ends the call |
| `ThreadPoolCode.ThreadPool.WholePushTask` | 0211/threadPool.hpp:98-105 | an undisturbed pushTask appends the task and wakes one sleeping worker if there is one |
| `ThreadPoolCode.ThreadPool.Signal` | 0211/threadPool.hpp:104 | wakes one sleeping worker if there is one, else does nothing |
| `ThreadPoolCode.ThreadPool.GetTask` | 0211/threadPool.hpp:151-156 | removes and returns the oldest task |
| `ThreadPoolCode.ThreadPool.Routine` | 0211/threadPool.hpp:106-134 | one instruction of a worker in place is the protocol's step of that worker |
| `SingletonProtocol.StepKeepsInv` | 0211/threadPool.hpp:58-75 | every instruction keeps: at most one pool built, set once, only under the lock |
| `SingletonProtocol.OnePoolForEveryone` | 0211/threadPool.hpp:58-75 | at most one constructor call ever, and every call that returns gives that same pool, never null |
| `SingletonProtocol.PointerNeverChanges` | 0211/threadPool.hpp:58-75 | once set, thread_ptr and the size of the pool stay the same in every continuation |
| `SingletonProtocol.PoolHasTheSizeAskedFor` | 0211/threadPool.hpp:58-70 | the pool has the size that was passed by the call that built it, the latest call of its thread at that moment |
| `SingletonProtocol.SizeEveryoneAskedFor` | 0211/threadPool.hpp:58-70 | when all calls pass the same size, the pool has it |
| `SingletonProtocol.EveryCallIsAnswered` | 0211/threadPool.hpp:58-75 | each call made has returned a pool or is still under way |
| `SingletonProtocol.StuckExactlyWhenAllReturned` | 0211/threadPool.hpp:58-75 | nothing can move if and only if every call has returned |
| `SingletonProtocol.EveryRunEnds` | 0211/threadPool.hpp:58-75 | no call takes more than eight moves |
| `SingletonCode.PoolHolder.GetThreadPool` | 0211/threadPool.hpp:58-75 | one instruction of getThreadPool in place is the protocol's step of that caller; it carries its argument unchanged up to the constructor, and only the last one ends the call and returns the pool |
| `Commands.DecodeEncode` | 1119/processPool/ProcessPool.hpp:45-46 | a 32-bit command survives the way through four bytes |
| `Commands.TakeFront` | 1119/processPool/ProcessPool.hpp:46-61 | a four-byte read takes exactly the oldest command off a pipe holding whole commands |
| `Commands.Tasks.Load` | 1119/processPool/Task.hpp:36-49 | appends the four handlers in order, each with the description that names it, and keeps what was there |
| `ProcessPoolProtocol.LowestFreeIs` | 1119/processPool/ProcessPool.hpp:77-78 | the search finds the lowest descriptor not in use |
| `ProcessPoolProtocol.OpenPipe` | 1119/processPool/ProcessPool.hpp:77-113 | with k slots, pipe returns 3 and 4 + k, and the table then is the one child k inherits |
| `ProcessPoolProtocol.StepKeepsInv` | 1119/processPool/ProcessPool.hpp:74-163 | every system call of every process keeps the exact descriptor tables, the traffic and the order of exits, and none faults |
| `ProcessPoolProtocol.NoRunFaults` | 1119/processPool/ProcessPool.hpp:42-64 | the four-byte assert never fails, no descriptor is misused, no write lacks a reader |
| `ProcessPoolProtocol.DescriptorInheritance` | 1119/processPool/ProcessPool.hpp:74-114 | who holds either end of each pipe at every moment of creation, dispatch and shutdown, and that slot j is descriptor 4 + j |
| `ProcessPoolProtocol.CommandIsValid` | 1119/processPool/ProcessPool.hpp:100-107 | the illegal-command branch is never taken |
| `ProcessPoolProtocol.EndOfFile` | 1119/processPool/ProcessPool.hpp:46-51 | a child without a writer on its pipe sees all later children exited and its slot closed |
| `ProcessPoolProtocol.ReverseCascade` | 1119/processPool/ProcessPool.hpp:154-163 | a child leaves only after the parent has closed every slot and every later child has exited |
| `ProcessPoolProtocol.Delivery` | 1119/processPool/ProcessPool.hpp:90-108 | each child executes a prefix of the commands that the dispatcher chose its slot for, in order, all of them before it leaves, and pipes hold whole commands |
| `ProcessPoolProtocol.SlotGetsItsCommands` | 1119/processPool/ProcessPool.hpp:141-150 | what was sent to a slot is, in order, what the run's dispatches chose it for |
| `ProcessPoolProtocol.SendReachesTheChosenSlot` | 1119/processPool/ProcessPool.hpp:56-64 | a dispatch goes through if and only if the chosen pipe has room, and puts the four bytes into that pipe alone |
| `ProcessPoolProtocol.FinishedMeansDone` | 1119/processPool/ProcessPool.hpp:154-163 | when the parent is through, each child has executed all commands dispatched to its slot and is gone, all pipes are empty, and the parent's descriptors are those it began with |
| `ProcessPoolProtocol.ShutdownNeverStuck` | 1119/processPool/ProcessPool.hpp:154-163 | until the parent has finished, some process can go on |
| `ProcessPoolProtocol.ShutdownMakesProgress` | 1119/processPool/ProcessPool.hpp:90-163 | in a shutdown every move decreases an explicit measure |
| `ProcessPoolProtocol.ShutdownTerminates` | 1119/processPool/ProcessPool.hpp:154-163 | from any reachable shutdown state the rest of the run is bounded and can only end with every waitpid returned |
| `ProcessPoolProtocol.StuckExactlyWhenIdleOrFinished` | 1119/processPool/ProcessPool.hpp:86-152 | nothing moves by itself if and only if the parent has finished, or dispatches while every child has executed all it was sent |
| `ProcessPoolInTurn.HangsInFirstWait` | 1119/processPool/ProcessPool.hpp:154-163 | were each slot closed and its child awaited before the next, then with two children or more no run would get past the first wait, and no child would leave |
| `ProcessPoolInTurn.InTurnFinishesExactlyWithoutSecondChild` | 1119/processPool/ProcessPool.hpp:154-163 | that variant has a run that finishes if and only if there is at most one child |
| `ProcessPoolProtocol.EveryRunEnds` | 1119/processPool/ProcessPool.hpp:74-163 | a run has at most 6n + 1 moves plus five per command and 2n + 4 for the shutdown |
| `ProcessPoolCode.ProcessPool.LowestDescriptor` | 1119/processPool/ProcessPool.hpp:77-78 | the loop over the table finds the lowest free descriptor |
| `ProcessPoolCode.ProcessPool.OpenPipe` | 1119/processPool/ProcessPool.hpp:77-78 | pipe in place is the parent's step |
| `ProcessPoolCode.ProcessPool.ParentContinue` | 1119/processPool/ProcessPool.hpp:74-163 | fork, close, push_back, and the closing and waiting loops are the parent's steps |
| `ProcessPoolCode.ProcessPool.CreateSlots` | 1119/processPool/ProcessPool.hpp:74-114 | whatever the children already forked do meanwhile, the creation loop ends with slot j at descriptor 4 + j, and child j before its own close or at its first read, with exactly the descriptors it inherited |
| `ProcessPoolCode.ProcessPool.SendAndWakeUp` | 1119/processPool/ProcessPool.hpp:56-64 | appends the four bytes of the command to the pipe of the chosen slot and to no other, or waits if and only if there is no room |
| `ProcessPoolCode.ProcessPool.WaitCommand` | 1119/processPool/ProcessPool.hpp:42-55 | takes one command, reports end of file, or waits |
| `ProcessPoolCode.ProcessPool.ChildContinue` | 1119/processPool/ProcessPool.hpp:84-110 | a child's close, execution and exit are its steps |
| `ShellSyntax.SplitUndoesJoin` | 1017/shell/myshell.c:36-85 | splitting command, operator and file name joined together gives them back if and only if the name has no operator and, for `>`, the command is non-empty and does not end in `>` |
| `ShellSyntax.SplitOfJoin` | 1017/shell/myshell.c:44-70 | what the split gives in every other case of an operator-free name |
| `ShellSyntax.SplitAtEachOperator` | 1017/shell/myshell.c:44-75 | `<` is input, `>>` is append, and `>` is output where no other `>` comes before it |
| `ShellSyntax.JoinUndoesSplit` | 1017/shell/myshell.c:36-85 | joining the parts rebuilds every line that was split, and lines without an operator stay whole |
| `ShellSyntax.UndefinedExactlyWhenItStartsWithItsOnlyOp` | 1017/shell/myshell.c:44-49 | the test for `>>` leaves the buffer exactly for lines whose only operator is a leading `>` |
| `ShellSyntax.WordsUndoLayout` | 1017/shell/myshell.c:129-136 | words laid out with any gaps of spaces are read back unchanged |
| `ShellSyntax.LayoutUndoesWords` | 1017/shell/myshell.c:129-136 | every line is its words laid out with gaps: nothing but spaces is lost |
| `ShellCode.Shell.CheckRedir` | 1017/shell/myshell.c:36-85 | one NUL over the operator, the status and the place of the file name are those of the split; otherwise the buffer is unchanged |
| `ShellCode.Shell.FindOp` | 1017/shell/myshell.c:40-75 | the backward scan stops at the last operator |
| `ShellCode.Shell.StrTok` | 1017/shell/myshell.c:129-136 | one call of strtok (section 7.21.5.8 of ISO/IEC 9899:1999) yields the next word in place, keeps the rest, and writes nowhere outside the words |
| `ShellCode.Shell.BuildArgv` | 1017/shell/myshell.c:129-136 | if and only if there is a word and 32 entries suffice, the vector is: the first word, the literal `--color=auto` if that word is `ls` and only then, the other words in order, null |
| `ShellCode.Shell.ParseLine` | 1017/shell/myshell.c:109-136 | strip, redirection and words together, for every content of the buffer: operator, file name still intact, the same vector, or which kind of line was refused |
| `OddEvenProtocol.StepKeepsInv` | xjh_multi_thread/test1.cc:276-305 | every instruction keeps lock, turns, pending notifications, output and the limit on the counter |
| `OddEvenProtocol.OutputIsCountingInTurns` | xjh_multi_thread/test1.cc:276-305 | the output is always 0, 1, 2, ..., evens by thread 2 and odds by thread 1, never past n |
| `OddEvenProtocol.RunsEndProperly` | xjh_multi_thread/test1.cc:276-307 | a run that cannot go on has both threads finished and m = n numbers printed, or n + 1 if n is at least 1 |
| `OddEvenProtocol.EveryRunTerminates` | xjh_multi_thread/test1.cc:276-307 | a run has at most 12n + 24 moves plus five per spurious wakeup |
| `OddEvenProtocol.OvershootExactlyWhenTestedEarly` | xjh_multi_thread/test1.cc:284-301 | n + 1 numbers come out if and only if, when the counter reaches n, the thread whose turn n would be has already passed its loop test |
| `OddEvenProtocol.BothEndingsHappen` | xjh_multi_thread/test1.cc:276-307 | for every n from 1 on there are runs with n and runs with n + 1 numbers |
| `OddEvenCode.Printer.Continue` | xjh_multi_thread/test1.cc:284-305 | one instruction of either thread in place is the protocol's step |
| `ShmPipeProtocol.StepKeepsInv` | 1201/shm_pipe/shmServer.cc:49-55 | every instruction of both sides keeps the token counts, what has been shown and who may have seen quit; only the client's signal can fault |
| `ShmPipeProtocol.PrintsKeepUp` | 1201/shm_pipe/shmServer.cc:49-55 | the k-th print shows the k-th line or a later one, never an earlier one than the print before, and there are at most as many waits as lines |
| `ShmPipeProtocol.PrintShowsTheLatestLine` | 1201/shm_pipe/shmServer.cc:52 | what is printed is the line stored with the recorded index |
| `ShmPipeProtocol.StoresWhatIsTyped` | 1201/shm_pipe/shmClient.cc:36-41 | in every run the k-th line stored is the k-th line typed without its last byte, up to its first NUL |
| `ShmPipeProtocol.PrintsWhatIsTyped` | 1201/shm_pipe/shmServer.cc:49-55 | in every run the k-th text printed is that of a line typed as the k-th or later, the one with the recorded index |
| `ShmPipeProtocol.WaitNeverFails` | 1201/shm_pipe/comm.hpp:53-60 | the server's Wait meets neither end of file nor part of a token |
| `ShmPipeProtocol.StuckExactlyWhenIdleOrOver` | 1201/shm_pipe/shmClient.cc:36-47 | both sides rest if and only if both wait for the user with all tokens consumed, or both have left |
| `ShmPipeProtocol.EveryRunEnds` | 1201/shm_pipe/shmServer.cc:49-55 | at most eight moves per line typed, and after quit both sides leave unless the client was cut short |
| `ShmPipeProtocol.LineFailsExactlyWhenQuitMeetsBusyServer` | 1201/shm_pipe/shmClient.cc:36-46 | when a line is typed, some continuation up to the next line kills the client in its signal if and only if the line is quit and the server is not waiting at an empty FIFO |
| `ShmPipeProtocol.LastSignalCanFail` | 1201/shm_pipe/shmServer.cc:51-54 | a run in which that happens |
| `ShmPipeCode.Channel.Publish` | 1201/shm_pipe/shmClient.cc:38-41 | copying the line into the shared array leaves there, whatever longer line was before, exactly the line without its last byte, up to its first NUL |
| `ShmPipeCode.Channel.Show` | 1201/shm_pipe/shmServer.cc:52 | prints the characters up to the first NUL |
| `ShmPipeCode.Channel.Matches` | 1201/shm_pipe/shmServer.cc:53 | the comparison is equality of the C string in the array |
| `ShmPipeCode.Channel.ClientContinue` | 1201/shm_pipe/shmClient.cc:42-47 | one instruction of the client in place is the protocol's step, including the one that faults |
| `ShmPipeCode.Channel.ServerContinue` | 1201/shm_pipe/shmServer.cc:49-55 | one instruction of the server in place is the protocol's step |

## Left out

- Weak memory, interrupted or failing system calls (pthread, fork, pipe, waitpid), descriptor and process limits, and integer limits of counters; the unlocked reads in `getThreadPool` and in the odd/even loop test are single atomic reads here.
- Scheduling: which thread runs, whom a signal wakes, which command and slot are drawn and what the user types are arbitrary; sleeps and log output do not appear.
- Destructors of the queues and of the pool, and starting the workers of a pool twice.
- Execution of a thread-pool task or of a process-pool handler is one step; its output is not modelled.
- The process pool's menu, its descriptions printed on dispatch, and descriptors other than 0, 1 and 2 open at the start.
- `ShmPipeCode.Channel.Publish`: storing a line is one step, so that a server reading half of it does not appear; creating and attaching the memory and opening the FIFO are left out.
- `ShellCode.Shell.ParseLine`: reading with `fgets`, the built-in `cd`, and `fork`, `dup2` and `execvp` are left out; the line is what `fgets` left in the buffer, up to its first NUL.
- Sockets and both servers, the signal, thread and file demos, the static libraries, and the earlier copies of the shell, the thread pool and the process pool.
