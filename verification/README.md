# A verified model of rpiosv2

rpiosv2 is a bare-metal kernel for the Raspberry Pi 2: preemptive threads with semaphores and
sleep, a small heap, property messages to the firmware, and a serial boot loader with the host
program that feeds it. This project models those parts in Dafny and proves what they keep.

How the parts fit together:

* `Heap` gives the allocator as functions on its block list; `SMemory` runs the same code on
  word-addressed memory, header words and all, and is proved equal to those functions.
* `IntrusiveQueue` is the circular doubly-linked list whose nodes are the process control blocks.
* `Scheduler` is the kernel as a state machine over pids, one call a step. `Placement` proves its
  invariant, `Runs` what follows over whole runs. `Kernel` executes the calls on real queues, a
  real heap and shared nodes, and is proved to take exactly the steps of `Scheduler`.
* `Preemption` cuts the calls into primitives and lets the timer fire wherever interrupts are
  enabled, its handler being interruptible in its turn, but for one gap: a process that is entered
  in a queue with interrupts on and has not yet given up the processor. `Discipline` says what a tick
  in the gap does, which calls have the gap, and connects both granularities. `Accounting` shows
  that in every interleaving of the kernel's own calls, each made with interrupts on or off, and of
  ticks outside the gap nothing is taken from an empty queue.
* `Context` is `context_switch` instruction by instruction; `System` puts scheduler, heap and
  memory together and proves that a suspended process gets its registers back; `Boot` starts it
  on the heap that the kernel finds there. `Housing` says the same of `Kernel`'s nodes and heap.
* `Mailbox`, `Serial`, `Uploader` and `Itoa` are the message marshaller, the two ends of the
  upload protocol, and number formatting.

Pointers are addresses, NULL is 0, words are four bytes. Where the code computes in 32 bits, the
model writes out the modulus (`Rounded`, `WakeTick`, `Encode`).

Seven results say where the code does less than its names or comments promise, each with the exact
condition under which it does what it should:

* `YieldSafeExactly` and `SleepSafeExactly`: among calls without the gap, a `process_yield` or
  `proc_sleep_ms` is safe, in that no tick of any interleaving from there on appends a listed process
  to the run queue, if and only if it is entered with interrupts off. Entered with interrupts on,
  three primitives lead into the gap (`YieldRace`, `SleepRace`), and a tick does just that if and
  only if it comes in the gap (`TickInGapExactly`). `c_irq_handler` enters `clock_handler`, and that
  enters `process_yield`, with interrupts on (`IrqHandlerIsNotCareful`). What the append does to
  the links: the last member of the queue then follows itself and a walk never ends
  (`AppendLastAgain`); whoever is behind another member is cut off (`AppendMemberAgain`); a sleeper
  leads the walk along the tick queue into the run queue, and it never comes back
  (`AppendMemberOfOther`, `FindRounds`); and a process that was alone on the run queue is what every later
  dequeue gives, whatever is appended (`StuckForGood`).
* `Salloc` restores the interrupt level if and only if interrupts were off or no block fits. One
  consequence is benign: `YieldBehindForkIsDisciplined`.
* `RoundedExceeds` and `AllocInvExactly`: a request of 0xFFFFFFF0 bytes or more wraps to zero, and
  the test in front of a split wraps on one single heap, the largest there can be.
* `FreeReleasesExactly`: `sfree` releases a block if and only if it was live; a block that had been
  freed before is handed out, to nobody.
* `SemaphoreLaw`: the semaphore laws hold in every run if and only if the initial count, which the
  code does not check, is not negative.
* `TriesExactly`: the frame buffer loop at start-up has no limit, and the allocations of
  `process_system_initialize` succeed if and only if it has tried at most 6821 times.
* `FitsExactly`: `itoa` overruns its buffer in base 2 for every number that is negative or at
  least 2^30, and for no other number and base.

## Model

| member | source | states |
|---|---|---|
| Interrupts.Cpu.SetInterruptLevel | src/interrupts.h:39-47 | the new level is in force and the previous one is returned, so a caller can put it back |
| Heap.FirstFit | src/smemory.c:57-67 | the block found is free and large enough, and no earlier block in list order is |
| Heap.InitInv | src/smemory.c:23-26 | one block over a 16-aligned range satisfies the heap invariant: aligned, inside, pairwise disjoint, accounting exact |
| Heap.RoundedExceeds | src/smemory.c:55 | rounding gives a multiple of 16 that is above the request by at most 16, if and only if the request is below 0xFFFFFFF0; from there on it wraps to 0 |
| Heap.SplitInv | src/smemory.c:33-40 | a split keeps the invariant: both parts aligned, inside and disjoint from all others, and the sum of capacities plus 32 per block stays the same, so 16 bytes are lost each time |
| Heap.AllocInv | src/smemory.c:52-69 | salloc keeps the heap invariant for every request, with the split test of line 60 taken in 32 bits |
| Heap.SplitTestWraps | src/smemory.c:60 | on the one range that is excluded, from 16 to the end of the address space, a request for 0xFFFFFFD0 bytes makes the sum wrap to 0, and the split breaks the invariant |
| Heap.AllocInvExactly | src/smemory.c:52-69 | on any aligned range salloc keeps the invariant for all lists and requests if and only if the range is not that one |
| Heap.FreeInv | src/smemory.c:80-85 | sfree keeps the heap invariant |
| Heap.AllocRefines | src/smemory.c:52-69 | salloc is NULL exactly when no free block fits and then changes nothing; otherwise one 16-aligned region inside the heap, disjoint from all live ones, joins the live set, of at least the requested size exactly for requests below 0xFFFFFFF0 |
| Heap.FreeRefines | src/smemory.c:80-85 | freeing a live pointer removes its region from the live set and no other |
| Heap.AllocThenFree | src/smemory.c:52-85 | a successful salloc followed by sfree of its result leaves the live set as it was, splits included |
| Heap.BorrowKeeps | src/smemory.c:52-85 | taking a block and giving it back keeps invariant and live set, and costs a large first block one split |
| Heap.AllocatedBlock | src/smemory.c:59-64 | the block handed out lies within one block that was free before, with the rounded capacity |
| Heap.OwnsAfterAlloc | src/smemory.c:33-40 | blocks are never merged: a pointer once valid for sfree stays so |
| Heap.FreedBlockIsReusable | src/smemory.c:52-85 | a request whose rounded size fits a block just freed does not fail |
| Heap.FreeReleasesExactly | src/smemory.c:80-85 | for any pointer that a block owns: sfree makes it not live if and only if it was live; a live pointer's region leaves the live set, and any other joins it |
| Heap.FreeingTwiceRestores | src/smemory.c:46-48 | a second sfree of the same pointer restores the list from before the first |
| Heap.RunInv | src/smemory.c:52-85 | every run of salloc and sfree on live pointers keeps the heap invariant |
| Heap.EveryRunFromInit | src/smemory.c:13-85 | from a fresh heap, after any run: exact accounting, at most (T+16)/32 blocks to scan, no header twice in the list, live regions pairwise disjoint |
| SMemory.ToggleSpells | src/smemory.c:46-48 | flipping bit 0 of one size word changes that block's flag in the list read from memory and nothing else |
| SMemory.SplitSpells | src/smemory.c:33-40 | the three words written by a split make memory spell the list with the new block in front |
| SMemory.PayloadWritesKeepSpelling | src/smemory.c:64 | a caller that writes only inside its payload cannot change the list that memory spells |
| SMemory.LiveWordsAreNotFree | src/smemory.c:57-65 | no word of a live block, header or payload, is among those that salloc may write |
| SMemory.Memory.constructor | src/smemory.c:23-26 | afterwards memory spells the one-block list, and only its header was written |
| SMemory.Memory.Blockify | src/smemory.c:13-19 | exactly the two header words are written |
| SMemory.Memory.InsertNewBlock | src/smemory.c:28-31 | the block becomes the head, linked to the old head; no other word changes |
| SMemory.Memory.SplitBlock | src/smemory.c:33-40 | memory goes from spelling the list to spelling the split list, and nothing outside the split block is written |
| SMemory.Memory.ToggleAlloc | src/smemory.c:46-48 | memory spells the list with one flag flipped; one word changes |
| SMemory.Memory.Salloc | src/smemory.c:52-69 | the scan over header words returns the pointer and leaves the list of the allocator functions, never writes a word outside free blocks, and returns at the interrupt level it was called with if and only if that was off or no block fits the rounded request |
| SMemory.Memory.Sfree | src/smemory.c:80-85 | NULL changes nothing; otherwise the owning block is toggled and one word is written |
| IntrusiveQueue.Queue.constructor | src/queue.c:21-40 | a sentinel linked to itself is a well-formed empty list |
| IntrusiveQueue.QueuePrepend | src/queue.c:42-56 | the circular links then spell the item followed by the old members; error cases change nothing |
| IntrusiveQueue.QueueAppend | src/queue.c:58-72 | the circular links then spell the old members followed by the item; error cases change nothing |
| IntrusiveQueue.QueueDequeue | src/queue.c:74-91 | the head is taken off and the rest stays in order; on an empty or missing queue the item is NULL and nothing changes |
| IntrusiveQueue.QueueDelete | src/queue.c:120-134 | succeeds exactly for a member and removes that one; otherwise nothing changes |
| IntrusiveQueue.QueueDeleteFast | src/queue.c:136-145 | without a walk, the member at any position is cut out and the others keep their order, links and length included |
| IntrusiveQueue.QueueFind | src/queue.c:147-161 | returns the first member in order that satisfies the predicate, and -1 exactly when there is none |
| IntrusiveQueue.QueueLength | src/queue.c:115-118 | the length field is the number of members |
| IntrusiveQueue.LinkLast | src/queue.c:64-69 | what the statements of queue_append do to the links of any node, listed or not |
| IntrusiveQueue.UnlinkFirst | src/queue.c:82-88 | what the statements of queue_dequeue do to any links |
| IntrusiveQueue.FindRounds | src/queue.c:150-157 | once the links from the sentinel on lead into a set that they do not leave and that lacks the sentinel, no number of rounds of queue_find's loop gets to its end |
| IntrusiveQueue.AppendLastAgain | src/queue.c:64-69 | appending the last member again makes it its own successor and predecessor, and the members a set that the links do not leave, without the sentinel |
| IntrusiveQueue.AppendMemberAgain | src/queue.c:64-69 | appending any other member again cuts off whoever is behind it: the links from the sentinel on reach none of them |
| IntrusiveQueue.AppendMemberOfOther | src/queue.c:64-69 | appending a member of another queue makes that queue's links lead into this one, never back to their own sentinel |
| IntrusiveQueue.AppendAlone | src/queue.c:64-69 | appending the only member again leaves the queue stuck on it |
| IntrusiveQueue.StuckForGood | src/queue.c:58-91 | a stuck queue stays so over any sequence of appends and dequeues, and every dequeue gives that same process |
| Placement.AppendKeeps | src/process.c:48-51 | appending a process that is on no queue keeps all queues duplicate-free and disjoint |
| Placement.RemoveKeeps | src/process.c:48-51 | taking a member out leaves it on no queue at all |
| Placement.RoundOfPartition | src/process.c:219-222 | one find-delete-start round of the clock loop leaves the final result of the sweep unchanged |
| Placement.AwakenMoves | src/process.c:219-222 | the sweep keeps the queues disjoint and duplicate-free and moves nobody but from the tick queue to the run queue |
| Placement.InitHolds | src/process.c:228-243 | the boot state satisfies the scheduler invariant |
| Placement.SemPPlaced | src/synch.c:22-37 | semaphore_P keeps every process in one place, blocking or not |
| Placement.SemVPlaced | src/synch.c:39-50 | semaphore_V keeps every process in one place |
| Placement.ExitPlaced | src/process.c:77-84 | cleanup moves the current process to the dead queue and nobody gets lost, with the reaper woken on the way |
| Placement.ForkPlaced | src/process.c:86-90 | the new process is on the run queue only |
| Placement.ClockPlaced | src/process.c:214-226 | the clock handler keeps every process in one place, whoever it interrupts, idle included |
| Placement.DeadQueueFilled | src/process.c:163-167 | between P and dequeue the dead queue is never empty |
| Placement.StepKeepsInv | src/process.c:77-226 | every call keeps: one place for everybody, pids below the next one, the dead semaphore's waiters equal to its negated count, and the dead queue as long as its count says; for the other semaphores and the sleepers see SemaphoreLaw and NobodyOversleeps |
| Placement.RunKeepsInv | src/process.c:77-249 | so does every run |
| Runs.OnePlaceAlways | src/process.c:77-249 | in every reachable state a process is live if and only if it is current, at one position of one queue, held by the reaper, or idle and parked; and it has only one such place |
| Runs.SemRun | src/synch.c:22-50 | over any run the count moves by Vs minus Ps, and waiters present plus those who blocked are, as sequences, those woken plus those still waiting |
| Runs.SemOkRun | src/synch.c:22-50 | a semaphore whose wait queue is as long as its count is below zero keeps that over any run |
| Runs.SemaphoreLaw | src/synch.c:13-50 | for a semaphore created with any int as count, these hold in every later run if and only if the count is not negative: the count is initial + Vs - Ps, the queue length is max(0, -count), wake-ups are FIFO with nobody lost, and the Ps granted are min(Ps, initial + Vs) |
| Runs.SemaphoreConserves | src/synch.c:13-50 | for every int as initial count, the count is initial + Vs - Ps and wake-ups are FIFO with nobody lost |
| Runs.ExitConservation | src/process.c:77-84 | processes are freed in the order in which they ended: ended = freed, then the one in hand, then the dead queue, as sequences |
| Runs.GoneForGood | src/process.c:159-173 | a process that has been freed never becomes live again and is never freed again |
| Runs.FreedOnce | src/process.c:159-173 | no process occurs twice among the freed ones |
| Runs.ReaperLaw | src/process.c:159-173 | in every reachable state the dead queue is as long as its semaphore's count plus one exactly inside P; a dequeue finds a process; whoever is being freed is neither current nor queued |
| Runs.RunQueueStep | src/process.c:137-157 | a dispatch takes the head of the run queue, and no call does anything else to it than append |
| Runs.MovesUp | src/process.c:137-157 | after d dispatches the process at index k is at index k-d, whatever else happened |
| Runs.RoundRobin | src/process.c:137-157 | the process at index k becomes current with exactly the (k+1)-th dispatch and not before |
| Runs.RunQueueBound | src/process.c:131-135 | the run queue is shorter than the set of live processes |
| Runs.YieldReturns | src/process.c:131-135 | a process that yields goes on at once if the run queue is empty, and otherwise runs again after fewer dispatches than there are live processes |
| Runs.SweepIsStable | src/process.c:219-222 | both halves of the sweep distribute over concatenation, so sleepers keep their order |
| Runs.SweepIsPartition | src/process.c:219-222 | the two halves together hold every sleeper exactly once |
| Runs.WakeTickForward | src/process.c:206 | for a non-negative argument the wake-up tick is t + ms/50 without wrap-around |
| Runs.WakeTickBackward | src/process.c:206 | a negative argument, the smallest int included, sleeps for one tick if and only if its quotient does not exceed the tick count, and beyond every tick otherwise |
| Runs.OverdueStep | src/process.c:202-222 | one call leaves a sleeper whose wake-up tick is past if and only if it is a sleep with a negative argument whose quotient is between 1 and the tick count |
| Runs.NobodyOversleeps | src/process.c:198-222 | in any run without such sleeps each sleeper's wake-up tick is not in the past |
| Runs.WakesExactly | src/process.c:202-222 | a process that sleeps for any int ms at tick t stays on the tick queue until, and leaves it in, the handler that sets ticks to max(t+1, wake-up tick), where the wake-up tick is t+ms/50 for ms >= 0 |
| Preemption.PrimitiveKeepsInv | src/process.c:77-226 | each primitive of a call or of the timer's handler keeps the invariant of the interleaved machine |
| Preemption.TimerStep | src/interrupts.c:29-42 | a tick with interrupts enabled and outside the gap, its handler run to the end, keeps the invariant |
| Preemption.IrqCodeIsChecked | src/interrupts.c:29-42 | in front of any code that may be interrupted outside the gap the timer interrupt's own code may be run, primitive by primitive and interruptible again |
| Preemption.TraceKeepsInv | src/process.c:77-226 | so does every interleaving of primitives, ticks and interrupts outside the gap, and calls with interrupts on or off |
| Preemption.OneSpotAlways | src/process.c:77-226 | in every such interleaving from boot each live process is in exactly one spot, local variables of other processes included, and the current one is on a queue only while interrupts are off or in the gap |
| Discipline.CallsAreDisciplined | src/synch.c:22-50 | fork, semaphore creation, P, V, cleanup and the reaper's loop have no gap whether entered with interrupts on or off; calling schedule_next_process outright is right exactly for idle |
| Discipline.YieldAndSleepAreChecked | src/process.c:131-135 | at either level yield and sleep pass the check that says nothing about the gap, so every interleaving result above covers them |
| Discipline.YieldAndSleepNeedInterruptsOff | src/process.c:131-135 | process_yield and proc_sleep_ms are without the gap if and only if they are entered with interrupts off |
| Discipline.HandlerNeedsInterruptsOff | src/process.c:214-226 | so is clock_handler |
| Discipline.IrqHandlerIsNotCareful | src/interrupts.c:36 | and it is entered with interrupts on, whatever was interrupted |
| Discipline.YieldBehindForkIsDisciplined | src/process.c:86-96 | a yield behind a fork has no gap in any case, because salloc has left interrupts off |
| Discipline.YieldRace | src/process.c:133-134 | from any state in which yield is entered with interrupts on, three primitives lead to a gap in which a tick's handler appends the process to the run queue while it is on it, behind it only the sleepers that were due |
| Discipline.SleepRace | src/process.c:209-211 | the same for sleep: the handler appends a process that is the last member of the run queue, if it was due at once, and of the tick queue otherwise |
| Discipline.TickInGap | src/process.c:214-226 | a tick that finds the current process on any queue makes the handler list it at a second position in front of its dispatch |
| Discipline.TickQueuesTwiceExactly | src/process.c:214-226 | and with well-formed queues it does so only then |
| Discipline.TickInGapExactly | src/process.c:214-226 | in every reachable state of the interleavings a tick lists a process twice if and only if it comes in the gap |
| Discipline.DoubleListingStays | src/process.c:145-151 | counted in the order in which dequeues were meant to take them, both entries are still there after the dispatch of another process; the links cannot hold two, see AppendMemberAgain |
| Discipline.CarefulIsSafe | src/process.c:77-212 | a call without the gap leads to no such tick in any interleaving of calls without the gap, with ticks wherever interrupts are enabled |
| Discipline.BootIsSafe | src/process.c:228-249 | and from boot no interleaving of such calls does |
| Discipline.YieldSafeExactly | src/process.c:131-135 | wherever all threads are without the gap, a call of process_yield leads to no such tick in any interleaving if and only if interrupts are off on entry |
| Discipline.SleepSafeExactly | src/process.c:202-212 | the same for proc_sleep_ms, for every argument |
| Discipline.YieldIsOneStep | src/process.c:131-157 | uninterrupted, the primitives of yield amount to the yield step of the scheduler; dispatched again, the call ends with interrupts on and the saved levels as they were |
| Discipline.ScheduleIsOneStep | src/process.c:137-157 | the same for schedule_next_process by itself |
| Discipline.SleepIsOneStep | src/process.c:202-212 | uninterrupted, the primitives of sleep amount to the sleep step; dispatched again, the call ends with interrupts on and the saved levels as they were |
| Discipline.IrqIsOneTick | src/interrupts.c:29-42 | uninterrupted, the primitives of the timer interrupt and its handler amount to the clock step; dispatched again, the process goes on where it was interrupted, at its level there |
| Discipline.PIsOneStep | src/synch.c:22-37 | uninterrupted, the primitives of P amount to the P step; without a block the call ends at the interrupt level and with the saved levels of its entry, and so it does after a block once the process is dispatched again |
| Discipline.VIsOneStep | src/synch.c:39-50 | uninterrupted, the primitives of V amount to the V step on both branches, and the call ends at the level of its entry |
| Discipline.ForkIsOneStep | src/process.c:86-96 | uninterrupted, the primitives of fork amount to the fork step; the caller goes on with interrupts off, the new process begins with them on, no other thread changes |
| Discipline.SemCreateIsOneStep | src/synch.c:13-20 | the new semaphore has the given count and no waiters, and interrupts are off |
| Discipline.ReapIsOneStep | src/process.c:162-171 | where P does not block, one round of the reaper's loop takes the head of the dead queue, removes that process and ends at the level of its entry |
| Discipline.CleanupIsOneStep | src/process.c:77-84 | uninterrupted, the primitives of cleanup amount to the exit step |
| Accounting.RoutinesAreBooked | src/process.c:77-173 | every call of the kernel, reaper's loop included, passes a static check: counts change only together with their test, and nobody but the reaper can be interrupted while the books are uneven |
| Accounting.EveryCallIsPossible | src/process.c:77-212 | the interleavings leave no call out: whoever may make a call may make it with interrupts on or off |
| Accounting.DeadQueueFilled | src/process.c:163-167 | at any point of any interleaving where the reaper is about to dequeue, the dead queue is not empty |
| Accounting.PrimitiveKeepsAccount | src/synch.c:22-50 | each primitive keeps the books: dead-queue length against the semaphore's count and what the threads still owe, waiters against the count |
| Accounting.TimerKeepsAccount | src/process.c:214-226 | a tick keeps the books |
| Accounting.InterruptKeepsAccount | src/interrupts.c:29-42 | so does an interrupt whose handler is to run primitive by primitive |
| Accounting.NothingIsTakenInVain | src/process.c:159-173 | in every interleaving from boot of the kernel's calls, made with interrupts on or off, and of ticks outside the gap, a dequeue finds a member, and what is started or freed is in hand, so nothing is freed through NULL |
| Kernel.QueueNew | src/queue.c:21-40 | NULL exactly when one of the two allocations fails, and then the live regions are as before; otherwise an empty well-formed queue |
| Kernel.Kernel.constructor | src/process.c:176-243 | boot builds four disjoint queues, idle, reaper and main process; the abstract state is the initial state of the scheduler |
| Kernel.Kernel.Enqueue | src/queue.c:58-72 | appending an unlisted node to one queue keeps all queues well-formed and separate and leaves the others' contents alone |
| Kernel.Kernel.DeleteSleeper | src/queue.c:136-145 | deleting from the middle of the tick queue keeps all queues well-formed and leaves the node on none |
| Kernel.Kernel.ProcessStart | src/process.c:92-96 | the abstract run queue gains the process at its end |
| Kernel.Kernel.ScheduleNextProcess | src/process.c:137-151 | refines the dispatch of the scheduler |
| Kernel.Kernel.ProcessYield | src/process.c:131-135 | refines the yield step and keeps the full invariant |
| Kernel.Kernel.ProcSleepMs | src/process.c:202-212 | refines the sleep step for every int and keeps the full invariant |
| Kernel.Kernel.SemaphoreP | src/synch.c:22-37 | refines the P step, on any semaphore |
| Kernel.Kernel.SemaphoreV | src/synch.c:39-50 | refines the V step, on any semaphore |
| Kernel.Kernel.SemaphorePCall | src/synch.c:22-37 | a P made by a process keeps the full invariant |
| Kernel.Kernel.SemaphoreVCall | src/synch.c:39-50 | a V made by a process keeps the full invariant |
| Kernel.Kernel.Cleanup | src/process.c:77-84 | refines the exit step and keeps the full invariant |
| Kernel.Kernel.IdleLoop | src/process.c:243-248 | refines the idle step: dispatch without queueing idle |
| Kernel.Kernel.AwakenAll | src/process.c:218-222 | the find-first, delete, restart loop terminates and equals one stable partition of the tick queue |
| Kernel.Kernel.ClockHandler | src/process.c:214-226 | refines the clock step: due sleepers in sleep order, then the preempted process |
| Kernel.Kernel.ReaperP | src/process.c:163 | refines the reaper's P |
| Kernel.Kernel.ReaperDequeue | src/process.c:165-168 | gets a control block, never NULL |
| Kernel.Kernel.ReaperFreeStack | src/process.c:170 | refines the step; the block that is freed is the live one that holds the process's stack |
| Kernel.Kernel.ReaperFreePcb | src/process.c:171 | refines the step; the block that is freed is the live one that holds the control block, and the process is no longer live |
| Kernel.Kernel.CreateProcess | src/process.c:107-129 | two allocations, a fresh node with the next pid on no list, and interrupts left off |
| Kernel.Kernel.ProcessFork | src/process.c:86-90 | refines the fork step and keeps the full invariant |
| Kernel.Kernel.SemaphoreCreate | src/synch.c:13-20 | refines the creation step for every int as count; the new wait queue is separate from all others |
| Housing.AllocKeepsHoused | src/smemory.c:52-69 | an allocation takes nobody's block: live processes keep their control blocks and stacks, pairwise different |
| Housing.NewIsHoused | src/process.c:107-116 | the two blocks of a new process are nobody else's |
| Housing.FreeStackKeepsHoused | src/process.c:170 | the stack that the reaper frees is live, and no other process's block goes with it |
| Housing.FreePcbKeepsHoused | src/process.c:171 | the same for the control block |
| Context.PopUndoesPush | src/boot.S:62-72 | popping a frame returns every register that was put into it |
| Context.SwitchSaves | src/boot.S:62-67 | after a switch the old stack holds the full frame below its sp, the slot holds its address, and no other word changed |
| Context.SwitchToSelf | src/boot.S:60-72 | a switch from a process to itself returns with every register intact |
| Context.FrameBuilt | src/boot.S:62-66 | the pushes, in their order, build the frame that the struct describes |
| Context.Core.ContextSwitch | src/boot.S:60-72 | the instructions save the old frame, exchange stacks and load the new frame |
| Context.Core.InitialFrame | src/process.c:116-126 | clearing and filling the frame gives the first registers, each at its place below the stack top, 0x15A for cpsr, and writes nothing outside it |
| System.WritesMiss | src/process.c:48-60 | no store that running code may make between switches hits a private word of a suspended process |
| System.PrivateApart | src/process.c:107-117 | two processes share no word of stack or saved-sp slot |
| System.ProcessWritten | src/process.c:107-126 | create_process leaves a whole first frame, pid, stack and saved sp, and stores in the new stack and control block only |
| System.SwitchSuspends | src/boot.S:62-67 | the process that leaves is suspended with exactly the registers it had |
| System.SwitchResumes | src/boot.S:68-72 | the process that is resumed gets back what it left with |
| System.ForkKeeps | src/process.c:107-129 | a fork gives the new process its own blocks and first frame and disturbs nobody's |
| System.FreeStackKeeps | src/process.c:170 | freeing a dead process's stack touches no other process |
| System.FreePcbKeeps | src/process.c:171 | freeing its control block removes its last block from the books |
| System.StepKeeps | src/process.c:77-226 | scheduler calls, forks, allocations, frees and arbitrary permitted stores keep the invariant of the whole system |
| System.RunKeeps | src/process.c:77-226 | so does every run |
| System.SuspendedStateSurvives | src/boot.S:60-72 | over any run of other processes' steps, a process that left in context_switch resumes with the same r0-r12, cpsr, lr and sp behind its call |
| System.FirstRun | src/process.c:107-129 | a forked process, whenever it is first dispatched, starts at proc with its argument in r0, zeros in r1-r12, cleanup in lr, sp at the top of its own stack, in the kernel's processor mode with interrupts enabled, FIQ and aborts masked |
| Boot.SeriesHolds | src/process.c:176-196 | a series of successful allocations gives distinct blocks of the requested sizes and keeps earlier holders |
| Boot.BootHolds | src/process.c:228-243 | on any heap, used before or not, that has nothing handed out and room in its first block, boot establishes the system invariant |
| Boot.KernelRuns | src/process.c:228-249 | every run from there keeps it: the blocks handed out are exactly those of live processes and other owners, and every suspended frame is whole |
| Boot.BootFirstRun | src/process.c:235-237 | after boot, pid 1 is first dispatched at reaper_process with 0 and pid 2 at the main function with its argument, each with cleanup in lr and on the top of a stack of its own |
| Boot.StillUnused | src/kernel.c:133-141 | a fresh heap on which messages have been sent is still such a heap, as long as they leave the room |
| Boot.KernelStarts | src/kernel.c:125-160 | on the kernel's own heap, after up to 6821 tries of the frame buffer message (src/gpu.c:64), every run of the kernel keeps the system invariant |
| Boot.TriesExactly | src/gpu.c:64-67 | the allocations of process_system_initialize all succeed if and only if there were no more tries than that |
| Mailbox.LengthTable | src/mailbox.c:35-59 | by number, the tags whose value takes 8 bytes, 4 bytes or none |
| Mailbox.EncodedLength | src/mailbox.c:66-69 | four times the words written for the tags is the size computed for them |
| Mailbox.ParseEncoded | src/mailbox.h:32-43 | an independent reader of the tag format recovers every identifier, length and value, whatever follows the end tag |
| Mailbox.MessageParses | src/mailbox.c:66-93 | the message is as long as computed before padding, padding adds less than 16 bytes and makes the size a multiple of 16, and the buffer reads back as the tags |
| Mailbox.OffsetsFit | src/mailbox.c:112-117 | the words of each tag lie at its encode offset inside the tag area |
| Mailbox.EchoKeepsTags | src/mailbox.c:110-117 | reading back unaltered tag words gives the list unaltered |
| Mailbox.MailWordSplits | src/mailbox.c:29 | for a 16-aligned pointer and a channel below 16, or-ing them loses nothing: both are recovered from the word |
| Mailbox.MeasureTags | src/mailbox.c:66-75 | the size loop and rounding compute the padded size of the list in front of the null tag |
| Mailbox.Mcpy | src/stdlib.c:79-85 | the target words equal the source and no other word changes |
| Mailbox.FillMessage | src/mailbox.c:80-93 | exactly the words of the message are written |
| Mailbox.CopyBack | src/mailbox.c:110-117 | each listed tag gets the response words at its own offset, its identifier and everything behind the list unchanged |
| Mailbox.OutcomeKeepsList | src/mailbox.c:100-124 | whatever the answer, identifiers and the end of the list stay, and on any result but 0 the whole list does |
| Mailbox.ResultIs | src/mailbox.c:100-124 | by number, the result for each response word: 0 gives 1, 0x80000001 gives 2, 0x80000000 gives 0, anything else -1 |
| Mailbox.TagTakes | src/mailbox.c:110-117 | after success each tag has taken the words behind its own three header words, two, one or none by its number, and the next tag follows behind them |
| Mailbox.OneTagAnswered | src/kernel.c:23-66 | of the four one-tag lists of get_system_config, three get both words of the answer and the board revision one |
| Mailbox.FramebufferAnswered | src/framebuffer.c:8-46 | which words of the answer become width, height, address and size of the frame buffer |
| Mailbox.EchoRestores | src/mailbox.c:110-120 | an echoing firmware that reports success leaves the list as it was |
| Mailbox.SendMessages | src/mailbox.c:61-125 | on every path the live heap regions are those from before the call, the block list is that of one block taken and given back, and no word of a live block was written; on channel 8 the firmware received the message with its size in bytes and a zero in front; the result is 1, 2 or 0 exactly for the response words 0, 0x80000001 and 0x80000000, and the tags follow the response |
| Mailbox.FramebufferSize | src/framebuffer.c:8-23 | the message that is sent while the kernel starts takes 96 bytes |
| Serial.XorCancels | serial/bootloader/src/bootloader.c:56-58 | exclusive or is undone by repeating either operand |
| Serial.ChecksumNotices | serial/bootloader/src/bootloader.c:53-60 | changing any one byte changes the checksum |
| Serial.AddressRoundTrip | serial/forward.py:33-35 | the device's decoding of the host's encoding is the address modulo 2^32 |
| Serial.BytesRoundTrip | serial/bootloader/src/bootloader.c:61-66 | encoding a decoded address gives the same four bytes |
| Serial.PacketMeaning | serial/forward.py:31-73 | the device does with each packet what the host meant: 1 stores, 4 reads, 2 jumps, at that address, with these replies |
| Serial.WireFormat | serial/forward.py:31-43 | byte by byte: kind, address with its lowest byte first, data, and a last byte that makes the exclusive or of all ten zero |
| Serial.Refused | serial/bootloader/src/bootloader.c:67-101 | a jump or a read whose sixth byte is not 0xff, an unknown kind and a wrong checksum are refused with the codes 1, 2, 3 and 4 and no effect, and nothing else is |
| Serial.AlteredPacket | serial/bootloader/src/bootloader.c:59-101 | a valid packet with exactly one byte altered is rejected with reply 0, 4 and memory unchanged |
| Serial.ReplyShape | serial/bootloader/src/bootloader.c:67-102 | every packet but an accepted jump gets one reply, with one stop byte at its end apart from the byte read |
| Serial.Board.Receive | serial/bootloader/src/bootloader.c:49-104 | bytes collect until the tenth, which acts as the whole packet and restores framing, valid or not |
| Uploader.Port.WritePacket | serial/forward.py:6-14 | the flushing before each byte loses no part of the answer |
| Uploader.Port.ReadUntilProc | serial/forward.py:16-29 | consumes up to the first stop byte behind the two answer bytes, and reports the comparison |
| Uploader.Port.WriteWrite | serial/forward.py:31-45 | the four bytes, zero-filled, arrive at the address; the two sides are in step with nothing left to read |
| Uploader.Port.WriteRead | serial/forward.py:47-59 | true exactly if memory holds the expected byte, 0xff included; in step, nothing left to read |
| Uploader.Port.WriteJump | serial/forward.py:61-73 | the device jumps to the address and memory is untouched |
| Uploader.Port.Session | serial/forward.py:16-59 | over any sequence of writes and reads the sides stay in lock step and each answer is about memory as the earlier commands left it |
| Uploader.Port.SendChunk | serial/forward.py:105-108 | the chunk is stored four bytes at a time and the address ends behind its padding |
| Uploader.ChunkMeaning | serial/forward.py:105-108 | byte by byte: the chunk at its addresses, zeros in the padding, everything else as before |
| Uploader.ChunkIs | serial/forward.py:100 | byte i of the image is sent with the up to 128 bytes from the last multiple of 128 on |
| Uploader.UploadMeaning | serial/forward.py:95-110 | after an upload each address holds the image byte if its chunk was sent, zero in the final padding, and what it held before otherwise |
| Uploader.ImageArrives | serial/forward.py:89-116 | where memory began as zero the whole image is there, skipped chunks included |
| Uploader.Port.ReadFile | serial/forward.py:95-116 | the host loop against the device produces that memory and then a jump to 0x8000 |
| Itoa.FewDigits | src/stdlib.c:20-26 | a number below b^k has at most k digits in base b or any larger base |
| Itoa.FitsExactly | src/stdlib.c:3-53 | text and terminator fit the 33-byte buffer if and only if the base is not 2 or the number is between 0 and 2^30-1 |
| Itoa.DigitsRoundTrip | src/stdlib.c:20-26 | a positional reader of the reversed digits recovers the number |
| Itoa.TextReadsBack | src/stdlib.c:3-53 | a reader that demands at least one digit, no zero in front and no prefix for zero recovers the signed value in base 10 and the unsigned 32-bit value otherwise |
| Itoa.TextIsOnly | src/stdlib.c:3-53 | and the text is the only one that this reader takes for the value |
| Itoa.Samples | src/stdlib.c:3-53 | zero is "0" in every base; -7, 255, 8 and 5 in full in bases 10, 16, 8 and 2 |
| Itoa.GenerateDigits | src/stdlib.c:20-26 | the buffer holds the digits, least significant first |
| Itoa.ReverseInPlace | src/stdlib.c:41-50 | the text is reversed and its terminator stays |
| Itoa.Itoa | src/stdlib.c:3-53 | stays inside the buffer and leaves the text that reads back, with its terminator |

## Left out

- UART, GPIO, LEDs, system timer and the polling of the mailbox registers: device I/O and busy waits. The timer is a tick step, the firmware an arbitrary answer of the same length, the serial line a queue of bytes.
- Interrupt controller registers and the other bits of CPSR: one boolean says whether interrupts are enabled.
- Frame buffer, GPU console and font: display code.
- `atoi`: it stops before the first digit and so does not undo `itoa`; a reader of the model's own takes its place.
- `atomic_inc`: nothing calls it, and it rests on hardware exclusive monitors.
- `prntf`, `dump`, configuration, vectors, linker script, `blink`: plumbing. Only the heap's alignment, its size and the boot stack enter the model.
- `queue_iterate` and `queue_free`: unused by the modelled code, and their walk and frees are those of `QueueFind` and `Sfree`.
- `queue_find` with a NULL result pointer, and `queue_dequeue` with one: the result is a return value here.
- `mzero` and byte order inside `mcpy`: both only ever move whole words here, so `InitialFrame` clears and `Mcpy` copies by words.
- NULL results of `salloc` in `create_process` and `semaphore_create`: the code does not check them, so the fork and creation steps require success; the boot proofs show when the heap gives it.
- Overflow of `ticks`, `next_pid` and of a semaphore's count, at either end: excluded by what a step requires.
- A fork, yield, sleep or semaphore creation by idle or the reaper: neither of their loops makes one.
- `process_stop` called by a user process that is on no queue: it would be lost; `CallsAreDisciplined` says that only idle may do this.
- Scheduler and Kernel take each call and the timer handler as one step; interrupts inside calls and inside the handler are in Preemption. A run in which a tick comes in the gap is followed up to the append and its effect on the links, not further.
- The Kernel class does not track the interrupt level except through the heap, and the registers and stacks of processes are in System.
- The device's own code and stack are not part of the device's memory: the image is assumed not to overlap the boot loader.
- Timing of the serial line: the device answers before the host sends its next byte. The host's start-up line protocol and its file handling are not modelled; a file is a sequence of bytes. `conf_write` is a write and four reads, an instance of `Session`.
- Aliasing between the tag array and the heap in `send_messages`: the array is separate from heap memory.
- The firmware keeps to the buffer named by the mail word and may not write elsewhere.
- Placement.SemPPlaced: blocking on the dead semaphore is for the reaper only, as in the code; user processes name other semaphores.
- Itoa.Itoa: base 10 of the smallest int is excluded, because negating it is undefined in C.
- Mailbox.SendMessages: lists whose padded size reaches 0xFFFFFFF0 bytes are excluded, because the 32-bit size would wrap.
- Boot.KernelStarts: after more tries than the bound the kernel does not start at all, as `TriesExactly` says.
- Accounting.NothingIsTakenInVain: the primitives of one `queue_dequeue` or `sfree` are not divided further.
