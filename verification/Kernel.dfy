/**
 * src/process.c and src/synch.c on real queues: every call changes the linked lists in
 * place and is proved to be the step of module Scheduler of the same name.
 */
module Kernel {
  import opened Basics
  import opened IntrusiveQueue
  import H = Heap
  import M = SMemory
  import S = Scheduler
  import P = Placement
  import Pre = Preemption
  import Sys = System
  import Ho = Housing

  class Semaphore {
    var count: int
    const waitQueue: Queue

    constructor (count: int, waitQueue: Queue)
      ensures this.count == count && this.waitQueue == waitQueue
    {
      this.count := count;
      this.waitQueue := waitQueue;
    }
  }

  /** The pids along a list of control blocks. */
  ghost function Pids(c: seq<Node>): (ps: seq<nat>)
    ensures |ps| == |c| && forall i :: 0 <= i < |c| ==> ps[i] == c[i].pid
  {
    seq(|c|, i requires 0 <= i < |c| => c[i].pid)
  }

  ghost function Sleepers(c: seq<Node>): (xs: seq<S.Sleeper>)
    reads c`awakenTick
    ensures |xs| == |c| && forall i :: 0 <= i < |c| ==> xs[i] == S.Sleeper(c[i].pid, c[i].awakenTick)
  {
    if c == [] then [] else
      var last := |c| - 1;
      Sleepers(c[..last]) + [S.Sleeper(c[last].pid, c[last].awakenTick)]
  }

  ghost function Sems(sems: seq<Semaphore>): (xs: seq<S.Sem>)
    reads sems, set i | 0 <= i < |sems| :: sems[i].waitQueue
    ensures |xs| == |sems|
    ensures forall i :: 0 <= i < |sems| ==> xs[i] == S.Sem(sems[i].count, Pids(sems[i].waitQueue.contents))
  {
    seq(|sems|, i requires 0 <= i < |sems| reads sems, set j | 0 <= j < |sems| :: sems[j].waitQueue
      => S.Sem(sems[i].count, Pids(sems[i].waitQueue.contents)))
  }

  lemma PidsAppend(c: seq<Node>, n: Node)
    ensures Pids(c + [n]) == Pids(c) + [n.pid]
  {
  }

  lemma PidsTail(n: Node, c: seq<Node>)
    ensures Pids([n] + c) == [n.pid] + Pids(c)
  {
  }

  /**
   * queue_new with its two allocations. If the second one fails, the first block is
   * given back: either there is a queue, or the live regions are as before.
   */
  method QueueNew(heap: M.Memory) returns (queue: Queue?)
    requires heap.Valid()
    modifies heap`blockListHead, heap`blocks, heap.mem, heap.cpu
    ensures heap.Valid()
    ensures var first := H.AllocBlocks(old(heap.blocks), 8);
      && (queue == null <==> H.AllocPtr(old(heap.blocks), 8) == 0 || H.AllocPtr(first, 8) == 0)
      && (queue != null ==> heap.blocks == H.AllocBlocks(first, 8))
      && (queue == null ==> H.Live(heap.blocks) == H.Live(old(heap.blocks)))
    ensures queue != null ==> fresh(queue) && fresh(queue.sentinal) && queue.Valid() && queue.contents == []
  {
    var header := heap.Salloc(8);
    if header == 0 { return null; }
    var node := heap.Salloc(8);
    if node == 0 {
      QueueNewBacksOut(old(heap.blocks), heap.base, heap.total);
      heap.Sfree(header);
      return null;
    }
    var sentinal := new Node(node, 0, 0);
    queue := new Queue(sentinal);
  }

  /** Allocating a block and freeing it again changes nothing that a caller can hold. */
  lemma QueueNewBacksOut(bs: seq<H.Block>, base: nat, total: nat)
    requires H.Arena(base, total) && H.HeapInv(bs, base, total) && H.AllocPtr(bs, 8) != 0
    ensures H.Owns(H.AllocBlocks(bs, 8), H.AllocPtr(bs, 8))
    ensures H.Live(H.FreeBlocks(H.AllocBlocks(bs, 8), H.AllocPtr(bs, 8))) == H.Live(bs)
  {
    H.AllocThenFree(bs, 8, base, total);
  }

  /** semaphore_P is made of the primitives of module Preemption. */
  lemma SemPByParts(s: S.State, i: nat)
    requires i < |s.sems|
    ensures S.SemP(s, i) ==
      if s.sems[i].count - 1 < 0 then S.Dispatch(Pre.Append(Pre.CountSem(s, i, -1), S.Wait(i), s.current))
      else Pre.CountSem(s, i, -1)
  {
  }

  lemma HeadOnce<T>(c: seq<T>, x: T, rest: seq<T>)
    requires NoDup(c) && c == [x] + rest
    ensures x !in rest
  {
    assert forall i :: 0 <= i < |rest| ==> rest[i] == c[i + 1] && c[0] != c[i + 1];
  }

  /** What the boot sequence takes from the heap, with some to spare. */
  const ROOM: nat := 0x10400

  method SallocInRoom(heap: M.Memory, size: nat, ghost n: nat) returns (ptr: nat)
    requires heap.Valid() && size < WORD && H.Roomy(heap.blocks, n) && H.Rounded(size) + 32 <= n
    modifies heap`blockListHead, heap`blocks, heap.mem, heap.cpu
    ensures heap.Valid() && H.Roomy(heap.blocks, n - H.Rounded(size) - 32)
    ensures ptr != 0 && (size < 0xFFFF_FFF0 ==> Sys.Holds(heap.blocks, ptr, size))
  {
    H.RoomyServes(heap.blocks, size, n);
    Sys.AllocHolds(heap.blocks, size, heap.base, heap.total);
    ptr := heap.Salloc(size);
  }

  method QueueInRoom(heap: M.Memory, ghost n: nat) returns (queue: Queue)
    requires heap.Valid() && 96 <= n && H.Roomy(heap.blocks, n)
    modifies heap`blockListHead, heap`blocks, heap.mem, heap.cpu
    ensures heap.Valid() && H.Roomy(heap.blocks, n - 96)
    ensures fresh(queue) && fresh(queue.sentinal) && queue.Valid() && queue.contents == []
  {
    assert H.Rounded(8) == 16;
    H.RoomyServes(heap.blocks, 8, n);
    H.RoomyServes(H.AllocBlocks(heap.blocks, 8), 8, n - 48);
    var q := QueueNew(heap);
    queue := q;
  }

  /** semaphore_create */
  method SemaphoreInRoom(heap: M.Memory, count: int, ghost n: nat) returns (sem: Semaphore)
    requires heap.Valid() && 144 <= n && H.Roomy(heap.blocks, n)
    modifies heap`blockListHead, heap`blocks, heap.mem, heap.cpu
    ensures heap.Valid() && H.Roomy(heap.blocks, n - 144)
    ensures fresh(sem) && sem.count == count
    ensures fresh(sem.waitQueue) && fresh(sem.waitQueue.sentinal) && sem.waitQueue.Valid() && sem.waitQueue.contents == []
  {
    assert H.Rounded(8) == 16;
    var _ := SallocInRoom(heap, 8, n);
    var q := QueueInRoom(heap, n - 48);
    sem := new Semaphore(count, q);
  }

  predicate Distinct4<T(==)>(a: T, b: T, c: T, d: T) {
    a != b && a != c && a != d && b != c && b != d && c != d
  }

  /** The allocations of init_queues, init_semaphores and initalize_idle_process. */
  method BootObjects(heap: M.Memory) returns (run: Queue, dead: Queue, tick: Queue, sem: Semaphore, idle: Node)
    requires heap.Valid() && H.Roomy(heap.blocks, ROOM)
    modifies heap`blockListHead, heap`blocks, heap.mem, heap.cpu
    ensures heap.Valid() && H.Roomy(heap.blocks, ROOM - 496)
    ensures fresh(run) && fresh(dead) && fresh(tick) && fresh(sem) && fresh(sem.waitQueue) && fresh(idle)
    ensures fresh(run.sentinal) && fresh(dead.sentinal) && fresh(tick.sentinal) && fresh(sem.waitQueue.sentinal)
    ensures run.Valid() && dead.Valid() && tick.Valid() && sem.waitQueue.Valid()
    ensures run.contents == dead.contents == tick.contents == sem.waitQueue.contents == [] && sem.count == 0
    ensures Distinct4(run, dead, tick, sem.waitQueue)
    ensures Distinct4(run.sentinal, dead.sentinal, tick.sentinal, sem.waitQueue.sentinal)
    ensures idle !in {run.sentinal, dead.sentinal, tick.sentinal, sem.waitQueue.sentinal}
    ensures idle.pid == S.IDLE && Sys.Holds(heap.blocks, idle.addr, Sys.PCB_SIZE)
  {
    hide Queue.Valid, H.Roomy, Sys.Holds, M.Memory.Valid;
    run := QueueInRoom(heap, ROOM);
    dead := QueueInRoom(heap, ROOM - 96);
    tick := QueueInRoom(heap, ROOM - 192);
    sem := SemaphoreInRoom(heap, 0, ROOM - 288);
    assert H.Rounded(24) == 32;
    var addr := SallocInRoom(heap, 24, ROOM - 432);
    idle := new Node(addr, S.IDLE, 0);
  }

  /** Two queues share neither header nor node. */
  ghost predicate Separate(a: Queue, b: Queue)
    reads a, b
  {
    a != b && a.Nodes() !! b.Nodes()
  }

  class Kernel {
    const runQueue: Queue
    const tickQueue: Queue
    const deadQueue: Queue
    const deadQueueSemaphore: Semaphore
    const idleProcess: Node
    const heap: M.Memory
    var currentContextPcb: Node
    var nextPid: nat
    var ticks: nat
    /** The local variable of reaper_process. */
    var toFree: Node?
    ghost var sems: seq<Semaphore>      // all semaphores, the dead queue's first
    ghost var queues: set<Queue>        // all queues
    ghost var nodes: set<Node>          // all control blocks and sentinels
    ghost var procs: set<Node>          // the control blocks among them
    ghost var live: set<nat>
    ghost var reaper: S.ReaperPc

    /**
     * process_system_initialize up to its first process_stop, on a heap with enough room
     * in its first block: queues, dead semaphore, idle process, reaper and main process.
     */
    constructor (heap: M.Memory)
      requires heap.Valid() && H.Roomy(heap.blocks, ROOM)
      modifies heap`blockListHead, heap`blocks, heap.mem, heap.cpu
      ensures Valid() && Abs() == S.INIT && this.heap == heap
    {
      var run, dead, tick, sem, idle := BootObjects(heap);
      runQueue, deadQueue, tickQueue, deadQueueSemaphore := run, dead, tick, sem;
      idleProcess, currentContextPcb := idle, idle;
      this.heap := heap;
      nextPid, ticks, toFree := 1, 0, null;
      sems := [sem];
      queues := {run, dead, tick, sem.waitQueue};
      nodes := {idle, run.sentinal, dead.sentinal, tick.sentinal, sem.waitQueue.sentinal};
      procs, live, reaper := {idle}, {S.IDLE}, S.BeforeP;
      new;
      hide Lists, Loose, Shape, Abs, H.AllocBlocks, H.AllocPtr, H.Roomy, M.Memory.Valid, Ho.Housed, Sys.Holds;
      Booted();
      Ho.IdleIsHoused(heap.blocks, idle);
      BootProcesses();
    }

    /** process_fork of the reaper and of the main process, made by the boot code. */
    method BootProcesses()
      requires Shape() && Backed() && H.Roomy(heap.blocks, ROOM - 496)
      requires Abs() == S.State(S.IDLE, [], [], [], [S.Sem(0, [])], 0, 1, {S.IDLE}, S.BeforeP)
      modifies this`nextPid, this`nodes, this`procs, this`live, heap`blockListHead, heap`blocks, heap.mem, heap.cpu
      modifies queues, nodes`next, nodes`prev
      ensures Valid() && Abs() == S.INIT
    {
      hide Lists, Loose, Abs, Backed, CanCreate, H.AllocBlocks, H.AllocPtr, H.Roomy, P.Inv, S.Fork;
      ghost var s := Abs();
      BootIsTwoForks(s);
      RoomToCreate(ROOM - 496);
      var _ := CreateAndStart();
      RoomToCreate(ROOM - 496 - 0x8070);
      var _ := CreateAndStart();
      P.InitHolds();
    }

    lemma BootIsTwoForks(s: S.State)
      requires s == S.State(S.IDLE, [], [], [], [S.Sem(0, [])], 0, 1, {S.IDLE}, S.BeforeP)
      ensures S.Fork(S.Fork(s)) == S.INIT
    {
    }

    ghost predicate InRange(q: S.QueueId)
      reads this`sems
    {
      q.Wait? ==> q.sem < |sems|
    }

    ghost function QueueOf(q: S.QueueId): Queue
      requires InRange(q)
      reads this`sems
    {
      match q
      case Run => runQueue
      case Tick => tickQueue
      case Dead => deadQueue
      case Wait(i) => sems[i].waitQueue
    }

    /** The members of a queue. */
    ghost function C(q: S.QueueId): seq<Node>
      requires InRange(q)
      reads this`sems, QueueOf(q)
    {
      QueueOf(q).contents
    }

    ghost predicate ListOk(q: S.QueueId)
      requires InRange(q)
      reads this`sems, this`queues, this`nodes, this`procs, queues, nodes`next, nodes`prev
    {
      && QueueOf(q) in queues && QueueOf(q).Nodes() <= nodes && QueueOf(q).Valid()
      && QueueOf(q).sentinal !in procs
      && forall n :: n in C(q) ==> n in procs
    }

    /** All queues are well-formed lists over separate nodes. */
    ghost predicate Lists()
      reads this`sems, this`queues, this`nodes, this`procs, queues, nodes`next, nodes`prev
    {
      && procs <= nodes
      && (forall q :: InRange(q) ==> ListOk(q))
      && (forall q, r :: InRange(q) && InRange(r) && q != r ==> QueueOf(q) in queues && QueueOf(r) in queues && Separate(QueueOf(q), QueueOf(r)))
      && (forall i, j :: 0 <= i < j < |sems| ==> sems[i] != sems[j])
    }

    /** No list has n as a member. */
    ghost predicate Loose(n: Node)
      reads this`sems, this`queues, queues
    {
      forall q :: InRange(q) && QueueOf(q) in queues ==> n !in C(q)
    }

    /** queue_append to the queue called q. */
    method Enqueue(queue: Queue, n: Node, ghost q: S.QueueId)
      requires Lists() && InRange(q) && queue == QueueOf(q) && n in procs && Loose(n)
      modifies queue, queue.Nodes()`next, queue.Nodes()`prev, n`next, n`prev
      ensures Lists() && C(q) == old(C(q)) + [n]
      ensures forall r :: InRange(r) && r != q ==> C(r) == old(C(r))
    {
      assert ListOk(q);
      var _ := QueueAppend(queue, n);
      forall r | InRange(r)
        ensures ListOk(r) && (r != q ==> C(r) == old(C(r)))
      {
        assert old(ListOk(r));
        if r != q { assert old(Separate(QueueOf(q), QueueOf(r))); }
      }
      forall r, t | InRange(r) && InRange(t) && r != t
        ensures Separate(QueueOf(r), QueueOf(t))
      {
        assert old(Separate(QueueOf(r), QueueOf(t))) && old(ListOk(r)) && old(ListOk(t));
      }
    }

    /** queue_dequeue from the queue called q, which is not empty. */
    method DequeueFrom(queue: Queue, ghost q: S.QueueId) returns (n: Node)
      requires Lists() && InRange(q) && queue == QueueOf(q) && C(q) != []
      modifies queue, queue.Nodes()`next, queue.Nodes()`prev
      ensures Lists() && old(C(q)) == [n] + C(q) && n in procs && Loose(n)
      ensures forall r :: InRange(r) && r != q ==> C(r) == old(C(r))
    {
      assert ListOk(q);
      var _, item := QueueDequeue(queue);
      assert old(C(q))[0] == item;
      n := item;
      assert n !in C(q) by { HeadOnce(old(C(q)), n, C(q)); }
      forall r | InRange(r)
        ensures ListOk(r) && (r != q ==> C(r) == old(C(r)))
      {
        assert old(ListOk(r));
        if r != q { assert old(Separate(QueueOf(q), QueueOf(r))); }
      }
      forall r, t | InRange(r) && InRange(t) && r != t
        ensures Separate(QueueOf(r), QueueOf(t))
      {
        assert old(Separate(QueueOf(r), QueueOf(t))) && old(ListOk(r)) && old(ListOk(t));
      }
      forall r | InRange(r) && QueueOf(r) in queues
        ensures n !in C(r)
      {
        if r != q { assert old(Separate(QueueOf(q), QueueOf(r))) && n in old(QueueOf(q).Nodes()); }
      }
    }

    /** queue_delete_fast of the member at position k of the tick queue. */
    method DeleteSleeper(n: Node, ghost k: nat)
      requires Lists() && k < |C(S.Tick)| && C(S.Tick)[k] == n
      modifies tickQueue, tickQueue.Nodes()`next, tickQueue.Nodes()`prev
      ensures Lists() && C(S.Tick) == Without(old(C(S.Tick)), k) && n in procs && Loose(n)
      ensures forall r :: InRange(r) && r != S.Tick ==> C(r) == old(C(r))
    {
      assert ListOk(S.Tick);
      var _ := QueueDeleteFast(tickQueue, n, k);
      WithoutMembers(old(C(S.Tick)), k);
      assert n !in C(S.Tick);
      forall r | InRange(r)
        ensures ListOk(r) && (r != S.Tick ==> C(r) == old(C(r)))
      {
        assert old(ListOk(r));
        if r != S.Tick { assert old(Separate(QueueOf(S.Tick), QueueOf(r))); }
      }
      forall r, t | InRange(r) && InRange(t) && r != t
        ensures Separate(QueueOf(r), QueueOf(t))
      {
        assert old(Separate(QueueOf(r), QueueOf(t))) && old(ListOk(r)) && old(ListOk(t));
      }
      forall r | InRange(r) && QueueOf(r) in queues
        ensures n !in C(r)
      {
        if r != S.Tick { assert old(Separate(QueueOf(S.Tick), QueueOf(r))) && n in old(QueueOf(S.Tick).Nodes()); }
      }
    }

    // ----- the abstract state -----

    ghost predicate Shape()
      reads this, queues, nodes`next, nodes`prev
    {
      && Lists()
      && |sems| > S.DEAD_SEM && sems[S.DEAD_SEM] == deadQueueSemaphore
      && currentContextPcb in procs && idleProcess in procs
      && idleProcess.pid == S.IDLE
    }

    ghost function Abs(): S.State
      requires Lists()
      reads this, queues, nodes, sems
    {
      assert ListOk(S.Run) && ListOk(S.Tick) && ListOk(S.Dead);
      assert forall i :: 0 <= i < |sems| ==> sems[i].waitQueue in queues by {
        forall i | 0 <= i < |sems| ensures sems[i].waitQueue in queues { assert ListOk(S.Wait(i)); }
      }
      S.State(currentContextPcb.pid, Pids(runQueue.contents), Sleepers(tickQueue.contents), Pids(deadQueue.contents),
        Sems(sems), ticks, nextPid, live, reaper)
    }

    /** The queues of the abstract state are the pids along the lists. */
    lemma AbsQueue(q: S.QueueId)
      requires Lists() && InRange(q)
      ensures S.Q(Abs(), q) == Pids(C(q))
    {
    }

    /** A process that the abstract state has off every queue is on no list. */
    lemma Unlisted(n: Node)
      requires Lists() && !S.Queued(Abs(), n.pid)
      ensures Loose(n)
    {
      forall q | InRange(q)
        ensures n !in C(q)
      {
        AbsQueue(q);
        assert !S.On(Abs(), n.pid, q);
        assert forall i :: 0 <= i < |C(q)| && C(q)[i] == n ==> Pids(C(q))[i] == n.pid;
      }
    }

    lemma ListFacts(q: S.QueueId)
      requires Lists() && InRange(q)
      ensures QueueOf(q) in queues && QueueOf(q).Nodes() <= nodes && QueueOf(q).Valid()
      ensures NoDup(C(q)) && forall n :: n in C(q) ==> n in procs && n in QueueOf(q).Nodes()
      ensures procs <= nodes
    {
    }

    /** The parts of the abstract state that come from queues other than q. */
    twostate lemma Elsewhere(q: S.QueueId)
      requires old(Lists()) && Lists() && sems == old(sems) && InRange(q)
      requires forall r :: InRange(r) && r != q ==> C(r) == old(C(r))
      requires forall i :: 0 <= i < |sems| && S.Wait(i) != q ==> sems[i].count == old(sems[i].count)
      requires q != S.Tick ==> forall n :: n in old(C(S.Tick)) ==> n.awakenTick == old(n.awakenTick)
      ensures q != S.Run ==> Abs().run == old(Abs()).run
      ensures q != S.Tick ==> Abs().tick == old(Abs()).tick
      ensures q != S.Dead ==> Abs().dead == old(Abs()).dead
      ensures !q.Wait? ==> Abs().sems == old(Abs()).sems
      ensures q.Wait? ==> Abs().sems == old(Abs()).sems[q.sem := S.Sem(sems[q.sem].count, Pids(C(q)))]
    {
      if q != S.Tick { SleepersElsewhere(); }
      SemsElsewhere(q);
      assert q != S.Run ==> C(S.Run) == old(C(S.Run));
      assert q != S.Dead ==> C(S.Dead) == old(C(S.Dead));
    }

    twostate lemma SleepersElsewhere()
      requires old(Lists()) && Lists() && sems == old(sems) && C(S.Tick) == old(C(S.Tick))
      requires forall n :: n in old(C(S.Tick)) ==> n.awakenTick == old(n.awakenTick)
      ensures Abs().tick == old(Abs()).tick
    {
      forall i | 0 <= i < |C(S.Tick)|
        ensures Abs().tick[i] == old(Abs()).tick[i]
      {
      }
    }

    twostate lemma SemsElsewhere(q: S.QueueId)
      requires old(Lists()) && Lists() && sems == old(sems) && InRange(q)
      requires forall r :: InRange(r) && r != q ==> C(r) == old(C(r))
      requires forall i :: 0 <= i < |sems| && S.Wait(i) != q ==> sems[i].count == old(sems[i].count)
      ensures !q.Wait? ==> Abs().sems == old(Abs()).sems
      ensures q.Wait? ==> Abs().sems == old(Abs()).sems[q.sem := S.Sem(sems[q.sem].count, Pids(C(q)))]
    {
      forall i | 0 <= i < |sems| && S.Wait(i) != q
        ensures Abs().sems[i] == old(Abs()).sems[i]
      {
        assert C(S.Wait(i)) == old(C(S.Wait(i)));
      }
    }

    // ----- queue operations as they appear in the abstract state -----

    /** queue_append of a process that is on no list, to any queue but the sleepers'. */
    method AppendTo(queue: Queue, n: Node, ghost q: S.QueueId)
      requires Shape() && InRange(q) && q != S.Tick && queue == QueueOf(q) && n in procs && Loose(n)
      modifies queues, nodes`next, nodes`prev
      ensures Shape() && Abs() == Pre.Append(old(Abs()), q, n.pid)
    {
      hide Lists, Loose, Sleepers, Sems, Pids;
      ListFacts(q);
      ListFacts(S.Tick);
      Enqueue(queue, n, q);
      PidsAppend(old(C(q)), n);
      Elsewhere(q);
      if q.Wait? { SemAt(q.sem); SemBefore(q.sem); }
    }

    /** queue_append to the tick queue; the wake-up time has been set. */
    method AppendSleeper(n: Node)
      requires Shape() && n in procs && Loose(n)
      modifies queues, nodes`next, nodes`prev
      ensures Shape() && Abs() == old(Abs()).(tick := old(Abs()).tick + [S.Sleeper(n.pid, n.awakenTick)])
    {
      hide Lists, Loose, Sems, Pids;
      ListFacts(S.Tick);
      Enqueue(tickQueue, n, S.Tick);
      assert (old(C(S.Tick)) + [n])[..|old(C(S.Tick))|] == old(C(S.Tick));
      SleepersStay(old(C(S.Tick)));
      Elsewhere(S.Tick);
    }

    /** queue_dequeue from the dead queue or a wait queue that is not empty. */
    method TakeFrom(queue: Queue, ghost q: S.QueueId) returns (n: Node)
      requires Shape() && InRange(q) && q != S.Tick && q != S.Run && queue == QueueOf(q) && C(q) != []
      modifies queues, nodes`next, nodes`prev
      ensures Shape() && n in procs && Loose(n)
      ensures old(S.Q(Abs(), q)) != [] && n.pid == old(S.Q(Abs(), q))[0]
      ensures Abs() == Pre.TakeHead(old(Abs()), q)
    {
      hide Lists, Loose, Sleepers, Sems, Pids;
      ListFacts(q);
      ListFacts(S.Tick);
      AbsQueue(q);
      if q.Wait? { SemAt(q.sem); }
      n := DequeueFrom(queue, q);
      PidsTail(n, C(q));
      Elsewhere(q);
    }

    twostate lemma SleepersStay(c: seq<Node>)
      requires forall n :: n in c ==> n.awakenTick == old(n.awakenTick)
      ensures Sleepers(c) == old(Sleepers(c))
    {
      assert forall i :: 0 <= i < |c| ==> Sleepers(c)[i] == old(Sleepers(c))[i];
    }

    lemma SemAt(i: nat)
      requires Lists() && i < |sems|
      ensures Abs().sems[i] == S.Sem(sems[i].count, Pids(C(S.Wait(i))))
      ensures |Abs().sems| == |sems|
    {
    }

    twostate lemma SemBefore(i: nat)
      requires old(Lists()) && i < old(|sems|)
      ensures old(Abs()).sems[i] == S.Sem(old(sems[i].count), Pids(old(C(S.Wait(i)))))
    {
    }

    lemma SemsDiffer(i: nat)
      requires Lists() && i < |sems|
      ensures forall j :: 0 <= j < |sems| && j != i ==> sems[j] != sems[i]
    {
    }

    /** sem->count++ and sem->count-- */
    method AddToCount(sem: Semaphore, delta: int, ghost i: nat)
      requires Shape() && i < |sems| && sems[i] == sem
      modifies sem`count
      ensures Shape() && Abs() == Pre.CountSem(old(Abs()), i, delta) && sem.count == old(sem.count) + delta
      ensures forall q :: InRange(q) ==> C(q) == old(C(q))
    {
      hide Lists, Sleepers, Sems, Pids;
      ListFacts(S.Tick);
      SemsDiffer(i);
      SemAt(i);
      sem.count := sem.count + delta;
      Elsewhere(S.Wait(i));
    }

    /** process_start */
    method ProcessStart(t: Node)
      requires Shape() && t in procs && Loose(t)
      modifies queues, nodes`next, nodes`prev
      ensures Shape() && Abs() == S.Start(old(Abs()), t.pid)
    {
      AppendTo(runQueue, t, S.Run);
    }

    /** schedule_next_process, up to and including the choice of the next process. */
    method ScheduleNextProcess()
      requires Shape()
      modifies this`currentContextPcb, queues, nodes`next, nodes`prev
      ensures Shape() && Abs() == S.Dispatch(old(Abs()))
    {
      hide Lists, Loose, Sleepers, Sems, Pids;
      ListFacts(S.Run);
      ListFacts(S.Tick);
      AbsQueue(S.Run);
      var length := QueueLength(runQueue);
      if length > 0 {
        var next := DequeueFrom(runQueue, S.Run);
        PidsTail(next, C(S.Run));
        currentContextPcb := next;
      } else {
        currentContextPcb := idleProcess;
      }
      Elsewhere(S.Run);
    }
  
    /** semaphore_P; on the blocking branch the caller has given up the processor. */
    method SemaphoreP(sem: Semaphore, ghost i: nat)
      requires Shape() && i < |sems| && sems[i] == sem
      requires sem.count <= 0 ==> Loose(currentContextPcb)
      modifies sem`count, this`currentContextPcb, queues, nodes`next, nodes`prev
      ensures Shape() && Abs() == S.SemP(old(Abs()), i)
    {
      hide Lists, Loose, Abs;
      SemAt(i);
      SemPByParts(Abs(), i);
      CurrentPid();
      AddToCount(sem, -1, i);
      if sem.count < 0 {
        SameLoose(currentContextPcb);
        AppendTo(sem.waitQueue, currentContextPcb, S.Wait(i));
        ScheduleNextProcess();
      }
    }

    /** semaphore_V */
    method SemaphoreV(sem: Semaphore, ghost i: nat)
      requires Shape() && i < |sems| && sems[i] == sem
      modifies sem`count, queues, nodes`next, nodes`prev
      ensures Shape() && Abs() == S.SemV(old(Abs()), i)
    {
      hide Lists, Loose, Abs;
      SemAt(i);
      ListFacts(S.Wait(i));
      AddToCount(sem, 1, i);
      SemAt(i);
      ListFacts(S.Wait(i));
      var waiting := QueueLength(sem.waitQueue);
      if waiting > 0 {
        var toStart := TakeFrom(sem.waitQueue, S.Wait(i));
        ProcessStart(toStart);
      }
    }

    twostate lemma SameLoose(n: Node)
      requires old(Lists()) && Lists() && old(Loose(n)) && sems == old(sems) && queues == old(queues)
      requires forall q :: InRange(q) ==> C(q) == old(C(q))
      ensures Loose(n)
    {
      forall q | InRange(q) && QueueOf(q) in queues
        ensures n !in C(q)
      {
        assert C(q) == old(C(q)) && old(ListOk(q));
      }
    }
  
    // ----- the calls -----

    /** Every live process holds the blocks it should, and shares none. */
    ghost predicate Addressed()
      reads this`procs, this`live, this`reaper, this`nextPid, heap
    {
      Ho.Housed(heap.blocks, procs, idleProcess, live, reaper, nextPid)
    }

    /** What the reaper holds is a control block, and heap and processes agree. */
    ghost predicate Backed()
      reads this`procs, this`toFree, this`reaper, this`live, this`nextPid, heap, heap.mem
    {
      && heap.Valid() && Addressed()
      && ((reaper.FreeStack? || reaper.FreePcb?) ==>
           toFree != null && toFree in procs && toFree.pid == reaper.victim && toFree != idleProcess)
    }

    /** The invariant between calls: the abstract state satisfies that of module Placement. */
    ghost predicate Valid()
      reads this, queues, nodes, sems, heap, heap.mem
    {
      Shape() && P.Inv(Abs()) && Backed()
    }

    /** The current process is on no list, so a call may put it on one. */
    lemma CurrentIsLoose()
      requires Valid()
      ensures Loose(currentContextPcb)
    {
      hide P.Counts, P.Clocks, P.QueuesOk, S.Queued;
      Unlisted(currentContextPcb);
    }

    method ProcessYield()
      requires Valid() && S.Enabled(Abs(), S.EYield)
      modifies this`currentContextPcb, queues, nodes`next, nodes`prev
      ensures Valid() && Abs() == S.Step(old(Abs()), S.EYield)
    {
      hide P.Inv, Lists, Loose, Abs, Backed;
      CurrentIsLoose();
      CurrentPid();
      P.StepKeepsInv(Abs(), S.EYield);
      ProcessStart(currentContextPcb);
      ScheduleNextProcess();
    }

    lemma CurrentPid()
      requires Shape()
      ensures Abs().current == currentContextPcb.pid && Abs().ticks == ticks && Abs().reaper == reaper
      ensures Abs().nextPid == nextPid && Abs().live == live && |Abs().sems| == |sems|
    {
    }

    method ProcSleepMs(sleepMs: int)
      requires Valid() && S.Enabled(Abs(), S.ESleep(sleepMs))
      modifies this`currentContextPcb, currentContextPcb`awakenTick, queues, nodes`next, nodes`prev
      ensures Valid() && Abs() == S.Step(old(Abs()), S.ESleep(sleepMs))
    {
      hide P.Inv, Lists, Loose, Abs, Backed, S.WakeTick, S.Dispatch;
      CurrentIsLoose();
      CurrentPid();
      P.StepKeepsInv(Abs(), S.ESleep(sleepMs));
      var tick := AwakenTickFor(sleepMs);
      SetAwakenTick(tick);
      AppendSleeper(currentContextPcb);
      ScheduleNextProcess();
    }

    /** The division truncates toward zero, and the sum is stored in 32 bits without a sign. */
    method AwakenTickFor(sleepMs: int) returns (tick: nat)
      ensures tick == S.WakeTick(sleepMs, ticks)
    {
      var periods := if sleepMs >= 0 then sleepMs / S.TICK_MS else -((-sleepMs) / S.TICK_MS);
      tick := (periods + ticks) % WORD;
    }

    /** The wake-up time of a process that is not asleep is its own business. */
    method SetAwakenTick(tick: nat)
      requires Shape() && Loose(currentContextPcb)
      modifies currentContextPcb`awakenTick
      ensures Shape() && Abs() == old(Abs()) && Loose(currentContextPcb)
      ensures currentContextPcb.awakenTick == tick
    {
      hide Loose, Sems, Pids;
      LooseFromTick();
      ListFacts(S.Tick);
      currentContextPcb.awakenTick := tick;
      SleepersStay(C(S.Tick));
      SameLoose(currentContextPcb);
    }

    lemma LooseFromTick()
      requires Lists() && Loose(currentContextPcb)
      ensures currentContextPcb !in C(S.Tick)
    {
      assert ListOk(S.Tick);
    }

    method SemaphorePCall(sem: Semaphore, ghost i: nat)
      requires Valid() && S.Enabled(Abs(), S.EP(i)) && i < |sems| && sems[i] == sem
      modifies sem`count, this`currentContextPcb, queues, nodes`next, nodes`prev
      ensures Valid() && Abs() == S.Step(old(Abs()), S.EP(i))
    {
      hide P.Inv, Lists, Loose, Abs, Backed;
      CurrentIsLoose();
      P.StepKeepsInv(Abs(), S.EP(i));
      SemaphoreP(sem, i);
    }

    method SemaphoreVCall(sem: Semaphore, ghost i: nat)
      requires Valid() && S.Enabled(Abs(), S.EV(i)) && i < |sems| && sems[i] == sem
      modifies sem`count, queues, nodes`next, nodes`prev
      ensures Valid() && Abs() == S.Step(old(Abs()), S.EV(i))
    {
      hide P.Inv, Lists, Loose, Abs, Backed;
      P.StepKeepsInv(Abs(), S.EV(i));
      SemaphoreV(sem, i);
    }

    /** cleanup: the current process ends. */
    method Cleanup()
      requires Valid() && S.Enabled(Abs(), S.EExit)
      modifies deadQueueSemaphore`count, this`currentContextPcb, queues, nodes`next, nodes`prev
      ensures Valid() && Abs() == S.Step(old(Abs()), S.EExit)
    {
      hide P.Inv, Lists, Loose, Abs, Backed;
      CurrentIsLoose();
      CurrentPid();
      P.StepKeepsInv(Abs(), S.EExit);
      AppendTo(deadQueue, currentContextPcb, S.Dead);
      SemaphoreV(deadQueueSemaphore, S.DEAD_SEM);
      ScheduleNextProcess();
    }

    /** The loop of idle_process in process_system_initialize. */
    method IdleLoop()
      requires Valid() && S.Enabled(Abs(), S.EIdleLoop)
      modifies this`currentContextPcb, queues, nodes`next, nodes`prev
      ensures Valid() && Abs() == S.Step(old(Abs()), S.EIdleLoop)
    {
      hide P.Inv, Lists, Loose, Abs, Backed;
      P.StepKeepsInv(Abs(), S.EIdleLoop);
      ScheduleNextProcess();
    }

    // ----- the clock -----

    /** One round of the loop in clock_handler. */
    method AwakenOne(proc: Node, ghost k: nat)
      requires Shape() && k < |C(S.Tick)| && C(S.Tick)[k] == proc
      modifies queues, nodes`next, nodes`prev
      ensures Shape() && k < |old(Abs()).tick| && Abs() == P.Awakened(old(Abs()), k)
      ensures |C(S.Tick)| < |old(C(S.Tick))|
    {
      hide Lists, Loose, Abs;
      TickLength();
      RemoveSleeper(proc, k);
      ProcessStart(proc);
      TickLength();
    }

    lemma TickLength()
      requires Lists()
      ensures |Abs().tick| == |C(S.Tick)|
      ensures forall i :: 0 <= i < |C(S.Tick)| ==> Abs().tick[i] == S.Sleeper(C(S.Tick)[i].pid, C(S.Tick)[i].awakenTick)
    {
    }

    method RemoveSleeper(n: Node, ghost k: nat)
      requires Shape() && k < |C(S.Tick)| && C(S.Tick)[k] == n
      modifies queues, nodes`next, nodes`prev
      ensures Shape() && n in procs && Loose(n) && |C(S.Tick)| == |old(C(S.Tick))| - 1
      ensures k < |old(Abs()).tick| && n.pid == old(Abs()).tick[k].pid
      ensures Abs() == old(Abs()).(tick := Without(old(Abs()).tick, k))
    {
      hide Lists, Loose, Sems, Pids;
      ListFacts(S.Tick);
      TickLength();
      DeleteSleeper(n, k);
      TickLength();
      assert Abs().tick == Without(old(Abs()).tick, k);
      Elsewhere(S.Tick);
    }

    /** should_awaken */
    static predicate ShouldAwaken(proc: Node, tick: nat)
      reads proc`awakenTick
    {
      proc.awakenTick <= tick
    }

    /**
     * clock_handler: find the first due sleeper, delete it, start it, and begin again,
     * until nobody is due; then yield.
     */
    method ClockHandler()
      requires Valid() && S.Enabled(Abs(), S.EClock)
      modifies this`ticks, this`currentContextPcb, queues, nodes`next, nodes`prev
      ensures Valid() && Abs() == S.Step(old(Abs()), S.EClock)
    {
      hide P.Inv, Lists, Loose, Abs, Backed, S.Dispatch;
      ghost var s := Abs();
      P.StepKeepsInv(s, S.EClock);
      CurrentPid();
      SweptIsPlaced(s);
      Tick();
      AwakenAll();
      Unlisted(currentContextPcb);
      ProcessStart(currentContextPcb);
      ScheduleNextProcess();
    }

    /** The sweep leaves the interrupted process off every queue. */
    lemma SweptIsPlaced(s: S.State)
      requires P.Inv(s)
      ensures !S.Queued(S.Awaken(s.(ticks := s.ticks + 1)), s.current)
    {
      hide P.QueuesOk, S.Queued, S.Due, S.NotDue;
      var u := s.(ticks := s.ticks + 1);
      P.StaysPlaced(s, u);
      P.AwakenPlaced(u);
    }

    /** The loop of clock_handler computes the stable partition of the sleepers. */
    method AwakenAll()
      requires Shape()
      modifies queues, nodes`next, nodes`prev
      ensures Shape() && Abs() == S.Awaken(old(Abs()))
      ensures currentContextPcb == old(currentContextPcb)
    {
      hide Lists, Loose, Abs, FirstIsDue, NobodyIsDue, S.Awaken, ListOk;
      ghost var s := Abs();
      CurrentPid();
      var r, proc, k: nat := FindDue();
      while r == 0
        invariant Shape() && S.Awaken(Abs()) == S.Awaken(s) && Abs().ticks == ticks == s.ticks
        invariant r == 0 ==> proc != null && k < |C(S.Tick)| && C(S.Tick)[k] == proc && FirstIsDue(k)
        invariant r != 0 ==> NobodyIsDue()
        decreases |C(S.Tick)|
      {
        SweepRound(k);
        AwakenOne(proc, k);
        CurrentPid();
        r, proc, k := FindDue();
      }
      SweepDone();
    }

    /** queue_find(tick_queue, should_awaken, ticks) */
    method FindDue() returns (r: int, proc: Node?, ghost k: nat)
      requires Lists()
      ensures r == 0 ==> proc != null && k < |C(S.Tick)| && C(S.Tick)[k] == proc && FirstIsDue(k)
      ensures r != 0 ==> NobodyIsDue()
    {
      assert ListOk(S.Tick);
      r, proc, k := QueueFind(tickQueue, ShouldAwaken, ticks);
    }

    /** Position k holds the first sleeper that is due. */
    ghost predicate FirstIsDue(k: nat)
      requires Lists() && k < |C(S.Tick)|
      reads this, queues, nodes
    {
      assert ListOk(S.Tick);
      && ShouldAwaken(C(S.Tick)[k], ticks)
      && forall i :: 0 <= i < k ==> !ShouldAwaken(C(S.Tick)[i], ticks)
    }

    ghost predicate NobodyIsDue()
      requires Lists()
      reads this, queues, nodes
    {
      assert ListOk(S.Tick);
      forall n :: n in C(S.Tick) ==> !ShouldAwaken(n, ticks)
    }

    lemma SweepRound(k: nat)
      requires Lists() && k < |C(S.Tick)| && FirstIsDue(k)
      ensures k < |Abs().tick| && S.Awaken(P.Awakened(Abs(), k)) == S.Awaken(Abs())
    {
      hide S.Due, S.NotDue, Sleepers, Sems, Pids;
      TickLength();
      P.RoundOfPartition(Abs().tick, k, ticks);
    }

    lemma SweepDone()
      requires Lists() && NobodyIsDue()
      ensures S.Awaken(Abs()) == Abs()
    {
      hide S.Due, S.NotDue, Sleepers, Sems, Pids;
      TickLength();
      forall i | 0 <= i < |Abs().tick|
        ensures !S.IsDue(Abs().tick[i], ticks)
      {
        assert C(S.Tick)[i] in C(S.Tick);
      }
      P.NobodyDue(Abs().tick, ticks);
    }

    method Tick()
      requires Shape()
      modifies this`ticks
      ensures Shape() && Abs() == old(Abs()).(ticks := old(Abs()).ticks + 1)
    {
      ticks := ticks + 1;
    }
  
    // ----- the reaper -----

    lemma ReaperMoves(pc: S.ReaperPc)
      requires Addressed() && !reaper.FreePcb? && !pc.FreePcb?
      ensures Ho.Housed(heap.blocks, procs, idleProcess, live, pc, nextPid)
    {
      Ho.ReaperMovesHoused(heap.blocks, procs, idleProcess, live, reaper, pc, nextPid);
    }

    /** Bookkeeping of where the reaper stands. */
    ghost method SetReaper(pc: S.ReaperPc)
      requires Shape()
      modifies this`reaper
      ensures Shape() && Abs() == old(Abs()).(reaper := pc) && reaper == pc
    {
      reaper := pc;
    }

    /** The loop of reaper_process, first statement: semaphore_P. */
    method ReaperP()
      requires Valid() && S.Enabled(Abs(), S.EReaperP)
      modifies this`reaper, deadQueueSemaphore`count, this`currentContextPcb, queues, nodes`next, nodes`prev
      ensures Valid() && Abs() == S.Step(old(Abs()), S.EReaperP)
    {
      hide P.Inv, Lists, Loose, Abs, M.Memory.Valid, Ho.Housed;
      CurrentIsLoose();
      CurrentPid();
      P.StepKeepsInv(Abs(), S.EReaperP);
      ReaperMoves(S.InP);
      SetReaper(S.InP);
      SemaphoreP(deadQueueSemaphore, S.DEAD_SEM);
      CurrentPid();
    }

    /** Second: queue_dequeue of the dead queue, which is not empty. */
    method ReaperDequeue()
      requires Valid() && S.Enabled(Abs(), S.EReaperDequeue)
      modifies this`reaper, this`toFree, queues, nodes`next, nodes`prev
      ensures Valid() && Abs() == S.Step(old(Abs()), S.EReaperDequeue)
      ensures toFree != null && reaper == S.FreeStack(toFree.pid)
    {
      hide P.Inv, Lists, Loose, Abs, M.Memory.Valid, Ho.Housed;
      ghost var s := Abs();
      CurrentPid();
      P.DeadQueueFilled(s);
      AbsQueue(S.Dead);
      P.StepKeepsInv(s, S.EReaperDequeue);
      VictimIsNotIdle(S.Step(s, S.EReaperDequeue));
      var victim := TakeFrom(deadQueue, S.Dead);
      ReaperMoves(S.FreeStack(victim.pid));
      HoldVictim(victim);
    }

    lemma VictimIsNotIdle(s: S.State)
      requires P.Inv(s) && s.reaper.FreeStack?
      ensures s.reaper.victim != S.IDLE
    {
    }

    method HoldVictim(victim: Node)
      requires Shape()
      modifies this`reaper, this`toFree
      ensures Shape() && Abs() == old(Abs()).(reaper := S.FreeStack(victim.pid))
      ensures toFree == victim && reaper == S.FreeStack(victim.pid)
    {
      toFree := victim;
      reaper := S.FreeStack(victim.pid);
    }

    /** Third: sfree of the stack. */
    method ReaperFreeStack()
      requires Valid() && S.Enabled(Abs(), S.EReaperFreeStack)
      modifies this`reaper, heap`blockListHead, heap`blocks, heap.mem
      ensures Valid() && Abs() == S.Step(old(Abs()), S.EReaperFreeStack)
      ensures toFree != null && H.IsLive(old(heap.blocks), toFree.stackbase) && H.Owns(old(heap.blocks), toFree.stackbase)
      ensures heap.blocks == H.FreeBlocks(old(heap.blocks), toFree.stackbase)
    {
      hide P.Inv, Lists, Abs, H.Owns, H.IsLive, H.FreeBlocks, M.Memory.Valid, Ho.Housed;
      CurrentPid();
      VictimIsLive(Abs());
      P.StepKeepsInv(Abs(), S.EReaperFreeStack);
      HeapIsOk();
      Ho.FreeStackKeepsHoused(heap.blocks, toFree, procs, idleProcess, live, nextPid, heap.base, heap.total);
      heap.Sfree(toFree.stackbase);
      SetReaper(S.FreePcb(toFree.pid));
    }

    /** Fourth: sfree of the control block. */
    method ReaperFreePcb()
      requires Valid() && S.Enabled(Abs(), S.EReaperFreePcb)
      modifies this`reaper, this`live, heap`blockListHead, heap`blocks, heap.mem
      ensures Valid() && Abs() == S.Step(old(Abs()), S.EReaperFreePcb)
      ensures toFree != null && H.IsLive(old(heap.blocks), toFree.addr) && H.Owns(old(heap.blocks), toFree.addr)
      ensures heap.blocks == H.FreeBlocks(old(heap.blocks), toFree.addr)
    {
      hide P.Inv, Lists, Abs, H.Owns, H.IsLive, H.FreeBlocks, M.Memory.Valid, Ho.Housed;
      CurrentPid();
      VictimIsLive(Abs());
      P.StepKeepsInv(Abs(), S.EReaperFreePcb);
      HeapIsOk();
      Ho.FreePcbKeepsHoused(heap.blocks, toFree, procs, idleProcess, live, nextPid, heap.base, heap.total);
      heap.Sfree(toFree.addr);
      Forget(toFree.pid);
    }

    lemma HeapIsOk()
      requires heap.Valid()
      ensures H.HeapInv(heap.blocks, heap.base, heap.total) && H.Arena(heap.base, heap.total)
    {
    }

    lemma VictimIsLive(s: S.State)
      requires P.Inv(s) && (s.reaper.FreeStack? || s.reaper.FreePcb?)
      ensures s.reaper.victim in s.live
    {
      assert S.Held(s, s.reaper.victim);
    }

    ghost method Forget(pid: nat)
      requires Shape()
      modifies this`reaper, this`live
      ensures Shape() && Abs() == old(Abs()).(reaper := S.BeforeP, live := old(Abs()).live - {pid})
      ensures reaper == S.BeforeP && live == old(live) - {pid}
    {
      reaper := S.BeforeP;
      live := live - {pid};
    }

    // ----- fork -----

    /** create_process does not look at what salloc returns, so both calls have to succeed. */
    ghost predicate CanCreate()
      reads heap
    {
      H.AllocPtr(heap.blocks, 24) != 0 && H.AllocPtr(H.AllocBlocks(heap.blocks, 24), 0x8000) != 0
    }

    method CreateProcess() returns (n: Node)
      requires Shape() && Backed() && CanCreate()
      modifies this`nextPid, this`nodes, this`procs, this`live, heap`blockListHead, heap`blocks, heap.mem, heap.cpu
      ensures Shape() && Backed() && n in procs && Loose(n) && n.pid == old(nextPid)
      ensures nodes == old(nodes) + {n} && fresh(n)
      ensures Abs() == old(Abs()).(nextPid := old(nextPid) + 1, live := old(live) + {old(nextPid)})
      ensures n.addr == H.AllocPtr(old(heap.blocks), 24)
      ensures n.stackbase == H.AllocPtr(H.AllocBlocks(old(heap.blocks), 24), 0x8000)
      ensures heap.blocks == H.AllocBlocks(H.AllocBlocks(old(heap.blocks), 24), 0x8000)
      ensures !heap.cpu.irqEnabled
    {
      hide H.AllocBlocks, H.AllocPtr, M.Memory.Valid, Lists, Loose, Abs, Shape, Ho.Housed;
      HeapIsOk();
      ghost var bs, were, lived := heap.blocks, procs, live;
      var addr, stack := AllocateProcess();
      n := new Node(addr, nextPid, stack);
      Register(n);
      Ho.NewIsHoused(bs, n, were, idleProcess, lived, reaper, n.pid, heap.base, heap.total);
    }

    /** The two sallocs of create_process. */
    method AllocateProcess() returns (addr: nat, stack: nat)
      requires heap.Valid() && CanCreate()
      modifies heap`blockListHead, heap`blocks, heap.mem, heap.cpu
      ensures heap.Valid()
      ensures addr == H.AllocPtr(old(heap.blocks), 24)
      ensures stack == H.AllocPtr(H.AllocBlocks(old(heap.blocks), 24), 0x8000)
      ensures heap.blocks == H.AllocBlocks(H.AllocBlocks(old(heap.blocks), 24), 0x8000)
      ensures !heap.cpu.irqEnabled
    {
      hide H.AllocBlocks, H.AllocPtr, M.Memory.Valid;
      addr := heap.Salloc(24);
      stack := heap.Salloc(0x8000);
    }

    /** A control block that no list knows yet gets the next pid. */
    method Register(n: Node)
      requires Shape() && n !in nodes && n.pid == nextPid
      modifies this`nextPid, this`nodes, this`procs, this`live
      ensures Shape() && Loose(n) && procs == old(procs) + {n} && nodes == old(nodes) + {n}
      ensures nextPid == old(nextPid) + 1 && live == old(live) + {old(nextPid)}
      ensures Abs() == old(Abs()).(nextPid := old(nextPid) + 1, live := old(live) + {old(nextPid)})
    {
      hide Sleepers, Sems, Pids, Queue.Valid;
      nextPid := nextPid + 1;
      live := live + {n.pid};
      nodes := nodes + {n};
      procs := procs + {n};
      forall q | InRange(q)
        ensures ListOk(q) && n !in C(q)
      {
        assert old(ListOk(q));
      }
      Elsewhere(S.Run);
    }

    /** process_fork, made by a running process. */
    method ProcessFork() returns (n: Node)
      requires Valid() && S.Enabled(Abs(), S.EFork) && CanCreate()
      modifies this`nextPid, this`nodes, this`procs, this`live, heap`blockListHead, heap`blocks, heap.mem, heap.cpu
      modifies queues, nodes`next, nodes`prev
      ensures Valid() && Abs() == S.Step(old(Abs()), S.EFork)
      ensures fresh(n) && n.pid == old(nextPid) && n.addr == H.AllocPtr(old(heap.blocks), 24)
      ensures heap.blocks == H.AllocBlocks(H.AllocBlocks(old(heap.blocks), 24), 0x8000)
    {
      hide P.Inv, Lists, Loose, Abs, Backed, H.AllocBlocks, H.AllocPtr;
      P.StepKeepsInv(Abs(), S.EFork);
      n := CreateAndStart();
    }

    /** The two statements of process_fork. */
    method CreateAndStart() returns (n: Node)
      requires Shape() && Backed() && CanCreate()
      modifies this`nextPid, this`nodes, this`procs, this`live, heap`blockListHead, heap`blocks, heap.mem, heap.cpu
      modifies queues, nodes`next, nodes`prev
      ensures Shape() && Backed() && Abs() == S.Fork(old(Abs()))
      ensures fresh(n) && n.pid == old(nextPid) && n.addr == H.AllocPtr(old(heap.blocks), 24)
      ensures heap.blocks == H.AllocBlocks(H.AllocBlocks(old(heap.blocks), 24), 0x8000)
      ensures nodes == old(nodes) + {n}
    {
      hide Lists, Loose, Abs, Backed, CanCreate, H.AllocBlocks, H.AllocPtr;
      CurrentPid();
      n := CreateProcess();
      ProcessStart(n);
    }
  
    /** The fields as the constructor has set them describe a kernel with idle alone. */
    lemma Booted()
      requires |sems| == 1 && sems[0] == deadQueueSemaphore && currentContextPcb == idleProcess && idleProcess.pid == S.IDLE
      requires queues == {runQueue, deadQueue, tickQueue, deadQueueSemaphore.waitQueue}
      requires procs == {idleProcess}
      requires nodes == {idleProcess, runQueue.sentinal, deadQueue.sentinal, tickQueue.sentinal, deadQueueSemaphore.waitQueue.sentinal}
      requires forall q :: InRange(q) ==> QueueOf(q).Valid() && C(q) == [] && QueueOf(q).sentinal != idleProcess
      requires forall q, r :: InRange(q) && InRange(r) && q != r ==> QueueOf(q) != QueueOf(r) && QueueOf(q).sentinal != QueueOf(r).sentinal
      requires nextPid == 1 && ticks == 0 && live == {S.IDLE} && reaper == S.BeforeP
      ensures Shape()
      ensures Abs() == S.State(S.IDLE, [], [], [], [S.Sem(deadQueueSemaphore.count, [])], 0, 1, {S.IDLE}, S.BeforeP)
    {
      forall q | InRange(q) ensures ListOk(q) {}
      forall q, r | InRange(q) && InRange(r) && q != r
        ensures QueueOf(q) in queues && QueueOf(r) in queues && Separate(QueueOf(q), QueueOf(r))
      {
      }
      assert C(S.Run) == [] && C(S.Tick) == [] && C(S.Dead) == [] && C(S.Wait(0)) == [];
    }

    lemma RoomToCreate(n: nat)
      requires H.Roomy(heap.blocks, n) && 0x8070 <= n
      ensures CanCreate()
      ensures H.Roomy(H.AllocBlocks(H.AllocBlocks(heap.blocks, 24), 0x8000), n - 0x8070)
    {
      hide H.AllocBlocks, H.AllocPtr, H.Roomy;
      assert H.Rounded(24) == 32 && H.Rounded(0x8000) == 0x8010;
      H.RoomyServes(heap.blocks, 24, n);
      H.RoomyServes(H.AllocBlocks(heap.blocks, 24), 0x8000, n - 64);
    }

    /** semaphore_create, called by a process; the code relies on its three allocations. */
    method SemaphoreCreate(count: int) returns (sem: Semaphore)
      requires Valid() && S.Enabled(Abs(), S.ESemCreate(count))
      requires H.AllocPtr(heap.blocks, 8) != 0 && H.AllocPtr(H.AllocBlocks(heap.blocks, 8), 8) != 0
      requires H.AllocPtr(H.AllocBlocks(H.AllocBlocks(heap.blocks, 8), 8), 8) != 0
      modifies this`sems, this`queues, this`nodes, heap`blockListHead, heap`blocks, heap.mem, heap.cpu
      ensures Valid() && Abs() == S.Step(old(Abs()), S.ESemCreate(count))
      ensures fresh(sem) && sems == old(sems) + [sem]
      ensures heap.blocks == H.AllocBlocks(H.AllocBlocks(H.AllocBlocks(old(heap.blocks), 8), 8), 8)
    {
      hide P.Inv, Lists, Abs, H.AllocBlocks, H.AllocPtr, M.Memory.Valid, Ho.Housed;
      P.StepKeepsInv(Abs(), S.ESemCreate(count));
      SmallBlocksKeepHoused();
      var _ := heap.Salloc(8);
      var queue := QueueNew(heap);
      sem := new Semaphore(count, queue);
      AddSemaphore(sem);
    }

    lemma SmallBlocksKeepHoused()
      requires heap.Valid() && Addressed()
      ensures Ho.Housed(H.AllocBlocks(H.AllocBlocks(H.AllocBlocks(heap.blocks, 8), 8), 8), procs, idleProcess, live, reaper, nextPid)
    {
      hide H.AllocBlocks, Ho.Housed, H.HeapInv, H.Arena;
      HeapIsOk();
      var b1 := H.AllocBlocks(heap.blocks, 8);
      var b2 := H.AllocBlocks(b1, 8);
      Ho.AllocKeepsHoused(heap.blocks, 8, procs, idleProcess, live, reaper, nextPid, heap.base, heap.total);
      Ho.AllocKeepsHoused(b1, 8, procs, idleProcess, live, reaper, nextPid, heap.base, heap.total);
      Ho.AllocKeepsHoused(b2, 8, procs, idleProcess, live, reaper, nextPid, heap.base, heap.total);
    }

    /** A new semaphore with an empty queue joins the others. */
    ghost method AddSemaphore(sem: Semaphore)
      requires Shape() && sem !in sems && sem.waitQueue !in queues && sem.waitQueue.sentinal !in nodes
      requires sem.waitQueue.Valid() && sem.waitQueue.contents == []
      modifies this`sems, this`queues, this`nodes
      ensures Shape() && sems == old(sems) + [sem]
      ensures Abs() == old(Abs()).(sems := old(Abs()).sems + [S.Sem(sem.count, [])])
    {
      hide Lists, Sleepers, Sems, Pids;
      AddWaitQueue(sem);
      ListFacts(S.Tick);
      SemsGrew(sem);
    }

    ghost method AddWaitQueue(sem: Semaphore)
      requires Lists() && sem !in sems && sem.waitQueue !in queues && sem.waitQueue.sentinal !in nodes
      requires sem.waitQueue.Valid() && sem.waitQueue.contents == []
      modifies this`sems, this`queues, this`nodes
      ensures Lists() && sems == old(sems) + [sem] && queues == old(queues) + {sem.waitQueue}
      ensures forall q :: old(InRange(q)) ==> C(q) == old(C(q))
    {
      hide Queue.Valid;
      sems := sems + [sem];
      queues := queues + {sem.waitQueue};
      nodes := nodes + {sem.waitQueue.sentinal};
      var added := S.Wait(|sems| - 1);
      forall q | InRange(q)
        ensures ListOk(q) && (q != added ==> QueueOf(q) == old(QueueOf(q)))
      {
        if q != added { assert old(ListOk(q)); }
      }
      forall q, r | InRange(q) && InRange(r) && q != r
        ensures QueueOf(q) in queues && QueueOf(r) in queues && Separate(QueueOf(q), QueueOf(r))
      {
        if q != added && r != added { assert old(Separate(QueueOf(q), QueueOf(r))); }
        assert q != added ==> old(ListOk(q));
        assert r != added ==> old(ListOk(r));
      }
    }

    twostate lemma SemsGrew(sem: Semaphore)
      requires old(Lists()) && Lists() && sems == old(sems) + [sem] && sem.waitQueue.contents == []
      requires forall i :: 0 <= i < old(|sems|) ==> sems[i].count == old(sems[i].count)
      requires forall q :: old(InRange(q)) ==> C(q) == old(C(q))
      requires forall n :: n in old(C(S.Tick)) ==> n.awakenTick == old(n.awakenTick)
      ensures Abs().sems == old(Abs()).sems + [S.Sem(sem.count, [])]
      ensures Abs().run == old(Abs()).run && Abs().dead == old(Abs()).dead && Abs().tick == old(Abs()).tick
    {
      EmptyPids();
      assert C(S.Run) == old(C(S.Run)) && C(S.Dead) == old(C(S.Dead)) && C(S.Tick) == old(C(S.Tick));
      forall i | 0 <= i < old(|sems|)
        ensures Abs().sems[i] == old(Abs()).sems[i]
      {
        assert C(S.Wait(i)) == old(C(S.Wait(i)));
      }
      SleepersStay(C(S.Tick));
    }

    lemma EmptyPids()
      ensures Pids([]) == []
    {
    }
  }
}
