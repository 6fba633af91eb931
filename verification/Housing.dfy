/**
 * Whose blocks the heap has handed out: every live process holds its control block and,
 * but for idle and a process whose stack has been freed, its stack; nobody shares one.
 */
module Housing {
  import opened Basics
  import opened Heap
  import opened IntrusiveQueue
  import Sys = System
  import S = Scheduler

  const PCB_SIZE: nat := Sys.PCB_SIZE
  const STACK: nat := Sys.STACK

  /** The reaper gives back the stack before the control block. */
  predicate OwnStack(n: Node, idle: Node, reaper: S.ReaperPc) {
    n != idle && reaper != S.FreePcb(n.pid)
  }

  ghost predicate Home(bs: seq<Block>, n: Node, idle: Node, reaper: S.ReaperPc) {
    && Sys.Holds(bs, n.addr, PCB_SIZE)
    && (OwnStack(n, idle, reaper) ==> Sys.Holds(bs, n.stackbase, STACK) && n.stackbase != n.addr)
  }

  predicate Neighbours(n: Node, x: Node, idle: Node, reaper: S.ReaperPc) {
    && n.addr != x.addr
    && (OwnStack(n, idle, reaper) ==> n.stackbase != x.addr)
    && (OwnStack(n, idle, reaper) && OwnStack(x, idle, reaper) ==> n.stackbase != x.stackbase)
  }

  /** Pids are handed out in order; control blocks of processes that are no longer live count for nothing. */
  ghost predicate Housed(bs: seq<Block>, procs: set<Node>, idle: Node, live: set<nat>, reaper: S.ReaperPc, nextPid: nat) {
    && (forall n :: n in procs ==> n.pid < nextPid)
    && (forall n :: n in procs && n.pid in live ==> Home(bs, n, idle, reaper))
    && (forall n, x :: n in procs && x in procs && n.pid in live && x.pid in live && n != x ==> Neighbours(n, x, idle, reaper))
  }

  /** An allocation for whatever purpose leaves everybody housed. */
  lemma AllocKeepsHoused(bs: seq<Block>, size: nat, procs: set<Node>, idle: Node, live: set<nat>, reaper: S.ReaperPc,
      nextPid: nat, base: nat, total: nat)
    requires HeapInv(bs, base, total) && Arena(base, total) && size < WORD
    requires Housed(bs, procs, idle, live, reaper, nextPid)
    ensures Housed(AllocBlocks(bs, size), procs, idle, live, reaper, nextPid)
    ensures HeapInv(AllocBlocks(bs, size), base, total)
  {
    hide HeapInv, Arena, Sys.Holds, Neighbours, OwnStack;
    if AllocPtr(bs, size) == 0 {
      AllocRefines(bs, size, base, total);
    } else {
      Sys.AllocHolds(bs, size, base, total);
      hide AllocBlocks, AllocPtr;
      forall n | n in procs && n.pid in live
        ensures Home(AllocBlocks(bs, size), n, idle, reaper)
      {
        assert Home(bs, n, idle, reaper);
      }
    }
  }

  /** create_process: the two blocks are nobody else's. */
  lemma NewIsHoused(bs: seq<Block>, n: Node, procs: set<Node>, idle: Node, live: set<nat>, reaper: S.ReaperPc,
      nextPid: nat, base: nat, total: nat)
    requires HeapInv(bs, base, total) && Arena(base, total) && Housed(bs, procs, idle, live, reaper, nextPid)
    requires n !in procs && n.pid == nextPid
    requires AllocPtr(bs, PCB_SIZE) != 0 && n.addr == AllocPtr(bs, PCB_SIZE)
    requires AllocPtr(AllocBlocks(bs, PCB_SIZE), STACK) != 0 && n.stackbase == AllocPtr(AllocBlocks(bs, PCB_SIZE), STACK)
    ensures Housed(AllocBlocks(AllocBlocks(bs, PCB_SIZE), STACK), procs + {n}, idle, live + {nextPid}, reaper, nextPid + 1)
  {
    hide HeapInv, Arena, Sys.Holds, OwnStack, AllocBlocks, AllocPtr;
    var b1 := AllocBlocks(bs, PCB_SIZE);
    var b2 := AllocBlocks(b1, STACK);
    Sys.AllocHolds(bs, PCB_SIZE, base, total);
    Sys.AllocHolds(b1, STACK, base, total);
    forall x | x in procs && x.pid in live
      ensures Home(b2, x, idle, reaper) && Neighbours(n, x, idle, reaper) && Neighbours(x, n, idle, reaper)
    {
      assert Home(bs, x, idle, reaper);
    }
    assert Home(b2, n, idle, reaper);
  }

  /** The reaper's first sfree gets a live block, and the other blocks stay where they are. */
  lemma FreeStackKeepsHoused(bs: seq<Block>, v: Node, procs: set<Node>, idle: Node, live: set<nat>,
      nextPid: nat, base: nat, total: nat)
    requires HeapInv(bs, base, total) && Housed(bs, procs, idle, live, S.FreeStack(v.pid), nextPid)
    requires v in procs && v.pid in live && v != idle
    ensures Owns(bs, v.stackbase) && IsLive(bs, v.stackbase) && v.stackbase != 0
    ensures Housed(FreeBlocks(bs, v.stackbase), procs, idle, live, S.FreePcb(v.pid), nextPid)
  {
    hide HeapInv, Sys.Holds, Owns, IsLive, FreeBlocks;
    assert Home(bs, v, idle, S.FreeStack(v.pid));
    Sys.HeldIsOwned(bs, v.stackbase, STACK);
    Sys.FreeHolds(bs, v.stackbase, base, total);
    var t := FreeBlocks(bs, v.stackbase);
    forall x | x in procs && x.pid in live
      ensures Home(t, x, idle, S.FreePcb(v.pid))
    {
      assert Home(bs, x, idle, S.FreeStack(v.pid));
      assert x != v ==> Neighbours(v, x, idle, S.FreeStack(v.pid));
    }
    forall n, x | n in procs && x in procs && n.pid in live && x.pid in live && n != x
      ensures Neighbours(n, x, idle, S.FreePcb(v.pid))
    {
      assert Neighbours(n, x, idle, S.FreeStack(v.pid));
    }
  }

  /** And so does the second. */
  lemma FreePcbKeepsHoused(bs: seq<Block>, v: Node, procs: set<Node>, idle: Node, live: set<nat>,
      nextPid: nat, base: nat, total: nat)
    requires HeapInv(bs, base, total) && Housed(bs, procs, idle, live, S.FreePcb(v.pid), nextPid)
    requires v in procs && v.pid in live && v != idle
    ensures Owns(bs, v.addr) && IsLive(bs, v.addr) && v.addr != 0
    ensures Housed(FreeBlocks(bs, v.addr), procs, idle, live - {v.pid}, S.BeforeP, nextPid)
  {
    hide HeapInv, Sys.Holds, Owns, IsLive, FreeBlocks;
    assert Home(bs, v, idle, S.FreePcb(v.pid));
    Sys.HeldIsOwned(bs, v.addr, PCB_SIZE);
    Sys.FreeHolds(bs, v.addr, base, total);
    var t := FreeBlocks(bs, v.addr);
    forall x | x in procs && x.pid in live && x.pid != v.pid
      ensures Home(t, x, idle, S.BeforeP)
    {
      assert Home(bs, x, idle, S.FreePcb(v.pid)) && Neighbours(x, v, idle, S.FreePcb(v.pid));
    }
    forall n, x | n in procs && x in procs && n.pid in live - {v.pid} && x.pid in live - {v.pid} && n != x
      ensures Neighbours(n, x, idle, S.BeforeP)
    {
      assert Neighbours(n, x, idle, S.FreePcb(v.pid));
    }
  }

  /** The reaper's other steps give nothing back. */
  lemma ReaperMovesHoused(bs: seq<Block>, procs: set<Node>, idle: Node, live: set<nat>, r: S.ReaperPc, t: S.ReaperPc, nextPid: nat)
    requires Housed(bs, procs, idle, live, r, nextPid) && !r.FreePcb? && !t.FreePcb?
    ensures Housed(bs, procs, idle, live, t, nextPid)
  {
    forall n | n in procs && n.pid in live
      ensures Home(bs, n, idle, t)
    {
      assert Home(bs, n, idle, r);
    }
    forall n, x | n in procs && x in procs && n.pid in live && x.pid in live && n != x
      ensures Neighbours(n, x, idle, t)
    {
      assert Neighbours(n, x, idle, r);
    }
  }

  /** At boot there is only idle, without a stack from the heap. */
  lemma IdleIsHoused(bs: seq<Block>, idle: Node)
    requires Sys.Holds(bs, idle.addr, PCB_SIZE) && idle.pid == S.IDLE
    ensures Housed(bs, {idle}, idle, {S.IDLE}, S.BeforeP, 1)
  {
  }
}
