/** process_system_initialize: the invariant of module System holds when the kernel starts. */
module Boot {
  import opened Basics
  import Mailbox
  import opened Heap
  import opened Context
  import opened System
  import S = Scheduler
  import P = Placement

  // ----- a series of allocations -----

  function AllocAll(bs: seq<Block>, sizes: seq<nat>): seq<Block>
    decreases |sizes|
  {
    if sizes == [] then bs else AllocAll(AllocBlocks(bs, sizes[0]), sizes[1..])
  }

  function Ptrs(bs: seq<Block>, sizes: seq<nat>): (ps: seq<nat>)
    ensures |ps| == |sizes|
    decreases |sizes|
  {
    if sizes == [] then [] else [AllocPtr(bs, sizes[0])] + Ptrs(AllocBlocks(bs, sizes[0]), sizes[1..])
  }

  function Need(sizes: seq<nat>): nat {
    if sizes == [] then 0 else Rounded(sizes[0]) + 32 + Need(sizes[1..])
  }

  /** A large free block in front serves one request after the other. */
  lemma {:induction false} AllServed(bs: seq<Block>, sizes: seq<nat>)
    requires Roomy(bs, Need(sizes))
    ensures forall i :: 0 <= i < |sizes| ==> Ptrs(bs, sizes)[i] != 0
    decreases |sizes|
  {
    hide Rounded, Roomy, AllocBlocks, AllocPtr;
    if sizes != [] {
      RoomyServes(bs, sizes[0], Need(sizes));
      AllServed(AllocBlocks(bs, sizes[0]), sizes[1..]);
    }
  }

  /** Served requests have distinct pointers, and nothing else is handed out. */
  lemma {:induction false} SeriesHolds(bs: seq<Block>, sizes: seq<nat>, base: nat, total: nat)
    requires HeapInv(bs, base, total) && Arena(base, total)
    requires forall i :: 0 <= i < |sizes| ==> sizes[i] < 0xFFFF_FFF0 && Ptrs(bs, sizes)[i] != 0
    ensures HeapInv(AllocAll(bs, sizes), base, total)
    ensures forall i :: 0 <= i < |sizes| ==> Holds(AllocAll(bs, sizes), Ptrs(bs, sizes)[i], sizes[i])
    ensures forall x, n: nat :: Holds(bs, x, n) ==> Holds(AllocAll(bs, sizes), x, n) && x !in Ptrs(bs, sizes)
    ensures forall x :: Holds(AllocAll(bs, sizes), x, 0) ==> x in Ptrs(bs, sizes) || Holds(bs, x, 0)
    ensures NoDup(Ptrs(bs, sizes))
    decreases |sizes|
  {
    hide HeapInv, Holds, AllocBlocks, AllocPtr;
    if sizes != [] {
      var t := AllocBlocks(bs, sizes[0]);
      var ps := Ptrs(bs, sizes);
      assert ps[0] == AllocPtr(bs, sizes[0]) && ps[1..] == Ptrs(t, sizes[1..]);
      AllocHolds(bs, sizes[0], base, total);
      forall i | 0 <= i < |sizes[1..]|
        ensures sizes[1..][i] < 0xFFFF_FFF0 && Ptrs(t, sizes[1..])[i] != 0
      {
        assert sizes[1..][i] == sizes[i + 1] && ps[i + 1] == ps[1..][i];
      }
      SeriesHolds(t, sizes[1..], base, total);
      assert forall x :: x in ps <==> x == ps[0] || x in ps[1..];
      forall i | 0 <= i < |sizes|
        ensures Holds(AllocAll(bs, sizes), ps[i], sizes[i])
      {
        if i > 0 { assert ps[i] == ps[1..][i - 1] && sizes[i] == sizes[1..][i - 1]; }
      }
      forall i, j | 0 <= i < j < |ps|
        ensures ps[i] != ps[j]
      {
        assert ps[j] == ps[1..][j - 1];
        if i > 0 { assert ps[i] == ps[1..][i - 1]; }
      }
    }
  }

  // ----- the boot state -----

  /**
   * Three queues and a semaphore with its own queue, each with a sentinel; the control
   * block of idle; then control block and stack of the reaper and of the main process.
   */
  const SIZES: seq<nat> := [8, 8, 8, 8, 8, 8, 8, 8, 8, PCB_SIZE, PCB_SIZE, STACK, PCB_SIZE, STACK]

  /** A heap with which process_system_initialize can start: nothing handed out, and room in front. */
  ghost predicate Unused(bs: seq<Block>, base: nat, total: nat) {
    HeapInv(bs, base, total) && Live(bs) == {} && Roomy(bs, Need(SIZES))
  }

  function BootSys(bs: seq<Block>, base: nat, total: nat, mem: Words, regs: Regs,
      reaper: int, main: int, arg: int, cleanup: int): Sys
  {
    var ps := Ptrs(bs, SIZES);
    var first := Fresh(ps[11], reaper, 0, cleanup);
    var second := Fresh(ps[13], main, arg, cleanup);
    Sys(S.INIT, AllocAll(bs, SIZES), base, total,
      map[S.IDLE := ps[9], S.REAPER := ps[10], S.MAIN := ps[12]],
      map[S.REAPER := ps[11], S.MAIN := ps[13]],
      set i | 0 <= i < 9 :: ps[i],
      WithProcess(WithProcess(mem, S.REAPER, ps[10], ps[11], first), S.MAIN, ps[12], ps[13], second),
      regs, map[S.REAPER := first, S.MAIN := second])
  }

  /** What the requests of the boot sequence take, headers and double losses included. */
  lemma BootNeeds()
    ensures Need(SIZES) == 0x102d0
  {
    NeedSmall([8, 8, 8, 8, 8, 8, 8, 8, 8], [PCB_SIZE, PCB_SIZE, STACK, PCB_SIZE, STACK]);
    assert SIZES == [8, 8, 8, 8, 8, 8, 8, 8, 8] + [PCB_SIZE, PCB_SIZE, STACK, PCB_SIZE, STACK];
  }

  /** Requests for 8 bytes take 48 each; the processes take the rest. */
  lemma {:induction false} NeedSmall(small: seq<nat>, rest: seq<nat>)
    requires forall i :: 0 <= i < |small| ==> small[i] == 8
    requires rest == [PCB_SIZE, PCB_SIZE, STACK, PCB_SIZE, STACK]
    ensures Need(small + rest) == 48 * |small| + 0x10120
    decreases |small|
  {
    if small == [] {
      assert small + rest == rest;
      assert rest[1..] == [PCB_SIZE, STACK, PCB_SIZE, STACK];
      assert rest[1..][1..] == [STACK, PCB_SIZE, STACK];
      assert rest[1..][1..][1..] == [PCB_SIZE, STACK];
      assert rest[1..][1..][1..][1..] == [STACK];
      assert Rounded(PCB_SIZE) == 32 && Rounded(STACK) == 0x8010;
      assert Need([STACK]) == 0x8030;
      assert Need([PCB_SIZE, STACK]) == 64 + 0x8030;
      assert Need([STACK, PCB_SIZE, STACK]) == 0x8030 + 64 + 0x8030;
    } else {
      assert (small + rest)[1..] == small[1..] + rest;
      NeedSmall(small[1..], rest);
      assert Rounded(8) == 16;
    }
  }

  lemma NothingHeld(bs: seq<Block>)
    requires Live(bs) == {}
    ensures forall x, n: nat :: !Holds(bs, x, n)
  {
    forall x, n: nat
      ensures !Holds(bs, x, n)
    {
      assert forall i :: 0 <= i < |bs| && !bs[i].free ==> Region(bs[i].Payload(), bs[i].size) in Live(bs);
    }
  }

  /** The pointers of the boot sequence, each with the size that was asked for. */
  lemma BootPointers(bs: seq<Block>, base: nat, total: nat)
    requires Arena(base, total) && Unused(bs, base, total)
    ensures var t := AllocAll(bs, SIZES);
      var ps := Ptrs(bs, SIZES);
      && HeapInv(t, base, total) && NoDup(ps)
      && (forall i :: 0 <= i < |SIZES| ==> Holds(t, ps[i], SIZES[i]))
      && (forall x :: Holds(t, x, 0) ==> x in ps)
  {
    NothingHeld(bs);
    hide Holds, HeapInv, AllocAll, Ptrs, Live, Roomy;
    AllServed(bs, SIZES);
    SeriesHolds(bs, SIZES, base, total);
  }

  /** The boot pointers are distinct, so nobody shares one. */
  lemma BootOwners(k: Sys, ps: seq<nat>)
    requires |ps| == 14 && NoDup(ps)
    requires k.pcb == map[S.IDLE := ps[9], S.REAPER := ps[10], S.MAIN := ps[12]]
    requires k.stack == map[S.REAPER := ps[11], S.MAIN := ps[13]]
    requires k.others == set i | 0 <= i < 9 :: ps[i]
    ensures OneOwner(k)
  {
    forall j | 9 <= j < 14
      ensures ps[j] !in k.others
    {
      assert forall i :: 0 <= i < 9 ==> ps[i] != ps[j];
    }
    assert ps[9] != ps[10] && ps[9] != ps[12] && ps[10] != ps[12] && ps[11] != ps[13];
    assert ps[9] != ps[11] && ps[9] != ps[13] && ps[10] != ps[11] && ps[10] != ps[13];
    assert ps[11] != ps[12] && ps[12] != ps[13];
    hide NoDup;
    assert k.pcb.Keys == {S.IDLE, S.REAPER, S.MAIN} && k.stack.Keys == {S.REAPER, S.MAIN};
  }

  lemma BootOwned(k: Sys, ps: seq<nat>, i: nat)
    requires |ps| == 14 && i < 14
    requires k.pcb == map[S.IDLE := ps[9], S.REAPER := ps[10], S.MAIN := ps[12]]
    requires k.stack == map[S.REAPER := ps[11], S.MAIN := ps[13]]
    requires k.others == set j | 0 <= j < 9 :: ps[j]
    ensures Owned(k, ps[i])
  {
    if i < 9 { assert ps[i] in k.others; }
    else if i == 11 { assert k.stack[S.REAPER] == ps[i]; }
    else if i == 13 { assert k.stack[S.MAIN] == ps[i]; }
    else if i == 9 { assert k.pcb[S.IDLE] == ps[i]; }
    else if i == 10 { assert k.pcb[S.REAPER] == ps[i]; }
    else { assert k.pcb[S.MAIN] == ps[i]; }
  }

  /** Owners and blocks agree. */
  lemma BootBooks(k: Sys, ps: seq<nat>)
    requires |ps| == |SIZES| && NoDup(ps)
    requires forall i :: 0 <= i < |SIZES| ==> Holds(k.bs, ps[i], SIZES[i])
    requires forall x :: Holds(k.bs, x, 0) ==> x in ps
    requires k.pcb == map[S.IDLE := ps[9], S.REAPER := ps[10], S.MAIN := ps[12]]
    requires k.stack == map[S.REAPER := ps[11], S.MAIN := ps[13]]
    requires k.others == set i | 0 <= i < 9 :: ps[i]
    ensures OneOwner(k) && Books(k)
  {
    hide Holds, NoDup, OneOwner, Owned;
    BootOwners(k, ps);
    forall x | x in k.others
      ensures Holds(k.bs, x, 0)
    {
      var i :| 0 <= i < 9 && x == ps[i];
      Shrink(k.bs, x, SIZES[i], 0);
    }
    assert Holds(k.bs, ps[9], SIZES[9]) && Holds(k.bs, ps[10], SIZES[10]) && Holds(k.bs, ps[12], SIZES[12]);
    assert Holds(k.bs, ps[11], SIZES[11]) && Holds(k.bs, ps[13], SIZES[13]);
    forall x | Holds(k.bs, x, 0)
      ensures Owned(k, x)
    {
      var i :| 0 <= i < 14 && x == ps[i];
      BootOwned(k, ps, i);
    }
  }

  lemma BootFrames(k: Sys, mem: Words, first: Regs, second: Regs)
    requires Geometry(k) && first.Valid() && second.Valid()
    requires S.REAPER in k.pcb && S.MAIN in k.pcb && S.REAPER in k.stack && S.MAIN in k.stack
    requires k.mem == WithProcess(WithProcess(mem, S.REAPER, k.pcb[S.REAPER], k.stack[S.REAPER], first),
      S.MAIN, k.pcb[S.MAIN], k.stack[S.MAIN], second)
    requires k.snap == map[S.REAPER := first, S.MAIN := second]
    requires first.sp == k.stack[S.REAPER] + STACK && second.sp == k.stack[S.MAIN] + STACK
    ensures FrameOk(k, S.REAPER) && FrameOk(k, S.MAIN)
  {
    hide Geometry, WithProcess;
    var m1 := WithProcess(mem, S.REAPER, k.pcb[S.REAPER], k.stack[S.REAPER], first);
    ProcessWritten(k, mem, S.REAPER, first);
    ProcessWritten(k, m1, S.MAIN, second);
    var f := k.stack[S.REAPER] + STACK - FRAME;
    forall a | Private(k, S.REAPER, a)
      ensures Load(k.mem, a) == Load(m1, a)
    {
      OthersKeepTheirs(k, S.REAPER, S.MAIN, a);
    }
    assert Private(k, S.REAPER, k.pcb[S.REAPER] + SAVED_SP);
    forall i | 0 <= i < 16
      ensures WordAt(k.mem, f, i) == FrameOf(first)[i]
    {
      assert WordAt(m1, f, i) == FrameOf(first)[i];
      assert Private(k, S.REAPER, f + 4 * i);
    }
  }

  /** On any unused heap the kernel starts in a state that satisfies the invariant. */
  lemma BootHolds(bs: seq<Block>, base: nat, total: nat, mem: Words, regs: Regs,
      reaper: int, main: int, arg: int, cleanup: int)
    requires Arena(base, total) && Unused(bs, base, total) && STACK <= base && regs.Valid()
    ensures SysInv(BootSys(bs, base, total, mem, regs, reaper, main, arg, cleanup))
  {
    hide HeapInv, Holds, AllocAll, Ptrs, WithProcess, P.Inv, FrameOk, Unused;
    var k := BootSys(bs, base, total, mem, regs, reaper, main, arg, cleanup);
    var ps := Ptrs(bs, SIZES);
    P.InitHolds();
    BootPointers(bs, base, total);
    BootBooks(k, ps);
    hide OneOwner, Books;
    assert Geometry(k);
    BootFrames(k, mem, Fresh(ps[11], reaper, 0, cleanup), Fresh(ps[13], main, arg, cleanup));
  }

  /**
   * Every run of the whole kernel from boot: the blocks handed out are exactly those of
   * the live processes and of the other owners, and every suspended process has its
   * registers on its own stack.
   */
  lemma KernelRuns(bs: seq<Block>, base: nat, total: nat, mem: Words, regs: Regs,
      reaper: int, main: int, arg: int, cleanup: int, es: seq<System.Event>)
    requires Arena(base, total) && Unused(bs, base, total) && STACK <= base && regs.Valid()
    requires System.Legal(BootSys(bs, base, total, mem, regs, reaper, main, arg, cleanup), es)
    ensures SysInv(System.Run(BootSys(bs, base, total, mem, regs, reaper, main, arg, cleanup), es))
  {
    hide SysInv;
    BootHolds(bs, base, total, mem, regs, reaper, main, arg, cleanup);
    RunKeeps(BootSys(bs, base, total, mem, regs, reaper, main, arg, cleanup), es);
  }

  // ----- the first two processes -----

  /**
   * The reaper and the main process begin where they should: pid 1 at reaper_process with 0, pid 2
   * at the main function with its argument; both with cleanup to return to, on the top of a stack
   * of their own, with interrupts enabled.
   */
  lemma BootFirstRun(bs: seq<Block>, base: nat, total: nat, mem: Words, regs: Regs,
      reaper: int, main: int, arg: int, cleanup: int, es: seq<System.Event>, p: Pid, c: S.Event, at: Regs)
    requires Arena(base, total) && Unused(bs, base, total) && STACK <= base && regs.Valid()
    requires p == 1 || p == 2
    requires var k := BootSys(bs, base, total, mem, regs, reaper, main, arg, cleanup);
      System.Legal(k, es) && Away(k, es, p) && Resumes(System.Run(k, es), c, at, p)
    ensures var k := BootSys(bs, base, total, mem, regs, reaper, main, arg, cleanup);
      var f := System.Step(System.Run(k, es), System.Call(c, at)).regs;
      && p in k.stack && f.Valid()
      && f.pc == (if p == 1 then reaper else main) && f.r[0] == (if p == 1 then 0 else arg)
      && (forall i :: 1 <= i < 13 ==> f.r[i] == 0)
      && f.lr == cleanup && f.sp == k.stack[p] + 0x8000 && StartsLikeKernel(f.cpsr)
    ensures var k := BootSys(bs, base, total, mem, regs, reaper, main, arg, cleanup);
      1 in k.stack && 2 in k.stack && k.stack[1] != k.stack[2]
  {
    hide SysInv, Enabled, Resumes, Suspended, System.Step, AllocAll, Ptrs, WithProcess, Unused;
    var k := BootSys(bs, base, total, mem, regs, reaper, main, arg, cleanup);
    BootHolds(bs, base, total, mem, regs, reaper, main, arg, cleanup);
    StacksDiffer(k);
    SnapRun(k, es, p);
    DispatchRestores(System.Run(k, es), c, at, p);
  }

  lemma StacksDiffer(k: Sys)
    requires SysInv(k) && 1 in k.stack && 2 in k.stack
    ensures k.stack[1] != k.stack[2]
  {
    hide P.Inv, Memory, Books, FrameOk;
  }

  // ----- the heap at that point -----

  /** The list after messages with buffers of these sizes, as Mailbox.SendMessages leaves it. */
  function AfterMessages(bs: seq<Block>, sizes: seq<nat>): seq<Block>
    decreases |sizes|
  {
    if sizes == [] then bs else AfterMessages(Borrowed(bs, sizes[0]), sizes[1..])
  }

  /** Messages hand nothing out, and cost the room that their requests take. */
  lemma {:induction false} MessagesKeepRoom(bs: seq<Block>, sizes: seq<nat>, n: nat, base: nat, total: nat)
    requires Arena(base, total) && HeapInv(bs, base, total) && Roomy(bs, Need(sizes) + n)
    requires forall i :: 0 <= i < |sizes| ==> sizes[i] < WORD
    ensures HeapInv(AfterMessages(bs, sizes), base, total) && Live(AfterMessages(bs, sizes)) == Live(bs)
    ensures Roomy(AfterMessages(bs, sizes), n)
    decreases |sizes|
  {
    hide HeapInv, Roomy, Rounded, Borrowed, Live, Arena;
    if sizes != [] {
      BorrowKeeps(bs, sizes[0], Need(sizes[1..]) + n, base, total);
      MessagesKeepRoom(Borrowed(bs, sizes[0]), sizes[1..], n, base, total);
    }
  }

  /** init_smemory, then any messages that leave the boot sequence its room: the heap is still unused. */
  lemma StillUnused(base: nat, total: nat, sizes: seq<nat>)
    requires Arena(base, total) && Need(sizes) + Need(SIZES) + HEADER <= total
    requires forall i :: 0 <= i < |sizes| ==> sizes[i] < WORD
    ensures Unused(AfterMessages(InitBlocks(base, total), sizes), base, total)
  {
    hide HeapInv, Rounded, Live, Need, Aligned;
    InitInv(base, total);
    MessagesKeepRoom(InitBlocks(base, total), sizes, Need(SIZES), base, total);
  }

  /** The heap that kernel.c sets up. */
  const HEAP_SIZE: nat := 0x100000

  lemma {:induction false} TriesNeed(sizes: seq<nat>)
    requires forall i :: 0 <= i < |sizes| ==> sizes[i] == 96
    ensures Need(sizes) == 144 * |sizes|
    decreases |sizes|
  {
    if sizes != [] {
      assert Rounded(96) == 112;
      TriesNeed(sizes[1..]);
    }
  }

  // ----- how many tries are too many -----

  /** The rounded size of a stack, which no small block can serve. */
  const BIG: nat := 0x8010

  /** Free blocks are too small for a stack but for the first, which is at most h long if it is not. */
  ghost predicate AtMost(bs: seq<Block>, h: int) {
    forall i :: 0 <= i < |bs| && bs[i].free ==> bs[i].size < BIG || (i == 0 && bs[i].size <= h)
  }

  /** The sizes of the two parts, or of the block that was not worth splitting. */
  lemma ClaimSizes(bs: seq<Block>, k: nat, r: nat, d: nat)
    requires k < |bs| && Fits(bs[k], r) && bs[k].End() <= WORD && r <= BIG
    requires |Claim(bs, k, r)| == |bs| + d
    ensures Claim(bs, k, r)[k + d].size < r + 32
    ensures d == 1 ==> Claim(bs, k, r)[0].size == bs[k].size - r - 32
    ensures d == 0 ==> bs[k].size < r + 32
  {
  }

  lemma ClaimAtMost(bs: seq<Block>, k: nat, r: nat, h: int) returns (j: nat)
    requires AtMost(bs, h) && k < |bs| && Fits(bs[k], r) && bs[k].End() <= WORD && r <= BIG
    requires k > 0 ==> !Fits(bs[0], r)
    ensures AtMost(Claim(bs, k, r), h - r - 32)
    ensures r == BIG ==> h >= BIG
    ensures j < |Claim(bs, k, r)| && Claim(bs, k, r)[j].Payload() == bs[k].Payload() && Claim(bs, k, r)[j].size < r + 32
  {
    hide Claim;
    var t := Claim(bs, k, r);
    var d := ClaimShape(bs, k, r);
    ClaimSizes(bs, k, r, d);
    j := k + d;
    forall i | 0 <= i < |t| && t[i].free
      ensures t[i].size < BIG || (i == 0 && t[i].size <= h - r - 32)
    {
      if i >= d { assert i != j && t[i] == bs[i - d]; }
    }
  }

  /** A request takes its share from the first block as long as that is large. */
  lemma AllocAtMost(bs: seq<Block>, size: nat, h: int, base: nat, total: nat) returns (j: nat)
    requires Arena(base, total) && HeapInv(bs, base, total) && AtMost(bs, h) && Rounded(size) <= BIG
    ensures AtMost(AllocBlocks(bs, size), h - Rounded(size) - 32)
    ensures AllocPtr(bs, size) != 0 && Rounded(size) == BIG ==> h >= BIG
    ensures AllocPtr(bs, size) != 0 ==>
      && j < |AllocBlocks(bs, size)| && AllocBlocks(bs, size)[j].Payload() == AllocPtr(bs, size)
      && AllocBlocks(bs, size)[j].size < Rounded(size) + 32
  {
    hide Aligned, HeapInv, Rounded, Claim;
    var r := Rounded(size);
    var k := FirstFit(bs, r);
    j := 0;
    if k == |bs| {
      assert forall i :: 0 <= i < |bs| ==> !Fits(bs[i], r);
    } else {
      BlockFacts(bs, k, base, total);
      j := ClaimAtMost(bs, k, r, h);
    }
  }

  lemma BorrowAtMost(bs: seq<Block>, size: nat, h: int, base: nat, total: nat)
    requires Arena(base, total) && HeapInv(bs, base, total) && AtMost(bs, h) && size < WORD && Rounded(size) + 32 <= BIG
    ensures AtMost(Borrowed(bs, size), h - Rounded(size) - 32) && HeapInv(Borrowed(bs, size), base, total)
  {
    hide Aligned, HeapInv, Rounded, AllocBlocks, AllocPtr, Arena, IndexOf;
    var j := AllocAtMost(bs, size, h, base, total);
    AllocInv(bs, size, base, total);
    var t, ptr := AllocBlocks(bs, size), AllocPtr(bs, size);
    if ptr != 0 {
      OwnsAllocated(bs, size);
      OnlyIndex(t, j, base, total);
      FreeInv(t, ptr, base, total);
      assert IndexOf(t, ptr) == j;
    } else {
      AllocRefines(bs, size, base, total);
    }
  }

  lemma {:induction false} MessagesAtMost(bs: seq<Block>, sizes: seq<nat>, h: int, base: nat, total: nat)
    requires Arena(base, total) && HeapInv(bs, base, total) && AtMost(bs, h)
    requires forall i :: 0 <= i < |sizes| ==> sizes[i] < WORD && Rounded(sizes[i]) + 32 <= BIG
    ensures AtMost(AfterMessages(bs, sizes), h - Need(sizes)) && HeapInv(AfterMessages(bs, sizes), base, total)
    decreases |sizes|
  {
    hide HeapInv, Rounded, Borrowed, Arena, AtMost;
    if sizes != [] {
      BorrowAtMost(bs, sizes[0], h, base, total);
      MessagesAtMost(Borrowed(bs, sizes[0]), sizes[1..], h - Rounded(sizes[0]) - 32, base, total);
    }
  }

  lemma {:induction false} SeriesAtMost(bs: seq<Block>, sizes: seq<nat>, h: int, base: nat, total: nat)
    requires Arena(base, total) && HeapInv(bs, base, total) && AtMost(bs, h)
    requires forall i :: 0 <= i < |sizes| ==> Rounded(sizes[i]) <= BIG
    ensures AtMost(AllocAll(bs, sizes), h - Need(sizes)) && HeapInv(AllocAll(bs, sizes), base, total)
    decreases |sizes|
  {
    hide HeapInv, Rounded, AllocBlocks, Arena, AtMost;
    if sizes != [] {
      var _ := AllocAtMost(bs, sizes[0], h, base, total);
      AllocInv(bs, sizes[0], base, total);
      SeriesAtMost(AllocBlocks(bs, sizes[0]), sizes[1..], h - Rounded(sizes[0]) - 32, base, total);
    }
  }

  lemma {:induction false} LastPointer(bs: seq<Block>, sizes: seq<nat>, x: nat)
    ensures Ptrs(bs, sizes + [x]) == Ptrs(bs, sizes) + [AllocPtr(AllocAll(bs, sizes), x)]
    decreases |sizes|
  {
    hide AllocBlocks, AllocPtr;
    if sizes == [] {
      assert [] + [x] == [x];
      assert Ptrs(AllocBlocks(bs, x), [x][1..]) == [];
    } else {
      assert (sizes + [x])[1..] == sizes[1..] + [x];
      LastPointer(AllocBlocks(bs, sizes[0]), sizes[1..], x);
    }
  }

  lemma {:induction false} NeedLast(sizes: seq<nat>, x: nat)
    ensures Need(sizes + [x]) == Need(sizes) + Rounded(x) + 32
    decreases |sizes|
  {
    hide Rounded;
    if sizes == [] {
      assert [] + [x] == [x];
      assert Need([x][1..]) == 0;
    } else {
      assert (sizes + [x])[1..] == sizes[1..] + [x];
      NeedLast(sizes[1..], x);
    }
  }

  /** process_system_initialize gets all its blocks. */
  ghost predicate Served(bs: seq<Block>) {
    forall i :: 0 <= i < |SIZES| ==> Ptrs(bs, SIZES)[i] != 0
  }

  /** A heap whose first block is too short, and no other long enough, leaves the last stack unserved. */
  lemma NotServed(bs: seq<Block>, h: int, base: nat, total: nat)
    requires Arena(base, total) && HeapInv(bs, base, total) && AtMost(bs, h) && h + 32 < Need(SIZES)
    ensures !Served(bs)
  {
    hide HeapInv, Rounded, AllocBlocks, AllocPtr, AllocAll, Ptrs, Need, AtMost, Arena;
    var front := SIZES[..|SIZES| - 1];
    assert SIZES == front + [STACK];
    BootSizes();
    SeriesAtMost(bs, front, h, base, total);
    NeedLast(front, STACK);
    LastPointer(bs, front, STACK);
    var _ := AllocAtMost(AllocAll(bs, front), STACK, h - Need(front), base, total);
    assert Ptrs(bs, SIZES)[|SIZES| - 1] == AllocPtr(AllocAll(bs, front), STACK);
  }

  lemma BootSizes()
    ensures forall i :: 0 <= i < |SIZES| ==> Rounded(SIZES[i]) <= BIG
    ensures Rounded(STACK) == BIG
  {
    assert Rounded(8) == 16 && Rounded(PCB_SIZE) == 32 && Rounded(STACK) == 0x8010;
  }

  /**
   * gpu_init sends the frame buffer's tags until that succeeds, without a limit of its own. With
   * up to 6821 tries process_system_initialize gets all its blocks, and with more it does not:
   * create_process then writes through NULL.
   */
  lemma TriesExactly(base: nat, tries: seq<nat>)
    requires Arena(base, HEAP_SIZE)
    requires forall i :: 0 <= i < |tries| ==> tries[i] == Mailbox.BufferSize(Mailbox.FRAMEBUFFER_TAGS)
    ensures Served(AfterMessages(InitBlocks(base, HEAP_SIZE), tries)) <==> |tries| <= 6821
  {
    hide HeapInv, Need, Mailbox.BufferSize, Aligned, Rounded, Ptrs, AfterMessages, Live;
    Mailbox.FramebufferSize();
    BootNeeds();
    TriesNeed(tries);
    InitInv(base, HEAP_SIZE);
    var bs := InitBlocks(base, HEAP_SIZE);
    if |tries| <= 6821 {
      MessagesKeepRoom(bs, tries, Need(SIZES), base, HEAP_SIZE);
      AllServed(AfterMessages(bs, tries), SIZES);
    } else {
      TrySize();
      MessagesAtMost(bs, tries, HEAP_SIZE - HEADER, base, HEAP_SIZE);
      NotServed(AfterMessages(bs, tries), HEAP_SIZE - HEADER - Need(tries), base, HEAP_SIZE);
    }
  }

  lemma TrySize()
    ensures Rounded(96) == 112
  {
  }

  /**
   * The kernel as it really starts: gpu_init sends the frame buffer's tags until that
   * succeeds, and then the processes begin. With up to 6821 tries the heap is still unused.
   */
  lemma KernelStarts(base: nat, tries: seq<nat>, mem: Words, regs: Regs,
      reaper: int, main: int, arg: int, cleanup: int, es: seq<System.Event>)
    requires Arena(base, HEAP_SIZE) && STACK <= base && regs.Valid() && |tries| <= 6821
    requires forall i :: 0 <= i < |tries| ==> tries[i] == Mailbox.BufferSize(Mailbox.FRAMEBUFFER_TAGS)
    requires var bs := AfterMessages(InitBlocks(base, HEAP_SIZE), tries);
      System.Legal(BootSys(bs, base, HEAP_SIZE, mem, regs, reaper, main, arg, cleanup), es)
    ensures var bs := AfterMessages(InitBlocks(base, HEAP_SIZE), tries);
      SysInv(System.Run(BootSys(bs, base, HEAP_SIZE, mem, regs, reaper, main, arg, cleanup), es))
  {
    hide SysInv, Unused, Need, Mailbox.BufferSize, Aligned;
    Mailbox.FramebufferSize();
    BootNeeds();
    TriesNeed(tries);
    StillUnused(base, HEAP_SIZE, tries);
    KernelRuns(AfterMessages(InitBlocks(base, HEAP_SIZE), tries), base, HEAP_SIZE, mem, regs, reaper, main, arg, cleanup, es);
  }
}
