/**
 * The kernel put together: the scheduler, the heap that holds every process control block
 * and stack, and the memory in which a suspended process leaves its registers.
 */
module System {
  import opened Basics
  import opened Heap
  import opened Context
  import S = Scheduler
  import P = Placement
  import R = Runs

  type Pid = S.Pid

  // sizeof(process_t) and the offsets of its fields.
  const PCB_SIZE: nat := 24
  const NEXT: nat := 0
  const PREV: nat := 4
  const STACKBASE: nat := 8
  const PID: nat := 12
  const SAVED_SP: nat := 16
  const AWAKEN: nat := 20
  const STACK: nat := 0x8000

  /**
   * `others` are the payload pointers of everything that is not a process: queues,
   * semaphores, callers' own blocks. `regs` are the registers right behind the last
   * context switch. `snap` remembers what each process looked like when it was suspended.
   */
  datatype Sys = Sys(
    s: S.State, bs: seq<Block>, base: nat, total: nat,
    pcb: map<Pid, nat>, stack: map<Pid, nat>, others: set<nat>,
    mem: Words, regs: Regs, snap: map<Pid, Regs>)

  /** The idle process runs on the boot stack, from 0x8000 down. */
  predicate HasStack(k: Sys, p: Pid) {
    p == S.IDLE || p in k.stack
  }

  function StackOf(k: Sys, p: Pid): nat
    requires HasStack(k, p)
  {
    if p == S.IDLE then 0 else k.stack[p]
  }

  predicate InStack(k: Sys, p: Pid, a: int)
    requires HasStack(k, p)
  {
    StackOf(k, p) <= a < StackOf(k, p) + STACK
  }

  /** The offset of any field of a control block but the saved stack pointer. */
  predicate IsField(offset: int) {
    offset == NEXT || offset == PREV || offset == STACKBASE || offset == PID || offset == AWAKEN
  }

  // ----- blocks as owners see them -----

  /** A block that is handed out at this pointer, of at least this size. */
  ghost predicate Holds(bs: seq<Block>, ptr: nat, size: nat) {
    exists i :: 0 <= i < |bs| && bs[i].Payload() == ptr && !bs[i].free && size <= bs[i].size
  }

  /** Address a lies in the payload of the block at ptr. */
  ghost predicate InPayload(bs: seq<Block>, ptr: nat, a: int) {
    exists i :: 0 <= i < |bs| && bs[i].Payload() == ptr && ptr <= a < bs[i].End()
  }

  ghost predicate InHeader(bs: seq<Block>, a: int) {
    exists i :: 0 <= i < |bs| && bs[i].addr <= a < bs[i].Payload()
  }

  lemma PayloadsApart(bs: seq<Block>, x: nat, y: nat, a: int, base: nat, total: nat)
    requires HeapInv(bs, base, total) && InPayload(bs, x, a) && InPayload(bs, y, a)
    ensures x == y
  {
  }

  lemma HeadersAreNotPayload(bs: seq<Block>, x: nat, a: int, base: nat, total: nat)
    requires HeapInv(bs, base, total) && InHeader(bs, a)
    ensures !InPayload(bs, x, a)
  {
  }

  lemma HeldBytes(bs: seq<Block>, ptr: nat, size: nat, a: int, base: nat, total: nat)
    requires HeapInv(bs, base, total) && Holds(bs, ptr, size) && ptr <= a < ptr + size
    ensures InPayload(bs, ptr, a) && base <= a < base + total
  {
  }

  /** Claiming a free block leaves all holders in place and gives out a new pointer. */
  lemma ClaimHolds(bs: seq<Block>, k: nat, r: nat, base: nat, total: nat)
    requires HeapInv(bs, base, total) && k < |bs| && Fits(bs[k], r)
    ensures forall x, n :: Holds(bs, x, n) ==> Holds(Claim(bs, k, r), x, n) && x != bs[k].Payload()
    ensures Holds(Claim(bs, k, r), bs[k].Payload(), r)
    ensures forall x :: Holds(Claim(bs, k, r), x, 0) ==> x == bs[k].Payload() || Holds(bs, x, 0)
  {
    OnlyIndex(bs, k, base, total);
    hide HeapInv, Claim;
    var t := Claim(bs, k, r);
    var d := ClaimShape(bs, k, r);
    assert t[k + d].Payload() == bs[k].Payload() && !t[k + d].free && t[k + d].size >= r;
    forall x, n: nat | Holds(bs, x, n)
      ensures Holds(t, x, n) && x != bs[k].Payload()
    {
      var i :| 0 <= i < |bs| && bs[i].Payload() == x && !bs[i].free && n <= bs[i].size;
      assert i != k && t[i + d] == bs[i];
    }
    forall x | Holds(t, x, 0)
      ensures x == bs[k].Payload() || Holds(bs, x, 0)
    {
      var i :| 0 <= i < |t| && t[i].Payload() == x && !t[i].free;
      assert d == 1 ==> t[0].free;
      if i != k + d { assert t[i] == bs[i - d]; }
    }
  }

  lemma AllocHolds(bs: seq<Block>, size: nat, base: nat, total: nat)
    requires HeapInv(bs, base, total) && Arena(base, total) && size < WORD && AllocPtr(bs, size) != 0
    ensures forall x, n :: Holds(bs, x, n) ==> Holds(AllocBlocks(bs, size), x, n) && x != AllocPtr(bs, size)
    ensures Holds(AllocBlocks(bs, size), AllocPtr(bs, size), if size < 0xFFFF_FFF0 then size else 0)
    ensures forall x :: Holds(AllocBlocks(bs, size), x, 0) ==> x == AllocPtr(bs, size) || Holds(bs, x, 0)
    ensures HeapInv(AllocBlocks(bs, size), base, total)
  {
    var r := Rounded(size);
    var k := FirstFit(bs, r);
    RoundedExceeds(size);
    ClaimHolds(bs, k, r, base, total);
    AllocInv(bs, size, base, total);
    Shrink(AllocBlocks(bs, size), AllocPtr(bs, size), r, if size < 0xFFFF_FFF0 then size else 0);
  }

  lemma Shrink(bs: seq<Block>, ptr: nat, n: nat, m: nat)
    requires Holds(bs, ptr, n) && m <= n
    ensures Holds(bs, ptr, m)
  {
  }

  lemma FreeHolds(bs: seq<Block>, ptr: nat, base: nat, total: nat)
    requires HeapInv(bs, base, total) && Holds(bs, ptr, 0) && ptr != 0
    ensures Owns(bs, ptr) && HeapInv(FreeBlocks(bs, ptr), base, total)
    ensures forall x, n :: Holds(FreeBlocks(bs, ptr), x, n) <==> Holds(bs, x, n) && x != ptr
  {
    HeldIsOwned(bs, ptr, 0);
    var k := IndexOf(bs, ptr);
    var t := FreeBlocks(bs, ptr);
    FreeInv(bs, ptr, base, total);
    OnlyIndex(bs, k, base, total);
    hide HeapInv, IndexOf;
    assert !bs[k].free && t == bs[k := bs[k].(free := true)];
    forall x, n: nat
      ensures Holds(t, x, n) <==> Holds(bs, x, n) && x != ptr
    {
      if Holds(t, x, n) {
        var i :| 0 <= i < |t| && t[i].Payload() == x && !t[i].free && n <= t[i].size;
        assert i != k && bs[i] == t[i];
      }
      if Holds(bs, x, n) && x != ptr {
        var i :| 0 <= i < |bs| && bs[i].Payload() == x && !bs[i].free && n <= bs[i].size;
        assert t[i] == bs[i];
      }
    }
  }

  // ----- the invariant -----

  /** Every pointer in use has one owner. */
  ghost predicate OneOwner(k: Sys) {
    && (forall p, q :: p in k.pcb && q in k.pcb && k.pcb[p] == k.pcb[q] ==> p == q)
    && (forall p, q :: p in k.stack && q in k.stack && k.stack[p] == k.stack[q] ==> p == q)
    && (forall p, q :: p in k.pcb && q in k.stack ==> k.pcb[p] != k.stack[q])
    && (forall p :: p in k.pcb ==> k.pcb[p] !in k.others)
    && (forall p :: p in k.stack ==> k.stack[p] !in k.others)
  }

  ghost predicate Owned(k: Sys, ptr: nat) {
    ptr in k.others || (exists p :: p in k.pcb && k.pcb[p] == ptr) || (exists p :: p in k.stack && k.stack[p] == ptr)
  }

  /** Every owner's block is really handed out, and every block that is handed out has an owner. */
  ghost predicate Books(k: Sys) {
    && (forall p :: p in k.pcb ==> Holds(k.bs, k.pcb[p], PCB_SIZE))
    && (forall p :: p in k.stack ==> Holds(k.bs, k.stack[p], STACK))
    && (forall x :: x in k.others ==> Holds(k.bs, x, 0))
    && (forall x :: Holds(k.bs, x, 0) ==> Owned(k, x))
  }

  /** A live process has a control block; it has a stack until the reaper frees that first. */
  ghost predicate Equipped(k: Sys) {
    && k.pcb.Keys == k.s.live
    && k.stack.Keys == k.s.live - {S.IDLE} - (if k.s.reaper.FreePcb? then {k.s.reaper.victim} else {})
  }

  function SavedSp(k: Sys, p: Pid): int
    requires p in k.pcb
  {
    Load(k.mem, k.pcb[p] + SAVED_SP)
  }

  ghost predicate Suspended(k: Sys, p: Pid) {
    p in k.s.live && p != k.s.current && HasStack(k, p)
  }

  /** The registers of p wait, whole, inside its own stack. */
  ghost predicate FrameOk(k: Sys, p: Pid)
    requires HasStack(k, p) && p in k.pcb
  {
    && p in k.snap && k.snap[p].Valid()
    && StackOf(k, p) <= SavedSp(k, p) && SavedSp(k, p) + FRAME <= StackOf(k, p) + STACK
    && HasFrame(k.mem, SavedSp(k, p), k.snap[p])
    && k.snap[p].sp == SavedSp(k, p) + FRAME
  }

  ghost predicate Memory(k: Sys) {
    Arena(k.base, k.total) && STACK <= k.base && HeapInv(k.bs, k.base, k.total)
  }

  ghost predicate SysInv(k: Sys) {
    && P.Inv(k.s) && Memory(k) && Equipped(k) && OneOwner(k) && Books(k)
    && k.regs.Valid()
    && (forall p :: Suspended(k, p) ==> FrameOk(k, p))
  }

  // ----- what happens -----

  datatype Event =
    | Compute(writes: Words)            // the current process and the kernel's bookkeeping store aligned words
    | Call(e: S.Event, at: Regs)        // a scheduler call; `at` are the registers at its context_switch
    | Fork(proc: int, arg: int, cleanup: int)
    | Malloc(size: nat)
    | Mfree(ptr: nat)

  /**
   * Where code that runs between switches may store: its own stack, block headers, the
   * fields of control blocks but the saved stack pointer, other blocks, and memory outside the heap
   * that is not the boot stack.
   */
  ghost predicate MayWrite(k: Sys, a: int) {
    || (HasStack(k, k.s.current) && InStack(k, k.s.current, a))
    || InHeader(k.bs, a)
    || (exists p :: p in k.pcb && IsField(a - k.pcb[p]))
    || (exists x :: x in k.others && InPayload(k.bs, x, a))
    || STACK <= a < k.base || k.base + k.total <= a
  }

  /** The arguments of context_switch, and enough room for the frame. */
  ghost predicate EntersSwitch(k: Sys, next: Pid, at: Regs) {
    && at.Valid() && HasStack(k, k.s.current) && k.s.current in k.pcb && next in k.pcb
    && at.r[0] == k.pcb[k.s.current] + SAVED_SP && at.r[1] == k.pcb[next] + SAVED_SP
    && StackOf(k, k.s.current) + FRAME <= at.sp <= StackOf(k, k.s.current) + STACK && at.sp % 4 == 0
  }

  ghost predicate Enabled(k: Sys, e: Event) {
    match e
    case Compute(writes) => forall a :: a in writes ==> a % 4 == 0 && MayWrite(k, a)
    case Call(c, at) =>
      && c != S.EFork && S.Enabled(k.s, c)
      && (R.Dispatches(k.s, c) ==> EntersSwitch(k, S.Step(k.s, c).current, at))
    case Fork(_, _, _) =>
      && S.Enabled(k.s, S.EFork)
      && AllocPtr(k.bs, PCB_SIZE) != 0 && AllocPtr(AllocBlocks(k.bs, PCB_SIZE), STACK) != 0
    case Malloc(size) => size < WORD
    case Mfree(ptr) => ptr in k.others
  }

  /** sfree of a pointer that a block owns; the invariant says that there is no other case. */
  ghost function Freed(bs: seq<Block>, ptr: nat): seq<Block> {
    if Owns(bs, ptr) then FreeBlocks(bs, ptr) else bs
  }

  /** A scheduler call: the two sfrees of the reaper, or a context switch, or neither. */
  ghost function DoCall(k: Sys, c: S.Event, at: Regs): Sys
    requires Enabled(k, Call(c, at))
  {
    var t := k.(s := S.Step(k.s, c));
    if c == S.EReaperFreeStack then
      var v := k.s.reaper.victim;
      if v in k.stack then t.(bs := Freed(k.bs, k.stack[v]), stack := k.stack - {v}) else t
    else if c == S.EReaperFreePcb then
      var v := k.s.reaper.victim;
      if v in k.pcb then t.(bs := Freed(k.bs, k.pcb[v]), pcb := k.pcb - {v}) else t
    else if R.Dispatches(k.s, c) then
      t.(mem := SwitchMemory(k.mem, at), regs := SwitchRegs(k.mem, at),
         snap := k.snap[k.s.current := Resumption(at)])
    else t
  }

  /** What create_process stores: pid, stack, saved stack pointer and the first frame. */
  function WithProcess(mem: Words, pid: Pid, pcb: nat, stack: nat, first: Regs): Words
    requires first.Valid()
  {
    var framed := Store(mem, stack + STACK - FRAME, FrameOf(first));
    framed[pcb + PID := pid][pcb + STACKBASE := stack][pcb + SAVED_SP := stack + STACK - FRAME]
  }

  ghost function DoFork(k: Sys, proc: int, arg: int, cleanup: int): Sys
    requires Enabled(k, Fork(proc, arg, cleanup))
  {
    var h := k.s.nextPid;
    var pcb := AllocPtr(k.bs, PCB_SIZE);
    var bs := AllocBlocks(k.bs, PCB_SIZE);
    var stack := AllocPtr(bs, STACK);
    var first := Fresh(stack, proc, arg, cleanup);
    k.(s := S.Step(k.s, S.EFork), bs := AllocBlocks(bs, STACK),
       pcb := k.pcb[h := pcb], stack := k.stack[h := stack],
       mem := WithProcess(k.mem, h, pcb, stack, first),
       snap := k.snap[h := first])
  }

  ghost function Step(k: Sys, e: Event): Sys
    requires Enabled(k, e)
  {
    match e
    case Compute(writes) => k.(mem := k.mem + writes)
    case Call(c, at) => DoCall(k, c, at)
    case Fork(proc, arg, cleanup) => DoFork(k, proc, arg, cleanup)
    case Malloc(size) =>
      var ptr := AllocPtr(k.bs, size);
      if ptr == 0 then k else k.(bs := AllocBlocks(k.bs, size), others := k.others + {ptr})
    case Mfree(ptr) => k.(bs := Freed(k.bs, ptr), others := k.others - {ptr})
  }

  lemma HeldIsOwned(bs: seq<Block>, ptr: nat, n: nat)
    requires Holds(bs, ptr, n)
    ensures Owns(bs, ptr) && IsLive(bs, ptr) && Holds(bs, ptr, 0) && ptr != 0
  {
  }

  lemma VictimIsLive(s: S.State)
    requires P.Inv(s) && (s.reaper.FreeStack? || s.reaper.FreePcb?)
    ensures s.reaper.victim in s.live && s.reaper.victim != S.IDLE && s.reaper.victim != s.current
  {
  }

  lemma StackIsHeld(k: Sys)
    requires SysInv(k) && k.s.reaper.FreeStack?
    ensures k.s.reaper.victim in k.stack && Holds(k.bs, k.stack[k.s.reaper.victim], STACK)
    ensures Owns(k.bs, k.stack[k.s.reaper.victim]) && IsLive(k.bs, k.stack[k.s.reaper.victim])
  {
    hide P.Inv, HeapInv, Holds, Owns, IsLive, FrameOk, Suspended;
    VictimIsLive(k.s);
    HeldIsOwned(k.bs, k.stack[k.s.reaper.victim], STACK);
  }

  lemma PcbIsHeld(k: Sys)
    requires SysInv(k) && k.s.reaper.FreePcb?
    ensures k.s.reaper.victim in k.pcb && Holds(k.bs, k.pcb[k.s.reaper.victim], PCB_SIZE)
    ensures Owns(k.bs, k.pcb[k.s.reaper.victim]) && IsLive(k.bs, k.pcb[k.s.reaper.victim])
  {
    hide P.Inv, HeapInv, Holds, Owns, IsLive, FrameOk, Suspended;
    VictimIsLive(k.s);
    HeldIsOwned(k.bs, k.pcb[k.s.reaper.victim], PCB_SIZE);
  }

  // ----- geometry -----

  /** An address in the stack of p, or its saved stack pointer, is out of everybody else's reach. */
  ghost predicate Private(k: Sys, p: Pid, a: int)
    requires HasStack(k, p) && p in k.pcb
  {
    InStack(k, p, a) || a == k.pcb[p] + SAVED_SP
  }

  ghost predicate Geometry(k: Sys) {
    Memory(k) && OneOwner(k) && Books(k) && S.IDLE !in k.stack
  }

  /** Private words of a process that has a stack lie in payloads that are its own, or below the heap. */
  lemma PrivateWords(k: Sys, p: Pid, a: int)
    requires Geometry(k) && HasStack(k, p) && p in k.pcb && Private(k, p, a)
    ensures InStack(k, p, a) && p == S.IDLE ==> 0 <= a < STACK
    ensures InStack(k, p, a) && p != S.IDLE ==> InPayload(k.bs, k.stack[p], a) && k.base <= a < k.base + k.total
    ensures !InStack(k, p, a) ==> InPayload(k.bs, k.pcb[p], a) && k.base <= a < k.base + k.total
    ensures a < k.base + k.total
  {
  }

  lemma PrivateApart(k: Sys, p: Pid, q: Pid, a: int)
    requires Geometry(k) && p != q
    requires HasStack(k, p) && p in k.pcb && HasStack(k, q) && q in k.pcb
    requires Private(k, p, a)
    ensures !Private(k, q, a)
  {
    if Private(k, q, a) {
      PrivateWords(k, p, a);
      PrivateWords(k, q, a);
      if k.base <= a {
        var x := if InStack(k, p, a) then k.stack[p] else k.pcb[p];
        var y := if InStack(k, q, a) then k.stack[q] else k.pcb[q];
        PayloadsApart(k.bs, x, y, a, k.base, k.total);
      }
      assert false;
    }
  }

  /** The saved stack pointer of a process lies outside its stack. */
  lemma SlotOutsideStack(k: Sys, p: Pid)
    requires Geometry(k) && HasStack(k, p) && p in k.pcb
    ensures !InStack(k, p, k.pcb[p] + SAVED_SP)
  {
    var a := k.pcb[p] + SAVED_SP;
    HeldBytes(k.bs, k.pcb[p], PCB_SIZE, a, k.base, k.total);
    if InStack(k, p, a) && p != S.IDLE {
      PrivateWords(k, p, a);
      PayloadsApart(k.bs, k.stack[p], k.pcb[p], a, k.base, k.total);
      assert false;
    }
  }

  /** The block a private word belongs to; the boot stack, below the heap, is none. */
  function HomeOf(k: Sys, p: Pid, a: int): nat
    requires HasStack(k, p) && p in k.pcb
  {
    if InStack(k, p, a) && p != S.IDLE then k.stack[p] else k.pcb[p]
  }

  lemma PrivateMissesHeaders(k: Sys, p: Pid, a: int)
    requires Geometry(k) && HasStack(k, p) && p in k.pcb && Private(k, p, a)
    ensures !InHeader(k.bs, a)
  {
    PrivateWords(k, p, a);
    hide Private, InStack, Books, OneOwner;
    if InHeader(k.bs, a) {
      HeaderInHeap(k.bs, a, k.base, k.total);
      HeadersAreNotPayload(k.bs, HomeOf(k, p, a), a, k.base, k.total);
    }
  }

  lemma PrivateMissesLinks(k: Sys, p: Pid, a: int, q: Pid)
    requires Geometry(k) && HasStack(k, p) && p in k.pcb && Private(k, p, a) && q in k.pcb
    ensures !IsField(a - k.pcb[q])
  {
    PrivateWords(k, p, a);
    hide InStack, HeapInv, Arena;
    if k.pcb[q] <= a < k.pcb[q] + PCB_SIZE {
      HeldBytes(k.bs, k.pcb[q], PCB_SIZE, a, k.base, k.total);
      PayloadsApart(k.bs, k.pcb[q], HomeOf(k, p, a), a, k.base, k.total);
    }
  }

  lemma PrivateMissesOthers(k: Sys, p: Pid, a: int, x: nat)
    requires Geometry(k) && HasStack(k, p) && p in k.pcb && Private(k, p, a) && x in k.others
    ensures !InPayload(k.bs, x, a)
  {
    PrivateWords(k, p, a);
    hide InStack, HeapInv, Arena;
    if InPayload(k.bs, x, a) {
      PayloadInHeap(k.bs, x, a, k.base, k.total);
      PayloadsApart(k.bs, x, HomeOf(k, p, a), a, k.base, k.total);
    }
  }

  /** No store between switches reaches a suspended process. */
  lemma WritesMiss(k: Sys, p: Pid, a: int)
    requires Geometry(k) && Suspended(k, p) && p in k.pcb && k.s.current in k.pcb
    requires Private(k, p, a)
    ensures !MayWrite(k, a)
  {
    hide Geometry, MayWrite, InHeader, InPayload, IsField, Private;
    PrivateWords(k, p, a);
    PrivateMissesHeaders(k, p, a);
    forall q | q in k.pcb
      ensures !IsField(a - k.pcb[q])
    {
      PrivateMissesLinks(k, p, a, q);
    }
    forall x | x in k.others
      ensures !InPayload(k.bs, x, a)
    {
      PrivateMissesOthers(k, p, a, x);
    }
    if HasStack(k, k.s.current) {
      PrivateApart(k, p, k.s.current, a);
      NotPrivate(k, k.s.current, a);
    }
    MayNotWrite(k, a);
  }

  lemma NotPrivate(k: Sys, p: Pid, a: int)
    requires HasStack(k, p) && p in k.pcb && !Private(k, p, a)
    ensures !InStack(k, p, a)
  {
  }

  lemma MayNotWrite(k: Sys, a: int)
    requires HasStack(k, k.s.current) ==> !InStack(k, k.s.current, a)
    requires !InHeader(k.bs, a) && forall q :: q in k.pcb ==> !IsField(a - k.pcb[q])
    requires forall x :: x in k.others ==> !InPayload(k.bs, x, a)
    requires (a < STACK || k.base <= a) && a < k.base + k.total
    ensures !MayWrite(k, a)
  {
  }

  lemma HeaderInHeap(bs: seq<Block>, a: int, base: nat, total: nat)
    requires HeapInv(bs, base, total) && InHeader(bs, a)
    ensures base <= a < base + total
  {
  }

  lemma PayloadInHeap(bs: seq<Block>, x: nat, a: int, base: nat, total: nat)
    requires HeapInv(bs, base, total) && InPayload(bs, x, a)
    ensures base <= a < base + total
  {
  }

  // ----- suspended frames survive -----

  /** A frame is intact if the words of its owner are. */
  lemma FrameStays(k: Sys, t: Sys, p: Pid)
    requires HasStack(k, p) && p in k.pcb && FrameOk(k, p)
    requires HasStack(t, p) && p in t.pcb && StackOf(t, p) == StackOf(k, p) && t.pcb[p] == k.pcb[p]
    requires p in k.snap ==> p in t.snap && t.snap[p] == k.snap[p]
    requires forall a :: Private(k, p, a) ==> Load(t.mem, a) == Load(k.mem, a)
    ensures FrameOk(t, p)
  {
  }

  /** What a scheduler call does to the processes as the rest of the system sees them. */
  lemma CallFacts(s: S.State, c: S.Event)
    requires P.Inv(s) && S.Enabled(s, c) && c != S.EFork
    ensures P.Inv(S.Step(s, c))
    ensures S.Step(s, c).live == s.live - (if c == S.EReaperFreePcb then {s.reaper.victim} else {})
    ensures !R.Dispatches(s, c) ==> S.Step(s, c).current == s.current
    ensures S.Step(s, c).current in s.live && s.current in s.live
    ensures c != S.EReaperFreeStack && c != S.EReaperFreePcb ==>
      (S.Step(s, c).reaper.FreePcb? <==> s.reaper.FreePcb?)
      && (s.reaper.FreePcb? ==> S.Step(s, c).reaper == s.reaper)
  {
    P.StepKeepsInv(s, c);
    CallLive(s, c);
    InvFacts(s);
    InvFacts(S.Step(s, c));
  }

  lemma InvFacts(s: S.State)
    requires P.Inv(s)
    ensures s.current in s.live && S.IDLE in s.live && s.nextPid !in s.live && s.nextPid != S.IDLE
  {
  }

  lemma CallLive(s: S.State, c: S.Event)
    requires S.Enabled(s, c) && c != S.EFork
    ensures S.Step(s, c).live == s.live - (if c == S.EReaperFreePcb then {s.reaper.victim} else {})
    ensures !R.Dispatches(s, c) ==> S.Step(s, c).current == s.current
    ensures c != S.EReaperFreeStack && c != S.EReaperFreePcb ==>
      (S.Step(s, c).reaper.FreePcb? <==> s.reaper.FreePcb?)
      && (s.reaper.FreePcb? ==> S.Step(s, c).reaper == s.reaper)
  {
  }

  lemma GeometryHolds(k: Sys)
    requires SysInv(k)
    ensures Geometry(k) && k.s.current in k.pcb && k.s.current in k.s.live && S.IDLE in k.s.live
    ensures forall p :: Suspended(k, p) ==> p in k.pcb && FrameOk(k, p)
  {
  }

  lemma ComputeKeeps(k: Sys, writes: Words)
    requires SysInv(k) && Enabled(k, Compute(writes))
    ensures SysInv(k.(mem := k.mem + writes))
  {
    hide P.Inv, MayWrite, FrameOk, Memory, Books, OneOwner;
    var t := k.(mem := k.mem + writes);
    GeometryHolds(k);
    assert Memory(t) && Books(t) && OneOwner(t) by { SameBooks(k, t); }
    forall p | Suspended(t, p)
      ensures FrameOk(t, p)
    {
      assert Suspended(k, p);
      forall a | Private(k, p, a)
        ensures Load(t.mem, a) == Load(k.mem, a)
      {
        WritesMiss(k, p, a);
      }
      FrameStays(k, t, p);
    }
  }

  lemma SameBooks(k: Sys, t: Sys)
    requires Memory(k) && Books(k) && OneOwner(k)
    requires t.bs == k.bs && t.base == k.base && t.total == k.total
    requires t.pcb == k.pcb && t.stack == k.stack && t.others == k.others
    ensures Memory(t) && Books(t) && OneOwner(t)
  {
    forall x | Holds(t.bs, x, 0)
      ensures Owned(t, x)
    {
      assert Owned(k, x);
    }
  }

  /** The switch itself: it writes only below the stack pointer of the one that leaves, and its slot. */
  lemma SwitchWrites(k: Sys, next: Pid, at: Regs, p: Pid)
    requires Geometry(k) && EntersSwitch(k, next, at) && p != k.s.current && p in k.pcb && HasStack(k, p)
    ensures forall a :: Private(k, p, a) ==> Load(SwitchMemory(k.mem, at), a) == Load(k.mem, a)
  {
    hide FrameOk, Geometry;
    var c := k.s.current;
    SlotOutsideStack(k, c);
    assert InStack(k, c, at.sp - FRAME) && InStack(k, c, at.sp - 1);
    SwitchSaves(k.mem, at);
    forall a | Private(k, p, a)
      ensures Load(SwitchMemory(k.mem, at), a) == Load(k.mem, a)
    {
      PrivateApart(k, p, c, a);
    }
  }

  /** The one that leaves is suspended with exactly the registers it had. */
  lemma SwitchSuspends(k: Sys, t: Sys, next: Pid, at: Regs)
    requires Geometry(k) && EntersSwitch(k, next, at)
    requires t.mem == SwitchMemory(k.mem, at) && t.snap == k.snap[k.s.current := Resumption(at)]
    requires t.pcb == k.pcb && t.stack == k.stack
    ensures HasStack(t, k.s.current) && FrameOk(t, k.s.current)
  {
    hide Geometry;
    var c := k.s.current;
    SlotOutsideStack(k, c);
    assert InStack(k, c, at.sp - FRAME) && InStack(k, c, at.sp - 1);
    SwitchSaves(k.mem, at);
  }

  /** The one that is resumed gets back exactly what it left with; so does one switched to itself. */
  lemma SwitchResumes(k: Sys, next: Pid, at: Regs)
    requires Geometry(k) && EntersSwitch(k, next, at)
    requires next != k.s.current ==> HasStack(k, next) && FrameOk(k, next)
    ensures next == k.s.current ==> SwitchRegs(k.mem, at) == Resumption(at)
    ensures next != k.s.current ==> SwitchRegs(k.mem, at) == k.snap[next]
  {
    hide Geometry;
    var c := k.s.current;
    SlotOutsideStack(k, c);
    assert InStack(k, c, at.sp - FRAME) && InStack(k, c, at.sp - 1);
    if next == c {
      SwitchToSelf(k.mem, at);
    } else {
      SwitchWrites(k, next, at, next);
      var m := SwitchMemory(k.mem, at);
      var f := SavedSp(k, next);
      assert Private(k, next, k.pcb[next] + SAVED_SP);
      forall i | 0 <= i < 16
        ensures WordAt(m, f, i) == FrameOf(k.snap[next])[i]
      {
        assert WordAt(k.mem, f, i) == FrameOf(k.snap[next])[i];
        assert Private(k, next, f + 4 * i);
      }
      PopUndoesPush(m, f, k.snap[next]);
    }
  }

  lemma SwitchKeeps(k: Sys, c: S.Event, at: Regs)
    requires SysInv(k) && Enabled(k, Call(c, at)) && R.Dispatches(k.s, c)
    ensures SysInv(DoCall(k, c, at))
  {
    hide P.Inv, Memory, Books, OneOwner, FrameOk, S.Step, S.Enabled;
    var t := DoCall(k, c, at);
    var next := S.Step(k.s, c).current;
    CallFacts(k.s, c);
    GeometryHolds(k);
    SameBooks(k, t);
    forall p | Suspended(t, p)
      ensures FrameOk(t, p)
    {
      if p == k.s.current {
        SwitchSuspends(k, t, next, at);
      } else {
        assert Suspended(k, p);
        SwitchWrites(k, next, at, p);
        FrameStays(k, t, p);
      }
    }
  }

  /** A call that neither switches nor frees touches the scheduler's state only. */
  lemma QuietCallKeeps(k: Sys, c: S.Event, at: Regs)
    requires SysInv(k) && Enabled(k, Call(c, at)) && !R.Dispatches(k.s, c)
    requires c != S.EReaperFreeStack && c != S.EReaperFreePcb
    ensures SysInv(DoCall(k, c, at))
  {
    hide P.Inv, Memory, Books, OneOwner, FrameOk, S.Step, S.Enabled;
    var t := DoCall(k, c, at);
    CallFacts(k.s, c);
    GeometryHolds(k);
    SameBooks(k, t);
    forall p | Suspended(t, p)
      ensures FrameOk(t, p)
    {
      assert Suspended(k, p);
      FrameStays(k, t, p);
    }
  }

  /** Giving a block back keeps the books if its owner goes with it. */
  lemma FreeKeepsBooks(k: Sys, t: Sys, ptr: nat)
    requires Memory(k) && Books(k) && OneOwner(k)
    requires Holds(k.bs, ptr, 0) && ptr != 0 && Owns(k.bs, ptr) && t.bs == FreeBlocks(k.bs, ptr)
    requires t.base == k.base && t.total == k.total
    requires forall p :: p in t.pcb <==> p in k.pcb && k.pcb[p] != ptr
    requires forall p :: p in t.pcb ==> t.pcb[p] == k.pcb[p]
    requires forall p :: p in t.stack <==> p in k.stack && k.stack[p] != ptr
    requires forall p :: p in t.stack ==> t.stack[p] == k.stack[p]
    requires t.others == k.others - {ptr}
    ensures Memory(t) && Books(t) && OneOwner(t)
  {
    hide Holds, HeapInv, Owns, Arena, Books, OneOwner, FreeBlocks;
    FreeHolds(k.bs, ptr, k.base, k.total);
    assert OneOwner(t) by { FreeKeepsOwners(k, t, ptr); }
    FreedBooks(k, t, ptr);
  }

  lemma FreeKeepsOwners(k: Sys, t: Sys, ptr: nat)
    requires OneOwner(k)
    requires forall p :: p in t.pcb ==> p in k.pcb && t.pcb[p] == k.pcb[p]
    requires forall p :: p in t.stack ==> p in k.stack && t.stack[p] == k.stack[p]
    requires t.others == k.others - {ptr}
    ensures OneOwner(t)
  {
  }

  lemma FreedBooks(k: Sys, t: Sys, ptr: nat)
    requires Books(k)
    requires forall x, n: nat :: Holds(t.bs, x, n) <==> Holds(k.bs, x, n) && x != ptr
    requires forall p :: p in t.pcb <==> p in k.pcb && k.pcb[p] != ptr
    requires forall p :: p in t.pcb ==> t.pcb[p] == k.pcb[p]
    requires forall p :: p in t.stack <==> p in k.stack && k.stack[p] != ptr
    requires forall p :: p in t.stack ==> t.stack[p] == k.stack[p]
    requires t.others == k.others - {ptr}
    ensures Books(t)
  {
  }

  lemma FreeStackBooks(k: Sys, at: Regs)
    requires k.s.reaper.FreeStack? && SysInv(k) && Enabled(k, Call(S.EReaperFreeStack, at))
    ensures k.s.reaper.victim in k.stack
    ensures var t := DoCall(k, S.EReaperFreeStack, at); Memory(t) && Books(t) && OneOwner(t)
  {
    hide P.Inv, Memory, Books, FrameOk, Owns, IsLive, Holds, FreeBlocks, S.Step, Suspended;
    var v := k.s.reaper.victim;
    var t := DoCall(k, S.EReaperFreeStack, at);
    StackIsHeld(k);
    VictimIsLive(k.s);
    HeldIsOwned(k.bs, k.stack[v], STACK);
    FreeKeepsBooks(k, t, k.stack[v]);
  }

  lemma FreeStackKeeps(k: Sys, at: Regs)
    requires SysInv(k) && Enabled(k, Call(S.EReaperFreeStack, at))
    ensures SysInv(DoCall(k, S.EReaperFreeStack, at))
  {
    hide P.Inv, Memory, Books, OneOwner, FrameOk, Owns, IsLive, Holds, FreeBlocks;
    var t := DoCall(k, S.EReaperFreeStack, at);
    CallFacts(k.s, S.EReaperFreeStack);
    GeometryHolds(k);
    FreeStackBooks(k, at);
    VictimIsLive(k.s);
    forall p | Suspended(t, p)
      ensures FrameOk(t, p)
    {
      assert Suspended(k, p);
      FrameStays(k, t, p);
    }
  }

  lemma FreePcbBooks(k: Sys, at: Regs)
    requires k.s.reaper.FreePcb? && SysInv(k) && Enabled(k, Call(S.EReaperFreePcb, at))
    ensures k.s.reaper.victim in k.pcb
    ensures var t := DoCall(k, S.EReaperFreePcb, at); Memory(t) && Books(t) && OneOwner(t)
  {
    hide P.Inv, Memory, Books, FrameOk, Owns, IsLive, Holds, FreeBlocks, S.Step, Suspended;
    var v := k.s.reaper.victim;
    var t := DoCall(k, S.EReaperFreePcb, at);
    PcbIsHeld(k);
    VictimIsLive(k.s);
    HeldIsOwned(k.bs, k.pcb[v], PCB_SIZE);
    FreeKeepsBooks(k, t, k.pcb[v]);
  }

  lemma FreePcbKeeps(k: Sys, at: Regs)
    requires SysInv(k) && Enabled(k, Call(S.EReaperFreePcb, at))
    ensures SysInv(DoCall(k, S.EReaperFreePcb, at))
  {
    hide P.Inv, Memory, Books, OneOwner, FrameOk, Owns, IsLive, Holds, FreeBlocks;
    var t := DoCall(k, S.EReaperFreePcb, at);
    CallFacts(k.s, S.EReaperFreePcb);
    GeometryHolds(k);
    FreePcbBooks(k, at);
    forall p | Suspended(t, p)
      ensures FrameOk(t, p)
    {
      assert Suspended(k, p);
      FrameStays(k, t, p);
    }
  }

  lemma MfreeKeeps(k: Sys, ptr: nat)
    requires SysInv(k) && Enabled(k, Mfree(ptr))
    ensures SysInv(Step(k, Mfree(ptr)))
  {
    hide P.Inv, Memory, Books, FrameOk, IsLive, Holds, FreeBlocks, Owns;
    var t := Step(k, Mfree(ptr));
    GeometryHolds(k);
    OtherHolds(k, ptr);
    FreeKeepsBooks(k, t, ptr);
    forall p | Suspended(t, p)
      ensures FrameOk(t, p)
    {
      assert Suspended(k, p);
      FrameStays(k, t, p);
    }
  }

  lemma OtherHolds(k: Sys, ptr: nat)
    requires SysInv(k) && ptr in k.others
    ensures Holds(k.bs, ptr, 0) && Owns(k.bs, ptr) && ptr != 0
  {
  }

  /** A new block keeps the books if it gets one owner. */
  lemma AllocKeepsBooks(k: Sys, size: nat)
    requires Memory(k) && Books(k) && OneOwner(k) && size < WORD && AllocPtr(k.bs, size) != 0
    ensures var t := k.(bs := AllocBlocks(k.bs, size), others := k.others + {AllocPtr(k.bs, size)});
      Memory(t) && Books(t) && OneOwner(t)
    ensures AllocPtr(k.bs, size) !in k.others
    ensures Holds(AllocBlocks(k.bs, size), AllocPtr(k.bs, size), if size < 0xFFFF_FFF0 then size else 0)
    ensures forall p :: p in k.pcb ==> k.pcb[p] != AllocPtr(k.bs, size)
    ensures forall p :: p in k.stack ==> k.stack[p] != AllocPtr(k.bs, size)
  {
    hide Holds, HeapInv, AllocBlocks, AllocPtr, Arena, Books, OneOwner;
    AllocHolds(k.bs, size, k.base, k.total);
    AllocOwners(k, AllocPtr(k.bs, size));
    var t := k.(bs := AllocBlocks(k.bs, size), others := k.others + {AllocPtr(k.bs, size)});
    AllocatedBooks(k, t, AllocPtr(k.bs, size), if size < 0xFFFF_FFF0 then size else 0);
  }

  lemma AllocOwners(k: Sys, ptr: nat)
    requires OneOwner(k) && Books(k) && forall x, n: nat :: Holds(k.bs, x, n) ==> x != ptr
    ensures forall bs :: OneOwner(k.(bs := bs, others := k.others + {ptr}))
    ensures ptr !in k.others
    ensures forall p :: p in k.pcb ==> k.pcb[p] != ptr
    ensures forall p :: p in k.stack ==> k.stack[p] != ptr
  {
  }

  lemma AllocatedBooks(k: Sys, t: Sys, ptr: nat, n: nat)
    requires Books(k) && t == k.(bs := t.bs, others := k.others + {ptr})
    requires forall x, m: nat :: Holds(k.bs, x, m) ==> Holds(t.bs, x, m)
    requires Holds(t.bs, ptr, n)
    requires forall x :: Holds(t.bs, x, 0) ==> x == ptr || Holds(k.bs, x, 0)
    ensures Books(t)
  {
  }

  lemma MallocKeeps(k: Sys, size: nat)
    requires SysInv(k) && Enabled(k, Malloc(size))
    ensures SysInv(Step(k, Malloc(size)))
  {
    hide P.Inv, Memory, Books, FrameOk, AllocBlocks, AllocPtr, OneOwner;
    var t := Step(k, Malloc(size));
    GeometryHolds(k);
    if AllocPtr(k.bs, size) != 0 {
      AllocKeepsBooks(k, size);
      forall p | Suspended(t, p)
        ensures FrameOk(t, p)
      {
        assert Suspended(k, p);
        FrameStays(k, t, p);
      }
    }
  }

  // ----- fork -----

  lemma ForkFacts(s: S.State)
    requires P.Inv(s) && S.Enabled(s, S.EFork)
    ensures P.Inv(S.Step(s, S.EFork))
    ensures S.Step(s, S.EFork).live == s.live + {s.nextPid} && s.nextPid !in s.live && s.nextPid != S.IDLE
    ensures S.Step(s, S.EFork).current == s.current && s.current in s.live && S.Step(s, S.EFork).reaper == s.reaper
    ensures s.reaper.FreePcb? ==> s.reaper.victim in s.live
  {
    P.StepKeepsInv(s, S.EFork);
    InvFacts(s);
    if s.reaper.FreePcb? { VictimIsLive(s); }
  }

  /** Two fresh blocks become the control block and the stack of process h. */
  lemma Adopt(k: Sys, t: Sys, h: Pid, pcb: nat, stack: nat)
    requires OneOwner(k) && Books(k) && pcb in k.others && stack in k.others && pcb != stack
    requires Holds(k.bs, pcb, PCB_SIZE) && Holds(k.bs, stack, STACK) && h !in k.pcb && h !in k.stack
    requires t.bs == k.bs && t.pcb == k.pcb[h := pcb] && t.stack == k.stack[h := stack]
    requires t.others == k.others - {pcb, stack}
    ensures OneOwner(t) && Books(t)
  {
    hide Holds, Books, OneOwner;
    AdoptOwners(k, t, h, pcb, stack);
    AdoptBooks(k, t, h, pcb, stack);
  }

  lemma AdoptOwners(k: Sys, t: Sys, h: Pid, pcb: nat, stack: nat)
    requires OneOwner(k) && pcb in k.others && stack in k.others && pcb != stack
    requires t.pcb == k.pcb[h := pcb] && t.stack == k.stack[h := stack]
    requires t.others == k.others - {pcb, stack} && h !in k.pcb && h !in k.stack
    ensures OneOwner(t)
  {
  }

  lemma AdoptBooks(k: Sys, t: Sys, h: Pid, pcb: nat, stack: nat)
    requires Books(k) && h !in k.pcb && h !in k.stack
    requires Holds(k.bs, pcb, PCB_SIZE) && Holds(k.bs, stack, STACK)
    requires t.bs == k.bs && t.pcb == k.pcb[h := pcb] && t.stack == k.stack[h := stack]
    requires t.others == k.others - {pcb, stack}
    ensures Books(t)
  {
    hide Holds;
    forall x | Holds(t.bs, x, 0)
      ensures Owned(t, x)
    {
      assert Owned(k, x);
      if x == pcb { assert t.pcb[h] == x; }
      else if x == stack { assert t.stack[h] == x; }
      else if x !in k.others {
        if p :| p in k.pcb && k.pcb[p] == x {
          assert t.pcb[p] == x;
        } else {
          var p :| p in k.stack && k.stack[p] == x;
          assert t.stack[p] == x;
        }
      }
    }
  }

  /** The books after the two allocations of create_process. */
  lemma ForkBooks(k: Sys, proc: int, arg: int, cleanup: int)
    requires SysInv(k) && Enabled(k, Fork(proc, arg, cleanup))
    ensures Geometry(DoFork(k, proc, arg, cleanup))
  {
    hide P.Inv, Books, OneOwner, FrameOk, AllocBlocks, AllocPtr, Holds, HeapInv, S.Step, S.Enabled;
    var pcb := AllocPtr(k.bs, PCB_SIZE);
    var k1 := k.(bs := AllocBlocks(k.bs, PCB_SIZE), others := k.others + {pcb});
    var stack := AllocPtr(k1.bs, STACK);
    var k2 := k1.(bs := AllocBlocks(k1.bs, STACK), others := k1.others + {stack});
    ForkFacts(k.s);
    AllocKeepsBooks(k, PCB_SIZE);
    AllocKeepsBooks(k1, STACK);
    AllocHolds(k1.bs, STACK, k.base, k.total);
    Adopt(k2, DoFork(k, proc, arg, cleanup), k.s.nextPid, pcb, stack);
  }

  /** Where create_process stores: the stack and the control block of the new process. */
  ghost predicate MadeFor(k: Sys, h: Pid, a: int)
    requires HasStack(k, h) && h in k.pcb
  {
    Private(k, h, a) || IsField(a - k.pcb[h])
  }

  lemma OthersKeepTheirs(k: Sys, p: Pid, h: Pid, a: int)
    requires Geometry(k) && p != h && HasStack(k, p) && p in k.pcb && HasStack(k, h) && h in k.pcb
    requires Private(k, p, a)
    ensures !MadeFor(k, h, a)
  {
    hide Geometry, Private, IsField;
    PrivateApart(k, p, h, a);
    PrivateMissesLinks(k, p, a, h);
  }

  /** The stores of create_process stay in the new stack and control block and leave a whole frame. */
  lemma ProcessWritten(k: Sys, mem: Words, h: Pid, first: Regs)
    requires Geometry(k) && h in k.pcb && h in k.stack && h != S.IDLE && first.Valid()
    ensures var m := WithProcess(mem, h, k.pcb[h], k.stack[h], first);
      && (forall a :: !MadeFor(k, h, a) ==> Load(m, a) == Load(mem, a))
      && Load(m, k.pcb[h] + SAVED_SP) == k.stack[h] + STACK - FRAME
      && Load(m, k.pcb[h] + PID) == h && Load(m, k.pcb[h] + STACKBASE) == k.stack[h]
      && HasFrame(m, k.stack[h] + STACK - FRAME, first)
  {
    hide Geometry;
    var f := k.stack[h] + STACK - FRAME;
    var m := WithProcess(mem, h, k.pcb[h], k.stack[h], first);
    SlotOutsideStack(k, h);
    StoredWords(mem, f, FrameOf(first));
    forall i | 0 <= i < 16
      ensures WordAt(m, f, i) == FrameOf(first)[i]
    {
      assert WordAt(Store(mem, f, FrameOf(first)), f, i) == FrameOf(first)[i];
      assert InStack(k, h, f + 4 * i);
      PrivateMissesLinks(k, h, f + 4 * i, h);
    }
  }

  /** The new process waits with the registers that create_process wanted for it. */
  lemma ForkedFrame(k: Sys, proc: int, arg: int, cleanup: int)
    requires Enabled(k, Fork(proc, arg, cleanup)) && Geometry(DoFork(k, proc, arg, cleanup))
    requires k.s.nextPid != S.IDLE
    ensures var t := DoFork(k, proc, arg, cleanup);
      var h := k.s.nextPid;
      && FrameOk(t, h)
      && t.snap[h] == Fresh(t.stack[h], proc, arg, cleanup)
      && (forall a :: !MadeFor(t, h, a) ==> Load(t.mem, a) == Load(k.mem, a))
  {
    hide Geometry, S.Step, S.Enabled, AllocBlocks, AllocPtr, WithProcess, MadeFor;
    var t := DoFork(k, proc, arg, cleanup);
    ProcessWritten(t, k.mem, k.s.nextPid, Fresh(t.stack[k.s.nextPid], proc, arg, cleanup));
  }

  lemma ForkKeeps(k: Sys, proc: int, arg: int, cleanup: int)
    requires SysInv(k) && Enabled(k, Fork(proc, arg, cleanup))
    ensures SysInv(DoFork(k, proc, arg, cleanup))
  {
    ForkFacts(k.s);
    ForkBooks(k, proc, arg, cleanup);
    ForkedFrame(k, proc, arg, cleanup);
    GeometryHolds(k);
    ForkRest(k, DoFork(k, proc, arg, cleanup), k.s.nextPid);
  }

  lemma ForkRest(k: Sys, t: Sys, h: Pid)
    requires SysInv(k) && Geometry(t) && Geometry(k) && P.Inv(t.s)
    requires h !in k.s.live && h != S.IDLE && t.s.live == k.s.live + {h} && t.s.current == k.s.current
    requires t.s.reaper == k.s.reaper && (k.s.reaper.FreePcb? ==> k.s.reaper.victim in k.s.live)
    requires h in t.pcb && h in t.stack && FrameOk(t, h) && t.regs == k.regs
    requires t.pcb == k.pcb[h := t.pcb[h]] && t.stack == k.stack[h := t.stack[h]] && h in t.snap
    requires t.snap == k.snap[h := t.snap[h]]
    requires forall a :: !MadeFor(t, h, a) ==> Load(t.mem, a) == Load(k.mem, a)
    requires forall p :: Suspended(k, p) ==> p in k.pcb && FrameOk(k, p)
    ensures SysInv(t)
  {
    hide P.Inv, Books, OneOwner, FrameOk, Memory, MadeFor;
    forall p | Suspended(t, p)
      ensures FrameOk(t, p)
    {
      if p != h {
        assert Suspended(k, p);
        forall a | Private(k, p, a)
          ensures Load(t.mem, a) == Load(k.mem, a)
        {
          assert Private(t, p, a);
          OthersKeepTheirs(t, p, h, a);
        }
        FrameStays(k, t, p);
      }
    }
  }

  // ----- all runs -----

  lemma StepKeeps(k: Sys, e: Event)
    requires SysInv(k) && Enabled(k, e)
    ensures SysInv(Step(k, e))
  {
    hide SysInv, Enabled, DoCall, DoFork;
    match e
    case Compute(writes) => ComputeKeeps(k, writes);
    case Call(c, at) => CallKeeps(k, c, at);
    case Fork(proc, arg, cleanup) => ForkKeeps(k, proc, arg, cleanup);
    case Malloc(size) => MallocKeeps(k, size);
    case Mfree(ptr) => MfreeKeeps(k, ptr);
  }

  lemma CallKeeps(k: Sys, c: S.Event, at: Regs)
    requires SysInv(k) && Enabled(k, Call(c, at))
    ensures SysInv(DoCall(k, c, at))
  {
    hide SysInv, Enabled, DoCall;
    if c == S.EReaperFreeStack { FreeStackKeeps(k, at); }
    else if c == S.EReaperFreePcb { FreePcbKeeps(k, at); }
    else if R.Dispatches(k.s, c) { SwitchKeeps(k, c, at); }
    else { QuietCallKeeps(k, c, at); }
  }

  ghost predicate Legal(k: Sys, es: seq<Event>)
    decreases |es|
  {
    es == [] || (Enabled(k, es[0]) && Legal(Step(k, es[0]), es[1..]))
  }

  ghost function Run(k: Sys, es: seq<Event>): Sys
    requires Legal(k, es)
    decreases |es|
  {
    if es == [] then k else Run(Step(k, es[0]), es[1..])
  }

  /** Process p does not run, and is not freed, during the events. */
  ghost predicate Away(k: Sys, es: seq<Event>, p: Pid)
    requires Legal(k, es)
    decreases |es|
  {
    && Suspended(k, p)
    && (es == [] || Away(Step(k, es[0]), es[1..], p))
  }

  lemma {:induction false} RunKeeps(k: Sys, es: seq<Event>)
    requires SysInv(k) && Legal(k, es)
    ensures SysInv(Run(k, es))
    decreases |es|
  {
    hide SysInv, Enabled, Step;
    if es != [] {
      StepKeeps(k, es[0]);
      RunKeeps(Step(k, es[0]), es[1..]);
    }
  }

  lemma SnapStep(k: Sys, e: Event, p: Pid)
    requires Enabled(k, e) && Suspended(k, p) && p in k.snap && k.s.nextPid !in k.s.live
    ensures p in Step(k, e).snap && Step(k, e).snap[p] == k.snap[p]
  {
    hide S.Step, S.Enabled, MayWrite, EntersSwitch, Freed, DoCall, DoFork;
    match e
    case Call(c, at) => SnapCall(k, c, at, p);
    case Fork(proc, arg, cleanup) => SnapFork(k, proc, arg, cleanup, p);
    case _ =>
  }

  lemma SnapCall(k: Sys, c: S.Event, at: Regs, p: Pid)
    requires Enabled(k, Call(c, at)) && p != k.s.current && p in k.snap
    ensures p in DoCall(k, c, at).snap && DoCall(k, c, at).snap[p] == k.snap[p]
  {
    hide S.Step, S.Enabled, EntersSwitch, SwitchMemory, SwitchRegs, Freed;
  }

  lemma SnapFork(k: Sys, proc: int, arg: int, cleanup: int, p: Pid)
    requires Enabled(k, Fork(proc, arg, cleanup)) && p != k.s.nextPid && p in k.snap
    ensures p in DoFork(k, proc, arg, cleanup).snap && DoFork(k, proc, arg, cleanup).snap[p] == k.snap[p]
  {
    hide S.Step, S.Enabled, AllocBlocks, AllocPtr, WithProcess;
  }

  /** Along a run without p nothing that is remembered about p changes. */
  lemma {:induction false} SnapRun(k: Sys, es: seq<Event>, p: Pid)
    requires SysInv(k) && Legal(k, es) && Away(k, es, p)
    ensures p in k.snap && p in Run(k, es).snap && Run(k, es).snap[p] == k.snap[p]
    ensures SysInv(Run(k, es)) && Suspended(Run(k, es), p)
    decreases |es|
  {
    hide SysInv, Enabled, Step, Suspended;
    SuspendedIsKnown(k, p);
    if es != [] {
      StepKeeps(k, es[0]);
      SnapStep(k, es[0], p);
      SnapRun(Step(k, es[0]), es[1..], p);
    }
  }

  lemma SuspendedIsKnown(k: Sys, p: Pid)
    requires SysInv(k) && Suspended(k, p)
    ensures p in k.snap && HasStack(k, p) && p in k.pcb && FrameOk(k, p) && k.s.nextPid !in k.s.live
  {
  }

  /** A call that goes through schedule_next_process and picks process p. */
  ghost predicate Resumes(k: Sys, c: S.Event, at: Regs, p: Pid) {
    && Enabled(k, Call(c, at)) && R.Dispatches(k.s, c)
    && S.Step(k.s, c).current == p
  }

  /** Whoever is dispatched gets back the registers under which it was suspended. */
  lemma DispatchRestores(k: Sys, c: S.Event, at: Regs, p: Pid)
    requires SysInv(k) && Resumes(k, c, at, p) && Suspended(k, p)
    ensures p in k.snap && Step(k, Call(c, at)).regs == k.snap[p]
  {
    hide SysInv, Geometry, S.Step, S.Enabled, SwitchMemory, SwitchRegs, FrameOk;
    GeometryHolds(k);
    SuspendedIsKnown(k, p);
    SwitchResumes(k, p, at);
  }

  /**
   * A process leaves the processor in context_switch with registers `at`. However long
   * the others run, fork, exit, allocate and free in between (t to u): when it is
   * dispatched again it has the same r0 to r12, cpsr, lr and sp, and goes on behind its call.
   */
  lemma SuspendedStateSurvives(k: Sys, c: S.Event, at: Regs, t: Sys, es: seq<Event>, u: Sys, c2: S.Event, at2: Regs)
    requires SysInv(k) && Enabled(k, Call(c, at)) && R.Dispatches(k.s, c) && t == Step(k, Call(c, at))
    requires Legal(t, es) && Away(t, es, k.s.current) && u == Run(t, es)
    requires Resumes(u, c2, at2, k.s.current)
    ensures Step(u, Call(c2, at2)).regs == at.(pc := at.lr)
  {
    hide SysInv, Enabled, Step, Resumes, Suspended, R.Dispatches;
    SnapAfterSwitch(k, c, at);
    StepKeeps(k, Call(c, at));
    SnapRun(t, es, k.s.current);
    DispatchRestores(u, c2, at2, k.s.current);
  }

  lemma SnapAfterSwitch(k: Sys, c: S.Event, at: Regs)
    requires Enabled(k, Call(c, at)) && R.Dispatches(k.s, c)
    ensures k.s.current in Step(k, Call(c, at)).snap
    ensures Step(k, Call(c, at)).snap[k.s.current] == at.(pc := at.lr)
  {
    hide S.Step, S.Enabled, SwitchMemory, SwitchRegs;
  }

  lemma SnapAfterFork(k: Sys, proc: int, arg: int, cleanup: int)
    requires Enabled(k, Fork(proc, arg, cleanup))
    ensures var t := Step(k, Fork(proc, arg, cleanup));
      k.s.nextPid in t.stack && k.s.nextPid in t.snap
      && t.snap[k.s.nextPid] == Fresh(t.stack[k.s.nextPid], proc, arg, cleanup)
  {
  }

  /**
   * A first cpsr: the mode bits are those of the kernel's own mode, FIQ and asynchronous aborts
   * are masked, interrupts (bit 7) are not, the state is ARM and little-endian, no flag is set.
   */
  predicate StartsLikeKernel(cpsr: int) {
    && cpsr % 32 == 0x1A
    && (cpsr / 0x20) % 2 == 0 && (cpsr / 0x40) % 2 == 1 && (cpsr / 0x80) % 2 == 0 && (cpsr / 0x100) % 2 == 1
    && 0 <= cpsr < 0x200
  }

  /**
   * A forked process first runs with the registers of its first frame: at proc, with its
   * argument in r0, the cleanup routine in lr, sp at the top of its own stack.
   */
  lemma FirstRun(k: Sys, proc: int, arg: int, cleanup: int, t: Sys, es: seq<Event>, u: Sys, c: S.Event, at: Regs)
    requires SysInv(k) && Enabled(k, Fork(proc, arg, cleanup)) && t == Step(k, Fork(proc, arg, cleanup))
    requires Legal(t, es) && Away(t, es, k.s.nextPid) && u == Run(t, es)
    requires Resumes(u, c, at, k.s.nextPid)
    ensures k.s.nextPid in t.stack
    ensures var f := Step(u, Call(c, at)).regs;
      && f.pc == proc && f.lr == cleanup && f.sp == t.stack[k.s.nextPid] + STACK
      && f.Valid() && f.r[0] == arg && (forall i :: 1 <= i < 13 ==> f.r[i] == 0)
      && StartsLikeKernel(f.cpsr)
  {
    hide SysInv, Enabled, Step, Resumes, Suspended, R.Dispatches;
    SnapAfterFork(k, proc, arg, cleanup);
    StepKeeps(k, Fork(proc, arg, cleanup));
    SnapRun(t, es, k.s.nextPid);
    DispatchRestores(u, c, at, k.s.nextPid);
  }
}
