/**
 * The allocator of src/smemory.c as functions on its block list. The list is kept in
 * the order of the `next_block` links, so a split puts the new block first.
 */
module Heap {
  import opened Basics

  const HEADER: nat := 16

  /** `addr` is the address of the header, `size` the capacity behind it (flag bit removed). */
  datatype Block = Block(addr: nat, size: nat, free: bool) {
    function Payload(): nat { addr + HEADER }
    function End(): nat { addr + HEADER + size }
  }

  /** A stretch of memory handed to a caller. */
  datatype Region = Region(start: nat, size: nat)

  predicate RegionsApart(a: Region, b: Region) {
    a.start + a.size <= b.start || b.start + b.size <= a.start
  }

  /** The rounding of a request, in 32-bit arithmetic. */
  function Rounded(size: nat): nat {
    (size / 16 + 1) * 16 % WORD
  }

  predicate Fits(b: Block, r: nat) {
    b.free && b.size >= r
  }

  /** The index of the first block that fits, or the length of the list. */
  function FirstFit(bs: seq<Block>, r: nat): (k: nat)
    ensures k <= |bs|
    ensures k < |bs| ==> Fits(bs[k], r)
    ensures forall i :: 0 <= i < k ==> !Fits(bs[i], r)
  {
    if bs == [] || Fits(bs[0], r) then 0 else 1 + FirstFit(bs[1..], r)
  }

  /** A 32-bit register after arithmetic that came to x. */
  function Wrapped(x: int): nat {
    if 0 <= x < WORD then x else x % WORD
  }

  /** The test in front of a split; its sum is taken in 32 bits. */
  predicate Splits(b: Block, r: nat) {
    b.size >= Wrapped(r + HEADER + 16)
  }

  /** What the test is meant to say. */
  predicate HasRoom(b: Block, r: nat) {
    b.size >= r + HEADER + 16
  }

  /** Carve a block in two. The rest loses a header twice: once in `split`, once in `blockify`. */
  function Split(bs: seq<Block>, k: nat, r: nat): seq<Block>
    requires k < |bs|
  {
    [Block(Wrapped(bs[k].addr + HEADER + r), Wrapped(bs[k].size - r - HEADER - HEADER), true)]
      + bs[k := bs[k].(size := r)]
  }

  /** Flip the flag bit of one block. */
  function Toggle(bs: seq<Block>, k: nat): seq<Block>
    requires k < |bs|
  {
    bs[k := bs[k].(free := !bs[k].free)]
  }

  /** Split if there is room, then mark the block allocated. */
  function Claim(bs: seq<Block>, k: nat, r: nat): seq<Block>
    requires k < |bs|
  {
    if Splits(bs[k], r) then Toggle(Split(bs, k, r), k + 1) else Toggle(bs, k)
  }

  function AllocBlocks(bs: seq<Block>, size: nat): seq<Block> {
    var k := FirstFit(bs, Rounded(size));
    if k == |bs| then bs else Claim(bs, k, Rounded(size))
  }

  /** The pointer that salloc returns; NULL is 0. */
  function AllocPtr(bs: seq<Block>, size: nat): nat {
    var k := FirstFit(bs, Rounded(size));
    if k == |bs| then 0 else bs[k].Payload()
  }

  predicate Owns(bs: seq<Block>, ptr: nat) {
    exists i :: 0 <= i < |bs| && bs[i].Payload() == ptr
  }

  /** The position of the block whose payload starts at ptr. */
  function IndexOf(bs: seq<Block>, ptr: nat): (k: nat)
    requires Owns(bs, ptr)
    ensures k < |bs| && bs[k].Payload() == ptr
  {
    if bs[0].Payload() == ptr then 0
    else
      assert exists i :: 0 <= i < |bs[1..]| && bs[1..][i].Payload() == ptr by {
        var i :| 0 <= i < |bs| && bs[i].Payload() == ptr;
        assert bs[1..][i - 1] == bs[i];
      }
      1 + IndexOf(bs[1..], ptr)
  }

  /** sfree: NULL is ignored, otherwise the flag in front of the pointer is flipped. */
  function FreeBlocks(bs: seq<Block>, ptr: nat): seq<Block>
    requires ptr == 0 || Owns(bs, ptr)
  {
    if ptr == 0 then bs else Toggle(bs, IndexOf(bs, ptr))
  }

  /** The regions that are handed out at present. */
  ghost function Live(bs: seq<Block>): set<Region> {
    set i | 0 <= i < |bs| && !bs[i].free :: Region(bs[i].Payload(), bs[i].size)
  }

  ghost predicate IsLive(bs: seq<Block>, ptr: nat) {
    exists i :: 0 <= i < |bs| && bs[i].Payload() == ptr && !bs[i].free
  }

  function Capacity(bs: seq<Block>): nat {
    if bs == [] then 0 else bs[0].size + Capacity(bs[1..])
  }

  predicate Aligned(a: int) {
    a % 16 == 0
  }

  predicate BlockOk(b: Block, base: nat, total: nat) {
    Aligned(b.addr) && Aligned(b.size) && base <= b.addr && b.End() <= base + total
  }

  predicate Apart(a: Block, b: Block) {
    a.End() <= b.addr || b.End() <= a.addr
  }

  /** A heap may be set up here: aligned, not at NULL, and inside the 32-bit address space. */
  predicate Range(base: nat, total: nat) {
    Aligned(base) && Aligned(total) && 16 <= base && 16 <= total && base + total <= WORD
  }

  /**
   * All of that but the largest range of all, the one from 16 to the end of the address
   * space. AllocInvExactly says why.
   */
  predicate Arena(base: nat, total: nat) {
    Range(base, total) && total < TOO_LARGE
  }

  const TOO_LARGE: nat := 0xFFFF_FFF0

  /**
   * The shape of the heap in every reachable state. Each block but the first has cost
   * 32 bytes: its header and the 16 bytes that `split` subtracts a second time.
   */
  ghost predicate HeapInv(bs: seq<Block>, base: nat, total: nat) {
    && (forall i :: 0 <= i < |bs| ==> BlockOk(bs[i], base, total))
    && (forall i, j :: 0 <= i < j < |bs| ==> Apart(bs[i], bs[j]))
    && Capacity(bs) + 32 * |bs| == total + 16
  }

  function InitBlocks(base: nat, total: nat): seq<Block>
    requires total >= HEADER
  {
    [Block(base, total - HEADER, true)]
  }

  lemma InitInv(base: nat, total: nat)
    requires Arena(base, total)
    ensures HeapInv(InitBlocks(base, total), base, total)
    ensures Live(InitBlocks(base, total)) == {}
  {
  }

  // ----- arithmetic of the request -----

  /** salloc asks for strictly more than the caller did, except where the sum wraps to 0. */
  lemma RoundedExceeds(size: nat)
    requires size < WORD
    ensures Aligned(Rounded(size))
    ensures size < Rounded(size) <= size + 16 <==> size < 0xFFFF_FFF0
    ensures size >= 0xFFFF_FFF0 ==> Rounded(size) == 0
  {
  }

  lemma RoundedIsAligned(size: nat)
    ensures Aligned(Rounded(size))
  {
  }

  // ----- the sum of the capacities -----

  lemma {:induction false} CapacityUpdate(bs: seq<Block>, k: nat, b: Block)
    requires k < |bs|
    ensures Capacity(bs[k := b]) == Capacity(bs) - bs[k].size + b.size
  {
    if k == 0 {
      assert bs[k := b][1..] == bs[1..];
    } else {
      assert bs[k := b][1..] == bs[1..][k - 1 := b];
      CapacityUpdate(bs[1..], k - 1, b);
    }
  }

  // ----- the invariant is kept -----

  lemma ToggleInv(bs: seq<Block>, k: nat, base: nat, total: nat)
    requires HeapInv(bs, base, total) && k < |bs|
    ensures HeapInv(Toggle(bs, k), base, total)
  {
    hide Aligned;
    CapacityUpdate(bs, k, bs[k].(free := !bs[k].free));
  }

  lemma SplitInv(bs: seq<Block>, k: nat, r: nat, base: nat, total: nat)
    requires HeapInv(bs, base, total) && k < |bs| && base + total <= WORD
    requires Aligned(r) && HasRoom(bs[k], r)
    ensures Split(bs, k, r)[0].addr == bs[k].addr + HEADER + r
    ensures HeapInv(Split(bs, k, r), base, total)
  {
    var rest := Block(bs[k].addr + HEADER + r, bs[k].size - r - HEADER - HEADER, true);
    var head := bs[k].(size := r);
    var s := Split(bs, k, r);
    SplitApart(bs, k, r);
    CapacityUpdate(bs, k, head);
    assert BlockOk(bs[k], base, total);
    PartsOk(bs[k], r, base, total);
    hide Apart, BlockOk, Aligned;
    assert s[0] == rest && s[1..] == bs[k := head];
    assert Capacity(s) == rest.size + Capacity(bs[k := head]);
    assert forall i :: 0 <= i < |s| ==> s[i] == if i == 0 then rest else if i - 1 == k then head else bs[i - 1];
  }

  lemma PartsOk(b: Block, r: nat, base: nat, total: nat)
    requires BlockOk(b, base, total) && Aligned(r) && HasRoom(b, r)
    ensures BlockOk(b.(size := r), base, total)
    ensures BlockOk(Block(b.addr + HEADER + r, b.size - r - HEADER - HEADER, true), base, total)
  {
  }

  lemma SplitApart(bs: seq<Block>, k: nat, r: nat)
    requires k < |bs| && HasRoom(bs[k], r) && bs[k].End() <= WORD
    requires forall i, j :: 0 <= i < j < |bs| ==> Apart(bs[i], bs[j])
    ensures forall i, j :: 0 <= i < j < |Split(bs, k, r)| ==> Apart(Split(bs, k, r)[i], Split(bs, k, r)[j])
  {
  }

  /** Inside an arena the 32-bit sum does not wrap, so the test says what it is meant to. */
  lemma SplitTestIsRight(b: Block, r: nat, base: nat, total: nat)
    requires Arena(base, total) && BlockOk(b, base, total) && Aligned(r) && Fits(b, r)
    ensures Splits(b, r) <==> HasRoom(b, r)
  {
    AlignedBelow(r, TOO_LARGE - HEADER);
  }

  /** Multiples of 16 below a multiple of 16 are at least 16 below it. */
  lemma AlignedBelow(r: nat, m: nat)
    requires Aligned(r) && Aligned(m) && r < m
    ensures r + 16 <= m
  {
  }

  lemma ClaimInv(bs: seq<Block>, k: nat, r: nat, base: nat, total: nat)
    requires Arena(base, total) && HeapInv(bs, base, total) && k < |bs| && Aligned(r) && Fits(bs[k], r)
    ensures HeapInv(Claim(bs, k, r), base, total)
  {
    if Splits(bs[k], r) {
      SplitTestIsRight(bs[k], r, base, total);
      SplitInv(bs, k, r, base, total);
      ToggleInv(Split(bs, k, r), k + 1, base, total);
    } else {
      ToggleInv(bs, k, base, total);
    }
  }

  lemma AllocInv(bs: seq<Block>, size: nat, base: nat, total: nat)
    requires Arena(base, total) && HeapInv(bs, base, total)
    ensures HeapInv(AllocBlocks(bs, size), base, total)
  {
    hide HeapInv, Claim, Arena;
    RoundedIsAligned(size);
    hide Rounded;
    var k := FirstFit(bs, Rounded(size));
    if k < |bs| {
      ClaimInv(bs, k, Rounded(size), base, total);
    }
  }

  /**
   * On the one range that is no arena the split test wraps: the only block fits a request
   * exactly, 32 more than its size comes to 0, and the split makes a block of 4 GB.
   */
  lemma SplitTestWraps(bs: seq<Block>)
    requires bs == InitBlocks(16, TOO_LARGE)
    ensures HeapInv(bs, 16, TOO_LARGE) && Fits(bs[0], Rounded(0xFFFF_FFD0)) && !HasRoom(bs[0], Rounded(0xFFFF_FFD0))
    ensures AllocBlocks(bs, 0xFFFF_FFD0)[0] == Block(0, 0xFFFF_FFE0, true)
    ensures !HeapInv(AllocBlocks(bs, 0xFFFF_FFD0), 16, TOO_LARGE)
  {
    assert Rounded(0xFFFF_FFD0) == 0xFFFF_FFE0;
    assert !BlockOk(AllocBlocks(bs, 0xFFFF_FFD0)[0], 16, TOO_LARGE);
  }

  /** salloc keeps the invariant for every list and request if and only if the range is an arena. */
  lemma AllocInvExactly(base: nat, total: nat)
    requires Range(base, total)
    ensures (forall bs, size: nat :: HeapInv(bs, base, total) ==> HeapInv(AllocBlocks(bs, size), base, total))
      <==> Arena(base, total)
  {
    hide HeapInv, AllocBlocks, Aligned, InitBlocks;
    if Arena(base, total) {
      forall bs, size: nat | HeapInv(bs, base, total)
        ensures HeapInv(AllocBlocks(bs, size), base, total)
      {
        AllocInv(bs, size, base, total);
      }
    } else {
      LargestRange(base, total);
      SplitTestWraps(InitBlocks(16, TOO_LARGE));
    }
  }

  lemma LargestRange(base: nat, total: nat)
    requires Range(base, total) && total >= TOO_LARGE
    ensures base == 16 && total == TOO_LARGE
  {
  }

  lemma FreeInv(bs: seq<Block>, ptr: nat, base: nat, total: nat)
    requires HeapInv(bs, base, total) && (ptr == 0 || Owns(bs, ptr))
    ensures HeapInv(FreeBlocks(bs, ptr), base, total)
  {
    if ptr != 0 { ToggleInv(bs, IndexOf(bs, ptr), base, total); }
  }

  /** Every scan of the list is short: there are at most (total + 16) / 32 blocks. */
  lemma BlockCount(bs: seq<Block>, base: nat, total: nat)
    requires HeapInv(bs, base, total)
    ensures |bs| <= (total + 16) / 32
  {
  }

  lemma BlockFacts(bs: seq<Block>, k: nat, base: nat, total: nat)
    requires HeapInv(bs, base, total) && k < |bs|
    ensures BlockOk(bs[k], base, total) && bs[k].size % 2 == 0 && 4 * (bs[k].addr / 4) == bs[k].addr
  {
    hide Aligned;
    assert BlockOk(bs[k], base, total);
    AlignedDivides(bs[k].size);
    AlignedDivides(bs[k].addr);
  }

  lemma AlignedDivides(a: int)
    requires Aligned(a)
    ensures a % 2 == 0 && 4 * (a / 4) == a
  {
  }

  /** Stepping over a header keeps the alignment. */
  lemma AlignedPayload(b: Block)
    requires Aligned(b.addr)
    ensures Aligned(b.Payload())
  {
  }

  /** The list is acyclic: two positions never hold the same header. */
  lemma HeadersDiffer(bs: seq<Block>, i: nat, j: nat, base: nat, total: nat)
    requires HeapInv(bs, base, total) && i < |bs| && j < |bs| && i != j
    ensures Apart(bs[i], bs[j]) && bs[i].addr != bs[j].addr
  {
  }

  /** A payload pointer belongs to one block. */
  lemma OnlyIndex(bs: seq<Block>, k: nat, base: nat, total: nat)
    requires HeapInv(bs, base, total) && k < |bs|
    ensures forall i :: 0 <= i < |bs| && bs[i].Payload() == bs[k].Payload() ==> i == k
  {
  }

  // ----- refinement of a set of live regions -----

  /** Claiming block k allocates it, leaves all others as they were, and may add a free one in front. */
  lemma ClaimShape(bs: seq<Block>, k: nat, r: nat) returns (d: nat)
    requires k < |bs| && Fits(bs[k], r)
    ensures |Claim(bs, k, r)| == |bs| + d && (d == 1 ==> Claim(bs, k, r)[0].free) && d <= 1
    ensures Claim(bs, k, r)[k + d].addr == bs[k].addr && !Claim(bs, k, r)[k + d].free
    ensures r <= Claim(bs, k, r)[k + d].size <= bs[k].size
    ensures forall i :: 0 <= i < |bs| && i != k ==> Claim(bs, k, r)[i + d] == bs[i]
    ensures forall i :: d <= i < |bs| + d && i != k + d ==> Claim(bs, k, r)[i] == bs[i - d]
  {
    var t := Claim(bs, k, r);
    if Splits(bs[k], r) {
      d := 1;
      var rest := Split(bs, k, r)[0];
      assert t == [rest] + bs[k := Block(bs[k].addr, r, false)];
    } else {
      d := 0;
      assert t == bs[k := bs[k].(free := false)];
    }
  }

  /** The effect of claiming block k on the live set. */
  lemma ClaimLive(bs: seq<Block>, k: nat, r: nat)
    requires k < |bs| && Fits(bs[k], r)
    ensures exists cap: nat :: cap >= r && Live(Claim(bs, k, r)) == Live(bs) + {Region(bs[k].Payload(), cap)}
  {
    hide Claim;
    var s := Claim(bs, k, r);
    var d := ClaimShape(bs, k, r);
    var claimed := Region(bs[k].Payload(), s[k + d].size);
    forall x
      ensures x in Live(s) <==> x in Live(bs) + {claimed}
    {
      if x in Live(s) {
        var i :| 0 <= i < |s| && !s[i].free && x == Region(s[i].Payload(), s[i].size);
        if i != k + d { assert s[i] == bs[i - d]; }
      }
      if x in Live(bs) {
        var i :| 0 <= i < |bs| && !bs[i].free && x == Region(bs[i].Payload(), bs[i].size);
        assert s[i + d] == bs[i];
      }
      if x == claimed { assert !s[k + d].free; }
    }
    assert Live(s) == Live(bs) + {claimed};
  }

  /** Block k, being free, lies apart from every live region. */
  lemma FreeBlockApart(bs: seq<Block>, k: nat, x: Region, base: nat, total: nat)
    requires HeapInv(bs, base, total) && k < |bs| && bs[k].free && x in Live(bs)
    ensures RegionsApart(Region(bs[k].Payload(), bs[k].size), x)
    ensures bs[k].Payload() != x.start
  {
  }

  /**
   * The contract of salloc against the set of live regions: NULL exactly when no free
   * block fits, and then nothing changes; otherwise one new aligned region inside the
   * heap, apart from all live ones, joins the set.
   */
  lemma AllocRefines(bs: seq<Block>, size: nat, base: nat, total: nat)
    requires Arena(base, total) && HeapInv(bs, base, total) && size < WORD
    ensures AllocPtr(bs, size) == 0 <==> forall i :: 0 <= i < |bs| ==> !Fits(bs[i], Rounded(size))
    ensures AllocPtr(bs, size) == 0 ==> AllocBlocks(bs, size) == bs
    ensures AllocPtr(bs, size) != 0 ==> exists cap: nat ::
        && Live(AllocBlocks(bs, size)) == Live(bs) + {Region(AllocPtr(bs, size), cap)}
        && (cap >= size <==> size < 0xFFFF_FFF0)
        && Aligned(AllocPtr(bs, size))
        && base < AllocPtr(bs, size) && AllocPtr(bs, size) + cap <= base + total
        && (forall x :: x in Live(bs) ==> RegionsApart(Region(AllocPtr(bs, size), cap), x) && AllocPtr(bs, size) != x.start)
  {
    hide Apart, Live, Claim, Capacity, Rounded, Aligned;
    var r := Rounded(size);
    var k := FirstFit(bs, r);
    RoundedExceeds(size);
    if k < |bs| {
      assert BlockOk(bs[k], base, total);
      AlignedPayload(bs[k]);
      ClaimLive(bs, k, r);
      var cap: nat :| cap >= r && Live(Claim(bs, k, r)) == Live(bs) + {Region(bs[k].Payload(), cap)};
      assert Region(bs[k].Payload(), cap) in Live(Claim(bs, k, r));
      ClaimInv(bs, k, r, base, total);
      ClaimWithin(bs, k, r, cap, base, total);
      forall x | x in Live(bs)
        ensures RegionsApart(Region(bs[k].Payload(), cap), x) && bs[k].Payload() != x.start
      {
        FreeBlockApart(bs, k, x, base, total);
      }
    }
  }

  /** The claimed region is no larger than the block it was cut from. */
  lemma ClaimWithin(bs: seq<Block>, k: nat, r: nat, cap: nat, base: nat, total: nat)
    requires HeapInv(bs, base, total) && k < |bs| && Fits(bs[k], r) && Aligned(r)
    requires Region(bs[k].Payload(), cap) in Live(Claim(bs, k, r))
    ensures cap <= bs[k].size
  {
  }

  /** Freeing a live pointer marks its block and leaves the rest of the list alone. */
  lemma FreeShape(bs: seq<Block>, ptr: nat, base: nat, total: nat) returns (k: nat)
    requires HeapInv(bs, base, total) && IsLive(bs, ptr) && ptr != 0
    ensures k < |bs| && bs[k].Payload() == ptr && !bs[k].free
    ensures Owns(bs, ptr) && k == IndexOf(bs, ptr) && FreeBlocks(bs, ptr) == bs[k := bs[k].(free := true)]
    ensures forall i :: 0 <= i < |bs| && bs[i].Payload() == ptr ==> i == k
  {
    hide Aligned;
    k := IndexOf(bs, ptr);
    OnlyIndex(bs, k, base, total);
  }

  /** Freeing a live pointer removes exactly its region. */
  lemma FreeRefines(bs: seq<Block>, ptr: nat, base: nat, total: nat)
    requires HeapInv(bs, base, total) && IsLive(bs, ptr) && ptr != 0
    ensures Owns(bs, ptr)
    ensures exists x :: x in Live(bs) && x.start == ptr && Live(FreeBlocks(bs, ptr)) == Live(bs) - {x}
    ensures !IsLive(FreeBlocks(bs, ptr), ptr)
  {
    hide HeapInv, IndexOf, FreeBlocks;
    var k := FreeShape(bs, ptr, base, total);
    var s := bs[k := bs[k].(free := true)];
    var x := Region(ptr, bs[k].size);
    assert x in Live(bs);
    forall y
      ensures y in Live(s) <==> y in Live(bs) - {x}
    {
      if y in Live(s) {
        var i :| 0 <= i < |s| && !s[i].free && y == Region(s[i].Payload(), s[i].size);
        assert i != k && s[i] == bs[i];
      }
      if y in Live(bs) && y != x {
        var i :| 0 <= i < |bs| && !bs[i].free && y == Region(bs[i].Payload(), bs[i].size);
        assert s[i] == bs[i];
      }
    }
    assert Live(s) == Live(bs) - {x};
  }

  /** Blocks never disappear: they are split and marked, but not merged. */
  lemma OwnsAfterAlloc(bs: seq<Block>, size: nat, ptr: nat)
    requires Owns(bs, ptr)
    ensures Owns(AllocBlocks(bs, size), ptr)
  {
    var k := FirstFit(bs, Rounded(size));
    hide Claim, Rounded;
    var i :| 0 <= i < |bs| && bs[i].Payload() == ptr;
    if k < |bs| {
      var d := ClaimShape(bs, k, Rounded(size));
      assert Claim(bs, k, Rounded(size))[i + d].Payload() == ptr;
    }
  }

  lemma OwnsAllocated(bs: seq<Block>, size: nat)
    requires AllocPtr(bs, size) != 0
    ensures Owns(AllocBlocks(bs, size), AllocPtr(bs, size))
  {
    var k := FirstFit(bs, Rounded(size));
    OwnsAfterAlloc(bs, size, bs[k].Payload());
  }

  /**
   * Where the block returned by salloc lies: inside one block that was free, with room
   * for the rounded request.
   */
  lemma AllocatedBlock(bs: seq<Block>, size: nat) returns (i: nat, k: nat)
    requires AllocPtr(bs, size) != 0
    ensures i < |bs| && bs[i].free
    ensures k < |AllocBlocks(bs, size)|
    ensures AllocBlocks(bs, size)[k].Payload() == AllocPtr(bs, size)
    ensures AllocBlocks(bs, size)[k].addr == bs[i].addr
    ensures Rounded(size) <= AllocBlocks(bs, size)[k].size <= bs[i].size
  {
    hide Claim, Rounded;
    i := FirstFit(bs, Rounded(size));
    var d := ClaimShape(bs, i, Rounded(size));
    k := i + d;
  }

  /** The list starts with a free block of at least n bytes. */
  predicate Roomy(bs: seq<Block>, n: nat) {
    |bs| > 0 && bs[0].free && n <= bs[0].size && bs[0].End() <= WORD
  }

  /** A roomy list serves a request from its first block and stays as roomy as is left. */
  lemma RoomyServes(bs: seq<Block>, size: nat, n: nat)
    requires Roomy(bs, n) && Rounded(size) + 32 <= n
    ensures AllocPtr(bs, size) != 0
    ensures Roomy(AllocBlocks(bs, size), n - Rounded(size) - 32)
  {
  }

  /** Giving a block back right after getting it leaves the live regions as they were. */
  lemma AllocThenFree(bs: seq<Block>, size: nat, base: nat, total: nat)
    requires Arena(base, total) && HeapInv(bs, base, total) && size < WORD && AllocPtr(bs, size) != 0
    ensures Owns(AllocBlocks(bs, size), AllocPtr(bs, size))
    ensures IsLive(AllocBlocks(bs, size), AllocPtr(bs, size))
    ensures Live(FreeBlocks(AllocBlocks(bs, size), AllocPtr(bs, size))) == Live(bs)
  {
    hide HeapInv, Live, AllocBlocks, AllocPtr, FreeBlocks, Arena, RegionsApart, Aligned;
    var ptr := AllocPtr(bs, size);
    var t := AllocBlocks(bs, size);
    AllocRefines(bs, size, base, total);
    var cap: nat :| Live(t) == Live(bs) + {Region(ptr, cap)} && forall x :: x in Live(bs) ==> ptr != x.start;
    AllocInv(bs, size, base, total);
    LiveMember(t, Region(ptr, cap));
    FreeRefines(t, ptr, base, total);
    var x :| x in Live(t) && x.start == ptr && Live(FreeBlocks(t, ptr)) == Live(t) - {x};
    assert x == Region(ptr, cap);
    assert Live(t) - {x} == Live(bs);
  }

  /** The list after a block has been taken and given back at once, or was not to be had. */
  function Borrowed(bs: seq<Block>, size: nat): seq<Block> {
    var ptr := AllocPtr(bs, size);
    if ptr == 0 then bs
    else
      OwnsAllocated(bs, size);
      FreeBlocks(AllocBlocks(bs, size), ptr)
  }

  /** Borrowing keeps the invariant and the live regions, and costs a roomy list one split. */
  lemma BorrowKeeps(bs: seq<Block>, size: nat, n: nat, base: nat, total: nat)
    requires Arena(base, total) && HeapInv(bs, base, total) && size < WORD
    requires Roomy(bs, Rounded(size) + 32 + n)
    ensures HeapInv(Borrowed(bs, size), base, total) && Live(Borrowed(bs, size)) == Live(bs)
    ensures Roomy(Borrowed(bs, size), n)
  {
    hide HeapInv, Live, Rounded, Aligned;
    RoomyServes(bs, size, Rounded(size) + 32 + n);
    AllocInv(bs, size, base, total);
    AllocThenFree(bs, size, base, total);
    FreeInv(AllocBlocks(bs, size), AllocPtr(bs, size), base, total);
    assert FirstFit(bs, Rounded(size)) == 0;
    assert AllocBlocks(bs, size)[0].addr == bs[0].addr + HEADER + Rounded(size);
  }

  lemma LiveMember(bs: seq<Block>, x: Region)
    requires x in Live(bs)
    ensures IsLive(bs, x.start)
  {
  }

  /**
   * sfree of any pointer that a block owns releases the block if and only if it was live;
   * otherwise the block is handed out, to nobody.
   */
  lemma FreeReleasesExactly(bs: seq<Block>, ptr: nat, base: nat, total: nat)
    requires HeapInv(bs, base, total) && Owns(bs, ptr) && ptr != 0
    ensures !IsLive(FreeBlocks(bs, ptr), ptr) <==> IsLive(bs, ptr)
    ensures exists x: Region ::
      && x.start == ptr
      && Live(FreeBlocks(bs, ptr)) == (if IsLive(bs, ptr) then Live(bs) - {x} else Live(bs) + {x})
  {
    hide HeapInv;
    var k := IndexOf(bs, ptr);
    OnlyIndex(bs, k, base, total);
    if IsLive(bs, ptr) {
      FreeRefines(bs, ptr, base, total);
    } else {
      var s := bs[k := bs[k].(free := false)];
      var x := Region(ptr, bs[k].size);
      assert bs[k].free && FreeBlocks(bs, ptr) == s && !s[k].free;
      forall y
        ensures y in Live(s) <==> y in Live(bs) + {x}
      {
        if y in Live(s) {
          var i :| 0 <= i < |s| && !s[i].free && y == Region(s[i].Payload(), s[i].size);
          if i != k { assert s[i] == bs[i]; }
        }
        if y in Live(bs) {
          var i :| 0 <= i < |bs| && !bs[i].free && y == Region(bs[i].Payload(), bs[i].size);
          assert s[i] == bs[i];
        }
      }
      assert Live(s) == Live(bs) + {x};
    }
  }

  /** A second sfree of the same pointer undoes the first. */
  lemma FreeingTwiceRestores(bs: seq<Block>, ptr: nat)
    requires Owns(bs, ptr) && ptr != 0
    ensures Owns(FreeBlocks(bs, ptr), ptr)
    ensures FreeBlocks(FreeBlocks(bs, ptr), ptr) == bs
  {
    var k := IndexOf(bs, ptr);
    var s := FreeBlocks(bs, ptr);
    assert s[k].Payload() == ptr;
    SamePositions(bs, s, ptr);
  }

  lemma {:induction false} SamePositions(bs: seq<Block>, cs: seq<Block>, ptr: nat)
    requires |bs| == |cs| && Owns(bs, ptr) && Owns(cs, ptr)
    requires forall i :: 0 <= i < |bs| ==> bs[i].addr == cs[i].addr
    ensures IndexOf(bs, ptr) == IndexOf(cs, ptr)
  {
    if bs[0].Payload() != ptr {
      var i :| 0 <= i < |bs| && bs[i].Payload() == ptr;
      assert bs[1..][i - 1] == bs[i] && cs[1..][i - 1] == cs[i];
      SamePositions(bs[1..], cs[1..], ptr);
    }
  }

  /** A request whose rounded size fits the block just freed cannot fail. */
  lemma FreedBlockIsReusable(bs: seq<Block>, ptr: nat, size: nat, base: nat, total: nat)
    requires HeapInv(bs, base, total) && IsLive(bs, ptr) && 0 < ptr && Owns(bs, ptr)
    requires Rounded(size) <= bs[IndexOf(bs, ptr)].size
    ensures AllocPtr(FreeBlocks(bs, ptr), size) != 0
  {
  }

  // ----- runs -----

  datatype Op = Salloc(size: nat) | Sfree(ptr: nat)

  /** A caller frees only NULL or what it holds. */
  ghost predicate OpOk(bs: seq<Block>, op: Op) {
    match op
    case Salloc(size) => size < WORD
    case Sfree(ptr) => ptr == 0 || IsLive(bs, ptr)
  }

  ghost function Apply(bs: seq<Block>, op: Op): seq<Block>
    requires OpOk(bs, op)
  {
    match op
    case Salloc(size) => AllocBlocks(bs, size)
    case Sfree(ptr) => assert ptr == 0 || Owns(bs, ptr); FreeBlocks(bs, ptr)
  }

  ghost predicate Legal(bs: seq<Block>, ops: seq<Op>)
    decreases |ops|
  {
    ops == [] || (OpOk(bs, ops[0]) && Legal(Apply(bs, ops[0]), ops[1..]))
  }

  ghost function Run(bs: seq<Block>, ops: seq<Op>): seq<Block>
    requires Legal(bs, ops)
    decreases |ops|
  {
    if ops == [] then bs else Run(Apply(bs, ops[0]), ops[1..])
  }

  lemma {:induction false} RunInv(bs: seq<Block>, ops: seq<Op>, base: nat, total: nat)
    requires Arena(base, total) && HeapInv(bs, base, total) && Legal(bs, ops)
    ensures HeapInv(Run(bs, ops), base, total)
    decreases |ops|
  {
    if ops != [] {
      match ops[0] {
        case Salloc(size) => AllocInv(bs, size, base, total);
        case Sfree(ptr) => FreeInv(bs, ptr, base, total);
      }
      RunInv(Apply(bs, ops[0]), ops[1..], base, total);
    }
  }

  /** From a fresh heap, any run of calls keeps the accounting and bounds every scan. */
  lemma EveryRunFromInit(base: nat, total: nat, ops: seq<Op>)
    requires Arena(base, total) && Legal(InitBlocks(base, total), ops)
    ensures HeapInv(Run(InitBlocks(base, total), ops), base, total)
    ensures |Run(InitBlocks(base, total), ops)| <= (total + 16) / 32
    ensures forall i, j :: 0 <= i < j < |Run(InitBlocks(base, total), ops)| ==>
      Run(InitBlocks(base, total), ops)[i].addr != Run(InitBlocks(base, total), ops)[j].addr
    ensures forall x, y :: x in Live(Run(InitBlocks(base, total), ops)) && y in Live(Run(InitBlocks(base, total), ops)) && x != y
                       ==> RegionsApart(x, y)
  {
    hide Live, RegionsApart;
    var bs := Run(InitBlocks(base, total), ops);
    InitInv(base, total);
    RunInv(InitBlocks(base, total), ops, base, total);
    BlockCount(bs, base, total);
    LiveRegionsApart(bs, base, total);
  }

  lemma LiveRegionsApart(bs: seq<Block>, base: nat, total: nat)
    requires HeapInv(bs, base, total)
    ensures forall x, y :: x in Live(bs) && y in Live(bs) && x != y ==> RegionsApart(x, y)
  {
  }
}
