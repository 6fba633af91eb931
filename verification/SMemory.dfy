/** src/smemory.c on a word-addressed memory, proved against the functions of module Heap. */
module SMemory {
  import opened Basics
  import opened Heap
  import opened Interrupts

  /** The address of the k-th block of the list, NULL behind the last. */
  function AddrAt(bs: seq<Block>, k: nat): nat {
    if k < |bs| then bs[k].addr else 0
  }

  /** The `size` word of a header: the capacity with the allocated flag in bit 0. */
  function SizeWord(b: Block): nat {
    if b.free then b.size else b.size + 1
  }

  /** The two header words of block i hold its size word and the link to the next block. */
  ghost predicate HeaderAt(mem: seq<int>, bs: seq<Block>, i: nat)
    requires i < |bs|
  {
    && bs[i].addr / 4 + 1 < |mem|
    && mem[bs[i].addr / 4] == SizeWord(bs[i])
    && mem[bs[i].addr / 4 + 1] == AddrAt(bs, i + 1)
  }

  /** The headers in memory spell out the list. Word w holds the bytes 4w to 4w + 3. */
  ghost predicate Spells(mem: seq<int>, head: nat, bs: seq<Block>) {
    && head == AddrAt(bs, 0)
    && forall i :: 0 <= i < |bs| ==> HeaderAt(mem, bs, i)
  }

  lemma SpelledAt(mem: seq<int>, head: nat, bs: seq<Block>, i: nat)
    requires Spells(mem, head, bs) && i < |bs|
    ensures HeaderAt(mem, bs, i)
  {
  }

  lemma SpelledHead(mem: seq<int>, head: nat, bs: seq<Block>)
    requires Spells(mem, head, bs)
    ensures head == AddrAt(bs, 0)
  {
  }

  /** Word w belongs to a free block, header included. */
  ghost predicate InFreeBlock(bs: seq<Block>, w: int) {
    exists i :: 0 <= i < |bs| && bs[i].free && bs[i].addr <= 4 * w < bs[i].End()
  }

  /** No word of a live block, header or payload, belongs to a free one. */
  lemma LiveWordsAreNotFree(bs: seq<Block>, i: nat, w: int, base: nat, total: nat)
    requires HeapInv(bs, base, total) && i < |bs| && !bs[i].free && bs[i].addr <= 4 * w < bs[i].End()
    ensures !InFreeBlock(bs, w)
  {
    hide HeapInv, Aligned;
    forall j | 0 <= j < |bs| && bs[j].free
      ensures !(bs[j].addr <= 4 * w < bs[j].End())
    {
      HeadersDiffer(bs, i, j, base, total);
    }
  }

  /** The two header words of different blocks are different words. */
  ghost predicate HeaderWordsApart(bs: seq<Block>) {
    forall i, j :: 0 <= i < |bs| && 0 <= j < |bs| && i != j ==>
      bs[i].addr / 4 != bs[j].addr / 4 && bs[i].addr / 4 != bs[j].addr / 4 + 1
  }

  lemma HeaderWords(bs: seq<Block>, base: nat, total: nat)
    requires HeapInv(bs, base, total)
    ensures HeaderWordsApart(bs)
  {
  }

  /** Flipping bit 0 of a size word is marking the block. */
  lemma ToggleSpells(mem: seq<int>, head: nat, bs: seq<Block>, k: nat)
    requires HeaderWordsApart(bs) && Spells(mem, head, bs) && k < |bs| && HeaderAt(mem, bs, k)
    ensures Spells(mem[bs[k].addr / 4 := SizeWord(Toggle(bs, k)[k])], head, Toggle(bs, k))
  {
    var cs := Toggle(bs, k);
    var after := mem[bs[k].addr / 4 := SizeWord(cs[k])];
    forall i | 0 <= i < |cs|
      ensures HeaderAt(after, cs, i)
    {
      assert HeaderAt(mem, bs, i);
      assert AddrAt(cs, i + 1) == AddrAt(bs, i + 1);
    }
  }

  /** The memory after `split` has written its three words. */
  function SplitMemory(mem: seq<int>, bs: seq<Block>, k: nat, r: nat): seq<int>
    requires k < |bs| && HasRoom(bs[k], r) && (bs[k].addr + HEADER + r) / 4 + 1 < |mem|
  {
    var newPtr := bs[k].addr + HEADER + r;
    mem[newPtr / 4 + 1 := AddrAt(bs, 0)][newPtr / 4 := bs[k].size - r - HEADER - HEADER][bs[k].addr / 4 := r]
  }

  lemma SplitSpells(mem: seq<int>, bs: seq<Block>, k: nat, r: nat)
    requires Spells(mem, AddrAt(bs, 0), bs) && k < |bs| && bs[k].free && HasRoom(bs[k], r) && bs[k].End() <= WORD
    requires HeaderWordsApart(bs) && HeaderWordsApart(Split(bs, k, r))
    requires (bs[k].addr + HEADER + r) / 4 + 1 < |mem|
    ensures Spells(SplitMemory(mem, bs, k, r), bs[k].addr + HEADER + r, Split(bs, k, r))
  {
    var cs := Split(bs, k, r);
    var after := SplitMemory(mem, bs, k, r);
    assert HeaderAt(mem, bs, k);
    forall i | 0 <= i < |cs|
      ensures HeaderAt(after, cs, i)
    {
      assert AddrAt(cs, i + 1) == AddrAt(bs, i);
      if i > 0 {
        assert HeaderAt(mem, bs, i - 1);
        assert AddrAt(bs, i) == AddrAt(cs, i + 1);
        assert cs[i].addr == bs[i - 1].addr && cs[0].addr / 4 != cs[i].addr / 4;
        assert i - 1 != k ==> bs[i - 1].addr / 4 != bs[k].addr / 4;
      }
    }
  }

  /** Writing the payload of a block leaves all headers as they are. */
  lemma PayloadWritesKeepSpelling(mem: seq<int>, after: seq<int>, head: nat, bs: seq<Block>, k: nat, base: nat, total: nat)
    requires HeapInv(bs, base, total) && Spells(mem, head, bs) && k < |bs| && |after| == |mem|
    requires forall w :: 0 <= w < |mem| && !(bs[k].Payload() <= 4 * w < bs[k].End()) ==> after[w] == mem[w]
    ensures Spells(after, head, bs)
  {
    hide HeapInv, Aligned;
    forall i | 0 <= i < |bs|
      ensures HeaderAt(after, bs, i)
    {
      SpelledAt(mem, head, bs, i);
      BlockFacts(bs, i, base, total);
      if i != k { HeadersDiffer(bs, i, k, base, total); }
    }
  }

  class Memory {
    const mem: array<int>
    const cpu: Cpu
    const base: nat
    const total: nat
    var blockListHead: nat
    ghost var blocks: seq<Block>

    ghost predicate Valid()
      reads this, mem
    {
      && Arena(base, total)
      && base + total <= 4 * mem.Length
      && HeapInv(blocks, base, total)
      && Spells(mem[..], blockListHead, blocks)
    }

    /** init_smemory: the whole range becomes one free block. */
    constructor (mem: array<int>, cpu: Cpu, base: nat, total: nat)
      requires Arena(base, total) && base + total <= 4 * mem.Length
      modifies mem
      ensures Valid() && this.mem == mem && this.cpu == cpu && this.base == base && this.total == total
      ensures blocks == InitBlocks(base, total)
      ensures forall w :: 0 <= w < mem.Length && !(base <= 4 * w < base + 8) ==> mem[w] == old(mem[w])
    {
      this.mem := mem;
      this.cpu := cpu;
      this.base := base;
      this.total := total;
      blockListHead := base;
      blocks := InitBlocks(base, total);
      new;
      hide Aligned, HeapInv;
      InitInv(base, total);
      BlockFacts(blocks, 0, base, total);
      Blockify(base, total);
    }

    /** Write a header with no successor. */
    method Blockify(head: nat, givenSize: nat)
      requires head / 4 + 1 < mem.Length && givenSize >= HEADER
      modifies mem
      ensures mem[..] == old(mem[..])[head / 4 + 1 := 0][head / 4 := givenSize - HEADER]
    {
      mem[head / 4 + 1] := 0;
      mem[head / 4] := givenSize - HEADER;
    }

    method InsertNewBlock(block: nat)
      requires block / 4 + 1 < mem.Length
      modifies this`blockListHead, mem
      ensures mem[..] == old(mem[..])[block / 4 + 1 := old(blockListHead)]
      ensures blockListHead == block
    {
      mem[block / 4 + 1] := blockListHead;
      blockListHead := block;
    }

    method SplitBlock(block: nat, reqSize: nat, ghost k: nat)
      requires Valid() && k < |blocks| && blocks[k].addr == block
      requires blocks[k].free && Aligned(reqSize) && HasRoom(blocks[k], reqSize)
      modifies this`blockListHead, this`blocks, mem
      ensures Valid()
      ensures blocks == Split(old(blocks), k, reqSize)
      ensures forall w :: 0 <= w < mem.Length && !(block <= 4 * w < old(blocks)[k].End()) ==> mem[w] == old(mem[w])
    {
      hide HeapInv, Spells, HeaderWordsApart, Aligned;
      ghost var was := mem[..];
      ghost var bs := blocks;
      assert blockListHead == AddrAt(bs, 0) by { SpelledHead(was, blockListHead, bs); }
      BlockFacts(bs, k, base, total);
      SpelledAt(was, blockListHead, bs, k);
      SplitInv(bs, k, reqSize, base, total);
      BlockFacts(Split(bs, k, reqSize), 0, base, total);
      HeaderWords(bs, base, total);
      HeaderWords(Split(bs, k, reqSize), base, total);
      SplitSpells(was, bs, k, reqSize);
      var newPtr := block + HEADER + reqSize;
      var newAvailSize := mem[block / 4] - reqSize - HEADER;
      Blockify(newPtr, newAvailSize);
      InsertNewBlock(newPtr);
      mem[block / 4] := reqSize;
      blocks := Split(blocks, k, reqSize);
      assert mem[..] == SplitMemory(was, bs, k, reqSize);
      forall w | 0 <= w < mem.Length && !(block <= 4 * w < bs[k].End())
        ensures mem[w] == was[w]
      {
        assert mem[w] == mem[..][w];
      }
    }

    method IsFree(block: nat) returns (free: bool)
      requires block / 4 < mem.Length
      ensures free == (mem[block / 4] % 2 == 0)
    {
      free := mem[block / 4] % 2 == 0;
    }

    /** Exclusive or of the size word with 1. */
    method ToggleAlloc(block: nat, ghost k: nat)
      requires Valid() && k < |blocks| && blocks[k].addr == block
      modifies this`blocks, mem
      ensures Valid()
      ensures blocks == Toggle(old(blocks), k)
      ensures forall w :: 0 <= w < mem.Length && w != block / 4 ==> mem[w] == old(mem[w])
    {
      ghost var was := mem[..];
      ghost var bs := blocks;
      hide HeapInv, Spells, HeaderWordsApart, Aligned;
      BlockFacts(bs, k, base, total);
      SpelledAt(was, blockListHead, bs, k);
      HeaderWords(bs, base, total);
      ToggleSpells(was, blockListHead, bs, k);
      ToggleInv(bs, k, base, total);
      mem[block / 4] := if mem[block / 4] % 2 == 0 then mem[block / 4] + 1 else mem[block / 4] - 1;
      blocks := Toggle(blocks, k);
      assert mem[..] == was[block / 4 := SizeWord(blocks[k])];
    }

    /** The body of the success branch of salloc: split if there is room, then mark. */
    method ClaimBlock(block: nat, rounded: nat, ghost k: nat)
      requires Valid() && k < |blocks| && blocks[k].addr == block
      requires Aligned(rounded) && Fits(blocks[k], rounded)
      modifies this`blockListHead, this`blocks, mem
      ensures Valid()
      ensures blocks == Claim(old(blocks), k, rounded)
      ensures forall w :: 0 <= w < mem.Length && !(block <= 4 * w < old(blocks)[k].End()) ==> mem[w] == old(mem[w])
    {
      hide HeapInv, Spells, Aligned;
      LinkAt(k);
      BlockFacts(blocks, k, base, total);
      SplitTestIsRight(blocks[k], rounded, base, total);
      if mem[block / 4] >= (rounded + HEADER + 16) % WORD {
        SplitBlock(block, rounded, k);
        ToggleAlloc(block, k + 1);
      } else {
        ToggleAlloc(block, k);
      }
    }

    /** One link of the list: the end is reached exactly with NULL. */
    lemma LinkAt(k: nat)
      requires Valid() && k <= |blocks|
      ensures AddrAt(blocks, k) == 0 <==> k == |blocks|
      ensures k < |blocks| ==>
        && blocks[k].addr / 4 + 1 < mem.Length
        && mem[blocks[k].addr / 4] == SizeWord(blocks[k])
        && mem[blocks[k].addr / 4 + 1] == AddrAt(blocks, k + 1)
        && blocks[k].size % 2 == 0
    {
      hide HeapInv, Spells, Aligned;
      if k < |blocks| {
        BlockFacts(blocks, k, base, total);
        SpelledAt(mem[..], blockListHead, blocks, k);
        hide BlockOk;
      }
    }

    /**
     * First fit. On success interrupts stay off, because only the failing path restores
     * the level; words outside the free blocks are not written.
     */
    method Salloc(size: nat) returns (ptr: nat)
      requires Valid() && size < WORD
      modifies this`blockListHead, this`blocks, mem, cpu
      ensures Valid()
      ensures ptr == AllocPtr(old(blocks), size) && blocks == AllocBlocks(old(blocks), size)
      ensures cpu.irqEnabled == (ptr == 0 && old(cpu.irqEnabled))
      ensures cpu.irqEnabled == old(cpu.irqEnabled)
        <==> !old(cpu.irqEnabled) || forall i :: 0 <= i < |old(blocks)| ==> !Fits(old(blocks)[i], Rounded(size))
      ensures ptr == 0 ==> mem[..] == old(mem[..])
      ensures forall w :: 0 <= w < mem.Length && !InFreeBlock(old(blocks), w) ==> mem[w] == old(mem[w])
    {
      hide HeapInv;
      var prevLevel := cpu.SetInterruptLevel(false);
      RoundedExceeds(size);
      var rounded := (size / 16 + 1) * 16 % WORD;
      var block := blockListHead;
      ghost var k := 0;
      LinkAt(0);
      while block != 0
        invariant unchanged(this, mem) && Valid() && !cpu.irqEnabled
        invariant k <= |blocks| && block == AddrAt(blocks, k)
        invariant block == 0 <==> k == |blocks|
        invariant forall i :: 0 <= i < k ==> !Fits(blocks[i], rounded)
        decreases |blocks| - k
      {
        LinkAt(k);
        var free := IsFree(block);
        if free && mem[block / 4] >= rounded {
          assert Fits(blocks[k], rounded) && k == FirstFit(blocks, rounded);
          ClaimBlock(block, rounded, k);
          return block + HEADER;
        }
        assert !Fits(blocks[k], rounded);
        block := mem[block / 4 + 1];
        k := k + 1;
        LinkAt(k);
      }
      var _ := cpu.SetInterruptLevel(prevLevel);
      return 0;
    }

    /** NULL is ignored; otherwise one header word changes and nothing else. */
    method Sfree(ptr: nat)
      requires Valid() && (ptr == 0 || Owns(blocks, ptr))
      modifies this`blocks, mem
      ensures Valid()
      ensures blocks == FreeBlocks(old(blocks), ptr)
      ensures forall w :: 0 <= w < mem.Length && (ptr == 0 || w != (ptr - HEADER) / 4) ==> mem[w] == old(mem[w])
    {
      if ptr != 0 {
        ghost var k := IndexOf(blocks, ptr);
        var block := ptr - HEADER;
        ToggleAlloc(block, k);
      }
    }
  }
}
