/**
 * context_switch of src/boot.S and the first frame of a process (src/process.c): what is
 * saved on a stack, and what comes back from it.
 */
module Context {
  import opened Basics

  /** Word-addressed memory: byte address of a word to its contents; unwritten words read as 0. */
  type Words = map<int, int>

  function Load(mem: Words, a: int): int {
    if a in mem then mem[a] else 0
  }

  /** r0 to r12, and the special registers. */
  datatype Regs = Regs(r: seq<int>, sp: int, lr: int, pc: int, cpsr: int) {
    predicate Valid() { |r| == 13 }
  }

  const FRAME: int := 64
  const STACKSIZE: int := 0x8000

  /** The memory image of proc_saved_state_t, lowest address first. */
  function FrameOf(c: Regs): (ws: seq<int>)
    requires c.Valid()
    ensures |ws| == 16
  {
    [c.cpsr] + c.r + [c.lr, c.pc]
  }

  function Store(mem: Words, a: int, ws: seq<int>): Words
    decreases |ws|
  {
    if ws == [] then mem else Store(mem[a := ws[0]], a + 4, ws[1..])
  }

  /** The i-th word from address a on. */
  function WordAt(mem: Words, a: int, i: int): int {
    Load(mem, a + 4 * i)
  }

  /** The sixteen words from address a on are the frame of c. */
  predicate HasFrame(mem: Words, a: int, c: Regs)
    requires c.Valid()
  {
    forall i :: 0 <= i < 16 ==> WordAt(mem, a, i) == FrameOf(c)[i]
  }

  /** The registers that the pops at the end of context_switch load from the frame at a. */
  function Popped(mem: Words, a: int): (c: Regs)
    ensures c.Valid()
  {
    Regs(seq(13, i => Load(mem, a + 4 + 4 * i)), a + FRAME, Load(mem, a + 56), Load(mem, a + 60), Load(mem, a))
  }

  /** Where a thread that enters context_switch will go on: behind the call. */
  function Resumption(c: Regs): Regs {
    c.(pc := c.lr)
  }

  /** The whole of context_switch: save below sp, publish sp, pick up the other sp, pop. */
  function SwitchMemory(mem: Words, c: Regs): Words
    requires c.Valid()
  {
    Store(mem, c.sp - FRAME, FrameOf(Resumption(c)))[c.r[0] := c.sp - FRAME]
  }

  function SwitchRegs(mem: Words, c: Regs): (d: Regs)
    requires c.Valid()
    ensures d.Valid()
  {
    var after := SwitchMemory(mem, c);
    Popped(after, Load(after, c.r[1]))
  }

  lemma {:induction false} StoredWords(mem: Words, a: int, ws: seq<int>)
    ensures forall i :: 0 <= i < |ws| ==> WordAt(Store(mem, a, ws), a, i) == ws[i]
    ensures forall x :: !(a <= x < a + 4 * |ws|) ==> Load(Store(mem, a, ws), x) == Load(mem, x)
    decreases |ws|
  {
    if ws != [] {
      var m := mem[a := ws[0]];
      StoredWords(m, a + 4, ws[1..]);
      forall i | 0 <= i < |ws|
        ensures WordAt(Store(mem, a, ws), a, i) == ws[i]
      {
        if i > 0 { assert WordAt(Store(m, a + 4, ws[1..]), a + 4, i - 1) == ws[1..][i - 1]; }
      }
    }
  }

  /** Popping a frame returns every register that was put into it. */
  lemma PopUndoesPush(mem: Words, a: int, c: Regs)
    requires c.Valid() && HasFrame(mem, a, c)
    ensures Popped(mem, a) == c.(sp := a + FRAME)
  {
    var d := Popped(mem, a);
    assert WordAt(mem, a, 0) == c.cpsr && WordAt(mem, a, 14) == c.lr && WordAt(mem, a, 15) == c.pc;
    forall i | 0 <= i < 13
      ensures d.r[i] == c.r[i]
    {
      assert WordAt(mem, a, i + 1) == FrameOf(c)[i + 1];
    }
    assert d.r == c.r;
  }

  /** After a switch the frame of the one that left lies just below its old sp. */
  lemma SwitchSaves(mem: Words, c: Regs)
    requires c.Valid() && (c.r[0] < c.sp - FRAME || c.sp <= c.r[0])
    ensures HasFrame(SwitchMemory(mem, c), c.sp - FRAME, Resumption(c))
    ensures Load(SwitchMemory(mem, c), c.r[0]) == c.sp - FRAME
    ensures forall x :: x != c.r[0] && !(c.sp - FRAME <= x < c.sp) ==> Load(SwitchMemory(mem, c), x) == Load(mem, x)
  {
    StoredWords(mem, c.sp - FRAME, FrameOf(Resumption(c)));
  }

  /** A process that is switched to itself goes on behind the call with all registers intact. */
  lemma SwitchToSelf(mem: Words, c: Regs)
    requires c.Valid() && c.r[0] == c.r[1] && (c.r[0] < c.sp - FRAME || c.sp <= c.r[0])
    ensures SwitchRegs(mem, c) == Resumption(c)
  {
    SwitchSaves(mem, c);
    PopUndoesPush(SwitchMemory(mem, c), c.sp - FRAME, Resumption(c));
  }

  /** What create_process wants a new process to start with. */
  function Fresh(stackbase: int, proc: int, arg: int, cleanup: int): (c: Regs)
    ensures c.Valid()
  {
    Regs([arg] + seq(12, _ => 0), stackbase + STACKSIZE, cleanup, proc, 0x15A)
  }

  /** The processor and its memory, for the instruction sequences themselves. */
  class Core {
    var mem: Words
    var regs: Regs

    method Push(v: int)
      modifies this
      ensures regs == old(regs).(sp := old(regs.sp) - 4)
      ensures mem == old(mem)[old(regs.sp) - 4 := v]
    {
      regs := regs.(sp := regs.sp - 4);
      mem := mem[regs.sp := v];
    }

    method Pop() returns (v: int)
      modifies this
      ensures v == Load(old(mem), old(regs.sp)) && mem == old(mem)
      ensures regs == old(regs).(sp := old(regs.sp) + 4)
    {
      v := Load(mem, regs.sp);
      regs := regs.(sp := regs.sp + 4);
    }

    /** push {r0-r12}: the highest register goes to the highest address. */
    method PushRegisters()
      requires regs.Valid()
      modifies this
      ensures regs == old(regs).(sp := old(regs.sp) - 52)
      ensures mem == Store(old(mem), old(regs.sp) - 52, old(regs.r))
    {
      ghost var sp := regs.sp;
      ghost var was := mem;
      var i := 13;
      assert regs.r[..13] == regs.r;
      while i > 0
        invariant 0 <= i <= 13 && regs == old(regs).(sp := sp - 4 * (13 - i))
        invariant Store(mem, sp - 52, regs.r[..i]) == Store(was, sp - 52, old(regs.r))
      {
        i := i - 1;
        ghost var before := mem;
        Push(regs.r[i]);
        StoreLastFirst(before, sp - 52, old(regs.r)[..i + 1]);
        assert old(regs.r)[..i + 1][..i] == old(regs.r)[..i];
      }
    }

    /** pop {r0-r12} */
    method PopRegisters()
      requires regs.Valid()
      modifies this
      ensures mem == old(mem) && regs.Valid()
      ensures regs == old(regs).(sp := old(regs.sp) + 52, r := seq(13, k => Load(old(mem), old(regs.sp) + 4 * k)))
    {
      var i := 0;
      while i < 13
        invariant 0 <= i <= 13 && mem == old(mem) && regs.Valid()
        invariant regs == old(regs).(sp := old(regs.sp) + 4 * i, r := regs.r)
        invariant forall k :: 0 <= k < i ==> regs.r[k] == Load(mem, old(regs.sp) + 4 * k)
      {
        var v := Pop();
        regs := regs.(r := regs.r[i := v]);
        i := i + 1;
      }
    }

    /** context_switch up to the last push. */
    method PushFrame()
      requires regs.Valid()
      modifies this
      ensures mem == Store(old(mem), old(regs.sp) - FRAME, FrameOf(Resumption(old(regs))))
      ensures regs == old(regs).(sp := old(regs.sp) - FRAME, r := old(regs.r)[12 := old(regs.cpsr)])
    {
      ghost var c := regs;
      ghost var was := mem;
      Push(regs.lr);
      Push(regs.lr);
      PushRegisters();
      regs := regs.(r := regs.r[12 := regs.cpsr]);
      Push(regs.r[12]);
      FrameBuilt(was, c);
    }

    /** The pops behind the change of stacks. */
    method PopFrame()
      requires regs.Valid()
      modifies this
      ensures mem == old(mem) && regs == Popped(old(mem), old(regs.sp))
    {
      ghost var a := regs.sp;
      var status := Pop();
      regs := regs.(cpsr := status);
      PopRegisters();
      var lr := Pop();
      var pc := Pop();
      regs := regs.(lr := lr, pc := pc);
      assert regs.r == Popped(mem, a).r;
    }

    /** The instructions of context_switch in their order. */
    method ContextSwitch()
      requires regs.Valid()
      modifies this
      ensures mem == SwitchMemory(old(mem), old(regs)) && regs.Valid()
      ensures regs == SwitchRegs(old(mem), old(regs))
    {
      PushFrame();
      mem := mem[regs.r[0] := regs.sp];
      regs := regs.(sp := Load(mem, regs.r[1]));
      PopFrame();
    }

    /** The stack half of create_process: clear the frame, then fill in the fields that matter. */
    method InitialFrame(stackbase: int, proc: int, arg: int, cleanup: int)
      modifies this`mem
      ensures HasFrame(mem, stackbase + STACKSIZE - FRAME, Fresh(stackbase, proc, arg, cleanup))
      ensures var top := stackbase + 0x8000;
        && Load(mem, top - 64) == 0x15A && Load(mem, top - 60) == arg
        && Load(mem, top - 8) == cleanup && Load(mem, top - 4) == proc
      ensures forall x :: !(stackbase + STACKSIZE - FRAME <= x < stackbase + STACKSIZE) ==> Load(mem, x) == Load(old(mem), x)
    {
      var a := stackbase + STACKSIZE - FRAME;
      var i := 0;
      while i < 16
        invariant 0 <= i <= 16
        invariant forall k :: 0 <= k < i ==> Load(mem, a + 4 * k) == 0
        invariant forall x :: !(a <= x < a + 64) ==> Load(mem, x) == Load(old(mem), x)
      {
        mem := mem[a + 4 * i := 0];
        i := i + 1;
      }
      ghost var zero := mem;
      mem := mem[a + 60 := proc];
      mem := mem[a + 56 := cleanup];
      mem := mem[a + 4 := arg];
      mem := mem[a := 0x15A];
      forall k | 0 <= k < 16
        ensures WordAt(mem, a, k) == FrameOf(Fresh(stackbase, proc, arg, cleanup))[k]
      {
        assert Load(zero, a + 4 * k) == 0;
      }
    }
  }

  /** Storing the last word first makes no difference: the addresses are distinct. */
  lemma {:induction false} StoreLastFirst(mem: Words, a: int, ws: seq<int>)
    requires |ws| > 0
    ensures Store(mem[a + 4 * (|ws| - 1) := ws[|ws| - 1]], a, ws[..|ws| - 1]) == Store(mem, a, ws)
    decreases |ws|
  {
    var n := |ws| - 1;
    if n > 0 {
      StoreLastFirst(mem[a := ws[0]], a + 4, ws[1..]);
      assert mem[a := ws[0]][a + 4 + 4 * (n - 1) := ws[n]] == mem[a + 4 * n := ws[n]][a := ws[0]];
      assert ws[1..][..n - 1] == ws[..n][1..];
      assert ws[1..][|ws[1..]| - 1] == ws[n];
    } else {
      assert ws[1..] == [];
    }
  }

  /** The pushes of context_switch build the frame. */
  lemma FrameBuilt(mem: Words, c: Regs)
    requires c.Valid()
    ensures Store(mem[c.sp - 4 := c.lr][c.sp - 8 := c.lr], c.sp - 60, c.r)[c.sp - 64 := c.cpsr]
         == Store(mem, c.sp - FRAME, FrameOf(Resumption(c)))
  {
    var f := FrameOf(Resumption(c));
    StoreLastFirst(mem, c.sp - 64, f);
    var m1 := mem[c.sp - 4 := c.lr];
    var f1 := f[..15];
    StoreLastFirst(m1, c.sp - 64, f1);
    assert f1[..14] == [c.cpsr] + c.r;
    var m2 := m1[c.sp - 8 := c.lr];
    assert ([c.cpsr] + c.r)[1..] == c.r;
    StoreCommutes(m2, c.sp - 60, c.r, c.sp - 64, c.cpsr);
  }

  lemma {:induction false} StoreCommutes(mem: Words, a: int, ws: seq<int>, x: int, v: int)
    requires x < a
    ensures Store(mem[x := v], a, ws) == Store(mem, a, ws)[x := v]
    decreases |ws|
  {
    if ws != [] {
      assert mem[x := v][a := ws[0]] == mem[a := ws[0]][x := v];
      StoreCommutes(mem[a := ws[0]], a + 4, ws[1..], x, v);
    }
  }
}
