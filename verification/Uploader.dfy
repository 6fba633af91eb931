/** serial/forward.py: the host of the serial protocol, run against the device. */
module Uploader {
  import opened Basics
  import opened Serial

  const CHUNK: nat := 128
  const LOAD_ADDRESS: nat := 0x8000

  predicate AllZero(c: seq<Byte>) {
    forall i :: 0 <= i < |c| ==> c[i] == 0
  }

  function First(n: nat, s: seq<Byte>): seq<Byte> {
    s[..if |s| < n then |s| else n]
  }

  function Rest(n: nat, s: seq<Byte>): seq<Byte> {
    s[if |s| < n then |s| else n..]
  }

  /** A chunk that is sent, four bytes at a time, the last packet filled up with zeros. */
  function WriteChunk(mem: Bytes, addr: nat, c: seq<Byte>): Bytes
    decreases |c|
  {
    if c == [] then mem
    else WriteChunk(StoreBytes(mem, addr % WORD, Pad(First(4, c))), addr + 4, Rest(4, c))
  }

  /** The memory after an upload: chunks that are all zero are skipped. */
  function Upload(mem: Bytes, addr: nat, image: seq<Byte>): Bytes
    decreases |image|
  {
    if image == [] then mem
    else
      var c := First(CHUNK, image);
      Upload(if AllZero(c) then mem else WriteChunk(mem, addr, c), addr + CHUNK, Rest(CHUNK, image))
  }

  // ----- what an upload leaves in memory -----

  /** n rounded up to a multiple of four. */
  function Padded(n: nat): nat {
    if n == 0 then 0 else 4 + Padded(if n < 4 then 0 else n - 4)
  }

  lemma {:induction false} PaddedBounds(n: nat)
    ensures n <= Padded(n) < n + 4 && Padded(n) % 4 == 0
  {
    if n > 0 { PaddedBounds(if n < 4 then 0 else n - 4); }
  }

  lemma {:induction false} PaddedShift(n: nat, m: nat)
    ensures Padded(n + 4 * m) == Padded(n) + 4 * m
    decreases m
  {
    if m > 0 {
      PaddedShift(n, m - 1);
      assert n + 4 * m - 4 == n + 4 * (m - 1);
    }
  }

  /** The chunk that byte i of the image is sent with. */
  function ChunkOf(image: seq<Byte>, i: nat): seq<Byte>
    decreases i
  {
    if i < CHUNK then First(CHUNK, image) else ChunkOf(Rest(CHUNK, image), i - CHUNK)
  }

  /** Chunks are 128 bytes long, but for the last one. */
  lemma {:induction false} ChunkIs(image: seq<Byte>, i: nat)
    requires i < |image|
    ensures var from := 128 * (i / 128);
      from <= i && ChunkOf(image, i) == image[from..if from + 128 < |image| then from + 128 else |image|]
    decreases i
  {
    if i >= CHUNK {
      ChunkIs(Rest(CHUNK, image), i - CHUNK);
      assert 128 * ((i - 128) / 128) + 128 == 128 * (i / 128);
    }
  }

  lemma {:induction false} StoredBytes(mem: Bytes, a: nat, bs: seq<Byte>, x: nat)
    requires a + |bs| <= WORD
    ensures Load(StoreBytes(mem, a, bs), x) == if a <= x < a + |bs| then bs[x - a] else Load(mem, x)
    decreases |bs|
  {
    if bs != [] {
      assert a % WORD == a;
      StoredBytes(mem[a := bs[0]], a + 1, bs[1..], x);
    }
  }

  lemma {:induction false} ChunkMeaning(mem: Bytes, addr: nat, c: seq<Byte>, x: nat)
    requires addr + Padded(|c|) <= WORD
    ensures Load(WriteChunk(mem, addr, c), x) ==
      if addr <= x < addr + |c| then c[x - addr]
      else if addr + |c| <= x < addr + Padded(|c|) then 0
      else Load(mem, x)
    decreases |c|
  {
    if c != [] {
      PaddedBounds(|c|);
      PaddedBounds(|Rest(4, c)|);
      assert addr % WORD == addr;
      var m := StoreBytes(mem, addr, Pad(First(4, c)));
      StoredBytes(mem, addr, Pad(First(4, c)), x);
      ChunkMeaning(m, addr + 4, Rest(4, c), x);
    }
  }

  /** What address x holds after an upload, in terms of the image and of the memory before. */
  function Expected(mem: Bytes, addr: nat, image: seq<Byte>, x: nat): Byte {
    if addr <= x < addr + |image| && !AllZero(ChunkOf(image, x - addr)) then image[x - addr]
    else if addr + |image| <= x < addr + Padded(|image|) && !AllZero(ChunkOf(image, |image| - 1)) then 0
    else Load(mem, x)
  }

  /**
   * Every byte of a chunk that is not all zero arrives, skipped chunks leave the memory
   * alone, and nothing else changes but up to three bytes of padding behind the image.
   */
  lemma {:induction false} UploadMeaning(mem: Bytes, addr: nat, image: seq<Byte>, x: nat)
    requires addr + Padded(|image|) <= WORD
    ensures Load(Upload(mem, addr, image), x) == Expected(mem, addr, image, x)
    decreases |image|
  {
    hide AllZero, WriteChunk;
    if image != [] {
      var c := First(CHUNK, image);
      var rest := Rest(CHUNK, image);
      var m := if AllZero(c) then mem else WriteChunk(mem, addr, c);
      PaddedBounds(|image|);
      if |image| > CHUNK {
        PaddedShift(|rest|, 32);
        PaddedShift(0, 32);
        ChunkMeaning(mem, addr, c, x);
        UploadMeaning(m, addr + CHUNK, rest, x);
        assert image == c + rest;
      } else {
        ChunkMeaning(mem, addr, c, x);
        assert c == image && rest == [];
      }
    }
  }

  /** Where memory began as zero, the whole image is there, skipped chunks included. */
  lemma ImageArrives(mem: Bytes, addr: nat, image: seq<Byte>)
    requires addr + Padded(|image|) <= WORD
    requires forall x :: addr <= x < addr + |image| ==> Load(mem, x) == 0
    ensures forall x :: addr <= x < addr + |image| ==> Load(Upload(mem, addr, image), x) == image[x - addr]
  {
    forall x | addr <= x < addr + |image|
      ensures Load(Upload(mem, addr, image), x) == image[x - addr]
    {
      UploadMeaning(mem, addr, image, x);
      InItsChunk(image, x - addr);
    }
  }

  lemma {:induction false} InItsChunk(image: seq<Byte>, i: nat)
    requires i < |image|
    ensures image[i] in ChunkOf(image, i)
    decreases i
  {
    if i < CHUNK {
      assert First(CHUNK, image)[i] == image[i];
    } else {
      InItsChunk(Rest(CHUNK, image), i - CHUNK);
    }
  }

  // ----- the host -----

  datatype Command = Write(addr: nat, bts: seq<Byte>) | Read(addr: nat, ex: Byte)

  /** The effect of a list of commands on the device's memory, and the answers to the reads. */
  function AfterCommands(mem: Bytes, cs: seq<Command>): Bytes
    requires forall i :: 0 <= i < |cs| && cs[i].Write? ==> |cs[i].bts| <= 4
  {
    if cs == [] then mem
    else
      var last := cs[|cs| - 1];
      var m := AfterCommands(mem, cs[..|cs| - 1]);
      if last.Write? then StoreBytes(m, last.addr % WORD, Pad(last.bts)) else m
  }

  /** The bytes of a read's answer in front of the stop byte. */
  function Skip(read: bool): nat {
    if read then 2 else 0
  }

  /** There is a stop byte for read_until_proc to find, behind the two bytes of a read. */
  predicate Answered(rx: seq<Byte>, read: bool) {
    Skip(read) <= |rx| && PROC in rx[Skip(read)..]
  }

  /** Reading from `before` went through its first stop byte from `skip` on, at k, and left `after`. */
  predicate ReadThrough(before: seq<Byte>, skip: nat, k: nat, after: seq<Byte>) {
    skip <= k < |before| && before[k] == PROC && PROC !in before[skip..k] && after == before[k + 1..]
  }

  /** The i-th command, run on the memory that the earlier ones left, is answered like this. */
  predicate AnsweredBy(mem: Bytes, cs: seq<Command>, i: nat, ok: bool)
    requires i < |cs| && forall j :: 0 <= j < |cs| && cs[j].Write? ==> |cs[j].bts| <= 4
  {
    cs[i].Read? ==> ok == (Load(AfterCommands(mem, cs[..i]), cs[i].addr % WORD) == cs[i].ex)
  }

  /** A serial port with the device at its other end. */
  class Port {
    const board: Board
    /** Bytes from the device that have not been read. */
    var rx: seq<Byte>

    constructor (board: Board)
      ensures this.board == board && rx == []
    {
      this.board := board;
      rx := [];
    }

    /** Between two packets, with the device waiting for the first byte of the next. */
    ghost predicate InStep()
      reads this, board
    {
      board.Valid() && board.pidx == 0 && board.jumped == None
    }

    /** flushInput drops whatever has not been read; then one byte goes out. */
    method WriteByte(b: Byte)
      requires board.Valid() && board.jumped == None
      modifies this`rx, board, board.packet
      ensures board.Valid()
      ensures old(board.pidx) < 9 ==>
        && board.pidx == old(board.pidx) + 1 && board.packet[..board.pidx] == old(board.packet[..board.pidx]) + [b]
        && rx == [] && board.mem == old(board.mem) && board.jumped == None
      ensures old(board.pidx) == 9 ==> board.pidx == 0
      ensures old(board.pidx) == 9 ==>
        Outcome(board.mem, rx, board.jumped) == OnPacket(old(board.mem), old(board.packet[..9]) + [b])
    {
      rx := [];
      var reply := board.Receive(b);
      rx := rx + reply;
    }

    /** Nothing is lost to the flushing: the answer comes behind the tenth byte. */
    method WritePacket(p: seq<Byte>)
      requires |p| == 10 && InStep()
      modifies this`rx, board, board.packet
      ensures board.Valid() && board.pidx == 0
      ensures Outcome(board.mem, rx, board.jumped) == OnPacket(old(board.mem), p)
    {
      var i := 0;
      while i < 9
        invariant 0 <= i <= 9 && board.Valid() && board.pidx == i && board.jumped == None
        invariant board.packet[..i] == p[..i] && board.mem == old(board.mem)
      {
        WriteByte(p[i]);
        i := i + 1;
      }
      assert p[..9] + [p[9]] == p;
      WriteByte(p[9]);
    }

    /** Reads up to and including the stop byte; with read, compares the answer first. */
    method ReadUntilProc(read: bool, conf: Byte) returns (c: bool)
      requires Answered(rx, read)
      modifies this`rx
      ensures c == (read && old(rx)[0] == 0x88 && old(rx)[1] == conf)
      ensures exists k: nat :: ReadThrough(old(rx), Skip(read), k, rx)
    {
      c := false;
      ghost var k: nat := 0;
      if read {
        var raw := rx[..2];
        rx := rx[2..];
        k := 2;
        if raw[0] == 0x88 && raw[1] == conf { c := true; }
      }
      ghost var skip := k;
      var raw := rx[0];
      rx := rx[1..];
      while raw != PROC
        invariant skip == Skip(read) && skip <= k < |old(rx)| && raw == old(rx)[k] && rx == old(rx)[k + 1..]
        invariant PROC !in old(rx)[skip..k] && PROC in old(rx)[skip..]
        decreases |rx|
      {
        assert PROC in old(rx)[skip..] && old(rx)[skip..] == old(rx)[skip..k] + [raw] + rx;
        raw := rx[0];
        rx := rx[1..];
        k := k + 1;
      }
      assert ReadThrough(old(rx), Skip(read), k, rx);
    }

    /** The four address bytes, by masking and shifting. */
    static method AddressBytes(addr: nat) returns (bytes: seq<Byte>)
      ensures bytes == Encode(addr)
    {
      bytes := [];
      var a := addr;
      ghost var a1 := Shifted(addr);
      ghost var a2 := Shifted(a1);
      for i := 0 to 4
        invariant i == 0 ==> bytes == [] && a == addr
        invariant i == 1 ==> bytes == [Low(addr)] && a == a1
        invariant i == 2 ==> bytes == [Low(addr), Low(a1)] && a == a2
        invariant i == 3 ==> bytes == [Low(addr), Low(a1), Low(a2)] && a == Shifted(a2)
        invariant i == 4 ==> bytes == Encode(addr)
      {
        bytes := bytes + [Low(a)];
        a := Shifted(a);
      }
    }

    /** The running exclusive or over the first nine bytes. */
    static method Seal(body: seq<Byte>) returns (p: seq<Byte>)
      requires |body| == 9
      ensures p == Sealed(body)
    {
      var cs := 0;
      for i := 0 to 9
        invariant cs == Checksum(body[..i])
      {
        assert body[..i + 1][..i] == body[..i];
        cs := XorBytes(cs, body[i]);
      }
      assert body[..9] == body;
      p := body + [cs];
    }

    method WriteWrite(addr: nat, bts: seq<Byte>)
      requires InStep() && |bts| <= 4
      modifies this`rx, board, board.packet
      ensures InStep() && rx == []
      ensures board.mem == StoreBytes(old(board.mem), addr % WORD, Pad(bts))
    {
      var a := AddressBytes(addr);
      var bytes := [WRITE] + a;
      for i := 0 to |bts|
        invariant bytes == [WRITE] + a + bts[..i]
      {
        bytes := bytes + [bts[i]];
      }
      while |bytes| < 9
        invariant |bytes| <= 9 && bytes == [WRITE] + a + bts + seq(|bytes| - 5 - |bts|, _ => 0)
      {
        bytes := bytes + [0];
      }
      assert bytes == [WRITE] + Encode(addr) + Pad(bts);
      var p := Seal(bytes);
      PacketMeaning(board.mem, WRITE, addr, Pad(bts));
      WritePacket(p);
      var _ := ReadUntilProc(false, 0);
    }

    /** True exactly if the byte read back is the expected one. */
    method WriteRead(addr: nat, ex: Byte) returns (c: bool)
      requires InStep()
      modifies this`rx, board, board.packet
      ensures InStep() && rx == [] && board.mem == old(board.mem)
      ensures c == (Load(board.mem, addr % WORD) == ex)
    {
      var a := AddressBytes(addr);
      var bytes := [READ] + a;
      for i := 0 to 4
        invariant bytes == [READ] + a + FILL[..i]
      {
        bytes := bytes + [0xff];
      }
      assert bytes == [READ] + Encode(addr) + FILL;
      var p := Seal(bytes);
      PacketMeaning(board.mem, READ, addr, FILL);
      WritePacket(p);
      assert rx[2..] == [PROC];
      c := ReadUntilProc(true, ex);
    }

    /** The device leaves its loop; nobody waits for an answer. */
    method WriteJump(addr: nat)
      requires InStep()
      modifies this`rx, board, board.packet
      ensures board.mem == old(board.mem) && board.jumped == Some(addr % WORD) && rx == []
    {
      var a := AddressBytes(addr);
      var bytes := [JUMP] + a;
      for i := 0 to 4
        invariant bytes == [JUMP] + a + FILL[..i]
      {
        bytes := bytes + [0xff];
      }
      assert bytes == [JUMP] + Encode(addr) + FILL;
      var p := Seal(bytes);
      PacketMeaning(board.mem, JUMP, addr, FILL);
      WritePacket(p);
    }

    /** Over any list of writes and reads the two sides stay in step and no byte is left over. */
    method Session(cs: seq<Command>) returns (confirmed: seq<bool>)
      requires InStep() && forall i :: 0 <= i < |cs| && cs[i].Write? ==> |cs[i].bts| <= 4
      modifies this`rx, board, board.packet
      ensures InStep() && (cs != [] ==> rx == []) && |confirmed| == |cs|
      ensures board.mem == AfterCommands(old(board.mem), cs)
      ensures forall i :: 0 <= i < |cs| ==> AnsweredBy(old(board.mem), cs, i, confirmed[i])
    {
      hide StoreBytes, Pad, Load;
      confirmed := [];
      for k := 0 to |cs|
        invariant InStep() && (k > 0 ==> rx == []) && |confirmed| == k
        invariant board.mem == AfterCommands(old(board.mem), cs[..k])
        invariant forall i :: 0 <= i < k ==> AnsweredBy(old(board.mem), cs, i, confirmed[i])
      {
        assert cs[..k + 1][..k] == cs[..k];
        var ok := true;
        match cs[k] {
          case Write(addr, bts) => WriteWrite(addr, bts);
          case Read(addr, ex) => ok := WriteRead(addr, ex);
        }
        confirmed := confirmed + [ok];
      }
      assert cs[..|cs|] == cs;
    }

    /** all_zeros */
    static method AllZeros(c: seq<Byte>) returns (z: bool)
      ensures z == AllZero(c)
    {
      for i := 0 to |c|
        invariant AllZero(c[..i])
      {
        if c[i] != 0 { return false; }
      }
      assert c[..|c|] == c;
      return true;
    }

    /** The inner loop of read_file. */
    method SendChunk(addr: nat, chunk: seq<Byte>) returns (next: nat)
      requires InStep()
      modifies this`rx, board, board.packet
      ensures InStep() && board.mem == WriteChunk(old(board.mem), addr, chunk)
      ensures next == addr + Padded(|chunk|)
    {
      next := addr;
      var i := 0;
      ghost var left := chunk;
      while i < |chunk|
        invariant InStep() && left == chunk[if i < |chunk| then i else |chunk|..]
        invariant WriteChunk(board.mem, next, left) == WriteChunk(old(board.mem), addr, chunk)
        invariant next + Padded(|left|) == addr + Padded(|chunk|)
      {
        WriteWrite(next, First(4, chunk[i..]));
        next := next + 4;
        i := i + 4;
        left := Rest(4, left);
      }
    }

    /** read_file: upload the image from 0x8000 on, then jump there. */
    method ReadFile(image: seq<Byte>)
      requires InStep()
      modifies this`rx, board, board.packet
      ensures board.mem == Upload(old(board.mem), 0x8000, image)
      ensures board.jumped == Some(0x8000)
    {
      var addr: nat := LOAD_ADDRESS;
      var file := image;
      while file != []
        invariant InStep()
        invariant Upload(board.mem, addr, file) == Upload(old(board.mem), LOAD_ADDRESS, image)
        decreases |file|
      {
        var chunk := First(CHUNK, file);
        file := Rest(CHUNK, file);
        var zero := AllZeros(chunk);
        if zero {
          addr := addr + CHUNK;
        } else {
          ghost var mem := board.mem;
          var next := SendChunk(addr, chunk);
          PaddedShift(0, 32);
          LastChunk(WriteChunk(mem, addr, chunk), next, addr + CHUNK, file);
          addr := next;
        }
      }
      WriteJump(LOAD_ADDRESS);
    }
  }

  /** Behind a short chunk there is nothing left, so the address does not matter. */
  lemma LastChunk(mem: Bytes, a: nat, b: nat, rest: seq<Byte>)
    requires a == b || rest == []
    ensures Upload(mem, a, rest) == Upload(mem, b, rest)
  {
  }
}
