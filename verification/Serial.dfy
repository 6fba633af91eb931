/**
 * The serial upload protocol: serial/bootloader/src/bootloader.c on the device and
 * serial/forward.py on the host. The line is the queue of bytes that the device has sent.
 */
module Serial {
  import opened Basics

  type Byte = x: nat | x < 256

  // ----- exclusive or -----

  function Half(a: nat): (h: nat)
    ensures h <= a && (a > 0 ==> h < a)
  {
    a / 2
  }

  function Bit(a: nat): (b: nat)
    ensures b < 2
  {
    a % 2
  }

  lemma HalfBit(a: nat)
    ensures a == 2 * Half(a) + Bit(a)
  {
  }

  lemma HalfUnique(h: nat, b: nat)
    requires b < 2
    ensures Half(2 * h + b) == h && Bit(2 * h + b) == b
  {
  }

  /** Bitwise exclusive or, lowest bit first. */
  function Xor(a: nat, b: nat): nat
    decreases a + b
  {
    if a == 0 && b == 0 then 0
    else 2 * Xor(Half(a), Half(b)) + (if Bit(a) == Bit(b) then 0 else 1)
  }

  /** Applying the same operand twice changes nothing, on either side. */
  lemma {:induction false} XorCancels(a: nat, b: nat)
    ensures Xor(Xor(a, b), b) == a && Xor(a, Xor(a, b)) == b
    decreases a + b
  {
    hide Half, Bit;
    if a != 0 || b != 0 {
      var h, c := Xor(Half(a), Half(b)), if Bit(a) == Bit(b) then 0 else 1;
      XorCancels(Half(a), Half(b));
      HalfBit(a);
      HalfBit(b);
      HalfUnique(h, c);
    }
  }

  lemma {:induction false} XorByte(a: nat, b: nat, n: nat)
    requires a < Pow2(n) && b < Pow2(n)
    ensures Xor(a, b) < Pow2(n)
    decreases n
  {
    hide Half, Bit;
    if n > 0 && (a != 0 || b != 0) {
      HalfBit(a);
      HalfBit(b);
      XorByte(Half(a), Half(b), n - 1);
    }
  }

  function Pow2(n: nat): nat {
    if n == 0 then 1 else 2 * Pow2(n - 1)
  }

  function XorBytes(a: Byte, b: Byte): Byte {
    assert Pow2(8) == 256;
    XorByte(a, b, 8);
    Xor(a, b)
  }

  /** The running exclusive or of a packet's bytes. */
  function Checksum(bs: seq<Byte>): Byte {
    if bs == [] then 0 else XorBytes(Checksum(bs[..|bs| - 1]), bs[|bs| - 1])
  }

  /** One byte changed is one checksum changed. */
  lemma {:induction false} ChecksumNotices(bs: seq<Byte>, i: nat, v: Byte)
    requires i < |bs| && v != bs[i]
    ensures Checksum(bs[i := v]) != Checksum(bs)
    decreases |bs|
  {
    hide Xor;
    var n := |bs| - 1;
    var cs := bs[i := v];
    if i < n {
      ChecksumNotices(bs[..n], i, v);
      assert cs[..n] == bs[..n][i := v];
    } else {
      assert cs[..n] == bs[..n];
    }
    XorCancels(Checksum(bs[..n]), bs[n]);
    XorCancels(Checksum(cs[..n]), cs[n]);
  }

  // ----- addresses -----

  function Low(a: nat): (x: Byte) {
    a % 256
  }

  function Shifted(a: nat): nat {
    a / 256
  }

  lemma LowShifted(a: nat)
    ensures a == 256 * Shifted(a) + Low(a)
  {
  }

  lemma LowUnique(q: nat, x: nat)
    requires x < 256
    ensures Low(256 * q + x) == x && Shifted(256 * q + x) == q
  {
  }

  /** Four bytes of an address, least significant first. */
  function Encode(addr: nat): (bs: seq<Byte>)
    ensures |bs| == 4
  {
    var a1 := Shifted(addr);
    var a2 := Shifted(a1);
    [Low(addr), Low(a1), Low(a2), Low(Shifted(a2))]
  }

  /** (high << 8) | low */
  function Join(high: nat, low: Byte): nat {
    256 * high + low
  }

  /** p1 = (p1 << 8) | byte, from the last byte to the first. */
  function Decode(bs: seq<Byte>): (a: nat)
    requires |bs| == 4
    ensures a < WORD
  {
    Join(Join(Join(bs[3], bs[2]), bs[1]), bs[0])
  }

  lemma ModUnique(a: nat, q: nat, r: nat)
    requires a == WORD * q + r && r < WORD
    ensures a % WORD == r
  {
  }

  /** Decoding undoes encoding for every 32-bit address; larger numbers lose their upper bits. */
  lemma AddressRoundTrip(addr: nat)
    ensures Decode(Encode(addr)) == addr % WORD
  {
    hide Low, Shifted;
    var a1 := Shifted(addr);
    var a2 := Shifted(a1);
    var a3 := Shifted(a2);
    LowShifted(addr);
    LowShifted(a1);
    LowShifted(a2);
    LowShifted(a3);
    ModUnique(addr, Shifted(a3), Decode(Encode(addr)));
  }

  /** And encoding undoes decoding. */
  lemma BytesRoundTrip(bs: seq<Byte>)
    requires |bs| == 4
    ensures Encode(Decode(bs)) == bs
  {
    hide Low, Shifted;
    var a2 := Join(bs[3], bs[2]);
    var a1 := Join(a2, bs[1]);
    LowUnique(a1, bs[0]);
    LowUnique(a2, bs[1]);
    LowUnique(bs[3], bs[2]);
    LowUnique(0, bs[3]);
  }

  // ----- packets -----

  const WRITE: Byte := 1
  const JUMP: Byte := 2
  const READ: Byte := 4
  const PROC: Byte := 0xff

  type Bytes = map<nat, Byte>

  function Load(mem: Bytes, a: nat): Byte {
    if a in mem then mem[a] else 0
  }

  /** Byte stores at consecutive 32-bit addresses. */
  function StoreBytes(mem: Bytes, a: nat, bs: seq<Byte>): Bytes
    decreases |bs|
  {
    if bs == [] then mem else StoreBytes(mem[a % WORD := bs[0]], a + 1, bs[1..])
  }

  /** What a full packet does: the memory behind it, the bytes sent back, the jump taken. */
  datatype Outcome = Outcome(mem: Bytes, reply: seq<Byte>, jump: Option<nat>)

  function OnPacket(mem: Bytes, p: seq<Byte>): Outcome
    requires |p| == 10
  {
    var a := Decode(p[1..5]);
    if Checksum(p[..9]) != p[9] then Outcome(mem, [0, 4, PROC], None)
    else if p[0] == WRITE then Outcome(StoreBytes(mem, a, p[5..9]), [PROC], None)
    else if p[0] == JUMP then
      if p[5] == 0xff then Outcome(mem, [], Some(a)) else Outcome(mem, [0, 1, PROC], None)
    else if p[0] == READ then
      if p[5] == 0xff then Outcome(mem, [0x88, Load(mem, a), PROC], None) else Outcome(mem, [0, 2, PROC], None)
    else Outcome(mem, [0, 3, PROC], None)
  }

  /** A sealed packet: nine bytes and their checksum. */
  function Sealed(body: seq<Byte>): (p: seq<Byte>)
    requires |body| == 9
    ensures |p| == 10
  {
    body + [Checksum(body)]
  }

  function Packet(kind: Byte, addr: nat, data: seq<Byte>): (p: seq<Byte>)
    requires |data| == 4
    ensures |p| == 10
  {
    Sealed([kind] + Encode(addr) + data)
  }

  /** write_write fills up with zeros. */
  function Pad(bts: seq<Byte>): (d: seq<Byte>)
    requires |bts| <= 4
    ensures |d| == 4
  {
    bts + seq(4 - |bts|, _ => 0)
  }

  const FILL: seq<Byte> := [0xff, 0xff, 0xff, 0xff]

  /** The device reads from a packet what the host put into it. */
  lemma PacketMeaning(mem: Bytes, kind: Byte, addr: nat, data: seq<Byte>)
    requires |data| == 4
    ensures var o := OnPacket(mem, Packet(kind, addr, data));
      var a := addr % WORD;
      && (kind == 1 ==> o == Outcome(StoreBytes(mem, a, data), [0xff], None))
      && (kind == 2 && data == [0xff, 0xff, 0xff, 0xff] ==> o == Outcome(mem, [], Some(a)))
      && (kind == 4 && data == [0xff, 0xff, 0xff, 0xff] ==> o == Outcome(mem, [0x88, Load(mem, a), 0xff], None))
  {
    hide Encode, Decode, Checksum, StoreBytes;
    var body := [kind] + Encode(addr) + data;
    var p := Packet(kind, addr, data);
    AddressRoundTrip(addr);
    assert p[..9] == body && p[1..5] == Encode(addr) && p[5..9] == data;
  }

  /** A sealed packet with exactly one byte altered is rejected and changes nothing. */
  lemma AlteredPacket(mem: Bytes, p: seq<Byte>, i: nat, v: Byte)
    requires |p| == 10 && Checksum(p[..9]) == p[9] && i < 10 && v != p[i]
    ensures OnPacket(mem, p[i := v]) == Outcome(mem, [0, 4, 0xff], None)
  {
    if i < 9 {
      ChecksumNotices(p[..9], i, v);
      assert p[i := v][..9] == p[..9][i := v];
    } else {
      assert p[i := v][..9] == p[..9];
    }
  }

  /** What is refused, and with which code; memory stays as it is and no jump is taken. */
  lemma Refused(mem: Bytes, p: seq<Byte>)
    requires |p| == 10
    ensures var o, sound := OnPacket(mem, p), Checksum(p[..9]) == p[9];
      && (sound && p[0] == 2 && p[5] != 0xff ==> o == Outcome(mem, [0, 1, 0xff], None))
      && (sound && p[0] == 4 && p[5] != 0xff ==> o == Outcome(mem, [0, 2, 0xff], None))
      && (sound && p[0] != 1 && p[0] != 2 && p[0] != 4 ==> o == Outcome(mem, [0, 3, 0xff], None))
      && (!sound ==> o == Outcome(mem, [0, 4, 0xff], None))
    ensures var o := OnPacket(mem, p);
      (o.mem != mem || o.jump.Some? || (|o.reply| > 0 && o.reply[0] == 0x88)) ==>
        Checksum(p[..9]) == p[9] && (p[0] == 1 || ((p[0] == 2 || p[0] == 4) && p[5] == 0xff))
  {
    hide Decode, Checksum, StoreBytes;
  }

  function LittleEndian(b0: nat, b1: nat, b2: nat, b3: nat): nat {
    b0 + 0x100 * b1 + 0x1_0000 * b2 + 0x100_0000 * b3
  }

  /** What goes over the line: the kind, the address with its lowest byte first, the data, the checksum. */
  lemma WireFormat(kind: Byte, addr: nat, data: seq<Byte>)
    requires |data| == 4 && addr < WORD
    ensures var p := Packet(kind, addr, data);
      && p[0] == kind && LittleEndian(p[1], p[2], p[3], p[4]) == addr
      && p[5..9] == data && Checksum(p) == 0
  {
    hide Encode, Decode, Checksum;
    var body := [kind] + Encode(addr) + data;
    var p := Packet(kind, addr, data);
    AddressRoundTrip(addr);
    DecodedBytes(Encode(addr));
    assert p[1..5] == Encode(addr) && p[5..9] == data;
    assert p[1] == p[1..5][0] && p[2] == p[1..5][1] && p[3] == p[1..5][2] && p[4] == p[1..5][3];
    assert p[..9] == body && p == body + [Checksum(body)];
    ChecksumOfAll(body);
  }

  lemma DecodedBytes(bs: seq<Byte>)
    requires |bs| == 4
    ensures Decode(bs) == LittleEndian(bs[0], bs[1], bs[2], bs[3])
  {
  }

  /** Over a sealed packet the checksum is zero. */
  lemma ChecksumOfAll(body: seq<Byte>)
    ensures Checksum(body + [Checksum(body)]) == 0
  {
    var c := Checksum(body);
    assert (body + [c])[..|body|] == body;
    XorSelf(c);
  }

  lemma {:induction false} XorSelf(a: nat)
    ensures Xor(a, a) == 0
  {
    if a > 0 { XorSelf(Half(a)); }
  }

  /** Every packet but an accepted jump is answered, and the answer ends with its only possible stop. */
  lemma ReplyShape(mem: Bytes, p: seq<Byte>)
    requires |p| == 10
    ensures var o := OnPacket(mem, p);
      if o.jump.Some? then o.reply == [] && o.mem == mem
      else
        || o.reply == [PROC]
        || (o.mem == mem && |o.reply| == 3 && o.reply[2] == PROC && (o.reply[0] == 0x88 || (o.reply[0] == 0 && o.reply[1] != PROC)))
  {
  }

  // ----- the device -----

  class Board {
    var mem: Bytes
    const packet: array<Byte>
    var pidx: nat
    var jumped: Option<nat>

    constructor (mem: Bytes)
      ensures Valid() && fresh(packet) && pidx == 0 && this.mem == mem && jumped == None
    {
      this.mem := mem;
      packet := new Byte[10](_ => 0);
      pidx := 0;
      jumped := None;
    }

    ghost predicate Valid()
      reads this
    {
      packet.Length == 10 && pidx < 10
    }

    /** One turn of the loop in bootloader_main. */
    method Receive(b: Byte) returns (reply: seq<Byte>)
      requires Valid() && jumped == None
      modifies this`mem, this`pidx, this`jumped, packet
      ensures Valid()
      ensures old(pidx) < 9 ==>
        && pidx == old(pidx) + 1 && packet[..pidx] == old(packet[..pidx]) + [b]
        && reply == [] && mem == old(mem) && jumped == None
      ensures old(pidx) == 9 ==> pidx == 0
      ensures old(pidx) == 9 ==> Outcome(mem, reply, jumped) == OnPacket(old(mem), old(packet[..9]) + [b])
    {
      packet[pidx] := b;
      pidx := pidx + 1;
      reply := [];
      if pidx == 10 {
        pidx := 0;
        ghost var p := packet[..];
        assert p == old(packet[..9]) + [b];
        assert packet[..9] == p[..9];
        var cs := RunningXor();
        if cs == packet[9] {
          var p1 := ReadAddress();
          if packet[0] == WRITE {
            StorePayload(p1);
          } else if packet[0] == JUMP {
            if packet[5] == 0xff {
              jumped := Some(p1);
              return;
            } else {
              reply := reply + [0];
              reply := reply + [1];
            }
          } else if packet[0] == READ {
            if packet[5] == 0xff {
              reply := reply + [0x88];
              reply := reply + [Load(mem, p1)];
            } else {
              reply := reply + [0];
              reply := reply + [2];
            }
          } else {
            reply := reply + [0];
            reply := reply + [3];
          }
        } else {
          reply := reply + [0];
          reply := reply + [4];
        }
        reply := reply + [PROC];
      }
    }

    method RunningXor() returns (cs: Byte)
      requires packet.Length == 10
      ensures cs == Checksum(packet[..9])
    {
      cs := 0;
      for i := 0 to 9
        invariant cs == Checksum(packet[..i])
      {
        assert packet[..i + 1][..i] == packet[..i];
        cs := XorBytes(cs, packet[i]);
      }
    }

    method ReadAddress() returns (p1: nat)
      requires packet.Length == 10
      ensures p1 == Decode(packet[1..5])
    {
      p1 := 0;
      var i := 4;
      while i >= 1
        invariant 0 <= i <= 4
        invariant i == 4 ==> p1 == 0
        invariant i == 3 ==> p1 == packet[4]
        invariant i == 2 ==> p1 == Join(packet[4], packet[3])
        invariant i == 1 ==> p1 == Join(Join(packet[4], packet[3]), packet[2])
        invariant i == 0 ==> p1 == Join(Join(Join(packet[4], packet[3]), packet[2]), packet[1])
      {
        p1 := p1 * 256;
        p1 := p1 + packet[i];
        i := i - 1;
      }
    }

    method StorePayload(p1: nat)
      requires packet.Length == 10
      modifies this`mem
      ensures mem == StoreBytes(old(mem), p1, packet[5..9])
    {
      for i := 0 to 4
        invariant StoreBytes(mem, p1 + i, packet[5 + i..9]) == StoreBytes(old(mem), p1, packet[5..9])
      {
        assert packet[5 + i..9][1..] == packet[5 + i + 1..9];
        mem := mem[(p1 + i) % WORD := packet[5 + i]];
      }
    }
  }
}
