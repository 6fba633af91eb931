/**
 * send_messages of src/mailbox.c: property tags are written into a block of the heap, the
 * firmware answers in place, and the values are copied back.
 */
module Mailbox {
  import opened Basics
  import opened Heap
  import M = SMemory

  // ----- tags -----

  const NULL_TAG: int := 0
  const GET_BOARD_MODEL: int := 0x00010001
  const GET_BOARD_REV: int := 0x00010002
  const GET_ARM_MEMORY: int := 0x00010005
  const GET_CLOCK_RATE: int := 0x00030002
  const FB_ALLOCATE_BUFFER: int := 0x00040001
  const FB_RELESE_BUFFER: int := 0x00048001
  const FB_GET_PHYSICAL_DIMENSIONS: int := 0x00040003
  const FB_SET_PHYSICAL_DIMENSIONS: int := 0x00048003
  const FB_GET_VIRTUAL_DIMENSIONS: int := 0x00040004
  const FB_SET_VIRTUAL_DIMENSIONS: int := 0x00048004
  const FB_GET_BITS_PER_PIXEL: int := 0x00040005
  const FB_SET_BITS_PER_PIXEL: int := 0x00048005
  const FB_GET_BYTES_PER_ROW: int := 0x00040008

  const REQUEST: int := 0
  const RESPONSE_SUCCESS: int := 0x8000_0000
  const RESPONSE_ERROR: int := 0x8000_0001
  const PROPERTY_CHANNEL: nat := 8

  /** property_message_tag_t: the union of value buffers is two words long. */
  datatype Tag = Tag(proptag: int, v0: int, v1: int)

  /** get_value_buffer_len, in bytes. */
  function ValueLen(proptag: int): (n: nat)
    ensures n == 0 || n == 4 || n == 8
  {
    if proptag == GET_ARM_MEMORY || proptag == GET_CLOCK_RATE || proptag == FB_ALLOCATE_BUFFER
      || proptag == FB_GET_PHYSICAL_DIMENSIONS || proptag == FB_SET_PHYSICAL_DIMENSIONS
      || proptag == FB_GET_VIRTUAL_DIMENSIONS || proptag == FB_SET_VIRTUAL_DIMENSIONS then 8
    else if proptag == GET_BOARD_MODEL || proptag == GET_BOARD_REV || proptag == FB_GET_BITS_PER_PIXEL
      || proptag == FB_SET_BITS_PER_PIXEL || proptag == FB_GET_BYTES_PER_ROW then 4
    else 0
  }

  /** The length of a tag's value in words. */
  function ValueWords(t: Tag): (n: nat)
    ensures n <= 2 && 4 * n == ValueLen(t.proptag)
  {
    ValueLen(t.proptag) / 4
  }

  /** The words of a tag's value that take part in the message. */
  function Values(t: Tag): (vs: seq<int>)
    ensures |vs| == ValueWords(t)
  {
    [t.v0, t.v1][..ValueWords(t)]
  }

  /** The position of the first null tag. */
  function CountFrom(ts: seq<Tag>, i: nat): (n: nat)
    requires i <= |ts| && exists k :: i <= k < |ts| && ts[k].proptag == NULL_TAG
    ensures i <= n < |ts| && ts[n].proptag == NULL_TAG
    ensures forall k :: i <= k < n ==> ts[k].proptag != NULL_TAG
    decreases |ts| - i
  {
    if ts[i].proptag == NULL_TAG then i else CountFrom(ts, i + 1)
  }

  predicate Terminated(ts: seq<Tag>) {
    exists k :: 0 <= k < |ts| && ts[k].proptag == NULL_TAG
  }

  /** The tags in front of the null tag. */
  function Listed(ts: seq<Tag>): (l: seq<Tag>)
    requires Terminated(ts)
    ensures |l| < |ts| && forall i :: 0 <= i < |l| ==> l[i] == ts[i] && l[i].proptag != NULL_TAG
    ensures ts[|l|].proptag == NULL_TAG
  {
    ts[..CountFrom(ts, 0)]
  }

  // ----- the message -----

  function TagWords(t: Tag): (ws: seq<int>)
    ensures |ws| == 3 + ValueWords(t)
  {
    [t.proptag, ValueLen(t.proptag), 0] + Values(t)
  }

  function EncodeTags(l: seq<Tag>): seq<int> {
    if l == [] then [] else EncodeTags(l[..|l| - 1]) + TagWords(l[|l| - 1])
  }

  /** Bytes for the tags alone. */
  function TagBytes(l: seq<Tag>): nat {
    if l == [] then 0 else TagBytes(l[..|l| - 1]) + ValueLen(l[|l| - 1].proptag) + 12
  }

  function RoundUp16(n: nat): nat {
    if n % 16 == 0 then n else n + (16 - n % 16)
  }

  /** The size of the buffer in bytes, with header, end tag and padding. */
  function BufferSize(l: seq<Tag>): nat {
    RoundUp16(TagBytes(l) + 12)
  }

  /** The words that are written; what is left up to the buffer size is padding. */
  function Message(l: seq<Tag>): seq<int> {
    [BufferSize(l), REQUEST] + EncodeTags(l) + [NULL_TAG]
  }

  /** The position of the words of tag i, counted from the first tag. */
  function Offset(l: seq<Tag>, i: nat): nat
    requires i <= |l|
  {
    |EncodeTags(l[..i])|
  }

  // ----- a reader of the tag format -----

  datatype Parsed = Parsed(proptag: int, code: int, values: seq<int>)

  /** The number of words of the tag in front, if its length field is sound. */
  function ReadLength(ws: seq<int>): (r: Option<nat>)
    ensures r.Some? ==> 3 <= r.value <= |ws|
  {
    if |ws| < 3 || ws[1] < 0 || ws[1] % 4 != 0 || 3 + ws[1] / 4 > |ws| then None
    else Some(3 + ws[1] / 4)
  }

  /** Tags until the end tag: identifier, length of the value in bytes, code, value. */
  function Parse(ws: seq<int>): Option<seq<Parsed>>
    decreases |ws|
  {
    if ws == [] then None
    else if ws[0] == NULL_TAG then Some([])
    else
      var n := ReadLength(ws);
      if n.None? then None else
        var rest := Parse(ws[n.value..]);
        if rest.None? then None else Some([Parsed(ws[0], ws[2], ws[3..n.value])] + rest.value)
  }

  function AsParsed(l: seq<Tag>): (ps: seq<Parsed>)
    ensures |ps| == |l|
  {
    seq(|l|, i requires 0 <= i < |l| => Parsed(l[i].proptag, 0, Values(l[i])))
  }

  lemma Joined(a: seq<int>, b: seq<int>, c: seq<int>)
    ensures (a + b) + c == a + (b + c)
  {
  }

  lemma {:induction false} EncodeFront(t: Tag, l: seq<Tag>)
    ensures EncodeTags([t] + l) == TagWords(t) + EncodeTags(l)
    decreases |l|
  {
    hide ValueLen, Values, TagWords;
    if l == [] {
      assert [t] + l == [t] && [t][..0] == [];
    } else {
      var m := [t] + l;
      assert m[..|m| - 1] == [t] + l[..|l| - 1];
      EncodeFront(t, l[..|l| - 1]);
      Joined(TagWords(t), EncodeTags(l[..|l| - 1]), TagWords(l[|l| - 1]));
    }
  }

  lemma EncodeNone()
    ensures EncodeTags([]) == []
  {
  }

  lemma {:induction false} EncodedLength(l: seq<Tag>)
    ensures 4 * |EncodeTags(l)| == TagBytes(l)
  {
    hide ValueLen, Values, TagWords, ValueWords;
    if l != [] { EncodedLength(l[..|l| - 1]); }
  }

  lemma ReadLengthOfTag(t: Tag, rest: seq<int>)
    ensures ReadLength(TagWords(t) + rest) == Some(3 + ValueWords(t))
    ensures (TagWords(t) + rest)[3..3 + ValueWords(t)] == Values(t)
  {
  }

  lemma {:induction false} ParseEncoded(l: seq<Tag>, padding: seq<int>)
    requires forall i :: 0 <= i < |l| ==> l[i].proptag != NULL_TAG
    ensures Parse(EncodeTags(l) + [NULL_TAG] + padding) == Some(AsParsed(l))
    decreases |l|
  {
    hide ValueLen, ValueWords, Values, ReadLength, EncodeTags;
    if l == [] {
      EncodeNone();
    } else {
      var rest := EncodeTags(l[1..]) + [NULL_TAG] + padding;
      assert l == [l[0]] + l[1..];
      EncodeFront(l[0], l[1..]);
      ReadLengthOfTag(l[0], rest);
      var ws := TagWords(l[0]) + rest;
      assert EncodeTags(l) + [NULL_TAG] + padding == ws;
      assert ws[|TagWords(l[0])|..] == rest;
      ParseEncoded(l[1..], padding);
      assert AsParsed(l) == [Parsed(l[0].proptag, 0, Values(l[0]))] + AsParsed(l[1..]);
    }
  }

  /** Whatever the padding holds, a reader of the buffer gets exactly the tags and their values. */
  lemma MessageParses(l: seq<Tag>, padding: seq<int>)
    requires forall i :: 0 <= i < |l| ==> l[i].proptag != NULL_TAG
    ensures Parse((Message(l) + padding)[2..]) == Some(AsParsed(l))
    ensures 4 * |Message(l)| == TagBytes(l) + 12 <= BufferSize(l) < TagBytes(l) + 28 && BufferSize(l) % 16 == 0
  {
    assert (Message(l) + padding)[2..] == EncodeTags(l) + [NULL_TAG] + padding;
    ParseEncoded(l, padding);
    EncodedLength(l);
    RoundsUp(TagBytes(l) + 12);
  }

  lemma RoundsUp(n: nat)
    ensures n <= RoundUp16(n) < n + 16 && RoundUp16(n) % 16 == 0
  {
  }

  // ----- the answer -----

  /** A tag after its value words have been replaced by those at position p of the tag area. */
  function Answered(t: Tag, area: seq<int>, p: nat): Tag
    requires p + 3 + ValueWords(t) <= |area|
  {
    var n := ValueLen(t.proptag);
    if n == 8 then Tag(t.proptag, area[p + 3], area[p + 4])
    else if n == 4 then Tag(t.proptag, area[p + 3], t.v1)
    else t
  }

  /** The words of tag i lie at its offset. */
  lemma {:induction false} OffsetsFit(l: seq<Tag>, i: nat)
    requires i < |l|
    ensures Offset(l, i + 1) == Offset(l, i) + 3 + ValueWords(l[i]) <= |EncodeTags(l)|
    ensures EncodeTags(l)[Offset(l, i)..Offset(l, i + 1)] == TagWords(l[i])
    decreases |l|
  {
    hide ValueLen, ValueWords, Values, TagWords;
    var f := l[..|l| - 1];
    if i < |f| {
      assert f[..i] == l[..i] && f[..i + 1] == l[..i + 1];
      OffsetsFit(f, i);
    } else {
      assert l[..i + 1] == l && l[..i] == f;
    }
  }

  /** The words of every listed tag lie inside the area. */
  ghost predicate Covers(l: seq<Tag>, area: seq<int>) {
    forall i :: 0 <= i < |l| ==> Offset(l, i) + 3 + ValueWords(l[i]) <= |area|
  }

  lemma LongEnough(l: seq<Tag>, area: seq<int>)
    requires |EncodeTags(l)| <= |area|
    ensures Covers(l, area)
  {
    hide ValueWords, EncodeTags;
    forall i | 0 <= i < |l|
      ensures Offset(l, i) + 3 + ValueWords(l[i]) <= |area|
    {
      OffsetsFit(l, i);
    }
  }

  /** The tags after a successful answer; `area` is the buffer from the first tag on. */
  ghost function Answer(l: seq<Tag>, area: seq<int>): (r: seq<Tag>)
    requires Covers(l, area)
    ensures |r| == |l|
    ensures forall i :: 0 <= i < |l| ==> r[i] == Answered(l[i], area, Offset(l, i))
  {
    seq(|l|, i requires 0 <= i < |l| && Covers(l, area) => Answered(l[i], area, Offset(l, i)))
  }

  lemma EchoedTag(t: Tag, area: seq<int>, p: nat)
    requires p + 3 + ValueWords(t) <= |area| && area[p..p + 3 + ValueWords(t)] == TagWords(t)
    ensures Answered(t, area, p) == t
  {
    var ws := area[p..p + 3 + ValueWords(t)];
    if ValueWords(t) >= 1 {
      assert ws[3] == area[p + 3] && TagWords(t)[3] == Values(t)[0];
    }
    if ValueWords(t) == 2 {
      assert ws[4] == area[p + 4] && TagWords(t)[4] == Values(t)[1];
    }
  }

  /** A firmware that leaves the tag area alone changes nothing at all. */
  lemma EchoKeepsTags(l: seq<Tag>, area: seq<int>)
    requires EncodeTags(l) <= area
    ensures Covers(l, area) && Answer(l, area) == l
  {
    hide ValueWords, TagWords, Answered, EncodeTags;
    LongEnough(l, area);
    forall i | 0 <= i < |l|
      ensures Answer(l, area)[i] == l[i]
    {
      OffsetsFit(l, i);
      var p := Offset(l, i);
      var q := Offset(l, i + 1);
      assert area[..|EncodeTags(l)|] == EncodeTags(l);
      assert area[p..q] == EncodeTags(l)[p..q];
      EchoedTag(l[i], area, p);
    }
  }

  /** What the code returns for a response code. */
  function ReturnCode(code: int): int {
    if code == REQUEST then 1
    else if code == RESPONSE_ERROR then 2
    else if code == RESPONSE_SUCCESS then 0
    else -1
  }

  // ----- the mail word -----

  /** Bitwise or of two words. */
  function BitOr(a: nat, b: nat): nat {
    if a == 0 && b == 0 then 0
    else (if a % 2 == 1 || b % 2 == 1 then 1 else 0) + 2 * BitOr(a / 2, b / 2)
  }

  lemma {:induction false} BitOrZero(a: nat)
    ensures BitOr(a, 0) == a
  {
    if a > 0 { BitOrZero(a / 2); }
  }

  /** Where one word has its low bits clear and the other has only low bits, or is plus. */
  lemma {:induction false} BitOrAdds(m: nat, c: nat, p: nat)
    requires p == 1 || p == 2 || p == 4 || p == 8 || p == 16
    requires c < p
    ensures BitOr(p * m, c) == p * m + c
  {
    if p == 1 {
      BitOrZero(m);
    } else {
      var h := p / 2;
      BitOrAdds(m, c / 2, h);
      Halves(p, h, m, c);
    }
  }

  lemma Halves(p: nat, h: nat, m: nat, c: nat)
    requires p == 2 * h
    ensures (p * m) % 2 == 0 && p * m / 2 == h * m
  {
    assert p * m == 2 * (h * m);
  }

  /** The mail word: the pointer with the channel in its four low bits. */
  function MailWord(msg: nat, channel: nat): nat {
    BitOr(msg, channel)
  }

  lemma MailWordSplits(msg: nat, channel: nat)
    requires Aligned(msg) && channel < 16
    ensures MailWord(msg, channel) % 16 == channel
    ensures MailWord(msg, channel) - channel == msg
  {
    hide BitOr;
    var m := msg / 16;
    assert msg == 16 * m;
    BitOrAdds(m, channel, 16);
    LowBits(m, channel);
  }

  lemma LowBits(m: nat, c: nat)
    requires c < 16
    ensures (16 * m + c) % 16 == c
  {
  }

  /** The list that framebuffer_init sends while the kernel starts. */
  const FRAMEBUFFER_TAGS: seq<Tag> := [
    Tag(FB_SET_PHYSICAL_DIMENSIONS, 656, 416), Tag(FB_SET_VIRTUAL_DIMENSIONS, 656, 416),
    Tag(FB_SET_BITS_PER_PIXEL, 24, 0), Tag(FB_ALLOCATE_BUFFER, 16, 0)]

  lemma FramebufferSize()
    ensures BufferSize(FRAMEBUFFER_TAGS) == 96
  {
    var l := FRAMEBUFFER_TAGS;
    assert l[..3][..2] == l[..2] && l[..2][..1] == l[..1];
    assert TagBytes(l[..1]) == 20;
    assert TagBytes(l[..2]) == 40;
    assert TagBytes(l[..3]) == 56;
    assert TagBytes(l) == 76;
  }

  // ----- the code -----

  type Firmware = f: seq<int> -> seq<int> | forall ws :: |f(ws)| == |ws| witness ws => ws

  /** The first loop of send_messages and the rounding after it. */
  method MeasureTags(tags: array<Tag>) returns (bufsize: nat)
    requires Terminated(tags[..])
    ensures bufsize == BufferSize(Listed(tags[..]))
  {
    hide ValueLen;
    ghost var l := Listed(tags[..]);
    bufsize := 0;
    var i := 0;
    while tags[i].proptag != NULL_TAG
      invariant i <= |l| && bufsize == TagBytes(l[..i])
      decreases |l| - i
    {
      assert l[..i + 1][..i] == l[..i];
      bufsize := bufsize + ValueLen(tags[i].proptag) + 12;
      i := i + 1;
    }
    assert l[..i] == l;
    bufsize := bufsize + 12;
    bufsize := bufsize + if bufsize % 16 != 0 then 16 - bufsize % 16 else 0;
  }

  /** The words at p are ws, and all others are as in `was`. */
  ghost predicate Wrote(mem: seq<int>, was: seq<int>, p: nat, ws: seq<int>) {
    && p + |ws| <= |was|
    && mem == was[..p] + ws + was[p + |ws|..]
  }

  /** mcpy onto word-aligned memory. */
  method Mcpy(mem: array<int>, dest: nat, values: seq<int>)
    requires dest + |values| <= mem.Length
    modifies mem
    ensures Wrote(mem[..], old(mem[..]), dest, values)
  {
    var i := 0;
    while i < |values|
      invariant i <= |values|
      invariant mem[..] == old(mem[..dest]) + values[..i] + old(mem[dest + i..])
    {
      mem[dest + i] := values[i];
      i := i + 1;
    }
  }

  /** One pass of the encoding loop. */
  method WriteTag(mem: array<int>, dest: nat, t: Tag)
    requires dest + 3 + ValueWords(t) <= mem.Length
    modifies mem
    ensures Wrote(mem[..], old(mem[..]), dest, TagWords(t))
  {
    hide ValueLen, Values, ValueWords, Wrote, TagWords;
    ghost var m0 := mem[..];
    mem[dest] := t.proptag;
    mem[dest + 1] := ValueLen(t.proptag);
    mem[dest + 2] := 0;
    ghost var m1 := mem[..];
    ThreeWrote(m0, dest, t.proptag, ValueLen(t.proptag), 0);
    Mcpy(mem, dest + 3, Values(t));
    WroteMore(m1, mem[..], m0, dest, [t.proptag, ValueLen(t.proptag), 0], Values(t));
    TagParts(t);
  }

  lemma TagParts(t: Tag)
    ensures TagWords(t) == [t.proptag, ValueLen(t.proptag), 0] + Values(t)
  {
  }

  lemma ThreeWrote(was: seq<int>, p: nat, a: int, b: int, c: int)
    requires p + 3 <= |was|
    ensures Wrote(was[p := a][p + 1 := b][p + 2 := c], was, p, [a, b, c])
  {
  }

  lemma NothingWrote(was: seq<int>, p: nat)
    requires p <= |was|
    ensures Wrote(was, was, p, [])
  {
  }

  lemma WroteMore(mem: seq<int>, after: seq<int>, was: seq<int>, p: nat, ws: seq<int>, more: seq<int>)
    requires Wrote(mem, was, p, ws) && p + |ws| + |more| <= |was|
    requires Wrote(after, mem, p + |ws|, more)
    ensures Wrote(after, was, p, ws + more)
  {
  }

  lemma OneTagMore(l: seq<Tag>, i: nat)
    requires i < |l|
    ensures EncodeTags(l[..i + 1]) == EncodeTags(l[..i]) + TagWords(l[i])
    ensures |EncodeTags(l[..i + 1])| <= |EncodeTags(l)|
  {
    hide ValueLen, ValueWords, Values, TagWords;
    assert l[..i + 1][..i] == l[..i];
    OffsetsFit(l, i);
  }

  /** The encoding loop; the result is the position behind the last tag. */
  method WriteTags(mem: array<int>, p: nat, tags: array<Tag>) returns (end: nat)
    requires Terminated(tags[..]) && p + |EncodeTags(Listed(tags[..]))| <= mem.Length
    modifies mem
    ensures Wrote(mem[..], old(mem[..]), p, EncodeTags(Listed(tags[..])))
    ensures end == p + |EncodeTags(Listed(tags[..]))|
  {
    hide ValueLen, ValueWords, Values, TagWords, EncodeTags, Wrote;
    ghost var l := Listed(tags[..]);
    ghost var was := mem[..];
    var i, bufpos := 0, 0;
    EncodeNone();
    assert l[..0] == [];
    NothingWrote(was, p);
    while tags[i].proptag != NULL_TAG
      invariant i <= |l| && bufpos == |EncodeTags(l[..i])| <= |EncodeTags(l)|
      invariant Wrote(mem[..], was, p, EncodeTags(l[..i]))
      decreases |l| - i
    {
      ghost var before := mem[..];
      OneTagMore(l, i);
      WriteTag(mem, p + bufpos, tags[i]);
      WroteMore(before, mem[..], was, p, EncodeTags(l[..i]), TagWords(l[i]));
      bufpos := bufpos + 3 + ValueLen(tags[i].proptag) / 4;
      i := i + 1;
    }
    assert l[..i] == l;
    end := p + bufpos;
  }

  lemma MessageParts(l: seq<Tag>)
    ensures Message(l) == [BufferSize(l), REQUEST] + EncodeTags(l) + [NULL_TAG]
    ensures |Message(l)| == 3 + |EncodeTags(l)|
  {
  }

  /** The size, the code, the tags and the end tag. */
  method FillMessage(mem: array<int>, p: nat, tags: array<Tag>, bufsize: nat)
    requires Terminated(tags[..]) && bufsize == BufferSize(Listed(tags[..]))
    requires p + |Message(Listed(tags[..]))| <= mem.Length
    modifies mem
    ensures Wrote(mem[..], old(mem[..]), p, Message(Listed(tags[..])))
  {
    hide EncodeTags, Wrote, BufferSize, Listed, Terminated, Message;
    ghost var l := Listed(tags[..]);
    ghost var e := EncodeTags(l);
    ghost var m0 := mem[..];
    MessageParts(l);
    mem[p] := bufsize;
    mem[p + 1] := REQUEST;
    ghost var m1 := mem[..];
    var end := WriteTags(mem, p + 2, tags);
    ghost var m2 := mem[..];
    mem[end] := 0;
    Assembled(m0, m1, m2, mem[..], p, bufsize, e);
  }

  lemma Assembled(m0: seq<int>, m1: seq<int>, m2: seq<int>, m3: seq<int>, p: nat, bufsize: nat, e: seq<int>)
    requires p + 3 + |e| <= |m0| && m1 == m0[p := bufsize][p + 1 := REQUEST]
    requires Wrote(m2, m1, p + 2, e) && |m2| == |m0| && m3 == m2[p + 2 + |e| := NULL_TAG]
    ensures Wrote(m3, m0, p, [bufsize, REQUEST] + e + [NULL_TAG])
  {
  }

  lemma SameLength(f: Firmware, ws: seq<int>)
    ensures |f(ws)| == |ws|
  {
  }

  /**
   * The other end of the mailbox, given the mail word of channel 8, which is the one for
   * property messages: it finds the buffer at the pointer part of the word, reads its size there, and may write anything inside.
   */
  method Exchange(mem: array<int>, mail: nat, firmware: Firmware, ghost p: nat, ghost request: seq<int>)
    requires mail % 16 == 8
    requires p == mail / 16 * 4 && |request| > 0 && request[0] >= 0 && |request| == request[0] / 4
    requires p + |request| <= mem.Length && mem[p..p + |request|] == request
    modifies mem
    ensures Wrote(mem[..], old(mem[..]), p, firmware(request))
  {
    hide Wrote;
    var at := mail / 16 * 4;
    assert mem[at] == mem[p..p + |request|][0];
    var n := mem[at] / 4;
    var asked := mem[at..at + n];
    assert asked == request;
    var answer := firmware(asked);
    SameLength(firmware, request);
    Mcpy(mem, at, answer);
  }

  /**
   * The copying loop after a successful answer; p is the position of the first tag word and
   * `area` the buffer from there on.
   */
  method CopyBack(mem: array<int>, p: nat, tags: array<Tag>, ghost area: seq<int>)
    requires Terminated(tags[..]) && p + |area| <= mem.Length && area == mem[p..p + |area|]
    requires |EncodeTags(Listed(tags[..]))| <= |area|
    modifies tags
    ensures
      var l := old(Listed(tags[..]));
      Covers(l, area) && tags[..] == Answer(l, area) + old(tags[..])[|l|..]
  {
    hide ValueWords, TagWords, EncodeTags, ValueLen, Values;
    ghost var l := Listed(tags[..]);
    ghost var was := tags[..];
    LongEnough(l, area);
    EncodeNone();
    var i, bufpos := 0, 0;
    assert l[..0] == [];
    while tags[i].proptag != NULL_TAG
      invariant i <= |l| && bufpos == Offset(l, i)
      invariant forall j :: 0 <= j < i ==> tags[j] == Answer(l, area)[j]
      invariant forall j :: i <= j < |was| ==> tags[j] == was[j]
      decreases |l| - i
    {
      OffsetsFit(l, i);
      var len := ValueLen(tags[i].proptag);
      bufpos := bufpos + 3;
      if len == 8 {
        tags[i] := Tag(tags[i].proptag, mem[p + bufpos], mem[p + bufpos + 1]);
      } else if len == 4 {
        tags[i] := tags[i].(v0 := mem[p + bufpos]);
      }
      bufpos := bufpos + len / 4;
      i := i + 1;
    }
  }

  /** Where the buffer of n words at msg lies: inside the payload of block k, hence inside memory. */
  lemma BufferInside(heap: M.Memory, k: nat, bufsize: nat)
    requires heap.Valid() && k < |heap.blocks| && bufsize <= heap.blocks[k].size && bufsize % 16 == 0
    ensures 4 * (heap.blocks[k].Payload() / 4) == heap.blocks[k].Payload()
    ensures heap.blocks[k].Payload() / 4 + bufsize / 4 <= heap.mem.Length
    ensures Aligned(heap.blocks[k].Payload())
  {
    hide HeapInv, Aligned, M.Spells;
    BlockFacts(heap.blocks, k, heap.base, heap.total);
    AlignedPayload(heap.blocks[k]);
    AlignedDivides(heap.blocks[k].Payload());
  }

  /** Fill the buffer, post the mail word and wait for the answer. */
  method Transact(heap: M.Memory, msg: nat, bufsize: nat, tags: array<Tag>, firmware: Firmware, ghost k: nat)
    returns (ghost request: seq<int>)
    requires heap.Valid() && k < |heap.blocks| && heap.blocks[k].Payload() == msg
    requires Terminated(tags[..]) && bufsize == BufferSize(Listed(tags[..])) <= heap.blocks[k].size
    modifies heap.mem
    ensures heap.Valid() && heap.blocks[k].Payload() == msg
    ensures |request| == bufsize / 4 && Message(Listed(tags[..])) <= request
    ensures msg / 4 + |request| <= heap.mem.Length
    ensures heap.mem[msg / 4..msg / 4 + |request|] == firmware(request)
    ensures forall w :: 0 <= w < heap.mem.Length && !(msg <= 4 * w < msg + bufsize) ==> heap.mem[w] == old(heap.mem[w])
  {
    hide HeapInv, Aligned, M.Spells, Message, BufferSize, Listed, Terminated, Wrote, MailWord;
    ghost var l := Listed(tags[..]);
    ghost var p, n := msg / 4, bufsize / 4;
    ghost var m0 := heap.mem[..];
    BufferSizeFits(l);
    BufferInside(heap, k, bufsize);
    FillMessage(heap.mem, msg / 4, tags, bufsize);
    ghost var m1 := heap.mem[..];
    Filled(m0, m1, p, l, n);
    request := m1[p..p + n];
    var mail := MailWord(msg, PROPERTY_CHANNEL);
    MailWordSplits(msg, PROPERTY_CHANNEL);
    MailWordFinds(msg, PROPERTY_CHANNEL, mail);
    Exchange(heap.mem, mail, firmware, p, request);
    ghost var m2 := heap.mem[..];
    WroteAt(m1, m2, p, firmware(request));
    BufferWords(msg, bufsize);
    M.PayloadWritesKeepSpelling(m0, m2, heap.blockListHead, heap.blocks, k, heap.base, heap.total);
  }

  /** The bytes of the buffer are the bytes of its words. */
  lemma BufferWords(msg: nat, bufsize: nat)
    requires msg == 4 * (msg / 4) && bufsize == 4 * (bufsize / 4)
    ensures forall w: int :: msg <= 4 * w < msg + bufsize <==> msg / 4 <= w < msg / 4 + bufsize / 4
  {
  }

  lemma Filled(m0: seq<int>, m1: seq<int>, p: nat, l: seq<Tag>, n: nat)
    requires Wrote(m1, m0, p, Message(l)) && p + n <= |m0| && |Message(l)| <= n
    ensures |m1| == |m0| && n > 0 && m1[p..p + n][0] == BufferSize(l) && Message(l) <= m1[p..p + n]
    ensures forall w :: 0 <= w < |m0| && !(p <= w < p + n) ==> m1[w] == m0[w]
  {
  }

  lemma WroteAt(m1: seq<int>, m2: seq<int>, p: nat, ws: seq<int>)
    requires Wrote(m2, m1, p, ws)
    ensures |m2| == |m1| && m2[p..p + |ws|] == ws
    ensures forall w :: 0 <= w < |m1| && !(p <= w < p + |ws|) ==> m2[w] == m1[w]
  {
  }

  lemma MailWordFinds(msg: nat, channel: nat, mail: nat)
    requires Aligned(msg) && channel < 16 && mail == msg + channel
    ensures mail / 16 * 4 == msg / 4
  {
  }

  lemma BufferSizeFits(l: seq<Tag>)
    ensures BufferSize(l) % 16 == 0 && 4 * |Message(l)| <= BufferSize(l) == 4 * (BufferSize(l) / 4)
  {
    EncodedLength(l);
    RoundsUp(TagBytes(l) + 12);
    AlignedDivides(BufferSize(l));
  }

  lemma AllocFails(bs: seq<Block>, size: nat)
    requires AllocPtr(bs, size) == 0
    ensures AllocBlocks(bs, size) == bs && Borrowed(bs, size) == bs
  {
  }

  /** The buffer and the header in front of it lie where block i was free. */
  lemma InsideFree(bs: seq<Block>, i: nat, msg: nat, bufsize: nat, base: nat, total: nat)
    requires HeapInv(bs, base, total) && i < |bs| && bs[i].free && bs[i].Payload() == msg && bufsize <= bs[i].size
    ensures M.InFreeBlock(bs, (msg - HEADER) / 4)
    ensures forall w: int :: msg <= 4 * w < msg + bufsize ==> M.InFreeBlock(bs, w)
  {
    hide HeapInv, Aligned;
    BlockFacts(bs, i, base, total);
  }

  /** The first two words of a request. */
  lemma RequestHead(l: seq<Tag>, request: seq<int>)
    requires Message(l) <= request && |request| == BufferSize(l) / 4
    ensures |request| >= 3 && request[0] == 4 * |request| && request[1] == 0
  {
    hide EncodeTags, BufferSize;
    BufferSizeFits(l);
  }

  lemma MessageLong(l: seq<Tag>, request: seq<int>)
    requires Message(l) <= request
    ensures |EncodeTags(l)| + 2 <= |request|
  {
  }

  /**
   * The result for answer `resp`, and with it the tag array: values change only on success,
   * and then each tag takes the words at the offset it was written at.
   */
  ghost predicate Outcome(was: seq<Tag>, now: seq<Tag>, r: int, resp: seq<int>)
    requires Terminated(was)
  {
    var l := Listed(was);
    && |resp| >= 2
    && r == ReturnCode(resp[1])
    && if resp[1] == RESPONSE_SUCCESS
       then Covers(l, resp[2..]) && now == Answer(l, resp[2..]) + was[|l|..]
       else now == was
  }

  /** Whatever the answer, the list keeps its identifiers and so its end. */
  lemma OutcomeKeepsList(was: seq<Tag>, now: seq<Tag>, r: int, resp: seq<int>)
    requires Terminated(was) && Outcome(was, now, r, resp)
    ensures |now| == |was| && forall i :: 0 <= i < |was| ==> now[i].proptag == was[i].proptag
    ensures Terminated(now) && |Listed(now)| == |Listed(was)|
    ensures r != 0 ==> now == was
  {
  }

  /** A firmware that only reports success gives the list back as it was. */
  lemma EchoRestores(was: seq<Tag>, now: seq<Tag>, r: int, resp: seq<int>)
    requires Terminated(was) && Outcome(was, now, r, resp)
    requires resp[1] == RESPONSE_SUCCESS && EncodeTags(Listed(was)) <= resp[2..]
    ensures r == 0 && now == was
  {
    hide EncodeTags, Answer;
    EchoKeepsTags(Listed(was), resp[2..]);
    assert was == Listed(was) + was[|Listed(was)|..];
  }

  /** The result in numbers: whatever the answer, it is this one. */
  lemma ResultIs(was: seq<Tag>, now: seq<Tag>, r: int, resp: seq<int>)
    requires Terminated(was) && Outcome(was, now, r, resp)
    ensures r == 1 <==> resp[1] == 0
    ensures r == 2 <==> resp[1] == 0x8000_0001
    ensures r == 0 <==> resp[1] == 0x8000_0000
    ensures r == 0 || r == 1 || r == 2 || r == -1
  {
  }

  /** The tags whose member of the value union has two words, one word, and the others none. */
  predicate TwoWords(proptag: int) {
    proptag in {0x00010005, 0x00030002, 0x00040001, 0x00040003, 0x00048003, 0x00040004, 0x00048004}
  }

  predicate OneWord(proptag: int) {
    proptag in {0x00010001, 0x00010002, 0x00040005, 0x00048005, 0x00040008}
  }

  lemma LengthTable(proptag: int)
    ensures ValueLen(proptag) == (if TwoWords(proptag) then 8 else if OneWord(proptag) then 4 else 0)
    ensures !(TwoWords(proptag) && OneWord(proptag))
  {
  }

  /** What a tag brings along in the message: its header of three words and its value. */
  function WordsTaken(proptag: int): nat {
    if TwoWords(proptag) then 5 else if OneWord(proptag) then 4 else 3
  }

  /** After success each tag has taken the words behind its own header, as many as its value has. */
  lemma TagTakes(was: seq<Tag>, now: seq<Tag>, r: int, resp: seq<int>, i: nat)
    requires Terminated(was) && Outcome(was, now, r, resp) && resp[1] == 0x8000_0000 && i < |Listed(was)|
    ensures var l := Listed(was);
      var at := 2 + Offset(l, i);
      && Offset(l, 0) == 0 && Offset(l, i + 1) == Offset(l, i) + WordsTaken(was[i].proptag)
      && i < |now| && at + WordsTaken(was[i].proptag) <= |resp|
      && (TwoWords(was[i].proptag) ==> now[i] == Tag(was[i].proptag, resp[at + 3], resp[at + 4]))
      && (OneWord(was[i].proptag) ==> now[i] == Tag(was[i].proptag, resp[at + 3], was[i].v1))
      && (!TwoWords(was[i].proptag) && !OneWord(was[i].proptag) ==> now[i] == was[i])
  {
    hide ValueLen, EncodeTags, TwoWords, OneWord;
    var l := Listed(was);
    LengthTable(was[i].proptag);
    OffsetsFit(l, i);
    EncodeNone();
    assert l[..0] == [];
    assert now[i] == Answer(l, resp[2..])[i] == Answered(l[i], resp[2..], Offset(l, i));
  }

  /** A list of one tag, as get_system_config sends it four times. */
  lemma OneTagAnswered(was: seq<Tag>, now: seq<Tag>, r: int, resp: seq<int>)
    requires |was| >= 2 && was[0].proptag != 0 && was[1].proptag == 0
    requires Outcome(was, now, r, resp) && resp[1] == 0x8000_0000
    ensures r == 0 && |now| == |was|
    ensures was[0].proptag in {0x00010005, 0x00030002, 0x00040003} ==>
      |resp| >= 7 && now[0].v0 == resp[5] && now[0].v1 == resp[6]
    ensures was[0].proptag == 0x00010002 ==> |resp| >= 6 && now[0].v0 == resp[5] && now[0].v1 == was[0].v1
  {
    hide EncodeTags, ValueLen, Answer;
    OutcomeKeepsList(was, now, r, resp);
    TagTakes(was, now, r, resp, 0);
  }

  /** The list of framebuffer_init: the words that become width, height, address and size of the buffer. */
  lemma FramebufferAnswered(was: seq<Tag>, now: seq<Tag>, r: int, resp: seq<int>)
    requires |was| >= 5 && was[..4] == FRAMEBUFFER_TAGS && was[4].proptag == 0
    requires Outcome(was, now, r, resp) && resp[1] == 0x8000_0000
    ensures r == 0 && |now| == |was| && |resp| >= 21
    ensures now[0] == Tag(0x00048003, resp[5], resp[6]) && now[1] == Tag(0x00048004, resp[10], resp[11])
    ensures now[2] == Tag(0x00048005, resp[15], 0) && now[3] == Tag(0x00040001, resp[19], resp[20])
  {
    hide EncodeTags, ValueLen, Answer, Outcome;
    assert forall i :: 0 <= i < 4 ==> was[i] == was[..4][i] == FRAMEBUFFER_TAGS[i];
    assert |Listed(was)| == 4;
    AnsweredLength(was, now, r, resp);
    TagTakes(was, now, r, resp, 0);
    TagTakes(was, now, r, resp, 1);
    TagTakes(was, now, r, resp, 2);
    TagTakes(was, now, r, resp, 3);
    ResultIs(was, now, r, resp);
  }

  lemma AnsweredLength(was: seq<Tag>, now: seq<Tag>, r: int, resp: seq<int>)
    requires Terminated(was) && Outcome(was, now, r, resp)
    ensures |now| == |was| && |resp| >= 2
  {
    hide EncodeTags, ValueLen;
  }

  /** Act on the response code; every path frees the buffer. */
  method Finish(heap: M.Memory, msg: nat, tags: array<Tag>, ghost resp: seq<int>) returns (r: int)
    requires heap.Valid() && Owns(heap.blocks, msg) && msg > 0 && Terminated(tags[..])
    requires msg / 4 + |resp| <= heap.mem.Length && resp == heap.mem[msg / 4..msg / 4 + |resp|]
    requires |EncodeTags(Listed(tags[..]))| + 2 <= |resp|
    modifies heap`blocks, heap.mem, tags
    ensures heap.Valid() && heap.blocks == FreeBlocks(old(heap.blocks), msg)
    ensures Outcome(old(tags[..]), tags[..], r, resp)
    ensures forall w :: 0 <= w < heap.mem.Length && w != (msg - HEADER) / 4 ==> heap.mem[w] == old(heap.mem[w])
  {
    hide HeapInv, M.Spells, EncodeTags, Answered, ValueWords, ValueLen;
    var code := heap.mem[msg / 4 + 1];
    assert code == resp[1];
    if code == REQUEST {
      heap.Sfree(msg);
      return 1;
    }
    if code == RESPONSE_ERROR {
      heap.Sfree(msg);
      return 2;
    }
    if code == RESPONSE_SUCCESS {
      CopyBack(heap.mem, msg / 4 + 2, tags, resp[2..]);
      heap.Sfree(msg);
      return 0;
    } else {
      heap.Sfree(msg);
      return -1;
    }
  }

  /**
   * send_messages. Without a buffer the result is -1 and nothing has changed. Otherwise the
   * firmware received the encoded tags, and the outcome follows its answer. On every path the
   * live regions of the heap are those from before the call, and no word of theirs was written.
   */
  method SendMessages(heap: M.Memory, tags: array<Tag>, firmware: Firmware)
    returns (r: int, ghost request: seq<int>)
    requires heap.Valid() && Terminated(tags[..]) && BufferSize(Listed(tags[..])) < 0xFFFF_FFF0
    modifies heap`blockListHead, heap`blocks, heap.mem, heap.cpu, tags
    ensures heap.Valid() && Live(heap.blocks) == old(Live(heap.blocks))
    ensures heap.blocks == Borrowed(old(heap.blocks), old(BufferSize(Listed(tags[..]))))
    ensures old(AllocPtr(heap.blocks, BufferSize(Listed(tags[..])))) == 0 ==>
      r == -1 && tags[..] == old(tags[..]) && heap.mem[..] == old(heap.mem[..]) && heap.blocks == old(heap.blocks)
    ensures old(AllocPtr(heap.blocks, BufferSize(Listed(tags[..])))) != 0 ==>
      && |request| == old(BufferSize(Listed(tags[..]))) / 4
      && old(Message(Listed(tags[..]))) <= request
      && |request| >= 3 && request[0] == 4 * |request| && request[1] == 0
      && (r == 1 <==> firmware(request)[1] == 0)
      && (r == 2 <==> firmware(request)[1] == 0x8000_0001)
      && (r == 0 <==> firmware(request)[1] == 0x8000_0000)
      && (r == 0 || r == 1 || r == 2 || r == -1)
      && Outcome(old(tags[..]), tags[..], r, firmware(request))
    ensures forall w :: 0 <= w < heap.mem.Length && !M.InFreeBlock(old(heap.blocks), w) ==> heap.mem[w] == old(heap.mem[w])
  {
    hide HeapInv, Aligned, M.Spells, Message, BufferSize, Listed, Terminated, AllocBlocks, AllocPtr, Rounded,
      Live, M.InFreeBlock, Outcome, Arena, EncodeTags, IsLive, Owns, FreeBlocks;
    ghost var l := Listed(tags[..]);
    ghost var was := tags[..];
    ghost var bs := heap.blocks;
    var bufsize := MeasureTags(tags);
    var msg := heap.Salloc(bufsize);
    if msg == 0 {
      AllocFails(bs, bufsize);
      return -1, [];
    }
    ghost var i, k := AllocatedBlock(bs, bufsize);
    RoundedExceeds(bufsize);
    InsideFree(bs, i, msg, bufsize, heap.base, heap.total);
    request := Transact(heap, msg, bufsize, tags, firmware, k);
    AllocThenFree(bs, bufsize, heap.base, heap.total);
    MessageLong(l, request);
    RequestHead(l, request);
    r := Finish(heap, msg, tags, firmware(request));
    ResultIs(was, tags[..], r, firmware(request));
  }
}
