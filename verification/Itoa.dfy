/** itoa of src/stdlib.c: digits, sign, prefix and the reversal in its static buffer. */
module Itoa {
  import opened Basics

  const BUFFER: nat := 33
  const INT_MIN: int := -0x8000_0000
  const INT_MAX: int := 0x7fff_ffff

  predicate Base(base: nat) {
    2 <= base <= 36
  }

  function DigitChar(d: nat): char
    requires d < 36
  {
    if d < 10 then ('0' as int + d) as char else ('a' as int + d - 10) as char
  }

  /** The number whose digits are generated: negative numbers keep their sign in base 10 only. */
  function Magnitude(num: int, base: nat): nat
    requires INT_MIN <= num <= INT_MAX
  {
    if num >= 0 then num else if base == 10 then -num else num + WORD
  }

  function Quot(n: nat, base: nat): (q: nat)
    requires Base(base)
    ensures n > 0 ==> q < n
  {
    assert n > 0 ==> n / base < n by { if n > 0 { QuotientDrops(n, base); } }
    n / base
  }

  function Rem(n: nat, base: nat): (r: nat)
    requires Base(base)
    ensures r < base
  {
    n % base
  }

  lemma QuotRem(n: nat, base: nat)
    requires Base(base)
    ensures Quot(n, base) * base + Rem(n, base) == n
  {
  }

  lemma QuotientDrops(n: nat, base: nat)
    requires n > 0 && Base(base)
    ensures n / base < n
  {
  }

  /** Least significant digit first, as the loop produces them. */
  function Digits(n: nat, base: nat): seq<char>
    requires Base(base)
    decreases n
  {
    if n == 0 then [] else [DigitChar(Rem(n, base))] + Digits(Quot(n, base), base)
  }

  /** Sign and prefix, in the reversed order in which they are appended. */
  function Tail(num: int, base: nat): seq<char> {
    if base == 10 then (if num < 0 then ['-'] else [])
    else if base == 16 then ['x', '0']
    else if base == 8 then ['0']
    else if base == 2 then ['b', '0']
    else []
  }

  /** The contents of the buffer before the reversal. */
  function Raw(num: int, base: nat): seq<char>
    requires INT_MIN <= num <= INT_MAX && Base(base)
  {
    Digits(Magnitude(num, base), base) + Tail(num, base)
  }

  function Backwards(s: seq<char>): (r: seq<char>)
    ensures |r| == |s| && forall k :: 0 <= k < |s| ==> r[k] == s[|s| - 1 - k]
  {
    if s == [] then [] else Backwards(s[1..]) + [s[0]]
  }

  /** The text that itoa returns. */
  function Text(num: int, base: nat): seq<char>
    requires INT_MIN <= num <= INT_MAX && Base(base)
  {
    if num == 0 then ['0'] else Backwards(Raw(num, base))
  }

  // ----- how long the text is -----

  function Pow(b: nat, k: nat): nat {
    if k == 0 then 1 else b * Pow(b, k - 1)
  }

  lemma LessFactor(b: nat, x: nat, y: nat)
    requires b * x < b * y
    ensures x < y
  {
  }

  lemma QuotientBelow(n: nat, b: nat, base: nat, p: nat)
    requires Base(base) && 2 <= b <= base && n < b * p
    ensures Quot(n, base) < p
  {
  }

  lemma QuotientAbove(n: nat, b: nat, p: nat)
    requires Base(b) && n >= b * p
    ensures Quot(n, b) >= p
  {
    hide Quot, Rem;
    QuotRem(n, b);
    LessFactor(b, p, Quot(n, b) + 1);
  }

  /** A number below b^k has at most k digits in every base from b on. */
  lemma {:induction false} FewDigits(n: nat, b: nat, base: nat, k: nat)
    requires Base(base) && 2 <= b <= base && n < Pow(b, k)
    ensures |Digits(n, base)| <= k
    decreases k
  {
    hide Quot, Rem, DigitChar;
    if n > 0 {
      QuotientBelow(n, b, base, Pow(b, k - 1));
      FewDigits(Quot(n, base), b, base, k - 1);
    }
  }

  /** And a number from b^k on has more than k digits in base b. */
  lemma {:induction false} ManyDigits(n: nat, b: nat, k: nat)
    requires Base(b) && n >= Pow(b, k)
    ensures |Digits(n, b)| > k
    decreases k
  {
    hide Quot, Rem, DigitChar;
    PowPositive(b, k);
    if k > 0 {
      QuotientAbove(n, b, Pow(b, k - 1));
      ManyDigits(Quot(n, b), b, k - 1);
    }
  }

  lemma {:induction false} PowPositive(b: nat, k: nat)
    requires b > 0
    ensures Pow(b, k) > 0
  {
    if k > 0 { PowPositive(b, k - 1); }
  }

  lemma PowValues()
    ensures Pow(2, 30) == 0x4000_0000 && Pow(3, 21) == 10_460_353_203
  {
    assert Pow(2, 10) == 1024;
    assert Pow(2, 20) == 0x10_0000;
    assert Pow(3, 7) == 2187;
    assert Pow(3, 14) == 4_782_969;
  }

  /**
   * The text and its terminator fit the buffer exactly when the base is not 2 or the
   * number lies between 0 and 2^30 - 1.
   */
  lemma FitsExactly(num: int, base: nat)
    requires INT_MIN <= num <= INT_MAX && Base(base)
    ensures |Text(num, base)| + 1 <= BUFFER <==> base != 2 || 0 <= num < 0x4000_0000
  {
    var n := Magnitude(num, base);
    PowValues();
    if base == 2 {
      if n < 0x4000_0000 { FewDigits(n, 2, 2, 30); } else { ManyDigits(n, 2, 30); }
    } else {
      FewDigits(n, 3, base, 21);
    }
  }

  // ----- reading the text back -----

  function DigitValue(c: char): Option<nat> {
    if '0' <= c <= '9' then Some(c as int - '0' as int)
    else if 'a' <= c <= 'z' then Some(c as int - 'a' as int + 10)
    else None
  }

  /** The value of a digit string in positional notation. */
  function Positional(s: seq<char>, base: nat): Option<nat> {
    if s == [] then Some(0)
    else
      var front := Positional(s[..|s| - 1], base);
      var last := DigitValue(s[|s| - 1]);
      if front.None? || last.None? || last.value >= base then None
      else Some(front.value * base + last.value)
  }

  function Negate(v: Option<nat>): Option<int> {
    if v.None? then None
    else
      var w: int := v.value;
      Some(-w)
  }

  function AsInt(v: Option<nat>): Option<int> {
    if v.None? then None else Some(v.value)
  }

  /** The digits of a number other than zero: at least one, and no zero in front. */
  function Number(s: seq<char>, base: nat): Option<nat> {
    if s == [] || s[0] == '0' then None else Positional(s, base)
  }

  /** A reader of the format: zero has no prefix, base 10 may have a sign, 2, 8 and 16 have prefixes. */
  function Read(s: seq<char>, base: nat): Option<int> {
    if s == ['0'] then Some(0)
    else if base == 10 then
      if |s| > 0 && s[0] == '-' then Negate(Number(s[1..], base)) else AsInt(Number(s, base))
    else if base == 16 then if ['0', 'x'] <= s then AsInt(Number(s[2..], base)) else None
    else if base == 8 then if ['0'] <= s then AsInt(Number(s[1..], base)) else None
    else if base == 2 then if ['0', 'b'] <= s then AsInt(Number(s[2..], base)) else None
    else AsInt(Number(s, base))
  }

  lemma DigitRoundTrip(d: nat)
    requires d < 36
    ensures DigitValue(DigitChar(d)) == Some(d)
  {
  }

  lemma {:induction false} BackwardsConcat(a: seq<char>, b: seq<char>)
    ensures Backwards(a + b) == Backwards(b) + Backwards(a)
  {
  }

  lemma PositionalAppend(s: seq<char>, d: nat, base: nat, v: nat)
    requires d < base <= 36 && Positional(s, base) == Some(v)
    ensures Positional(s + [DigitChar(d)], base) == Some(v * base + d)
  {
  }

  lemma NothingIsZero(base: nat)
    ensures Positional([], base) == Some(0)
  {
  }

  /** Generating the digits of n and reading them back gives n. */
  lemma {:induction false} DigitsRoundTrip(n: nat, base: nat)
    requires Base(base)
    ensures Positional(Backwards(Digits(n, base)), base) == Some(n)
    decreases n
  {
    hide DigitChar, DigitValue, Quot, Rem, Positional;
    if n > 0 {
      var q := Quot(n, base);
      QuotRem(n, base);
      DigitsRoundTrip(q, base);
      assert Digits(n, base)[1..] == Digits(q, base);
      PositionalAppend(Backwards(Digits(q, base)), Rem(n, base), base, q);
    } else {
      NothingIsZero(base);
    }
  }

  /** No digit is a sign, and a positive number does not start with the digit zero. */
  lemma {:induction false} DigitsShape(n: nat, base: nat)
    requires Base(base)
    ensures '-' !in Digits(n, base)
    ensures n > 0 ==> |Digits(n, base)| > 0 && Digits(n, base)[|Digits(n, base)| - 1] != '0'
    decreases n
  {
    hide Quot, Rem;
    if n > 0 {
      DigitsShape(Quot(n, base), base);
      DigitRoundTrip(Rem(n, base));
      QuotRem(n, base);
    }
  }

  /** The text reads back as the signed number in base 10 and as the unsigned word otherwise. */
  lemma TextReadsBack(num: int, base: nat)
    requires INT_MIN <= num <= INT_MAX && Base(base)
    ensures Read(Text(num, base), base) == Some(if base == 10 || num >= 0 then num else num + WORD)
  {
    hide Digits, Positional, Backwards;
    var n := Magnitude(num, base);
    if num != 0 {
      var digits := Digits(n, base);
      DigitsRoundTrip(n, base);
      DigitsShape(n, base);
      TailBackwards(num, base);
      BackwardsConcat(digits, Tail(num, base));
      var t := |Tail(num, base)|;
      assert Text(num, base) == Backwards(Tail(num, base)) + Backwards(digits);
      assert Text(num, base)[t..] == Backwards(digits);
      assert Backwards(digits)[0] == digits[|digits| - 1];
    }
  }

  lemma DigitIsOnly(c: char, d: nat)
    requires DigitValue(c) == Some(d)
    ensures d < 36 && DigitChar(d) == c && (d == 0 <==> c == '0')
  {
  }

  lemma QuotRemUnique(q: nat, d: nat, base: nat)
    requires Base(base) && d < base
    ensures Quot(q * base + d, base) == q && Rem(q * base + d, base) == d
  {
    hide Quot, Rem;
    var n := q * base + d;
    QuotRem(n, base);
    OneQuotient(Quot(n, base), Rem(n, base), q, d, base);
  }

  lemma OneQuotient(a: nat, r: nat, q: nat, d: nat, base: nat)
    requires a * base + r == q * base + d && r < base && d < base
    ensures a == q && r == d
  {
    assert base * (q + 1) == q * base + base && base * (a + 1) == a * base + base;
    LessFactor(base, a, q + 1);
    LessFactor(base, q, a + 1);
  }

  lemma NoDigits(base: nat)
    requires Base(base)
    ensures Digits(0, base) == []
  {
  }

  /** One digit more. */
  lemma DigitsStep(q: nat, d: nat, base: nat)
    requires Base(base) && d < base && (q > 0 || d > 0)
    ensures q * base + d > 0
    ensures Digits(q * base + d, base) == [DigitChar(d)] + Digits(q, base)
  {
    hide Quot, Rem, DigitChar;
    QuotRemUnique(q, d, base);
    if q > 0 { assert q * base > 0; }
  }

  lemma PositionalSplit(s: seq<char>, base: nat)
    requires s != [] && Positional(s, base).Some?
    ensures var q, d := Positional(s[..|s| - 1], base), DigitValue(s[|s| - 1]);
      q.Some? && d.Some? && d.value < base && Positional(s, base) == Some(q.value * base + d.value)
  {
  }

  /** A digit string without a zero in front is the one that is generated for its value. */
  lemma {:induction false} DigitsAreOnly(s: seq<char>, base: nat, n: nat)
    requires Base(base) && Positional(s, base) == Some(n) && (s == [] || s[0] != '0')
    ensures s == Backwards(Digits(n, base)) && (n > 0 <==> s != [])
    decreases |s|
  {
    hide Quot, Rem, DigitChar, DigitValue, Digits, Positional;
    if s == [] {
      NothingIsZero(base);
      NoDigits(base);
    } else {
      PositionalSplit(s, base);
      var front, c := s[..|s| - 1], s[|s| - 1];
      var q, d := Positional(front, base).value, DigitValue(c).value;
      DigitIsOnly(c, d);
      DigitsAreOnly(front, base, q);
      DigitsStep(q, d, base);
      assert Digits(n, base)[1..] == Digits(q, base);
      assert s == front + [c];
    }
  }

  /** The number whose text reads as v. */
  function Meant(v: int, base: nat): int {
    if base == 10 || v <= INT_MAX then v else v - WORD
  }

  /** And the text is the only one that the reader takes for that value: no other zero, prefix or padding. */
  lemma TextIsOnly(s: seq<char>, base: nat, v: int)
    requires Base(base) && Read(s, base) == Some(v)
    requires INT_MIN <= v < WORD && (base == 10 ==> v <= INT_MAX)
    ensures (base == 10 || v >= 0) && INT_MIN <= Meant(v, base) <= INT_MAX && s == Text(Meant(v, base), base)
  {
    hide Digits, Positional, Backwards;
    if s != ['0'] {
      var t := if base == 10 then (if s[0] == '-' then 1 else 0)
        else if base == 16 || base == 2 then 2 else if base == 8 then 1 else 0;
      var n := Positional(s[t..], base).value;
      var num := Meant(v, base);
      DigitsAreOnly(s[t..], base, n);
      assert n == Magnitude(num, base);
      TailBackwards(num, base);
      BackwardsConcat(Digits(n, base), Tail(num, base));
      assert s == s[..t] + s[t..];
      assert s[..t] == Backwards(Tail(num, base));
    }
  }

  /** Some texts in full. */
  lemma Samples()
    ensures forall base :: Base(base) ==> Text(0, base) == "0"
    ensures Text(-7, 10) == "-7" && Text(255, 16) == "0xff" && Text(8, 8) == "010" && Text(5, 2) == "0b101"
  {
    SampleReads("-7", 10, -7);
    SampleReads("0xff", 16, 255);
    SampleReads("010", 8, 8);
    SampleReads("0b101", 2, 5);
  }

  lemma SampleReads(s: seq<char>, base: nat, v: int)
    requires (s == "-7" && base == 10 && v == -7) || (s == "0xff" && base == 16 && v == 255)
      || (s == "010" && base == 8 && v == 8) || (s == "0b101" && base == 2 && v == 5)
    ensures s == Text(v, base)
  {
    hide Text;
    var d := if base == 10 then "7" else if base == 16 then "ff" else if base == 8 then "10" else "101";
    PositionalSamples();
    assert s[|s| - |d|..] == d;
    TextIsOnly(s, base, v);
  }

  lemma PositionalSamples()
    ensures Positional("7", 10) == Some(7) && Positional("ff", 16) == Some(255)
    ensures Positional("10", 8) == Some(8) && Positional("101", 2) == Some(5)
  {
    assert "7"[..0] == [] && "ff"[..1] == "f" && "f"[..0] == [] && "10"[..1] == "1" && "1"[..0] == [];
    assert "101"[..2] == "10";
    assert Positional("f", 16) == Some(15);
    assert Positional("1", 8) == Some(1) && Positional("1", 2) == Some(1) && Positional("10", 2) == Some(2);
  }

  lemma TailBackwards(num: int, base: nat)
    ensures Backwards(Tail(num, base)) ==
      if base == 10 then (if num < 0 then ['-'] else [])
      else if base == 16 then ['0', 'x']
      else if base == 8 then ['0']
      else if base == 2 then ['0', 'b']
      else []
  {
  }

  // ----- the code -----

  /** itoa into its buffer; the text ends with a zero character. */
  method Itoa(intbuf: array<char>, num: int, base: nat)
    requires intbuf.Length == BUFFER && INT_MIN <= num <= INT_MAX && Base(base)
    requires base == 2 ==> 0 <= num < 0x4000_0000
    requires base == 10 ==> num != INT_MIN
    modifies intbuf
    ensures |Text(num, base)| < BUFFER
    ensures intbuf[..|Text(num, base)|] == Text(num, base) && intbuf[|Text(num, base)|] == '\0'
  {
    hide Digits, Backwards, Tail;
    FitsExactly(num, base);
    if num == 0 {
      intbuf[0] := '0';
      intbuf[1] := '\0';
      return;
    }
    var isneg := base == 10 && num < 0;
    var i: nat := Unsigned(if isneg then -num else num);
    ghost var digits := Digits(Magnitude(num, base), base);
    DigitsShape(Magnitude(num, base), base);
    TailOfSign(num, base);
    var j := GenerateDigits(intbuf, i, base);
    j := AppendTail(intbuf, j, isneg, base);
    assert intbuf[..j] == Raw(num, base);
    intbuf[j] := '\0';
    assert intbuf[..j] == Raw(num, base);
    ReverseInPlace(intbuf, j);
  }

  /** Conversion of an int to uint32_t. */
  function Unsigned(num: int): (u: nat)
    requires INT_MIN <= num <= INT_MAX
    ensures u == if num >= 0 then num else num + WORD
  {
    num % WORD
  }

  lemma TailOfSign(num: int, base: nat)
    ensures Tail(num, base) == Tail(if base == 10 && num < 0 then -1 else 0, base)
  {
  }

  /** The loop that writes the digits, least significant first. */
  method GenerateDigits(intbuf: array<char>, n: nat, base: nat) returns (j: nat)
    requires Base(base) && |Digits(n, base)| <= intbuf.Length
    modifies intbuf
    ensures j == |Digits(n, base)| && intbuf[..j] == Digits(n, base)
  {
    hide DigitChar, Quot, Rem;
    var i := n;
    j := 0;
    while i != 0
      invariant j + |Digits(i, base)| == |Digits(n, base)| && j <= intbuf.Length
      invariant intbuf[..j] + Digits(i, base) == Digits(n, base)
      decreases i
    {
      var q := Quot(i, base);
      var r := Rem(i, base);
      ghost var front := intbuf[..j];
      intbuf[j] := DigitChar(r);
      assert intbuf[..j + 1] == front + [DigitChar(r)];
      assert front + ([DigitChar(r)] + Digits(q, base)) == (front + [DigitChar(r)]) + Digits(q, base);
      j := j + 1;
      i := q;
    }
  }

  /** The sign and the prefix go behind the digits. */
  method AppendTail(intbuf: array<char>, start: nat, isneg: bool, base: nat) returns (j: nat)
    requires intbuf.Length == BUFFER && (isneg ==> base == 10)
    requires start + |Tail(if isneg then -1 else 0, base)| < BUFFER
    modifies intbuf
    ensures j == start + |Tail(if isneg then -1 else 0, base)|
    ensures intbuf[..j] == old(intbuf[..start]) + Tail(if isneg then -1 else 0, base)
  {
    j := start;
    if isneg { intbuf[j] := '-'; j := j + 1; }
    if base == 16 {
      intbuf[j] := 'x';
      intbuf[j + 1] := '0';
      j := j + 2;
    } else if base == 8 {
      intbuf[j] := '0';
      j := j + 1;
    } else if base == 2 {
      intbuf[j] := 'b';
      intbuf[j + 1] := '0';
      j := j + 2;
    }
  }

  /** Swap from both ends towards the middle. */
  method ReverseInPlace(intbuf: array<char>, length: nat)
    requires 0 < length < intbuf.Length
    modifies intbuf
    ensures intbuf[..length] == Backwards(old(intbuf[..length]))
    ensures intbuf[length] == old(intbuf[length])
  {
    var i, j := 0, length - 1;
    while i < j
      invariant 0 <= i <= j + 1 && i + j == length - 1
      invariant forall k :: 0 <= k < i ==> intbuf[k] == old(intbuf[length - 1 - k])
      invariant forall k :: j < k < length ==> intbuf[k] == old(intbuf[length - 1 - k])
      invariant forall k :: i <= k <= j ==> intbuf[k] == old(intbuf[k])
      invariant intbuf[length] == old(intbuf[length])
    {
      var tmp := intbuf[i];
      intbuf[i] := intbuf[j];
      intbuf[j] := tmp;
      i := i + 1;
      j := j - 1;
    }
  }
}
