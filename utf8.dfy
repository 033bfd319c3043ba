/** `buffer.toString('utf8')`: UTF-8 decoding in which every ill-formed
    stretch is replaced by U+FFFD, one replacement per maximal subpart of a
    well-formed sequence (the practice of section 3.9 of the Unicode Standard
    that Node's decoder follows). Decoding is total: it never fails. */
module Utf8 {

  newtype byte = x: int | 0 <= x < 256

  const Replacement: char := '\U{FFFD}'

  /** The UTF-8 form of one scalar value. */
  function EncodeChar(c: char): (r: seq<byte>)
    ensures 1 <= |r| <= 4
  {
    var n := c as int;
    if n < 0x80 then [n as byte]
    else if n < 0x800 then [(0xC0 + n / 64) as byte, (0x80 + n % 64) as byte]
    else if n < 0x10000 then
      [(0xE0 + n / 4096) as byte, (0x80 + n / 64 % 64) as byte, (0x80 + n % 64) as byte]
    else
      [(0xF0 + n / 262144) as byte, (0x80 + n / 4096 % 64) as byte,
       (0x80 + n / 64 % 64) as byte, (0x80 + n % 64) as byte]
  }

  /** The UTF-8 form of a string. */
  function Encode(s: string): seq<byte> {
    if s == [] then [] else EncodeChar(s[0]) + Encode(s[1..])
  }

  /** Byte `i` exists and lies in `lo..hi`. */
  predicate InRange(b: seq<byte>, i: nat, lo: int, hi: int) {
    i < |b| && lo <= b[i] as int <= hi
  }

  /** One decoding step at the front of `b`: the character produced and the
      number of bytes consumed, which is the length of a well-formed sequence
      or of the maximal subpart that stands for one U+FFFD. */
  function Step(b: seq<byte>): (r: (char, nat))
    requires |b| > 0
    ensures 1 <= r.1 <= |b| && r.1 <= 4
  {
    var b0 := b[0] as int;
    if b0 < 0x80 then (b0 as char, 1)
    else if 0xC2 <= b0 <= 0xDF then
      if InRange(b, 1, 0x80, 0xBF) then (((b0 - 0xC0) * 64 + (b[1] as int - 0x80)) as char, 2)
      else (Replacement, 1)
    else if 0xE0 <= b0 <= 0xEF then
      var lo := if b0 == 0xE0 then 0xA0 else 0x80;
      var hi := if b0 == 0xED then 0x9F else 0xBF;
      if !InRange(b, 1, lo, hi) then (Replacement, 1)
      else if !InRange(b, 2, 0x80, 0xBF) then (Replacement, 2)
      else
        (((b0 - 0xE0) * 4096 + (b[1] as int - 0x80) * 64 + (b[2] as int - 0x80)) as char, 3)
    else if 0xF0 <= b0 <= 0xF4 then
      var lo := if b0 == 0xF0 then 0x90 else 0x80;
      var hi := if b0 == 0xF4 then 0x8F else 0xBF;
      if !InRange(b, 1, lo, hi) then (Replacement, 1)
      else if !InRange(b, 2, 0x80, 0xBF) then (Replacement, 2)
      else if !InRange(b, 3, 0x80, 0xBF) then (Replacement, 3)
      else
        (((b0 - 0xF0) * 262144 + (b[1] as int - 0x80) * 4096
          + (b[2] as int - 0x80) * 64 + (b[3] as int - 0x80)) as char, 4)
    else (Replacement, 1)
  }

  /** `buffer.toString('utf8')`. */
  function Decode(b: seq<byte>): (s: string)
    ensures |s| <= |b|
    decreases |b|
  {
    if b == [] then []
    else
      var (c, k) := Step(b);
      [c] + Decode(b[k..])
  }

  /** Decoding reads back the character at the front of an encoding. */
  lemma StepEncodeChar(c: char, rest: seq<byte>)
    ensures Step(EncodeChar(c) + rest) == (c, |EncodeChar(c)|)
  {
    var n := c as int;
    if n < 0x80 {
    } else if n < 0x800 {
      StepTwo(c, rest);
    } else if n < 0x10000 {
      StepThree(c, rest);
    } else {
      StepFour(c, rest);
    }
  }

  lemma StepTwo(c: char, rest: seq<byte>)
    requires 0x80 <= c as int < 0x800
    ensures Step(EncodeChar(c) + rest) == (c, 2)
  {
    var n := c as int;
    var b := EncodeChar(c) + rest;
    var h, l := n / 64, n % 64;
    assert n == h * 64 + l;
    assert 2 <= h < 32;
    assert b[0] as int == 0xC0 + h && b[1] as int == 0x80 + l;
  }

  lemma StepThree(c: char, rest: seq<byte>)
    requires 0x800 <= c as int < 0x10000
    ensures Step(EncodeChar(c) + rest) == (c, 3)
  {
    var n := c as int;
    var b := EncodeChar(c) + rest;
    var h, m, l := n / 4096, n / 64 % 64, n % 64;
    assert n == h * 4096 + m * 64 + l;
    assert h < 16;
    assert b[0] as int == 0xE0 + h && b[1] as int == 0x80 + m && b[2] as int == 0x80 + l;
    assert h == 0 ==> m >= 32;
    assert h == 13 ==> m < 32;
  }

  lemma StepFour(c: char, rest: seq<byte>)
    requires 0x10000 <= c as int
    ensures Step(EncodeChar(c) + rest) == (c, 4)
  {
    var n := c as int;
    var b := EncodeChar(c) + rest;
    var h, m1, m2, l := n / 262144, n / 4096 % 64, n / 64 % 64, n % 64;
    FourDigits(n);
    assert b[0] as int == 0xF0 + h && b[1] as int == 0x80 + m1;
    assert b[2] as int == 0x80 + m2 && b[3] as int == 0x80 + l;
  }

  /** The base-64 digits of a supplementary code point: the lead digit is at
      most 4, and the second digit keeps the value within 0x10000..0x10FFFF. */
  lemma FourDigits(n: int)
    requires 0x10000 <= n <= 0x10FFFF
    ensures var h, m1, m2, l := n / 262144, n / 4096 % 64, n / 64 % 64, n % 64;
      && n == h * 262144 + m1 * 4096 + m2 * 64 + l
      && 0 <= h <= 4 && 0 <= m1 < 64 && 0 <= m2 < 64 && 0 <= l < 64
      && (h == 0 ==> m1 >= 16) && (h == 4 ==> m1 < 16)
  {
    var q1 := n / 64;
    var q2 := q1 / 64;
    assert n == q1 * 64 + n % 64;
    assert q1 == q2 * 64 + q1 % 64;
    assert n == q2 * 4096 + q1 % 64 * 64 + n % 64;
    assert n / 4096 == q2;
    assert q2 == q2 / 64 * 64 + q2 % 64;
    assert n == q2 / 64 * 262144 + q2 % 64 * 4096 + q1 % 64 * 64 + n % 64;
    assert n / 262144 == q2 / 64;
  }

  /** Decoding the UTF-8 form of a string gives the string back, character
      for character. */
  lemma {:induction false} DecodeEncode(s: string)
    ensures Decode(Encode(s)) == s
  {
    if s != [] {
      var e := EncodeChar(s[0]);
      var b := Encode(s);
      assert b == e + Encode(s[1..]);
      StepEncodeChar(s[0], Encode(s[1..]));
      assert b[|e|..] == Encode(s[1..]);
      DecodeEncode(s[1..]);
    }
  }

  /** An ASCII byte decodes to the character with that code. */
  lemma {:induction false} DecodeAscii(b: seq<byte>)
    requires forall i :: 0 <= i < |b| ==> b[i] < 0x80
    ensures |Decode(b)| == |b|
    ensures forall i :: 0 <= i < |b| ==> Decode(b)[i] as int == b[i] as int
  {
    if b != [] {
      DecodeAscii(b[1..]);
    }
  }
}
