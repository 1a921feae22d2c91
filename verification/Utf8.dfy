/** UTF-8, as section 3 of RFC 3629 lays it out: one to four bytes a character, the first
    telling how many. */
module Utf8 {
  import opened Merkle
  import opened Wrappers

  function EncodeChar(c: char): (bytes: Bytes)
    ensures 1 <= |bytes| <= 4
    ensures |bytes| == 1 <==> c as int < 0x80
  {
    var n := c as int;
    var low, q := Continuation(n % 0x40), n / 0x40;
    if n < 0x80 then [n as Byte]
    else if n < 0x800 then [(0xC0 + q) as Byte, low]
    else if n < 0x1_0000 then [(0xE0 + q / 0x40) as Byte, Continuation(q % 0x40), low]
    else [(0xF0 + q / 0x40 / 0x40) as Byte, Continuation(q / 0x40 % 0x40), Continuation(q % 0x40), low]
  }

  /** Six bits of a character, in a byte that no character starts with. */
  function Continuation(bits: int): Byte
    requires 0 <= bits < 0x40
  {
    (0x80 + bits) as Byte
  }

  function Encode(s: string): Bytes {
    if s == [] then [] else EncodeChar(s[0]) + Encode(s[1..])
  }

  /** The number of bytes a first byte announces. */
  function Announced(first: Byte): nat {
    if first < 0x80 then 1 else if first < 0xE0 then 2 else if first < 0xF0 then 3 else 4
  }

  function CodePoint(b: Bytes): int
    requires b != [] && |b| == Announced(b[0])
  {
    match |b|
    case 1 => b[0] as int
    case 2 => (b[0] as int - 0xC0) * 0x40 + (b[1] as int - 0x80)
    case 3 => (b[0] as int - 0xE0) * 0x1000 + (b[1] as int - 0x80) * 0x40 + (b[2] as int - 0x80)
    case _ =>
      (b[0] as int - 0xF0) * 0x4_0000 + (b[1] as int - 0x80) * 0x1000 + (b[2] as int - 0x80) * 0x40
      + (b[3] as int - 0x80)
  }

  /** The first character and what follows it. */
  function DecodeChar(b: Bytes): Option<(char, Bytes)> {
    if b == [] || |b| < Announced(b[0]) then None
    else
      var k := Announced(b[0]);
      var n := CodePoint(b[..k]);
      if 0 <= n < 0xD800 || 0xE000 <= n < 0x11_0000 then Some((n as char, b[k..])) else None
  }

  function Decode(b: Bytes, count: nat): Option<(string, Bytes)> {
    if count == 0 then Some(([], b))
    else
      var first := DecodeChar(b);
      if first.None? then None
      else
        var rest := Decode(first.value.1, count - 1);
        if rest.None? then None else Some(([first.value.0] + rest.value.0, rest.value.1))
  }

  lemma AnnouncedLength(c: char)
    ensures Announced(EncodeChar(c)[0]) == |EncodeChar(c)|
    ensures CodePoint(EncodeChar(c)) == c as int
  {
    var n := c as int;
    var q := n / 0x40;
    var r := q / 0x40;
    assert n == q * 0x40 + n % 0x40 && q == r * 0x40 + q % 0x40 && r == r / 0x40 * 0x40 + r % 0x40;
  }

  lemma DecodeEncodedChar(c: char, tail: Bytes)
    ensures DecodeChar(EncodeChar(c) + tail) == Some((c, tail))
  {
    AnnouncedLength(c);
    var b, k := EncodeChar(c) + tail, |EncodeChar(c)|;
    assert b[..k] == EncodeChar(c) && b[k..] == tail;
  }

  /** Decoding as many characters as were encoded gives them back, and leaves what follows. */
  lemma {:induction false} DecodeEncoded(s: string, tail: Bytes)
    ensures Decode(Encode(s) + tail, |s|) == Some((s, tail))
  {
    if s == [] {
      assert Encode(s) + tail == tail;
    } else {
      var rest := Encode(s[1..]) + tail;
      assert Encode(s) + tail == EncodeChar(s[0]) + rest;
      DecodeEncodedChar(s[0], rest);
      DecodeEncoded(s[1..], tail);
      assert [s[0]] + s[1..] == s;
    }
  }

  predicate IsAscii(s: string) {
    forall i | 0 <= i < |s| :: s[i] as int < 0x80
  }

  /** A string has as many bytes as characters exactly if it is ASCII. */
  lemma {:induction false} EncodedLength(s: string)
    ensures |Encode(s)| >= |s|
    ensures |Encode(s)| == |s| <==> IsAscii(s)
  {
    if s != [] {
      EncodedLength(s[1..]);
      assert forall i | 0 < i < |s| :: s[i] == s[1..][i - 1];
    }
  }

  lemma {:induction false} EncodeConcat(s: string, t: string)
    ensures Encode(s + t) == Encode(s) + Encode(t)
  {
    if s == [] {
      assert s + t == t;
    } else {
      assert (s + t)[1..] == s[1..] + t;
      EncodeConcat(s[1..], t);
    }
  }

  /** The shortest form, as the RFC's table has it: by the number of the character, how many
      bytes, what the first starts with, and that the others are continuations. */
  lemma ShortestForm(c: char)
    ensures
      var b, n := EncodeChar(c), c as int;
      && |b| == (if n < 0x80 then 1 else if n < 0x800 then 2 else if n < 0x1_0000 then 3 else 4)
      && (|b| == 1 ==> b[0] < 0x80) && (|b| == 2 ==> 0xC2 <= b[0] < 0xE0)
      && (|b| == 3 ==> 0xE0 <= b[0] < 0xF0) && (|b| == 4 ==> 0xF0 <= b[0] <= 0xF4)
      && forall i | 0 < i < |b| :: 0x80 <= b[i] < 0xC0
  {
  }
}
