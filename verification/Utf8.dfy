/** UTF-8 encoding of text, as the token accounting and the identity digests use it. */
module Utf8 {

  type byte = x: int | 0 <= x < 256

  function EncodeChar(c: char): (b: seq<byte>)
    ensures 1 <= |b| <= 4
  {
    var n: int := c as int;
    if n < 0x80 then [n]
    else if n < 0x800 then [0xC0 + n / 0x40, 0x80 + n % 0x40]
    else if n < 0x10000 then [0xE0 + n / 0x1000, 0x80 + n / 0x40 % 0x40, 0x80 + n % 0x40]
    else [0xF0 + n / 0x40000, 0x80 + n / 0x1000 % 0x40, 0x80 + n / 0x40 % 0x40, 0x80 + n % 0x40]
  }

  function Encode(text: string): seq<byte> {
    if text == "" then [] else EncodeChar(text[0]) + Encode(text[1..])
  }

  /** The code point of the first character, read back from its bytes. */
  function DecodePoint(b: seq<byte>): int {
    var at: int -> int := (i: int) => if 0 <= i < |b| then b[i] as int else 0;
    if at(0) < 0x80 then at(0)
    else if at(0) < 0xE0 then (at(0) - 0xC0) * 0x40 + (at(1) - 0x80)
    else if at(0) < 0xF0 then (at(0) - 0xE0) * 0x1000 + (at(1) - 0x80) * 0x40 + (at(2) - 0x80)
    else (at(0) - 0xF0) * 0x40000 + (at(1) - 0x80) * 0x1000 + (at(2) - 0x80) * 0x40 + (at(3) - 0x80)
  }

  lemma DecodeEncodeChar(c: char, tail: seq<byte>)
    ensures DecodePoint(EncodeChar(c) + tail) == c as int
  {
    var n: int := c as int;
    assert 0 <= n < 0x110000;
    assert n / 0x1000 == n / 0x40 / 0x40 && n / 0x40000 == n / 0x1000 / 0x40;
  }

  /** No character's encoding starts another's: the first character can be cut off uniquely. */
  lemma CharPrefixFree(c: char, d: char, x: seq<byte>, y: seq<byte>)
    requires EncodeChar(c) + x == EncodeChar(d) + y
    ensures c == d && x == y
  {
    DecodeEncodeChar(c, x);
    DecodeEncodeChar(d, y);
    var n := |EncodeChar(c)|;
    assert (EncodeChar(c) + x)[n..] == x && (EncodeChar(d) + y)[n..] == y;
  }

  lemma {:induction false} EncodeInjective(a: string, b: string)
    requires Encode(a) == Encode(b)
    ensures a == b
  {
    if a != "" && b != "" {
      CharPrefixFree(a[0], b[0], Encode(a[1..]), Encode(b[1..]));
      EncodeInjective(a[1..], b[1..]);
      assert a == [a[0]] + a[1..] && b == [b[0]] + b[1..];
    }
  }

  lemma {:induction false} EncodeConcat(a: string, b: string)
    ensures Encode(a + b) == Encode(a) + Encode(b)
  {
    if a == "" {
      assert a + b == b;
    } else {
      assert (a + b)[1..] == a[1..] + b;
      EncodeConcat(a[1..], b);
      assert EncodeChar(a[0]) + (Encode(a[1..]) + Encode(b)) == EncodeChar(a[0]) + Encode(a[1..]) + Encode(b);
    }
  }

  /** A text has at least as many bytes as characters. */
  lemma {:induction false} EncodeLength(a: string)
    ensures |Encode(a)| >= |a|
  {
    if a != "" { EncodeLength(a[1..]); }
  }
}
