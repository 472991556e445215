/** Strict UTF-8, as Python's `bytes.decode("utf-8")` and `str.encode("utf-8")` use it. */
module Utf8 {
  import opened Common

  function EncodeChar(c: char): (r: Bytes)
    ensures 1 <= |r| <= 4
  {
    var n := c as int;
    if n < 0x80 then [n as Byte]
    else if n < 0x800 then [(0xC0 + n / 0x40) as Byte, Low6(n)]
    else if n < 0x1_0000 then [(0xE0 + n / 0x1000) as Byte, Low6(n / 0x40), Low6(n)]
    else [(0xF0 + n / 0x4_0000) as Byte, Low6(n / 0x1000), Low6(n / 0x40), Low6(n)]
  }

  function Low6(n: nat): Byte { (0x80 + n % 0x40) as Byte }

  function Encode(s: string): Bytes {
    if s == [] then [] else EncodeChar(s[0]) + Encode(s[1..])
  }

  predicate Continues(b: Byte) { 0x80 <= b < 0xC0 }

  datatype Decoded = Bad | Char(c: char, length: nat)

  /** The scalar value in a range that this sequence length may carry, if it is one. */
  function Scalar(n: int, least: nat, length: nat): Decoded {
    if least <= n <= 0x10_FFFF && !(0xD800 <= n < 0xE000) then Char(n as char, length) else Bad
  }

  /** The first character of a non-empty byte sequence; overlong forms and surrogates are rejected. */
  function DecodeChar(b: Bytes): Decoded
    requires b != []
  {
    var b0 := b[0] as int;
    if b0 < 0x80 then Char(b0 as char, 1)
    else if 0xC0 <= b0 < 0xE0 && |b| >= 2 && Continues(b[1]) then
      Scalar((b0 - 0xC0) * 0x40 + Six(b[1]), 0x80, 2)
    else if 0xE0 <= b0 < 0xF0 && |b| >= 3 && Continues(b[1]) && Continues(b[2]) then
      Scalar((b0 - 0xE0) * 0x1000 + Six(b[1]) * 0x40 + Six(b[2]), 0x800, 3)
    else if 0xF0 <= b0 < 0xF8 && |b| >= 4 && Continues(b[1]) && Continues(b[2]) && Continues(b[3]) then
      Scalar((b0 - 0xF0) * 0x4_0000 + Six(b[1]) * 0x1000 + Six(b[2]) * 0x40 + Six(b[3]), 0x1_0000, 4)
    else Bad
  }

  function Six(b: Byte): int { b as int - 0x80 }

  function Decode(b: Bytes): Option<string>
    decreases |b|
  {
    if b == [] then Some([])
    else
      match DecodeChar(b)
      case Bad => None
      case Char(c, length) =>
        if length == 0 || length > |b| then None
        else
          match Decode(b[length..])
          case None => None
          case Some(rest) => Some([c] + rest)
  }

  /** Base-64 digits: each step strips the last one. */
  lemma Digits(n: nat)
    ensures n / 0x1000 == n / 0x40 / 0x40
    ensures n / 0x4_0000 == n / 0x1000 / 0x40
    ensures n == n / 0x40 * 0x40 + n % 0x40
    ensures n / 0x40 == n / 0x1000 * 0x40 + n / 0x40 % 0x40
    ensures n / 0x1000 == n / 0x4_0000 * 0x40 + n / 0x1000 % 0x40
  {}

  lemma CharRoundTrip(c: char, rest: Bytes)
    ensures DecodeChar(EncodeChar(c) + rest) == Char(c, |EncodeChar(c)|)
  {
    var n := c as int;
    var e := EncodeChar(c);
    Digits(n);
    var b := e + rest;
    assert b[0] == e[0];
    if 0x80 <= n { assert b[1] == e[1]; }
    if 0x800 <= n { assert b[2] == e[2]; }
    if 0x1_0000 <= n { assert b[3] == e[3]; }
  }

  lemma CharInverse(b: Bytes)
    requires b != [] && DecodeChar(b).Char?
    ensures var d := DecodeChar(b); d.length <= |b| && EncodeChar(d.c) == b[..d.length]
  {
    var d := DecodeChar(b);
    var n := d.c as int;
    Digits(n);
    if d.length == 2 {
      assert n / 0x40 == b[0] as int - 0xC0 && n % 0x40 == Six(b[1]);
    } else if d.length == 3 {
      assert n / 0x40 == (b[0] as int - 0xE0) * 0x40 + Six(b[1]);
      assert n / 0x1000 == b[0] as int - 0xE0;
    } else if d.length == 4 {
      assert n / 0x40 == (b[0] as int - 0xF0) * 0x1000 + Six(b[1]) * 0x40 + Six(b[2]);
      assert n / 0x1000 == (b[0] as int - 0xF0) * 0x40 + Six(b[1]);
      assert n / 0x4_0000 == b[0] as int - 0xF0;
    }
  }

  lemma {:induction false} DecodeEncode(s: string)
    ensures Decode(Encode(s)) == Some(s)
  {
    if s != [] {
      CharRoundTrip(s[0], Encode(s[1..]));
      DecodeEncode(s[1..]);
      assert Encode(s)[|EncodeChar(s[0])|..] == Encode(s[1..]);
      assert [s[0]] + s[1..] == s;
    }
  }

  lemma EncodeCons(c: char, rest: string)
    ensures Encode([c] + rest) == EncodeChar(c) + Encode(rest)
  {
    assert ([c] + rest)[1..] == rest;
  }

  lemma {:induction false} EncodeDecode(b: Bytes)
    ensures Decode(b).Some? ==> Encode(Decode(b).value) == b
    decreases |b|
  {
    if b != [] && Decode(b).Some? {
      CharInverse(b);
      var Char(c, length) := DecodeChar(b);
      var tail := b[length..];
      EncodeDecode(tail);
      EncodeNext(b, c, length, tail, Decode(tail).value);
    }
  }

  lemma EncodeNext(b: Bytes, c: char, length: nat, tail: Bytes, rest: string)
    requires length <= |b| && EncodeChar(c) == b[..length] && tail == b[length..] && Encode(rest) == tail
    ensures Encode([c] + rest) == b
  {
    EncodeCons(c, rest);
    assert b == b[..length] + tail;
  }

  /** The bytes of a character (section 3 of RFC 3629): six bits each behind a first byte that tells their number. */
  lemma EncodedBytes(c: char)
    ensures var n, e := c as int, EncodeChar(c);
      if n < 128 then |e| == 1 && e[0] as int == n
      else if n < 2048 then |e| == 2 && e[0] as int == 192 + n / 64 && e[1] as int == 128 + n % 64
      else if n < 65536 then
        |e| == 3 && e[0] as int == 224 + n / 4096 && e[1] as int == 128 + n / 64 % 64 && e[2] as int == 128 + n % 64
      else
        && |e| == 4 && e[0] as int == 240 + n / 262144 && e[1] as int == 128 + n / 4096 % 64
        && e[2] as int == 128 + n / 64 % 64 && e[3] as int == 128 + n % 64
  {}
}
