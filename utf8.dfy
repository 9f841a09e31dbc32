/** UTF-8 as Python's `str.encode("utf-8")` and strict `bytes.decode("utf-8")`
    use it (RFC 3629): a string is a sequence of Unicode scalar values, and
    decoding rejects overlong forms, surrogates and values above U+10FFFF. */
module Utf8 {
  import opened Wrappers
  import opened Base64

  predicate IsContinuation(x: byte) { 0x80 <= x < 0xC0 }

  /** The one to four bytes that encode `c`. */
  function EncodeChar(c: char): (b: seq<byte>)
    ensures 1 <= |b| <= 4
  {
    var n := c as int;
    if n < 0x80 then [n as byte]
    else if n < 0x800 then [(0xC0 + n / 64) as byte, (0x80 + n % 64) as byte]
    else if n < 0x10000 then
      [(0xE0 + n / 4096) as byte, (0x80 + (n / 64) % 64) as byte, (0x80 + n % 64) as byte]
    else
      [(0xF0 + n / 262144) as byte, (0x80 + (n / 4096) % 64) as byte,
       (0x80 + (n / 64) % 64) as byte, (0x80 + n % 64) as byte]
  }

  /** `s.encode("utf-8")`. */
  function Encode(s: string): (b: seq<byte>)
    ensures |s| <= |b| <= 4 * |s|
    decreases |s|
  {
    if |s| == 0 then [] else EncodeChar(s[0]) + Encode(s[1..])
  }

  /** The scalar value a well-formed sequence starting at the head of `b`
      stands for, with the number of bytes it takes; None when the head of
      `b` is not a well-formed sequence. */
  function DecodeChar(b: seq<byte>): (r: Option<(char, nat)>)
    requires |b| > 0
    ensures r.Some? ==> 1 <= r.value.1 <= |b| && r.value.1 <= 4
  {
    var b0 := b[0] as int;
    if b0 < 0x80 then Some((b0 as char, 1))
    else if 0xC2 <= b0 < 0xE0 then
      if |b| < 2 || !IsContinuation(b[1]) then None
      else Some((((b0 - 0xC0) * 64 + (b[1] as int - 0x80)) as char, 2))
    else if 0xE0 <= b0 < 0xF0 then
      if |b| < 3 || !IsContinuation(b[1]) || !IsContinuation(b[2]) then None
      else
        var n := (b0 - 0xE0) * 4096 + (b[1] as int - 0x80) * 64 + (b[2] as int - 0x80);
        if n < 0x800 || (0xD800 <= n < 0xE000) then None else Some((n as char, 3))
    else if 0xF0 <= b0 < 0xF5 then
      if |b| < 4 || !IsContinuation(b[1]) || !IsContinuation(b[2]) || !IsContinuation(b[3]) then None
      else
        var n := (b0 - 0xF0) * 262144 + (b[1] as int - 0x80) * 4096
          + (b[2] as int - 0x80) * 64 + (b[3] as int - 0x80);
        if n < 0x10000 || n > 0x10FFFF then None else Some((n as char, 4))
    else None
  }

  /** `b.decode("utf-8")`, None where Python raises `UnicodeDecodeError`. */
  function Decode(b: seq<byte>): (r: Option<string>)
    ensures r.Some? ==> |r.value| <= |b|
    decreases |b|
  {
    if |b| == 0 then Some("")
    else match DecodeChar(b)
      case None => None
      case Some((c, k)) =>
        match Decode(b[k..])
        case None => None
        case Some(rest) => Some([c] + rest)
  }

  lemma DecodeEncodeChar(c: char, rest: seq<byte>)
    ensures DecodeChar(EncodeChar(c) + rest) == Some((c, |EncodeChar(c)|))
  {
    var n := c as int;
    if n < 0x80 {
    } else if n < 0x800 {
      DecodeEncodeTwo(c, rest);
    } else if n < 0x10000 {
      DecodeEncodeThree(c, rest);
    } else {
      DecodeEncodeFour(c, rest);
    }
  }

  lemma DecodeEncodeTwo(c: char, rest: seq<byte>)
    requires 0x80 <= c as int < 0x800
    ensures DecodeChar(EncodeChar(c) + rest) == Some((c, 2))
  {
    var n := c as int;
    var b := EncodeChar(c) + rest;
    assert (n / 64) * 64 + n % 64 == n;
    assert b[0] as int - 0xC0 == n / 64;
    assert b[1] as int - 0x80 == n % 64;
  }

  lemma DecodeEncodeThree(c: char, rest: seq<byte>)
    requires 0x800 <= c as int < 0x10000
    ensures DecodeChar(EncodeChar(c) + rest) == Some((c, 3))
  {
    var n := c as int;
    var b := EncodeChar(c) + rest;
    SplitThree(n);
    assert b[0] as int - 0xE0 == n / 4096;
    assert b[1] as int - 0x80 == (n / 64) % 64;
    assert b[2] as int - 0x80 == n % 64;
  }

  lemma DecodeEncodeFour(c: char, rest: seq<byte>)
    requires 0x10000 <= c as int
    ensures DecodeChar(EncodeChar(c) + rest) == Some((c, 4))
  {
    var n := c as int;
    var b := EncodeChar(c) + rest;
    SplitFour(n);
    assert b[0] as int - 0xF0 == n / 262144;
    assert b[1] as int - 0x80 == (n / 4096) % 64;
    assert b[2] as int - 0x80 == (n / 64) % 64;
    assert b[3] as int - 0x80 == n % 64;
  }

  lemma SplitThree(n: nat)
    ensures (n / 4096) * 4096 + ((n / 64) % 64) * 64 + n % 64 == n
  {
    var q := n / 64;
    assert n == q * 64 + n % 64;
    assert q == (q / 64) * 64 + q % 64;
    assert q / 64 == n / 4096;
  }

  lemma SplitFour(n: nat)
    ensures (n / 262144) * 262144 + ((n / 4096) % 64) * 4096 + ((n / 64) % 64) * 64 + n % 64 == n
  {
    var q := n / 4096;
    SplitThree(n);
    assert q == (q / 64) * 64 + q % 64;
    assert q / 64 == n / 262144;
  }

  /** Decoding an encoding gives back the string. */
  lemma {:induction false} DecodeEncode(s: string)
    ensures Decode(Encode(s)) == Some(s)
    decreases |s|
  {
    if |s| > 0 {
      var e := EncodeChar(s[0]);
      DecodeEncodeChar(s[0], Encode(s[1..]));
      assert (e + Encode(s[1..]))[|e|..] == Encode(s[1..]);
      DecodeEncode(s[1..]);
      assert [s[0]] + s[1..] == s;
    }
  }

  lemma DivMod(n: int, d: int, q: int, r: int)
    requires d == 64 || d == 4096 || d == 262144
    requires 0 <= r < d && n == q * d + r
    ensures n / d == q && n % d == r
  {
    if d == 64 {
      assert n == q * 64 + r;
    } else if d == 4096 {
      assert n == q * 4096 + r;
    } else {
      assert n == q * 262144 + r;
    }
  }

  lemma EncodeDecodeChar(b: seq<byte>)
    requires |b| > 0 && DecodeChar(b).Some?
    ensures EncodeChar(DecodeChar(b).value.0) == b[..DecodeChar(b).value.1]
  {
    var b0 := b[0] as int;
    if b0 < 0x80 {
    } else if b0 < 0xE0 {
      var x1 := b[1] as int - 0x80;
      var n := (b0 - 0xC0) * 64 + x1;
      DivMod(n, 64, b0 - 0xC0, x1);
    } else if b0 < 0xF0 {
      var x1, x2 := b[1] as int - 0x80, b[2] as int - 0x80;
      var n := (b0 - 0xE0) * 4096 + x1 * 64 + x2;
      DivMod(n, 64, (b0 - 0xE0) * 64 + x1, x2);
      DivMod(n / 64, 64, b0 - 0xE0, x1);
      DivMod(n, 4096, b0 - 0xE0, x1 * 64 + x2);
    } else {
      var x1, x2, x3 := b[1] as int - 0x80, b[2] as int - 0x80, b[3] as int - 0x80;
      var n := (b0 - 0xF0) * 262144 + x1 * 4096 + x2 * 64 + x3;
      DivMod(n, 64, (b0 - 0xF0) * 4096 + x1 * 64 + x2, x3);
      DivMod(n / 64, 64, (b0 - 0xF0) * 64 + x1, x2);
      DivMod(n, 4096, (b0 - 0xF0) * 64 + x1, x2 * 64 + x3);
      DivMod(n / 4096, 64, b0 - 0xF0, x1);
      DivMod(n, 262144, b0 - 0xF0, x1 * 4096 + x2 * 64 + x3);
    }
  }

  /** A successful decoding encodes back to the same bytes: strict decoding
      accepts exactly one byte sequence per string. */
  lemma {:induction false} EncodeDecode(b: seq<byte>)
    requires Decode(b).Some?
    ensures Encode(Decode(b).value) == b
    decreases |b|
  {
    if |b| > 0 {
      var k := DecodeChar(b).value.1;
      EncodeDecodeChar(b);
      EncodeDecode(b[k..]);
      var s := Decode(b).value;
      assert s[1..] == Decode(b[k..]).value;
      assert b == b[..k] + b[k..];
    }
  }
}
