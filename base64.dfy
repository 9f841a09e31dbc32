/** Python's `base64` module as the receipt formats use it: `b64encode` and
    `urlsafe_b64encode` (the alphabets of RFC 4648, sections 4 and 5, with
    `=` padding), and the sextet arithmetic of `binascii.a2b_base64`. */
module Base64 {
  import opened Text

  newtype byte = x: int | 0 <= x < 256

  /** The standard alphabet ends in `+` `/`, the URL-safe one in `-` `_`. */
  datatype Alphabet = Standard | UrlSafe

  /** The character that encodes the six-bit value `v`. */
  function SextetChar(v: int, a: Alphabet): char
    requires 0 <= v < 64
  {
    if v < 26 then ('A' as int + v) as char
    else if v < 52 then ('a' as int + (v - 26)) as char
    else if v < 62 then ('0' as int + (v - 52)) as char
    else if v == 62 then (if a == Standard then '+' else '-')
    else (if a == Standard then '/' else '_')
  }

  predicate IsAlphabetChar(c: char, a: Alphabet) {
    IsAsciiAlnum(c) || (if a == Standard then c == '+' || c == '/' else c == '-' || c == '_')
  }

  /** The six-bit value a character of the alphabet stands for: the inverse of `SextetChar`. */
  function CharValue(c: char, a: Alphabet): (v: int)
    requires IsAlphabetChar(c, a)
    ensures 0 <= v < 64 && SextetChar(v, a) == c
  {
    if IsAsciiUpper(c) then c as int - 'A' as int
    else if IsAsciiLower(c) then c as int - 'a' as int + 26
    else if IsAsciiDigit(c) then c as int - '0' as int + 52
    else if c == '+' || c == '-' then 62
    else 63
  }

  lemma SextetCharValue(v: int, a: Alphabet)
    requires 0 <= v < 64
    ensures IsAlphabetChar(SextetChar(v, a), a) && CharValue(SextetChar(v, a), a) == v
  {
  }

  predicate AreSextets(vs: seq<int>) {
    forall i :: 0 <= i < |vs| ==> 0 <= vs[i] < 64
  }

  /** Number of sextets that encode `n` bytes, without padding. */
  function EncodedLength(n: nat): nat {
    4 * (n / 3) + (if n % 3 == 0 then 0 else n % 3 + 1)
  }

  /** Number of bytes decoded from `k` sextets (a lone sextet carries no byte). */
  function DecodedLength(k: nat): nat {
    3 * (k / 4) + (if k % 4 == 0 then 0 else k % 4 - 1)
  }

  /** The sextets of `b`, three bytes to four sextets, a short final group
      filled up with zero bits. */
  function EncodeSextets(b: seq<byte>): (vs: seq<int>)
    ensures |vs| == EncodedLength(|b|)
    ensures AreSextets(vs)
    decreases |b|
  {
    if |b| == 0 then []
    else
      var b0 := b[0] as int;
      if |b| == 1 then [b0 / 4, (b0 % 4) * 16]
      else
        var b1 := b[1] as int;
        if |b| == 2 then [b0 / 4, (b0 % 4) * 16 + b1 / 16, (b1 % 16) * 4]
        else
          var b2 := b[2] as int;
          [b0 / 4, (b0 % 4) * 16 + b1 / 16, (b1 % 16) * 4 + b2 / 64, b2 % 64] + EncodeSextets(b[3..])
  }

  /** The bytes that `binascii.a2b_base64` assembles from a run of sextets;
      the bits of a short final group that do not fill a byte are dropped. */
  function DecodeSextets(vs: seq<int>): (b: seq<byte>)
    requires AreSextets(vs)
    ensures |b| == DecodedLength(|vs|)
    decreases |vs|
  {
    if |vs| < 2 then []
    else
      var b0 := (vs[0] * 4 + vs[1] / 16) as byte;
      if |vs| == 2 then [b0]
      else
        var b1 := ((vs[1] % 16) * 16 + vs[2] / 4) as byte;
        if |vs| == 3 then [b0, b1]
        else [b0, b1, ((vs[2] % 4) * 64 + vs[3]) as byte] + DecodeSextets(vs[4..])
  }

  lemma ByteSplit(x: int, d: int)
    requires 0 <= x < 256 && (d == 4 || d == 16 || d == 64)
    ensures (x / d) * d + x % d == x
  {
  }

  /** Decoding the sextets of an encoding gives back the bytes. */
  lemma {:induction false} DecodeEncodeSextets(b: seq<byte>)
    ensures DecodeSextets(EncodeSextets(b)) == b
    decreases |b|
  {
    if |b| > 0 {
      var vs := EncodeSextets(b);
      ByteSplit(b[0] as int, 4);
      if |b| >= 2 {
        ByteSplit(b[1] as int, 16);
      }
      if |b| >= 3 {
        ByteSplit(b[2] as int, 64);
        DecodeEncodeSextets(b[3..]);
        assert vs[4..] == EncodeSextets(b[3..]);
        assert b == b[..3] + b[3..];
      } else if |b| == 2 {
        assert b == [b[0], b[1]];
      } else {
        assert b == [b[0]];
      }
    }
  }

  /** The text of a run of sextets. */
  function ToChars(vs: seq<int>, a: Alphabet): (s: string)
    requires AreSextets(vs)
    ensures |s| == |vs|
    ensures forall i :: 0 <= i < |s| ==> IsAlphabetChar(s[i], a)
  {
    seq(|vs|, i requires 0 <= i < |vs| => SextetChar(vs[i], a))
  }

  /** The sextets a run of alphabet characters stands for. */
  function FromChars(s: string, a: Alphabet): (vs: seq<int>)
    requires forall i :: 0 <= i < |s| ==> IsAlphabetChar(s[i], a)
    ensures |vs| == |s| && AreSextets(vs)
    ensures ToChars(vs, a) == s
  {
    seq(|s|, i requires 0 <= i < |s| => CharValue(s[i], a))
  }

  lemma FromToChars(vs: seq<int>, a: Alphabet)
    requires AreSextets(vs)
    ensures FromChars(ToChars(vs, a), a) == vs
  {
    forall i | 0 <= i < |vs| ensures FromChars(ToChars(vs, a), a)[i] == vs[i] {
      SextetCharValue(vs[i], a);
    }
  }

  /** The `=` characters `b64encode` appends after encoding `n` bytes. */
  function Padding(n: nat): (p: string)
    ensures |p| < 3 && forall i :: 0 <= i < |p| ==> p[i] == '='
    ensures |p| == (if n % 3 == 0 then 0 else 3 - n % 3)
  {
    if n % 3 == 1 then "==" else if n % 3 == 2 then "=" else ""
  }

  /** `base64.urlsafe_b64encode(b).replace(b'=', b'')` (and the same for
      the standard alphabet): the encoding without its padding. */
  function EncodeUnpadded(b: seq<byte>, a: Alphabet): (s: string)
    ensures |s| == EncodedLength(|b|) && |s| % 4 != 1
    ensures forall i :: 0 <= i < |s| ==> IsAlphabetChar(s[i], a)
  {
    ToChars(EncodeSextets(b), a)
  }

  /** `base64.b64encode(b)` and `base64.urlsafe_b64encode(b)`. */
  function Encode(b: seq<byte>, a: Alphabet): (s: string)
    ensures |s| % 4 == 0 && |s| == 4 * ((|b| + 2) / 3)
    ensures s[..EncodedLength(|b|)] == EncodeUnpadded(b, a)
    ensures forall i :: EncodedLength(|b|) <= i < |s| ==> s[i] == '='
  {
    EncodeUnpadded(b, a) + Padding(|b|)
  }

  /** Dropping the padding of an encoding leaves the unpadded encoding. */
  lemma RemovePaddingOfEncode(b: seq<byte>, a: Alphabet)
    ensures Remove(Encode(b, a), '=') == EncodeUnpadded(b, a)
  {
    var u := EncodeUnpadded(b, a);
    NoPadInAlphabet(u, a);
    RemoveAbsent(u, '=');
    RemoveAll(Padding(|b|), '=');
    RemoveConcat(u, Padding(|b|), '=');
  }

  lemma NoPadInAlphabet(s: string, a: Alphabet)
    requires forall i :: 0 <= i < |s| ==> IsAlphabetChar(s[i], a)
    ensures '=' !in s
  {
  }

  lemma {:induction false} RemoveAbsent(s: string, c: char)
    requires c !in s
    ensures Remove(s, c) == s
    decreases |s|
  {
    if |s| > 0 {
      RemoveAbsent(s[1..], c);
      assert s == [s[0]] + s[1..];
    }
  }

  lemma {:induction false} RemoveAll(s: string, c: char)
    requires forall i :: 0 <= i < |s| ==> s[i] == c
    ensures Remove(s, c) == ""
  {
  }

  lemma {:induction false} RemoveConcat(s: string, t: string, c: char)
    ensures Remove(s + t, c) == Remove(s, c) + Remove(t, c)
    decreases |s|
  {
    if |s| > 0 {
      RemoveConcat(s[1..], t, c);
      assert (s + t)[1..] == s[1..] + t;
    } else {
      assert s + t == t;
    }
  }
}
