/** The string helpers of `librksv/utils.py`: base64 padding restoration,
    the alphabet gates in front of the base64 and base32 decoders, PEM
    armouring, the receipt amount syntax (read as integer cents), the
    certificate fingerprint text and the key check. */
module Utils {
  import opened Wrappers
  import opened Errors
  import opened Text
  import opened Base64

  /** `restoreb64padding`: append the `=` characters that make the length a
      multiple of four. */
  function RestorePadding(data: string): (r: string)
    ensures |r| % 4 == 0
    ensures data <= r && |r| - |data| <= 3
    ensures forall i :: |data| <= i < |r| ==> r[i] == '='
    ensures |data| % 4 == 0 ==> r == data
  {
    var needed := 4 - |data| % 4;
    if needed < 4 then data + seq(needed, _ => '=') else data
  }

  /** Restoring the padding of an encoding whose padding was removed gives
      back the encoding. */
  lemma RestoreRemovedPadding(b: seq<byte>, a: Alphabet)
    ensures RestorePadding(Remove(Encode(b, a), '=')) == Encode(b, a)
  {
    RemovePaddingOfEncode(b, a);
    var e := Encode(b, a);
    var u := EncodeUnpadded(b, a);
    var r := RestorePadding(u);
    assert |r| == |e|;
    assert e[..|u|] == u;
    assert forall i :: 0 <= i < |e| ==> r[i] == e[i];
  }

  // ---------------------------------------------------------------------
  // Alphabet gates

  /** Length of the longest prefix of `s` whose characters are in the class. */
  function PrefixLength(s: string, inClass: char -> bool): (k: nat)
    ensures k <= |s|
    ensures forall i :: 0 <= i < k ==> inClass(s[i])
    ensures k < |s| ==> !inClass(s[k])
    decreases |s|
  {
    if |s| == 0 || !inClass(s[0]) then 0 else 1 + PrefixLength(s[1..], inClass)
  }

  /** `s` fully matches `[class]*={0,maxPad}` when split at `k`. */
  predicate MatchesAt(s: string, inClass: char -> bool, maxPad: nat, k: int) {
    0 <= k <= |s| && |s| - k <= maxPad &&
    (forall i :: 0 <= i < k ==> inClass(s[i])) &&
    (forall i :: k <= i < |s| ==> s[i] == '=')
  }

  /** The gate as the decoders evaluate it: the longest run of class
      characters, then nothing but at most `maxPad` `=` characters. */
  predicate FullMatch(s: string, inClass: char -> bool, maxPad: nat) {
    var k := PrefixLength(s, inClass);
    |s| - k <= maxPad && forall i :: k <= i < |s| ==> s[i] == '='
  }

  /** The gate accepts exactly the strings of the regular language
      `[class]*={0,maxPad}`, for any class without `=`. */
  lemma FullMatchIsRegex(s: string, inClass: char -> bool, maxPad: nat)
    requires !inClass('=')
    ensures FullMatch(s, inClass, maxPad) <==> exists k :: MatchesAt(s, inClass, maxPad, k)
  {
    var k := PrefixLength(s, inClass);
    if FullMatch(s, inClass, maxPad) {
      assert MatchesAt(s, inClass, maxPad, k);
    }
    if j :| MatchesAt(s, inClass, maxPad, j) {
      if j < k {
        assert s[j] == '=' && inClass(s[j]);
      }
    }
  }

  predicate IsUrlsafeGateChar(c: char) { IsAlphabetChar(c, UrlSafe) }
  predicate IsB64GateChar(c: char) { IsAlphabetChar(c, Standard) }
  /** `[A-Z2-7/+]`, with the `/` and `+` the base32 gate admits. */
  predicate IsB32GateChar(c: char) { IsAsciiUpper(c) || ('2' <= c <= '7') || c == '/' || c == '+' }

  /** `urlsafe_b64Regex`: `^[a-zA-Z0-9_-]*={0,3}$` as a full match. */
  predicate UrlsafeGate(s: string) { FullMatch(s, IsUrlsafeGateChar, 3) }
  /** `b64Regex`: `^[a-zA-Z0-9/+]*={0,3}$` as a full match. */
  predicate B64Gate(s: string) { FullMatch(s, IsB64GateChar, 3) }
  /** `b32Regex`: `^[A-Z2-7/+]*={0,7}$` as a full match. */
  predicate B32Gate(s: string) { FullMatch(s, IsB32GateChar, 7) }

  function AlphabetClass(a: Alphabet): char -> bool {
    if a == UrlSafe then IsUrlsafeGateChar else IsB64GateChar
  }

  /** What `binascii.a2b_base64` makes of text that passed a gate: the data
      characters followed by at most three `=`.  A data length of one more
      than a multiple of four is an error, and so is a final group of two
      or three characters without at least two or one `=` behind it; the
      bits of the final group that do not fill a byte are dropped. */
  function DecodeGated(s: string, a: Alphabet): (r: Result<seq<byte>, Error>)
    requires FullMatch(s, AlphabetClass(a), 3)
    ensures r.Err? ==> r.error == BinasciiError
    ensures r.Ok? ==> |r.value| == DecodedLength(PrefixLength(s, AlphabetClass(a)))
  {
    var k := PrefixLength(s, AlphabetClass(a));
    var pads := |s| - k;
    if k % 4 == 1 then Err(BinasciiError)
    else if (k % 4 == 2 && pads < 2) || (k % 4 == 3 && pads < 1) then Err(BinasciiError)
    else
      assert forall i :: 0 <= i < k ==> IsAlphabetChar(s[..k][i], a);
      Ok(DecodeSextets(FromChars(s[..k], a)))
  }

  /** `utils.urlsafe_b64decode`: the gate, then the library decoder. */
  function UrlsafeB64Decode(data: string): (r: Result<seq<byte>, Error>)
    ensures !UrlsafeGate(data) <==> r == Err(TypeError)
    ensures r.Err? ==> r.error == TypeError || r.error == BinasciiError
  {
    if !UrlsafeGate(data) then Err(TypeError) else DecodeGated(data, UrlSafe)
  }

  /** `utils.b64decode`: the gate, then the library decoder. */
  function B64Decode(data: string): (r: Result<seq<byte>, Error>)
    ensures !B64Gate(data) <==> r == Err(TypeError)
    ensures r.Err? ==> r.error == TypeError || r.error == BinasciiError
  {
    if !B64Gate(data) then Err(TypeError) else DecodeGated(data, Standard)
  }

  /** `utils.b32decode`: the gate, then the library decoder `b32`, which is
      not part of this model. */
  function B32Decode(data: string, b32: string -> Result<seq<byte>, Error>): (r: Result<seq<byte>, Error>)
    ensures !B32Gate(data) ==> r == Err(TypeError)
    ensures B32Gate(data) ==> r == b32(data)
  {
    if !B32Gate(data) then Err(TypeError) else b32(data)
  }

  function Decode(data: string, a: Alphabet): Result<seq<byte>, Error> {
    if a == UrlSafe then UrlsafeB64Decode(data) else B64Decode(data)
  }

  lemma PrefixLengthOfEncoding(u: string, a: Alphabet, pad: string)
    requires forall i :: 0 <= i < |u| ==> IsAlphabetChar(u[i], a)
    requires forall i :: 0 <= i < |pad| ==> pad[i] == '='
    ensures PrefixLength(u + pad, AlphabetClass(a)) == |u|
    decreases |u|
  {
    if |u| > 0 {
      assert (u + pad)[1..] == u[1..] + pad;
      PrefixLengthOfEncoding(u[1..], a, pad);
    }
  }

  /** The gated decoders read back what the encoder writes. */
  lemma DecodeEncode(b: seq<byte>, a: Alphabet)
    ensures Decode(Encode(b, a), a) == Ok(b)
  {
    var u := EncodeUnpadded(b, a);
    var s := Encode(b, a);
    var pad := Padding(|b|);
    assert s == u + pad;
    PrefixLengthOfEncoding(u, a, pad);
    assert s[..|u|] == u;
    FromToChars(EncodeSextets(b), a);
    DecodeEncodeSextets(b);
  }

  /** An encoding with its padding removed and then restored decodes to the
      original bytes: the round trip of JWS segments and signatures. */
  lemma DecodeRestoredUnpadded(b: seq<byte>, a: Alphabet)
    ensures Decode(RestorePadding(EncodeUnpadded(b, a)), a) == Ok(b)
  {
    RemovePaddingOfEncode(b, a);
    RestoreRemovedPadding(b, a);
    DecodeEncode(b, a);
  }

  /** The unpadded text a decoder accepts once the padding is restored:
      alphabet characters only, of a length that is not one more than a
      multiple of four. */
  lemma DecodeRestoredAccepts(s: string, a: Alphabet)
    requires '=' !in s
    ensures Decode(RestorePadding(s), a).Ok? <==>
      (forall i :: 0 <= i < |s| ==> AlphabetClass(a)(s[i])) && |s| % 4 != 1
  {
    var r := RestorePadding(s);
    var k := PrefixLength(r, AlphabetClass(a));
    if forall i :: 0 <= i < |s| ==> AlphabetClass(a)(s[i]) {
      assert r == s + r[|s|..];
      PrefixLengthOfEncoding(s, a, r[|s|..]);
      assert k == |s|;
    } else {
      var j :| 0 <= j < |s| && !AlphabetClass(a)(s[j]);
      assert k <= j;
      assert r[j] == s[j] && r[j] != '=';
    }
  }

  // ---------------------------------------------------------------------
  // PEM armour

  /** `[s[i:i+64] for i in range(0, len(s), 64)]`. */
  function Chunks(s: string): (cs: seq<string>)
    ensures forall i :: 0 <= i < |cs| ==> 0 < |cs[i]| <= 64
    ensures forall i :: 0 <= i < |cs| - 1 ==> |cs[i]| == 64
    ensures forall i, j :: 0 <= i < |cs| && 0 <= j < |cs[i]| ==> cs[i][j] in s
    ensures Concat(cs) == s
    decreases |s|
  {
    if |s| == 0 then []
    else if |s| <= 64 then [s]
    else
      var rest := Chunks(s[64..]);
      assert s == s[..64] + s[64..];
      [s[..64]] + rest
  }

  function PemHead(kind: string): string { "-----BEGIN " + kind + "-----" }
  function PemFoot(kind: string): string { "-----END " + kind + "-----" }

  function PemArmor(kind: string, body: string): string {
    PemHead(kind) + "\n" + Join(Chunks(body), '\n') + "\n" + PemFoot(kind)
  }

  /** `addPEMCertHeaders`: a one-line base64 certificate between the
      `CERTIFICATE` BEGIN and END lines, cut into lines of 64 characters
      (the last one possibly shorter). */
  function AddPEMCertHeaders(cert: string): (pem: string)
    ensures '\n' !in cert && |cert| > 0 ==>
      var lines := Split(pem, '\n');
      |lines| >= 3 && lines[0] == PemHead("CERTIFICATE") &&
      lines[|lines| - 1] == PemFoot("CERTIFICATE") &&
      Concat(lines[1..|lines| - 1]) == cert &&
      (forall i :: 1 <= i < |lines| - 1 ==> 0 < |lines[i]| <= 64) &&
      (forall i :: 1 <= i < |lines| - 2 ==> |lines[i]| == 64)
  {
    PemArmorLinesIf("CERTIFICATE", cert);
    PemArmor("CERTIFICATE", cert)
  }

  /** `addPEMPubKeyHeaders`: the same armour with `PUBLIC KEY`. */
  function AddPEMPubKeyHeaders(pubKey: string): (pem: string)
    ensures '\n' !in pubKey && |pubKey| > 0 ==>
      var lines := Split(pem, '\n');
      |lines| >= 3 && lines[0] == PemHead("PUBLIC KEY") &&
      lines[|lines| - 1] == PemFoot("PUBLIC KEY") &&
      Concat(lines[1..|lines| - 1]) == pubKey &&
      (forall i :: 1 <= i < |lines| - 1 ==> 0 < |lines[i]| <= 64) &&
      (forall i :: 1 <= i < |lines| - 2 ==> |lines[i]| == 64)
  {
    PemArmorLinesIf("PUBLIC KEY", pubKey);
    PemArmor("PUBLIC KEY", pubKey)
  }

  lemma PemArmorLinesIf(kind: string, body: string)
    requires '\n' !in kind
    ensures '\n' !in body && |body| > 0 ==>
      var lines := Split(PemArmor(kind, body), '\n');
      |lines| >= 3 && lines[0] == PemHead(kind) && lines[|lines| - 1] == PemFoot(kind) &&
      Concat(lines[1..|lines| - 1]) == body &&
      (forall i :: 1 <= i < |lines| - 1 ==> 0 < |lines[i]| <= 64) &&
      (forall i :: 1 <= i < |lines| - 2 ==> |lines[i]| == 64)
  {
    if '\n' !in body && |body| > 0 {
      PemArmorLines(kind, body);
    }
  }

  /** The lines of an armoured body: the BEGIN line, the body cut into lines
      of 64 characters (the last one possibly shorter) that concatenate to
      the body, and the END line. */
  lemma {:induction false} PemArmorLines(kind: string, body: string)
    requires '\n' !in kind && '\n' !in body && |body| > 0
    ensures var lines := Split(PemArmor(kind, body), '\n');
      |lines| >= 3 && lines[0] == PemHead(kind) && lines[|lines| - 1] == PemFoot(kind) &&
      Concat(lines[1..|lines| - 1]) == body &&
      (forall i :: 1 <= i < |lines| - 1 ==> 0 < |lines[i]| <= 64) &&
      (forall i :: 1 <= i < |lines| - 2 ==> |lines[i]| == 64)
  {
    var head := PemHead(kind);
    var foot := PemFoot(kind);
    var cs := Chunks(body);
    JoinAppend([head], cs, '\n');
    JoinAppend([head] + cs, [foot], '\n');
    var all := [head] + cs + [foot];
    assert PemArmor(kind, body) == Join(all, '\n');
    forall i | 0 <= i < |all| ensures '\n' !in all[i] {
      if 0 < i < |all| - 1 {
        assert all[i] == cs[i - 1];
      }
    }
    SplitJoin(all, '\n');
    assert all[1..|all| - 1] == cs;
  }

  // ---------------------------------------------------------------------
  // Certificate fingerprints

  function HexDigit(v: int): char
    requires 0 <= v < 16
  {
    if v < 10 then ('0' as int + v) as char else ('a' as int + v - 10) as char
  }

  /** `'{:02x}'.format(b)`. */
  function Hex2(b: byte): string {
    [HexDigit(b as int / 16), HexDigit(b as int % 16)]
  }

  lemma Hex2Injective(x: byte, y: byte)
    requires Hex2(x) == Hex2(y)
    ensures x == y
  {
    assert Hex2(x)[0] == Hex2(y)[0] && Hex2(x)[1] == Hex2(y)[1];
    assert x as int / 16 == y as int / 16;
    assert x as int == (x as int / 16) * 16 + x as int % 16;
  }

  function HexGroups(fp: seq<byte>): (gs: seq<string>)
    ensures |gs| == |fp| && forall i :: 0 <= i < |fp| ==> gs[i] == Hex2(fp[i])
  {
    seq(|fp|, i requires 0 <= i < |fp| => Hex2(fp[i]))
  }

  /** `certFingerprint`: the SHA-256 digest of the certificate (computed
      outside this model) as two-digit lower-case hex groups joined by `:`. */
  function CertFingerprint(fp: seq<byte>): (r: string)
    ensures |fp| > 0 ==> |r| == 3 * |fp| - 1
    ensures |fp| == 0 ==> r == ""
  {
    HexLength(fp);
    Join(HexGroups(fp), ':')
  }

  lemma {:induction false} HexLength(fp: seq<byte>)
    ensures |fp| > 0 ==> |Join(HexGroups(fp), ':')| == 3 * |fp| - 1
    decreases |fp|
  {
    if |fp| > 1 {
      HexLength(fp[1..]);
      assert HexGroups(fp)[1..] == HexGroups(fp[1..]);
    }
  }

  /** Different digests give different fingerprints. */
  lemma CertFingerprintInjective(x: seq<byte>, y: seq<byte>)
    requires CertFingerprint(x) == CertFingerprint(y)
    ensures x == y
  {
    if |x| > 0 && |y| > 0 {
      SplitJoin(HexGroups(x), ':');
      SplitJoin(HexGroups(y), ':');
      assert HexGroups(x) == HexGroups(y);
      forall i | 0 <= i < |x| ensures x[i] == y[i] {
        Hex2Injective(x[i], y[i]);
      }
    }
  }

  // ---------------------------------------------------------------------
  // Amounts

  /** `([1-9]\d+|\d)`: decimal digits without a leading zero. */
  predicate IsIntegerPart(t: string) {
    IsDigits(t) && (|t| == 1 || t[0] != '0')
  }

  /** `receiptFloatRegex`, `^-?([1-9]\d+|\d),\d\d$`, as a full match. */
  predicate IsAmount(s: string) {
    var u := if |s| > 0 && s[0] == '-' then s[1..] else s;
    |u| >= 4 && u[|u| - 3] == ',' && IsDigits(u[|u| - 2..]) && IsIntegerPart(u[..|u| - 3])
  }

  function DigitValue(c: char): (d: int)
    requires IsAsciiDigit(c)
    ensures 0 <= d < 10
  {
    c as int - '0' as int
  }

  lemma TwoDigitsValue(t: string)
    requires |t| == 2 && IsAsciiDigit(t[0]) && IsAsciiDigit(t[1])
    ensures DigitsValue(t) == DigitValue(t[0]) * 10 + DigitValue(t[1])
  {
    assert DigitsValue(t) == DigitsValue(t[..1]) * 10 + DigitValue(t[1]);
    assert DigitsValue(t[..1]) == DigitsValue(t[..1][..0]) * 10 + DigitValue(t[0]);
    assert DigitsValue(t[..1][..0]) == 0;
  }

  /** The value of a run of decimal digits. */
  function DigitsValue(t: string): (n: nat)
    requires forall i :: 0 <= i < |t| ==> IsAsciiDigit(t[i])
    decreases |t|
  {
    if |t| == 0 then 0 else DigitsValue(t[..|t| - 1]) * 10 + DigitValue(t[|t| - 1])
  }

  /** `getReceiptFloat` read as a count of cents: None for anything outside
      the amount syntax, else the signed value times one hundred. */
  function ReceiptCents(s: string): (r: Option<int>)
    ensures r.Some? <==> IsAmount(s)
  {
    if !IsAmount(s) then None
    else
      var neg := s[0] == '-';
      var u := if neg then s[1..] else s;
      var whole := DigitsValue(u[..|u| - 3]);
      var frac := DigitsValue(u[|u| - 2..]);
      var m := whole * 100 + frac;
      Some(if neg then -m else m)
  }

  function DigitChar(d: int): char
    requires 0 <= d < 10
  {
    ('0' as int + d) as char
  }

  /** The decimal text of `n` without leading zeros. */
  function NatText(n: nat): (t: string)
    ensures IsIntegerPart(t)
    ensures DigitsValue(t) == n
    decreases n
  {
    if n < 10 then [DigitChar(n)]
    else
      var p := NatText(n / 10);
      var t := p + [DigitChar(n % 10)];
      assert t[..|t| - 1] == p;
      t
  }

  /** `cents` as unsigned amount text: whole units, a comma, two digits. */
  function UnsignedAmountText(cents: nat): (u: string)
    ensures u == NatText(cents / 100) + "," + [DigitChar((cents % 100) / 10), DigitChar(cents % 10)]
  {
    NatText(cents / 100) + "," + [DigitChar((cents % 100) / 10), DigitChar(cents % 10)]
  }

  /** An amount written the way receipts write it. */
  function CentsText(c: int): (s: string)
    ensures IsAmount(s)
    ensures ReceiptCents(s) == Some(c)
  {
    var m := if c < 0 then -c else c;
    var u := UnsignedAmountText(m);
    UnsignedAmountParts(m);
    if c < 0 then
      assert ("-" + u)[1..] == u;
      "-" + u
    else u
  }

  /** The text of `m` cents has the amount syntax and reads back as `m`. */
  lemma UnsignedAmountParts(m: nat)
    ensures var u := UnsignedAmountText(m);
      |u| >= 4 && u[0] != '-' && u[|u| - 3] == ',' && IsDigits(u[|u| - 2..]) && IsIntegerPart(u[..|u| - 3]) &&
      DigitsValue(u[..|u| - 3]) * 100 + DigitsValue(u[|u| - 2..]) == m
  {
    var u := UnsignedAmountText(m);
    var w := NatText(m / 100);
    var frac := [DigitChar((m % 100) / 10), DigitChar(m % 10)];
    assert u[..|u| - 3] == w && u[|u| - 2..] == frac;
    assert u[0] == w[0];
    TwoDigitsValue(frac);
    DigitSplit(m);
  }

  /** Whole units, tens of cents and cents make up an amount. */
  lemma DigitSplit(m: nat)
    ensures (m / 100) * 100 + ((m % 100) / 10) * 10 + m % 10 == m
  {
    var r := m % 100;
    assert m == (m / 100) * 100 + r;
    assert m % 10 == r % 10;
    assert (r / 10) * 10 + r % 10 == r;
  }

  /** The unsigned part of an amount is the text of its value. */
  lemma UnsignedAmountTextOf(u: string)
    requires |u| >= 4 && u[|u| - 3] == ',' && IsDigits(u[|u| - 2..]) && IsIntegerPart(u[..|u| - 3])
    ensures UnsignedAmountText(DigitsValue(u[..|u| - 3]) * 100 + DigitsValue(u[|u| - 2..])) == u
  {
    var w := u[..|u| - 3];
    var f := u[|u| - 2..];
    NatTextOfDigits(w);
    TwoDigitsValue(f);
    var m := DigitsValue(w) * 100 + DigitsValue(f);
    assert m / 100 == DigitsValue(w) && m % 100 == DigitsValue(f);
    assert [DigitChar((m % 100) / 10), DigitChar(m % 10)] == f;
    assert u == w + "," + f;
  }

  lemma {:induction false} LeadingDigitPositive(t: string)
    requires IsDigits(t) && t[0] != '0'
    ensures DigitsValue(t) >= 1
    decreases |t|
  {
    if |t| > 1 {
      LeadingDigitPositive(t[..|t| - 1]);
    }
  }

  lemma {:induction false} NatTextOfDigits(t: string)
    requires IsIntegerPart(t)
    ensures NatText(DigitsValue(t)) == t
    decreases |t|
  {
    if |t| > 1 {
      var p := t[..|t| - 1];
      LeadingDigitPositive(p);
      NatTextOfDigits(p);
      assert t == p + [t[|t| - 1]];
    }
  }

  /** Every amount except `-0,00` is the receipt text of its value: the
      syntax admits no second spelling of a number. */
  lemma CentsTextOfAmount(s: string)
    requires IsAmount(s) && s != "-0,00"
    ensures CentsText(ReceiptCents(s).value) == s
  {
    if s[0] == '-' {
      NegativeAmountTextOf(s);
    } else {
      var m := DigitsValue(s[..|s| - 3]) * 100 + DigitsValue(s[|s| - 2..]);
      UnsignedAmountTextOf(s);
      assert ReceiptCents(s) == Some(m);
      CentsTextSign(m);
    }
  }

  lemma NegativeAmountTextOf(s: string)
    requires IsAmount(s) && s != "-0,00" && s[0] == '-'
    ensures CentsText(ReceiptCents(s).value) == s
  {
    var u := s[1..];
    var m := DigitsValue(u[..|u| - 3]) * 100 + DigitsValue(u[|u| - 2..]);
    UnsignedAmountTextOf(u);
    assert ReceiptCents(s) == Some(-m);
    assert s == "-" + u;
    NegativeAmountText(u, m);
  }

  lemma NegativeAmountText(u: string, m: nat)
    requires UnsignedAmountText(m) == u && "-" + u != "-0,00"
    ensures CentsText(-(m as int)) == "-" + u
  {
    if m == 0 {
      ZeroAmountText();
      assert false;
    }
    CentsTextSign(m);
  }

  lemma ZeroAmountText()
    ensures UnsignedAmountText(0) == "0,00"
  {
    assert NatText(0) == "0";
  }

  /** An amount's text is its magnitude's text, signed when negative. */
  lemma CentsTextSign(m: nat)
    ensures CentsText(m) == UnsignedAmountText(m)
    ensures m > 0 ==> CentsText(-(m as int)) == "-" + UnsignedAmountText(m)
  {
  }

  // ---------------------------------------------------------------------
  // Keys

  /** `raiseForKey`: `InvalidKeyException` exactly when the algorithm's
      key check `verifyKey` rejects the key. */
  function RaiseForKey(key: seq<byte>, verifyKey: seq<byte> -> bool): (r: Result<(), Error>)
    ensures r.Err? <==> !verifyKey(key)
    ensures r.Err? ==> r.error == InvalidKey
  {
    if !verifyKey(key) then Err(InvalidKey) else Ok(())
  }
}
