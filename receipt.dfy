/** `librksv/receipt.py`: the receipt record, its validation, the
    certificate-serial classes, and the JWS, machine-readable ("basic
    code") and CSV forms a receipt is read from and written to.  A receipt
    keeps the text of every field as it was read, so that writing it out
    again reproduces what was signed. */
module Receipts {
  import opened Wrappers
  import opened Errors
  import opened Text
  import opened Base64
  import Utf8
  import opened Utils

  type Key = seq<byte>

  /** A public key; its contents matter only to the signature check. */
  datatype PublicKey = PublicKey(material: seq<byte>)

  /** An amount: the text of the receipt and its value in cents. */
  datatype Amount = Amount(text: string, cents: int)

  /** The JWS header and the unpadded URL-safe base64 signature of a signed receipt. */
  datatype Signature = Signature(header: string, value: string)

  /** The twelve field texts a receipt is built from, in payload order
      after the algorithm prefix. */
  datatype Fields = Fields(
    zda: string, registerId: string, receiptId: string, dateTime: string,
    sumA: string, sumB: string, sumC: string, sumD: string, sumE: string,
    encTurnoverCounter: string, certSerial: string, previousChain: string)

  /** A receipt object: `signature` is None until `sign` has been applied. */
  datatype Receipt = Receipt(
    zda: string, registerId: string, receiptId: string,
    dateTimeStr: string, dateTime: int,
    sumA: Amount, sumB: Amount, sumC: Amount, sumD: Amount, sumE: Amount,
    encTurnoverCounter: string, certSerial: string, previousChain: string,
    signature: Option<Signature>)

  /** An entry of the algorithm table (`algorithms.ALGORITHMS`, which is
      not part of this model), reduced to what the core uses: its JWS
      header, the length of its chaining value, the chaining hash over a
      receipt and the previous JWS, the JWS signature check, the key check
      and the turnover counter decryption. */
  datatype Algorithm = Algorithm(
    jwsHeader: string,
    chainBytes: nat,
    chain: (Receipt, Option<string>) -> seq<byte>,
    verify: (string, PublicKey) -> bool,
    verifyKey: Key -> bool,
    decryptTurnoverCounter: (Receipt, seq<byte>, Key) -> int)

  /** The algorithm table and `strptime` with the format
      `%Y-%m-%dT%H:%M:%S`, mapping a timestamp to a point on a totally
      ordered time line. */
  datatype Env = Env(algorithms: map<string, Algorithm>, parseTime: string -> Option<int>)

  /** A parse result: the signed receipt and the algorithm prefix it names. */
  datatype Parsed = Parsed(receipt: Receipt, algorithmPrefix: string)

  // ---------------------------------------------------------------------
  // Certificate serials

  datatype CertSerialType = Serial | Tax | Uid | Gln | Invalid

  /** `S:` and nine digits: a tax number. */
  predicate IsTaxNumber(b: string) {
    |b| == 11 && b[..2] == "S:" && IsDigits(b[2..])
  }

  /** `U:` and upper-case letters or digits, 3 to 16 characters in all. */
  predicate IsUidNumber(b: string) {
    3 <= |b| <= 16 && b[..2] == "U:" && IsAlnum(b[2..]) && IsUpperInvariant(b[2..])
  }

  /** `G:` and thirteen digits: a global location number. */
  predicate IsGlnNumber(b: string) {
    |b| == 15 && b[..2] == "G:" && IsDigits(b[2..])
  }

  /** The characters `int()` skips around a number: the ASCII white space
      of C, and any Unicode white space beyond ASCII. */
  predicate IsIntSpace(c: char) {
    c == ' ' || ('\t' <= c <= '\r') || (c as int >= 127 && IsSpace(c))
  }

  function IntStrip(s: string): (r: string)
    ensures |r| <= |s|
    decreases |s|
  {
    if |s| > 0 && IsIntSpace(s[0]) then IntStrip(s[1..])
    else if |s| > 0 && IsIntSpace(s[|s| - 1]) then IntStrip(s[..|s| - 1])
    else s
  }

  predicate IsDigitOf(c: char, hex: bool) {
    IsAsciiDigit(c) || (hex && (('a' <= c <= 'f') || ('A' <= c <= 'F')))
  }

  /** Digits with single underscores between them. */
  predicate IsDigitSeq(v: string, hex: bool) {
    |v| > 0 && IsDigitOf(v[0], hex) &&
    forall i {:trigger v[i]} :: 0 < i < |v| ==>
      IsDigitOf(v[i], hex) || (v[i] == '_' && i + 1 < |v| && IsDigitOf(v[i + 1], hex))
  }

  /** The digits of `int()`; after a `0x` prefix one leading underscore is
      allowed too. */
  predicate IsDigitRun(s: string, hex: bool, afterPrefix: bool) {
    if afterPrefix && |s| > 0 && s[0] == '_' then IsDigitSeq(s[1..], hex) else IsDigitSeq(s, hex)
  }

  /** `int(s, 16)` (hex) or `int(s, 10)` succeeds. */
  predicate IsPyInt(s: string, hex: bool) {
    var t := IntStrip(s);
    var u := if |t| > 0 && (t[0] == '+' || t[0] == '-') then t[1..] else t;
    if hex && |u| >= 2 && u[0] == '0' && (u[1] == 'x' || u[1] == 'X') then IsDigitRun(u[2..], true, true)
    else IsDigitRun(u, hex, false)
  }

  /** Every decimal number is also read by `int(s, 16)`, so the decimal
      retry in `getCertSerialType` never changes the outcome. */
  lemma DecimalIsHex(s: string)
    requires IsPyInt(s, false)
    ensures IsPyInt(s, true)
  {
    var t := IntStrip(s);
    var u := if |t| > 0 && (t[0] == '+' || t[0] == '-') then t[1..] else t;
    assert IsDigitSeq(u, false);
    if |u| >= 2 && u[0] == '0' && (u[1] == 'x' || u[1] == 'X') {
      assert false;
    }
    forall i | 0 < i < |u|
      ensures IsDigitOf(u[i], true) || (u[i] == '_' && i + 1 < |u| && IsDigitOf(u[i + 1], true))
    {
      assert IsDigitOf(u[i], false) || (u[i] == '_' && i + 1 < |u| && IsDigitOf(u[i + 1], false));
    }
  }

  /** The serial without a leading `-` when that is its only `-`. */
  function DropLeadingMinus(s: string): string {
    if |s| > 0 && s[0] == '-' && '-' !in s[1..] then s[1..] else s
  }

  /** At most one `-suffix`, and that one alphanumeric. */
  predicate HasValidSuffix(s: string) {
    var parts := Split(DropLeadingMinus(s), '-');
    |parts| <= 2 && (|parts| == 2 ==> IsAlnum(parts[1]))
  }

  /** The serial without its suffix. */
  function SerialBase(s: string): string {
    Split(DropLeadingMinus(s), '-')[0]
  }

  /** `CertSerialType.getCertSerialType`. */
  function GetCertSerialType(certSerial: string): (t: CertSerialType)
    ensures t != Invalid ==> |certSerial| > 0 && HasValidSuffix(certSerial)
    ensures t == Tax <==> |certSerial| > 0 && HasValidSuffix(certSerial) && IsTaxNumber(SerialBase(certSerial))
    ensures t == Uid <==> |certSerial| > 0 && HasValidSuffix(certSerial) && IsUidNumber(SerialBase(certSerial))
    ensures t == Gln <==> |certSerial| > 0 && HasValidSuffix(certSerial) && IsGlnNumber(SerialBase(certSerial))
    ensures t == Serial <==>
      |certSerial| > 0 && HasValidSuffix(certSerial) &&
      var b := SerialBase(certSerial);
      !IsTaxNumber(b) && !IsUidNumber(b) && !IsGlnNumber(b) && IsPyInt(b, true)
  {
    if |certSerial| == 0 then Invalid
    else
      var parts := Split(DropLeadingMinus(certSerial), '-');
      if |parts| > 2 then Invalid
      else if |parts| == 2 && !IsAlnum(parts[1]) then Invalid
      else
        var b := parts[0];
        if IsTaxNumber(b) then Tax
        else if IsUidNumber(b) then Uid
        else if IsGlnNumber(b) then Gln
        else if IsPyInt(b, true) then Serial
        else if IsPyInt(b, false) then (DecimalIsHex(b); Serial)
        else Invalid
  }

  // ---------------------------------------------------------------------
  // Regular expressions matched with `re.match` and `$`, which also
  // accepts one trailing newline

  predicate MatchesWithOptionalNewline(s: string, p: string -> bool) {
    p(s) || (|s| > 0 && s[|s| - 1] == '\n' && p(s[..|s| - 1]))
  }

  predicate IsZdaCore(z: string) {
    z == "AT0" ||
    (|z| >= 3 && IsAsciiUpper(z[0]) && IsAsciiUpper(z[1]) && '1' <= z[2] <= '9' &&
     forall i :: 3 <= i < |z| ==> IsAsciiDigit(z[i]))
  }

  /** `zdaRegex`: `^([A-Z][A-Z][1-9]\d*|AT0)$`. */
  predicate IsZda(z: string) { MatchesWithOptionalNewline(z, IsZdaCore) }

  predicate IsAlgorithmIdCore(p: string) {
    |p| >= 2 && p[0] == 'R' && '1' <= p[1] <= '9' && forall i :: 2 <= i < |p| ==> IsAsciiDigit(p[i])
  }

  /** `algRegex`: `^R[1-9]\d*$`. */
  predicate IsAlgorithmId(p: string) { MatchesWithOptionalNewline(p, IsAlgorithmIdCore) }

  // ---------------------------------------------------------------------
  // The receipt constructor

  /** The decoded turnover counter `TRA` marks a dummy (training) receipt. */
  const DummyMarker: seq<byte> := [0x54, 0x52, 0x41]
  /** The decoded turnover counter `STO` marks a reversal (cancellation). */
  const ReversalMarker: seq<byte> := [0x53, 0x54, 0x4F]

  predicate IsDummyCounter(encTurnoverCounter: string) {
    B64Decode(encTurnoverCounter) == Ok(DummyMarker)
  }

  predicate IsReversalCounter(encTurnoverCounter: string) {
    B64Decode(encTurnoverCounter) == Ok(ReversalMarker)
  }

  /** The rule checked after construction: a non-empty decoded counter is
      5 to 16 bytes long unless the receipt is a dummy or a reversal. */
  predicate TurnoverCounterLengthOk(encTurnoverCounter: string)
    requires B64Decode(encTurnoverCounter).Ok?
  {
    var n := |B64Decode(encTurnoverCounter).value|;
    n == 0 || 5 <= n <= 16 || IsDummyCounter(encTurnoverCounter) || IsReversalCounter(encTurnoverCounter)
  }

  /** The certificate provider must match the serial: an AT0 receipt (a
      closed system) names a tax, UID or GLN number, any other provider a
      certificate serial. */
  predicate ProviderMatchesSerial(zda: string, t: CertSerialType) {
    t != Invalid && (t == Serial <==> zda != "AT0")
  }

  /** `_getSum`. */
  function GetSum(s: string, receiptId: string): (r: Result<Amount, Error>)
    ensures r.Ok? <==> IsAmount(s)
    ensures r.Ok? ==> r.value.text == s && ReceiptCents(s) == Some(r.value.cents)
    ensures r.Err? ==> r.error == MalformedReceipt(receiptId)
  {
    match ReceiptCents(s)
    case None => Err(MalformedReceipt(receiptId))
    case Some(c) => Ok(Amount(s, c))
  }

  /** The sums read in order; the first malformed one raises. */
  function GetSums(texts: seq<string>, receiptId: string): (r: Result<seq<Amount>, Error>)
    ensures r.Ok? <==> forall i :: 0 <= i < |texts| ==> IsAmount(texts[i])
    ensures r.Ok? ==> |r.value| == |texts| && forall i :: 0 <= i < |texts| ==> r.value[i].text == texts[i]
    ensures r.Err? ==> r.error == MalformedReceipt(receiptId)
  {
    if |texts| == 0 then Ok([])
    else match GetSum(texts[0], receiptId)
      case Err(e) => Err(e)
      case Ok(a) =>
        match GetSums(texts[1..], receiptId)
        case Err(e) => Err(e)
        case Ok(rest) => Ok([a] + rest)
  }

  function Sums(f: Fields): seq<string> {
    [f.sumA, f.sumB, f.sumC, f.sumD, f.sumE]
  }

  /** The checks of the identifying fields, in their order. */
  function CheckIdentity(env: Env, f: Fields): (e: Option<Error>)
    ensures f.receiptId == "" ==> e == Some(MalformedReceipt("Unknown Receipt"))
    ensures f.receiptId != "" && e.Some? ==> e.value == MalformedReceipt(f.receiptId)
    ensures e.None? <==>
      f.receiptId != "" && '_' !in f.receiptId && f.registerId != "" && '_' !in f.registerId &&
      IsZda(f.zda) && f.dateTime != "" && env.parseTime(f.dateTime).Some?
  {
    var id := f.receiptId;
    if id == "" then Some(MalformedReceipt("Unknown Receipt"))
    else if '_' in id then Some(MalformedReceipt(id))
    else if f.zda == "" || !IsZda(f.zda) then Some(MalformedReceipt(id))
    else if f.registerId == "" || '_' in f.registerId then Some(MalformedReceipt(id))
    else if f.dateTime == "" || env.parseTime(f.dateTime).None? then Some(MalformedReceipt(id))
    else None
  }

  /** The checks of the certificate serial and of the turnover counter
      length, in their order. */
  function CheckSerialAndCounter(f: Fields): (e: Option<Error>)
    requires B64Decode(f.encTurnoverCounter).Ok?
    ensures e.None? <==>
      ProviderMatchesSerial(f.zda, GetCertSerialType(f.certSerial)) && TurnoverCounterLengthOk(f.encTurnoverCounter)
    ensures e.Some? ==>
      e.value in {MalformedReceipt(f.receiptId), CertSerialInvalid(f.receiptId), InvalidCertificateProvider(f.receiptId)}
  {
    var id := f.receiptId;
    if f.certSerial == "" then Some(MalformedReceipt(id))
    else
      var t := GetCertSerialType(f.certSerial);
      if t == Invalid then Some(CertSerialInvalid(id))
      else if t == Serial && f.zda == "AT0" then Some(InvalidCertificateProvider(id))
      else if t != Serial && f.zda != "AT0" then Some(InvalidCertificateProvider(id))
      else if !TurnoverCounterLengthOk(f.encTurnoverCounter) then Some(MalformedReceipt(id))
      else None
  }

  /** `Receipt.__init__`: the checks in their order, then the unsigned
      receipt with every field text kept as given. */
  function NewReceipt(env: Env, f: Fields): (r: Result<Receipt, Error>)
    ensures f.receiptId == "" ==> r == Err(MalformedReceipt("Unknown Receipt"))
    ensures r.Ok? ==> (f.receiptId != "" && '_' !in f.receiptId && f.registerId != "" && '_' !in f.registerId)
    ensures r.Ok? ==> IsZda(f.zda) && env.parseTime(f.dateTime) == Some(r.value.dateTime)
    ensures r.Ok? ==> forall i :: 0 <= i < 5 ==> IsAmount(Sums(f)[i])
    ensures r.Ok? ==> B64Decode(f.encTurnoverCounter).Ok? && B64Decode(f.previousChain).Ok?
    ensures r.Ok? ==> ProviderMatchesSerial(f.zda, GetCertSerialType(f.certSerial))
    ensures r.Ok? ==> TurnoverCounterLengthOk(f.encTurnoverCounter)
    ensures r.Ok? ==> FieldsOfReceipt(r.value) == f && r.value.signature.None?
    ensures r.Err? && f.receiptId != "" ==>
      r.error in {MalformedReceipt(f.receiptId), CertSerialInvalid(f.receiptId), InvalidCertificateProvider(f.receiptId)}
  {
    var id := f.receiptId;
    match CheckIdentity(env, f)
    case Some(e) => Err(e)
    case None =>
      match GetSums(Sums(f), id)
      case Err(e) => Err(e)
      case Ok(sums) =>
        if B64Decode(f.encTurnoverCounter).Err? then Err(MalformedReceipt(id))
        else if B64Decode(f.previousChain).Err? then Err(MalformedReceipt(id))
        else match CheckSerialAndCounter(f)
          case Some(e) => Err(e)
          case None =>
            Ok(Receipt(f.zda, f.registerId, id, f.dateTime, env.parseTime(f.dateTime).value,
              sums[0], sums[1], sums[2], sums[3], sums[4],
              f.encTurnoverCounter, f.certSerial, f.previousChain, None))
  }

  /** The exceptions the parsers raise: all of them receipt exceptions. */
  predicate IsParseError(e: Error) {
    e.MalformedReceipt? || e.UnknownAlgorithm? || e.AlgorithmMismatch? ||
    e.CertSerialInvalid? || e.InvalidCertificateProvider?
  }

  /** The field texts a receipt keeps. */
  function FieldsOfReceipt(r: Receipt): Fields {
    Fields(r.zda, r.registerId, r.receiptId, r.dateTimeStr,
      r.sumA.text, r.sumB.text, r.sumC.text, r.sumD.text, r.sumE.text,
      r.encTurnoverCounter, r.certSerial, r.previousChain)
  }

  // ---------------------------------------------------------------------
  // Signing and receipt classes

  /** `Receipt.sign`, returning the signed receipt. */
  function Sign(r: Receipt, header: string, signature: string): (s: Result<Receipt, Error>)
    ensures s.Ok? <==> !EndsWith(signature, '=') && UrlsafeB64Decode(RestorePadding(signature)).Ok?
    ensures s.Ok? ==> s.value == r.(signature := Some(Signature(header, signature)))
    ensures s.Err? ==> s.error == MalformedReceipt(r.receiptId)
  {
    if EndsWith(signature, '=') then Err(MalformedReceipt(r.receiptId))
    else if UrlsafeB64Decode(RestorePadding(signature)).Err? then Err(MalformedReceipt(r.receiptId))
    else Ok(r.(signature := Some(Signature(header, signature))))
  }

  /** `sign` accepts exactly the unpadded URL-safe base64 texts: alphabet
      characters only, of a length that is not one more than a multiple of
      four. */
  lemma SignAccepts(r: Receipt, header: string, signature: string)
    ensures Sign(r, header, signature).Ok? <==>
      (forall i :: 0 <= i < |signature| ==> IsAlphabetChar(signature[i], UrlSafe)) && |signature| % 4 != 1
  {
    if '=' in signature {
      var j :| 0 <= j < |signature| && signature[j] == '=';
      var g := RestorePadding(signature);
      if !EndsWith(signature, '=') && UrlsafeGate(g) {
        assert false;
      }
    } else {
      DecodeRestoredAccepts(signature, UrlSafe);
    }
  }

  /** `isDummy`: the counter decodes to `TRA`; never together with a reversal. */
  predicate IsDummy(r: Receipt)
    ensures IsDummy(r) ==> !IsReversal(r)
  {
    IsDummyCounter(r.encTurnoverCounter)
  }

  /** `isReversal`: the counter decodes to `STO`. */
  predicate IsReversal(r: Receipt) {
    IsReversalCounter(r.encTurnoverCounter)
  }

  /** `isNull`: all five sums are zero. */
  predicate IsNull(r: Receipt) {
    r.sumA.cents == 0 && r.sumB.cents == 0 && r.sumC.cents == 0 && r.sumD.cents == 0 && r.sumE.cents == 0
  }

  /** The receipt classes: a dummy or a reversal has a decodable counter
      that is exempt from the 5-to-16-byte rule of the constructor, the two
      exclude each other, and a null receipt has no turnover. */
  lemma ReceiptClasses(r: Receipt)
    ensures IsDummy(r) || IsReversal(r) ==>
      B64Decode(r.encTurnoverCounter).Ok? && TurnoverCounterLengthOk(r.encTurnoverCounter)
    ensures !(IsDummy(r) && IsReversal(r))
    ensures IsNull(r) ==> TotalCents(r) == 0
  {
  }

  /** The sum of the five amounts in cents. */
  function TotalCents(r: Receipt): int {
    r.sumA.cents + r.sumB.cents + r.sumC.cents + r.sumD.cents + r.sumE.cents
  }

  /** The signature text a signature creation device writes when it has failed. */
  const FailedSignature: string := "U2ljaGVyaGVpdHNlaW5yaWNodHVuZyBhdXNnZWZhbGxlbg"

  /** `isSignedBroken`; an unsigned receipt raises. */
  function IsSignedBroken(r: Receipt): (b: Result<bool, Error>)
    ensures b.Err? <==> r.signature.None?
    ensures b.Err? ==> b.error == NotSigned
    ensures r.signature.Some? ==> (b == Ok(true) <==> r.signature.value.value == FailedSignature)
  {
    if r.signature.None? then Err(NotSigned) else Ok(r.signature.value.value == FailedSignature)
  }

  /** `decryptTurnoverCounter`: refused for dummies and reversals, then the
      key check, then the algorithm's decryption of the decoded counter. */
  function DecryptTurnoverCounter(r: Receipt, key: Key, alg: Algorithm): (c: Result<int, Error>)
    ensures IsDummy(r) || IsReversal(r) ==> c == Err(NotDecryptable)
    ensures !IsDummy(r) && !IsReversal(r) && !alg.verifyKey(key) ==> c == Err(InvalidKey)
    ensures c.Ok? ==> (B64Decode(r.encTurnoverCounter).Ok? &&
      c.value == alg.decryptTurnoverCounter(r, B64Decode(r.encTurnoverCounter).value, key))
  {
    if IsDummy(r) then Err(NotDecryptable)
    else if IsReversal(r) then Err(NotDecryptable)
    else if RaiseForKey(key, alg.verifyKey).Err? then Err(InvalidKey)
    else match B64Decode(r.encTurnoverCounter)
      case Err(e) => Err(e)
      case Ok(ct) => Ok(alg.decryptTurnoverCounter(r, ct, key))
  }

  // ---------------------------------------------------------------------
  // Parsing

  /** The payload fields after the `prefix-zda` part, in order. */
  function FieldList(f: Fields): seq<string> {
    [f.registerId, f.receiptId, f.dateTime, f.sumA, f.sumB, f.sumC, f.sumD, f.sumE,
     f.encTurnoverCounter, f.certSerial, f.previousChain]
  }

  /** The fields named by parts 2 to 12 of a split payload. */
  function FieldsAt(zda: string, parts: seq<string>): (f: Fields)
    requires |parts| >= 13
    ensures FieldList(f) == parts[2..13]
  {
    Fields(zda, parts[2], parts[3], parts[4], parts[5], parts[6], parts[7], parts[8], parts[9],
      parts[10], parts[11], parts[12])
  }

  /** `segments[1].split('-')`, which must give exactly two parts. */
  function PrefixAndZda(s: string, at: string): (r: Result<(string, string), Error>)
    ensures r.Ok? ==> r.value.0 + "-" + r.value.1 == s && '-' !in r.value.0 && '-' !in r.value.1
    ensures r.Err? ==> r.error == MalformedReceipt(at)
  {
    var p := Split(s, '-');
    if |p| != 2 then Err(MalformedReceipt(at))
    else
      JoinSplit(s, '-');
      Ok((p[0], p[1]))
  }

  /** The algorithm named by a prefix: the prefix syntax, then the table. */
  function LookupAlgorithm(env: Env, prefix: string, at: string): (r: Result<Algorithm, Error>)
    ensures r.Ok? <==> IsAlgorithmId(prefix) && prefix in env.algorithms
    ensures r.Ok? ==> r.value == env.algorithms[prefix]
    ensures !IsAlgorithmId(prefix) ==> r.Err? && r.error == MalformedReceipt(at)
    ensures IsAlgorithmId(prefix) && prefix !in env.algorithms ==> r.Err? && r.error == UnknownAlgorithm(at)
  {
    if !IsAlgorithmId(prefix) then Err(MalformedReceipt(at))
    else if prefix !in env.algorithms then Err(UnknownAlgorithm(at))
    else Ok(env.algorithms[prefix])
  }

  /** The part both parsers share after their own checks: the counter must
      not be empty once `=` is removed, then the receipt is built and
      signed, and its chaining value must have the algorithm's length. */
  function BuildSigned(env: Env, alg: Algorithm, f: Fields, header: string, signature: string, at: string)
    : (r: Result<Receipt, Error>)
    ensures r.Ok? ==> (NewReceipt(env, f).Ok? &&
      r.value == NewReceipt(env, f).value.(signature := Some(Signature(header, signature))))
    ensures r.Ok? ==> (Remove(f.encTurnoverCounter, '=') != "" &&
      |B64Decode(f.previousChain).value| == alg.chainBytes)
    ensures r.Ok? ==> IsZda(r.value.zda) && r.value.signature == Some(Signature(header, signature))
    ensures r.Err? ==> IsParseError(r.error)
  {
    if Remove(f.encTurnoverCounter, '=') == "" then Err(MalformedReceipt(at))
    else match NewReceipt(env, f)
      case Err(e) => Err(e)
      case Ok(rec) =>
        match Sign(rec, header, signature)
        case Err(e) => Err(e)
        case Ok(signed) =>
          if |B64Decode(f.previousChain).value| != alg.chainBytes then Err(MalformedReceipt(rec.receiptId))
          else Ok(signed)
  }

  /** A JWS segment: URL-safe base64 without padding, of UTF-8 text. */
  function DecodeSegment(seg: string): Option<string> {
    match UrlsafeB64Decode(RestorePadding(seg))
    case Err(_) => None
    case Ok(b) => Utf8.Decode(b)
  }

  /** The structure `fromJWSString` demands before it looks at the fields:
      three `.`-separated segments, none ending in `=`, header and payload
      decodable, a payload of 13 `_`-separated parts with an empty first
      part, and a second part `prefix-zda` whose prefix has the algorithm
      ID syntax. */
  predicate JwsShape(jws: string) {
    var segs := Split(jws, '.');
    |segs| == 3 && !EndsWith(segs[0], '=') && !EndsWith(segs[1], '=') && !EndsWith(segs[2], '=') &&
    DecodeSegment(segs[0]).Some? && DecodeSegment(segs[1]).Some? &&
    var parts := Split(DecodeSegment(segs[1]).value, '_');
    |parts| == 13 && parts[0] == "" &&
    var pz := Split(parts[1], '-');
    |pz| == 2 && IsAlgorithmId(pz[0])
  }

  /** The payload part of `fromJWSString`, once header and payload are decoded. */
  function FromJWSPayload(env: Env, header: string, payload: string, signature: string, jws: string)
    : (r: Result<Parsed, Error>)
    ensures (var parts := Split(payload, '_');
      !(|parts| == 13 && parts[0] == "" && |Split(parts[1], '-')| == 2 && IsAlgorithmId(Split(parts[1], '-')[0])))
      ==> r == Err(MalformedReceipt(jws))
    ensures r.Ok? ==> r.value.algorithmPrefix in env.algorithms && IsZda(r.value.receipt.zda)
    ensures r.Ok? ==> r.value.receipt.signature == Some(Signature(header, signature))
    ensures r.Ok? ==> env.algorithms[r.value.algorithmPrefix].jwsHeader == header
    ensures r.Err? ==> IsParseError(r.error)
  {
    var parts := Split(payload, '_');
    if |parts| != 13 || parts[0] != "" then Err(MalformedReceipt(jws))
    else match PrefixAndZda(parts[1], jws)
      case Err(e) => Err(e)
      case Ok((prefix, zda)) =>
        match LookupAlgorithm(env, prefix, jws)
        case Err(e) => Err(e)
        case Ok(alg) =>
          if alg.jwsHeader != header then Err(AlgorithmMismatch(jws))
          else match BuildSigned(env, alg, FieldsAt(zda, parts), header, signature, jws)
            case Err(e) => Err(e)
            case Ok(rec) => Ok(Parsed(rec, prefix))
  }

  /** `Receipt.fromJWSString`. */
  function FromJWSString(env: Env, jws: string): (r: Result<Parsed, Error>)
    ensures !JwsShape(jws) ==> r == Err(MalformedReceipt(jws))
    ensures r.Err? ==> IsParseError(r.error)
    ensures r.Ok? ==> r.value.algorithmPrefix in env.algorithms && IsZda(r.value.receipt.zda)
    ensures r.Ok? ==> (var segs := Split(jws, '.');
      r.value.receipt.signature == Some(Signature(DecodeSegment(segs[0]).value, segs[2])) &&
      env.algorithms[r.value.algorithmPrefix].jwsHeader == DecodeSegment(segs[0]).value)
  {
    var segs := Split(jws, '.');
    if |segs| != 3 then Err(MalformedReceipt(jws))
    else if EndsWith(segs[0], '=') || EndsWith(segs[1], '=') || EndsWith(segs[2], '=') then
      Err(MalformedReceipt(jws))
    else match DecodeSegment(segs[0])
      case None => Err(MalformedReceipt(jws))
      case Some(header) =>
        match DecodeSegment(segs[1])
        case None => Err(MalformedReceipt(jws))
        case Some(payload) => FromJWSPayload(env, header, payload, segs[2], jws)
  }

  /** The structure `fromBasicCode` demands before it looks at the fields. */
  predicate BasicCodeShape(code: string) {
    var segs := Split(code, '_');
    |segs| == 14 && segs[0] == "" &&
    var pz := Split(segs[1], '-');
    |pz| == 2 && IsAlgorithmId(pz[0])
  }

  /** `Receipt.fromBasicCode`: the signature arrives in standard base64 and
      is kept as unpadded URL-safe base64; the header is the algorithm's. */
  function FromBasicCode(env: Env, code: string): (r: Result<Parsed, Error>)
    ensures !BasicCodeShape(code) ==> r == Err(MalformedReceipt(code))
    ensures r.Ok? ==> r.value.algorithmPrefix in env.algorithms && IsZda(r.value.receipt.zda)
    ensures r.Ok? ==> var segs := Split(code, '_');
      B64Decode(segs[13]).Ok? &&
      r.value.receipt.signature == Some(Signature(env.algorithms[r.value.algorithmPrefix].jwsHeader,
        EncodeUnpadded(B64Decode(segs[13]).value, UrlSafe)))
  {
    var segs := Split(code, '_');
    if |segs| != 14 || segs[0] != "" then Err(MalformedReceipt(code))
    else match PrefixAndZda(segs[1], code)
      case Err(e) => Err(e)
      case Ok((prefix, zda)) =>
        match LookupAlgorithm(env, prefix, code)
        case Err(e) => Err(e)
        case Ok(alg) =>
          match B64Decode(segs[13])
          case Err(_) => Err(MalformedReceipt(code))
          case Ok(sigBytes) =>
            var signature := Remove(Encode(sigBytes, UrlSafe), '=');
            RemovePaddingOfEncode(sigBytes, UrlSafe);
            match BuildSigned(env, alg, FieldsAt(zda, segs), alg.jwsHeader, signature, code)
            case Err(e) => Err(e)
            case Ok(rec) => Ok(Parsed(rec, prefix))
  }

  /** The machine-readable code a CSV line stands for: the `;`-separated
      fields, each stripped, joined by `_` behind a leading `_`. */
  function CodeOfCsv(csv: string): string {
    "_" + Join(StripEach(Split(csv, ';')), '_')
  }

  /** Every field stripped, as `fromCSV` does. */
  function StripEach(segs: seq<string>): (r: seq<string>)
    ensures |r| == |segs| && forall i :: 0 <= i < |segs| ==> r[i] == Strip(segs[i])
  {
    seq(|segs|, i requires 0 <= i < |segs| => Strip(segs[i]))
  }

  /** Without `_` in the line, the code's `_`-parts are an empty part and
      the stripped `;`-fields. */
  lemma CsvCodeParts(csv: string)
    ensures '_' !in csv ==> Split(CodeOfCsv(csv), '_') == [""] + StripEach(Split(csv, ';'))
  {
    if '_' !in csv {
      var segs := StripEach(Split(csv, ';'));
      StrippedFieldsLack(csv, '_');
      UnderscoreJoin(segs);
      SplitJoin([""] + segs, '_');
    }
  }

  /** A character the line lacks is in none of its stripped fields. */
  lemma StrippedFieldsLack(csv: string, c: char)
    requires c !in csv
    ensures forall i :: 0 <= i < |StripEach(Split(csv, ';'))| ==> c !in StripEach(Split(csv, ';'))[i]
  {
    var parts := Split(csv, ';');
    var segs := StripEach(parts);
    SplitPartsFrom(csv, ';', c);
    forall i | 0 <= i < |segs| ensures c !in segs[i] {
      var k :| SliceAt(parts[i], k, segs[i]);
      SliceLacks(parts[i], k, segs[i], c);
    }
  }

  /** A leading `_` is a join behind an empty part. */
  lemma UnderscoreJoin(segs: seq<string>)
    requires |segs| > 0
    ensures "_" + Join(segs, '_') == Join([""] + segs, '_')
  {
    JoinCons("", segs, '_');
    assert "_" == "" + ['_'];
  }

  /** `Receipt.fromCSV`: a line of other than 13 `;`-fields is malformed;
      a parsed receipt is signed with its algorithm's header. */
  function FromCSV(env: Env, csv: string): (r: Result<Parsed, Error>)
    ensures '_' !in csv && |Split(csv, ';')| != 13 ==> r == Err(MalformedReceipt(CodeOfCsv(csv)))
    ensures r.Ok? ==> (r.value.algorithmPrefix in env.algorithms && IsZda(r.value.receipt.zda) &&
      r.value.receipt.signature.Some? &&
      r.value.receipt.signature.value.header == env.algorithms[r.value.algorithmPrefix].jwsHeader)
  {
    CsvCodeParts(csv);
    FromBasicCode(env, CodeOfCsv(csv))
  }

  // ---------------------------------------------------------------------
  // Serialising

  /** `toPayloadString`: `_prefix-zda` and the eleven field texts, joined
      by `_`; when no text holds a `_`, splitting the payload at `_` gives
      back the empty part, `prefix-zda` and the texts. */
  function ToPayloadString(r: Receipt, algorithmPrefix: string): (s: string)
    ensures |s| > 0 && s[0] == '_'
    ensures var parts := ["", algorithmPrefix + "-" + r.zda] + FieldList(FieldsOfReceipt(r));
      (forall i :: 0 <= i < |parts| ==> '_' !in parts[i]) ==> Split(s, '_') == parts
  {
    var x := algorithmPrefix + "-" + r.zda;
    var rest := FieldList(FieldsOfReceipt(r));
    JoinUnderscoreHead(x, rest);
    SplitJoinIf(["", x] + rest, '_');
    JoinUnderscoreLeft(x, rest);
    Join(["_" + x] + rest, '_')
  }

  /** `toJWSString`: URL-safe base64 of the header and of the payload, both
      without padding, and the signature, joined by `.`. */
  function ToJWSString(r: Receipt, algorithmPrefix: string): (s: Result<string, Error>)
    ensures s.Err? <==> r.signature.None?
    ensures s.Err? ==> s.error == NotSigned
  {
    if r.signature.None? then Err(NotSigned)
    else
      var header := Remove(Encode(Utf8.Encode(r.signature.value.header), UrlSafe), '=');
      var payload := Remove(Encode(Utf8.Encode(ToPayloadString(r, algorithmPrefix)), UrlSafe), '=');
      Ok(Join([header, payload, r.signature.value.value], '.'))
  }

  /** `toBasicCode`: the payload, `_`, and the signature in standard base64. */
  function ToBasicCode(r: Receipt, algorithmPrefix: string): (s: Result<string, Error>)
    ensures r.signature.None? ==> s == Err(NotSigned)
    ensures s.Ok? ==> |s.value| > 0 && s.value[0] == '_'
  {
    if r.signature.None? then Err(NotSigned)
    else match UrlsafeB64Decode(RestorePadding(r.signature.value.value))
      case Err(e) => Err(e)
      case Ok(sig) =>
        var payload := ToPayloadString(r, algorithmPrefix);
        assert payload[0] == '_';
        Ok(payload + "_" + Encode(sig, Standard))
  }

  /** The CSV line of a machine-readable code: without its leading `_`,
      with `;` in place of `_`. */
  function CsvOfCode(code: string): string {
    if |code| == 0 then "" else Replace(code[1..], '_', ';')
  }

  /** Putting `_` back for `;` undoes `CsvOfCode` on a code without `;`. */
  lemma CsvOfCodeBack(code: string)
    requires |code| > 0 && code[0] == '_'
    ensures ';' !in code ==> "_" + Replace(CsvOfCode(code), ';', '_') == code
  {
    if ';' !in code {
      var back := "_" + Replace(CsvOfCode(code), ';', '_');
      assert |back| == |code|;
      forall i | 0 <= i < |code| ensures back[i] == code[i] {
        if i > 0 {
          assert back[i] == Replace(CsvOfCode(code), ';', '_')[i - 1];
        }
      }
    }
  }

  /** `toCSV`: the machine-readable code without its leading `_`, every
      `_` turned into `;`; it fails exactly when that code does. */
  function ToCSV(r: Receipt, algorithmPrefix: string): (s: Result<string, Error>)
    ensures ToBasicCode(r, algorithmPrefix).Err? ==> s == Err(ToBasicCode(r, algorithmPrefix).error)
    ensures s.Ok? ==> (ToBasicCode(r, algorithmPrefix).Ok? && '_' !in s.value &&
      |s.value| + 1 == |ToBasicCode(r, algorithmPrefix).value|)
    ensures s.Ok? && ';' !in ToBasicCode(r, algorithmPrefix).value ==>
      "_" + Replace(s.value, ';', '_') == ToBasicCode(r, algorithmPrefix).value
  {
    match ToBasicCode(r, algorithmPrefix)
    case Err(e) => Err(e)
    case Ok(code) =>
      CsvOfCodeBack(code);
      Ok(CsvOfCode(code))
  }

  // ---------------------------------------------------------------------
  // Round trips

  /** The receipt `BuildSigned` yields keeps the field texts it was given. */
  lemma BuiltFields(env: Env, alg: Algorithm, f: Fields, header: string, signature: string, at: string)
    requires BuildSigned(env, alg, f, header, signature, at).Ok?
    ensures FieldsOfReceipt(BuildSigned(env, alg, f, header, signature, at).value) == f
  {
    var rec := NewReceipt(env, f).value;
    assert FieldsOfReceipt(rec.(signature := Some(Signature(header, signature)))) == FieldsOfReceipt(rec);
  }

  lemma UnderscoreRegroup(x: string, t: string)
    ensures ("_" + x) + ['_'] + t == "" + ['_'] + (x + ['_'] + t)
  {
    assert "_" == ['_'];
    assert "" + ['_'] == ['_'];
  }

  lemma JoinUnderscoreLeft(x: string, rest: seq<string>)
    requires |rest| > 0
    ensures Join(["_" + x] + rest, '_') == "" + ['_'] + (x + ['_'] + Join(rest, '_'))
  {
    JoinCons("_" + x, rest, '_');
    UnderscoreRegroup(x, Join(rest, '_'));
  }

  lemma JoinEmptyHead(x: string, rest: seq<string>)
    requires |rest| > 0
    ensures Join(["", x] + rest, '_') == "" + ['_'] + (x + ['_'] + Join(rest, '_'))
  {
    assert ["", x] + rest == [""] + ([x] + rest);
    JoinCons("", [x] + rest, '_');
    JoinCons(x, rest, '_');
  }

  /** Joining a head `_x` equals joining an empty head before `x`. */
  lemma JoinUnderscoreHead(x: string, rest: seq<string>)
    requires |rest| > 0
    ensures Join(["_" + x] + rest, '_') == Join(["", x] + rest, '_')
  {
    JoinUnderscoreLeft(x, rest);
    JoinEmptyHead(x, rest);
  }

  /** The payload of a receipt whose texts are parts 2 to 12 is the join
      of those parts behind an empty part and `prefix-zda`. */
  lemma PayloadOfParts(rec: Receipt, prefix: string, parts: seq<string>)
    requires |parts| >= 13 && parts[0] == "" && prefix + "-" + rec.zda == parts[1]
    requires FieldList(FieldsOfReceipt(rec)) == parts[2..13]
    ensures ToPayloadString(rec, prefix) == Join(parts[..13], '_')
  {
    var rest := parts[2..13];
    assert ToPayloadString(rec, prefix) == Join(["_" + parts[1]] + rest, '_');
    JoinUnderscoreHead(parts[1], rest);
    assert ["", parts[1]] + rest == parts[..13];
  }

  /** A receipt built from split payload parts prints back to those parts. */
  lemma PayloadOfFields(env: Env, alg: Algorithm, parts: seq<string>, prefix: string, zda: string,
                        header: string, signature: string, at: string)
    requires |parts| >= 13 && parts[0] == "" && prefix + "-" + zda == parts[1]
    requires BuildSigned(env, alg, FieldsAt(zda, parts), header, signature, at).Ok?
    ensures ToPayloadString(BuildSigned(env, alg, FieldsAt(zda, parts), header, signature, at).value, prefix)
      == Join(parts[..13], '_')
  {
    var f := FieldsAt(zda, parts);
    BuiltFields(env, alg, f, header, signature, at);
    PayloadOfParts(BuildSigned(env, alg, f, header, signature, at).value, prefix, parts);
  }

  /** A segment that is exactly the unpadded URL-safe base64 of the bytes
      it decodes to (the form every JWS producer writes). */
  predicate IsCanonicalSegment(seg: string) {
    UrlsafeB64Decode(RestorePadding(seg)).Ok? &&
    EncodeUnpadded(UrlsafeB64Decode(RestorePadding(seg)).value, UrlSafe) == seg
  }

  /** Printing a decoded segment's text gives the segment back. */
  lemma SegmentRoundTrip(seg: string)
    requires IsCanonicalSegment(seg) && DecodeSegment(seg).Some?
    ensures Remove(Encode(Utf8.Encode(DecodeSegment(seg).value), UrlSafe), '=') == seg
  {
    var b := UrlsafeB64Decode(RestorePadding(seg)).value;
    Utf8.EncodeDecode(b);
    RemovePaddingOfEncode(b, UrlSafe);
  }

  /** Parse-then-print reproduces a JWS whose header and payload segments
      are canonical base64: `toJWSString` re-emits the very payload that
      was parsed. */
  lemma JwsRoundTrip(env: Env, jws: string)
    requires FromJWSString(env, jws).Ok?
    requires IsCanonicalSegment(Split(jws, '.')[0]) && IsCanonicalSegment(Split(jws, '.')[1])
    ensures ToJWSString(FromJWSString(env, jws).value.receipt, FromJWSString(env, jws).value.algorithmPrefix) == Ok(jws)
  {
    var segs := Split(jws, '.');
    assert JwsShape(jws);
    var header, payload := DecodeSegment(segs[0]).value, DecodeSegment(segs[1]).value;
    FromJWSStringPayload(env, jws);
    JwsPayloadPrints(env, header, payload, segs[2], jws);
    SegmentRoundTrip(segs[0]);
    SegmentRoundTrip(segs[1]);
    JoinSplit(jws, '.');
    ThreeParts(segs);
  }

  lemma ThreeParts(segs: seq<string>)
    requires |segs| == 3
    ensures [segs[0], segs[1], segs[2]] == segs
  {
  }

  /** A receipt parsed from a decoded header and payload prints the
      re-encoded header and payload beside its signature. */
  lemma JwsPayloadPrints(env: Env, header: string, payload: string, signature: string, jws: string)
    requires FromJWSPayload(env, header, payload, signature, jws).Ok?
    ensures var p := FromJWSPayload(env, header, payload, signature, jws).value;
      ToJWSString(p.receipt, p.algorithmPrefix) ==
        Ok(Join([Remove(Encode(Utf8.Encode(header), UrlSafe), '='),
                 Remove(Encode(Utf8.Encode(payload), UrlSafe), '='), signature], '.'))
  {
    var p := FromJWSPayload(env, header, payload, signature, jws).value;
    JwsPayloadRoundTrip(env, header, payload, signature, jws);
    PrintJws(p.receipt, p.algorithmPrefix, Remove(Encode(Utf8.Encode(header), UrlSafe), '='),
      Remove(Encode(Utf8.Encode(payload), UrlSafe), '='), signature);
  }

  /** The JWS a receipt prints to, given the texts of its three segments. */
  lemma PrintJws(r: Receipt, prefix: string, s0: string, s1: string, s2: string)
    requires r.signature.Some? && r.signature.value.value == s2
    requires Remove(Encode(Utf8.Encode(r.signature.value.header), UrlSafe), '=') == s0
    requires Remove(Encode(Utf8.Encode(ToPayloadString(r, prefix)), UrlSafe), '=') == s1
    ensures ToJWSString(r, prefix) == Ok(Join([s0, s1, s2], '.'))
  {
  }

  /** A parsed JWS is the parse of its decoded payload. */
  lemma FromJWSStringPayload(env: Env, jws: string)
    requires FromJWSString(env, jws).Ok?
    ensures var segs := Split(jws, '.');
      FromJWSString(env, jws) ==
      FromJWSPayload(env, DecodeSegment(segs[0]).value, DecodeSegment(segs[1]).value, segs[2], jws)
  {
  }

  /** `toPayloadString` of a parsed JWS payload is that payload. */
  lemma JwsPayloadRoundTrip(env: Env, header: string, payload: string, signature: string, jws: string)
    requires FromJWSPayload(env, header, payload, signature, jws).Ok?
    ensures ToPayloadString(FromJWSPayload(env, header, payload, signature, jws).value.receipt,
      FromJWSPayload(env, header, payload, signature, jws).value.algorithmPrefix) == payload
  {
    var parts := Split(payload, '_');
    var pz := PrefixAndZda(parts[1], jws).value;
    var alg := LookupAlgorithm(env, pz.0, jws).value;
    PayloadOfFields(env, alg, parts, pz.0, pz.1, header, signature, jws);
    assert parts[..13] == parts;
    JoinSplit(payload, '_');
  }

  /** A standard base64 text that is exactly the encoding of the bytes it
      decodes to. */
  predicate IsCanonicalBase64(seg: string) {
    B64Decode(seg).Ok? && Encode(B64Decode(seg).value, Standard) == seg
  }

  lemma LastSplit(segs: seq<string>)
    requires |segs| == 14
    ensures segs[..13] + [segs[13]] == segs
  {
  }

  /** Parse-then-print reproduces a machine-readable code whose signature
      is canonical base64. */
  lemma BasicCodeRoundTrip(env: Env, code: string)
    requires FromBasicCode(env, code).Ok?
    requires IsCanonicalBase64(Split(code, '_')[13])
    ensures ToBasicCode(FromBasicCode(env, code).value.receipt, FromBasicCode(env, code).value.algorithmPrefix) == Ok(code)
  {
    var p := FromBasicCode(env, code).value;
    var segs := Split(code, '_');
    var pz := PrefixAndZda(segs[1], code).value;
    var alg := LookupAlgorithm(env, pz.0, code).value;
    var sigBytes := B64Decode(segs[13]).value;
    var signature := Remove(Encode(sigBytes, UrlSafe), '=');
    RemovePaddingOfEncode(sigBytes, UrlSafe);
    PayloadOfFields(env, alg, segs, pz.0, pz.1, alg.jwsHeader, signature, code);
    DecodeRestoredUnpadded(sigBytes, UrlSafe);
    assert p.receipt.signature.value.value == signature;
    JoinAppend(segs[..13], [segs[13]], '_');
    assert BasicCodeShape(code);
    LastSplit(segs);
    JoinSplit(code, '_');
  }

  /** Reading a CSV line back gives the code it was written from, for a
      code that starts with `_`, has no `;`, and whose fields carry no edge
      white space (which reading would strip). */
  lemma {:induction false} CsvCodeRoundTrip(code: string)
    requires |code| > 0 && code[0] == '_' && ';' !in code
    requires forall i :: 0 <= i < |Split(code, '_')| ==> NoEdgeSpace(Split(code, '_')[i])
    ensures CodeOfCsv(CsvOfCode(code)) == code
  {
    var tail := code[1..];
    calc {
      CodeOfCsv(CsvOfCode(code));
      "_" + Join(StripEach(Split(CsvOfCode(code), ';')), '_');
      { CsvSegments(code); }
      "_" + Join(StripEach(Split(tail, '_')), '_');
      { CsvSegments(code); StripTail(code); }
      "_" + Join(Split(tail, '_'), '_');
      { JoinSplit(tail, '_'); }
      "_" + tail;
      { HeadTail(code); }
      code;
    }
  }

  lemma HeadTail(code: string)
    requires |code| > 0 && code[0] == '_'
    ensures "_" + code[1..] == code
  {
  }

  /** The fields after a code's leading `_` carry no edge white space when
      none of the code's fields does, so stripping keeps them. */
  lemma StripTail(code: string)
    requires |code| > 0 && Split(code, '_') == [""] + Split(code[1..], '_')
    requires forall i :: 0 <= i < |Split(code, '_')| ==> NoEdgeSpace(Split(code, '_')[i])
    ensures StripEach(Split(code[1..], '_')) == Split(code[1..], '_')
  {
    var segs := Split(code[1..], '_');
    forall i | 0 <= i < |segs| ensures NoEdgeSpace(segs[i]) {
      assert segs[i] == Split(code, '_')[i + 1];
    }
    StripEachKeeps(segs);
  }

  /** The fields of a CSV line written from a code are the code's fields
      after its leading empty one. */
  lemma CsvSegments(code: string)
    requires |code| > 0 && code[0] == '_' && ';' !in code
    ensures Split(CsvOfCode(code), ';') == Split(code[1..], '_')
    ensures Split(code, '_') == [""] + Split(code[1..], '_')
  {
    var tail := code[1..];
    assert ';' !in tail by {
      forall i | 0 <= i < |tail| ensures tail[i] != ';' {
        assert tail[i] == code[i + 1];
      }
    }
    SplitReplace(tail, '_', ';');
    HeadTail(code);
    assert "" + ['_'] + tail == "_" + tail;
    SplitAtFirstSeparator("", '_', tail);
  }

  /** Stripping fields without edge white space changes nothing. */
  lemma StripEachKeeps(segs: seq<string>)
    requires forall i :: 0 <= i < |segs| ==> NoEdgeSpace(segs[i])
    ensures StripEach(segs) == segs
  {
  }

  /** `fromCSV` reads back what `toCSV` writes for a parsed code that
      `CsvCodeRoundTrip` applies to. */
  lemma CsvRoundTrip(env: Env, code: string)
    requires FromBasicCode(env, code).Ok?
    requires IsCanonicalBase64(Split(code, '_')[13])
    requires ';' !in code
    requires forall i :: 0 <= i < |Split(code, '_')| ==> NoEdgeSpace(Split(code, '_')[i])
    ensures ToCSV(FromBasicCode(env, code).value.receipt, FromBasicCode(env, code).value.algorithmPrefix).Ok?
    ensures FromCSV(env, ToCSV(FromBasicCode(env, code).value.receipt,
      FromBasicCode(env, code).value.algorithmPrefix).value) == FromBasicCode(env, code)
  {
    BasicCodeRoundTrip(env, code);
    assert code[0] == '_';
    CsvCodeRoundTrip(code);
  }
}
