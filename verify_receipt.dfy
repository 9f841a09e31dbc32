/** `librksv/verify_receipt.py`: verification of a single receipt against a
    certificate or a key store, in the raising variant (`ReceiptVerifier`)
    and the reporting variant (`StderrReceiptVerifier`), which prints
    receipt errors instead of raising them. */
module VerifyReceipt {
  import opened Wrappers
  import opened Errors
  import opened Base64
  import opened Utils
  import opened Receipts

  /** An X.509 certificate, reduced to its serial number, public key and
      SHA-256 fingerprint. */
  datatype Certificate = Certificate(serialNumber: int, publicKey: PublicKey, fingerprint: seq<byte>)

  /** `key_store.KeyStore` (not part of this model): keys and certificates by key ID. */
  datatype KeyStore = KeyStore(getKey: string -> Option<PublicKey>, getCert: string -> Option<Certificate>)

  /** `key_store.strSerialToKeyIds` and `key_store.numSerialToKeyId` (not
      part of this model): the key IDs a receipt's certificate serial may
      stand for, and the key ID of a certificate serial number. */
  datatype KeyIds = KeyIds(fromSerialText: string -> seq<string>, fromSerialNumber: int -> string)

  datatype VerifierKind = Raising | Stderr

  /** What `fromCert` or `fromKeyStore` set up the verifier with. */
  datatype KeySource = FromCert(cert: Certificate) | FromKeyStore(store: KeyStore)

  datatype ReceiptVerifier = ReceiptVerifier(kind: VerifierKind, source: KeySource)

  /** A verified receipt and its algorithm. */
  datatype Verified = Verified(receipt: Receipt, algorithm: Algorithm)

  /** The key the loop over `serials` ends with: the first key found, or
      None when the store has none of them. */
  function FirstKey(getKey: string -> Option<PublicKey>, serials: seq<string>): (k: Option<PublicKey>)
    ensures k.None? <==> forall i :: 0 <= i < |serials| ==> getKey(serials[i]).None?
    ensures k.Some? ==> exists i :: (0 <= i < |serials| && getKey(serials[i]) == k &&
      forall j :: 0 <= j < i ==> getKey(serials[j]).None?)
  {
    if |serials| == 0 then None
    else if getKey(serials[0]).Some? then
      getKey(serials[0])
    else
      var k := FirstKey(getKey, serials[1..]);
      if k.None? then k
      else
        var i :| 0 <= i < |serials[1..]| && getKey(serials[1..][i]) == k &&
          forall j :: 0 <= j < i ==> getKey(serials[1..][j]).None?;
        assert getKey(serials[i + 1]) == k && forall j :: 0 <= j < i + 1 ==> getKey(serials[j]).None?;
        k
  }

  /** The key lookup loop of `ReceiptVerifier.verify`. */
  method LookupKey(store: KeyStore, serials: seq<string>) returns (k: Option<PublicKey>)
    ensures k == FirstKey(store.getKey, serials)
  {
    k := None;
    var i := 0;
    while i < |serials|
      invariant 0 <= i <= |serials|
      invariant k.None?
      invariant FirstKey(store.getKey, serials) == FirstKey(store.getKey, serials[i..])
    {
      assert serials[i..][1..] == serials[i + 1..];
      k := store.getKey(serials[i]);
      if k.Some? {
        return;
      }
      i := i + 1;
    }
  }

  /** The public key `verify` checks the signature with: the certificate's
      key, or the store's key under the receipt's serial (AT0) or under the
      first of its key IDs the store knows. With a certificate, a non-AT0
      receipt must name the certificate's key ID. */
  function PublicKeyFor(ids: KeyIds, source: KeySource, rec: Receipt): (r: Result<Option<PublicKey>, Error>)
    ensures r.Err? <==> (rec.zda != "AT0" && source.FromCert? &&
      ids.fromSerialNumber(source.cert.serialNumber) !in ids.fromSerialText(rec.certSerial))
    ensures r.Err? ==> r.error == CertSerialMismatch(rec.receiptId)
    ensures source.FromCert? && r.Ok? ==> r.value == Some(source.cert.publicKey)
  {
    if rec.zda == "AT0" then
      match source
      case FromCert(cert) => Ok(Some(cert.publicKey))
      case FromKeyStore(store) => Ok(store.getKey(rec.certSerial))
    else
      var serials := ids.fromSerialText(rec.certSerial);
      match source
      case FromCert(cert) =>
        if ids.fromSerialNumber(cert.serialNumber) !in serials then Err(CertSerialMismatch(rec.receiptId))
        else Ok(Some(cert.publicKey))
      case FromKeyStore(store) => Ok(FirstKey(store.getKey, serials))
  }

  /** A receipt that is neither dummy nor reversal and has zero turnover. */
  predicate IsStandardNull(rec: Receipt) {
    !IsDummy(rec) && !IsReversal(rec) && IsNull(rec)
  }

  /** `ReceiptVerifier.verify`: the algorithm first, then the key (and for
      a certificate the serial match), then a failed signature device,
      then the missing key, then the signature itself. */
  function VerifyRaising(env: Env, ids: KeyIds, source: KeySource, rec: Receipt, prefix: string)
    : (r: Result<Algorithm, Error>)
    ensures prefix !in env.algorithms ==> r == Err(UnknownAlgorithm(rec.receiptId))
    ensures prefix in env.algorithms && PublicKeyFor(ids, source, rec).Err? ==>
      r == Err(CertSerialMismatch(rec.receiptId))
    ensures prefix in env.algorithms && PublicKeyFor(ids, source, rec).Ok? && IsSignedBroken(rec) == Ok(true) ==>
      r == Err(if IsStandardNull(rec) then UnsignedNullReceipt(rec.receiptId) else SignatureSystemFailed(rec.receiptId))
    ensures prefix in env.algorithms && PublicKeyFor(ids, source, rec) == Ok(None) && IsSignedBroken(rec) == Ok(false) ==>
      r == Err(NoPublicKey(rec.receiptId))
    ensures r.Ok? ==>
      prefix in env.algorithms && r.value == env.algorithms[prefix] && IsSignedBroken(rec) == Ok(false) &&
      PublicKeyFor(ids, source, rec).Ok? && PublicKeyFor(ids, source, rec).value.Some? &&
      ToJWSString(rec, prefix).Ok? &&
      r.value.verify(ToJWSString(rec, prefix).value, PublicKeyFor(ids, source, rec).value.value)
    ensures (prefix in env.algorithms && PublicKeyFor(ids, source, rec).Ok? &&
             PublicKeyFor(ids, source, rec).value.Some? && IsSignedBroken(rec) == Ok(false)) ==>
      ToJWSString(rec, prefix).Ok? &&
      (r.Ok? <==> env.algorithms[prefix].verify(ToJWSString(rec, prefix).value, PublicKeyFor(ids, source, rec).value.value)) &&
      (r.Err? ==> r.error == InvalidSignature(rec.receiptId))
    ensures r == Err(NotSigned) <==>
      (prefix in env.algorithms && PublicKeyFor(ids, source, rec).Ok? && rec.signature.None?)
    ensures r.Err? && (r.error.SignatureSystemFailed? || r.error.UnsignedNullReceipt?) ==>
      prefix in env.algorithms && IsSignedBroken(rec) == Ok(true)
    ensures r.Err? ==> (r.error.UnknownAlgorithm? || r.error.CertSerialMismatch? || r.error == NotSigned ||
      r.error.UnsignedNullReceipt? || r.error.SignatureSystemFailed? || r.error.NoPublicKey? ||
      r.error.InvalidSignature?)
  {
    if prefix !in env.algorithms then Err(UnknownAlgorithm(rec.receiptId))
    else
      var alg := env.algorithms[prefix];
      match PublicKeyFor(ids, source, rec)
      case Err(e) => Err(e)
      case Ok(key) =>
        match IsSignedBroken(rec)
        case Err(e) => Err(e)
        case Ok(broken) =>
          if broken then
            if IsStandardNull(rec) then Err(UnsignedNullReceipt(rec.receiptId))
            else Err(SignatureSystemFailed(rec.receiptId))
          else if key.None? then Err(NoPublicKey(rec.receiptId))
          else match ToJWSString(rec, prefix)
            case Err(e) => Err(e)
            case Ok(jws) =>
              if !alg.verify(jws, key.value) then Err(InvalidSignature(rec.receiptId))
              else Ok(alg)
  }

  /** `verify` of either variant: the reporting one still rejects an
      unknown algorithm, then swallows every receipt exception of the
      raising one. */
  function Verify(env: Env, ids: KeyIds, v: ReceiptVerifier, rec: Receipt, prefix: string)
    : (r: Result<Algorithm, Error>)
    ensures v.kind == Raising ==> r == VerifyRaising(env, ids, v.source, rec, prefix)
    ensures v.kind == Stderr ==>
      (r.Ok? <==> (prefix in env.algorithms &&
        (VerifyRaising(env, ids, v.source, rec, prefix).Ok? ||
         IsReceiptException(VerifyRaising(env, ids, v.source, rec, prefix).error))))
    ensures r.Err? ==> r == VerifyRaising(env, ids, v.source, rec, prefix)
    ensures r.Ok? ==> prefix in env.algorithms && r.value == env.algorithms[prefix]
  {
    match v.kind
    case Raising => VerifyRaising(env, ids, v.source, rec, prefix)
    case Stderr =>
      if prefix !in env.algorithms then Err(UnknownAlgorithm(rec.receiptId))
      else match VerifyRaising(env, ids, v.source, rec, prefix)
        case Err(e) => if IsReceiptException(e) then Ok(env.algorithms[prefix]) else Err(e)
        case Ok(alg) => Ok(alg)
  }

  /** For a signed receipt of a known algorithm the reporting verifier
      raises nothing: every error of the raising one is a receipt error. */
  lemma StderrAcceptsSigned(env: Env, ids: KeyIds, source: KeySource, rec: Receipt, prefix: string)
    requires rec.signature.Some? && prefix in env.algorithms
    ensures Verify(env, ids, ReceiptVerifier(Stderr, source), rec, prefix) == Ok(env.algorithms[prefix])
  {
    var r := VerifyRaising(env, ids, source, rec, prefix);
    if r.Err? {
      assert r.error != NotSigned;
      assert IsReceiptException(r.error);
    }
  }

  /** `verifyJWS`: parse, then verify. */
  function VerifyJWS(env: Env, ids: KeyIds, v: ReceiptVerifier, jws: string): (r: Result<Verified, Error>)
    ensures FromJWSString(env, jws).Err? ==> r == Err(FromJWSString(env, jws).error)
    ensures FromJWSString(env, jws).Ok? ==> var p := FromJWSString(env, jws).value;
      var w := Verify(env, ids, v, p.receipt, p.algorithmPrefix);
      (r.Ok? <==> w.Ok?) && (w.Err? ==> r == Err(w.error)) && (r.Ok? ==> r.value == Verified(p.receipt, w.value))
  {
    match FromJWSString(env, jws)
    case Err(e) => Err(e)
    case Ok(p) =>
      match Verify(env, ids, v, p.receipt, p.algorithmPrefix)
      case Err(e) => Err(e)
      case Ok(alg) => Ok(Verified(p.receipt, alg))
  }

  /** `verifyBasicCode`: parse, then verify. */
  function VerifyBasicCode(env: Env, ids: KeyIds, v: ReceiptVerifier, code: string): (r: Result<Verified, Error>)
    ensures FromBasicCode(env, code).Err? ==> r == Err(FromBasicCode(env, code).error)
    ensures FromBasicCode(env, code).Ok? ==> var p := FromBasicCode(env, code).value;
      var w := Verify(env, ids, v, p.receipt, p.algorithmPrefix);
      (r.Ok? <==> w.Ok?) && (w.Err? ==> r == Err(w.error)) && (r.Ok? ==> r.value == Verified(p.receipt, w.value))
  {
    match FromBasicCode(env, code)
    case Err(e) => Err(e)
    case Ok(p) =>
      match Verify(env, ids, v, p.receipt, p.algorithmPrefix)
      case Err(e) => Err(e)
      case Ok(alg) => Ok(Verified(p.receipt, alg))
  }

  /** `verifyCSV`: parse, then verify. */
  function VerifyCSV(env: Env, ids: KeyIds, v: ReceiptVerifier, csv: string): (r: Result<Verified, Error>)
    ensures FromCSV(env, csv).Err? ==> r == Err(FromCSV(env, csv).error)
    ensures FromCSV(env, csv).Ok? ==> var p := FromCSV(env, csv).value;
      var w := Verify(env, ids, v, p.receipt, p.algorithmPrefix);
      (r.Ok? <==> w.Ok?) && (w.Err? ==> r == Err(w.error)) && (r.Ok? ==> r.value == Verified(p.receipt, w.value))
  {
    match FromCSV(env, csv)
    case Err(e) => Err(e)
    case Ok(p) =>
      match Verify(env, ids, v, p.receipt, p.algorithmPrefix)
      case Err(e) => Err(e)
      case Ok(alg) => Ok(Verified(p.receipt, alg))
  }

  /** `verifyChainValue`: the raising variant rejects a chaining value
      other than the receipt's `previousChain`; the reporting one only
      prints. */
  function VerifyChainValue(kind: VerifierKind, rec: Receipt, chainingValue: string): (e: Option<Error>)
    ensures e.Some? <==> kind == Raising && chainingValue != rec.previousChain
    ensures e.Some? ==> e.value == Chaining(rec.receiptId, rec.previousChain)
  {
    if chainingValue != rec.previousChain && kind == Raising then Some(Chaining(rec.receiptId, rec.previousChain))
    else None
  }

  /** `verifyTurnoverCounter`: the decrypted counter, which the raising
      variant requires to equal the expected value. */
  function VerifyTurnoverCounter(kind: VerifierKind, rec: Receipt, alg: Algorithm, key: Key, expected: int)
    : (r: Result<int, Error>)
    ensures DecryptTurnoverCounter(rec, key, alg).Err? ==> r == DecryptTurnoverCounter(rec, key, alg)
    ensures kind == Raising && DecryptTurnoverCounter(rec, key, alg).Ok? ==>
      (r.Ok? <==> DecryptTurnoverCounter(rec, key, alg).value == expected)
    ensures kind == Raising && r.Err? && DecryptTurnoverCounter(rec, key, alg).Ok? ==>
      r.error == InvalidTurnoverCounter(rec.receiptId)
    ensures kind == Stderr ==> r == DecryptTurnoverCounter(rec, key, alg)
    ensures r.Ok? ==> r == DecryptTurnoverCounter(rec, key, alg)
  {
    match DecryptTurnoverCounter(rec, key, alg)
    case Err(e) => Err(e)
    case Ok(c) =>
      if c != expected && kind == Raising then Err(InvalidTurnoverCounter(rec.receiptId)) else Ok(c)
  }

  /** `verifyDateTime`: only a strictly earlier receipt time is rejected,
      and only by the raising variant. */
  function VerifyDateTime(kind: VerifierKind, rec: Receipt, minDateTime: int): (e: Option<Error>)
    ensures e.Some? <==> kind == Raising && minDateTime > rec.dateTime
    ensures e.Some? ==> e.value == DecreasingDate(rec.receiptId)
  {
    if minDateTime > rec.dateTime && kind == Raising then Some(DecreasingDate(rec.receiptId)) else None
  }
}
