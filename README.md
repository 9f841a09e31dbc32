# RKSV receipt verification, modelled in Dafny

This project models the core of `librksv`, a verifier for receipts of
Austrian cash registers under the RKSV rules (Registrierkassensicherheitsverordnung).

Each cash register signs every receipt it prints. A receipt is a JWS
(section 7.1 of RFC 7515). Its payload is a 13-field `_`-separated
record: algorithm and ZDA (certification provider), register ID,
receipt ID, timestamp, five tax sums, the encrypted turnover counter,
the certificate serial and the chaining value of the previous receipt.
The same record also appears as a machine-readable code (14 fields,
standard base64 signature) and as a CSV line (`;` instead of `_`).

The model covers the following parts of the system.

- **Receipts** (`receipt.dfy`, module `Receipts`): field validation in
  `Receipt.__init__`, the certificate-serial classes, the three parsers
  and their serialisers, `sign`, and the receipt predicates. It proves
  parse-then-print round trips for JWS, machine-readable code and CSV.
- **String helpers** (`utils.dfy`, `base64.dfy`, `utf8.dfy`, `text.dfy`):
  - base64 padding restoration and the regex gates before decoding
    (sections 4, 5 and 6 of RFC 4648);
  - PEM wrapping at 64 characters (section 2 of RFC 7468);
  - receipt amounts as exact integer cents;
  - fingerprint formatting and the key check;
  - Python's `split`, `join`, `strip`, `replace` and UTF-8 coding, which the
    parsers rely on.
- **Single-receipt verification** (`verify_receipt.dfy`, module
  `VerifyReceipt`): the decision order of `ReceiptVerifier.verify`, the
  key lookup loop, and the chain-value, date and turnover-counter checks.
  Both the raising variant and the stderr-reporting variant are modelled.
- **The per-register fold** (`verify.dfy`, module `Verify`):
  - `verifyGroup` is specified receipt by receipt. `Step` covers the
    signature stage, the first-receipt rules, the duplicate-ID and
    continuity checks, chaining and the turnover counter. `Run` folds
    `Step` over a group.
  - The method `VerifyGroup` is the loop that updates the register object
    and the used-ID object in place. It is proved equal to that fold.
- **Register state** (`register_state.dfy`, module `RegisterState`):
  - the `CashRegisterState` and used-receipt-ID classes;
  - `updateFromDEPGroup`, which replays a group without verifying it.
- **Exports** (`dep.dfy`, module `Dep`, and `packaging.dfy`, module
  `Packaging`):
  - `verifyCert`;
  - `packageChunkWithVerifiers`;
  - `verifyGroupsWithVerifiers`;
  - `verifyDEP`'s loop with its rule for groups without a certificate;
  - the work-splitting helpers `balanceGroupsWithVerifiers` and
    `getChunksForProcs`.
- **The state tool** (`verification_state.dfy`, module `VerificationState`):
  each command of `verification_state.py` becomes a method on a
  `ClusterState` class. The class holds a sequence of register objects and
  the used-ID object.

Cryptography, the algorithm table, `strptime` and the key store are
outside the model. They appear as function-valued fields of the datatypes
`Env`, `Algorithm`, `KeyIds` and `KeyStore` and of the signature check
`SignedBy`. Every property is proved for all such oracles.

Amounts are integer cents. This is justified because `getReceiptFloat`
accepts only texts with exactly two decimals.

### Behaviour worth noting

- `lastReceiptJWS` is written once, after the whole group has passed
  (`librksv/verify.py:437`). When a group fails,
  the register keeps its old last receipt, while the counter, the
  chaining value and the restore flag of the receipts that passed stay
  changed.
- The duplicate-ID check runs only for a receipt that has a predecessor
  (`librksv/verify.py:396-397`). It runs after the signature and
  first-receipt checks. A register's very first receipt is checked only
  in a cluster, against the previous register's start receipt
  (`librksv/verify.py:386-397`): its ID must be unused, and it must share
  that receipt's register ID and system type and (raising verifier) not
  be dated earlier.
  Outside a cluster it is not checked. Its ID is recorded either way
  (`librksv/verify.py:409`).
- `chainNextTo` is never derived from a verified receipt. When it is set,
  the next receipt consumes it and it becomes `None`
  (`librksv/verify.py:412-414`).
- The turnover counter adds each receipt's sum. That sum may be negative,
  so the counter is not monotonic.
- `resetCashRegister` hands `updateCashRegisterInfo` a new register and a
  new used-ID set (`verification_state.py:133-134`), so the cluster's used
  IDs become empty as well.
- The ZDA and algorithm-prefix patterns end in `$` and are applied with
  `re.match` (`librksv/receipt.py:162-163`). Python's `$` also matches
  before a final newline, so `AT0\n` counts as a valid ZDA. The model
  accepts that trailing newline too.
- `deleteCashRegister` is Python's `del` (`verification_state.py:141`).
  Registers after the deleted one move down one position.

## Model

| member | source | states |
|---|---|---|
| Utils.RestorePadding | librksv/utils.py:243-254 | appends 0 to 3 `=`; the result length is a multiple of 4; the input is a prefix; an input of length divisible by 4 is unchanged |
| Utils.RestoreRemovedPadding | librksv/utils.py:243-254 | restoring the padding of an encoding whose `=` were removed gives the encoding back |
| Utils.FullMatchIsRegex | librksv/utils.py:255-269 | the gate as evaluated accepts exactly the strings `[class]*={0,maxPad}` |
| Utils.UrlsafeB64Decode | librksv/utils.py:255-259 | `TypeError` exactly when the text fails `^[a-zA-Z0-9_-]*={0,3}$`; the only other error is the library decoder's `binascii.Error` |
| Utils.B64Decode | librksv/utils.py:261-265 | `TypeError` exactly when the text fails `^[a-zA-Z0-9/+]*={0,3}$`; the only other error is the library decoder's `binascii.Error` |
| Utils.B32Decode | librksv/utils.py:267-271 | `TypeError` when the text fails `^[A-Z2-7/+]*={0,7}$`; otherwise the result is the library decoder's |
| Utils.DecodeGated | librksv/utils.py:259 | the library decoder on text that passed the gate fails only with `binascii.Error`, and yields 3 bytes per 4 characters of the part before the padding (rounded down) |
| Utils.DecodeEncode | librksv/utils.py:255-265 | the gated decoders read back what `b64encode`/`urlsafe_b64encode` write |
| Utils.DecodeRestoredUnpadded | librksv/receipt.py:328-330 | an unpadded URL-safe encoding decodes to its bytes once the padding is restored |
| Utils.DecodeRestoredAccepts | librksv/receipt.py:681-686 | after padding restoration, decoding succeeds exactly for alphabet text whose length is not 1 modulo 4 |
| Utils.Chunks | librksv/utils.py:180-182 | slices of at most 64 non-empty characters, all but the last exactly 64, concatenating to the input |
| Utils.AddPEMCertHeaders | librksv/utils.py:174-182 | for a non-empty body on one line, the lines are `-----BEGIN CERTIFICATE-----`, body lines of 64 characters (the last one 1 to 64) whose concatenation is the body, and `-----END CERTIFICATE-----` |
| Utils.AddPEMPubKeyHeaders | librksv/utils.py:184-192 | the same with `PUBLIC KEY` |
| Utils.PemArmorLines | librksv/utils.py:174-192 | the lines of a certificate or public key armoured by `addPEMCertHeaders`/`addPEMPubKeyHeaders`: the BEGIN line, body lines of at most 64 characters whose concatenation is the body, END line |
| Utils.CertFingerprint | librksv/utils.py:229-241 | a digest of n bytes gives 3n-1 characters |
| Utils.Hex2Injective | librksv/utils.py:241 | `'{:02x}'` is injective on bytes |
| Utils.CertFingerprintInjective | librksv/utils.py:229-241 | different digests give different fingerprints |
| Utils.ReceiptCents | librksv/utils.py:330-338 | a value exactly for texts matching `^-?([1-9]\d+|\d),\d\d$` with ASCII digits, the value being the amount in cents |
| Utils.CentsText | librksv/utils.py:330-338 | every number of cents has a text with the amount syntax that reads back as that number |
| Utils.CentsTextOfAmount | librksv/utils.py:330-338 | every amount text other than `-0,00` is the text of the value it reads as |
| Utils.RaiseForKey | librksv/utils.py:84-86 | `InvalidKeyException` exactly when the algorithm refuses the key |
| Base64.Encode | librksv/receipt.py:410-414 | `b64encode`: length `4*ceil(n/3)`, the unpadded encoding followed by `=` |
| Base64.DecodeEncodeSextets | librksv/utils.py:259 | decoding the sextets of an encoding gives the bytes back |
| Base64.RemovePaddingOfEncode | librksv/receipt.py:410-411 | `.replace(b'=', b'')` of an encoding is the unpadded encoding |
| Utf8.DecodeEncode | librksv/receipt.py:330 | decoding the UTF-8 encoding of a string gives the string |
| Utf8.EncodeDecode | librksv/receipt.py:409 | a byte string that decodes is the encoding of what it decodes to |
| Text.SplitJoin | librksv/receipt.py:441 | splitting a `_`-join of separator-free parts gives the parts |
| Text.JoinSplit | librksv/receipt.py:345 | joining the parts of a split gives the text back |
| Text.Strip | librksv/receipt.py:653 | `str.strip`: no white space at either end, a contiguous slice of the input, the input itself when it has no edge white space |
| Receipts.GetCertSerialType | librksv/receipt.py:124-160 | a class only for a non-empty serial with at most one alphanumeric `-suffix`; TAX exactly for `S:` and 9 digits; UID exactly for `U:` and upper-case alphanumerics (3 to 16 characters); GLN exactly for `G:` and 13 digits; SERIAL exactly for any other text `int(s, 16)` reads |
| Receipts.DecimalIsHex | librksv/receipt.py:152-160 | every text `int(s, 10)` reads is also read by `int(s, 16)` |
| Receipts.GetSum | librksv/receipt.py:165-171 | a sum is accepted exactly when it has the amount syntax; it keeps its text and its value in cents; a refusal is `MalformedReceiptException` |
| Receipts.GetSums | librksv/receipt.py:241-250 | the sums are accepted exactly when each has the amount syntax, and keep their texts in order |
| Receipts.CheckIdentity | librksv/receipt.py:221-239 | passes exactly when the receipt and register IDs are non-empty without `_`, the ZDA matches its regex and the timestamp parses; an empty receipt ID is reported as `Unknown Receipt` |
| Receipts.CheckSerialAndCounter | librksv/receipt.py:255-303 | passes exactly when the serial is valid, is SERIAL precisely outside `AT0`, and the decoded counter is empty, 5 to 16 bytes, or the dummy or reversal marker; the errors are the malformed, invalid-serial and wrong-provider exceptions |
| Receipts.NewReceipt | librksv/receipt.py:198-303 | `__init__`: an empty receipt ID raises at once; a receipt exists only when the IDs, ZDA, timestamp, five sums, base64 fields, serial class and counter length are valid; it keeps the field texts and is unsigned; every failure is one of the three receipt exceptions |
| Receipts.Sign | librksv/receipt.py:664-690 | `sign` accepts exactly a signature without trailing `=` that decodes as URL-safe base64 once padded; the result is the receipt with that header and signature; a refusal is `MalformedReceiptException` |
| Receipts.SignAccepts | librksv/receipt.py:678-686 | the signatures `sign` accepts are exactly the URL-safe alphabet texts whose length is not 1 modulo 4 |
| Receipts.IsDummy | librksv/receipt.py:705-719 | a dummy receipt is never a reversal |
| Receipts.IsSignedBroken | librksv/receipt.py:692-703 | raises exactly for an unsigned receipt; true exactly for the failed-device signature text |
| Receipts.DecryptTurnoverCounter | librksv/receipt.py:728-746 | refused for dummies and reversals, then `InvalidKeyException` for a refused key, else the algorithm's decryption of the decoded counter |
| Receipts.PrefixAndZda | librksv/receipt.py:350-355 | `prefix-zda` splits into exactly two dash-free parts or raises |
| Receipts.LookupAlgorithm | librksv/receipt.py:357-362 | a malformed prefix raises `MalformedReceiptException`, an unknown one `UnknownAlgorithmException` |
| Receipts.BuildSigned | librksv/receipt.py:379-396 | a built receipt is the valid receipt of its fields carrying the header and signature; its counter is non-empty and its chaining value decodes to the algorithm's chain length |
| Receipts.FromJWSPayload | librksv/receipt.py:343-396 | a payload without 13 parts, an empty first and an algorithm prefix is malformed; every failure is a parse exception; a result has a known algorithm whose header is the given header, a valid ZDA and the given signature |
| Receipts.FromJWSString | librksv/receipt.py:306-396 | anything but three `=`-free segments with a decodable header and a 13-part payload with an algorithm prefix is malformed; every failure is a parse exception; a result has a known algorithm whose header is the JWS header, a valid ZDA and the JWS signature |
| Receipts.FromBasicCode | librksv/receipt.py:444-515 | anything but 14 `_`-parts with an empty first and an algorithm prefix is malformed; a result has a known algorithm, a valid ZDA and the standard-base64 signature re-encoded as unpadded URL-safe base64 |
| Receipts.ToJWSString | librksv/receipt.py:398-418 | raises exactly for an unsigned receipt |
| Receipts.ToBasicCode | librksv/receipt.py:517-533 | raises for an unsigned receipt; a code starts with `_` |
| Receipts.ToPayloadString | librksv/receipt.py:420-441 | the payload starts with `_`; split at `_` it gives back the empty head, `prefix-ZDA` and the thirteen field texts in order, whenever none of them holds `_` |
| Receipts.ToCSV | librksv/receipt.py:656-662 | fails exactly as the machine-readable code does; otherwise a text without `_`, one character shorter than the code, that gives a code without `;` back when `_` is put before it and `;` turned into `_` |
| Receipts.CsvCodeParts | librksv/receipt.py:641-654 | for CSV without `_`, the code `fromCSV` builds splits at `_` into an empty head and the stripped CSV fields |
| Receipts.FromCSV | librksv/receipt.py:641-654 | CSV without `_` and with a field count other than 13 raises `MalformedReceiptException`; a parsed receipt has a known algorithm prefix, a valid ZDA and a signature whose header is that algorithm's |
| Receipts.ReceiptClasses | librksv/receipt.py:705-726 | `isDummy` and `isReversal` imply a counter that decodes to an accepted length; no receipt is both; a null receipt has sum zero |
| Receipts.BuiltFields | librksv/receipt.py:276-294 | a built receipt keeps the field texts it was given |
| Receipts.PayloadOfFields | librksv/receipt.py:420-441 | a receipt built from split payload parts prints back to those parts |
| Receipts.SegmentRoundTrip | librksv/receipt.py:409-414 | a canonical JWS segment re-encodes to itself |
| Receipts.JwsRoundTrip | librksv/receipt.py:306-418 | `toJWSString(fromJWSString(jws)) == jws` for every parsed JWS with canonical segments |
| Receipts.JwsPayloadRoundTrip | librksv/receipt.py:420-441 | `toPayloadString` of a parsed payload is that payload |
| Receipts.BasicCodeRoundTrip | librksv/receipt.py:444-533 | `toBasicCode(fromBasicCode(code)) == code` for every parsed code with a canonical signature |
| Receipts.CsvCodeRoundTrip | librksv/receipt.py:641-662 | the code a CSV line stands for is the code the line was written from (no `;` or edge spaces in fields) |
| Receipts.CsvRoundTrip | librksv/receipt.py:641-662 | `fromCSV(toCSV(r))` parses to the same receipt and prefix |
| VerifyReceipt.FirstKey | librksv/verify_receipt.py:277-281 | no key exactly when no serial has one; otherwise the key of the first serial that has one |
| VerifyReceipt.LookupKey | librksv/verify_receipt.py:277-281 | the lookup loop returns the first key found |
| VerifyReceipt.PublicKeyFor | librksv/verify_receipt.py:264-281 | `CertSerialMismatchException` exactly for a non-AT0 receipt checked against a certificate whose key ID is not among the serial's |
| VerifyReceipt.VerifyRaising | librksv/verify_receipt.py:259-295 | unknown algorithm first, then the serial mismatch, then the failed signature device (`UnsignedNullReceipt` for a standard null receipt), then a missing key; past these, the receipt is accepted exactly when the algorithm verifies its JWS under the key, and otherwise raises `InvalidSignatureException` |
| VerifyReceipt.Verify | librksv/verify_receipt.py:349-359 | the stderr variant raises only what is not a receipt exception; both return the algorithm named by the prefix |
| VerifyReceipt.StderrAcceptsSigned | librksv/verify_receipt.py:349-359 | the stderr variant accepts every signed receipt of a known algorithm |
| VerifyReceipt.VerifyJWS | librksv/verify_receipt.py:297-300 | parse errors pass through; a parsed receipt is accepted exactly when `verify` accepts it, with `verify`'s algorithm, and otherwise fails with `verify`'s exception |
| VerifyReceipt.VerifyBasicCode | librksv/verify_receipt.py:302-305 | parse errors pass through; a parsed receipt is accepted exactly when `verify` accepts it, with `verify`'s algorithm, and otherwise fails with `verify`'s exception |
| VerifyReceipt.VerifyCSV | librksv/verify_receipt.py:312-315 | parse errors pass through; a parsed receipt is accepted exactly when `verify` accepts it, with `verify`'s algorithm, and otherwise fails with `verify`'s exception |
| VerifyReceipt.VerifyChainValue | librksv/verify_receipt.py:317-319 | `ChainingException` exactly when the raising variant sees a value other than the receipt's chaining value; the stderr variant never raises |
| VerifyReceipt.VerifyTurnoverCounter | librksv/verify_receipt.py:321-326 | the decrypted counter; the raising variant raises exactly when it differs from the expected one; both variants return the same value |
| VerifyReceipt.VerifyDateTime | librksv/verify_receipt.py:328-330 | `DecreasingDateException` exactly when the raising variant sees a strictly earlier time |
| Verify.ParseVerifyAgree | librksv/verify_receipt.py:297-300 | `verifyJWS` accepts only what `fromJWSString` parses, and fails with a signature failure only for a parsed receipt |
| Verify.Admit | librksv/verify.py:355-377 | errors of `verifyJWS` other than a failed signature device pass through; a failed device on the first receipt raises; a failed-device receipt is admitted only with a predecessor and no restore due; a dummy, reversal or receipt with turnover is refused while a restore is due and makes one due exactly after a failed device; a receipt `verifyJWS` accepts goes on as `AdmitVerified` says, a failed-device one as `AdmitFailed` says |
| Verify.AdmitParsed | librksv/verify.py:355-377 | an admitted receipt is the parsed receipt with its algorithm |
| Verify.AdmitVerified | librksv/verify.py:356-363 | a first or standard receipt passes with no restore due; a signed receipt with turnover, or a dummy or reversal, raises while a restore is due, and otherwise passes when its predecessor is signed, making a restore due exactly after a failed device |
| Verify.AdmitFailed | librksv/verify.py:369-377 | a failed-device receipt raises as the first receipt or while a restore is due; otherwise it passes (for a known algorithm) with no restore due |
| Verify.Anchor | librksv/verify.py:379-392 | a first receipt must have zero turnover and be neither dummy nor reversal; outside a cluster such a receipt passes with no predecessor; in a cluster it passes exactly when it and the previous register's start receipt are closed-system (`AT0`), which then becomes its predecessor |
| Verify.Anchoring | librksv/verify.py:379-394 | the first receipt sets the start receipt; in a cluster the previous register's start receipt becomes the predecessor |
| Verify.Continuity | librksv/verify.py:398-407 | passes exactly with the same register ID, the same system type and (raising) no earlier time |
| Verify.VerifyChain | librksv/verify.py:238-251 | `ChainingException` exactly when the raising variant sees a chaining value other than the hash in base64 |
| Verify.ChainCheck | librksv/verify.py:411-423 | a pending `chainNextTo` is checked and consumed, else the chain to the previous receipt; a failure on the start receipt becomes the (cluster) initial-receipt exception |
| Verify.Counter | librksv/verify.py:425-432 | with a key, a non-dummy adds its sum in cents; a non-reversal must decrypt to the new total (raising); dummies and no key leave it |
| Verify.Checked | librksv/verify.py:396-432 | with a predecessor a repeated ID raises, then a continuity failure with its own exception; the ID is recorded; a chaining or counter failure stops with its own exception; a receipt passing every check goes on with chaining and counter updating the register |
| Verify.Step | librksv/verify.py:351-435 | every receipt keeps `lastReceiptJWS`; a passing receipt becomes the predecessor, starts a register without one, joins the used IDs and, when it has a predecessor, was not used before |
| Verify.StepParsed | librksv/verify.py:351-435 | a passing receipt is the parsed one |
| Verify.StepCounts | librksv/verify.py:425-432 | with the raising verifier a passing receipt adds its turnover |
| Verify.RunAdvances | librksv/verify.py:347-437 | over a group `lastReceiptJWS` is untouched, the predecessor ends at the group's last receipt and a register without one starts at the group's first |
| Verify.StepClusterFirst | librksv/verify.py:386-397 | in a cluster a register's first receipt that passes has an ID not used before, since the previous register's start receipt is its predecessor |
| Verify.RunIds | librksv/verify.py:396-409 | a passing run adds exactly the group's IDs; they are distinct and unused, the very first excepted |
| Verify.RunCounts | librksv/verify.py:425-432 | a passing run adds the sum of the group's amounts |
| Verify.GroupStart | librksv/verify.py:347-350 | the predecessor is the register's last receipt, parsed exactly when it is set; a register without one always starts |
| Verify.GroupLast | librksv/verify.py:434-438 | after a passing group the last receipt is the group's last; a failing group keeps it; a fresh register starts at the group's first |
| Verify.GroupIds | librksv/test/test_verify.py:159-187 | a passing group adds exactly its receipt IDs to the used IDs; they are distinct and unused, except the register's very first receipt outside a cluster |
| Verify.GroupCounter | librksv/test/test_verify.py:223-230 | with the raising verifier a passing group adds the turnover of its receipts |
| Verify.StepNeedRestore | librksv/verify.py:357-363 | a passing receipt makes a restore due exactly when it is signed, nonstandard and follows a failed device |
| Verify.StepChainNextTo | librksv/verify.py:411-414 | a passing receipt consumes a pending chaining value |
| Verify.StepReplays | librksv/test/test_verify.py:160-184 | a passing receipt changes the register exactly as the replay step does |
| Verify.RunReplays | librksv/test/test_verify.py:160-184 | a passing run changes the register exactly as the replay does |
| Verify.GroupReplays | librksv/test/test_verify.py:160-184 | a passing group leaves the register exactly as `updateFromDEPGroup` does |
| Verify.ApplyChecks | librksv/verify.py:396-432 | the checks against the predecessor applied to the objects give the state `Checked` specifies |
| Verify.ProcessReceipt | librksv/verify.py:352-435 | one pass of the loop changes the objects as `Step` says |
| Verify.RunReceipts | librksv/verify.py:351-435 | the loop leaves the objects as the fold says and stops at the first exception |
| Verify.VerifyGroup | librksv/verify.py:296-438 | the register and used IDs end as `VerifyGroupSpec` says; an exception exactly when it fails |
| RegisterState.CashRegisterState.constructor | verification_state.py:133 | a new register: no receipts, zero counter, no chaining value, no restore due |
| RegisterState.CashRegisterState.UpdateFromDEPGroup | verification_state.py:219 | the register ends as `ReplayGroup` says; an exception exactly when the replay fails |
| RegisterState.ReplayStep | librksv/verify.py:357-432 | a replayed receipt must parse and becomes the previous receipt; the last receipt is not touched |
| RegisterState.ReplayFrom | librksv/verify.py:351-435 | the replay leaves the last receipt alone |
| RegisterState.ReplayGroup | librksv/verify.py:434-437 | after a replay the last receipt is the group's last |
| RegisterState.UsedReceiptIds.Check | librksv/verify.py:397 | a duplicate exactly for an ID already used |
| RegisterState.UsedReceiptIds.Add | librksv/verify.py:409 | the ID joins the set |
| Dep.VerifyCert | librksv/verify.py:253-294 | the loop returns exactly `CertTrust`'s outcome |
| Dep.CertTrusted | librksv/verify.py:253-294 | a certificate passes exactly when some position of its path is in the key store with the same fingerprint and each earlier one is signed by the next |
| Dep.PackageEachShape | librksv/verify.py:544-550 | a packaged chunk keeps each group's receipts in order with a verifier from its trusted certificate; a group without one raises |
| Dep.PackageChunkKinds | librksv/verify.py:533-551 | a single group gets the verifier class asked for; a chunk of several groups fails when one group has no certificate, with `NoCertificateGivenException` when the first has none |
| Dep.PackageChunkIgnoresClass | librksv/verify.py:544-550 | as written, a chunk of several groups gets raising verifiers whatever class was asked for |
| Dep.PackageEachErrors | librksv/verify.py:544-550 | whether packaging fails does not depend on the verifier class |
| Dep.PackageChunkWithVerifiers | librksv/verify.py:533-551 | the loop returns what `packageChunkWithVerifiers` as written returns |
| Dep.VerifyGroupsAppend | librksv/verify.py:486-490 | verifying groups in two calls, threading the state, equals one call |
| Dep.GroupVerifierKeepsLast | librksv/verify.py:437 | a passing `verifyGroup` sets the last receipt to the group's last |
| Dep.VerifyGroupsLast | librksv/verify.py:486-490 | after groups that all pass, the last receipt is the last receipt of the last non-empty group |
| Dep.VerifyGroupsWithVerifiers | librksv/verify.py:486-490 | the loop leaves the objects as `VerifyGroups` says |
| Dep.GroupVerifierReplays | librksv/test/test_verify.py:160-184 | every group that passes with the raising verifier is replayed exactly by `updateFromDEPGroup` |
| Dep.VerifyDEPReplays | librksv/test/test_verify.py:160-184 | an export that passes with the raising verifier leaves the register exactly as replaying its groups does |
| Dep.VerifyDEPCertless | librksv/verify.py:737-757 | a passing export has one group or a trusted certificate for every group |
| Dep.OneGroupStops | librksv/verify.py:743-747 | after a group without a certificate every further group raises `NoCertificateGivenException` |
| Dep.CertifiedAll | librksv/verify.py:749-757 | after a group with a certificate every passing group has a trusted certificate |
| Dep.SetUpVerifier | librksv/verify.py:749-757 | the verifier for a group is `DEPVerifier`'s |
| Dep.VerifyDEPGroup | librksv/verify.py:742-760 | one group of the loop changes the objects as `DEPStep` says |
| Dep.VerifyDEP | librksv/verify.py:737-760 | the loop leaves the objects as `VerifyDEPGroups` says |
| Packaging.GetChunksForProcs | librksv/verify.py:553-563 | non-empty batches of at most `max(nprocs, 1)` chunks, all but the last full, concatenating to the input |
| Packaging.RunsPairs | librksv/verify.py:524-529 | the groups `groupby` forms hold the receipts with their verifiers in order |
| Packaging.RunsShape | librksv/verify.py:526-528 | the groups are non-empty and neighbours have different verifiers |
| Packaging.SlicesFlatten | librksv/verify.py:520-521 | the slices concatenate to the input |
| Packaging.SlicesSizes | librksv/verify.py:519-521 | there are `ceil(n/per)` slices of 1 to `per` items |
| Packaging.CeilShare | librksv/verify.py:519-521 | slicing by the rounded-up share gives at most `nprocs` slices |
| Packaging.BalanceNoReceipts | librksv/verify.py:517-521 | as written, groups without receipts make `range` raise `ValueError`; the corrected version gives no packages |
| Packaging.BalancePackages | librksv/verify.py:500-531 | at most `nprocs` packages whose receipts, concatenated, are the input's in order, each grouped by verifier; every package holds between 1 and `ceil(receipts / nprocs)` receipts and all but the last exactly that many |
| Packaging.BalanceGroupsWithVerifiers | librksv/verify.py:500-531 | the loop returns what `Balance` says |
| VerificationState.ListIndex | verification_state.py:141 | a position exactly for `-len <= n < len`: `n` itself, or counted from the end for a negative `n` |
| VerificationState.ArgStrOrNone | verification_state.py:89-92 | absent exactly for the literal `None`, otherwise the argument |
| VerificationState.IdsRead | verification_state.py:94-98 | empty for `None`; otherwise exactly the stripped lines |
| VerificationState.UpdateRegisters | verification_state.py:203-222 | no groups change nothing; with groups a bad index raises `IndexError`; otherwise register `n` becomes its replay through the groups, failing exactly when the replay does, and no other register changes |
| VerificationState.UpdateLastRegister | verification_state.py:219 | the index `-1` of the command line addresses the last register, as Python list indexing does |
| VerificationState.ReplayInto | verification_state.py:217-219 | the loop over the groups leaves the register as `ReplayGroups` says |
| VerificationState.ClusterState.constructor | verification_state.py:107-111 | `create`: no registers and no used IDs |
| VerificationState.ClusterState.AddCashRegister | verification_state.py:121-126 | a new register is appended; nothing else changes |
| VerificationState.ClusterState.ResetCashRegister | verification_state.py:128-134 | `InvalidCashRegisterIndexException` exactly when `n` is outside `0 <= n < len`, changing nothing; otherwise register `n` becomes new, the others stay and the used IDs become empty |
| VerificationState.ClusterState.DeleteCashRegister | verification_state.py:136-141 | register `n` is removed, earlier ones stay, later ones move down one |
| VerificationState.ClusterState.SetLastReceiptJWS | verification_state.py:143-149 | only register `n`'s last receipt changes, `None` meaning absent |
| VerificationState.ClusterState.SetLastTurnoverCounter | verification_state.py:151-157 | only register `n`'s counter changes |
| VerificationState.ClusterState.SetChainNextTo | verification_state.py:159-165 | only register `n`'s chaining value changes, `None` meaning absent |
| VerificationState.ClusterState.ToggleNeedRestoreReceipt | verification_state.py:167-174 | only register `n`'s restore flag changes, to its negation |
| VerificationState.ClusterState.SetStartReceiptJWS | verification_state.py:176-182 | only register `n`'s start receipt changes, `None` meaning absent |
| VerificationState.ClusterState.ReadUsedReceiptIds | verification_state.py:184-191 | the used IDs are replaced by exactly the stripped lines read; the registers stay |
| VerificationState.ClusterState.CopyCashRegister | verification_state.py:193-201 | register `t` becomes register `s` of the other state; the others stay; a bad index raises |
| VerificationState.ClusterState.UpdateCashRegister | verification_state.py:203-222 | the registers end as `UpdateRegisters` says; an exception exactly when it fails |

## Left out

- Cryptography is left out: JWS signature checks, the chaining hash,
  counter decryption, SHA-256 digests, certificate signature checks and
  key loading. These are oracles, and every result holds for all of them.
- The algorithm table (`algorithms.ALGORITHMS`) is reduced to a map from
  prefix to `Algorithm` oracles.
- `key_store` is reduced to the `KeyStore` and `KeyIds` oracles.
- `depparser` (the streaming parser, `expandDEPReceipt`, chunking by
  size) is not part of this model. An export is a sequence of groups of
  receipt strings, each with its certificate and chain.
- `librksv/verification_state.py` (the state classes) is not part of this
  model. `CashRegisterState`, the used-ID set, `updateFromDEPGroup`,
  `getCashRegisterInfo` and `updateCashRegisterInfo` are reconstructed
  from their uses.
- VerificationState.ClusterState.ResetCashRegister: the bounds check of
  `updateCashRegisterInfo` (`0 <= n < len`, else
  `InvalidCashRegisterIndexException`) is reconstructed from the exception
  that `librksv/verify.py:637` and `librksv/verify.py:723` document for
  it, since the class defining it is not part of this model.
- Text.IsDigits, Text.IsAlnum, Text.IsUpperInvariant: only ASCII digits
  and letters are modelled. Python 3's `str.isdigit`, `str.isalnum`,
  `str.upper` and the regex class `\d` also accept other Unicode digits
  and letters. Every member below that rests on them is weaker in the
  same way.
- Utils.IsIntegerPart, Utils.IsAmount, Utils.ReceiptCents: an amount
  written with non-ASCII digits (`١,٠٠`) is refused by the model, while
  Python's `\d` and `float` accept it.
- Receipts.IsTaxNumber, Receipts.IsUidNumber, Receipts.IsGlnNumber: the
  digits and letters of a serial are ASCII only.
- Receipts.GetCertSerialType: a serial whose digits or letters are
  non-ASCII is classed as invalid or SERIAL by the model, where Python
  may class it TAX, UID or GLN.
- Receipts.GetSum, Receipts.GetSums: a sum in non-ASCII digits raises
  `MalformedReceiptException` in the model, where Python accepts it.
- Receipts.CheckIdentity: a ZDA such as `AT1٢`, which Python's `\d`
  accepts, fails the model's ZDA check.
- Receipts.CheckSerialAndCounter: a serial with non-ASCII digits or
  letters may be judged differently, as for GetCertSerialType.
- Receipts.NewReceipt: a receipt whose sums or serial use non-ASCII
  digits or letters is refused by the model, where Python may build it.
- Receipts.LookupAlgorithm: a prefix such as `R1١` matches the algorithm
  pattern in Python and raises `UnknownAlgorithmException`; the model
  raises `MalformedReceiptException`.
- Verify.Coherent: the group lemmas that depend on `parse` and
  `verifyJWS` agreeing assume the context `Context` builds, for which
  `Verify.ContextCoherent` proves that agreement.
- `verifyParsedDEP`, `prepareVerificationTuples` and
  `verifyGroupsWithVerifiersTuple` are left out. They cover the process
  pool and the merging of per-process ID sets, which are concurrency.
  Only the sequential fold is modelled.
- Timestamps are points on an abstract total order given by
  `Env.parseTime`.
- Amounts are exact cents. `int(round(sum * 100))` on floats is not
  modelled.
- Receipts.Sign: the receipt is a value, so `sign` returns a signed copy
  instead of setting `header`, `signature` and `signed` in place. It is
  only ever applied to a receipt just built.
- Packaging.Balance: `nprocs` is a natural number. A negative `nprocs`
  and float rounding of `len / nprocs` are not modelled; the division is
  exact ceiling division.
- Exception messages, gettext and fingerprints inside exception
  arguments are left out. Errors carry only the receipt ID or key ID.
- The `THIS IS A BUG` checks of `verifyGroup` and `verifyDEP` guard
  against programming errors with no counterpart here. A register and a
  used-ID object always exist, and chunks are never empty.
- `fromOCRCode`, `toOCRCode`, `toURLHash` and `verifyURLHash` are outside
  the modelled core.
- The state tool's `show`, `fromArbitraryReceipt` and
  `fromArbitraryStartReceipt` are left out. The last two call
  `ClusterState` constructors that are not part of this model.
- The state tool's argument parsing, file reading, JSON loading and
  saving, and `int()` parsing of indices are left out. A command that
  raises leaves the saved state as it was. The in-memory state after a
  failed `updateCashRegister` is therefore left unspecified.
- VerificationState.ClusterState.CopyCashRegister: the copied register
  is a new object holding the source's fields. Python shares the object
  loaded from the other file, which nothing else references.
- `depParserChunkSize`, `clusterStateReceiptIDsBackend`, `skipBOM`,
  `readJsonStream`, key and certificate generation, and the pickling
  overrides are environment, I/O or library glue.

## Findings

| source | as written | input that shows it | evidently intended | confidence | as-written member | corrected member |
|---|---|---|---|---|---|---|
| librksv/verify.py:519-521 | `recsPerProc` is `ceil(0 / nprocs) = 0` when the groups hold no receipts, and `range(0, 0, 0)` raises `ValueError` | `balanceGroupsWithVerifiers([], 2)` or groups whose receipt lists are all empty | no receipts give no packages | medium, not executed | Packaging.BalanceNoReceipts | Packaging.BalancePackages |
| librksv/verify.py:549 | a chunk of several groups always gets `verify_receipt.ReceiptVerifier.fromCert`, ignoring `receiptVerifierClass` | a chunk of two certified groups packaged with `StderrReceiptVerifier` gets raising verifiers | every group gets the requested verifier class, as for a single-group chunk at 538 and 541 | medium, not executed | Dep.PackageChunkIgnoresClass | Dep.PackageChunkKinds |
