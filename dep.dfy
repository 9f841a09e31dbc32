/** `librksv/verify.py`, around `verifyGroup`: certificate checks
    (`verifyCert`), the verifiers a chunk of groups is packaged with
    (`packageChunkWithVerifiers`), the sequential verification of several
    groups (`verifyGroupsWithVerifiers`), and `verifyDEP`'s loop over the
    groups of an export with its rule that a group without a certificate
    must be the export's only group. */
module Dep {
  import opened Wrappers
  import opened Errors
  import opened Utils
  import opened Receipts
  import opened VerifyReceipt
  import opened RegisterState
  import opened Verify

  /** `utils.verifyCert(cert, signer)` (a signature check, outside this
      model): whether `signer` signed `cert`. */
  type SignedBy = (Certificate, Certificate) -> bool

  /** `key_store.numSerialToKeyId` of a certificate's serial number. */
  function KeyIdOf(ids: KeyIds, c: Certificate): string {
    ids.fromSerialNumber(c.serialNumber)
  }

  // ---------------------------------------------------------------------
  // verifyCert

  /** `verifyCert` from the certificate `prev` reached so far on: the first
      certificate of the chain the key store knows decides (its
      fingerprint must match), and before it every certificate must be
      signed by the next one. */
  function CertTrust(ids: KeyIds, store: KeyStore, signedBy: SignedBy, cert: Certificate,
                     prev: Certificate, chain: seq<Certificate>): (e: Option<Error>)
    decreases |chain|
  {
    var ks := store.getCert(KeyIdOf(ids, prev));
    if ks.Some? then
      if CertFingerprint(ks.value.fingerprint) != CertFingerprint(prev.fingerprint) then
        Some(CertificateSerialCollision(KeyIdOf(ids, prev)))
      else None
    else if |chain| == 0 then Some(UntrustedCertificate(KeyIdOf(ids, cert)))
    else if !signedBy(prev, chain[0]) then
      Some(CertificateChainBroken(KeyIdOf(ids, prev), KeyIdOf(ids, chain[0])))
    else CertTrust(ids, store, signedBy, cert, chain[0], chain[1..])
  }

  /** `verifyCert(cert, chain, keyStore)`: the loop over the chain with the
      certificate reached so far in `prev`. */
  method VerifyCert(ids: KeyIds, store: KeyStore, signedBy: SignedBy, cert: Certificate, chain: seq<Certificate>)
    returns (e: Option<Error>)
    ensures e == CertTrust(ids, store, signedBy, cert, cert, chain)
  {
    var prev := cert;
    var i := 0;
    while i < |chain|
      invariant 0 <= i <= |chain|
      invariant CertTrust(ids, store, signedBy, cert, prev, chain[i..]) == CertTrust(ids, store, signedBy, cert, cert, chain)
    {
      var ksCert := store.getCert(KeyIdOf(ids, prev));
      if ksCert.Some? {
        if CertFingerprint(ksCert.value.fingerprint) != CertFingerprint(prev.fingerprint) {
          return Some(CertificateSerialCollision(KeyIdOf(ids, prev)));
        }
        return None;
      }
      if !signedBy(prev, chain[i]) {
        return Some(CertificateChainBroken(KeyIdOf(ids, prev), KeyIdOf(ids, chain[i])));
      }
      assert chain[i..][1..] == chain[i + 1..];
      prev := chain[i];
      i := i + 1;
    }
    var ksCert := store.getCert(KeyIdOf(ids, prev));
    if ksCert.Some? {
      if CertFingerprint(ksCert.value.fingerprint) != CertFingerprint(prev.fingerprint) {
        return Some(CertificateSerialCollision(KeyIdOf(ids, prev)));
      }
      return None;
    }
    return Some(UntrustedCertificate(KeyIdOf(ids, cert)));
  }

  /** Position `j` of the signing path passes on: the key store does not
      hold it and the next certificate signed it. */
  ghost predicate PassesOn(ids: KeyIds, store: KeyStore, signedBy: SignedBy, path: seq<Certificate>, j: int)
    requires 0 <= j < |path| - 1
  {
    store.getCert(KeyIdOf(ids, path[j])).None? && signedBy(path[j], path[j + 1])
  }

  /** Position `k` of the signing path anchors it: the key store holds that
      certificate with the same fingerprint, and every position before it
      passes on. */
  ghost predicate AnchorsAt(ids: KeyIds, store: KeyStore, signedBy: SignedBy, path: seq<Certificate>, k: int)
    requires 0 <= k < |path|
  {
    store.getCert(KeyIdOf(ids, path[k])).Some? &&
    store.getCert(KeyIdOf(ids, path[k])).value.fingerprint == path[k].fingerprint &&
    forall j :: 0 <= j < k ==> PassesOn(ids, store, signedBy, path, j)
  }

  /** Past a position that passes on, the anchors of the rest of the path
      are those of the path, one further on. */
  lemma AnchorsShift(ids: KeyIds, store: KeyStore, signedBy: SignedBy, path: seq<Certificate>, k: int)
    requires |path| >= 2 && PassesOn(ids, store, signedBy, path, 0) && 0 <= k < |path| - 1
    ensures AnchorsAt(ids, store, signedBy, path[1..], k) <==> AnchorsAt(ids, store, signedBy, path, k + 1)
  {
    var rest := path[1..];
    forall j | 0 <= j < k
      ensures PassesOn(ids, store, signedBy, rest, j) <==> PassesOn(ids, store, signedBy, path, j + 1)
    {
      assert rest[j] == path[j + 1] && rest[j + 1] == path[j + 2];
    }
    if AnchorsAt(ids, store, signedBy, rest, k) {
      forall j | 0 <= j < k + 1
        ensures PassesOn(ids, store, signedBy, path, j)
      {
        if j > 0 {
          assert PassesOn(ids, store, signedBy, rest, j - 1);
        }
      }
    }
    if AnchorsAt(ids, store, signedBy, path, k + 1) {
      forall j | 0 <= j < k
        ensures PassesOn(ids, store, signedBy, rest, j)
      {
        assert PassesOn(ids, store, signedBy, path, j + 1);
      }
    }
  }

  /** A certificate passes `verifyCert` exactly when some position of its
      signing path anchors it in the key store. */
  lemma {:induction false} CertTrusted(ids: KeyIds, store: KeyStore, signedBy: SignedBy, cert: Certificate,
                                        prev: Certificate, chain: seq<Certificate>)
    ensures CertTrust(ids, store, signedBy, cert, prev, chain).None? <==>
      exists k :: 0 <= k < |[prev] + chain| && AnchorsAt(ids, store, signedBy, [prev] + chain, k)
    decreases |chain|
  {
    var path := [prev] + chain;
    var ks := store.getCert(KeyIdOf(ids, prev));
    if ks.Some? {
      if CertFingerprint(ks.value.fingerprint) == CertFingerprint(prev.fingerprint) {
        CertFingerprintInjective(ks.value.fingerprint, prev.fingerprint);
        assert AnchorsAt(ids, store, signedBy, path, 0);
      } else {
        forall k | 0 <= k < |path|
          ensures !AnchorsAt(ids, store, signedBy, path, k)
        {
          if k > 0 {
            assert !PassesOn(ids, store, signedBy, path, 0);
          }
        }
      }
    } else if |chain| == 0 {
      assert !AnchorsAt(ids, store, signedBy, path, 0);
    } else if !signedBy(prev, chain[0]) {
      forall k | 0 <= k < |path|
        ensures !AnchorsAt(ids, store, signedBy, path, k)
      {
        if k > 0 {
          assert !PassesOn(ids, store, signedBy, path, 0);
        }
      }
    } else {
      assert PassesOn(ids, store, signedBy, path, 0);
      assert [chain[0]] + chain[1..] == path[1..];
      CertTrusted(ids, store, signedBy, cert, chain[0], chain[1..]);
      if exists k :: 0 <= k < |path| && AnchorsAt(ids, store, signedBy, path, k) {
        var k :| 0 <= k < |path| && AnchorsAt(ids, store, signedBy, path, k);
        AnchorsShift(ids, store, signedBy, path, k - 1);
      }
      if exists k :: 0 <= k < |path[1..]| && AnchorsAt(ids, store, signedBy, path[1..], k) {
        var k :| 0 <= k < |path[1..]| && AnchorsAt(ids, store, signedBy, path[1..], k);
        AnchorsShift(ids, store, signedBy, path, k);
      }
    }
  }

  // ---------------------------------------------------------------------
  // packageChunkWithVerifiers

  /** A group of an export: its receipts, the certificate that signed them
      (absent for a register signing with a key from the key store), and
      the certificate's signing chain. */
  datatype DEPGroup = DEPGroup(recs: seq<string>, cert: Option<Certificate>, chain: seq<Certificate>)

  /** What the verification of an export is given: the key IDs, the key
      store, the signature check on certificates, and the context
      `verifyGroup` runs in for a verifier (the receipt oracles, the
      turnover-counter key and the previous register's start receipt are
      fixed in it; `SetupOf` builds it with `Context`). */
  datatype Setup = Setup(ids: KeyIds, store: KeyStore, signedBy: SignedBy,
                         contextOf: ReceiptVerifier -> GroupContext)

  function SetupOf(env: Env, ids: KeyIds, store: KeyStore, signedBy: SignedBy,
                   key: Option<Key>, prevStart: Option<string>): (st: Setup)
    ensures st.ids == ids && st.store == store && st.signedBy == signedBy
    ensures forall rv :: st.contextOf(rv) == Context(env, ids, rv, key, prevStart)
  {
    Setup(ids, store, signedBy, rv => Context(env, ids, rv, key, prevStart))
  }

  /** The verifiers of several groups, each of which must have a trusted
      certificate; the verifiers are of kind `kind`. */
  function PackageEach(st: Setup, kind: VerifierKind, chunk: seq<DEPGroup>): Result<seq<(seq<string>, ReceiptVerifier)>, Error>
    decreases |chunk|
  {
    if |chunk| == 0 then Ok([])
    else
      var g := chunk[0];
      if g.cert.None? then Err(NoCertificateGiven)
      else match CertTrust(st.ids, st.store, st.signedBy, g.cert.value, g.cert.value, g.chain)
        case Some(e) => Err(e)
        case None =>
          match PackageEach(st, kind, chunk[1..])
          case Err(e) => Err(e)
          case Ok(rest) => Ok([(g.recs, ReceiptVerifier(kind, FromCert(g.cert.value)))] + rest)
  }

  /** The verifier of a chunk's only group: from the key store without a
      certificate, from its certificate once that is trusted. */
  function PackageSingle(st: Setup, kind: VerifierKind, g: DEPGroup): Result<seq<(seq<string>, ReceiptVerifier)>, Error> {
    if g.cert.None? then Ok([(g.recs, ReceiptVerifier(kind, FromKeyStore(st.store)))])
    else match CertTrust(st.ids, st.store, st.signedBy, g.cert.value, g.cert.value, g.chain)
      case Some(e) => Err(e)
      case None => Ok([(g.recs, ReceiptVerifier(kind, FromCert(g.cert.value)))])
  }

  /** `packageChunkWithVerifiers` as written: a chunk of several groups is
      packaged with the raising `ReceiptVerifier` whatever verifier class
      was asked for. */
  function PackageChunkAsWritten(st: Setup, kind: VerifierKind, chunk: seq<DEPGroup>): Result<seq<(seq<string>, ReceiptVerifier)>, Error> {
    if |chunk| == 1 then PackageSingle(st, kind, chunk[0]) else PackageEach(st, Raising, chunk)
  }

  /** `packageChunkWithVerifiers` with the verifier class it was given
      used for every group. */
  function PackageChunk(st: Setup, kind: VerifierKind, chunk: seq<DEPGroup>): Result<seq<(seq<string>, ReceiptVerifier)>, Error> {
    if |chunk| == 1 then PackageSingle(st, kind, chunk[0]) else PackageEach(st, kind, chunk)
  }

  /** A packaged chunk keeps every group's receipts in order, gives every
      group a verifier of the class asked for, and only a chunk's only
      group may go without a certificate; every certificate is trusted. */
  lemma {:induction false} PackageEachShape(st: Setup, kind: VerifierKind, chunk: seq<DEPGroup>)
    ensures var r := PackageEach(st, kind, chunk);
      r.Ok? ==> (|r.value| == |chunk| &&
        forall i :: 0 <= i < |chunk| ==> (chunk[i].cert.Some? &&
          CertTrust(st.ids, st.store, st.signedBy, chunk[i].cert.value, chunk[i].cert.value, chunk[i].chain).None? &&
          r.value[i] == (chunk[i].recs, ReceiptVerifier(kind, FromCert(chunk[i].cert.value)))))
    ensures (exists i :: 0 <= i < |chunk| && chunk[i].cert.None?) ==> PackageEach(st, kind, chunk).Err?
    decreases |chunk|
  {
    if |chunk| > 0 {
      PackageEachShape(st, kind, chunk[1..]);
      var r := PackageEach(st, kind, chunk);
      if r.Ok? {
        var rest := PackageEach(st, kind, chunk[1..]).value;
        assert r.value == [r.value[0]] + rest;
        forall i | 0 < i < |chunk|
          ensures chunk[i] == chunk[1..][i - 1] && r.value[i] == rest[i - 1]
        {
        }
      }
      if exists i :: 0 <= i < |chunk| && chunk[i].cert.None? {
        var i :| 0 <= i < |chunk| && chunk[i].cert.None?;
        if i > 0 {
          assert chunk[1..][i - 1].cert.None?;
        }
      }
    }
  }

  /** The verifier class asked for is the one every group gets. A chunk
      of several groups fails when any group lacks a certificate, with
      `NoCertificateGivenException` when no earlier group failed first. */
  lemma PackageChunkKinds(st: Setup, kind: VerifierKind, chunk: seq<DEPGroup>)
    ensures var r := PackageChunk(st, kind, chunk);
      r.Ok? ==> |r.value| == |chunk| && forall i :: 0 <= i < |r.value| ==> r.value[i].1.kind == kind
    ensures |chunk| != 1 && (exists i :: 0 <= i < |chunk| && chunk[i].cert.None?) ==>
      PackageChunk(st, kind, chunk).Err?
    ensures |chunk| > 1 && chunk[0].cert.None? ==> PackageChunk(st, kind, chunk) == Err(NoCertificateGiven)
  {
    PackageEachShape(st, kind, chunk);
  }

  /** As written, a chunk of several groups asked to be packaged with the
      reporting verifier gets raising verifiers instead. */
  lemma PackageChunkIgnoresClass(st: Setup, chunk: seq<DEPGroup>)
    requires |chunk| > 1
    ensures var r := PackageChunkAsWritten(st, Stderr, chunk);
      r.Ok? ==> forall i :: 0 <= i < |r.value| ==> r.value[i].1.kind == Raising
    ensures PackageChunkAsWritten(st, Stderr, chunk).Ok? <==> PackageChunk(st, Stderr, chunk).Ok?
  {
    PackageEachShape(st, Raising, chunk);
    PackageEachErrors(st, Raising, Stderr, chunk);
  }

  /** Whether packaging fails does not depend on the verifier class. */
  lemma {:induction false} PackageEachErrors(st: Setup, k1: VerifierKind, k2: VerifierKind, chunk: seq<DEPGroup>)
    ensures PackageEach(st, k1, chunk).Ok? <==> PackageEach(st, k2, chunk).Ok?
    decreases |chunk|
  {
    if |chunk| > 0 {
      PackageEachErrors(st, k1, k2, chunk[1..]);
    }
  }

  /** `packageChunkWithVerifiers`, as written: the groups are packaged one
      by one into a growing list. */
  method PackageChunkWithVerifiers(st: Setup, kind: VerifierKind, chunk: seq<DEPGroup>)
    returns (r: Result<seq<(seq<string>, ReceiptVerifier)>, Error>)
    ensures r == PackageChunkAsWritten(st, kind, chunk)
  {
    if |chunk| == 1 {
      var g := chunk[0];
      if g.cert.None? {
        return Ok([(g.recs, ReceiptVerifier(kind, FromKeyStore(st.store)))]);
      }
      var e := VerifyCert(st.ids, st.store, st.signedBy, g.cert.value, g.chain);
      if e.Some? {
        return Err(e.value);
      }
      return Ok([(g.recs, ReceiptVerifier(kind, FromCert(g.cert.value)))]);
    }
    var groupsWithVerifiers: seq<(seq<string>, ReceiptVerifier)> := [];
    assert chunk[0..] == chunk;
    var r0 := PackageEach(st, Raising, chunk);
    assert r0.Ok? ==> [] + r0.value == r0.value;
    var i := 0;
    while i < |chunk|
      invariant 0 <= i <= |chunk|
      invariant PackageEach(st, Raising, chunk) == Prepend(groupsWithVerifiers, PackageEach(st, Raising, chunk[i..]))
    {
      var g := chunk[i];
      assert chunk[i..][1..] == chunk[i + 1..];
      if g.cert.None? {
        return Err(NoCertificateGiven);
      }
      var e := VerifyCert(st.ids, st.store, st.signedBy, g.cert.value, g.chain);
      if e.Some? {
        return Err(e.value);
      }
      var gv := (g.recs, ReceiptVerifier(Raising, FromCert(g.cert.value)));
      PrependCons(groupsWithVerifiers, gv, PackageEach(st, Raising, chunk[i + 1..]));
      groupsWithVerifiers := groupsWithVerifiers + [gv];
      i := i + 1;
    }
    assert groupsWithVerifiers + [] == groupsWithVerifiers;
    return Ok(groupsWithVerifiers);
  }

  /** A list already built, in front of the rest of the result. */
  function Prepend<T>(done: seq<T>, rest: Result<seq<T>, Error>): Result<seq<T>, Error> {
    if rest.Ok? then Ok(done + rest.value) else rest
  }

  lemma PrependCons<T>(done: seq<T>, x: T, rest: Result<seq<T>, Error>)
    ensures Prepend(done, if rest.Ok? then Ok([x] + rest.value) else rest) == Prepend(done + [x], rest)
  {
    if rest.Ok? {
      assert done + ([x] + rest.value) == (done + [x]) + rest.value;
    }
  }

  // ---------------------------------------------------------------------
  // verifyGroupsWithVerifiers

  /** `verifyGroup` with everything but the verifier and the state fixed. */
  type GroupVerifier = (ReceiptVerifier, RegisterView, set<string>, seq<string>) -> GroupResult

  function GroupVerifierOf(st: Setup): GroupVerifier {
    (rv, reg, used, recs) => VerifyGroupSpec(st.contextOf(rv), reg, used, recs)
  }

  /** `verifyGroupsWithVerifiers`: `verifyGroup` on each group with its
      verifier, the register and the used IDs passed from one to the next,
      up to the first exception. */
  function VerifyGroups(vg: GroupVerifier, reg: RegisterView, used: set<string>,
                        groups: seq<(seq<string>, ReceiptVerifier)>): GroupResult
    decreases |groups|
  {
    if |groups| == 0 then Passed(reg, used)
    else match vg(groups[0].1, reg, used, groups[0].0)
      case Failed(e, r, u) => Failed(e, r, u)
      case Passed(r, u) => VerifyGroups(vg, r, u, groups[1..])
  }

  /** Continue from a result with more groups. */
  function Then(vg: GroupVerifier, g: GroupResult, more: seq<(seq<string>, ReceiptVerifier)>): GroupResult {
    if g.Failed? then g else VerifyGroups(vg, g.reg, g.used, more)
  }

  /** Verifying groups in two calls, the state of the first passed to the
      second, is verifying them in one. */
  lemma {:induction false} VerifyGroupsAppend(vg: GroupVerifier, reg: RegisterView, used: set<string>,
                                              a: seq<(seq<string>, ReceiptVerifier)>, b: seq<(seq<string>, ReceiptVerifier)>)
    ensures VerifyGroups(vg, reg, used, a + b) == Then(vg, VerifyGroups(vg, reg, used, a), b)
    decreases |a|
  {
    if |a| == 0 {
      assert a + b == b;
    } else {
      assert (a + b)[0] == a[0] && (a + b)[1..] == a[1..] + b;
      var g := vg(a[0].1, reg, used, a[0].0);
      if g.Passed? {
        VerifyGroupsAppend(vg, g.reg, g.used, a[1..], b);
      }
    }
  }

  /** What a group that passes makes the register's last receipt: the
      group's last receipt, or what it was for an empty group. */
  function LastAfter(last: Option<string>, recs: seq<string>): Option<string> {
    if |recs| == 0 then last else Some(recs[|recs| - 1])
  }

  /** The register's last receipt after a run of groups that pass. */
  function LastReceipt(last: Option<string>, groups: seq<(seq<string>, ReceiptVerifier)>): Option<string>
    decreases |groups|
  {
    if |groups| == 0 then last else LastReceipt(LastAfter(last, groups[0].0), groups[1..])
  }

  ghost predicate KeepsLast(vg: GroupVerifier) {
    forall rv, reg, used, recs :: vg(rv, reg, used, recs).Passed? ==>
      vg(rv, reg, used, recs).reg.last == LastAfter(reg.last, recs)
  }

  lemma GroupVerifierKeepsLast(st: Setup)
    ensures KeepsLast(GroupVerifierOf(st))
  {
    forall rv, reg, used, recs | GroupVerifierOf(st)(rv, reg, used, recs).Passed?
      ensures GroupVerifierOf(st)(rv, reg, used, recs).reg.last == LastAfter(reg.last, recs)
    {
      GroupLast(st.contextOf(rv), reg, used, recs);
    }
  }

  /** After groups that all pass, the register's last receipt is the last
      receipt of the last non-empty group, or what it was. */
  lemma {:induction false} VerifyGroupsLast(vg: GroupVerifier, reg: RegisterView, used: set<string>,
                                            groups: seq<(seq<string>, ReceiptVerifier)>)
    requires KeepsLast(vg)
    ensures var g := VerifyGroups(vg, reg, used, groups);
      g.Passed? ==> g.reg.last == LastReceipt(reg.last, groups)
    decreases |groups|
  {
    if |groups| > 0 {
      var g0 := vg(groups[0].1, reg, used, groups[0].0);
      if g0.Passed? {
        VerifyGroupsLast(vg, g0.reg, g0.used, groups[1..]);
      }
    }
  }

  /** `verifyGroupsWithVerifiers` on the register and used-ID objects. */
  method VerifyGroupsWithVerifiers(st: Setup, groups: seq<(seq<string>, ReceiptVerifier)>,
                                   reg: CashRegisterState, used: UsedReceiptIds) returns (err: Option<Error>)
    modifies reg, used
    ensures var g := VerifyGroups(GroupVerifierOf(st), old(reg.View()), old(used.ids), groups);
      (err.None? <==> g.Passed?) && reg.View() == g.reg && used.ids == g.used &&
      (g.Failed? ==> err == Some(g.error))
  {
    var i := 0;
    while i < |groups|
      invariant 0 <= i <= |groups|
      invariant VerifyGroups(GroupVerifierOf(st), reg.View(), used.ids, groups[i..]) ==
        VerifyGroups(GroupVerifierOf(st), old(reg.View()), old(used.ids), groups)
    {
      assert groups[i..][0] == groups[i] && groups[i..][1..] == groups[i + 1..];
      var recs := groups[i].0;
      var rv := groups[i].1;
      var ctx := st.contextOf(rv);
      assert GroupVerifierOf(st)(rv, reg.View(), used.ids, recs) == VerifyGroupSpec(ctx, reg.View(), used.ids, recs);
      err := VerifyGroup(ctx, recs, reg, used);
      if err.Some? {
        return;
      }
      i := i + 1;
    }
    return None;
  }

  // ---------------------------------------------------------------------
  // verifyDEP

  /** The verifier `verifyDEP` sets up for a group, given the flag
      `one_group` (absent before the first group, true after a group
      without a certificate, false after one with): no group may follow a
      group without a certificate, which is verified with the key store
      and only as the first group; a certificate must be trusted. */
  function DEPVerifier(st: Setup, kind: VerifierKind, oneGroup: Option<bool>, g: DEPGroup): Result<ReceiptVerifier, Error> {
    if oneGroup == Some(true) then Err(NoCertificateGiven)
    else if g.cert.None? then
      (if oneGroup == Some(false) then Err(NoCertificateGiven) else Ok(ReceiptVerifier(kind, FromKeyStore(st.store))))
    else match CertTrust(st.ids, st.store, st.signedBy, g.cert.value, g.cert.value, g.chain)
      case Some(e) => Err(e)
      case None => Ok(ReceiptVerifier(kind, FromCert(g.cert.value)))
  }

  /** `verifyDEP`'s loop over the groups of an export from the flag
      `one_group` on. */
  function VerifyDEPGroups(st: Setup, vg: GroupVerifier, kind: VerifierKind, oneGroup: Option<bool>,
                           reg: RegisterView, used: set<string>, groups: seq<DEPGroup>): GroupResult
    decreases |groups|
  {
    if |groups| == 0 then Passed(reg, used)
    else match DEPStep(st, vg, kind, oneGroup, reg, used, groups[0])
      case Failed(e, r, u) => Failed(e, r, u)
      case Passed(r, u) => VerifyDEPGroups(st, vg, kind, Some(groups[0].cert.None?), r, u, groups[1..])
  }

  /** One group of `verifyDEP`'s loop: its verifier set up, then the group
      verified. */
  function DEPStep(st: Setup, vg: GroupVerifier, kind: VerifierKind, oneGroup: Option<bool>,
                   reg: RegisterView, used: set<string>, g: DEPGroup): GroupResult
  {
    match DEPVerifier(st, kind, oneGroup, g)
    case Err(e) => Failed(e, reg, used)
    case Ok(v) => vg(v, reg, used, g.recs)
  }

  /** Every group that passes with the raising verifier leaves the
      register as `updateFromDEPGroup` replays it. */
  ghost predicate ReplaysGroups(vg: GroupVerifier, env: Env, key: Option<Key>) {
    forall rv: ReceiptVerifier, reg, used, recs :: rv.kind == Raising && vg(rv, reg, used, recs).Passed? ==>
      ReplayGroup(env, key, reg, recs) == Ok(vg(rv, reg, used, recs).reg)
  }

  lemma GroupVerifierReplays(st: Setup, env: Env, ids: KeyIds, key: Option<Key>, prevStart: Option<string>)
    requires forall rv :: st.contextOf(rv) == Context(env, ids, rv, key, prevStart)
    ensures ReplaysGroups(GroupVerifierOf(st), env, key)
  {
    forall rv: ReceiptVerifier, reg, used, recs | rv.kind == Raising && GroupVerifierOf(st)(rv, reg, used, recs).Passed?
      ensures ReplayGroup(env, key, reg, recs) == Ok(GroupVerifierOf(st)(rv, reg, used, recs).reg)
    {
      ContextCoherent(env, ids, rv, key, prevStart);
      GroupReplays(Context(env, ids, rv, key, prevStart), env, reg, used, recs);
    }
  }

  /** The receipts of each group. */
  function RecsOf(groups: seq<DEPGroup>): (rs: seq<seq<string>>)
    ensures |rs| == |groups| && forall i :: 0 <= i < |groups| ==> rs[i] == groups[i].recs
  {
    seq(|groups|, i requires 0 <= i < |groups| => groups[i].recs)
  }

  /** With the raising verifier, an export that passes leaves the register
      as `updateFromDEPGroup` leaves it when it replays the export's groups
      in order without verifying them. */
  lemma {:induction false} VerifyDEPReplays(st: Setup, vg: GroupVerifier, kind: VerifierKind, oneGroup: Option<bool>,
                                            env: Env, key: Option<Key>, reg: RegisterView, used: set<string>,
                                            groups: seq<DEPGroup>)
    requires kind == Raising && ReplaysGroups(vg, env, key)
    ensures var g := VerifyDEPGroups(st, vg, kind, oneGroup, reg, used, groups);
      g.Passed? ==> ReplayGroups(env, key, reg, RecsOf(groups)) == Ok(g.reg)
    decreases |groups|
  {
    if |groups| > 0 && VerifyDEPGroups(st, vg, kind, oneGroup, reg, used, groups).Passed? {
      var g0 := DEPStep(st, vg, kind, oneGroup, reg, used, groups[0]);
      VerifyDEPReplays(st, vg, kind, Some(groups[0].cert.None?), env, key, g0.reg, g0.used, groups[1..]);
      assert RecsOf(groups)[1..] == RecsOf(groups[1..]);
    }
  }

  /** One group of the loop followed by the rest. */
  lemma VerifyDEPGroupsCons(st: Setup, vg: GroupVerifier, kind: VerifierKind, oneGroup: Option<bool>,
                            reg: RegisterView, used: set<string>, groups: seq<DEPGroup>)
    requires |groups| > 0
    ensures var s := DEPStep(st, vg, kind, oneGroup, reg, used, groups[0]);
      VerifyDEPGroups(st, vg, kind, oneGroup, reg, used, groups) ==
      if s.Failed? then s else VerifyDEPGroups(st, vg, kind, Some(groups[0].cert.None?), s.reg, s.used, groups[1..])
  {
  }

  /** A trusted certificate for every group. */
  ghost predicate AllCertified(st: Setup, groups: seq<DEPGroup>) {
    forall i :: 0 <= i < |groups| ==> (groups[i].cert.Some? &&
      CertTrust(st.ids, st.store, st.signedBy, groups[i].cert.value, groups[i].cert.value, groups[i].chain).None?)
  }

  /** An export whose groups all pass has either one group, or a trusted
      certificate for every group. */
  lemma VerifyDEPCertless(st: Setup, vg: GroupVerifier, kind: VerifierKind, reg: RegisterView, used: set<string>,
                          groups: seq<DEPGroup>)
    ensures VerifyDEPGroups(st, vg, kind, None, reg, used, groups).Passed? ==>
      |groups| <= 1 || AllCertified(st, groups)
  {
    if |groups| > 1 && VerifyDEPGroups(st, vg, kind, None, reg, used, groups).Passed? {
      var g := groups[0];
      var g0 := DEPStep(st, vg, kind, None, reg, used, g);
      OneGroupStops(st, vg, kind, g0.reg, g0.used, groups[1..]);
      if g.cert.Some? {
        CertifiedAll(st, vg, kind, g0.reg, g0.used, groups[1..]);
        CertifiedCons(st, groups);
      }
    }
  }

  /** After a lone certificate-less group, any further group is refused. */
  lemma OneGroupStops(st: Setup, vg: GroupVerifier, kind: VerifierKind, reg: RegisterView, used: set<string>,
                      groups: seq<DEPGroup>)
    ensures |groups| > 0 ==> VerifyDEPGroups(st, vg, kind, Some(true), reg, used, groups) == Failed(NoCertificateGiven, reg, used)
  {
  }

  lemma CertifiedCons(st: Setup, groups: seq<DEPGroup>)
    requires |groups| > 0 && AllCertified(st, groups[1..])
    requires groups[0].cert.Some? && CertTrust(st.ids, st.store, st.signedBy, groups[0].cert.value, groups[0].cert.value, groups[0].chain).None?
    ensures AllCertified(st, groups)
  {
    forall i | 0 < i < |groups|
      ensures groups[i] == groups[1..][i - 1]
    {
    }
  }

  /** After a group with a certificate, every group that passes has a
      trusted certificate. */
  lemma {:induction false} CertifiedAll(st: Setup, vg: GroupVerifier, kind: VerifierKind, reg: RegisterView,
                                        used: set<string>, groups: seq<DEPGroup>)
    ensures VerifyDEPGroups(st, vg, kind, Some(false), reg, used, groups).Passed? ==> AllCertified(st, groups)
    decreases |groups|
  {
    if |groups| > 0 && VerifyDEPGroups(st, vg, kind, Some(false), reg, used, groups).Passed? {
      var g := groups[0];
      var g0 := DEPStep(st, vg, kind, Some(false), reg, used, g);
      CertifiedAll(st, vg, kind, g0.reg, g0.used, groups[1..]);
      CertifiedCons(st, groups);
    }
  }

  /** The verifier set up for a group, and the certificate check behind
      it. */
  method SetUpVerifier(st: Setup, kind: VerifierKind, oneGroup: Option<bool>, g: DEPGroup)
    returns (r: Result<ReceiptVerifier, Error>)
    ensures r == DEPVerifier(st, kind, oneGroup, g)
  {
    if oneGroup == Some(true) {
      return Err(NoCertificateGiven);
    }
    if g.cert.None? {
      if oneGroup == Some(false) {
        return Err(NoCertificateGiven);
      }
      return Ok(ReceiptVerifier(kind, FromKeyStore(st.store)));
    }
    var e := VerifyCert(st.ids, st.store, st.signedBy, g.cert.value, g.chain);
    if e.Some? {
      return Err(e.value);
    }
    return Ok(ReceiptVerifier(kind, FromCert(g.cert.value)));
  }

  /** One group of `verifyDEP`'s loop on the register and used-ID objects. */
  method VerifyDEPGroup(st: Setup, kind: VerifierKind, oneGroup: Option<bool>, g: DEPGroup,
                        reg: CashRegisterState, used: UsedReceiptIds) returns (err: Option<Error>)
    modifies reg, used
    ensures var s := DEPStep(st, GroupVerifierOf(st), kind, oneGroup, old(reg.View()), old(used.ids), g);
      (err.None? <==> s.Passed?) && reg.View() == s.reg && used.ids == s.used &&
      (s.Failed? ==> err == Some(s.error))
  {
    var rv := SetUpVerifier(st, kind, oneGroup, g);
    if rv.Err? {
      return Some(rv.error);
    }
    var ctx := st.contextOf(rv.value);
    assert GroupVerifierOf(st)(rv.value, reg.View(), used.ids, g.recs) == VerifyGroupSpec(ctx, reg.View(), used.ids, g.recs);
    err := VerifyGroup(ctx, g.recs, reg, used);
  }

  /** `verifyDEP`'s loop over the groups of an export, on the register and
      used-ID objects. */
  method VerifyDEP(st: Setup, kind: VerifierKind, groups: seq<DEPGroup>, reg: CashRegisterState, used: UsedReceiptIds)
    returns (err: Option<Error>)
    modifies reg, used
    ensures var g := VerifyDEPGroups(st, GroupVerifierOf(st), kind, None, old(reg.View()), old(used.ids), groups);
      (err.None? <==> g.Passed?) && reg.View() == g.reg && used.ids == g.used &&
      (g.Failed? ==> err == Some(g.error))
  {
    var oneGroup: Option<bool> := None;
    var i := 0;
    while i < |groups|
      invariant 0 <= i <= |groups|
      invariant VerifyDEPGroups(st, GroupVerifierOf(st), kind, oneGroup, reg.View(), used.ids, groups[i..]) ==
        VerifyDEPGroups(st, GroupVerifierOf(st), kind, None, old(reg.View()), old(used.ids), groups)
    {
      VerifyDEPGroupsCons(st, GroupVerifierOf(st), kind, oneGroup, reg.View(), used.ids, groups[i..]);
      assert groups[i..][0] == groups[i] && groups[i..][1..] == groups[i + 1..];
      err := VerifyDEPGroup(st, kind, oneGroup, groups[i], reg, used);
      if err.Some? {
        return;
      }
      oneGroup := Some(groups[i].cert.None?);
      i := i + 1;
    }
    return None;
  }
}
