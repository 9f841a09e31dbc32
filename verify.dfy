/** `librksv/verify.py`, `verifyGroup` and `verifyGroupsWithVerifiers`: the
    receipts of a cash register are verified group by group, and every
    receipt folds the register state (`CashRegisterState`) and the
    cluster's used receipt IDs forward. The fold is specified receipt by
    receipt (`Step`, `Run`, `VerifyGroupSpec`); `VerifyGroup` is the loop
    over a group that changes the state objects in place. */
module Verify {
  import opened Wrappers
  import opened Errors
  import opened Base64
  import opened Utils
  import opened Receipts
  import opened VerifyReceipt
  import opened RegisterState

  /** What stays fixed while a group is verified: the oracles, the kind of
      receipt verifier, the turnover-counter key, the start receipt of the
      previous register of a cluster, and the two receipt operations the
      loop calls: `Receipt.fromJWSString` (`parse`) and the verifier's
      `verifyJWS`. `Context` builds it from the receipt module. */
  datatype GroupContext = GroupContext(
    env: Env, kind: VerifierKind, key: Option<Key>, prevStart: Option<string>,
    parse: string -> Result<Parsed, Error>, verifyJWS: string -> Result<Verified, Error>)

  /** The context of `verifyGroup(group, rv, key, prevStartReceiptJWS, ...)`. */
  function Context(env: Env, ids: KeyIds, rv: ReceiptVerifier, key: Option<Key>, prevStart: Option<string>)
    : (ctx: GroupContext)
    ensures ctx.kind == rv.kind && ctx.key == key && ctx.prevStart == prevStart
  {
    GroupContext(env, rv.kind, key, prevStart, r => FromJWSString(env, r), r => VerifyJWS(env, ids, rv, r))
  }

  /** What the loop relies on of one receipt's parse `p` and verification
      `v`: a parsed receipt has a known algorithm; a verified receipt is the
      parsed one with that algorithm, and for the raising verifier its
      signature device has not failed; a signature failure is reported only
      for a parsed receipt whose signature device has failed. */
  ghost predicate Agrees(env: Env, kind: VerifierKind, p: Result<Parsed, Error>, v: Result<Verified, Error>) {
    (p.Ok? ==> p.value.algorithmPrefix in env.algorithms) &&
    (v.Ok? ==> (p.Ok? && v.value.receipt == p.value.receipt &&
      v.value.algorithm == env.algorithms[p.value.algorithmPrefix] &&
      (kind == Raising ==> IsSignedBroken(v.value.receipt) == Ok(false)))) &&
    (v.Err? && IsSignatureFailure(v.error) ==> p.Ok? && IsSignedBroken(p.value.receipt) == Ok(true))
  }

  ghost predicate Coherent(ctx: GroupContext) {
    forall r :: Agrees(ctx.env, ctx.kind, ctx.parse(r), ctx.verifyJWS(r))
  }

  /** The receipt module's parser and verifier agree. */
  lemma ContextCoherent(env: Env, ids: KeyIds, rv: ReceiptVerifier, key: Option<Key>, prevStart: Option<string>)
    ensures Coherent(Context(env, ids, rv, key, prevStart))
  {
    var ctx := Context(env, ids, rv, key, prevStart);
    forall r
      ensures Agrees(ctx.env, ctx.kind, ctx.parse(r), ctx.verifyJWS(r))
    {
      ParseVerifyAgree(env, ids, rv, r);
    }
  }

  lemma ParseVerifyAgree(env: Env, ids: KeyIds, rv: ReceiptVerifier, r: string)
    ensures Agrees(env, rv.kind, FromJWSString(env, r), VerifyJWS(env, ids, rv, r))
  {
    var v := VerifyJWS(env, ids, rv, r);
    var p := FromJWSString(env, r);
    if v.Err? && IsSignatureFailure(v.error) {
      assert p.Ok?;
      assert rv.kind == Raising;
    }
  }

  /** The state between two receipts: the register, the used receipt IDs,
      and the previous receipt as JWS (`prev`) and as object (`prevObj`). */
  datatype Cursor = Cursor(reg: RegisterView, used: set<string>, prev: Option<string>, prevObj: Option<Receipt>)

  /** After a receipt: the next cursor, or the exception together with the
      state the objects were left in when it was raised. */
  datatype StepResult = Next(cursor: Cursor) | Stop(error: Error, reg: RegisterView, used: set<string>)

  /** A receipt past the signature stage, its algorithm, and the new value
      of `needRestoreReceipt`. */
  datatype Admitted = Admitted(receipt: Receipt, algorithm: Algorithm, needRestore: bool)

  /** A receipt with turnover, or a dummy or reversal receipt. */
  predicate IsNonstandard(ro: Receipt) {
    !IsNull(ro) || IsDummy(ro) || IsReversal(ro)
  }

  /** The signature failures `verifyGroup` catches from `verifyJWS`. */
  predicate IsSignatureFailure(e: Error) {
    e.SignatureSystemFailed? || e.UnsignedNullReceipt?
  }

  /** The first stage of a receipt: verify it, and track the restore
      receipt due after a failed signature device. A signed receipt with
      turnover, or a dummy or reversal, is refused while a restore receipt
      is due, and makes one due when it follows a receipt whose signature
      device had failed; a signed standard null receipt (or the register's
      first receipt) clears the flag. A receipt whose signature device has
      failed is refused as the register's first receipt and while a
      restore receipt is due, and leaves the flag as it is. */
  function Admit(ctx: GroupContext, prevObj: Option<Receipt>, needRestore: bool, r: string): (a: Result<Admitted, Error>)
    ensures var v := ctx.verifyJWS(r);
      a.Ok? && v.Ok? ==> a.value.receipt == v.value.receipt && a.value.algorithm == v.value.algorithm
    ensures var v := ctx.verifyJWS(r);
      a.Ok? && v.Err? ==> (ctx.parse(r).Ok? && a.value.receipt == ctx.parse(r).value.receipt &&
        ctx.parse(r).value.algorithmPrefix in ctx.env.algorithms &&
        a.value.algorithm == ctx.env.algorithms[ctx.parse(r).value.algorithmPrefix])
    ensures var v := ctx.verifyJWS(r);
      v.Err? && !IsSignatureFailure(v.error) ==> a == Err(v.error)
    ensures var v := ctx.verifyJWS(r);
      v.Err? && IsSignatureFailure(v.error) && prevObj.None? && ctx.parse(r).Ok? ==>
        a == Err(SignatureSystemFailedOnInitialReceipt(ctx.parse(r).value.receipt.receiptId))
    ensures var v := ctx.verifyJWS(r);
      a.Ok? && v.Err? ==> prevObj.Some? && !needRestore && !a.value.needRestore
    ensures var v := ctx.verifyJWS(r);
      a.Ok? && v.Ok? && prevObj.Some? && IsNonstandard(a.value.receipt) ==>
        !needRestore && IsSignedBroken(prevObj.value).Ok? &&
        a.value.needRestore == IsSignedBroken(prevObj.value).value
    ensures var v := ctx.verifyJWS(r);
      a.Ok? && v.Ok? && (prevObj.None? || !IsNonstandard(a.value.receipt)) ==> !a.value.needRestore
    ensures needRestore && prevObj.Some? && a.Ok? ==> !IsNonstandard(a.value.receipt) && !a.value.needRestore
    ensures ctx.verifyJWS(r).Ok? ==> a == AdmitVerified(prevObj, needRestore, ctx.verifyJWS(r).value)
    ensures ctx.verifyJWS(r).Err? && IsSignatureFailure(ctx.verifyJWS(r).error) ==>
      a == (if ctx.parse(r).Err? then Err(ctx.parse(r).error) else AdmitFailed(ctx.env, prevObj, needRestore, ctx.parse(r).value))
  {
    match ctx.verifyJWS(r)
    case Ok(v) => AdmitVerified(prevObj, needRestore, v)
    case Err(e) =>
      if !IsSignatureFailure(e) then Err(e)
      else match ctx.parse(r)
        case Err(e2) => Err(e2)
        case Ok(p) => AdmitFailed(ctx.env, prevObj, needRestore, p)
  }

  /** With the receipt module's parser and verifier, an admitted receipt is
      the parsed one with its algorithm, and the raising verifier admits a
      register's first receipt, or one while a restore receipt is due,
      only when its signature device has not failed. */
  lemma AdmitParsed(ctx: GroupContext, prevObj: Option<Receipt>, needRestore: bool, r: string)
    requires Coherent(ctx)
    ensures var a := Admit(ctx, prevObj, needRestore, r);
      a.Ok? ==> (ctx.parse(r).Ok? && a.value.receipt == ctx.parse(r).value.receipt &&
        a.value.algorithm == ctx.env.algorithms[ctx.parse(r).value.algorithmPrefix])
    ensures var a := Admit(ctx, prevObj, needRestore, r);
      ctx.kind == Raising && a.Ok? && (prevObj.None? || needRestore) ==> IsSignedBroken(a.value.receipt) == Ok(false)
  {
    assert Agrees(ctx.env, ctx.kind, ctx.parse(r), ctx.verifyJWS(r));
  }

  /** The signature stage of a receipt `verifyJWS` accepted. */
  function AdmitVerified(prevObj: Option<Receipt>, needRestore: bool, v: Verified): (a: Result<Admitted, Error>)
    ensures a.Ok? ==> a.value.receipt == v.receipt && a.value.algorithm == v.algorithm
    ensures prevObj.Some? && IsNonstandard(v.receipt) && needRestore ==>
      a == Err(NoRestoreReceiptAfterSignatureSystemFailure(v.receipt.receiptId))
    ensures a.Ok? && prevObj.Some? && IsNonstandard(v.receipt) ==>
      !needRestore && IsSignedBroken(prevObj.value).Ok? &&
      a.value.needRestore == IsSignedBroken(prevObj.value).value
    ensures a.Ok? && (prevObj.None? || !IsNonstandard(v.receipt)) ==> !a.value.needRestore
    ensures prevObj.None? || !IsNonstandard(v.receipt) ==> a == Ok(Admitted(v.receipt, v.algorithm, false))
    ensures prevObj.Some? && IsNonstandard(v.receipt) && !needRestore ==>
      (a.Ok? <==> prevObj.value.signature.Some?) &&
      (a.Err? ==> a.error == NotSigned)
  {
    if prevObj.Some? && IsNonstandard(v.receipt) then
      if needRestore then Err(NoRestoreReceiptAfterSignatureSystemFailure(v.receipt.receiptId))
      else match IsSignedBroken(prevObj.value)
        case Err(e) => Err(e)
        case Ok(broken) => Ok(Admitted(v.receipt, v.algorithm, broken))
    else Ok(Admitted(v.receipt, v.algorithm, false))
  }

  /** The signature stage of a receipt whose signature device had failed,
      parsed again: refused as a register's first receipt and while a
      restore receipt is due. The parser has already rejected an unknown
      algorithm, so the last error is for a parser that does not. */
  function AdmitFailed(env: Env, prevObj: Option<Receipt>, needRestore: bool, p: Parsed): (a: Result<Admitted, Error>)
    ensures prevObj.None? ==> a == Err(SignatureSystemFailedOnInitialReceipt(p.receipt.receiptId))
    ensures prevObj.Some? && needRestore ==> a == Err(NoRestoreReceiptAfterSignatureSystemFailure(p.receipt.receiptId))
    ensures a.Ok? <==> prevObj.Some? && !needRestore && p.algorithmPrefix in env.algorithms
    ensures a.Ok? ==> (p.algorithmPrefix in env.algorithms && a.value.receipt == p.receipt && a.value.algorithm == env.algorithms[p.algorithmPrefix] &&
      !a.value.needRestore)
  {
    if prevObj.None? then Err(SignatureSystemFailedOnInitialReceipt(p.receipt.receiptId))
    else if needRestore then Err(NoRestoreReceiptAfterSignatureSystemFailure(p.receipt.receiptId))
    else if p.algorithmPrefix !in env.algorithms then Err(UnknownAlgorithm(p.receipt.receiptId))
    else Ok(Admitted(p.receipt, env.algorithms[p.algorithmPrefix], needRestore))
  }

  /** The rules for a register's first receipt: zero turnover, neither
      dummy nor reversal, and in a cluster a closed system for it and for
      the previous register's start receipt, which then becomes its
      predecessor. */
  function Anchor(ctx: GroupContext, ro: Receipt): (a: Result<Option<Receipt>, Error>)
    ensures a.Ok? ==> IsNull(ro) && !IsDummy(ro) && !IsReversal(ro)
    ensures !IsNull(ro) ==> a == Err(NonzeroTurnoverOnInitialReceipt(ro.receiptId))
    ensures IsNull(ro) && (IsDummy(ro) || IsReversal(ro)) ==> a == Err(NonstandardTypeOnInitialReceipt(ro.receiptId))
    ensures a.Ok? ==> (a.value.Some? <==> Truthy(ctx.prevStart))
    ensures a.Ok? && a.value.Some? ==> (ro.zda == "AT0" && a.value.value.zda == "AT0" &&
      ctx.parse(ctx.prevStart.value).Ok? &&
      a.value.value == ctx.parse(ctx.prevStart.value).value.receipt)
    ensures a == Err(ClusterInOpenSystem) ==> Truthy(ctx.prevStart)
    ensures IsNull(ro) && !IsDummy(ro) && !IsReversal(ro) && Truthy(ctx.prevStart) && ro.zda != "AT0" ==>
      a == Err(ClusterInOpenSystem)
    ensures IsNull(ro) && !IsDummy(ro) && !IsReversal(ro) && !Truthy(ctx.prevStart) ==> a == Ok(None)
    ensures (IsNull(ro) && !IsDummy(ro) && !IsReversal(ro) && Truthy(ctx.prevStart) && ro.zda == "AT0") ==>
      (ctx.parse(ctx.prevStart.value).Err? ==> a == Err(ctx.parse(ctx.prevStart.value).error)) &&
      (ctx.parse(ctx.prevStart.value).Ok? ==>
        a == if ctx.parse(ctx.prevStart.value).value.receipt.zda == "AT0" then Ok(Some(ctx.parse(ctx.prevStart.value).value.receipt))
             else Err(ClusterInOpenSystem))
  {
    if !IsNull(ro) then Err(NonzeroTurnoverOnInitialReceipt(ro.receiptId))
    else if IsDummy(ro) || IsReversal(ro) then Err(NonstandardTypeOnInitialReceipt(ro.receiptId))
    else if !Truthy(ctx.prevStart) then Ok(None)
    else if ro.zda != "AT0" then Err(ClusterInOpenSystem)
    else match ctx.parse(ctx.prevStart.value)
      case Err(e) => Err(e)
      case Ok(p) => if p.receipt.zda != "AT0" then Err(ClusterInOpenSystem) else Ok(Some(p.receipt))
  }

  /** Continuity with the previous receipt: the same register ID, the
      same system type (AT0 or not), and no earlier date. */
  function Continuity(kind: VerifierKind, p: Receipt, ro: Receipt): (e: Option<Error>)
    ensures e.None? <==> (p.registerId == ro.registerId && (p.zda == "AT0" <==> ro.zda == "AT0") &&
      (kind == Raising ==> p.dateTime <= ro.dateTime))
    ensures p.registerId != ro.registerId ==> e == Some(ChangingRegisterId(ro.receiptId))
    ensures e.Some? ==> e.value in {ChangingRegisterId(ro.receiptId), ChangingSystemType(ro.receiptId),
      DecreasingDate(ro.receiptId)}
  {
    if p.registerId != ro.registerId then Some(ChangingRegisterId(ro.receiptId))
    else if (p.zda == "AT0" && ro.zda != "AT0") || (p.zda != "AT0" && ro.zda == "AT0") then
      Some(ChangingSystemType(ro.receiptId))
    else VerifyDateTime(kind, ro, p.dateTime)
  }

  /** The chaining value of a receipt after `prev`: the algorithm's chain
      hash, in standard base64. */
  function ChainingValue(ro: Receipt, prev: Option<string>, alg: Algorithm): string {
    Encode(alg.chain(ro, prev), Standard)
  }

  /** `verifyChain`. */
  function VerifyChain(kind: VerifierKind, ro: Receipt, prev: Option<string>, alg: Algorithm): (e: Option<Error>)
    ensures e.Some? <==> kind == Raising && ro.previousChain != ChainingValue(ro, prev, alg)
    ensures e.Some? ==> e.value == Chaining(ro.receiptId, ro.previousChain)
  {
    VerifyChainValue(kind, ro, ChainingValue(ro, prev, alg))
  }

  /** The chaining stage; the result is the new `chainNextTo`. A pending
      chaining value takes the place of the chain to the previous receipt
      and is consumed; a chaining failure on the register's start receipt
      is reported as a failure of the (cluster) initial receipt. */
  function ChainCheck(ctx: GroupContext, start: Option<string>, chainNextTo: Option<string>,
                      prev: Option<string>, ro: Receipt, alg: Algorithm, r: string): (c: Result<Option<string>, Error>)
    ensures c.Ok? && Truthy(chainNextTo) ==> c.value.None?
    ensures c.Ok? && !Truthy(chainNextTo) ==> c.value == chainNextTo
    ensures c.Ok? <==> (ctx.kind == Stderr ||
      ro.previousChain == (if Truthy(chainNextTo) then chainNextTo.value else ChainingValue(ro, prev, alg)))
    ensures c.Err? && start != Some(r) ==> c.error == Chaining(ro.receiptId, ro.previousChain)
    ensures c.Err? && start == Some(r) ==>
      c.error == (if Truthy(ctx.prevStart) then InvalidChainingOnClusterInitialReceipt(ro.receiptId)
                  else InvalidChainingOnInitialReceipt(ro.receiptId))
  {
    var e := if Truthy(chainNextTo) then VerifyChainValue(ctx.kind, ro, chainNextTo.value)
             else VerifyChain(ctx.kind, ro, prev, alg);
    match e
    case None => Ok(if Truthy(chainNextTo) then None else chainNextTo)
    case Some(err) =>
      if start == Some(r) then
        Err(if Truthy(ctx.prevStart) then InvalidChainingOnClusterInitialReceipt(err.at)
            else InvalidChainingOnInitialReceipt(err.at))
      else Err(err)
  }

  /** The turnover-counter stage; the result is the new
      `lastTurnoverCounter`. With a key, a receipt other than a dummy adds
      its turnover, and a receipt other than a reversal must carry the new
      total encrypted. */
  function Counter(ctx: GroupContext, counter: int, ro: Receipt, alg: Algorithm): (n: Result<int, Error>)
    ensures IsDummy(ro) || ctx.key.None? ==> n == Ok(counter)
    ensures !IsDummy(ro) && ctx.key.Some? && !alg.verifyKey(ctx.key.value) ==> n == Err(InvalidKey)
    ensures n.Ok? && !IsDummy(ro) && ctx.key.Some? && (IsReversal(ro) || ctx.kind == Raising) ==>
      n.value == counter + TotalCents(ro)
    ensures ctx.kind == Raising && !IsDummy(ro) && !IsReversal(ro) && ctx.key.Some? ==>
      (n.Ok? <==> DecryptTurnoverCounter(ro, ctx.key.value, alg) == Ok(counter + TotalCents(ro)))
    ensures ctx.kind == Stderr && !IsDummy(ro) && !IsReversal(ro) && ctx.key.Some? && n.Ok? ==>
      n == DecryptTurnoverCounter(ro, ctx.key.value, alg)
  {
    if IsDummy(ro) || ctx.key.None? then Ok(counter)
    else match RaiseForKey(ctx.key.value, alg.verifyKey)
      case Err(e) => Err(e)
      case Ok(_) =>
        var newC := counter + TotalCents(ro);
        if IsReversal(ro) then Ok(newC)
        else VerifyTurnoverCounter(ctx.kind, ro, alg, ctx.key.value, newC)
  }

  /** Where the checks after the signature stage start: for a register's
      first receipt the start receipt is set and, in a cluster, the
      previous register's start receipt becomes the predecessor. */
  datatype Position = Position(reg: RegisterView, prev: Option<string>, prevObj: Option<Receipt>)

  function Anchoring(ctx: GroupContext, reg: RegisterView, prev: Option<string>, prevObj: Option<Receipt>,
                     ro: Receipt, r: string): (q: Result<Position, Error>)
    ensures prevObj.Some? ==> q == Ok(Position(reg, prev, prevObj))
    ensures prevObj.None? ==> (q.Ok? <==> Anchor(ctx, ro).Ok?)
    ensures prevObj.None? && q.Ok? ==> q.value == Position(reg.(start := Some(r)),
      if Truthy(ctx.prevStart) then ctx.prevStart else prev, Anchor(ctx, ro).value)
  {
    if prevObj.Some? then Ok(Position(reg, prev, prevObj))
    else match Anchor(ctx, ro)
      case Err(e) => Err(e)
      case Ok(p) => Ok(Position(reg.(start := Some(r)), if p.Some? then ctx.prevStart else prev, p))
  }

  /** The checks of a receipt once its predecessor is known: a repeated
      receipt ID and continuity (only when there is a predecessor), then
      the ID is recorded, then chaining and the turnover counter. */
  function Checked(ctx: GroupContext, q: Position, used: set<string>, a: Admitted, r: string): (s: StepResult)
    ensures s.Next? ==> s.cursor.used == used + {a.receipt.receiptId}
    ensures q.prevObj.Some? && a.receipt.receiptId in used ==>
      s == Stop(DuplicateReceiptId(a.receipt.receiptId), q.reg, used)
    ensures s.Next? && q.prevObj.Some? ==> Continuity(ctx.kind, q.prevObj.value, a.receipt).None?
    ensures s.Next? ==> s.cursor.prev == Some(r) && s.cursor.prevObj == Some(a.receipt)
    ensures s.Next? ==> (ChainCheck(ctx, q.reg.start, q.reg.chainNextTo, q.prev, a.receipt, a.algorithm, r).Ok? &&
      Counter(ctx, q.reg.counter, a.receipt, a.algorithm).Ok? &&
      s.cursor.reg == q.reg.(chainNextTo := ChainCheck(ctx, q.reg.start, q.reg.chainNextTo, q.prev, a.receipt, a.algorithm, r).value,
                             counter := Counter(ctx, q.reg.counter, a.receipt, a.algorithm).value))
    ensures s.Stop? ==> s.reg.last == q.reg.last && s.reg.start == q.reg.start
    ensures q.prevObj.Some? && a.receipt.receiptId !in used && Continuity(ctx.kind, q.prevObj.value, a.receipt).Some? ==>
      s == Stop(Continuity(ctx.kind, q.prevObj.value, a.receipt).value, q.reg, used)
    ensures var c := ChainCheck(ctx, q.reg.start, q.reg.chainNextTo, q.prev, a.receipt, a.algorithm, r);
      var n := Counter(ctx, q.reg.counter, a.receipt, a.algorithm);
      var cont := q.prevObj.None? || (a.receipt.receiptId !in used && Continuity(ctx.kind, q.prevObj.value, a.receipt).None?);
      (s.Next? <==> cont && c.Ok? && n.Ok?) &&
      (cont && c.Err? ==> s == Stop(c.error, q.reg, used + {a.receipt.receiptId})) &&
      (cont && c.Ok? && n.Err? ==> s == Stop(n.error, q.reg.(chainNextTo := c.value), used + {a.receipt.receiptId}))
  {
    var ro := a.receipt;
    if q.prevObj.Some? && ro.receiptId in used then Stop(DuplicateReceiptId(ro.receiptId), q.reg, used)
    else if q.prevObj.Some? && Continuity(ctx.kind, q.prevObj.value, ro).Some? then
      Stop(Continuity(ctx.kind, q.prevObj.value, ro).value, q.reg, used)
    else
      var used' := used + {ro.receiptId};
      match ChainCheck(ctx, q.reg.start, q.reg.chainNextTo, q.prev, ro, a.algorithm, r)
      case Err(e) => Stop(e, q.reg, used')
      case Ok(chainNextTo) =>
        var reg := q.reg.(chainNextTo := chainNextTo);
        match Counter(ctx, reg.counter, ro, a.algorithm)
        case Err(e) => Stop(e, reg, used')
        case Ok(n) => Next(Cursor(reg.(counter := n), used', Some(r), Some(ro)))
  }


  /** What every receipt step does to the state, whatever its outcome:
      `lastReceiptJWS` is untouched; a receipt that passes becomes the
      previous receipt, starts the register when it has no predecessor,
      and its ID joins the used IDs, which must not hold it already when
      it has a predecessor. */
  predicate Advances(s: StepResult, c: Cursor, r: string) {
    (s.Next? ==> (s.cursor.prev == Some(r) && s.cursor.prevObj.Some? &&
      s.cursor.reg.last == c.reg.last &&
      s.cursor.reg.start == (if c.prevObj.None? then Some(r) else c.reg.start) &&
      s.cursor.used == c.used + {s.cursor.prevObj.value.receiptId} &&
      (c.prevObj.Some? ==> s.cursor.prevObj.value.receiptId !in c.used))) &&
    (s.Stop? ==> s.reg.last == c.reg.last)
  }

  /** One receipt of `verifyGroup`: the signature stage, the first-receipt
      rules, then the checks against the predecessor. */
  function Step(ctx: GroupContext, c: Cursor, r: string): (s: StepResult)
    ensures Advances(s, c, r)
  {
    match Admit(ctx, c.prevObj, c.reg.needRestore, r)
    case Err(e) => Stop(e, c.reg, c.used)
    case Ok(a) =>
      var reg := c.reg.(needRestore := a.needRestore);
      match Anchoring(ctx, reg, c.prev, c.prevObj, a.receipt, r)
      case Err(e) => Stop(e, reg, c.used)
      case Ok(q) => Checked(ctx, q, c.used, a, r)
  }

  /** The receipt a step that passes records is the parsed receipt. */
  lemma StepParsed(ctx: GroupContext, c: Cursor, r: string)
    requires Coherent(ctx)
    ensures Step(ctx, c, r).Next? ==>
      ctx.parse(r).Ok? && Step(ctx, c, r).cursor.prevObj == Some(ctx.parse(r).value.receipt)
  {
    AdmitParsed(ctx, c.prevObj, c.reg.needRestore, r);
  }

  /** In a cluster a register's first receipt has the previous register's
      start receipt as its predecessor, so its ID is checked against the
      shared used IDs as well. */
  lemma StepClusterFirst(ctx: GroupContext, c: Cursor, r: string)
    requires Coherent(ctx)
    ensures c.prevObj.None? && Truthy(ctx.prevStart) && Step(ctx, c, r).Next? ==> ParsedId(ctx, r) !in c.used
  {
    AdmitParsed(ctx, c.prevObj, c.reg.needRestore, r);
  }

  /** The turnover a receipt adds to the register's counter. */
  function Turnover(ctx: GroupContext, r: string): int {
    if ctx.key.None? || ctx.parse(r).Err? || IsDummy(ctx.parse(r).value.receipt) then 0
    else TotalCents(ctx.parse(r).value.receipt)
  }

  /** With a key, the raising verifier adds the turnover of every receipt
      but a dummy to the counter. */
  lemma StepCounts(ctx: GroupContext, c: Cursor, r: string)
    requires Coherent(ctx) && ctx.kind == Raising
    ensures Step(ctx, c, r).Next? ==> Step(ctx, c, r).cursor.reg.counter == c.reg.counter + Turnover(ctx, r)
  {
    StepParsed(ctx, c, r);
  }

  // ---------------------------------------------------------------------
  // The fold over a group, for any step function

  /** A receipt step with everything but the state and the receipt fixed. */
  type Stepper = (Cursor, string) -> StepResult

  function StepOf(ctx: GroupContext): Stepper {
    (c, r) => Step(ctx, c, r)
  }

  /** The receipts of a group in order, up to the first exception. */
  function Run(step: Stepper, c: Cursor, group: seq<string>): StepResult
    decreases |group|
  {
    if |group| == 0 then Next(c)
    else match step(c, group[0])
      case Stop(e, reg, used) => Stop(e, reg, used)
      case Next(c1) => Run(step, c1, group[1..])
  }

  /** One step followed by the rest of the group. */
  lemma RunCons(step: Stepper, c: Cursor, group: seq<string>)
    requires |group| > 0
    ensures step(c, group[0]).Stop? ==> Run(step, c, group) == step(c, group[0])
    ensures step(c, group[0]).Next? ==> Run(step, c, group) == Run(step, step(c, group[0]).cursor, group[1..])
  {
  }

  ghost predicate AlwaysAdvances(step: Stepper) {
    forall c, r :: Advances(step(c, r), c, r)
  }

  /** The receipt IDs that `idOf` gives for the receipts of a group. */
  function IdSet(idOf: string -> string, group: seq<string>): (ids: set<string>)
    ensures forall i :: 0 <= i < |group| ==> idOf(group[i]) in ids
    ensures forall id :: id in ids ==> exists i :: 0 <= i < |group| && idOf(group[i]) == id
    decreases |group|
  {
    if |group| == 0 then {} else {idOf(group[0])} + IdSet(idOf, group[1..])
  }

  /** `idOf` names the ID of the receipt a passing step records. */
  ghost predicate Identifies(step: Stepper, idOf: string -> string) {
    forall c, r :: step(c, r).Next? ==>
      (step(c, r).cursor.prevObj.Some? && step(c, r).cursor.prevObj.value.receiptId == idOf(r))
  }

  /** The sum of `amount` over a group. */
  function Sum(amount: string -> int, group: seq<string>): int
    decreases |group|
  {
    if |group| == 0 then 0 else amount(group[0]) + Sum(amount, group[1..])
  }

  /** A passing step adds `amount` of the receipt to the counter. */
  ghost predicate Counts(step: Stepper, amount: string -> int) {
    forall c, r :: step(c, r).Next? ==> step(c, r).cursor.reg.counter == c.reg.counter + amount(r)
  }

  /** Over a group, `lastReceiptJWS` stays, the last receipt becomes the
      previous receipt, and the first receipt of a register starts it. */
  lemma {:induction false} RunAdvances(step: Stepper, c: Cursor, group: seq<string>)
    requires AlwaysAdvances(step)
    ensures var s := Run(step, c, group);
      s.Next? ==> (s.cursor.reg.last == c.reg.last &&
        s.cursor.prev == (if |group| == 0 then c.prev else Some(group[|group| - 1])) &&
        s.cursor.reg.start == (if c.prevObj.None? && |group| > 0 then Some(group[0]) else c.reg.start) &&
        (|group| > 0 ==> s.cursor.prevObj.Some?))
    ensures var s := Run(step, c, group); s.Stop? ==> s.reg.last == c.reg.last
    decreases |group|
  {
    if |group| > 0 {
      assert Advances(step(c, group[0]), c, group[0]);
      if step(c, group[0]).Next? {
        var c1 := step(c, group[0]).cursor;
        RunAdvances(step, c1, group[1..]);
        if |group| > 1 {
          assert group[1..][|group[1..]| - 1] == group[|group| - 1];
        }
      }
    }
  }

  /** Over a group that passes, the used IDs grow by the group's IDs, which
      are pairwise distinct and, except for a register's first receipt,
      were not used before. */
  lemma {:induction false} RunIds(step: Stepper, idOf: string -> string, c: Cursor, group: seq<string>)
    requires AlwaysAdvances(step) && Identifies(step, idOf)
    ensures var s := Run(step, c, group);
      s.Next? ==> s.cursor.used == c.used + IdSet(idOf, group)
    ensures var s := Run(step, c, group);
      s.Next? ==> forall i, j :: 0 <= i < j < |group| ==> idOf(group[i]) != idOf(group[j])
    ensures var s := Run(step, c, group);
      s.Next? ==> forall i :: 0 <= i < |group| && (i > 0 || c.prevObj.Some?) ==> idOf(group[i]) !in c.used
    decreases |group|
  {
    if |group| > 0 {
      var s1 := step(c, group[0]);
      assert Advances(s1, c, group[0]);
      if s1.Next? {
        var c1 := s1.cursor;
        var rest := group[1..];
        RunIds(step, idOf, c1, rest);
        if Run(step, c, group).Next? {
          assert Run(step, c, group) == Run(step, c1, rest);
          assert c1.used == c.used + {idOf(group[0])};
          forall i, j | 0 <= i < j < |group|
            ensures idOf(group[i]) != idOf(group[j])
          {
            assert group[j] == rest[j - 1];
            if i > 0 {
              assert group[i] == rest[i - 1];
            }
          }
          forall i | 0 <= i < |group| && (i > 0 || c.prevObj.Some?)
            ensures idOf(group[i]) !in c.used
          {
            if i > 0 {
              assert group[i] == rest[i - 1];
            }
          }
        }
      }
    }
  }

  /** Over a group that passes, the counter grows by the group's amounts. */
  lemma {:induction false} RunCounts(step: Stepper, amount: string -> int, c: Cursor, group: seq<string>)
    requires Counts(step, amount)
    ensures var s := Run(step, c, group);
      s.Next? ==> s.cursor.reg.counter == c.reg.counter + Sum(amount, group)
    decreases |group|
  {
    if |group| > 0 && step(c, group[0]).Next? {
      RunCounts(step, amount, step(c, group[0]).cursor, group[1..]);
    }
  }

  // ---------------------------------------------------------------------
  // verifyGroup

  /** The outcome of `verifyGroup`. */
  datatype GroupResult = Passed(reg: RegisterView, used: set<string>) | Failed(error: Error, reg: RegisterView, used: set<string>)

  /** Where a group starts: the register's last receipt, parsed when set. */
  function GroupStart(ctx: GroupContext, reg: RegisterView, used: set<string>): (c: Result<Cursor, Error>)
    ensures c.Ok? ==> c.value.reg == reg && c.value.used == used && c.value.prev == reg.last
    ensures c.Ok? ==> (c.value.prevObj.Some? <==> Truthy(reg.last))
    ensures !Truthy(reg.last) ==> c.Ok?
  {
    if !Truthy(reg.last) then Ok(Cursor(reg, used, reg.last, None))
    else match ctx.parse(reg.last.value)
      case Err(e) => Err(e)
      case Ok(p) => Ok(Cursor(reg, used, reg.last, Some(p.receipt)))
  }

  /** `verifyGroup`: the fold over the group, then the group's last
      receipt becomes the register's last receipt. */
  function VerifyGroupSpec(ctx: GroupContext, reg: RegisterView, used: set<string>, group: seq<string>): GroupResult
  {
    match GroupStart(ctx, reg, used)
    case Err(e) => Failed(e, reg, used)
    case Ok(c) =>
      match Run(StepOf(ctx), c, group)
      case Stop(e, reg', used') => Failed(e, reg', used')
      case Next(c') => Passed(c'.reg.(last := c'.prev), c'.used)
  }

  lemma StepOfAdvances(ctx: GroupContext)
    ensures AlwaysAdvances(StepOf(ctx))
  {
    forall c, r
      ensures Advances(StepOf(ctx)(c, r), c, r)
    {
      assert StepOf(ctx)(c, r) == Step(ctx, c, r);
    }
  }

  /** After `verifyGroup` the register's last receipt is the group's last
      receipt, or what it was when the group is empty or fails; a register
      without a last receipt is started by the group's first receipt. */
  lemma GroupLast(ctx: GroupContext, reg: RegisterView, used: set<string>, group: seq<string>)
    ensures var g := VerifyGroupSpec(ctx, reg, used, group);
      g.Passed? ==> g.reg.last == (if |group| == 0 then reg.last else Some(group[|group| - 1]))
    ensures var g := VerifyGroupSpec(ctx, reg, used, group);
      g.Failed? ==> g.reg.last == reg.last
    ensures var g := VerifyGroupSpec(ctx, reg, used, group);
      g.Passed? ==> g.reg.start == (if !Truthy(reg.last) && |group| > 0 then Some(group[0]) else reg.start)
  {
    StepOfAdvances(ctx);
    var c := GroupStart(ctx, reg, used);
    if c.Ok? {
      RunAdvances(StepOf(ctx), c.value, group);
    }
  }

  /** The ID of a receipt as parsed; empty for one that does not parse. */
  function ParsedId(ctx: GroupContext, r: string): string {
    if ctx.parse(r).Ok? then ctx.parse(r).value.receipt.receiptId else ""
  }

  lemma StepOfIdentifies(ctx: GroupContext)
    requires Coherent(ctx)
    ensures Identifies(StepOf(ctx), r => ParsedId(ctx, r))
  {
    forall c, r
      ensures StepOf(ctx)(c, r).Next? ==>
        (StepOf(ctx)(c, r).cursor.prevObj.Some? && StepOf(ctx)(c, r).cursor.prevObj.value.receiptId == ParsedId(ctx, r))
    {
      StepParsed(ctx, c, r);
    }
  }

  /** After a group passes, its receipt IDs have joined the used IDs; they
      are pairwise distinct, and none was used before, except that the very
      first receipt of a register outside a cluster is not checked. */
  lemma GroupIds(ctx: GroupContext, reg: RegisterView, used: set<string>, group: seq<string>)
    requires Coherent(ctx)
    ensures var g := VerifyGroupSpec(ctx, reg, used, group);
      g.Passed? ==> g.used == used + IdSet(r => ParsedId(ctx, r), group)
    ensures var g := VerifyGroupSpec(ctx, reg, used, group);
      g.Passed? ==> forall i, j :: 0 <= i < j < |group| ==> ParsedId(ctx, group[i]) != ParsedId(ctx, group[j])
    ensures var g := VerifyGroupSpec(ctx, reg, used, group);
      g.Passed? ==> forall i :: 0 <= i < |group| && (i > 0 || Truthy(reg.last) || Truthy(ctx.prevStart)) ==>
        ParsedId(ctx, group[i]) !in used
  {
    StepOfAdvances(ctx);
    StepOfIdentifies(ctx);
    var c := GroupStart(ctx, reg, used);
    if c.Ok? {
      RunIds(StepOf(ctx), r => ParsedId(ctx, r), c.value, group);
      if |group| > 0 {
        RunCons(StepOf(ctx), c.value, group);
        assert StepOf(ctx)(c.value, group[0]) == Step(ctx, c.value, group[0]);
        StepClusterFirst(ctx, c.value, group[0]);
      }
    }
  }

  lemma StepOfCounts(ctx: GroupContext)
    requires Coherent(ctx) && ctx.kind == Raising
    ensures Counts(StepOf(ctx), r => Turnover(ctx, r))
  {
    forall c, r
      ensures StepOf(ctx)(c, r).Next? ==> StepOf(ctx)(c, r).cursor.reg.counter == c.reg.counter + Turnover(ctx, r)
    {
      StepCounts(ctx, c, r);
    }
  }

  /** With the raising verifier, a group that passes adds the turnover of
      its receipts (none without a key, none for a dummy) to the counter. */
  lemma GroupCounter(ctx: GroupContext, reg: RegisterView, used: set<string>, group: seq<string>)
    requires Coherent(ctx) && ctx.kind == Raising
    ensures var g := VerifyGroupSpec(ctx, reg, used, group);
      g.Passed? ==> g.reg.counter == reg.counter + Sum(r => Turnover(ctx, r), group)
  {
    StepOfCounts(ctx);
    var c := GroupStart(ctx, reg, used);
    if c.Ok? {
      RunCounts(StepOf(ctx), r => Turnover(ctx, r), c.value, group);
    }
  }

  /** With the raising verifier, a receipt that passes makes a restore
      receipt due exactly when it is signed, has turnover or is a dummy or
      reversal, and follows a receipt whose signature device had failed. */
  lemma StepNeedRestore(ctx: GroupContext, c: Cursor, r: string)
    requires Coherent(ctx) && ctx.kind == Raising
    ensures var s := Step(ctx, c, r);
      s.Next? ==> ctx.parse(r).Ok? && s.cursor.reg.needRestore == RestoreDue(c.prevObj, ctx.parse(r).value.receipt)
  {
    assert Agrees(ctx.env, ctx.kind, ctx.parse(r), ctx.verifyJWS(r));
    AdmitParsed(ctx, c.prevObj, c.reg.needRestore, r);
  }

  /** A receipt that passes consumes a pending chaining value. */
  lemma StepChainNextTo(ctx: GroupContext, c: Cursor, r: string)
    ensures var s := Step(ctx, c, r);
      s.Next? ==> s.cursor.reg.chainNextTo == ConsumeChain(c.reg.chainNextTo)
  {
  }

  /** A parsed receipt's turnover is what the replay adds. */
  lemma TurnoverAdds(ctx: GroupContext, counter: int, r: string)
    requires ctx.parse(r).Ok?
    ensures counter + Turnover(ctx, r) == AddTurnover(ctx.key, counter, ctx.parse(r).value.receipt)
  {
  }

  /** `updateFromDEPGroup`'s step gives the register a step that passes
      leaves, when they agree on the parsed receipt and on each field. */
  lemma ReplayMatches(env: Env, key: Option<Key>, c: Cursor, r: string, s: StepResult)
    requires s.Next? && Advances(s, c, r)
    requires FromJWSString(env, r).Ok? && s.cursor.prevObj == Some(FromJWSString(env, r).value.receipt)
    requires s.cursor.reg.needRestore == RestoreDue(c.prevObj, FromJWSString(env, r).value.receipt)
    requires s.cursor.reg.chainNextTo == ConsumeChain(c.reg.chainNextTo)
    requires s.cursor.reg.counter == AddTurnover(key, c.reg.counter, FromJWSString(env, r).value.receipt)
    ensures ReplayStep(env, key, Replay(c.reg, c.prevObj), r) == Ok(Replay(s.cursor.reg, s.cursor.prevObj))
  {
  }

  /** With the raising verifier, a receipt that passes changes the register
      exactly as `updateFromDEPGroup` replays it. */
  lemma StepReplays(ctx: GroupContext, env: Env, c: Cursor, r: string)
    requires Coherent(ctx) && ctx.kind == Raising && ctx.parse(r) == FromJWSString(env, r)
    ensures var s := Step(ctx, c, r);
      s.Next? ==> ReplayStep(env, ctx.key, Replay(c.reg, c.prevObj), r) == Ok(Replay(s.cursor.reg, s.cursor.prevObj))
  {
    var s := Step(ctx, c, r);
    if s.Next? {
      StepReplayReceipt(ctx, env, c, r);
      StepReplayCounters(ctx, env, c, r);
      ReplayMatches(env, ctx.key, c, r, s);
    }
  }

  /** The receipt a passing step records, and the restore flag it leaves,
      as the replay step needs them. */
  lemma StepReplayReceipt(ctx: GroupContext, env: Env, c: Cursor, r: string)
    requires Coherent(ctx) && ctx.kind == Raising && ctx.parse(r) == FromJWSString(env, r)
    requires Step(ctx, c, r).Next?
    ensures var s := Step(ctx, c, r); var p := FromJWSString(env, r);
      p.Ok? && s.cursor.prevObj == Some(p.value.receipt) &&
      s.cursor.reg.needRestore == RestoreDue(c.prevObj, p.value.receipt)
  {
    StepParsed(ctx, c, r);
    StepNeedRestore(ctx, c, r);
  }

  /** The chaining marker and the turnover counter a passing step leaves,
      as the replay step needs them. */
  lemma StepReplayCounters(ctx: GroupContext, env: Env, c: Cursor, r: string)
    requires Coherent(ctx) && ctx.kind == Raising && ctx.parse(r) == FromJWSString(env, r)
    requires Step(ctx, c, r).Next?
    ensures var s := Step(ctx, c, r); var p := FromJWSString(env, r);
      p.Ok? && s.cursor.reg.chainNextTo == ConsumeChain(c.reg.chainNextTo) &&
      s.cursor.reg.counter == AddTurnover(ctx.key, c.reg.counter, p.value.receipt)
  {
    StepParsed(ctx, c, r);
    StepCounts(ctx, c, r);
    StepChainNextTo(ctx, c, r);
    TurnoverAdds(ctx, c.reg.counter, r);
  }

  /** Every step that passes changes the register as the replay does. */
  ghost predicate Replays(step: Stepper, env: Env, key: Option<Key>) {
    forall c, r :: step(c, r).Next? ==>
      ReplayStep(env, key, Replay(c.reg, c.prevObj), r) == Ok(Replay(step(c, r).cursor.reg, step(c, r).cursor.prevObj))
  }

  /** Over a group that passes, the steps add up to the replay. */
  lemma {:induction false} RunReplays(step: Stepper, env: Env, key: Option<Key>, c: Cursor, group: seq<string>)
    requires Replays(step, env, key)
    ensures var s := Run(step, c, group);
      s.Next? ==> ReplayFrom(env, key, Replay(c.reg, c.prevObj), group) == Ok(Replay(s.cursor.reg, s.cursor.prevObj))
    decreases |group|
  {
    if |group| > 0 && step(c, group[0]).Next? {
      RunReplays(step, env, key, step(c, group[0]).cursor, group[1..]);
    }
  }

  /** The context parses receipts with the receipt module's parser. */
  ghost predicate ParsesWith(ctx: GroupContext, env: Env) {
    forall r :: ctx.parse(r) == FromJWSString(env, r)
  }

  lemma StepOfReplays(ctx: GroupContext, env: Env)
    requires Coherent(ctx) && ctx.kind == Raising && ParsesWith(ctx, env)
    ensures Replays(StepOf(ctx), env, ctx.key)
  {
    forall c, r | StepOf(ctx)(c, r).Next?
      ensures ReplayStep(env, ctx.key, Replay(c.reg, c.prevObj), r) ==
        Ok(Replay(StepOf(ctx)(c, r).cursor.reg, StepOf(ctx)(c, r).cursor.prevObj))
    {
      assert StepOf(ctx)(c, r) == Step(ctx, c, r);
      StepReplays(ctx, env, c, r);
    }
  }

  /** With the raising verifier, a group that passes leaves the register
      exactly as `updateFromDEPGroup` replays it without verifying. */
  lemma GroupReplays(ctx: GroupContext, env: Env, reg: RegisterView, used: set<string>, group: seq<string>)
    requires Coherent(ctx) && ctx.kind == Raising && ParsesWith(ctx, env)
    ensures var g := VerifyGroupSpec(ctx, reg, used, group);
      g.Passed? ==> ReplayGroup(env, ctx.key, reg, group) == Ok(g.reg)
  {
    if VerifyGroupSpec(ctx, reg, used, group).Passed? {
      var c := GroupStart(ctx, reg, used).value;
      RunReplaysFrom(ctx, env, c, group);
      assert ReplayStart(env, reg) == Ok(Replay(c.reg, c.prevObj));
    }
  }

  /** A run of `verifyGroup`'s steps that passes is the replay of the
      group, and ends at the group's last receipt. */
  lemma RunReplaysFrom(ctx: GroupContext, env: Env, c: Cursor, group: seq<string>)
    requires Coherent(ctx) && ctx.kind == Raising && ParsesWith(ctx, env)
    ensures var s := Run(StepOf(ctx), c, group);
      s.Next? ==> (ReplayFrom(env, ctx.key, Replay(c.reg, c.prevObj), group) == Ok(Replay(s.cursor.reg, s.cursor.prevObj)) &&
        s.cursor.reg.last == c.reg.last &&
        s.cursor.prev == (if |group| == 0 then c.prev else Some(group[|group| - 1])))
  {
    StepOfReplays(ctx, env);
    StepOfAdvances(ctx);
    RunReplays(StepOf(ctx), env, ctx.key, c, group);
    RunAdvances(StepOf(ctx), c, group);
  }

  // ---------------------------------------------------------------------
  // verifyGroup on the register and used-ID objects

  /** The checks against the predecessor, applied to the register and the
      used IDs in place. */
  method ApplyChecks(ctx: GroupContext, reg: CashRegisterState, used: UsedReceiptIds,
                     q: Position, a: Admitted, r: string) returns (err: Option<Error>)
    requires reg.View() == q.reg
    modifies reg, used
    ensures var s := Checked(ctx, q, old(used.ids), a, r);
      (err.None? <==> s.Next?) &&
      (s.Next? ==> reg.View() == s.cursor.reg && used.ids == s.cursor.used) &&
      (s.Stop? ==> err == Some(s.error) && reg.View() == s.reg && used.ids == s.used)
  {
    var ro := a.receipt;
    if q.prevObj.Some? {
      err := used.Check(ro.receiptId);
      if err.Some? {
        return;
      }
      err := Continuity(ctx.kind, q.prevObj.value, ro);
      if err.Some? {
        return;
      }
    }
    used.Add(ro.receiptId);
    var chain := ChainCheck(ctx, reg.startReceiptJWS, reg.chainNextTo, q.prev, ro, a.algorithm, r);
    if chain.Err? {
      return Some(chain.error);
    }
    reg.chainNextTo := chain.value;
    var n := Counter(ctx, reg.lastTurnoverCounter, ro, a.algorithm);
    if n.Err? {
      return Some(n.error);
    }
    reg.lastTurnoverCounter := n.value;
    return None;
  }

  /** One pass of `verifyGroup`'s loop: the register and the used IDs
      change as `Step` says, and the receipt becomes the predecessor. */
  method ProcessReceipt(ctx: GroupContext, reg: CashRegisterState, used: UsedReceiptIds,
                        prev: Option<string>, prevObj: Option<Receipt>, r: string)
    returns (err: Option<Error>, prev': Option<string>, prevObj': Option<Receipt>)
    modifies reg, used
    ensures var s := Step(ctx, Cursor(old(reg.View()), old(used.ids), prev, prevObj), r);
      (err.None? <==> s.Next?) &&
      (s.Next? ==> (reg.View() == s.cursor.reg && used.ids == s.cursor.used &&
        prev' == s.cursor.prev && prevObj' == s.cursor.prevObj)) &&
      (s.Stop? ==> err == Some(s.error) && reg.View() == s.reg && used.ids == s.used)
  {
    prev', prevObj' := prev, prevObj;
    var a := Admit(ctx, prevObj, reg.needRestoreReceipt, r);
    if a.Err? {
      return Some(a.error), prev, prevObj;
    }
    reg.needRestoreReceipt := a.value.needRestore;
    var q := Anchoring(ctx, reg.View(), prev, prevObj, a.value.receipt, r);
    if q.Err? {
      return Some(q.error), prev, prevObj;
    }
    if prevObj.None? {
      reg.startReceiptJWS := Some(r);
    }
    err := ApplyChecks(ctx, reg, used, q.value, a.value, r);
    prev', prevObj' := Some(r), Some(a.value.receipt);
  }

  /** `verifyGroup`'s loop: the register and the used IDs end as the fold
      over the group says, and it stops at the first exception. */
  method RunReceipts(ctx: GroupContext, group: seq<string>, reg: CashRegisterState, used: UsedReceiptIds,
                     prev0: Option<string>, prevObj0: Option<Receipt>) returns (err: Option<Error>, prev: Option<string>)
    modifies reg, used
    ensures var s := Run(StepOf(ctx), Cursor(old(reg.View()), old(used.ids), prev0, prevObj0), group);
      (err.None? <==> s.Next?) &&
      (s.Next? ==> (reg.View() == s.cursor.reg && used.ids == s.cursor.used && prev == s.cursor.prev)) &&
      (s.Stop? ==> err == Some(s.error) && reg.View() == s.reg && used.ids == s.used)
  {
    prev := prev0;
    var prevObj := prevObj0;
    ghost var c0 := Cursor(reg.View(), used.ids, prev, prevObj);
    var i := 0;
    while i < |group|
      invariant 0 <= i <= |group|
      invariant Run(StepOf(ctx), Cursor(reg.View(), used.ids, prev, prevObj), group[i..]) == Run(StepOf(ctx), c0, group)
    {
      ghost var c := Cursor(reg.View(), used.ids, prev, prevObj);
      assert group[i..][0] == group[i] && group[i..][1..] == group[i + 1..];
      err, prev, prevObj := ProcessReceipt(ctx, reg, used, prev, prevObj, group[i]);
      RunStep(ctx, c, group[i..], err, Cursor(reg.View(), used.ids, prev, prevObj));
      if err.Some? {
        return;
      }
      i := i + 1;
    }
    return None, prev;
  }

  /** What the first receipt's step did decides the run over the group:
      its exception and state, or the rest run from the cursor it left. */
  lemma RunStep(ctx: GroupContext, c: Cursor, group: seq<string>, err: Option<Error>, c': Cursor)
    requires |group| > 0
    requires var s := Step(ctx, c, group[0]);
      (err.None? <==> s.Next?) && (s.Next? ==> c' == s.cursor) &&
      (s.Stop? ==> err == Some(s.error) && c'.reg == s.reg && c'.used == s.used)
    ensures err.Some? ==> Run(StepOf(ctx), c, group) == Stop(err.value, c'.reg, c'.used)
    ensures err.None? ==> Run(StepOf(ctx), c, group) == Run(StepOf(ctx), c', group[1..])
  {
    RunCons(StepOf(ctx), c, group);
    assert StepOf(ctx)(c, group[0]) == Step(ctx, c, group[0]);
  }

  /** `verifyGroup`: the register and the used IDs end as the fold says,
      and an exception is raised exactly when the fold stops. */
  method VerifyGroup(ctx: GroupContext, group: seq<string>, reg: CashRegisterState, used: UsedReceiptIds)
    returns (err: Option<Error>)
    modifies reg, used
    ensures var g := VerifyGroupSpec(ctx, old(reg.View()), old(used.ids), group);
      (err.None? <==> g.Passed?) && reg.View() == g.reg && used.ids == g.used &&
      (g.Failed? ==> err == Some(g.error))
  {
    var prevObj: Option<Receipt> := None;
    if Truthy(reg.lastReceiptJWS) {
      var p := ctx.parse(reg.lastReceiptJWS.value);
      if p.Err? {
        return Some(p.error);
      }
      prevObj := Some(p.value.receipt);
    }
    var prev;
    err, prev := RunReceipts(ctx, group, reg, used, reg.lastReceiptJWS, prevObj);
    if err.None? {
      reg.lastReceiptJWS := prev;
    }
  }
}
