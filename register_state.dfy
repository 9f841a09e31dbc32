/** The per-register state and the used-receipt-ID set that `verifyGroup`
    updates in place. Their classes live in `librksv/verification_state.py`,
    which is not part of this model; only the interface the verifier and
    the state tool use is modelled. */
module RegisterState {
  import opened Wrappers
  import opened Errors
  import opened Receipts

  /** Python truthiness of an optional string: absent and empty are false. */
  predicate Truthy(s: Option<string>) {
    s.Some? && s.value != ""
  }

  /** The fields of a `CashRegisterState`, as a value. */
  datatype RegisterView = RegisterView(
    start: Option<string>, last: Option<string>, counter: int,
    chainNextTo: Option<string>, needRestore: bool)

  /** A newly created register: no receipts, zero turnover, no pending
      chaining value, no restore receipt needed. */
  const FreshRegister: RegisterView := RegisterView(None, None, 0, None, false)

  class CashRegisterState {
    var startReceiptJWS: Option<string>
    var lastReceiptJWS: Option<string>
    var lastTurnoverCounter: int
    var chainNextTo: Option<string>
    var needRestoreReceipt: bool

    function View(): RegisterView
      reads this
    {
      RegisterView(startReceiptJWS, lastReceiptJWS, lastTurnoverCounter, chainNextTo, needRestoreReceipt)
    }

    constructor ()
      ensures View() == FreshRegister
    {
      startReceiptJWS := None;
      lastReceiptJWS := None;
      lastTurnoverCounter := 0;
      chainNextTo := None;
      needRestoreReceipt := false;
    }

    /** A register read back from a saved state. */
    constructor FromView(v: RegisterView)
      ensures View() == v
    {
      startReceiptJWS := v.start;
      lastReceiptJWS := v.last;
      lastTurnoverCounter := v.counter;
      chainNextTo := v.chainNextTo;
      needRestoreReceipt := v.needRestore;
    }

    /** Overwrite every field. */
    method SetView(v: RegisterView)
      modifies this
      ensures View() == v
    {
      startReceiptJWS := v.start;
      lastReceiptJWS := v.last;
      lastTurnoverCounter := v.counter;
      chainNextTo := v.chainNextTo;
      needRestoreReceipt := v.needRestore;
    }

    /** `updateFromDEPGroup`: replay a group without verifying it. */
    method UpdateFromDEPGroup(env: Env, group: seq<string>, key: Option<Key>) returns (err: Option<Error>)
      modifies this
      ensures var u := ReplayGroup(env, key, old(View()), group);
        (err.None? <==> u.Ok?) && (u.Ok? ==> View() == u.value) && (u.Err? ==> err == Some(u.error))
    {
      var start := ReplayStart(env, View());
      if start.Err? {
        return Some(start.error);
      }
      var prevObj := start.value.prevObj;
      ghost var s0 := start.value;
      var i := 0;
      while i < |group|
        invariant 0 <= i <= |group|
        invariant ReplayFrom(env, key, Replay(View(), prevObj), group[i..]) == ReplayFrom(env, key, s0, group)
        invariant lastReceiptJWS == old(lastReceiptJWS)
      {
        var cur := Replay(View(), prevObj);
        var step := ReplayStep(env, key, cur, group[i]);
        ReplayFromCons(env, key, cur, group[i..]);
        assert group[i..][1..] == group[i + 1..];
        if step.Err? {
          return Some(step.error);
        }
        var next := step.value;
        SetView(next.reg);
        prevObj := next.prevObj;
        i := i + 1;
      }
      if |group| > 0 {
        lastReceiptJWS := Some(group[|group| - 1]);
      }
      return None;
    }
  }

  /** The replay state: the register and the previous receipt. */
  datatype Replay = Replay(reg: RegisterView, prevObj: Option<Receipt>)

  /** A restore receipt becomes due when a signed receipt with turnover,
      or a dummy or reversal, follows one whose signature device had
      failed. */
  predicate RestoreDue(prevObj: Option<Receipt>, ro: Receipt) {
    prevObj.Some? && (!IsNull(ro) || IsDummy(ro) || IsReversal(ro)) &&
    IsSignedBroken(ro) == Ok(false) && IsSignedBroken(prevObj.value) == Ok(true)
  }

  /** With a key, the turnover of every receipt but a dummy is added. */
  function AddTurnover(key: Option<Key>, counter: int, ro: Receipt): int {
    if key.Some? && !IsDummy(ro) then counter + TotalCents(ro) else counter
  }

  /** A pending chaining value is consumed. */
  function ConsumeChain(chainNextTo: Option<string>): (c: Option<string>)
    ensures Truthy(chainNextTo) ==> c.None?
    ensures !Truthy(chainNextTo) ==> c == chainNextTo
  {
    if Truthy(chainNextTo) then None else chainNextTo
  }

  /** One receipt of `updateFromDEPGroup`: the state change a successful
      verification of the receipt makes. The start receipt is set for a
      register's first receipt. */
  function ReplayStep(env: Env, key: Option<Key>, s: Replay, r: string): (t: Result<Replay, Error>)
    ensures t.Ok? ==> FromJWSString(env, r).Ok? && t.value.prevObj == Some(FromJWSString(env, r).value.receipt)
    ensures t.Ok? ==> t.value.reg.last == s.reg.last
  {
    match FromJWSString(env, r)
    case Err(e) => Err(e)
    case Ok(p) =>
      var ro := p.receipt;
      var start := if s.prevObj.None? then Some(r) else s.reg.start;
      Ok(Replay(RegisterView(start, s.reg.last, AddTurnover(key, s.reg.counter, ro),
        ConsumeChain(s.reg.chainNextTo), RestoreDue(s.prevObj, ro)), Some(ro)))
  }

  /** The replay of a sequence of receipts. */
  function ReplayFrom(env: Env, key: Option<Key>, s: Replay, group: seq<string>): (t: Result<Replay, Error>)
    ensures t.Ok? ==> t.value.reg.last == s.reg.last
    decreases |group|
  {
    if |group| == 0 then Ok(s)
    else match ReplayStep(env, key, s, group[0])
      case Err(e) => Err(e)
      case Ok(s1) => ReplayFrom(env, key, s1, group[1..])
  }

  /** One replay step followed by the rest. */
  lemma ReplayFromCons(env: Env, key: Option<Key>, s: Replay, group: seq<string>)
    requires |group| > 0
    ensures ReplayStep(env, key, s, group[0]).Err? ==>
      ReplayFrom(env, key, s, group) == Err(ReplayStep(env, key, s, group[0]).error)
    ensures ReplayStep(env, key, s, group[0]).Ok? ==>
      ReplayFrom(env, key, s, group) == ReplayFrom(env, key, ReplayStep(env, key, s, group[0]).value, group[1..])
  {
  }

  /** Where a replay starts: the register, and the receipt it last saw
      when that is set. */
  function ReplayStart(env: Env, reg: RegisterView): (s: Result<Replay, Error>)
    ensures s.Ok? ==> s.value.reg == reg
  {
    if !Truthy(reg.last) then Ok(Replay(reg, None))
    else match FromJWSString(env, reg.last.value)
      case Err(e) => Err(e)
      case Ok(p) => Ok(Replay(reg, Some(p.receipt)))
  }

  /** The register after `updateFromDEPGroup`: the replay from the receipt
      the register last saw, with the group's last receipt as the new last
      receipt. */
  function ReplayGroup(env: Env, key: Option<Key>, reg: RegisterView, group: seq<string>): (u: Result<RegisterView, Error>)
    ensures u.Ok? ==> u.value.last == (if |group| == 0 then reg.last else Some(group[|group| - 1]))
  {
    match ReplayStart(env, reg)
    case Err(e) => Err(e)
    case Ok(s) =>
      match ReplayFrom(env, key, s, group)
      case Err(e) => Err(e)
      case Ok(t) => Ok(if |group| == 0 then t.reg else t.reg.(last := Some(group[|group| - 1])))
  }

  /** `updateFromDEPGroup` applied to the groups of an export in order,
      up to the first exception. */
  function ReplayGroups(env: Env, key: Option<Key>, reg: RegisterView, groups: seq<seq<string>>): (u: Result<RegisterView, Error>)
    decreases |groups|
  {
    if |groups| == 0 then Ok(reg)
    else match ReplayGroup(env, key, reg, groups[0])
      case Err(e) => Err(e)
      case Ok(r) => ReplayGroups(env, key, r, groups[1..])
  }

  /** One group's replay followed by the rest. */
  lemma ReplayGroupsCons(env: Env, key: Option<Key>, reg: RegisterView, groups: seq<seq<string>>)
    requires |groups| > 0
    ensures ReplayGroup(env, key, reg, groups[0]).Err? ==>
      ReplayGroups(env, key, reg, groups) == Err(ReplayGroup(env, key, reg, groups[0]).error)
    ensures ReplayGroup(env, key, reg, groups[0]).Ok? ==>
      ReplayGroups(env, key, reg, groups) == ReplayGroups(env, key, ReplayGroup(env, key, reg, groups[0]).value, groups[1..])
  {
  }

  /** What replaying the first group did decides the replay of them all:
      its exception, or the rest replayed from the register it left. */
  lemma ReplayGroupsStep(env: Env, key: Option<Key>, before: RegisterView, groups: seq<seq<string>>, i: nat,
                         err: Option<Error>, after: RegisterView)
    requires i < |groups|
    requires var u := ReplayGroup(env, key, before, groups[i]);
      (err.None? <==> u.Ok?) && (u.Ok? ==> after == u.value) && (u.Err? ==> err == Some(u.error))
    ensures err.Some? ==> ReplayGroups(env, key, before, groups[i..]) == Err(err.value)
    ensures err.None? ==> ReplayGroups(env, key, before, groups[i..]) == ReplayGroups(env, key, after, groups[i + 1..])
  {
    assert groups[i..][0] == groups[i] && groups[i..][1..] == groups[i + 1..];
    ReplayGroupsCons(env, key, before, groups[i..]);
  }

  /** The used receipt IDs of a cluster. */
  class UsedReceiptIds {
    var ids: set<string>

    constructor ()
      ensures ids == {}
    {
      ids := {};
    }

    /** `check`: a receipt ID seen before is rejected. */
    method Check(id: string) returns (e: Option<Error>)
      ensures e.Some? <==> id in ids
      ensures e.Some? ==> e.value == DuplicateReceiptId(id)
    {
      if id in ids {
        return Some(DuplicateReceiptId(id));
      }
      return None;
    }

    /** `add`. */
    method Add(id: string)
      modifies this
      ensures ids == old(ids) + {id}
    {
      ids := ids + {id};
    }
  }
}
