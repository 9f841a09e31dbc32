/** The state tool `verification_state.py`: each command loads a cluster
    state, makes one edit and saves it again. A cluster holds a list of
    cash registers and the receipt IDs used across all of them. Loading,
    saving and argument parsing are not modelled; a command that raises
    leaves the saved state as it was, because the state is written only
    after the command has finished. */
module VerificationState {
  import opened Wrappers
  import opened Errors
  import opened Text
  import opened Receipts
  import opened RegisterState

  /** Python list indexing: a negative index counts from the end, and an
      index out of range raises `IndexError`. */
  function ListIndex(n: int, len: nat): (k: Option<nat>)
    ensures k.Some? <==> -(len as int) <= n < len
    ensures k.Some? ==> k.value < len && (if n >= 0 then k.value == n else k.value == n + len)
  {
    if 0 <= n < len then Some(n)
    else if -(len as int) <= n < 0 then Some(n + len)
    else None
  }

  /** `arg_str_or_none`: the literal argument `None` means absent. */
  function ArgStrOrNone(arg: string): (r: Option<string>)
    ensures r.None? <==> arg == "None"
    ensures r.Some? ==> r.value == arg
  {
    if arg == "None" then None else Some(arg)
  }

  /** The used receipt IDs `readUsedReceiptIds` reads: none for the
      argument `None`, otherwise every line of the file, stripped. */
  function IdsRead(lines: Option<seq<string>>): (ids: set<string>)
    ensures lines.None? ==> ids == {}
    ensures lines.Some? ==> forall i :: 0 <= i < |lines.value| ==> Strip(lines.value[i]) in ids
    ensures lines.Some? ==> forall id :: id in ids ==> exists i :: 0 <= i < |lines.value| && Strip(lines.value[i]) == id
  {
    if lines.None? then {} else StrippedUpTo(lines.value, |lines.value|)
  }

  /** The first `n` lines, stripped. */
  function StrippedUpTo(ls: seq<string>, n: nat): set<string>
    requires n <= |ls|
  {
    set i | 0 <= i < n :: Strip(ls[i])
  }

  lemma StrippedSnoc(ls: seq<string>, n: nat)
    requires n < |ls|
    ensures StrippedUpTo(ls, n + 1) == StrippedUpTo(ls, n) + {Strip(ls[n])}
  {
    forall x
      ensures x in StrippedUpTo(ls, n + 1) <==> x in StrippedUpTo(ls, n) + {Strip(ls[n])}
    {
      if x in StrippedUpTo(ls, n + 1) {
        var i :| 0 <= i < n + 1 && Strip(ls[i]) == x;
        if i < n {
          assert x in StrippedUpTo(ls, n);
        }
      }
    }
  }

  /** The registers' fields. */
  function ViewsOf(rs: seq<CashRegisterState>): (vs: seq<RegisterView>)
    reads rs
    ensures |vs| == |rs| && forall i :: 0 <= i < |rs| ==> vs[i] == rs[i].View()
  {
    if |rs| == 0 then [] else ViewsOf(rs[..|rs| - 1]) + [rs[|rs| - 1].View()]
  }

  /** `updateCashRegister`'s fold over an export: every group replayed
      into register `n` in stream order. The register is looked up for
      each group, so an export without groups never raises. */
  function UpdateRegisters(env: Env, key: Option<Key>, regs: seq<RegisterView>, n: int, groups: seq<seq<string>>)
    : (u: Result<seq<RegisterView>, Error>)
    ensures |groups| > 0 && ListIndex(n, |regs|).None? ==> u == Err(IndexError)
    ensures |groups| == 0 ==> u == Ok(regs)
    ensures u.Ok? ==> |u.value| == |regs| && forall i :: 0 <= i < |regs| && Some(i) != ListIndex(n, |regs|) ==> u.value[i] == regs[i]
    ensures |groups| > 0 && ListIndex(n, |regs|).Some? ==>
      var k := ListIndex(n, |regs|).value; var g := ReplayGroups(env, key, regs[k], groups);
      (u.Ok? <==> g.Ok?) && (u.Ok? ==> u.value[k] == g.value) && (u.Err? ==> u.error == g.error)
  {
    if |groups| == 0 then Ok(regs)
    else match ListIndex(n, |regs|)
      case None => Err(IndexError)
      case Some(k) =>
        match ReplayGroups(env, key, regs[k], groups)
        case Err(e) => Err(e)
        case Ok(r) => Ok(regs[k := r])
  }

  /** `updateCashRegister` indexes the register list directly, so `-1`
      names the last register, as in Python. */
  lemma UpdateLastRegister(env: Env, key: Option<Key>, regs: seq<RegisterView>, groups: seq<seq<string>>)
    requires |regs| > 0 && |groups| > 0
    ensures var g := ReplayGroups(env, key, regs[|regs| - 1], groups);
      UpdateRegisters(env, key, regs, -1, groups) == if g.Ok? then Ok(regs[|regs| - 1 := g.value]) else Err(g.error)
  {
  }

  /** The groups of an export replayed into one register in order, up to
      the first exception. */
  method ReplayInto(env: Env, reg: CashRegisterState, groups: seq<seq<string>>, key: Option<Key>) returns (err: Option<Error>)
    modifies reg
    ensures var u := ReplayGroups(env, key, old(reg.View()), groups);
      (err.None? <==> u.Ok?) && (u.Ok? ==> reg.View() == u.value) && (u.Err? ==> err == Some(u.error))
  {
    var i := 0;
    while i < |groups|
      invariant 0 <= i <= |groups|
      invariant ReplayGroups(env, key, reg.View(), groups[i..]) == ReplayGroups(env, key, old(reg.View()), groups)
    {
      ghost var before := reg.View();
      err := reg.UpdateFromDEPGroup(env, groups[i], key);
      ReplayGroupsStep(env, key, before, groups, i, err, reg.View());
      if err.Some? {
        return;
      }
      i := i + 1;
    }
    return None;
  }

  class ClusterState {
    var cashRegisters: seq<CashRegisterState>
    var usedReceiptIds: UsedReceiptIds

    /** Every position holds its own register object. */
    ghost predicate Valid()
      reads this
    {
      forall i, j :: 0 <= i < j < |cashRegisters| ==> cashRegisters[i] != cashRegisters[j]
    }

    function Views(): seq<RegisterView>
      reads this, cashRegisters
    {
      ViewsOf(cashRegisters)
    }

    /** `create`: no registers and no used receipt IDs. */
    constructor ()
      ensures Valid() && Views() == [] && usedReceiptIds.ids == {}
    {
      cashRegisters := [];
      usedReceiptIds := new UsedReceiptIds();
    }

    /** `addCashRegister`: a new register at the end. */
    method AddCashRegister()
      requires Valid()
      modifies this
      ensures Valid() && Views() == old(Views()) + [FreshRegister]
      ensures usedReceiptIds == old(usedReceiptIds)
    {
      var r := new CashRegisterState();
      cashRegisters := cashRegisters + [r];
    }

    /** `resetCashRegister n`: `updateCashRegisterInfo` is handed a new
        register and a new used-ID set, so register `n` becomes a new
        register and the cluster's used receipt IDs become empty. That
        method takes a register's position in `0 <= n < len` and raises
        `InvalidCashRegisterIndexException` for any other `n`. */
    method ResetCashRegister(n: int) returns (err: Option<Error>)
      requires Valid()
      modifies this
      ensures Valid()
      ensures (err.Some? <==> !(0 <= n < |old(Views())|)) && (err.Some? ==> err.value == InvalidCashRegisterIndex(n))
      ensures err.Some? ==> Views() == old(Views()) && usedReceiptIds == old(usedReceiptIds)
      ensures err.None? ==> Views() == old(Views())[n := FreshRegister] && usedReceiptIds.ids == {}
    {
      if !(0 <= n < |cashRegisters|) {
        return Some(InvalidCashRegisterIndex(n));
      }
      var r := new CashRegisterState();
      var u := new UsedReceiptIds();
      cashRegisters := cashRegisters[n := r];
      usedReceiptIds := u;
      return None;
    }

    /** `deleteCashRegister n`: register `n` is removed; the registers
        before it keep their positions and those after it move down one. */
    method DeleteCashRegister(n: int) returns (err: Option<Error>)
      requires Valid()
      modifies this
      ensures Valid() && usedReceiptIds == old(usedReceiptIds)
      ensures var k := ListIndex(n, |old(Views())|);
        (err.Some? <==> k.None?) && (err.Some? ==> err.value == IndexError) &&
        (k.None? ==> Views() == old(Views())) &&
        (k.Some? ==> (|Views()| == |old(Views())| - 1 &&
          forall i :: 0 <= i < |Views()| ==> Views()[i] == old(Views())[if i < k.value then i else i + 1]))
    {
      var k := ListIndex(n, |cashRegisters|);
      if k.None? {
        return Some(IndexError);
      }
      cashRegisters := cashRegisters[..k.value] + cashRegisters[k.value + 1..];
      return None;
    }

    /** `setLastReceiptJWS n jws`. */
    method SetLastReceiptJWS(n: int, arg: string) returns (err: Option<Error>)
      requires Valid()
      modifies cashRegisters
      ensures Valid() && cashRegisters == old(cashRegisters)
      ensures var k := ListIndex(n, |old(Views())|);
        (err.Some? <==> k.None?) && (err.Some? ==> err.value == IndexError) &&
        (k.None? ==> Views() == old(Views())) &&
        (k.Some? ==> Views() == old(Views())[k.value := old(Views())[k.value].(last := ArgStrOrNone(arg))])
    {
      var k := ListIndex(n, |cashRegisters|);
      if k.None? {
        return Some(IndexError);
      }
      cashRegisters[k.value].lastReceiptJWS := ArgStrOrNone(arg);
      return None;
    }

    /** `setLastTurnoverCounter n cents`. */
    method SetLastTurnoverCounter(n: int, counter: int) returns (err: Option<Error>)
      requires Valid()
      modifies cashRegisters
      ensures Valid() && cashRegisters == old(cashRegisters)
      ensures var k := ListIndex(n, |old(Views())|);
        (err.Some? <==> k.None?) && (err.Some? ==> err.value == IndexError) &&
        (k.None? ==> Views() == old(Views())) &&
        (k.Some? ==> Views() == old(Views())[k.value := old(Views())[k.value].(counter := counter)])
    {
      var k := ListIndex(n, |cashRegisters|);
      if k.None? {
        return Some(IndexError);
      }
      cashRegisters[k.value].lastTurnoverCounter := counter;
      return None;
    }

    /** `setChainNextTo n value`. */
    method SetChainNextTo(n: int, arg: string) returns (err: Option<Error>)
      requires Valid()
      modifies cashRegisters
      ensures Valid() && cashRegisters == old(cashRegisters)
      ensures var k := ListIndex(n, |old(Views())|);
        (err.Some? <==> k.None?) && (err.Some? ==> err.value == IndexError) &&
        (k.None? ==> Views() == old(Views())) &&
        (k.Some? ==> Views() == old(Views())[k.value := old(Views())[k.value].(chainNextTo := ArgStrOrNone(arg))])
    {
      var k := ListIndex(n, |cashRegisters|);
      if k.None? {
        return Some(IndexError);
      }
      cashRegisters[k.value].chainNextTo := ArgStrOrNone(arg);
      return None;
    }

    /** `toggleNeedRestoreReceipt n`. */
    method ToggleNeedRestoreReceipt(n: int) returns (err: Option<Error>)
      requires Valid()
      modifies cashRegisters
      ensures Valid() && cashRegisters == old(cashRegisters)
      ensures var k := ListIndex(n, |old(Views())|);
        (err.Some? <==> k.None?) && (err.Some? ==> err.value == IndexError) &&
        (k.None? ==> Views() == old(Views())) &&
        (k.Some? ==> Views() == old(Views())[k.value := old(Views())[k.value].(needRestore := !old(Views())[k.value].needRestore)])
    {
      var k := ListIndex(n, |cashRegisters|);
      if k.None? {
        return Some(IndexError);
      }
      cashRegisters[k.value].needRestoreReceipt := !cashRegisters[k.value].needRestoreReceipt;
      return None;
    }

    /** `setStartReceiptJWS n jws`. */
    method SetStartReceiptJWS(n: int, arg: string) returns (err: Option<Error>)
      requires Valid()
      modifies cashRegisters
      ensures Valid() && cashRegisters == old(cashRegisters)
      ensures var k := ListIndex(n, |old(Views())|);
        (err.Some? <==> k.None?) && (err.Some? ==> err.value == IndexError) &&
        (k.None? ==> Views() == old(Views())) &&
        (k.Some? ==> Views() == old(Views())[k.value := old(Views())[k.value].(start := ArgStrOrNone(arg))])
    {
      var k := ListIndex(n, |cashRegisters|);
      if k.None? {
        return Some(IndexError);
      }
      cashRegisters[k.value].startReceiptJWS := ArgStrOrNone(arg);
      return None;
    }

    /** `readUsedReceiptIds file`: a new used-ID set holding exactly the
        IDs read; the registers are untouched. */
    method ReadUsedReceiptIds(lines: Option<seq<string>>)
      requires Valid()
      modifies this
      ensures Valid() && cashRegisters == old(cashRegisters) && Views() == old(Views())
      ensures usedReceiptIds.ids == IdsRead(lines)
    {
      var u := new UsedReceiptIds();
      var ls := if lines.None? then [] else lines.value;
      var i := 0;
      while i < |ls|
        invariant 0 <= i <= |ls|
        invariant u.ids == StrippedUpTo(ls, i)
        invariant cashRegisters == old(cashRegisters)
      {
        StrippedSnoc(ls, i);
        u.Add(Strip(ls[i]));
        i := i + 1;
      }
      usedReceiptIds := u;
    }

    /** `copyCashRegister t src s`: register `t` becomes register `s` of
        another saved state; the other registers stay. */
    method CopyCashRegister(target: int, src: seq<RegisterView>, srcIdx: int) returns (err: Option<Error>)
      requires Valid()
      modifies this
      ensures Valid() && usedReceiptIds == old(usedReceiptIds)
      ensures var k := ListIndex(target, |old(Views())|); var s := ListIndex(srcIdx, |src|);
        (err.Some? <==> k.None? || s.None?) && (err.Some? ==> err.value == IndexError) &&
        (err.Some? ==> Views() == old(Views())) &&
        (err.None? ==> Views() == old(Views())[k.value := src[s.value]])
    {
      var s := ListIndex(srcIdx, |src|);
      if s.None? {
        return Some(IndexError);
      }
      var k := ListIndex(target, |cashRegisters|);
      if k.None? {
        return Some(IndexError);
      }
      var r := new CashRegisterState.FromView(src[s.value]);
      cashRegisters := cashRegisters[k.value := r];
      return None;
    }

    /** `updateCashRegister n export [key]`: every group of the export
        replayed into register `n` in order, without verification. */
    method UpdateCashRegister(env: Env, n: int, groups: seq<seq<string>>, key: Option<Key>) returns (err: Option<Error>)
      requires Valid()
      modifies cashRegisters
      ensures Valid() && cashRegisters == old(cashRegisters)
      ensures var u := UpdateRegisters(env, key, old(Views()), n, groups);
        (err.None? <==> u.Ok?) && (u.Ok? ==> Views() == u.value) && (u.Err? ==> err == Some(u.error))
    {
      if |groups| == 0 {
        return None;
      }
      var k := ListIndex(n, |cashRegisters|);
      if k.None? {
        return Some(IndexError);
      }
      var reg := cashRegisters[k.value];
      err := ReplayInto(env, reg, groups, key);
    }
  }
}
