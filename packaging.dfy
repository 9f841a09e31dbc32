/** `librksv/verify.py`, `balanceGroupsWithVerifiers` and
    `getChunksForProcs`: how the groups of an export are split into work
    packages. A group is a list of receipts with the verifier meant for
    them; the verifier's type is left open (`V`). */
module Packaging {
  import opened Wrappers
  import opened Errors

  /** The concatenation of a list of lists. */
  function Flatten<T>(xss: seq<seq<T>>): seq<T>
    decreases |xss|
  {
    if |xss| == 0 then [] else xss[0] + Flatten(xss[1..])
  }

  lemma {:induction false} FlattenAppend<T>(xss: seq<seq<T>>, yss: seq<seq<T>>)
    ensures Flatten(xss + yss) == Flatten(xss) + Flatten(yss)
    decreases |xss|
  {
    if |xss| == 0 {
      assert xss + yss == yss;
    } else {
      assert (xss + yss)[1..] == xss[1..] + yss;
      FlattenAppend(xss[1..], yss);
    }
  }

  lemma FlattenSnoc<T>(xss: seq<seq<T>>, ys: seq<T>)
    ensures Flatten(xss + [ys]) == Flatten(xss) + ys
  {
    FlattenAppend(xss, [ys]);
    assert Flatten([ys]) == ys + Flatten([ys][1..]);
  }

  // ---------------------------------------------------------------------
  // getChunksForProcs

  /** How many chunks a batch holds: `nprocs`, or one when `nprocs` is not
      positive (the length test `len(ret) >= nprocs` then holds at once). */
  function BatchSize(nprocs: int): nat {
    if nprocs < 1 then 1 else nprocs
  }

  /** `getChunksForProcs`: the chunks in order, in batches of `nprocs`
      except the last, which holds what is left; no batch is empty. */
  method GetChunksForProcs<T>(allChunks: seq<T>, nprocs: int) returns (batches: seq<seq<T>>)
    ensures Flatten(batches) == allChunks
    ensures forall i :: 0 <= i < |batches| ==> 0 < |batches[i]| <= BatchSize(nprocs)
    ensures forall i :: 0 <= i < |batches| - 1 ==> |batches[i]| == BatchSize(nprocs)
  {
    batches := [];
    var ret: seq<T> := [];
    var i := 0;
    while i < |allChunks|
      invariant 0 <= i <= |allChunks|
      invariant Flatten(batches) + ret == allChunks[..i]
      invariant |ret| < BatchSize(nprocs)
      invariant forall j :: 0 <= j < |batches| ==> |batches[j]| == BatchSize(nprocs)
    {
      ChunkStep(batches, ret, allChunks, i);
      ret := ret + [allChunks[i]];
      if |ret| >= nprocs {
        batches := batches + [ret];
        ret := [];
      }
      i := i + 1;
    }
    assert allChunks[..i] == allChunks;
    if |ret| > 0 {
      FlattenSnoc(batches, ret);
      batches := batches + [ret];
    }
  }

  /** One more chunk, kept pending or closing a batch. */
  lemma ChunkStep<T>(batches: seq<seq<T>>, ret: seq<T>, xs: seq<T>, i: nat)
    requires i < |xs| && Flatten(batches) + ret == xs[..i]
    ensures Flatten(batches) + (ret + [xs[i]]) == xs[..i + 1]
    ensures Flatten(batches + [ret + [xs[i]]]) + [] == xs[..i + 1]
  {
    assert xs[..i + 1] == xs[..i] + [xs[i]];
    FlattenSnoc(batches, ret + [xs[i]]);
  }

  // ---------------------------------------------------------------------
  // balanceGroupsWithVerifiers

  /** The receipts of one group, each paired with the group's verifier. */
  function Tag<V>(recs: seq<string>, v: V): (ps: seq<(string, V)>)
    ensures |ps| == |recs|
    ensures forall i :: 0 <= i < |ps| ==> ps[i] == (recs[i], v)
  {
    seq(|recs|, i requires 0 <= i < |recs| => (recs[i], v))
  }

  /** `recsWithVerifiers`: every receipt of every group with its verifier,
      in order. */
  function Pairs<V>(groups: seq<(seq<string>, V)>): seq<(string, V)>
    decreases |groups|
  {
    if |groups| == 0 then [] else Tag(groups[0].0, groups[0].1) + Pairs(groups[1..])
  }

  lemma {:induction false} PairsAppend<V>(a: seq<(seq<string>, V)>, b: seq<(seq<string>, V)>)
    ensures Pairs(a + b) == Pairs(a) + Pairs(b)
    decreases |a|
  {
    if |a| == 0 {
      assert a + b == b;
    } else {
      assert (a + b)[1..] == a[1..] + b;
      PairsAppend(a[1..], b);
    }
  }

  /** The packages' receipts with their verifiers, in order. */
  function PackagePairs<V>(pkgs: seq<seq<(seq<string>, V)>>): seq<(string, V)>
    decreases |pkgs|
  {
    if |pkgs| == 0 then [] else Pairs(pkgs[0]) + PackagePairs(pkgs[1..])
  }

  /** `itertools.groupby` on the verifier: runs of receipts with the same
      verifier become one group, read from the left. */
  function Runs<V(==)>(ps: seq<(string, V)>): seq<(seq<string>, V)>
    decreases |ps|
  {
    if |ps| == 0 then [] else Extend(Runs(ps[..|ps| - 1]), ps[|ps| - 1])
  }

  /** One more receipt: it joins the last group when it has the same
      verifier, else it starts a group. */
  function Extend<V(==)>(init: seq<(seq<string>, V)>, p: (string, V)): seq<(seq<string>, V)> {
    if |init| > 0 && init[|init| - 1].1 == p.1 then
      init[..|init| - 1] + [(init[|init| - 1].0 + [p.0], p.1)]
    else
      init + [([p.0], p.1)]
  }

  lemma PairsExtend<V>(init: seq<(seq<string>, V)>, p: (string, V))
    ensures Pairs(Extend(init, p)) == Pairs(init) + [p]
  {
    if |init| > 0 && init[|init| - 1].1 == p.1 {
      var front := init[..|init| - 1];
      var last := init[|init| - 1];
      assert init == front + [last];
      PairsMerge(front, last, p);
    } else {
      PairsAppend(init, [([p.0], p.1)]);
      PairsSingle(([p.0], p.1));
      assert Tag([p.0], p.1) == [p];
    }
  }

  /** The groups `groupby` forms hold the receipts in order. */
  lemma {:induction false} RunsPairs<V>(ps: seq<(string, V)>)
    ensures Pairs(Runs(ps)) == ps
    decreases |ps|
  {
    if |ps| > 0 {
      var q := ps[..|ps| - 1];
      var p := ps[|ps| - 1];
      assert Runs(ps) == Extend(Runs(q), p);
      RunsPairs(q);
      PairsExtend(Runs(q), p);
      assert q + [p] == ps;
    }
  }

  /** Extending the last group by a receipt with its verifier extends the
      pairs by that receipt. */
  lemma PairsMerge<V>(front: seq<(seq<string>, V)>, last: (seq<string>, V), p: (string, V))
    requires last.1 == p.1
    ensures Pairs(front + [(last.0 + [p.0], p.1)]) == Pairs(front + [last]) + [p]
  {
    var g := (last.0 + [p.0], p.1);
    PairsAppend(front, [last]);
    PairsAppend(front, [g]);
    PairsSingle(last);
    PairsSingle(g);
    TagSnoc(last.0, p.0, p.1);
  }

  lemma TagSnoc<V>(recs: seq<string>, r: string, v: V)
    ensures Tag(recs + [r], v) == Tag(recs, v) + [(r, v)]
  {
    assert forall i :: 0 <= i < |recs| ==> Tag(recs + [r], v)[i] == Tag(recs, v)[i];
  }

  lemma PairsSingle<V>(g: (seq<string>, V))
    ensures Pairs([g]) == Tag(g.0, g.1)
  {
    assert Pairs([g]) == Tag(g.0, g.1) + Pairs([g][1..]);
  }

  /** The groups `groupby` forms are non-empty and neighbours have
      different verifiers; the last has the last receipt's verifier. */
  lemma {:induction false} RunsShape<V>(ps: seq<(string, V)>)
    ensures forall i :: 0 <= i < |Runs(ps)| ==> |Runs(ps)[i].0| > 0
    ensures forall i :: 0 < i < |Runs(ps)| ==> Runs(ps)[i - 1].1 != Runs(ps)[i].1
    ensures |ps| > 0 ==> |Runs(ps)| > 0 && Runs(ps)[|Runs(ps)| - 1].1 == ps[|ps| - 1].1
    decreases |ps|
  {
    if |ps| > 0 {
      var q := ps[..|ps| - 1];
      assert Runs(ps) == Extend(Runs(q), ps[|ps| - 1]);
      RunsShape(q);
      ExtendShape(Runs(q), ps[|ps| - 1]);
    }
  }

  /** Groups that are non-empty and whose neighbours have different
      verifiers. */
  ghost predicate Shaped<V>(gs: seq<(seq<string>, V)>) {
    (forall i :: 0 <= i < |gs| ==> |gs[i].0| > 0) &&
    (forall i :: 0 < i < |gs| ==> gs[i - 1].1 != gs[i].1)
  }

  lemma ExtendShape<V>(init: seq<(seq<string>, V)>, p: (string, V))
    requires Shaped(init)
    ensures Shaped(Extend(init, p))
    ensures |Extend(init, p)| > 0 && Extend(init, p)[|Extend(init, p)| - 1].1 == p.1
  {
  }

  /** The slices `recsWithVerifiers[i:i + per]` for `i` in
      `range(0, len, per)`. */
  function Slices<T>(xs: seq<T>, per: nat): seq<seq<T>>
    requires per > 0
    decreases |xs|
  {
    if |xs| == 0 then []
    else if |xs| <= per then [xs]
    else [xs[..per]] + Slices(xs[per..], per)
  }

  /** `int(ceil(float(n) / d))` on exact integers. */
  function CeilDiv(n: nat, d: nat): nat
    requires d > 0
  {
    (n + d - 1) / d
  }

  /** The slices hold the sequence in order. */
  lemma {:induction false} SlicesFlatten<T>(xs: seq<T>, per: nat)
    requires per > 0
    ensures Flatten(Slices(xs, per)) == xs
    decreases |xs|
  {
    if |xs| == 0 {
    } else if |xs| <= per {
      assert Flatten([xs]) == xs + Flatten([xs][1..]);
    } else {
      SlicesFlatten(xs[per..], per);
      var rest := Slices(xs[per..], per);
      assert ([xs[..per]] + rest)[1..] == rest;
      assert xs[..per] + xs[per..] == xs;
    }
  }

  /** Each slice is non-empty and at most `per` long, and there are
      `CeilDiv(|xs|, per)` of them. */
  lemma {:induction false} SlicesSizes<T>(xs: seq<T>, per: nat)
    requires per > 0
    ensures forall i :: 0 <= i < |Slices(xs, per)| ==> 0 < |Slices(xs, per)[i]| <= per
    ensures forall i :: 0 <= i < |Slices(xs, per)| - 1 ==> |Slices(xs, per)[i]| == per
    ensures |Slices(xs, per)| == CeilDiv(|xs|, per)
    decreases |xs|
  {
    if |xs| == 0 {
    } else if |xs| <= per {
      CeilDivOne(|xs|, per);
    } else {
      SlicesSizes(xs[per..], per);
      CeilDivStep(|xs|, per);
    }
  }

  lemma CeilDivOne(n: nat, d: nat)
    requires 0 < n <= d
    ensures CeilDiv(n, d) == 1
  {
    DivUnique(n + d - 1, d, 1);
  }

  lemma CeilDivStep(n: nat, d: nat)
    requires 0 < d < n
    ensures CeilDiv(n, d) == 1 + CeilDiv(n - d, d)
  {
    var q := CeilDiv(n - d, d);
    DivBounds(n - 1, d);
    assert q * d <= n - 1 < q * d + d;
    assert (q + 1) * d == q * d + d;
    DivUnique(n + d - 1, d, q + 1);
  }

  lemma DivUnique(a: nat, d: nat, q: nat)
    requires d > 0 && q * d <= a < q * d + d
    ensures a / d == q
  {
    DivBounds(a, d);
    if a / d > q {
      MulMono(q + 1, a / d, d);
    } else if a / d < q {
      MulMono(a / d + 1, q, d);
    }
  }

  /** With `per` the rounded-up share of `nprocs`, there are at most
      `nprocs` slices. */
  lemma CeilShare(n: nat, nprocs: nat)
    requires n > 0 && nprocs > 0
    ensures CeilDiv(n, nprocs) > 0
    ensures CeilDiv(n, CeilDiv(n, nprocs)) <= nprocs
  {
    var q := CeilDiv(n, nprocs);
    DivBounds(n + nprocs - 1, nprocs);
    assert q * nprocs >= n;
    assert q > 0;
    DivBounds(n + q - 1, q);
    var k := CeilDiv(n, q);
    assert k * q <= n + q - 1;
    if k > nprocs {
      MulMono(nprocs + 1, k, q);
    }
  }

  lemma DivBounds(a: nat, d: nat)
    requires d > 0
    ensures (a / d) * d <= a < (a / d) * d + d
  {
  }

  lemma MulMono(a: nat, b: nat, c: nat)
    requires a <= b
    ensures a * c <= b * c
  {
  }

  /** `balanceGroupsWithVerifiers` as written: a float division by zero for
      no processes, `range` with a zero step when there are no receipts,
      otherwise one package per slice, grouped by verifier. */
  function Balance<V(==)>(groups: seq<(seq<string>, V)>, nprocs: nat): Result<seq<seq<(seq<string>, V)>>, Error>
  {
    if nprocs == 0 then Err(ZeroDivisionError)
    else
      var ps := Pairs(groups);
      var per := CeilDiv(|ps|, nprocs);
      if per == 0 then Err(ValueError)
      else
        var subs := Slices(ps, per);
        Ok(seq(|subs|, i requires 0 <= i < |subs| => Runs(subs[i])))
  }

  /** `balanceGroupsWithVerifiers` with the empty case it evidently means:
      no receipts give no packages. */
  function BalanceFixed<V(==)>(groups: seq<(seq<string>, V)>, nprocs: nat): Result<seq<seq<(seq<string>, V)>>, Error>
  {
    if nprocs > 0 && |Pairs(groups)| == 0 then Ok([]) else Balance(groups, nprocs)
  }

  /** As written, groups without any receipt make `range` fail. */
  lemma BalanceNoReceipts<V>(groups: seq<(seq<string>, V)>, nprocs: nat)
    requires nprocs > 0 && |Pairs(groups)| == 0
    ensures Balance(groups, nprocs) == Err(ValueError)
    ensures BalanceFixed(groups, nprocs) == Ok([])
  {
  }

  /** The packages hold every receipt with its verifier in order, number
      at most `nprocs`, and each groups its receipts by verifier into
      non-empty groups whose neighbours differ. The packages are of
      roughly equal size: each holds `ceil(n / nprocs)` of the `n`
      receipts, except the last, which holds at least one and at most
      that many. */
  lemma {:induction false} BalancePackages<V>(groups: seq<(seq<string>, V)>, nprocs: nat)
    requires nprocs > 0
    ensures BalanceFixed(groups, nprocs).Ok?
    ensures var pkgs := BalanceFixed(groups, nprocs).value;
      |pkgs| <= nprocs && PackagePairs(pkgs) == Pairs(groups) &&
      (forall k, i :: 0 <= k < |pkgs| && 0 <= i < |pkgs[k]| ==> |pkgs[k][i].0| > 0) &&
      (forall k, i :: 0 <= k < |pkgs| && 0 < i < |pkgs[k]| ==> pkgs[k][i - 1].1 != pkgs[k][i].1) &&
      (forall k :: 0 <= k < |pkgs| ==> 0 < |Pairs(pkgs[k])| <= CeilDiv(|Pairs(groups)|, nprocs)) &&
      (forall k :: 0 <= k < |pkgs| - 1 ==> |Pairs(pkgs[k])| == CeilDiv(|Pairs(groups)|, nprocs))
  {
    var ps := Pairs(groups);
    if |ps| > 0 {
      CeilShare(|ps|, nprocs);
      var per := CeilDiv(|ps|, nprocs);
      var subs := Slices(ps, per);
      SlicesFlatten(ps, per);
      SlicesSizes(ps, per);
      var pkgs := seq(|subs|, i requires 0 <= i < |subs| => Runs(subs[i]));
      assert BalanceFixed(groups, nprocs) == Ok(pkgs);
      forall k | 0 <= k < |pkgs|
        ensures Pairs(pkgs[k]) == subs[k]
        ensures forall i :: 0 <= i < |pkgs[k]| ==> |pkgs[k][i].0| > 0
        ensures forall i :: 0 < i < |pkgs[k]| ==> pkgs[k][i - 1].1 != pkgs[k][i].1
      {
        RunsPairs(subs[k]);
        RunsShape(subs[k]);
      }
      PackagePairsOf(subs, pkgs);
    }
  }

  lemma {:induction false} PackagePairsOf<V>(subs: seq<seq<(string, V)>>, pkgs: seq<seq<(seq<string>, V)>>)
    requires |pkgs| == |subs|
    requires forall k :: 0 <= k < |pkgs| ==> Pairs(pkgs[k]) == subs[k]
    ensures PackagePairs(pkgs) == Flatten(subs)
    decreases |pkgs|
  {
    if |pkgs| > 0 {
      PackagePairsOf(subs[1..], pkgs[1..]);
    }
  }

  /** `balanceGroupsWithVerifiers`: the slices are packaged one by one. */
  method BalanceGroupsWithVerifiers<V(==)>(groups: seq<(seq<string>, V)>, nprocs: nat)
    returns (r: Result<seq<seq<(seq<string>, V)>>, Error>)
    ensures r == Balance(groups, nprocs)
  {
    if nprocs == 0 {
      return Err(ZeroDivisionError);
    }
    var recsWithVerifiers := Pairs(groups);
    var recsPerProc := CeilDiv(|recsWithVerifiers|, nprocs);
    if recsPerProc == 0 {
      return Err(ValueError);
    }
    var subs := Slices(recsWithVerifiers, recsPerProc);
    var pkgs: seq<seq<(seq<string>, V)>> := [];
    var i := 0;
    while i < |subs|
      invariant 0 <= i <= |subs|
      invariant |pkgs| == i
      invariant forall k :: 0 <= k < i ==> pkgs[k] == Runs(subs[k])
    {
      pkgs := pkgs + [Runs(subs[i])];
      i := i + 1;
    }
    assert pkgs == seq(|subs|, k requires 0 <= k < |subs| => Runs(subs[k]));
    return Ok(pkgs);
  }
}
