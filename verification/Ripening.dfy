/** How a balance depends on the chain height: coinbase and coinstake outputs count once they are mature. */
module Ripening {
  import opened MempoolSpec

  /** What the outputs of a transaction count for once it is mature. */
  function Worth(m: StatusMap, t: Tx, requirement: set<Flag>): int {
    Contribution(m, t, requirement, 0, true, |t.vout|)
  }

  predicate Ripe(t: Tx, before: int, after: int) {
    IsImmature(t, before) && !IsImmature(t, after)
  }

  /** The worth of the transactions that are immature at the one height and mature at the other. */
  function Ripens(l: Ledger, requirement: set<Flag>, before: int, after: int): int
    decreases |l.txs|
  {
    if l.txs == [] then 0
    else
      var t := l.txs[|l.txs| - 1];
      Ripens(l.(txs := l.txs[..|l.txs| - 1]), requirement, before, after)
      + (if Ripe(t, before, after) then Worth(l.status, t, requirement) else 0)
  }

  /** What a balance gains from one height to another, which may be the lower one. */
  function Gain(l: Ledger, requirement: set<Flag>, before: int, after: int): int {
    Ripens(l, requirement, before, after) - Ripens(l, requirement, after, before)
  }

  lemma {:induction false} MatureWorth(m: StatusMap, t: Tx, requirement: set<Flag>, height: int, immature: bool, count: nat)
    requires count <= |t.vout|
    ensures Contribution(m, t, requirement, height, immature, count) ==
            if immature || !IsImmature(t, height) then Contribution(m, t, requirement, 0, true, count) else 0
  {
    if count == 0 {
    } else {
      MatureWorth(m, t, requirement, height, immature, count - 1);
    }
  }

  /** A balance at one height is that at another and what has ripened between. */
  lemma {:induction false} BalanceMoves(l: Ledger, requirement: set<Flag>, before: int, after: int)
    ensures Balance(l, requirement, after, false) == Balance(l, requirement, before, false) + Gain(l, requirement, before, after)
    decreases |l.txs|
  {
    hide Contribution;
    if l.txs == [] {
    } else {
      var t := l.txs[|l.txs| - 1];
      BalanceMoves(l.(txs := l.txs[..|l.txs| - 1]), requirement, before, after);
      MatureWorth(l.status, t, requirement, before, false, |t.vout|);
      MatureWorth(l.status, t, requirement, after, false, |t.vout|);
    }
  }

  /** With immature outputs counted the height does not matter. */
  lemma {:induction false} AnyHeight(l: Ledger, requirement: set<Flag>, a: int, b: int)
    ensures Balance(l, requirement, a, true) == Balance(l, requirement, b, true)
    decreases |l.txs|
  {
    hide Contribution;
    if l.txs == [] {
    } else {
      var t := l.txs[|l.txs| - 1];
      AnyHeight(l.(txs := l.txs[..|l.txs| - 1]), requirement, a, b);
      MatureWorth(l.status, t, requirement, a, true, |t.vout|);
      MatureWorth(l.status, t, requirement, b, true, |t.vout|);
    }
  }

  /** What is still immature at a height. */
  function Unripe(l: Ledger, requirement: set<Flag>, height: int): int
    decreases |l.txs|
  {
    if l.txs == [] then 0
    else
      var t := l.txs[|l.txs| - 1];
      Unripe(l.(txs := l.txs[..|l.txs| - 1]), requirement, height)
      + (if IsImmature(t, height) then Worth(l.status, t, requirement) else 0)
  }

  lemma {:induction false} UnripeRest(l: Ledger, requirement: set<Flag>, height: int)
    ensures Balance(l, requirement, height, true) == Balance(l, requirement, height, false) + Unripe(l, requirement, height)
    decreases |l.txs|
  {
    hide Contribution;
    if l.txs == [] {
    } else {
      var t := l.txs[|l.txs| - 1];
      UnripeRest(l.(txs := l.txs[..|l.txs| - 1]), requirement, height);
      MatureWorth(l.status, t, requirement, height, true, |t.vout|);
      MatureWorth(l.status, t, requirement, height, false, |t.vout|);
    }
  }

  // ---------------------------------------------------------------- amounts

  predicate NoDebts(txs: seq<Tx>) {
    forall t, k :: t in txs && 0 <= k < |t.vout| ==> t.vout[k].value >= 0
  }

  /** An output that counts and is worth something is immature at the one height and mature at the other. */
  predicate SomethingRipens(l: Ledger, requirement: set<Flag>, before: int, after: int) {
    exists t :: t in l.txs && Ripe(t, before, after) && HasWorth(l.status, t, requirement)
  }

  predicate HasWorth(m: StatusMap, t: Tx, requirement: set<Flag>) {
    exists k :: 0 <= k < |t.vout| && t.vout[k].value > 0 && Counts(m, Outpoint(t.txid, k), requirement)
  }

  lemma {:induction false} WorthPositive(m: StatusMap, t: Tx, requirement: set<Flag>, count: nat)
    requires count <= |t.vout| && forall k :: 0 <= k < |t.vout| ==> t.vout[k].value >= 0
    ensures var worth := Contribution(m, t, requirement, 0, true, count);
            && worth >= 0
            && (worth > 0 <==> exists k :: 0 <= k < count && t.vout[k].value > 0 && Counts(m, Outpoint(t.txid, k), requirement))
  {
    if count == 0 {
    } else {
      WorthPositive(m, t, requirement, count - 1);
    }
  }

  /** Without negative amounts something ripens exactly when the balance gains by it. */
  lemma {:induction false} RipensPositive(l: Ledger, requirement: set<Flag>, before: int, after: int)
    requires NoDebts(l.txs)
    ensures Ripens(l, requirement, before, after) >= 0
    ensures Ripens(l, requirement, before, after) > 0 <==> SomethingRipens(l, requirement, before, after)
    decreases |l.txs|
  {
    hide Contribution, HasWorth, Ripe;
    if l.txs == [] {
    } else {
      var last := |l.txs| - 1;
      var t, rest := l.txs[last], l.(txs := l.txs[..last]);
      assert l.txs == rest.txs + [t];
      RipensPositive(rest, requirement, before, after);
      WorthPositive(l.status, t, requirement, |t.vout|);
      RipensSnoc(rest, t, requirement, before, after);
      WorthSome(l.status, t, requirement);
    }
  }

  lemma WorthSome(m: StatusMap, t: Tx, requirement: set<Flag>)
    requires forall k :: 0 <= k < |t.vout| ==> t.vout[k].value >= 0
    ensures Worth(m, t, requirement) > 0 <==> HasWorth(m, t, requirement)
  {
    WorthPositive(m, t, requirement, |t.vout|);
  }

  lemma RipensSnoc(l: Ledger, t: Tx, requirement: set<Flag>, before: int, after: int)
    ensures SomethingRipens(l.(txs := l.txs + [t]), requirement, before, after) <==>
            SomethingRipens(l, requirement, before, after) || (Ripe(t, before, after) && HasWorth(l.status, t, requirement))
  {
    hide HasWorth, Ripe;
    var more := l.txs + [t];
    assert forall u :: u in more <==> u in l.txs || u == t;
    assert t in more;
  }

  /** Nothing ripens backwards. */
  lemma {:induction false} NothingUnripens(l: Ledger, requirement: set<Flag>, before: int, after: int)
    requires before <= after
    ensures Ripens(l, requirement, after, before) == 0
    decreases |l.txs|
  {
    hide Contribution;
    if l.txs == [] {
    } else {
      NothingUnripens(l.(txs := l.txs[..|l.txs| - 1]), requirement, before, after);
    }
  }
}
