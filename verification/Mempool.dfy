/** The mempool object: statuses and transactions changed in place, balances cached until a status changes. */
module Mempool {
  import opened Wrappers
  import opened MempoolSpec

  const OWN_P2PKH: set<Flag> := {OURS, P2PKH}
  const OWN_P2CS: set<Flag> := {OURS, P2CS}
  const OWN: set<Flag> := {OURS}

  /** A cached balance; the source's -1 is no value. */
  type Cache = Option<int>

  /** All that is the wallet's, mature or not, less what is spendable and what is delegated. */
  ghost function Immature(l: Ledger, height: int): int {
    Balance(l, OWN, height, true) - Balance(l, OWN_P2PKH, height, false) - Balance(l, OWN_P2CS, height, false)
  }

  /** The height a balance is computed for; `Undefined` is a missing one, at which nothing is immature. */
  datatype When = At(height: int) | Undefined

  /** The delegated balance. */
  function Cold(l: Ledger, when: When): int {
    match when
    case At(height) => Balance(l, OWN_P2CS, height, false)
    case Undefined => Balance(l, OWN_P2CS, 0, true)
  }

  /** A cache is used as it is, or filled. */
  function Filled(cache: Cache, computed: int): int {
    if cache.Some? then cache.value else computed
  }

  datatype Utxo = Utxo(outpoint: Outpoint, script: string, value: int)

  function Sum(utxos: seq<Utxo>): int {
    if utxos == [] then 0 else Sum(utxos[..|utxos| - 1]) + utxos[|utxos| - 1].value
  }

  lemma SumSnoc(utxos: seq<Utxo>, u: Utxo)
    ensures Sum(utxos + [u]) == Sum(utxos) + u.value
  {
    assert (utxos + [u])[..|utxos|] == utxos;
  }

  /** The output is one of the kept transactions', neither spent nor locked, with the flags required, and mature if it has to be. */
  ghost predicate Spendable(l: Ledger, u: Utxo, requirement: set<Flag>, height: int, immature: bool) {
    && SPENT !in StatusAt(l.status, u.outpoint) && LOCKED !in StatusAt(l.status, u.outpoint)
    && requirement <= StatusAt(l.status, u.outpoint)
    && exists t :: t in l.txs && u.outpoint.txid == t.txid && u.outpoint.n < |t.vout|
                && t.vout[u.outpoint.n] == TxOut(u.script, u.value)
                && (immature || t.maturity == None || height >= t.blockHeight + t.maturity.value)
  }

  predicate Different(utxos: seq<Utxo>) {
    forall i, j :: 0 <= i < j < |utxos| ==> utxos[i].outpoint != utxos[j].outpoint
  }

  lemma DifferentSnoc(utxos: seq<Utxo>, u: Utxo)
    requires Different(utxos) && forall v :: v in utxos ==> v.outpoint != u.outpoint
    ensures Different(utxos + [u])
  {
  }

  lemma OutputSpendable(l: Ledger, t: Tx, i: nat, requirement: set<Flag>, height: int, immature: bool)
    requires t in l.txs && i < |t.vout|
    requires Counts(l.status, Outpoint(t.txid, i), requirement) && (immature || !IsImmature(t, height))
    ensures Spendable(l, Utxo(Outpoint(t.txid, i), t.vout[i].script, t.vout[i].value), requirement, height, immature)
  {
    assert t.vout[i] == TxOut(t.vout[i].script, t.vout[i].value);
  }

  /** Every output found is one of these transactions'. */
  predicate Among(utxos: seq<Utxo>, txs: seq<Tx>) {
    forall u :: u in utxos ==> exists t :: t in txs && t.txid == u.outpoint.txid
  }

  lemma NotAmong(utxos: seq<Utxo>, txs: seq<Tx>, i: nat)
    requires i < |txs| && UniqueIds(txs) && Among(utxos, txs[..i])
    ensures forall u :: u in utxos ==> u.outpoint.txid != txs[i].txid
  {
  }

  lemma AmongMore(found: seq<Utxo>, utxos: seq<Utxo>, txs: seq<Tx>, i: nat)
    requires i < |txs| && Among(found, txs[..i])
    requires forall u :: u in utxos ==> u in found || u.outpoint.txid == txs[i].txid
    ensures Among(utxos, txs[..i + 1])
  {
    forall u | u in utxos ensures exists t :: t in txs[..i + 1] && t.txid == u.outpoint.txid {
      if u in found {
        var t :| t in txs[..i] && t.txid == u.outpoint.txid;
        assert t in txs[..i + 1];
      } else {
        assert txs[..i + 1][i] == txs[i];
      }
    }
  }

  /** Enough has been found: a tenth more than the target. */
  predicate Reached(target: Option<int>, bal: int) {
    target.Some? && bal * 10 >= target.value * 11 && bal > 0
  }

  /** None is taken when those before it were enough. */
  predicate NoneSpare(target: Option<int>, utxos: seq<Utxo>) {
    forall k :: 0 <= k < |utxos| && target.Some? ==> Sum(utxos[..k]) <= 0 || 10 * Sum(utxos[..k]) < 11 * target.value
  }

  lemma SpareSnoc(target: Option<int>, utxos: seq<Utxo>, u: Utxo)
    requires NoneSpare(target, utxos) && !Reached(target, Sum(utxos))
    ensures NoneSpare(target, utxos + [u])
  {
    forall k | 0 <= k < |utxos + [u]| && target.Some?
      ensures Sum((utxos + [u])[..k]) <= 0 || 10 * Sum((utxos + [u])[..k]) < 11 * target.value
    {
      assert (utxos + [u])[..k] == utxos[..k];
      assert utxos[..|utxos|] == utxos;
    }
  }

  lemma SpendableFree(l: Ledger, u: Utxo, requirement: set<Flag>, height: int, immature: bool)
    requires Spendable(l, u, requirement, height, immature)
    ensures SPENT !in StatusAt(l.status, u.outpoint) && LOCKED !in StatusAt(l.status, u.outpoint)
  {
  }

  predicate Owns(t: Tx, classify: string -> set<Flag>) {
    exists k :: 0 <= k < |t.vout| && OURS in classify(t.vout[k].script)
  }

  class Pool {
    var status: StatusMap
    var txs: seq<Tx>
    var balance: Cache
    var coldBalance: Cache
    var immatureBalance: Cache
    /** No change of a status drops this one. */
    var immatureColdBalance: Cache

    ghost function Ledger(): Ledger
      reads this
    {
      MempoolSpec.Ledger(status, txs)
    }

    /** Every cached balance is what a fresh computation at this height would give. */
    ghost predicate Agrees(height: int)
      reads this
    {
      && (balance.Some? ==> balance.value == Balance(Ledger(), OWN_P2PKH, height, false))
      && (coldBalance.Some? ==> coldBalance.value == Balance(Ledger(), OWN_P2CS, height, false))
      && (immatureBalance.Some? ==> immatureBalance.value == Immature(Ledger(), height))
    }

    ghost predicate NothingCached()
      reads this
    {
      balance == None && coldBalance == None && immatureBalance == None
    }

    constructor ()
      ensures Ledger() == ProcessAll([], _ => {}) && NothingCached() && immatureColdBalance == None
    {
      status, txs := map[], [];
      balance, coldBalance, immatureBalance, immatureColdBalance := None, None, None, None;
    }

    method InvalidateBalanceCache()
      modifies this`balance, this`coldBalance, this`immatureBalance
      ensures NothingCached()
    {
      balance, coldBalance, immatureBalance := None, None, None;
    }

    method SetOutpointStatus(o: Outpoint, flags: set<Flag>)
      modifies this`status, this`balance, this`coldBalance, this`immatureBalance
      ensures status == old(status)[o := flags] && NothingCached()
    {
      status := status[o := flags];
      InvalidateBalanceCache();
    }

    method AddOutpointStatus(o: Outpoint, flags: set<Flag>)
      modifies this`status, this`balance, this`coldBalance, this`immatureBalance
      ensures status == AddFlags(old(status), o, flags) && NothingCached()
    {
      var oldStatus := if o in status then status[o] else {};
      status := status[o := oldStatus + flags];
      InvalidateBalanceCache();
    }

    method RemoveOutpointStatus(o: Outpoint, flags: set<Flag>)
      modifies this`status, this`balance, this`coldBalance, this`immatureBalance
      ensures status == old(status)[o := StatusAt(old(status), o) - flags] && NothingCached()
    {
      var oldStatus := if o in status then status[o] else {};
      status := status[o := oldStatus - flags];
      InvalidateBalanceCache();
    }

    /** `addTransaction`: the caches are dropped when there is an input to mark. */
    method AddTransaction(t: Tx)
      modifies this`status, this`txs, this`balance, this`coldBalance, this`immatureBalance
      ensures status == MarkSpent(old(status), t.vin) && txs == Put(old(txs), t)
      ensures t.vin != [] ==> NothingCached()
      ensures t.vin == [] ==> balance == old(balance) && coldBalance == old(coldBalance) && immatureBalance == old(immatureBalance)
    {
      txs := Put(txs, t);
      for i := 0 to |t.vin|
        invariant status == MarkSpent(old(status), t.vin[..i]) && txs == Put(old(txs), t)
        invariant i > 0 ==> NothingCached()
        invariant i == 0 ==> balance == old(balance) && coldBalance == old(coldBalance) && immatureBalance == old(immatureBalance)
      {
        assert t.vin[..i + 1][..i] == t.vin[..i];
        AddOutpointStatus(t.vin[i], {SPENT});
      }
      assert t.vin[..|t.vin|] == t.vin;
    }

    /** The wallet's `addTransaction`: the pool's, then the flags of the outputs that are its own. */
    method Process(t: Tx, classify: string -> set<Flag>)
      modifies this`status, this`txs, this`balance, this`coldBalance, this`immatureBalance
      ensures Ledger() == MempoolSpec.Process(old(Ledger()), t, classify)
      ensures t.vin != [] || Owns(t, classify) ==> NothingCached()
      ensures t.vin == [] && !Owns(t, classify) ==>
        balance == old(balance) && coldBalance == old(coldBalance) && immatureBalance == old(immatureBalance)
    {
      AddTransaction(t);
      ghost var spent := status;
      for i := 0 to |t.vout|
        invariant status == MarkOwn(spent, t, classify, i) && txs == Put(old(txs), t)
        invariant t.vin != [] || (exists k :: 0 <= k < i && OURS in classify(t.vout[k].script)) ==> NothingCached()
        invariant t.vin == [] && !Owns(t, classify) ==>
          balance == old(balance) && coldBalance == old(coldBalance) && immatureBalance == old(immatureBalance)
      {
        var flags := classify(t.vout[i].script);
        if OURS in flags {
          AddOutpointStatus(Outpoint(t.txid, i), flags);
        }
      }
    }

    /** What of a transaction's outputs counts, output by output. */
    method OutputsBalance(t: Tx, requirement: set<Flag>, height: int, immature: bool) returns (sum: int)
      ensures sum == Contribution(status, t, requirement, height, immature, |t.vout|)
    {
      sum := 0;
      for i := 0 to |t.vout|
        invariant sum == Contribution(status, t, requirement, height, immature, i)
      {
        var s := if Outpoint(t.txid, i) in status then status[Outpoint(t.txid, i)] else {};
        if SPENT !in s && LOCKED !in s && requirement <= s && (immature || !IsImmature(t, height)) {
          sum := sum + t.vout[i].value;
        }
      }
    }

    /** `#balanceInternal`. */
    method BalanceInternal(requirement: set<Flag>, height: int, immature: bool) returns (sum: int)
      ensures sum == Balance(Ledger(), requirement, height, immature)
    {
      hide Contribution;
      sum := 0;
      for i := 0 to |txs|
        invariant sum == Balance(MempoolSpec.Ledger(status, txs[..i]), requirement, height, immature)
      {
        assert txs[..i + 1][..i] == txs[..i];
        var part := OutputsBalance(txs[i], requirement, height, immature);
        sum := sum + part;
      }
      assert txs[..|txs|] == txs;
    }

    /** The cached balance whatever the height; if there is none, that of this height, which is cached. */
    method GetBalance(height: int) returns (value: int)
      modifies this`balance
      ensures balance == Some(value) && value == Filled(old(balance), Balance(Ledger(), {OURS, P2PKH}, height, false))
      ensures old(Agrees(height)) ==> Agrees(height) && value == Balance(Ledger(), OWN_P2PKH, height, false)
    {
      hide Balance;
      if balance.None? {
        var computed := BalanceInternal(OWN_P2PKH, height, false);
        balance := Some(computed);
      }
      value := balance.value;
    }

    method GetColdBalance(when: When) returns (value: int)
      modifies this`coldBalance
      ensures coldBalance == Some(value) && value == Filled(old(coldBalance), Cold(Ledger(), when))
      ensures old(coldBalance).None? && when.At? ==> value == Balance(Ledger(), {OURS, P2CS}, when.height, false)
      ensures when.At? && old(Agrees(when.height)) ==> Agrees(when.height) && value == Cold(Ledger(), when)
    {
      hide Balance;
      if coldBalance.None? {
        var computed := BalanceInternal(OWN_P2CS, if when.At? then when.height else 0, when.Undefined?);
        coldBalance := Some(computed);
      }
      value := coldBalance.value;
    }

    /** Computed from the two other balances as they are cached, each perhaps for another height. */
    method GetImmatureBalance(height: int) returns (value: int)
      modifies this`balance, this`coldBalance, this`immatureBalance
      ensures immatureBalance == Some(value)
      ensures old(immatureBalance).Some? ==> immatureBalance == old(immatureBalance) && balance == old(balance) && coldBalance == old(coldBalance)
      ensures old(immatureBalance).None? ==>
        && balance == Some(Filled(old(balance), Balance(Ledger(), OWN_P2PKH, height, false)))
        && coldBalance == Some(Filled(old(coldBalance), Cold(Ledger(), At(height))))
        && value == Balance(Ledger(), {OURS}, height, true) - balance.value - coldBalance.value
      ensures old(Agrees(height)) ==> Agrees(height) && value == Immature(Ledger(), height)
    {
      hide Balance;
      if immatureBalance.None? {
        var all := BalanceInternal(OWN, height, true);
        var mature := GetBalance(height);
        var cold := GetColdBalance(At(height));
        immatureBalance := Some(all - mature - cold);
      }
      value := immatureBalance.value;
    }

    /** Computed once and for all, less a delegated balance that is asked for without a height. */
    method GetImmatureColdBalance(height: int) returns (value: int)
      modifies this`coldBalance, this`immatureColdBalance
      ensures immatureColdBalance == Some(value)
      ensures old(immatureColdBalance).Some? ==> immatureColdBalance == old(immatureColdBalance) && coldBalance == old(coldBalance)
      ensures old(immatureColdBalance).None? ==>
        && coldBalance == Some(Filled(old(coldBalance), Cold(Ledger(), Undefined)))
        && value == Balance(Ledger(), {OURS, P2CS}, height, true) - coldBalance.value
    {
      hide Balance;
      if immatureColdBalance.None? {
        var all := BalanceInternal(OWN_P2CS, height, true);
        var cold := GetColdBalance(Undefined);
        immatureColdBalance := Some(all - cold);
      }
      value := immatureColdBalance.value;
    }

    /** The part of `getUTXOs` for one transaction. */
    method TakeOutputs(t: Tx, requirement: set<Flag>, height: int, immature: bool, target: Option<int>, found: seq<Utxo>)
      returns (utxos: seq<Utxo>)
      requires t in txs
      requires forall u :: u in found ==> Spendable(Ledger(), u, requirement, height, immature)
      requires Different(found) && forall u :: u in found ==> u.outpoint.txid != t.txid
      requires NoneSpare(target, found)
      ensures Different(utxos) && forall u :: u in utxos ==> u in found || u.outpoint.txid == t.txid
      ensures forall u :: u in utxos ==> Spendable(Ledger(), u, requirement, height, immature)
      ensures NoneSpare(target, utxos)
      ensures if Reached(target, Sum(found)) then utxos == found
              else Reached(target, Sum(utxos)) || Sum(utxos) == Sum(found) + Contribution(status, t, requirement, height, immature, |t.vout|)
    {
      hide Spendable, Different, Reached, Sum, NoneSpare;
      utxos := found;
      for i := 0 to |t.vout|
        invariant Different(utxos) && NoneSpare(target, utxos)
        invariant forall u :: u in utxos ==> u in found || (u.outpoint.txid == t.txid && u.outpoint.n < i)
        invariant forall u :: u in utxos ==> Spendable(Ledger(), u, requirement, height, immature)
        invariant if Reached(target, Sum(found)) then utxos == found
                  else Reached(target, Sum(utxos)) || Sum(utxos) == Sum(found) + Contribution(status, t, requirement, height, immature, i)
      {
        var o := Outpoint(t.txid, i);
        var s := if o in status then status[o] else {};
        if SPENT !in s && LOCKED !in s && requirement <= s && (immature || !IsImmature(t, height)) {
          var bal := Sum(utxos);
          if !Reached(target, bal) {
            var u := Utxo(o, t.vout[i].script, t.vout[i].value);
            SumSnoc(utxos, u);
            DifferentSnoc(utxos, u);
            SpareSnoc(target, utxos, u);
            OutputSpendable(Ledger(), t, i, requirement, height, immature);
            utxos := utxos + [u];
          }
        }
      }
    }

    /**
     `getUTXOs`: without a target, the outputs behind the balance; with one, enough of
     them for a tenth more, or all. Every one is free, flagged as required and mature,
     and none is taken once there is enough.
     */
    method GetUTXOs(requirement: set<Flag>, height: int, immature: bool, target: Option<int>) returns (utxos: seq<Utxo>)
      requires UniqueIds(txs)
      ensures Different(utxos)
      ensures forall u :: u in utxos ==> Spendable(Ledger(), u, requirement, height, immature)
      ensures forall u :: u in utxos ==> SPENT !in StatusAt(status, u.outpoint) && LOCKED !in StatusAt(status, u.outpoint)
      ensures target == None || 10 * Sum(utxos) < 11 * target.value || Sum(utxos) <= 0 ==>
        Sum(utxos) == Balance(Ledger(), requirement, height, immature)
      ensures NoneSpare(target, utxos)
    {
      utxos := [];
      assert Different(utxos) && Among(utxos, []) && Sum(utxos) == 0;
      hide Contribution, Spendable, Different, Among, Sum, UniqueIds, NoneSpare;
      for i := 0 to |txs|
        invariant Different(utxos) && Among(utxos, txs[..i]) && NoneSpare(target, utxos)
        invariant forall u :: u in utxos ==> Spendable(Ledger(), u, requirement, height, immature)
        invariant Reached(target, Sum(utxos)) || Sum(utxos) == Balance(MempoolSpec.Ledger(status, txs[..i]), requirement, height, immature)
      {
        assert txs[..i + 1][..i] == txs[..i];
        NotAmong(utxos, txs, i);
        ghost var found := utxos;
        utxos := TakeOutputs(txs[i], requirement, height, immature, target, utxos);
        AmongMore(found, utxos, txs, i);
      }
      assert txs[..|txs|] == txs;
      forall u | u in utxos ensures SPENT !in StatusAt(status, u.outpoint) && LOCKED !in StatusAt(status, u.outpoint) {
        SpendableFree(Ledger(), u, requirement, height, immature);
      }
    }
  }

  // ---------------------------------------------------------------- transactions without inputs

  /** What the transaction that `t` would replace adds to a balance. */
  function Replaced(m: StatusMap, txs: seq<Tx>, t: Tx, requirement: set<Flag>, height: int, immature: bool): int {
    if txs == [] then 0
    else if txs[0].txid == t.txid then Contribution(m, txs[0], requirement, height, immature, |txs[0].vout|)
    else Replaced(m, txs[1..], t, requirement, height, immature)
  }

  lemma {:induction false} PutBalance(l: Ledger, t: Tx, requirement: set<Flag>, height: int, immature: bool)
    ensures Balance(l.(txs := Put(l.txs, t)), requirement, height, immature) ==
            Balance(l, requirement, height, immature) - Replaced(l.status, l.txs, t, requirement, height, immature)
            + Contribution(l.status, t, requirement, height, immature, |t.vout|)
    decreases |l.txs|
  {
    hide Contribution, Balance;
    var after := l.(txs := Put(l.txs, t));
    FirstOut(after, requirement, height, immature);
    if l.txs == [] {
      NoBalance(after.(txs := []), requirement, height, immature);
    } else {
      FirstOut(l, requirement, height, immature);
      assert after.txs[1..] == if l.txs[0].txid == t.txid then l.txs[1..] else Put(l.txs[1..], t);
      if l.txs[0].txid != t.txid {
        PutBalance(l.(txs := l.txs[1..]), t, requirement, height, immature);
      }
    }
  }

  lemma NoBalance(l: Ledger, requirement: set<Flag>, height: int, immature: bool)
    requires l.txs == []
    ensures Balance(l, requirement, height, immature) == 0
  {
  }

  lemma FirstOut(l: Ledger, requirement: set<Flag>, height: int, immature: bool)
    requires l.txs != []
    ensures Balance(l, requirement, height, immature) ==
            Balance(l.(txs := l.txs[1..]), requirement, height, immature)
            + Contribution(l.status, l.txs[0], requirement, height, immature, |l.txs[0].vout|)
  {
    hide Contribution, Balance;
    TakeOut(l, 0, requirement, height, immature);
    assert l.txs[..0] + l.txs[1..] == l.txs[1..];
  }

  /**
   A transaction without inputs does not drop the caches. A cached balance is
   then still right exactly when the new transaction's outputs count for what
   those of the one it replaces did.
   */
  lemma CachedWithoutInputs(l: Ledger, t: Tx, cached: int, requirement: set<Flag>, height: int, immature: bool)
    requires cached == Balance(l, requirement, height, immature)
    ensures cached == Balance(l.(txs := Put(l.txs, t)), requirement, height, immature) <==>
            Contribution(l.status, t, requirement, height, immature, |t.vout|) == Replaced(l.status, l.txs, t, requirement, height, immature)
  {
    hide Balance, Contribution, Replaced, Put;
    PutBalance(l, t, requirement, height, immature);
  }

  /** It can go wrong: an output flagged before its input-less transaction arrives is missed by the cache. */
  lemma InputlessCanGoStale()
    ensures var l := Ledger(map[Outpoint("a", 0) := OWN_P2PKH], []);
            var t := Tx("a", [], [TxOut("", 5)], None, 0);
            Balance(l, OWN_P2PKH, 0, false) == 0 && Balance(l.(txs := Put(l.txs, t)), OWN_P2PKH, 0, false) == 5
  {
    var l := Ledger(map[Outpoint("a", 0) := OWN_P2PKH], []);
    var t := Tx("a", [], [TxOut("", 5)], None, 0);
    PutBalance(l, t, OWN_P2PKH, 0, false);
    assert Counts(l.status, Outpoint("a", 0), OWN_P2PKH);
    assert Contribution(l.status, t, OWN_P2PKH, 0, false, 1) == Contribution(l.status, t, OWN_P2PKH, 0, false, 0) + 5;
  }

  /** None of the transaction's outputs is flagged as the wallet's own. */
  ghost predicate Unflagged(m: StatusMap, t: Tx) {
    forall k :: 0 <= k < |t.vout| ==> OURS !in StatusAt(m, Outpoint(t.txid, k))
  }

  lemma {:induction false} UnflaggedNotCounted(m: StatusMap, t: Tx, requirement: set<Flag>, height: int, immature: bool, count: nat)
    requires Unflagged(m, t) && OURS in requirement && count <= |t.vout|
    ensures Contribution(m, t, requirement, height, immature, count) == 0
  {
    if count == 0 {
    } else {
      UnflaggedNotCounted(m, t, requirement, height, immature, count - 1);
    }
  }

  lemma {:induction false} UnflaggedNotReplaced(m: StatusMap, txs: seq<Tx>, t: Tx, requirement: set<Flag>, height: int, immature: bool)
    requires OURS in requirement && forall u :: u in txs && u.txid == t.txid ==> Unflagged(m, u)
    ensures Replaced(m, txs, t, requirement, height, immature) == 0
  {
    hide Contribution;
    if txs == [] {
    } else if txs[0].txid == t.txid {
      UnflaggedNotCounted(m, txs[0], requirement, height, immature, |txs[0].vout|);
    } else {
      UnflaggedNotReplaced(m, txs[1..], t, requirement, height, immature);
    }
  }

  /** Processing a transaction without inputs or own outputs changes no balance, where no output of that id was flagged before. */
  lemma KeptBalance(l: Ledger, t: Tx, classify: string -> set<Flag>, requirement: set<Flag>, height: int, immature: bool)
    requires OURS in requirement && t.vin == [] && !Owns(t, classify) && Unflagged(l.status, t)
    requires forall u :: u in l.txs && u.txid == t.txid ==> Unflagged(l.status, u)
    ensures Balance(Process(l, t, classify), requirement, height, immature) == Balance(l, requirement, height, immature)
  {
    hide Balance, Contribution, Replaced, Put;
    var marked := Process(l, t, classify);
    assert forall o :: StatusAt(marked.status, o) == StatusAt(l.status, o);
    UnflaggedNotCounted(marked.status, t, requirement, height, immature, |t.vout|);
    PutBalance(Ledger(marked.status, l.txs), t, requirement, height, immature);
    SameBalance(l, marked.status, requirement, height, immature);
    UnflaggedNotReplaced(marked.status, l.txs, t, requirement, height, immature);
  }

  lemma {:induction false} SameBalance(l: Ledger, m: StatusMap, requirement: set<Flag>, height: int, immature: bool)
    requires forall o :: StatusAt(m, o) == StatusAt(l.status, o)
    ensures Balance(l.(status := m), requirement, height, immature) == Balance(l, requirement, height, immature)
    decreases |l.txs|
  {
    hide Contribution, StatusAt;
    if l.txs == [] {
    } else {
      var t := l.txs[|l.txs| - 1];
      SameBalance(l.(txs := l.txs[..|l.txs| - 1]), m, requirement, height, immature);
      SameContribution(l.status, m, t, requirement, height, immature, |t.vout|);
    }
  }
}
