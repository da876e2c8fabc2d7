/**
 What the mempool's balances mean: each is the value of the wallet's mature outputs
 that no transaction spends, and a transaction, a lock or an unlock moves it by
 exactly what it touches.
 */
module MempoolMeaning {
  import opened Wrappers
  import opened MempoolSpec
  import opened Mempool

  // ---------------------------------------------------------------- one status changes

  /** The value of an output to a balance, by its flags and its transaction's age. */
  function Value(s: set<Flag>, t: Tx, n: nat, requirement: set<Flag>, height: int, immature: bool): int
    requires n < |t.vout|
  {
    if SPENT in s || LOCKED in s || !(requirement <= s) then 0
    else if !immature && t.maturity.Some? && height < t.blockHeight + t.maturity.value then 0
    else t.vout[n].value
  }

  /** The value of an outpoint, with these flags, to a balance over these transactions. */
  function Worth(s: set<Flag>, txs: seq<Tx>, o: Outpoint, requirement: set<Flag>, height: int, immature: bool): int {
    if txs == [] then 0
    else
      var t := txs[|txs| - 1];
      Worth(s, txs[..|txs| - 1], o, requirement, height, immature)
      + (if t.txid == o.txid && o.n < |t.vout| then Value(s, t, o.n, requirement, height, immature) else 0)
  }

  /** The two status maps differ at one outpoint at most. */
  ghost predicate SameElsewhere(m: StatusMap, n: StatusMap, o: Outpoint) {
    forall p :: p != o ==> StatusAt(m, p) == StatusAt(n, p)
  }

  lemma SameAt(m: StatusMap, n: StatusMap, o: Outpoint, p: Outpoint)
    requires SameElsewhere(m, n, o) && p != o
    ensures StatusAt(m, p) == StatusAt(n, p)
  {
  }

  lemma {:induction false} ContributionFlips(m: StatusMap, n: StatusMap, o: Outpoint, t: Tx, requirement: set<Flag>, height: int, immature: bool, count: nat)
    requires count <= |t.vout| && SameElsewhere(m, n, o)
    ensures Contribution(n, t, requirement, height, immature, count) - Contribution(m, t, requirement, height, immature, count) ==
            if t.txid == o.txid && o.n < count
            then Value(StatusAt(n, o), t, o.n, requirement, height, immature) - Value(StatusAt(m, o), t, o.n, requirement, height, immature)
            else 0
  {
    hide StatusAt, SameElsewhere;
    if count == 0 {
    } else {
      ContributionFlips(m, n, o, t, requirement, height, immature, count - 1);
      var p := Outpoint(t.txid, count - 1);
      if p != o {
        SameAt(m, n, o, p);
      }
    }
  }

  /** Changing the status of one outpoint moves a balance by the change of that outpoint's value. */
  lemma {:induction false} BalanceFlips(txs: seq<Tx>, m: StatusMap, n: StatusMap, o: Outpoint, requirement: set<Flag>, height: int, immature: bool)
    requires SameElsewhere(m, n, o)
    ensures Balance(Ledger(n, txs), requirement, height, immature) - Balance(Ledger(m, txs), requirement, height, immature) ==
            Worth(StatusAt(n, o), txs, o, requirement, height, immature) - Worth(StatusAt(m, o), txs, o, requirement, height, immature)
    decreases |txs|
  {
    hide StatusAt, SameElsewhere, Contribution, Value;
    if txs == [] {
    } else {
      var last := |txs| - 1;
      BalanceFlips(txs[..last], m, n, o, requirement, height, immature);
      ContributionFlips(m, n, o, txs[last], requirement, height, immature, |txs[last].vout|);
    }
  }

  /** A spent or locked output is worth nothing. */
  lemma {:induction false} HeldWorthless(s: set<Flag>, txs: seq<Tx>, o: Outpoint, requirement: set<Flag>, height: int, immature: bool)
    requires SPENT in s || LOCKED in s
    ensures Worth(s, txs, o, requirement, height, immature) == 0
  {
    if txs == [] {
    } else {
      HeldWorthless(s, txs[..|txs| - 1], o, requirement, height, immature);
    }
  }

  lemma {:induction false} ForeignWorthless(s: set<Flag>, txs: seq<Tx>, o: Outpoint, requirement: set<Flag>, height: int, immature: bool)
    requires forall t :: t in txs ==> t.txid != o.txid
    ensures Worth(s, txs, o, requirement, height, immature) == 0
  {
    if txs == [] {
    } else {
      ForeignWorthless(s, txs[..|txs| - 1], o, requirement, height, immature);
    }
  }

  /** An output of a kept transaction is worth its value if it is free, flagged as required and mature. */
  lemma {:induction false} WorthIs(s: set<Flag>, txs: seq<Tx>, i: nat, n: nat, requirement: set<Flag>, height: int, immature: bool)
    requires UniqueIds(txs) && i < |txs| && n < |txs[i].vout|
    ensures Worth(s, txs, Outpoint(txs[i].txid, n), requirement, height, immature) == Value(s, txs[i], n, requirement, height, immature)
  {
    hide Value;
    var last := |txs| - 1;
    if i == last {
      ForeignWorthless(s, txs[..last], Outpoint(txs[i].txid, n), requirement, height, immature);
    } else {
      WorthIs(s, txs[..last], i, n, requirement, height, immature);
    }
  }

  /** Locking an outpoint lowers a balance by what it was worth, and unlocking brings exactly that back. */
  lemma LockAndUnlock(l: Ledger, o: Outpoint, requirement: set<Flag>, height: int, immature: bool)
    requires LOCKED !in StatusAt(l.status, o)
    ensures var locked := l.(status := AddFlags(l.status, o, {LOCKED}));
            var unlocked := l.(status := locked.status[o := StatusAt(locked.status, o) - {LOCKED}]);
            && Balance(locked, requirement, height, immature) ==
                 Balance(l, requirement, height, immature) - Worth(StatusAt(l.status, o), l.txs, o, requirement, height, immature)
            && Balance(unlocked, requirement, height, immature) == Balance(l, requirement, height, immature)
            && forall p :: StatusAt(unlocked.status, p) == StatusAt(l.status, p)
  {
    hide Balance, Worth;
    var locked := AddFlags(l.status, o, {LOCKED});
    var unlocked := locked[o := StatusAt(locked, o) - {LOCKED}];
    HeldWorthless(StatusAt(locked, o), l.txs, o, requirement, height, immature);
    BalanceFlips(l.txs, l.status, locked, o, requirement, height, immature);
    BalanceFlips(l.txs, locked, unlocked, o, requirement, height, immature);
    assert StatusAt(unlocked, o) == StatusAt(l.status, o);
  }

  // ---------------------------------------------------------------- a transaction arrives

  /** What the inputs were worth, each outpoint once. */
  function SpentBy(m: StatusMap, txs: seq<Tx>, vin: seq<Outpoint>, requirement: set<Flag>, height: int, immature: bool): int {
    if vin == [] then 0
    else
      var last := |vin| - 1;
      SpentBy(m, txs, vin[..last], requirement, height, immature)
      + (if vin[last] in vin[..last] then 0 else Worth(StatusAt(m, vin[last]), txs, vin[last], requirement, height, immature))
  }

  lemma {:induction false} SpendingLowers(txs: seq<Tx>, m: StatusMap, vin: seq<Outpoint>, requirement: set<Flag>, height: int, immature: bool)
    ensures Balance(Ledger(MarkSpent(m, vin), txs), requirement, height, immature) ==
            Balance(Ledger(m, txs), requirement, height, immature) - SpentBy(m, txs, vin, requirement, height, immature)
  {
    hide Balance, Worth;
    if vin == [] {
    } else {
      var last := |vin| - 1;
      var o, before := vin[last], MarkSpent(m, vin[..last]);
      SpendingLowers(txs, m, vin[..last], requirement, height, immature);
      var after := AddFlags(before, o, {SPENT});
      HeldWorthless(StatusAt(after, o), txs, o, requirement, height, immature);
      if o in vin[..last] {
        HeldWorthless(StatusAt(before, o), txs, o, requirement, height, immature);
      } else {
        assert StatusAt(before, o) == StatusAt(m, o);
      }
      BalanceFlips(txs, before, after, o, requirement, height, immature);
    }
  }

  /** The wallet's own flags never say spent or locked. */
  predicate Proper(t: Tx, classify: string -> set<Flag>) {
    forall k :: 0 <= k < |t.vout| ==> SPENT !in classify(t.vout[k].script) && LOCKED !in classify(t.vout[k].script)
  }

  /** What the first `count` outputs bring: those of own scripts with the flags required, once mature. */
  function Received(t: Tx, classify: string -> set<Flag>, requirement: set<Flag>, height: int, immature: bool, count: nat): int
    requires count <= |t.vout|
  {
    if count == 0 then 0
    else
      Received(t, classify, requirement, height, immature, count - 1)
      + (var flags := classify(t.vout[count - 1].script);
         if !(requirement <= (if OURS in flags then flags else {})) then 0
         else if !immature && t.maturity.Some? && height < t.blockHeight + t.maturity.value then 0
         else t.vout[count - 1].value)
  }

  lemma {:induction false} ContributionReceived(m: StatusMap, t: Tx, classify: string -> set<Flag>, requirement: set<Flag>, height: int, immature: bool, count: nat)
    requires count <= |t.vout| && Proper(t, classify)
    requires forall k :: 0 <= k < count ==> StatusAt(m, Outpoint(t.txid, k)) == OwnFlags(t.vout[k], classify)
    ensures Contribution(m, t, requirement, height, immature, count) == Received(t, classify, requirement, height, immature, count)
  {
    hide StatusAt;
    if count == 0 {
    } else {
      ContributionReceived(m, t, classify, requirement, height, immature, count - 1);
      assert StatusAt(m, Outpoint(t.txid, count - 1)) == OwnFlags(t.vout[count - 1], classify);
    }
  }

  /** Nothing is known of the transaction yet, and it does not spend itself. */
  ghost predicate New(l: Ledger, t: Tx) {
    && (forall u :: u in l.txs ==> u.txid != t.txid)
    && (forall k :: StatusAt(l.status, Outpoint(t.txid, k)) == {})
    && (forall o :: o in t.vin ==> o.txid != t.txid)
  }

  lemma {:induction false} PutNew(txs: seq<Tx>, t: Tx)
    requires forall u :: u in txs ==> u.txid != t.txid
    ensures Put(txs, t) == txs + [t]
  {
    if txs == [] {
    } else {
      PutNew(txs[1..], t);
    }
  }

  lemma ContributionApart(m: StatusMap, n: StatusMap, id: string, t: Tx, requirement: set<Flag>, height: int, immature: bool, count: nat)
    requires count <= |t.vout| && t.txid != id && forall p: Outpoint :: p.txid != id ==> StatusAt(m, p) == StatusAt(n, p)
    ensures Contribution(m, t, requirement, height, immature, count) == Contribution(n, t, requirement, height, immature, count)
  {
    hide StatusAt;
    if count == 0 {
    } else {
      ContributionApart(m, n, id, t, requirement, height, immature, count - 1);
      assert StatusAt(m, Outpoint(t.txid, count - 1)) == StatusAt(n, Outpoint(t.txid, count - 1));
    }
  }

  lemma {:induction false} BalanceApart(txs: seq<Tx>, m: StatusMap, n: StatusMap, id: string, requirement: set<Flag>, height: int, immature: bool)
    requires forall p: Outpoint :: p.txid != id ==> StatusAt(m, p) == StatusAt(n, p)
    requires forall t :: t in txs ==> t.txid != id
    ensures Balance(Ledger(m, txs), requirement, height, immature) == Balance(Ledger(n, txs), requirement, height, immature)
    decreases |txs|
  {
    hide StatusAt, Contribution;
    if txs == [] {
    } else {
      var last := |txs| - 1;
      BalanceApart(txs[..last], m, n, id, requirement, height, immature);
      ContributionApart(m, n, id, txs[last], requirement, height, immature, |txs[last].vout|);
    }
  }

  /** A new transaction moves a balance by what it brings less what its inputs were worth. */
  lemma ArrivalMoves(l: Ledger, t: Tx, classify: string -> set<Flag>, requirement: set<Flag>, height: int, immature: bool)
    requires New(l, t) && Proper(t, classify)
    ensures Balance(Process(l, t, classify), requirement, height, immature) ==
            Balance(l, requirement, height, immature) - SpentBy(l.status, l.txs, t.vin, requirement, height, immature)
            + Received(t, classify, requirement, height, immature, |t.vout|)
  {
    hide Balance, SpentBy, Received, Contribution;
    var spent := MarkSpent(l.status, t.vin);
    var own := MarkOwn(spent, t, classify, |t.vout|);
    PutNew(l.txs, t);
    SpendingLowers(l.txs, l.status, t.vin, requirement, height, immature);
    BalanceApart(l.txs, own, spent, t.txid, requirement, height, immature);
    forall k | 0 <= k < |t.vout| ensures StatusAt(own, Outpoint(t.txid, k)) == OwnFlags(t.vout[k], classify) {
      assert StatusAt(spent, Outpoint(t.txid, k)) == {};
    }
    ContributionReceived(own, t, classify, requirement, height, immature, |t.vout|);
    LastOut(own, l.txs, t, requirement, height, immature);
  }

  lemma LastOut(m: StatusMap, txs: seq<Tx>, t: Tx, requirement: set<Flag>, height: int, immature: bool)
    ensures Balance(Ledger(m, txs + [t]), requirement, height, immature) ==
            Balance(Ledger(m, txs), requirement, height, immature) + Contribution(m, t, requirement, height, immature, |t.vout|)
  {
    hide Contribution;
    assert (txs + [t])[..|txs|] == txs;
  }

  lemma {:induction false} NothingReceived(t: Tx, classify: string -> set<Flag>, requirement: set<Flag>, height: int, immature: bool, count: nat)
    requires count <= |t.vout| && OURS in requirement && !Owns(t, classify)
    ensures Received(t, classify, requirement, height, immature, count) == 0
  {
    if count == 0 {
    } else {
      NothingReceived(t, classify, requirement, height, immature, count - 1);
    }
  }

  /** Spending one free, mature, own output on someone else lowers the balance by exactly its value. */
  lemma SpendingOne(l: Ledger, i: nat, n: nat, t: Tx, classify: string -> set<Flag>, requirement: set<Flag>, height: int)
    requires UniqueIds(l.txs) && i < |l.txs| && n < |l.txs[i].vout| && t.vin == [Outpoint(l.txs[i].txid, n)]
    requires New(l, t) && Proper(t, classify) && OURS in requirement && !Owns(t, classify)
    requires var s := StatusAt(l.status, t.vin[0]); requirement <= s && SPENT !in s && LOCKED !in s
    requires l.txs[i].maturity.Some? ==> height >= l.txs[i].blockHeight + l.txs[i].maturity.value
    ensures Balance(Process(l, t, classify), requirement, height, false) == Balance(l, requirement, height, false) - l.txs[i].vout[n].value
  {
    hide Balance, Process;
    ArrivalMoves(l, t, classify, requirement, height, false);
    NothingReceived(t, classify, requirement, height, false, |t.vout|);
    WorthIs(StatusAt(l.status, t.vin[0]), l.txs, i, n, requirement, height, false);
    hide Worth, Received, StatusAt;
    assert t.vin[..0] == [];
    assert SpentBy(l.status, l.txs, [], requirement, height, false) == 0;
  }

  // ---------------------------------------------------------------- what a balance is

  ghost predicate SpentIn(history: seq<Tx>, o: Outpoint) {
    exists u :: u in history && o in u.vin
  }

  lemma DeclaredOf(history: seq<Tx>, t: Tx, k: nat, classify: string -> set<Flag>)
    requires Consistent(history) && t in history && k < |t.vout|
    ensures Declared(history, Outpoint(t.txid, k), classify) == StatusOf(history, t, k, classify)
  {
    forall f | f in OwnFlags(t.vout[k], classify) ensures f in FLAGS {
      AllFlags(OwnFlags(t.vout[k], classify), f);
    }
  }

  ghost predicate MarkedBy(history: seq<Tx>, m: StatusMap, t: Tx, classify: string -> set<Flag>) {
    forall k :: 0 <= k < |t.vout| ==> StatusAt(m, Outpoint(t.txid, k)) == StatusOf(history, t, k, classify)
  }

  /** The flags of an output of the history. */
  ghost function StatusOf(history: seq<Tx>, t: Tx, k: nat, classify: string -> set<Flag>): set<Flag>
    requires k < |t.vout|
  {
    (if SpentIn(history, Outpoint(t.txid, k)) then {SPENT} else {}) + OwnFlags(t.vout[k], classify)
  }

  lemma HistoryMarks(history: seq<Tx>, t: Tx, classify: string -> set<Flag>)
    requires Consistent(history) && t in history
    ensures MarkedBy(history, ProcessAll(history, classify).status, t, classify)
  {
    hide ProcessAll, Declared, StatusOf, Consistent;
    forall k | 0 <= k < |t.vout|
      ensures StatusAt(ProcessAll(history, classify).status, Outpoint(t.txid, k)) == StatusOf(history, t, k, classify)
    {
      StatusDeclared(history, Outpoint(t.txid, k), classify);
      DeclaredOf(history, t, k, classify);
    }
  }

  /** The value of the first `count` outputs that are own, flagged as required, mature, and spent by no transaction of the history. */
  ghost function Unspent(history: seq<Tx>, t: Tx, classify: string -> set<Flag>, requirement: set<Flag>, height: int, immature: bool, count: nat): int
    requires count <= |t.vout|
  {
    if count == 0 then 0
    else
      Unspent(history, t, classify, requirement, height, immature, count - 1)
      + (var flags := classify(t.vout[count - 1].script);
         if SpentIn(history, Outpoint(t.txid, count - 1)) || !(requirement <= (if OURS in flags then flags else {})) then 0
         else if !immature && t.maturity.Some? && height < t.blockHeight + t.maturity.value then 0
         else t.vout[count - 1].value)
  }

  ghost function AllUnspent(history: seq<Tx>, txs: seq<Tx>, classify: string -> set<Flag>, requirement: set<Flag>, height: int, immature: bool): int {
    if txs == [] then 0
    else
      var t := txs[|txs| - 1];
      AllUnspent(history, txs[..|txs| - 1], classify, requirement, height, immature)
      + Unspent(history, t, classify, requirement, height, immature, |t.vout|)
  }

  lemma {:induction false} ContributionUnspent(history: seq<Tx>, m: StatusMap, t: Tx, classify: string -> set<Flag>, requirement: set<Flag>, height: int, immature: bool, count: nat)
    requires count <= |t.vout| && Proper(t, classify) && MarkedBy(history, m, t, classify)
    ensures Contribution(m, t, requirement, height, immature, count) == Unspent(history, t, classify, requirement, height, immature, count)
  {
    hide StatusAt, SpentIn;
    if count == 0 {
    } else {
      ContributionUnspent(history, m, t, classify, requirement, height, immature, count - 1);
      assert StatusAt(m, Outpoint(t.txid, count - 1)) == StatusOf(history, t, count - 1, classify);
    }
  }

  lemma {:induction false} BalanceUnspent(history: seq<Tx>, m: StatusMap, txs: seq<Tx>, classify: string -> set<Flag>, requirement: set<Flag>, height: int, immature: bool)
    requires forall t :: t in txs ==> Proper(t, classify) && MarkedBy(history, m, t, classify)
    ensures Balance(Ledger(m, txs), requirement, height, immature) == AllUnspent(history, txs, classify, requirement, height, immature)
    decreases |txs|
  {
    hide MarkedBy, Contribution, Unspent, Proper;
    if txs == [] {
    } else {
      var last := |txs| - 1;
      BalanceUnspent(history, m, txs[..last], classify, requirement, height, immature);
      ContributionUnspent(history, m, txs[last], classify, requirement, height, immature, |txs[last].vout|);
    }
  }

  /**
   After any history, in any order and with spenders before the transactions they
   spend from, a balance is the value of the own, mature outputs with the flags
   required that no transaction of the history spends, each transaction once.
   */
  lemma BalanceMeans(history: seq<Tx>, classify: string -> set<Flag>, requirement: set<Flag>, height: int, immature: bool)
    requires Consistent(history) && forall t :: t in history ==> Proper(t, classify)
    ensures var l := ProcessAll(history, classify);
            && UniqueIds(l.txs) && SameTransactions(l.txs, history)
            && Balance(l, requirement, height, immature) == AllUnspent(history, l.txs, classify, requirement, height, immature)
  {
    hide ProcessAll, Balance, AllUnspent, Proper, MarkedBy;
    var l := ProcessAll(history, classify);
    KeptOnce(history, classify);
    forall t | t in l.txs ensures MarkedBy(history, l.status, t, classify) {
      HistoryMarks(history, t, classify);
    }
    BalanceUnspent(history, l.status, l.txs, classify, requirement, height, immature);
  }

  /** What `getUTXOs` may return after any history is spent by none of its transactions. */
  lemma OfferedUnspent(history: seq<Tx>, u: Utxo, classify: string -> set<Flag>, requirement: set<Flag>, height: int, immature: bool)
    requires Spendable(ProcessAll(history, classify), u, requirement, height, immature)
    ensures forall t :: t in history ==> u.outpoint !in t.vin
  {
    hide ProcessAll;
    StatusDeclared(history, u.outpoint, classify);
  }
}
