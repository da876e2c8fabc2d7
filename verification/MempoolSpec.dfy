/**
 What the mempool knows about outpoints after a list of transactions, whatever
 their order, and what balances it should report.
 */
module MempoolSpec {
  import opened Wrappers

  /** `n` is the position of the output in transaction `txid`. */
  datatype Outpoint = Outpoint(txid: string, n: nat)

  datatype Flag = OURS | P2PKH | P2CS | SPENT | LOCKED

  const FLAGS: set<Flag> := {OURS, P2PKH, P2CS, SPENT, LOCKED}

  datatype TxOut = TxOut(script: string, value: int)

  /** `maturity` is the number of blocks a coinbase or coinstake output waits on its network, None for any other. */
  datatype Tx = Tx(txid: string, vin: seq<Outpoint>, vout: seq<TxOut>, maturity: Option<int>, blockHeight: int)

  predicate IsImmature(t: Tx, height: int) {
    t.maturity.Some? && height - t.blockHeight < t.maturity.value
  }

  type StatusMap = map<Outpoint, set<Flag>>

  /** A missing status is no flags. */
  function StatusAt(m: StatusMap, o: Outpoint): set<Flag> {
    if o in m then m[o] else {}
  }

  function AddFlags(m: StatusMap, o: Outpoint, flags: set<Flag>): (r: StatusMap)
    ensures forall p :: StatusAt(r, p) == if p == o then StatusAt(m, p) + flags else StatusAt(m, p)
  {
    m[o := StatusAt(m, o) + flags]
  }

  /** Spending marks, one input after the other. */
  function MarkSpent(m: StatusMap, vin: seq<Outpoint>): (r: StatusMap)
    ensures forall p :: StatusAt(r, p) == StatusAt(m, p) + (if p in vin then {SPENT} else {})
  {
    if vin == [] then m else AddFlags(MarkSpent(m, vin[..|vin| - 1]), vin[|vin| - 1], {SPENT})
  }

  /** The first `count` outputs get their script's flags when the script is the wallet's own. */
  function MarkOwn(m: StatusMap, t: Tx, classify: string -> set<Flag>, count: nat): (r: StatusMap)
    requires count <= |t.vout|
    ensures forall p :: StatusAt(r, p) == StatusAt(m, p) + (if p.txid == t.txid && p.n < count then OwnFlags(t.vout[p.n], classify) else {})
  {
    if count == 0 then m
    else
      var before := MarkOwn(m, t, classify, count - 1);
      var flags := classify(t.vout[count - 1].script);
      if OURS in flags then AddFlags(before, Outpoint(t.txid, count - 1), flags) else before
  }

  function OwnFlags(o: TxOut, classify: string -> set<Flag>): set<Flag> {
    if OURS in classify(o.script) then classify(o.script) else {}
  }

  /** A keyed list in order of first insertion; a later value takes the place of an earlier one. */
  function Put(txs: seq<Tx>, t: Tx): (r: seq<Tx>)
    ensures t in r && forall u :: u in r ==> u == t || u in txs
    ensures forall u :: u in txs && u.txid != t.txid ==> u in r
  {
    if txs == [] then [t]
    else if txs[0].txid == t.txid then [t] + txs[1..]
    else [txs[0]] + Put(txs[1..], t)
  }

  /** The state after processing a list of transactions, in order. */
  datatype Ledger = Ledger(status: StatusMap, txs: seq<Tx>)

  function Process(l: Ledger, t: Tx, classify: string -> set<Flag>): Ledger {
    Ledger(MarkOwn(MarkSpent(l.status, t.vin), t, classify, |t.vout|), Put(l.txs, t))
  }

  function ProcessAll(history: seq<Tx>, classify: string -> set<Flag>): Ledger {
    if history == [] then Ledger(map[], [])
    else Process(ProcessAll(history[..|history| - 1], classify), history[|history| - 1], classify)
  }

  // ---------------------------------------------------------------- order does not matter

  /** A transaction id names one transaction. */
  predicate Consistent(history: seq<Tx>) {
    forall t, u :: t in history && u in history && t.txid == u.txid ==> t == u
  }

  /** The flags an outpoint has because of the transactions, in whatever order they came. */
  ghost function Declared(history: seq<Tx>, o: Outpoint, classify: string -> set<Flag>): set<Flag> {
    (if exists t :: t in history && o in t.vin then {SPENT} else {})
    + (set f | f in FLAGS && exists t :: t in history && t.txid == o.txid && o.n < |t.vout| && f in OwnFlags(t.vout[o.n], classify))
  }

  lemma AllFlags(s: set<Flag>, f: Flag)
    requires f in s
    ensures f in FLAGS
  {
    match f
    case OURS => case P2PKH => case P2CS => case SPENT => case LOCKED =>
  }

  lemma DeclaredSnoc(before: seq<Tx>, t: Tx, o: Outpoint, classify: string -> set<Flag>)
    ensures Declared(before + [t], o, classify) ==
            Declared(before, o, classify) + (if o in t.vin then {SPENT} else {})
            + (if o.txid == t.txid && o.n < |t.vout| then OwnFlags(t.vout[o.n], classify) else {})
  {
    var h := before + [t];
    assert t in h && forall u :: u in h <==> u in before || u == t;
    forall f | f in Declared(before, o, classify) + (if o in t.vin then {SPENT} else {})
                    + (if o.txid == t.txid && o.n < |t.vout| then OwnFlags(t.vout[o.n], classify) else {})
      ensures f in Declared(h, o, classify)
    {
      AllFlags({f}, f);
    }
  }

  /** Every status is what the set of processed transactions declares. */
  lemma {:induction false} StatusDeclared(history: seq<Tx>, o: Outpoint, classify: string -> set<Flag>)
    ensures StatusAt(ProcessAll(history, classify).status, o) == Declared(history, o, classify)
  {
    hide Declared;
    if history == [] {
      NothingDeclared(o, classify);
    } else {
      var before, t := history[..|history| - 1], history[|history| - 1];
      StatusDeclared(before, o, classify);
      DeclaredSnoc(before, t, o, classify);
      assert history == before + [t];
    }
  }

  lemma NothingDeclared(o: Outpoint, classify: string -> set<Flag>)
    ensures Declared([], o, classify) == {}
  {
  }

  predicate SameTransactions(a: seq<Tx>, b: seq<Tx>) {
    (forall t :: t in a ==> t in b) && (forall t :: t in b ==> t in a)
  }

  /** Two orders of the same transactions, spender before funder included, leave every outpoint with the same status. */
  lemma OrderIrrelevant(a: seq<Tx>, b: seq<Tx>, o: Outpoint, classify: string -> set<Flag>)
    requires SameTransactions(a, b)
    ensures StatusAt(ProcessAll(a, classify).status, o) == StatusAt(ProcessAll(b, classify).status, o)
  {
    StatusDeclared(a, o, classify);
    StatusDeclared(b, o, classify);
  }

  /** The processed transactions are exactly those kept, each once. */
  lemma {:induction false} KeptOnce(history: seq<Tx>, classify: string -> set<Flag>)
    requires Consistent(history)
    ensures SameTransactions(ProcessAll(history, classify).txs, history)
    ensures UniqueIds(ProcessAll(history, classify).txs)
  {
    if history == [] {
    } else {
      var before, t := history[..|history| - 1], history[|history| - 1];
      assert history == before + [t];
      KeptOnce(before, classify);
      var kept := ProcessAll(before, classify).txs;
      forall u | u in kept && u.txid == t.txid ensures u == t {
        assert u in history && t in history;
      }
      PutUnique(kept, t);
    }
  }

  predicate UniqueIds(txs: seq<Tx>) {
    forall i, j :: 0 <= i < j < |txs| ==> txs[i].txid != txs[j].txid
  }

  lemma {:induction false} PutUnique(txs: seq<Tx>, t: Tx)
    requires UniqueIds(txs)
    ensures UniqueIds(Put(txs, t))
  {
    if txs == [] || txs[0].txid == t.txid {
    } else {
      PutUnique(txs[1..], t);
      var rest := Put(txs[1..], t);
      forall j | 0 <= j < |rest| ensures rest[j].txid != txs[0].txid {
        assert rest[j] in rest;
        if rest[j] != t {
          assert rest[j] in txs[1..];
        }
      }
    }
  }

  // ---------------------------------------------------------------- balances

  /** An output counts when it is neither spent nor locked and has all the flags required. */
  predicate Counts(m: StatusMap, o: Outpoint, requirement: set<Flag>) {
    SPENT !in StatusAt(m, o) && LOCKED !in StatusAt(m, o) && requirement <= StatusAt(m, o)
  }

  /** What the first `count` outputs of a transaction add to a balance. */
  function Contribution(m: StatusMap, t: Tx, requirement: set<Flag>, height: int, immature: bool, count: nat): int
    requires count <= |t.vout|
  {
    if count == 0 then 0
    else
      Contribution(m, t, requirement, height, immature, count - 1)
      + (if Counts(m, Outpoint(t.txid, count - 1), requirement) && (immature || !IsImmature(t, height)) then t.vout[count - 1].value else 0)
  }

  /** A balance: the value of all that counts. */
  function Balance(l: Ledger, requirement: set<Flag>, height: int, immature: bool): int
    decreases |l.txs|
  {
    if l.txs == [] then 0
    else
      var t := l.txs[|l.txs| - 1];
      Balance(l.(txs := l.txs[..|l.txs| - 1]), requirement, height, immature) + Contribution(l.status, t, requirement, height, immature, |t.vout|)
  }

  lemma {:induction false} SameContribution(m: StatusMap, n: StatusMap, t: Tx, requirement: set<Flag>, height: int, immature: bool, count: nat)
    requires count <= |t.vout| && forall o :: StatusAt(m, o) == StatusAt(n, o)
    ensures Contribution(m, t, requirement, height, immature, count) == Contribution(n, t, requirement, height, immature, count)
  {
    if count == 0 {
    } else {
      SameContribution(m, n, t, requirement, height, immature, count - 1);
      assert StatusAt(m, Outpoint(t.txid, count - 1)) == StatusAt(n, Outpoint(t.txid, count - 1));
    }
  }

  /** One transaction taken out of a balance. */
  lemma {:induction false} TakeOut(l: Ledger, i: nat, requirement: set<Flag>, height: int, immature: bool)
    requires i < |l.txs|
    ensures Balance(l, requirement, height, immature) ==
            Balance(l.(txs := l.txs[..i] + l.txs[i + 1..]), requirement, height, immature)
            + Contribution(l.status, l.txs[i], requirement, height, immature, |l.txs[i].vout|)
    decreases |l.txs|
  {
    hide Contribution;
    var last := |l.txs| - 1;
    var rest := l.txs[..i] + l.txs[i + 1..];
    if i == last {
      assert rest == l.txs[..last];
    } else {
      var shorter := l.(txs := l.txs[..last]);
      TakeOut(shorter, i, requirement, height, immature);
      assert rest[..last - 1] == shorter.txs[..i] + shorter.txs[i + 1..];
      assert rest[last - 1] == l.txs[last];
    }
  }

  /** Two ledgers with the same statuses and the same transactions, in any order, have the same balances. */
  lemma {:induction false} BalancePermutes(a: Ledger, b: Ledger, requirement: set<Flag>, height: int, immature: bool)
    requires forall o :: StatusAt(a.status, o) == StatusAt(b.status, o)
    requires UniqueIds(a.txs) && UniqueIds(b.txs) && SameTransactions(a.txs, b.txs)
    ensures Balance(a, requirement, height, immature) == Balance(b, requirement, height, immature)
    decreases |a.txs|
  {
    hide Contribution;
    if a.txs == [] {
      EmptySame(b.txs);
    } else {
      var last := |a.txs| - 1;
      var t := a.txs[last];
      assert t in b.txs;
      var i :| 0 <= i < |b.txs| && b.txs[i] == t;
      TakeOut(b, i, requirement, height, immature);
      SameContribution(a.status, b.status, t, requirement, height, immature, |t.vout|);
      WithoutOne(a.txs, last, b.txs, i);
      BalancePermutes(a.(txs := a.txs[..last]), b.(txs := b.txs[..i] + b.txs[i + 1..]), requirement, height, immature);
    }
  }

  lemma HasMember(txs: seq<Tx>)
    requires |txs| > 0
    ensures exists t :: t in txs
  {
    assert txs[0] in txs;
  }

  lemma EmptySame(txs: seq<Tx>)
    requires SameTransactions([], txs)
    ensures txs == []
  {
    if |txs| > 0 {
      HasMember(txs);
    }
  }

  lemma WithoutOne(a: seq<Tx>, last: nat, b: seq<Tx>, i: nat)
    requires UniqueIds(a) && UniqueIds(b) && SameTransactions(a, b)
    requires last == |a| - 1 && i < |b| && a[last] == b[i]
    ensures UniqueIds(a[..last]) && UniqueIds(b[..i] + b[i + 1..]) && SameTransactions(a[..last], b[..i] + b[i + 1..])
  {
    var c, d := a[..last], b[..i] + b[i + 1..];
    forall k | 0 <= k < |d| ensures d[k] == b[if k < i then k else k + 1] {}
    forall t | t in c ensures t in d {
      var k :| 0 <= k < last && c[k] == t;
      assert a[k] in a;
      var j :| 0 <= j < |b| && b[j] == t;
      assert j != i;
      assert d[if j < i then j else j - 1] == t;
    }
    forall t | t in d ensures t in c {
      var k :| 0 <= k < |d| && d[k] == t;
      var j := if k < i then k else k + 1;
      assert b[j] == t && b[j] in b;
      var m :| 0 <= m < |a| && a[m] == t;
      assert m != last;
      assert c[m] == t;
    }
  }

  /** Every balance is the same whatever the order the transactions came in. */
  lemma BalanceOrderIrrelevant(a: seq<Tx>, b: seq<Tx>, classify: string -> set<Flag>, requirement: set<Flag>, height: int, immature: bool)
    requires SameTransactions(a, b) && Consistent(a)
    ensures Balance(ProcessAll(a, classify), requirement, height, immature) == Balance(ProcessAll(b, classify), requirement, height, immature)
  {
    hide ProcessAll, Balance;
    forall o ensures StatusAt(ProcessAll(a, classify).status, o) == StatusAt(ProcessAll(b, classify).status, o) {
      OrderIrrelevant(a, b, o, classify);
    }
    KeptOnce(a, classify);
    KeptOnce(b, classify);
    BalancePermutes(ProcessAll(a, classify), ProcessAll(b, classify), requirement, height, immature);
  }

  // ---------------------------------------------------------------- keys

  function Digit(n: nat): char
    requires n < 10
  {
    "0123456789"[n]
  }

  /** Decimal without leading zeros. */
  function Decimal(n: nat): (s: string)
    ensures s != ""
  {
    if n < 10 then [Digit(n)] else Decimal(n / 10) + [Digit(n % 10)]
  }

  function ParseDigits(s: string): nat {
    if s == "" then 0 else 10 * ParseDigits(s[..|s| - 1]) + (if '0' <= s[|s| - 1] <= '9' then s[|s| - 1] as nat - '0' as nat else 0)
  }

  function ToUnique(o: Outpoint): string {
    o.txid + Decimal(o.n)
  }

  /** Defined for texts longer than a transaction id. */
  function FromUnique(s: string): Outpoint
    requires |s| >= 64
  {
    Outpoint(s[..64], ParseDigits(s[64..]))
  }

  lemma DigitParses(s: string, d: nat)
    requires d < 10
    ensures ParseDigits(s + [Digit(d)]) == 10 * ParseDigits(s) + d
  {
    assert (s + [Digit(d)])[..|s|] == s;
  }

  lemma {:induction false} ParseOfDecimal(n: nat)
    ensures ParseDigits(Decimal(n)) == n
  {
    if n < 10 {
      DigitParses("", n);
      assert "" + [Digit(n)] == [Digit(n)];
    } else {
      ParseOfDecimal(n / 10);
      DigitParses(Decimal(n / 10), n % 10);
    }
  }

  /** A key names its outpoint, for transaction ids of 64 characters. */
  lemma KeyRoundTrip(o: Outpoint)
    requires |o.txid| == 64
    ensures |ToUnique(o)| >= 64 && FromUnique(ToUnique(o)) == o
  {
    ParseOfDecimal(o.n);
    assert ToUnique(o)[..64] == o.txid && ToUnique(o)[64..] == Decimal(o.n);
  }
}
