/**
 The wallet around its mempool: what it answers when asked for a balance, and
 when that is right. A new block moves the height at once; the caches are dropped
 only after the block has been fetched, or not at all while the wallet is not yet
 synchronised.
 */
module WalletBalance {
  import opened Wrappers
  import opened MempoolSpec
  import opened Mempool
  import opened Ripening

  type Classify = string -> set<Flag>

  /**
   The heights the cached balances were computed at. An immature balance is
   computed from two others; the immature delegated one is never computed again,
   so that the value itself is kept.
   */
  datatype Fills = Fills(balance: Option<int>, cold: Option<When>, immature: Option<(int, When)>, immatureCold: Option<int>)

  function Dropped(f: Fills): Fills {
    Fills(None, None, None, f.immatureCold)
  }

  /** What the wallet has seen, the scripts it knows as its own, the chain height, and what is cached. */
  datatype State = State(ledger: Ledger, classify: Classify, height: int, fills: Fills)

  datatype Event =
    | Arrived(t: Tx)
    | Learned(classify: Classify)
    | CoinLocked(o: Outpoint)
    | CoinUnlocked(o: Outpoint)
    | HeightMoved(height: int)
    | CachesDropped
    | BalanceAsked
    | ColdAsked
    | ImmatureAsked
    | ImmatureColdAsked

  const NOTHING := Ledger(map[], [])

  function Start(classify: Classify, height: int): State {
    State(NOTHING, classify, height, Fills(None, None, None, None))
  }

  function Default<T>(o: Option<T>, other: T): T {
    if o.Some? then o.value else other
  }

  function Fill(s: State, e: Event): Fills {
    var f, h := s.fills, s.height;
    match e
    case BalanceAsked => f.(balance := Some(Default(f.balance, h)))
    case ColdAsked => f.(cold := Some(Default(f.cold, At(h))))
    case ImmatureAsked =>
      if f.immature.Some? then f
      else
        var balanceAt, coldAt := Default(f.balance, h), Default(f.cold, At(h));
        f.(balance := Some(balanceAt), cold := Some(coldAt), immature := Some((balanceAt, coldAt)))
    case ImmatureColdAsked =>
      if f.immatureCold.Some? then f
      else
        var coldAt := Default(f.cold, Undefined);
        f.(cold := Some(coldAt), immatureCold := Some(Balance(s.ledger, OWN_P2CS, h, true) - Cold(s.ledger, coldAt)))
    case _ => f
  }

  function Step(s: State, e: Event): State {
    match e
    case Arrived(t) =>
      s.(ledger := Process(s.ledger, t, s.classify), fills := if t.vin != [] || Owns(t, s.classify) then Dropped(s.fills) else s.fills)
    case Learned(classify) => s.(classify := classify)
    case CoinLocked(o) => s.(ledger := s.ledger.(status := AddFlags(s.ledger.status, o, {LOCKED})), fills := Dropped(s.fills))
    case CoinUnlocked(o) =>
      s.(ledger := s.ledger.(status := s.ledger.status[o := StatusAt(s.ledger.status, o) - {LOCKED}]), fills := Dropped(s.fills))
    case HeightMoved(height) => s.(height := height)
    case CachesDropped => s.(fills := Dropped(s.fills))
    case _ => s.(fills := Fill(s, e))
  }

  function RunFrom(s: State, events: seq<Event>): State {
    if events == [] then s else Step(RunFrom(s, events[..|events| - 1]), events[|events| - 1])
  }

  predicate IsQuestion(e: Event) {
    e.BalanceAsked? || e.ColdAsked? || e.ImmatureAsked? || e.ImmatureColdAsked?
  }

  /** The immature balance computed from the others at these two heights. */
  function ImmatureAt(l: Ledger, balanceAt: int, coldAt: When): int {
    Balance(l, OWN, balanceAt, true) - Balance(l, OWN_P2PKH, balanceAt, false) - Cold(l, coldAt)
  }

  /** What a question is answered, in the state before it: the balance at the height of its cache. */
  function Answer(s: State, e: Event): Option<int> {
    var f := Fill(s, e);
    match e
    case BalanceAsked => Some(Balance(s.ledger, OWN_P2PKH, f.balance.value, false))
    case ColdAsked => Some(Cold(s.ledger, f.cold.value))
    case ImmatureAsked => Some(ImmatureAt(s.ledger, f.immature.value.0, f.immature.value.1))
    case ImmatureColdAsked => f.immatureCold
    case _ => None
  }

  /** What it should be answered: the balance at the present height. */
  ghost function Recomputed(s: State, e: Event): Option<int> {
    match e
    case BalanceAsked => Some(Balance(s.ledger, OWN_P2PKH, s.height, false))
    case ColdAsked => Some(Balance(s.ledger, OWN_P2CS, s.height, false))
    case ImmatureAsked => Some(Immature(s.ledger, s.height))
    case ImmatureColdAsked => Some(Balance(s.ledger, OWN_P2CS, s.height, true) - Balance(s.ledger, OWN_P2CS, s.height, false))
    case _ => None
  }

  // ---------------------------------------------------------------- when an answer is right

  /** What the delegated balance gained since it was computed; computed without a height it counts too much, all that is immature. */
  function ColdGain(l: Ledger, coldAt: When, height: int): int {
    match coldAt
    case At(before) => Gain(l, OWN_P2CS, before, height)
    case Undefined => -Unripe(l, OWN_P2CS, height)
  }

  lemma ColdMoves(l: Ledger, coldAt: When, height: int)
    ensures Cold(l, At(height)) == Cold(l, coldAt) + ColdGain(l, coldAt, height)
  {
    hide Balance, Gain, Unripe;
    match coldAt
    case At(before) => BalanceMoves(l, OWN_P2CS, before, height);
    case Undefined =>
      UnripeRest(l, OWN_P2CS, height);
      AnyHeight(l, OWN_P2CS, 0, height);
  }

  /** What an answer misses of the present balance: all that ripened between the heights of its caches and the present one. */
  function Missed(s: State, e: Event): int {
    var f := Fill(s, e);
    match e
    case BalanceAsked => Gain(s.ledger, OWN_P2PKH, f.balance.value, s.height)
    case ColdAsked => ColdGain(s.ledger, f.cold.value, s.height)
    case ImmatureAsked =>
      -Gain(s.ledger, OWN_P2PKH, f.immature.value.0, s.height) - ColdGain(s.ledger, f.immature.value.1, s.height)
    case ImmatureColdAsked => Unripe(s.ledger, OWN_P2CS, s.height) - f.immatureCold.value
    case _ => 0
  }

  /** Exactly that is missing, so that an answer is right exactly when it is nothing. */
  lemma AnswerMisses(s: State, e: Event)
    requires IsQuestion(e)
    ensures Answer(s, e).Some? && Recomputed(s, e) == Some(Answer(s, e).value + Missed(s, e))
  {
    hide Balance, Gain, Unripe;
    var f := Fill(s, e);
    match e
    case BalanceAsked => BalanceMoves(s.ledger, OWN_P2PKH, f.balance.value, s.height);
    case ColdAsked => ColdMoves(s.ledger, f.cold.value, s.height);
    case ImmatureAsked =>
      AnyHeight(s.ledger, OWN, f.immature.value.0, s.height);
      BalanceMoves(s.ledger, OWN_P2PKH, f.immature.value.0, s.height);
      ColdMoves(s.ledger, f.immature.value.1, s.height);
    case ImmatureColdAsked => UnripeRest(s.ledger, OWN_P2CS, s.height);
  }

  // ---------------------------------------------------------------- a growing chain

  /** The balance and the immature balance, and the delegated one when it was not computed without a height. */
  predicate Timed(s: State, e: Event) {
    match e
    case BalanceAsked => true
    case ColdAsked => Fill(s, e).cold.value.At?
    case ImmatureAsked => Fill(s, e).immature.value.1.At?
    case _ => false
  }

  predicate Below(when: When, height: int) {
    when.At? ==> when.height <= height
  }

  /** No cache is from a higher chain. */
  predicate FromBelow(s: State) {
    && (s.fills.balance.Some? ==> s.fills.balance.value <= s.height)
    && (s.fills.cold.Some? ==> Below(s.fills.cold.value, s.height))
    && (s.fills.immature.Some? ==> s.fills.immature.value.0 <= s.height && Below(s.fills.immature.value.1, s.height))
  }

  /** The chain grows, and no amount is negative. */
  predicate Grows(s: State, e: Event) {
    match e
    case Arrived(t) => forall k :: 0 <= k < |t.vout| ==> t.vout[k].value >= 0
    case HeightMoved(height) => s.height <= height
    case _ => true
  }

  predicate GrowingRun(start: State, events: seq<Event>) {
    forall i :: 0 <= i < |events| ==> Grows(RunFrom(start, events[..i]), events[i])
  }

  lemma DebtsNever(s: State, e: Event)
    requires NoDebts(s.ledger.txs) && Grows(s, e)
    ensures NoDebts(Step(s, e).ledger.txs)
  {
    hide Balance, Cold, MarkOwn, MarkSpent, Put, Fill, Owns;
    if e.Arrived? {
      assert forall u :: u in Put(s.ledger.txs, e.t) ==> u == e.t || u in s.ledger.txs;
    }
  }

  lemma BelowStill(s: State, e: Event)
    requires FromBelow(s) && Grows(s, e)
    ensures FromBelow(Step(s, e))
  {
    hide Balance, Cold, Process, Owns;
  }

  lemma {:induction false} RunGrows(classify: Classify, height: int, events: seq<Event>)
    requires GrowingRun(Start(classify, height), events)
    ensures FromBelow(RunFrom(Start(classify, height), events)) && NoDebts(RunFrom(Start(classify, height), events).ledger.txs)
  {
    hide Step, Grows;
    if events == [] {
    } else {
      var last := |events| - 1;
      forall i | 0 <= i < last ensures events[..last][..i] == events[..i] {}
      RunGrows(classify, height, events[..last]);
      hide FromBelow, NoDebts;
      DebtsNever(RunFrom(Start(classify, height), events[..last]), events[last]);
      BelowStill(RunFrom(Start(classify, height), events[..last]), events[last]);
    }
  }

  /** An output that counts for the question has ripened since its cache was filled. */
  predicate Ripened(s: State, e: Event)
    requires Timed(s, e)
  {
    var f := Fill(s, e);
    match e
    case BalanceAsked => SomethingRipens(s.ledger, OWN_P2PKH, f.balance.value, s.height)
    case ColdAsked => SomethingRipens(s.ledger, OWN_P2CS, f.cold.value.height, s.height)
    case ImmatureAsked =>
      || SomethingRipens(s.ledger, OWN_P2PKH, f.immature.value.0, s.height)
      || SomethingRipens(s.ledger, OWN_P2CS, f.immature.value.1.height, s.height)
  }

  lemma RightUnripened(s: State, e: Event)
    requires FromBelow(s) && NoDebts(s.ledger.txs) && Timed(s, e)
    ensures Missed(s, e) == 0 <==> !Ripened(s, e)
  {
    hide SomethingRipens, Ripens, NoDebts, Gain, Balance, Cold;
    var f := Fill(s, e);
    match e
    case BalanceAsked => GainPositive(s.ledger, OWN_P2PKH, f.balance.value, s.height);
    case ColdAsked => GainPositive(s.ledger, OWN_P2CS, f.cold.value.height, s.height);
    case ImmatureAsked =>
      GainPositive(s.ledger, OWN_P2PKH, f.immature.value.0, s.height);
      GainPositive(s.ledger, OWN_P2CS, f.immature.value.1.height, s.height);
  }

  lemma TimedAnswer(s: State, e: Event)
    requires FromBelow(s) && NoDebts(s.ledger.txs) && Timed(s, e)
    ensures Answer(s, e) == Recomputed(s, e) <==> !Ripened(s, e)
  {
    AnswerMisses(s, e);
    RightUnripened(s, e);
    hide Answer, Recomputed, FromBelow, NoDebts, Missed, Ripened, Fill;
  }

  /** On a growing chain, from creation on, an answer is right exactly when no output that counts has ripened since its cache was filled. */
  lemma AnswerRight(classify: Classify, height: int, events: seq<Event>, e: Event)
    requires GrowingRun(Start(classify, height), events)
    requires Timed(RunFrom(Start(classify, height), events), e)
    ensures var s := RunFrom(Start(classify, height), events); Answer(s, e) == Recomputed(s, e) <==> !Ripened(s, e)
  {
    hide GrowingRun, RunFrom, Answer, Recomputed, FromBelow, NoDebts, Missed, Ripened, Fill;
    RunGrows(classify, height, events);
    var s := RunFrom(Start(classify, height), events);
    TimedAnswer(s, e);
  }

  lemma GainPositive(l: Ledger, requirement: set<Flag>, before: int, after: int)
    requires before <= after && NoDebts(l.txs)
    ensures Gain(l, requirement, before, after) >= 0
    ensures Gain(l, requirement, before, after) > 0 <==> SomethingRipens(l, requirement, before, after)
  {
    hide Ripens, SomethingRipens;
    NothingUnripens(l, requirement, before, after);
    RipensPositive(l, requirement, before, after);
  }

  // ---------------------------------------------------------------- from one drop of the caches to the next block

  /** Every cache that can be dropped is from the present height. */
  predicate Current(s: State) {
    && (s.fills.balance.Some? ==> s.fills.balance.value == s.height)
    && (s.fills.cold.Some? ==> s.fills.cold.value == At(s.height))
    && (s.fills.immature.Some? ==> s.fills.immature.value == (s.height, At(s.height)))
  }

  /** The first question for the immature delegated balance, with no delegated balance cached. */
  predicate Spoils(s: State, e: Event) {
    e.ImmatureColdAsked? && s.fills.immatureCold.None? && s.fills.cold.None?
  }

  /** Until the height next moves the answers are right, unless that question comes first. */
  lemma {:induction false} RightUntilHeightMoves(s: State, events: seq<Event>, e: Event)
    requires Current(s)
    requires forall i :: 0 <= i < |events| ==> !events[i].HeightMoved? && !Spoils(RunFrom(s, events[..i]), events[i])
    ensures Current(RunFrom(s, events))
    ensures !e.ImmatureColdAsked? ==> Answer(RunFrom(s, events), e) == Recomputed(RunFrom(s, events), e)
  {
    hide Step, Current, Answer, Recomputed, Spoils;
    if events == [] {
    } else {
      var last := |events| - 1;
      forall i | 0 <= i < last ensures events[..last][..i] == events[..i] {}
      RightUntilHeightMoves(s, events[..last], BalanceAsked);
      CurrentStill(RunFrom(s, events[..last]), events[last]);
    }
    if !e.ImmatureColdAsked? {
      CurrentRight(RunFrom(s, events), e);
    }
  }

  lemma CurrentStill(s: State, e: Event)
    requires Current(s) && !e.HeightMoved? && !Spoils(s, e)
    ensures Current(Step(s, e))
  {
    hide Balance, Process, Owns, Cold;
  }

  lemma CurrentRight(s: State, e: Event)
    requires Current(s) && !e.ImmatureColdAsked?
    ensures Answer(s, e) == Recomputed(s, e)
  {
    hide Balance;
  }

  /** Every drop of the caches is such a beginning, and so is creation. */
  lemma DropMakesCurrent(s: State, classify: Classify, height: int)
    ensures Current(Step(s, CachesDropped)) && Current(Start(classify, height))
  {
  }

  /** Asking for the balances in the order the page does never spoils them. */
  lemma {:induction false} PageOrder(classify: Classify, height: int, events: seq<Event>)
    ensures var s := RunFrom(Start(classify, height), events);
            && (s.fills.immature.Some? ==> s.fills.cold.Some?)
            && !Spoils(Step(Step(s, BalanceAsked), ImmatureAsked), ImmatureColdAsked)
  {
    hide Balance, Process, Owns, Cold;
    if events == [] {
    } else {
      PageOrder(classify, height, events[..|events| - 1]);
    }
  }

  // ---------------------------------------------------------------- the immature delegated balance

  /** Its first answer: what is unripe, or nothing at all where no delegated balance is cached, which then counts the unripe. */
  lemma FirstImmatureCold(s: State)
    requires s.fills.immatureCold.None?
    ensures s.fills.cold == Some(At(s.height)) ==> Answer(s, ImmatureColdAsked) == Some(Unripe(s.ledger, OWN_P2CS, s.height))
    ensures s.fills.cold.None? ==>
      && Answer(s, ImmatureColdAsked) == Some(0)
      && Missed(Step(s, ImmatureColdAsked), ColdAsked) == -Unripe(s.ledger, OWN_P2CS, s.height)
  {
    hide Balance, Unripe;
    UnripeRest(s.ledger, OWN_P2CS, s.height);
    AnyHeight(s.ledger, OWN_P2CS, 0, s.height);
  }

  /** And its only one: it never changes again, so that it is right exactly while as much is unripe as the first answer said. */
  lemma {:induction false} ImmatureColdFrozen(s: State, events: seq<Event>)
    requires s.fills.immatureCold.Some?
    ensures var r := RunFrom(s, events);
            && r.fills.immatureCold == s.fills.immatureCold == Answer(r, ImmatureColdAsked)
            && (Answer(r, ImmatureColdAsked) == Recomputed(r, ImmatureColdAsked) <==>
                  Unripe(r.ledger, OWN_P2CS, r.height) == s.fills.immatureCold.value)
  {
    hide Balance, Process, Owns, Cold, Unripe;
    AnswerMisses(RunFrom(s, events), ImmatureColdAsked);
    if events == [] {
    } else {
      ImmatureColdFrozen(s, events[..|events| - 1]);
    }
  }

  // ---------------------------------------------------------------- it goes wrong

  const MINTED := Tx("a", [], [TxOut("", 5)], Some(100), 0)

  const EARLY := [Arrived(MINTED), BalanceAsked, HeightMoved(100)]

  /** Five of a new coin, asked for at height 99 and at height 100 before the caches are dropped, count for nothing. */
  lemma StaleAfterNewBlock()
    ensures var s := RunFrom(Start(_ => OWN_P2PKH, 99), EARLY);
            Plausible(Start(_ => OWN_P2PKH, 99), EARLY) && Answer(s, BalanceAsked) == Some(0) && Recomputed(s, BalanceAsked) == Some(5)
  {
    var start := Start(_ => OWN_P2PKH, 99);
    var s1 := Step(start, Arrived(MINTED));
    var s2 := Step(s1, BalanceAsked);
    var s := Step(s2, HeightMoved(100));
    assert EARLY[..2][..1] == EARLY[..1] && EARLY[..1][..0] == [] == EARLY[..0];
    assert RunFrom(start, EARLY[..0]) == start && RunFrom(start, EARLY[..1]) == s1 && RunFrom(start, EARLY[..2]) == s2 && RunFrom(start, EARLY) == s;
    var l := s.ledger;
    assert l.txs == [MINTED] && StatusAt(l.status, Outpoint("a", 0)) == OWN_P2PKH;
    assert l.txs[..0] == [];
    assert Contribution(l.status, MINTED, OWN_P2PKH, 99, false, 1) == Contribution(l.status, MINTED, OWN_P2PKH, 99, false, 0);
    assert Contribution(l.status, MINTED, OWN_P2PKH, 100, false, 1) == Contribution(l.status, MINTED, OWN_P2PKH, 100, false, 0) + 5;
    NoBalance(l.(txs := []), OWN_P2PKH, 99, false);
    NoBalance(l.(txs := []), OWN_P2PKH, 100, false);
  }

  /** Five of a new delegated coin, asked for as immature first: none is immature, and all five count as delegated already. */
  lemma SpoiledAtOnce()
    ensures var s := Step(Start(_ => OWN_P2CS, 0), Arrived(MINTED));
            && Answer(s, ImmatureColdAsked) == Some(0) && Recomputed(s, ImmatureColdAsked) == Some(5)
            && Answer(Step(s, ImmatureColdAsked), ColdAsked) == Some(5) && Recomputed(Step(s, ImmatureColdAsked), ColdAsked) == Some(0)
  {
    var s := Step(Start(_ => OWN_P2CS, 0), Arrived(MINTED));
    var l := s.ledger;
    assert l.txs == [MINTED] && StatusAt(l.status, Outpoint("a", 0)) == OWN_P2CS;
    assert l.txs[..0] == [];
    assert Contribution(l.status, MINTED, OWN_P2CS, 0, true, 1) == Contribution(l.status, MINTED, OWN_P2CS, 0, true, 0) + 5;
    assert Contribution(l.status, MINTED, OWN_P2CS, 0, false, 1) == Contribution(l.status, MINTED, OWN_P2CS, 0, false, 0);
    NoBalance(l.(txs := []), OWN_P2CS, 0, true);
    NoBalance(l.(txs := []), OWN_P2CS, 0, false);
  }

  // ---------------------------------------------------------------- what every run keeps

  /** A transaction id stands for one list of outputs, and the wallet's own scripts stay its own. */
  ghost predicate Follows(s: State, e: Event) {
    match e
    case Arrived(t) => forall u :: u in s.ledger.txs && u.txid == t.txid ==> u.vout == t.vout
    case Learned(classify) => forall script :: OURS in s.classify(script) ==> OURS in classify(script)
    case _ => true
  }

  ghost predicate Plausible(s: State, events: seq<Event>) {
    forall i :: 0 <= i < |events| ==> Follows(RunFrom(s, events[..i]), events[i])
  }

  /** The kept transactions have an output there, and its script is the wallet's own. */
  ghost predicate KnownOwn(s: State, o: Outpoint) {
    exists t :: t in s.ledger.txs && t.txid == o.txid && o.n < |t.vout| && OURS in s.classify(t.vout[o.n].script)
  }

  /** Only outputs that the wallet knows are flagged as its own. */
  ghost predicate FlagsKnown(s: State) {
    forall o :: OURS in StatusAt(s.ledger.status, o) ==> KnownOwn(s, o)
  }

  lemma StepKeepsFlags(s: State, e: Event)
    requires FlagsKnown(s) && Follows(s, e)
    ensures FlagsKnown(Step(s, e))
  {
    hide Put, MarkOwn, MarkSpent;
    var r := Step(s, e);
    forall o | OURS in StatusAt(r.ledger.status, o) ensures KnownOwn(r, o) {
      if OURS in StatusAt(s.ledger.status, o) {
        var t :| t in s.ledger.txs && t.txid == o.txid && o.n < |t.vout| && OURS in s.classify(t.vout[o.n].script);
        if e.Arrived? && e.t.txid == o.txid {
          assert e.t in r.ledger.txs;
        } else {
          assert t in r.ledger.txs;
        }
      } else {
        assert e.Arrived? && e.t in r.ledger.txs;
      }
    }
  }

  lemma KnownOwns(s: State, t: Tx, k: nat)
    requires Follows(s, Arrived(t)) && k < |t.vout| && KnownOwn(s, Outpoint(t.txid, k))
    ensures Owns(t, s.classify)
  {
  }

  /** A transaction that drops no cache changes no balance. */
  lemma ArrivedKeepsBalance(s: State, t: Tx, requirement: set<Flag>, height: int, immature: bool)
    requires FlagsKnown(s) && Follows(s, Arrived(t))
    requires OURS in requirement && t.vin == [] && !Owns(t, s.classify)
    ensures Balance(Process(s.ledger, t, s.classify), requirement, height, immature) == Balance(s.ledger, requirement, height, immature)
  {
    hide Balance, Process;
    forall k | 0 <= k < |t.vout| ensures OURS !in StatusAt(s.ledger.status, Outpoint(t.txid, k)) {
      if KnownOwn(s, Outpoint(t.txid, k)) {
        KnownOwns(s, t, k);
      }
    }
    KeptBalance(s.ledger, t, s.classify, requirement, height, immature);
  }

  /** Every cache holds the balance of the ledger at the height it was filled at. */
  ghost predicate Held(l: Ledger, balance: Cache, cold: Cache, immature: Cache, fills: Fills) {
    && balance == (if fills.balance.Some? then Some(Balance(l, OWN_P2PKH, fills.balance.value, false)) else None)
    && cold == (if fills.cold.Some? then Some(Cold(l, fills.cold.value)) else None)
    && immature == (if fills.immature.Some? then Some(ImmatureAt(l, fills.immature.value.0, fills.immature.value.1)) else None)
  }

  /** So they do after a transaction that drops none of them. */
  lemma HeldAfter(s: State, t: Tx, balance: Cache, cold: Cache, immature: Cache)
    requires FlagsKnown(s) && Follows(s, Arrived(t)) && t.vin == [] && !Owns(t, s.classify)
    requires Held(s.ledger, balance, cold, immature, s.fills)
    ensures Held(Process(s.ledger, t, s.classify), balance, cold, immature, s.fills)
  {
    hide Balance, Process, FlagsKnown, Follows, Owns, Cold;
    if s.fills.balance.Some? {
      ArrivedKeepsBalance(s, t, OWN_P2PKH, s.fills.balance.value, false);
    }
    if s.fills.cold.Some? {
      ArrivedKeepsCold(s, t, s.fills.cold.value);
    }
    if s.fills.immature.Some? {
      ArrivedKeepsBalance(s, t, OWN, s.fills.immature.value.0, true);
      ArrivedKeepsBalance(s, t, OWN_P2PKH, s.fills.immature.value.0, false);
      ArrivedKeepsCold(s, t, s.fills.immature.value.1);
    }
  }

  lemma ArrivedKeepsCold(s: State, t: Tx, when: When)
    requires FlagsKnown(s) && Follows(s, Arrived(t)) && t.vin == [] && !Owns(t, s.classify)
    ensures Cold(Process(s.ledger, t, s.classify), when) == Cold(s.ledger, when)
  {
    hide Balance, Process, FlagsKnown, Follows, Owns;
    ArrivedKeepsBalance(s, t, OWN_P2CS, if when.At? then when.height else 0, when.Undefined?);
  }

  /** A question's answer is the balance at the height of its cache, and the present balance is that and what was missed. */
  ghost predicate Answered(s: State, e: Event, answer: Option<int>) {
    && answer == Answer(s, e)
    && (IsQuestion(e) ==> answer.Some? && Recomputed(s, e) == Some(answer.value + Missed(s, e)))
  }

  class Wallet {
    const mempool: Pool
    var classify: Classify
    var blockCount: int
    ghost var fills: Fills

    ghost function Snapshot(): State
      reads this, mempool
    {
      State(mempool.Ledger(), classify, blockCount, fills)
    }

    /** The caches hold what they held when filled, and an id names one kept transaction. */
    ghost predicate Valid()
      reads this, mempool
    {
      && FlagsKnown(Snapshot()) && UniqueIds(mempool.txs)
      && Held(mempool.Ledger(), mempool.balance, mempool.coldBalance, mempool.immatureBalance, fills)
      && mempool.immatureColdBalance == fills.immatureCold
    }

    constructor (classify: Classify, height: int)
      ensures Valid() && fresh(mempool)
      ensures Snapshot() == Start(classify, height)
    {
      this.classify := classify;
      blockCount := height;
      mempool := new Pool();
      fills := Fills(None, None, None, None);
    }

    method AddTransaction(t: Tx)
      requires Valid() && Follows(Snapshot(), Arrived(t))
      modifies mempool, this`fills
      ensures Valid() && Snapshot() == Step(old(Snapshot()), Arrived(t))
    {
      StepKeepsFlags(Snapshot(), Arrived(t));
      PutUnique(mempool.txs, t);
      hide Balance, Put, UniqueIds, FlagsKnown, ImmatureAt;
      if t.vin == [] && !Owns(t, classify) {
        HeldAfter(Snapshot(), t, mempool.balance, mempool.coldBalance, mempool.immatureBalance);
      } else {
        fills := Dropped(fills);
      }
      mempool.Process(t, classify);
    }

    method LockCoin(o: Outpoint)
      requires Valid()
      modifies mempool, this`fills
      ensures Valid() && Snapshot() == Step(old(Snapshot()), CoinLocked(o))
    {
      StepKeepsFlags(Snapshot(), CoinLocked(o));
      mempool.AddOutpointStatus(o, {LOCKED});
      fills := Dropped(fills);
    }

    method UnlockCoin(o: Outpoint)
      requires Valid()
      modifies mempool, this`fills
      ensures Valid() && Snapshot() == Step(old(Snapshot()), CoinUnlocked(o))
    {
      StepKeepsFlags(Snapshot(), CoinUnlocked(o));
      mempool.RemoveOutpointStatus(o, {LOCKED});
      fills := Dropped(fills);
    }

    /** A question: the cached balance, or that of the present height, which is then cached. */
    method Ask(e: Event) returns (answer: Option<int>)
      requires Valid() && IsQuestion(e)
      modifies mempool, this`fills
      ensures Valid() && Snapshot() == Step(old(Snapshot()), e)
      ensures answer == Answer(old(Snapshot()), e)
    {
      hide Balance, FlagsKnown, UniqueIds, Cold;
      ghost var before := Snapshot();
      StepKeepsFlags(before, e);
      AnyHeight(before.ledger, OWN, blockCount, Default(fills.balance, blockCount));
      fills := Fill(before, e);
      var value;
      match e {
        case BalanceAsked => value := mempool.GetBalance(blockCount);
        case ColdAsked => value := mempool.GetColdBalance(At(blockCount));
        case ImmatureAsked => value := mempool.GetImmatureBalance(blockCount);
        case ImmatureColdAsked => value := mempool.GetImmatureColdBalance(blockCount);
      }
      answer := Some(value);
    }

    /** One event; `answer` is what a question is answered. */
    method Handle(e: Event) returns (answer: Option<int>)
      requires Valid() && Follows(Snapshot(), e)
      modifies this, mempool
      ensures Valid() && Snapshot() == Step(old(Snapshot()), e)
      ensures Answered(old(Snapshot()), e, answer)
    {
      StepKeepsFlags(Snapshot(), e);
      if IsQuestion(e) {
        AnswerMisses(Snapshot(), e);
      }
      hide Balance, Process, Gain, Held, Recomputed, Missed;
      answer := None;
      match e
      case Arrived(t) => AddTransaction(t);
      case Learned(more) => classify := more;
      case CoinLocked(o) => LockCoin(o);
      case CoinUnlocked(o) => UnlockCoin(o);
      case HeightMoved(height) => blockCount := height;
      case CachesDropped =>
        mempool.InvalidateBalanceCache();
        fills := Dropped(fills);
        NothingHeld(mempool.Ledger());
      case _ => answer := Ask(e);
    }
  }

  lemma NothingHeld(l: Ledger)
    ensures forall f :: Held(l, None, None, None, Dropped(f))
  {
  }

  /**
   A wallet from its creation through any run: each question is answered with the
   balance, of what had been seen by then, at the height its cache was filled at;
   the present balance is that and what has ripened in between.
   */
  method Answers(classify: Classify, height: int, events: seq<Event>) returns (answers: seq<Option<int>>)
    requires Plausible(Start(classify, height), events)
    ensures |answers| == |events|
    ensures forall i :: 0 <= i < |events| ==> Answered(RunFrom(Start(classify, height), events[..i]), events[i], answers[i])
  {
    hide Step, Follows, FlagsKnown, Held, Answered;
    var wallet := new Wallet(classify, height);
    ghost var start := wallet.Snapshot();
    answers := [];
    for n := 0 to |events|
      invariant fresh(wallet) && fresh(wallet.mempool)
      invariant wallet.Valid() && wallet.Snapshot() == RunFrom(start, events[..n]) && |answers| == n
      invariant forall i :: 0 <= i < n ==> Answered(RunFrom(start, events[..i]), events[i], answers[i])
    {
      assert events[..n + 1][..n] == events[..n];
      var answer := wallet.Handle(events[n]);
      answers := answers + [answer];
    }
  }
}
