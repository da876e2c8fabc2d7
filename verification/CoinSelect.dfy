/** Choosing one or two coins for a transfer. */
module CoinSelect {
  import opened Wrappers
  import opened Bytes
  import opened Coins
  import opened Fees
  import PqWire

  datatype Payment = Payment(value: int, address: string)

  datatype Selection = Selection(inputs: seq<Utxo>, outputs: seq<Payment>, fee: int, change: int)

  datatype Failure =
    | AmountNotPositive
    | AmountBelowDust
    | RateNotPositive
    | NoRecipient
    | InsufficientFunds
    | NegativeCoin
    | NeedsChangeAddress
    | TooManyInputs

  datatype Outcome = Chosen(selection: Selection) | Refused(failure: Failure)

  /** What is to be paid; an empty address is a missing one. */
  datatype Demand = Demand(amount: int, rate: int, recipient: string, changeAddress: string)

  function Paid(outputs: seq<Payment>): int {
    if outputs == [] then 0 else outputs[0].value + Paid(outputs[1..])
  }

  lemma TwoPaid(a: Payment, b: Payment)
    ensures Paid([a, b]) == a.value + b.value && Paid([a]) == a.value
  {
    assert Paid([a]) == a.value + Paid([]) && Paid([b]) == b.value + Paid([]);
    assert [a, b][1..] == [b];
  }

  predicate Payable(d: Demand) {
    d.amount >= DUST && d.rate > 0 && d.recipient != ""
  }

  /** The coins cover the amount and the fee of a transfer without change. */
  predicate Enough(d: Demand, coins: seq<Utxo>)
    requires d.rate > 0
  {
    TotalOf(coins) >= d.amount + FeeFor(|coins|, 1, d.rate)
  }

  /** What is left when there is no change output. */
  function Leftover(d: Demand, coins: seq<Utxo>): int
    requires d.rate > 0
  {
    TotalOf(coins) - d.amount - FeeFor(|coins|, 1, d.rate)
  }

  /** Value is conserved, nothing below dust is paid, and the fee is at least the rate's for the transfer's own shape and bounded. */
  predicate Sound(d: Demand, s: Selection)
    requires d.rate > 0
  {
    && TotalOf(s.inputs) == Paid(s.outputs) + s.fee
    && 1 <= |s.outputs| <= 2 && s.outputs[0] == Payment(d.amount, d.recipient)
    && (forall i :: 0 <= i < |s.outputs| ==> s.outputs[i].value >= 114600)
    && (if |s.outputs| == 2 then s.outputs[1] == Payment(s.change, d.changeAddress) && d.changeAddress != "" else s.change == 0)
    && FeeFor(|s.inputs|, |s.outputs|, d.rate) <= s.fee < FeeFor(|s.inputs|, 2, d.rate) + 114600
  }

  /** `buildSelection`: `NotEnough` is its null. */
  datatype Attempt = NotEnough | ChangeAddressMissing | Built(selection: Selection)

  method BuildSelection(d: Demand, inputs: seq<Utxo>) returns (r: Attempt)
    requires Payable(d)
    ensures r.NotEnough? <==> !Enough(d, inputs)
    ensures r.ChangeAddressMissing? <==>
      Enough(d, inputs) && d.changeAddress == "" && Leftover(d, inputs) >= DUST
    ensures r.Built? ==> r.selection.inputs == inputs && Sound(d, r.selection)
    ensures r.Built? && d.changeAddress != "" ==>
      (|r.selection.outputs| == 2 <==> TotalOf(inputs) - d.amount - FeeFor(|inputs|, 2, d.rate) >= DUST)
    ensures r.Built? && |r.selection.outputs| == 2 ==> r.selection.fee == FeeFor(|inputs|, 2, d.rate)
  {
    hide FeeFor;
    SecondOutputCosts(|inputs|, d.rate);
    var total := TotalOf(inputs);
    var oneOutputFee := FeeFor(|inputs|, 1, d.rate);
    if total < d.amount + oneOutputFee {
      return NotEnough;
    }
    var outputs := [Payment(d.amount, d.recipient)];
    TwoPaid(outputs[0], outputs[0]);
    var oneOutputChange := total - d.amount - oneOutputFee;
    if oneOutputChange >= DUST {
      if d.changeAddress == "" {
        return ChangeAddressMissing;
      }
      var twoOutputFee := FeeFor(|inputs|, 2, d.rate);
      var twoOutputChange := total - d.amount - twoOutputFee;
      if twoOutputChange >= DUST {
        outputs := outputs + [Payment(twoOutputChange, d.changeAddress)];
        TwoPaid(outputs[0], outputs[1]);
        assert outputs == [outputs[0], outputs[1]];
        return Built(Selection(inputs, outputs, twoOutputFee, twoOutputChange));
      }
    }
    r := Built(Selection(inputs, outputs, total - d.amount, 0));
  }

  // ---------------------------------------------------------------- the best choice

  ghost predicate SomeSingle(d: Demand, utxos: seq<Utxo>)
    requires d.rate > 0
  {
    exists i :: 0 <= i < |utxos| && Enough(d, [utxos[i]])
  }

  /** Two coins of the list, at different positions, that suffice. */
  ghost predicate SomePair(d: Demand, utxos: seq<Utxo>)
    requires d.rate > 0
  {
    exists a, b :: multiset{a, b} <= multiset(utxos) && Enough(d, [a, b])
  }

  /** The smallest sufficient coin if there is one, otherwise a sufficient pair of least total. */
  ghost predicate Best(d: Demand, utxos: seq<Utxo>, inputs: seq<Utxo>)
    requires d.rate > 0
  {
    && multiset(inputs) <= multiset(utxos)
    && Enough(d, inputs)
    && if SomeSingle(d, utxos)
       then |inputs| == 1 && forall i :: 0 <= i < |utxos| && Enough(d, [utxos[i]]) ==> inputs[0].value <= utxos[i].value
       else |inputs| == 2 && forall a, b :: multiset{a, b} <= multiset(utxos) && Enough(d, [a, b]) ==> TotalOf(inputs) <= a.value + b.value
  }

  predicate FirstSingle(d: Demand, sorted: seq<Utxo>, i: nat)
    requires d.rate > 0
  {
    i < |sorted| && Enough(d, [sorted[i]]) && forall k :: 0 <= k < i ==> !Enough(d, [sorted[k]])
  }

  /** The first sufficient pair in order of position, not of total. */
  predicate FirstPair(d: Demand, sorted: seq<Utxo>, i: nat, j: nat)
    requires d.rate > 0
  {
    && i < j < |sorted| && Enough(d, [sorted[i], sorted[j]])
    && forall a, b :: 0 <= a < b < |sorted| && Visited(a, b, i, j) ==> !Enough(d, [sorted[a], sorted[b]])
  }

  /** The first choice that is looked at and suffices leaves change to pay. */
  ghost predicate FirstLeavesChange(d: Demand, sorted: seq<Utxo>)
    requires d.rate > 0
  {
    hide FeeFor;
    if SomeSingle(d, sorted) then exists i: nat :: FirstSingle(d, sorted, i) && Leftover(d, [sorted[i]]) >= DUST
    else exists i: nat, j: nat :: FirstPair(d, sorted, i, j) && Leftover(d, [sorted[i], sorted[j]]) >= DUST
  }

  predicate NoNegative(utxos: seq<Utxo>) {
    forall i :: 0 <= i < |utxos| ==> utxos[i].value >= 0
  }

  /** The checks before any coin is looked at. */
  function Invalid(d: Demand, utxos: seq<Utxo>): (r: seq<Failure>)
    ensures |r| <= 1
  {
    if d.amount <= 0 then [AmountNotPositive]
    else if d.amount < DUST then [AmountBelowDust]
    else if d.rate <= 0 then [RateNotPositive]
    else if d.recipient == "" then [NoRecipient]
    else if utxos == [] then [InsufficientFunds]
    else if !NoNegative(utxos) then [NegativeCoin]
    else []
  }

  /**
   `selectCoins`. With a change address it is optimal and complete; without one
   it stops exactly when the first sufficient choice it meets leaves change.
   */
  method SelectCoins(d: Demand, utxos: seq<Utxo>) returns (r: Outcome)
    ensures Invalid(d, utxos) != [] ==> r == Refused(Invalid(d, utxos)[0])
    ensures r.Chosen? ==> Payable(d) && Sound(d, r.selection) && Best(d, utxos, r.selection.inputs)
    ensures Invalid(d, utxos) == [] && r.Refused? ==>
      if SomeSingle(d, utxos) || SomePair(d, utxos) then r.failure == NeedsChangeAddress && d.changeAddress == ""
      else r.failure == if TotalOf(utxos) >= d.amount + FeeFor(3, 1, d.rate) then TooManyInputs else InsufficientFunds
    ensures Invalid(d, utxos) == [] && d.changeAddress == "" ==>
      (r == Refused(NeedsChangeAddress) <==> FirstLeavesChange(d, Sort(utxos)))
  {
    hide FeeFor, FirstLeavesChange;
    if d.amount <= 0 {
      return Refused(AmountNotPositive);
    }
    if d.amount < DUST {
      return Refused(AmountBelowDust);
    }
    if d.rate <= 0 {
      return Refused(RateNotPositive);
    }
    if d.recipient == "" {
      return Refused(NoRecipient);
    }
    if utxos == [] {
      return Refused(InsufficientFunds);
    }
    if !NoNegative(utxos) {
      return Refused(NegativeCoin);
    }
    var sorted := Sort(utxos);
    r := TrySingles(d, sorted);
    if r == Refused(InsufficientFunds) {
      r := TryPairs(d, sorted);
    }
    if r == Refused(InsufficientFunds) {
      if TotalOf(utxos) >= d.amount + FeeFor(3, 1, d.rate) {
        r := Refused(TooManyInputs);
      }
    }
    SameCoins(d, utxos, sorted);
    if !SomeSingle(d, sorted) && !SomePair(d, sorted) {
      NothingFirst(d, sorted);
    }
  }

  lemma NothingFirst(d: Demand, sorted: seq<Utxo>)
    requires d.rate > 0 && !SomeSingle(d, sorted) && !SomePair(d, sorted)
    ensures !FirstLeavesChange(d, sorted)
  {
    hide FeeFor;
    forall i, j | 0 <= i < j < |sorted| ensures !FirstPair(d, sorted, i, j) {
      PositionsPair(sorted, i, j);
    }
  }

  lemma SameCoins(d: Demand, utxos: seq<Utxo>, sorted: seq<Utxo>)
    requires d.rate > 0 && multiset(sorted) == multiset(utxos)
    ensures SomeSingle(d, utxos) == SomeSingle(d, sorted) && SomePair(d, utxos) == SomePair(d, sorted)
    ensures forall inputs :: Best(d, sorted, inputs) ==> Best(d, utxos, inputs)
  {
    hide FeeFor, TotalOf;
    forall i | 0 <= i < |utxos| ensures utxos[i] in sorted {
      assert utxos[i] in multiset(utxos);
    }
    forall i | 0 <= i < |sorted| ensures sorted[i] in utxos {
      assert sorted[i] in multiset(sorted);
    }
  }

  /** Singles in ascending order: the first that suffices. */
  method TrySingles(d: Demand, sorted: seq<Utxo>) returns (r: Outcome)
    requires Payable(d) && Ascending(sorted)
    ensures r == Refused(InsufficientFunds) <==> !SomeSingle(d, sorted)
    ensures r.Refused? ==> r.failure == InsufficientFunds || (r.failure == NeedsChangeAddress && d.changeAddress == "")
    ensures r.Chosen? ==> Sound(d, r.selection) && Best(d, sorted, r.selection.inputs)
    ensures d.changeAddress == "" && SomeSingle(d, sorted) ==> (r == Refused(NeedsChangeAddress) <==> FirstLeavesChange(d, sorted))
  {
    hide FeeFor;
    for i := 0 to |sorted|
      invariant forall k :: 0 <= k < i ==> !Enough(d, [sorted[k]])
    {
      var attempt := BuildSelection(d, [sorted[i]]);
      assert !attempt.NotEnough? ==> FirstSingle(d, sorted, i) && forall k: nat :: FirstSingle(d, sorted, k) ==> k == i;
      match attempt
      case NotEnough =>
      case ChangeAddressMissing => return Refused(NeedsChangeAddress);
      case Built(selection) =>
        PositionsOne(sorted, i);
        return Chosen(selection);
    }
    r := Refused(InsufficientFunds);
  }

  /** One pair: skipped when it is no better than the best so far. */
  method TryPair(d: Demand, sorted: seq<Utxo>, oldBest: Outcome, oldTotal: int, i: nat, j: nat)
    returns (best: Outcome, bestTotal: int, stopped: bool)
    requires Payable(d) && i < j < |sorted| && BestSoFar(d, sorted, oldBest, oldTotal, i, j)
    ensures !stopped ==> BestSoFar(d, sorted, best, bestTotal, i, j + 1)
    ensures stopped ==> d.changeAddress == "" && SomePair(d, sorted) && (!SomeSingle(d, sorted) ==> FirstLeavesChange(d, sorted))
  {
    hide FeeFor, SomeSingle, SomePair, BestSoFar, FirstLeavesChange, Sound;
    best, bestTotal, stopped := oldBest, oldTotal, false;
    var pair := [sorted[i], sorted[j]];
    var total := TotalOf(pair);
    if best.Chosen? && total >= bestTotal {
      SkipPair(d, sorted, best, bestTotal, i, j);
      return;
    }
    var attempt := BuildSelection(d, pair);
    match attempt
    case NotEnough =>
      SkipPair(d, sorted, best, bestTotal, i, j);
    case ChangeAddressMissing =>
      stopped := true;
      StopPair(d, sorted, best, bestTotal, i, j);
    case Built(selection) =>
      best := Chosen(selection);
      bestTotal := total;
      TakePair(d, sorted, oldBest, oldTotal, selection, i, j);
  }

  lemma VisitedNext(row: nat, column: nat)
    ensures forall a, b :: Visited(a, b, row, column + 1) <==> Visited(a, b, row, column) || (a == row && b == column)
  {
  }

  lemma SkipPair(d: Demand, sorted: seq<Utxo>, best: Outcome, bestTotal: int, i: nat, j: nat)
    requires Payable(d) && i < j < |sorted| && BestSoFar(d, sorted, best, bestTotal, i, j)
    requires Enough(d, [sorted[i], sorted[j]]) ==> best.Chosen? && TotalOf([sorted[i], sorted[j]]) >= bestTotal
    ensures BestSoFar(d, sorted, best, bestTotal, i, j + 1)
  {
    hide FeeFor, Sound, Leftover, Visited;
    TwoTotal(sorted[i], sorted[j]);
    VisitedNext(i, j);
  }

  lemma TakePair(d: Demand, sorted: seq<Utxo>, best: Outcome, bestTotal: int, selection: Selection, i: nat, j: nat)
    requires Payable(d) && i < j < |sorted| && BestSoFar(d, sorted, best, bestTotal, i, j)
    requires Enough(d, [sorted[i], sorted[j]]) && selection.inputs == [sorted[i], sorted[j]] && Sound(d, selection)
    requires best.Refused? || TotalOf([sorted[i], sorted[j]]) < bestTotal
    requires d.changeAddress == "" ==> Leftover(d, [sorted[i], sorted[j]]) < DUST
    ensures BestSoFar(d, sorted, Chosen(selection), TotalOf([sorted[i], sorted[j]]), i, j + 1)
  {
    hide FeeFor, Sound, Leftover, Enough, Visited;
    TwoTotal(sorted[i], sorted[j]);
    VisitedNext(i, j);
    PositionsPair(sorted, i, j);
    assert multiset(selection.inputs) == multiset{sorted[i], sorted[j]};
    assert Visited(i, j, i, j + 1);
  }

  lemma StopPair(d: Demand, sorted: seq<Utxo>, best: Outcome, bestTotal: int, i: nat, j: nat)
    requires Payable(d) && i < j < |sorted| && BestSoFar(d, sorted, best, bestTotal, i, j) && d.changeAddress == ""
    requires Enough(d, [sorted[i], sorted[j]]) && Leftover(d, [sorted[i], sorted[j]]) >= DUST
    requires best.Refused? || TotalOf([sorted[i], sorted[j]]) < bestTotal
    ensures SomePair(d, sorted) && (!SomeSingle(d, sorted) ==> FirstLeavesChange(d, sorted))
  {
    hide FeeFor, SomeSingle, Sound;
    PositionsPair(sorted, i, j);
    assert best.Refused?;
    assert FirstPair(d, sorted, i, j);
  }

  /** Pairs in order of position: the least total that suffices. */
  method TryPairs(d: Demand, sorted: seq<Utxo>) returns (r: Outcome)
    requires Payable(d) && !SomeSingle(d, sorted)
    ensures r == Refused(InsufficientFunds) <==> !SomePair(d, sorted)
    ensures r.Refused? ==> r.failure == InsufficientFunds || (r.failure == NeedsChangeAddress && d.changeAddress == "")
    ensures r.Chosen? ==> Sound(d, r.selection) && Best(d, sorted, r.selection.inputs)
    ensures d.changeAddress == "" ==> (r == Refused(NeedsChangeAddress) <==> FirstLeavesChange(d, sorted))
  {
    hide FeeFor, BestSoFar, SomeSingle, SomePair, Best, Sound, FirstLeavesChange;
    var best := Refused(InsufficientFunds);
    var bestTotal := 0;
    NothingSeen(d, sorted);
    for i := 0 to |sorted|
      invariant BestSoFar(d, sorted, best, bestTotal, i, i + 1)
    {
      for j := i + 1 to |sorted|
        invariant BestSoFar(d, sorted, best, bestTotal, i, j)
      {
        var stopped;
        best, bestTotal, stopped := TryPair(d, sorted, best, bestTotal, i, j);
        if stopped {
          return Refused(NeedsChangeAddress);
        }
      }
      NextRow(d, sorted, best, bestTotal, i);
    }
    BestSoFarKind(d, sorted, best, bestTotal, |sorted|, |sorted| + 1);
    AllPairsSeen(d, sorted, best, bestTotal);
    r := best;
  }

  ghost predicate BestSoFar(d: Demand, sorted: seq<Utxo>, best: Outcome, bestTotal: int, row: nat, column: nat)
    requires Payable(d)
  {
    && (best.Refused? ==> best.failure == InsufficientFunds)
    && (best.Chosen? ==>
          && Sound(d, best.selection) && Enough(d, best.selection.inputs) && |best.selection.inputs| == 2
          && multiset(best.selection.inputs) <= multiset(sorted) && TotalOf(best.selection.inputs) == bestTotal)
    && (forall i, j :: 0 <= i < j < |sorted| && Visited(i, j, row, column) && Enough(d, [sorted[i], sorted[j]]) ==>
          best.Chosen? && bestTotal <= sorted[i].value + sorted[j].value)
    && (best.Chosen? ==> exists i: nat, j: nat :: i < j < |sorted| && Visited(i, j, row, column) && Enough(d, [sorted[i], sorted[j]]))
    && (best.Chosen? && d.changeAddress == "" ==> Leftover(d, best.selection.inputs) < DUST)
    && (forall i, j :: 0 <= i < j < |sorted| && Visited(i, j, row, column) && FirstPair(d, sorted, i, j) && d.changeAddress == "" ==>
          Leftover(d, [sorted[i], sorted[j]]) < DUST)
  }

  lemma NothingSeen(d: Demand, sorted: seq<Utxo>)
    requires Payable(d)
    ensures BestSoFar(d, sorted, Refused(InsufficientFunds), 0, 0, 1)
  {
  }

  lemma NextRow(d: Demand, sorted: seq<Utxo>, best: Outcome, bestTotal: int, row: nat)
    requires Payable(d) && BestSoFar(d, sorted, best, bestTotal, row, |sorted|)
    ensures BestSoFar(d, sorted, best, bestTotal, row + 1, row + 2)
  {
    forall i, j | 0 <= i < j < |sorted| ensures Visited(i, j, row + 1, row + 2) <==> Visited(i, j, row, |sorted|) {}
  }

  lemma BestSoFarKind(d: Demand, sorted: seq<Utxo>, best: Outcome, bestTotal: int, row: nat, column: nat)
    requires Payable(d) && BestSoFar(d, sorted, best, bestTotal, row, column)
    ensures best.Refused? ==> best.failure == InsufficientFunds
    ensures best.Chosen? ==> Sound(d, best.selection)
  {
  }

  lemma Commutes(d: Demand, a: Utxo, b: Utxo)
    requires d.rate > 0
    ensures Enough(d, [a, b]) == Enough(d, [b, a]) && TotalOf([a, b]) == a.value + b.value
  {
    TwoTotal(a, b);
    TwoTotal(b, a);
  }

  lemma AllPairsSeen(d: Demand, sorted: seq<Utxo>, best: Outcome, bestTotal: int)
    requires Payable(d) && !SomeSingle(d, sorted) && BestSoFar(d, sorted, best, bestTotal, |sorted|, |sorted| + 1)
    ensures best.Chosen? ==> Best(d, sorted, best.selection.inputs)
    ensures best.Refused? ==> !SomePair(d, sorted)
    ensures best.Chosen? ==> SomePair(d, sorted)
    ensures d.changeAddress == "" ==> !FirstLeavesChange(d, sorted)
  {
    hide FeeFor;
    if best.Chosen? {
      var inputs := best.selection.inputs;
      assert inputs == [inputs[0], inputs[1]];
    }
    forall i, j | FirstPair(d, sorted, i, j) ensures Visited(i, j, |sorted|, |sorted| + 1) {}
    forall a, b | multiset{a, b} <= multiset(sorted) && Enough(d, [a, b]) ensures best.Chosen? && bestTotal <= a.value + b.value {
      var i, j := PairPositions(sorted, a, b);
      Commutes(d, a, b);
      assert Visited(i, j, |sorted|, |sorted| + 1) && Visited(j, i, |sorted|, |sorted| + 1);
    }
  }

  lemma FeesAtThousand()
    ensures FeeFor(1, 1, 1000) == 3835 && FeeFor(2, 1, 1000) == 7608
  {
  }

  /** Without a change address the choice can fail although a pair suffices and leaves nothing. */
  lemma LaterPairLeavesNothing() returns (d: Demand, utxos: seq<Utxo>)
    ensures d.rate > 0 && d.changeAddress == "" && |utxos| == 4 && Invalid(d, utxos) == [] && FirstLeavesChange(d, Sort(utxos))
    ensures Enough(d, [utxos[1], utxos[2]]) && Leftover(d, [utxos[1], utxos[2]]) == 0
  {
    FeesAtThousand();
    hide FeeFor, TotalOf, Sort;
    d := Demand(1_000_000, 1000, "to", "");
    var a, b, c, e := Utxo("a", 0, 200_000, ""), Utxo("b", 0, 500_000, ""), Utxo("c", 0, 507_608, ""), Utxo("d", 0, 1_000_000, "");
    utxos := [a, b, c, e];
    SortOfAscending(utxos);
    TwoTotal(a, b);
    TwoTotal(b, c);
    TwoTotal(c, a);
    TwoTotal(e, a);
    TwoTotal(a, c);
    TwoTotal(a, e);
    assert !SomeSingle(d, utxos);
    assert FirstPair(d, utxos, 0, 3) && Leftover(d, [utxos[0], utxos[3]]) >= DUST;
  }

  /** The signed transfer of a selection pays the demanded rate for each of its bytes. */
  lemma SelectionPaysRate(d: Demand, s: Selection, t: PqWire.Transaction, raw: seq<Byte>)
    requires d.rate > 0 && Sound(d, s)
    requires |t.inputs| == |s.inputs| && |t.outputs| == |s.outputs|
    requires PqWire.Serialize(t) == Some(raw) && Standard(t) && !PqWire.ModeHasData(t.mode)
    ensures |raw| * d.rate <= 1000 * s.fee
  {
    TransferSizeExact(t, raw);
    FeeIsLeast(|raw|, d.rate, s.fee);
  }
}
