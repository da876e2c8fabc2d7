/** Choosing the coins that pay for a masternode registration. */
module Masternode {
  import opened Wrappers
  import opened Coins
  import opened Fees

  // ---------------------------------------------------------------- fee coins

  datatype FeeChoice = FeeChoice(inputs: seq<Utxo>, fee: int, change: int)

  function RegistrationFee(inputs: nat, rate: nat): nat {
    FeeAt(EstimateRegistrationSize(inputs, 1), rate)
  }

  /** The coins pay the registration's fee and leave change above dust. */
  predicate Pays(coins: seq<Utxo>, rate: nat) {
    TotalOf(coins) - RegistrationFee(|coins|, rate) >= 114600
  }

  /** The coins that may pay: of positive value, and not the collateral. */
  function Usable(utxos: seq<Utxo>, txid: string, vout: int): (r: seq<Utxo>)
    ensures forall i :: 0 <= i < |r| ==> r[i] in utxos && r[i].value > 0 && !(r[i].txid == txid && r[i].vout == vout)
  {
    if utxos == [] then []
    else if (utxos[0].txid == txid && utxos[0].vout == vout) || utxos[0].value <= 0 then Usable(utxos[1..], txid, vout)
    else [utxos[0]] + Usable(utxos[1..], txid, vout)
  }

  lemma {:induction false} UsableWithin(utxos: seq<Utxo>, txid: string, vout: int)
    ensures multiset(Usable(utxos, txid, vout)) <= multiset(utxos)
    ensures forall u: Utxo :: u.value > 0 && !(u.txid == txid && u.vout == vout) ==> multiset(Usable(utxos, txid, vout))[u] == multiset(utxos)[u]
  {
    if utxos == [] {
    } else {
      assert utxos == [utxos[0]] + utxos[1..];
      UsableWithin(utxos[1..], txid, vout);
    }
  }

  ghost predicate SomeSingle(coins: seq<Utxo>, rate: nat) {
    exists i :: 0 <= i < |coins| && Pays([coins[i]], rate)
  }

  ghost predicate SomePair(coins: seq<Utxo>, rate: nat) {
    exists a, b :: multiset{a, b} <= multiset(coins) && Pays([a, b], rate)
  }

  /** The smallest coin that pays if there is one, otherwise a paying pair of least total. */
  ghost predicate Best(coins: seq<Utxo>, rate: nat, inputs: seq<Utxo>) {
    && multiset(inputs) <= multiset(coins) && Pays(inputs, rate)
    && if SomeSingle(coins, rate)
       then |inputs| == 1 && forall i :: 0 <= i < |coins| && Pays([coins[i]], rate) ==> inputs[0].value <= coins[i].value
       else |inputs| == 2 && forall a, b :: multiset{a, b} <= multiset(coins) && Pays([a, b], rate) ==> TotalOf(inputs) <= a.value + b.value
  }

  predicate Sound(rate: nat, c: FeeChoice) {
    c.fee == RegistrationFee(|c.inputs|, rate) && c.change >= 114600 && TotalOf(c.inputs) == c.change + c.fee
  }

  method Attempt(inputs: seq<Utxo>, rate: nat) returns (r: Option<FeeChoice>)
    ensures r.Some? <==> Pays(inputs, rate)
    ensures r.Some? ==> r.value.inputs == inputs && Sound(rate, r.value)
  {
    hide RegistrationFee;
    var fee := RegistrationFee(|inputs|, rate);
    var total := TotalOf(inputs);
    var change := total - fee;
    r := if change >= DUST then Some(FeeChoice(inputs, fee, change)) else None;
  }

  /** `selectMasternodeFeeCoins`: None where it throws. Optimal and complete over the usable coins. */
  method SelectFeeCoins(utxos: seq<Utxo>, txid: string, vout: int, rate: int, changeAddress: string) returns (r: Option<FeeChoice>)
    ensures r.Some? ==> changeAddress != "" && rate > 0 && Sound(rate, r.value) && Best(Usable(utxos, txid, vout), rate, r.value.inputs)
    ensures changeAddress != "" && rate > 0 ==>
      (r.Some? <==> SomeSingle(Usable(utxos, txid, vout), rate) || SomePair(Usable(utxos, txid, vout), rate))
  {
    hide RegistrationFee, Pays, Sort, Usable, TotalOf, Ascending, Best, SomePair;
    if changeAddress == "" || rate <= 0 {
      return None;
    }
    var candidates := Sort(Usable(utxos, txid, vout));
    SameCoins(Usable(utxos, txid, vout), candidates, rate);
    for i := 0 to |candidates|
      invariant forall k :: 0 <= k < i ==> !Pays([candidates[k]], rate)
    {
      r := Attempt([candidates[i]], rate);
      if r.Some? {
        FirstIsBest(candidates, rate, i);
        return;
      }
    }
    r := SelectPair(candidates, rate);
  }

  lemma FirstIsBest(candidates: seq<Utxo>, rate: nat, i: nat)
    requires Ascending(candidates) && i < |candidates| && Pays([candidates[i]], rate)
    requires forall k :: 0 <= k < i ==> !Pays([candidates[k]], rate)
    ensures Best(candidates, rate, [candidates[i]]) && SomeSingle(candidates, rate)
  {
    hide RegistrationFee;
    PositionsOne(candidates, i);
  }

  lemma SameCoins(coins: seq<Utxo>, sorted: seq<Utxo>, rate: nat)
    requires multiset(sorted) == multiset(coins)
    ensures SomeSingle(coins, rate) == SomeSingle(sorted, rate) && SomePair(coins, rate) == SomePair(sorted, rate)
    ensures forall inputs :: Best(sorted, rate, inputs) ==> Best(coins, rate, inputs)
  {
    hide Pays, TotalOf;
    forall i | 0 <= i < |coins| ensures coins[i] in sorted {
      assert coins[i] in multiset(coins);
    }
    forall i | 0 <= i < |sorted| ensures sorted[i] in coins {
      assert sorted[i] in multiset(sorted);
    }
  }

  ghost predicate BestSoFar(coins: seq<Utxo>, rate: nat, best: Option<FeeChoice>, row: nat, column: nat) {
    && (best.Some? ==>
          && Sound(rate, best.value) && |best.value.inputs| == 2 && Pays(best.value.inputs, rate)
          && multiset(best.value.inputs) <= multiset(coins))
    && (forall i, j :: 0 <= i < j < |coins| && Visited(i, j, row, column) && Pays([coins[i], coins[j]], rate) ==>
          best.Some? && TotalOf(best.value.inputs) <= coins[i].value + coins[j].value)
  }

  method SelectPair(candidates: seq<Utxo>, rate: nat) returns (best: Option<FeeChoice>)
    requires !SomeSingle(candidates, rate)
    ensures best.Some? <==> SomePair(candidates, rate)
    ensures best.Some? ==> Sound(rate, best.value) && Best(candidates, rate, best.value.inputs)
  {
    hide RegistrationFee, Pays, TotalOf, SomeSingle, SomePair, Best, Sound;
    best := None;
    for i := 0 to |candidates|
      invariant BestSoFar(candidates, rate, best, i, i + 1)
    {
      for j := i + 1 to |candidates|
        invariant BestSoFar(candidates, rate, best, i, j)
      {
        var selected := Attempt([candidates[i], candidates[j]], rate);
        ghost var before := best;
        if selected.Some? {
          if best.None? || selected.value.change < best.value.change {
            best := selected;
          }
        }
        PairTried(candidates, rate, before, selected, best, i, j);
      }
      NextRow(candidates, rate, best, i);
    }
    AllPairsSeen(candidates, rate, best);
  }

  lemma PairTried(coins: seq<Utxo>, rate: nat, before: Option<FeeChoice>, selected: Option<FeeChoice>, best: Option<FeeChoice>, i: nat, j: nat)
    requires i < j < |coins| && BestSoFar(coins, rate, before, i, j)
    requires selected.Some? <==> Pays([coins[i], coins[j]], rate)
    requires selected.Some? ==> selected.value.inputs == [coins[i], coins[j]] && Sound(rate, selected.value)
    requires best == if selected.Some? && (before.None? || selected.value.change < before.value.change) then selected else before
    ensures BestSoFar(coins, rate, best, i, j + 1)
  {
    hide RegistrationFee, Pays;
    TwoTotal(coins[i], coins[j]);
    PositionsPair(coins, i, j);
    if selected.Some? {
      assert multiset(selected.value.inputs) == multiset{coins[i], coins[j]};
    }
  }

  lemma NextRow(coins: seq<Utxo>, rate: nat, best: Option<FeeChoice>, row: nat)
    requires BestSoFar(coins, rate, best, row, |coins|)
    ensures BestSoFar(coins, rate, best, row + 1, row + 2)
  {
    hide RegistrationFee, Pays, TotalOf;
    forall i, j | 0 <= i < j < |coins| ensures Visited(i, j, row + 1, row + 2) <==> Visited(i, j, row, |coins|) {}
  }

  lemma PaysEitherWay(a: Utxo, b: Utxo, rate: nat)
    ensures Pays([a, b], rate) == Pays([b, a], rate) && TotalOf([a, b]) == a.value + b.value == TotalOf([b, a])
  {
    hide RegistrationFee;
    TwoTotal(a, b);
    TwoTotal(b, a);
  }

  lemma AllPairsSeen(coins: seq<Utxo>, rate: nat, best: Option<FeeChoice>)
    requires !SomeSingle(coins, rate) && BestSoFar(coins, rate, best, |coins|, |coins| + 1)
    ensures best.Some? <==> SomePair(coins, rate)
    ensures best.Some? ==> Sound(rate, best.value) && Best(coins, rate, best.value.inputs)
  {
    hide RegistrationFee, Pays;
    if best.Some? {
      var inputs := best.value.inputs;
      assert inputs == [inputs[0], inputs[1]];
    }
    forall a, b | multiset{a, b} <= multiset(coins) && Pays([a, b], rate)
      ensures best.Some? && TotalOf(best.value.inputs) <= a.value + b.value
    {
      var i, j := PairPositions(coins, a, b);
      PaysEitherWay(a, b, rate);
      assert Visited(i, j, |coins|, |coins| + 1) && Visited(j, i, |coins|, |coins| + 1);
    }
  }
}
