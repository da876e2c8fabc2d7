/** The transaction builder's running totals, and what a finished transaction pays. */
module TxBuilder {
  import opened Wrappers
  import opened Bytes
  import opened PqSize
  import PqWire
  import LegacyTx

  const SCRIPT_SIG_MAX_SIZE := 108

  /** An unspent output; its script stands in for the signature until signing. */
  datatype Utxo = Utxo(txid: seq<Byte>, n: nat, script: seq<Byte>, value: int)

  function Value(outputs: seq<PqWire.Output>): int {
    if outputs == [] then 0 else Value(outputs[..|outputs| - 1]) + outputs[|outputs| - 1].value
  }

  function ValueIn(utxos: seq<Utxo>): int {
    if utxos == [] then 0 else ValueIn(utxos[..|utxos| - 1]) + utxos[|utxos| - 1].value
  }

  /** The bytes of an output; those of a negative value may be fewer than eight. */
  function OutputBytes(o: PqWire.Output): nat {
    |LegacyTx.WireNumber(o.value)| + CountLength(|o.script|) + |o.script|
  }

  lemma PutOutputBytes(o: PqWire.Output, rest: seq<Byte>)
    ensures |LegacyTx.PutOutput(o, rest)| == OutputBytes(o) + |rest|
  {
    PutVarLength(o.script, rest);
  }

  lemma EightBytes(o: PqWire.Output)
    requires o.value >= 0
    ensures OutputBytes(o) == OutputSize(o)
  {
    LegacyTx.NumberBytesLE(o.value, 8);
  }

  /** The bytes of a transaction once every input is signed with the largest signature. */
  function EstimatedSize(inputs: nat, outputs: seq<PqWire.Output>): nat {
    4 + CountLength(inputs) + 149 * inputs + CountLength(|outputs|) + Total(OutputBytes, outputs) + 4
  }

  predicate Hashes(inputs: seq<PqWire.Input>) {
    forall i :: 0 <= i < |inputs| ==> |inputs[i].txid| == 32 && inputs[i].vout < 0x1_0000_0000 && inputs[i].sequence < 0x1_0000_0000
  }

  predicate Dummies(inputs: seq<PqWire.Input>, count: nat)
    requires count <= |inputs|
  {
    forall i :: 0 <= i < count ==> |inputs[i].scriptSig| == SCRIPT_SIG_MAX_SIZE
  }

  function TxOf(inputs: seq<PqWire.Input>, outputs: seq<PqWire.Output>): LegacyTx.Tx {
    LegacyTx.Tx(1, inputs, outputs, 0, 0, [], [], [])
  }

  /** The estimate is the serialized length with dummy signatures in place. */
  lemma EstimateIsLength(inputs: seq<PqWire.Input>, outputs: seq<PqWire.Output>)
    requires Hashes(inputs) && Dummies(inputs, |inputs|)
    ensures |LegacyTx.Encode(TxOf(inputs, outputs))| == EstimatedSize(|inputs|, outputs)
  {
    hide PutLE, LegacyTx.PutEnd;
    var t := TxOf(inputs, outputs);
    var end := LegacyTx.PutEnd(t);
    EndLength(t);
    var tail := PutCount(|outputs|, PutMany(LegacyTx.PutOutput, outputs, end));
    OutputsLength(outputs, end);
    PutCountLength(|outputs|, PutMany(LegacyTx.PutOutput, outputs, end));
    assert AllFit(PqWire.FitsInput, inputs);
    InputsSize(inputs, tail);
    EqualSizes(InputSize, inputs, 149);
    PutCountLength(|inputs|, PutMany(PqWire.PutInput, inputs, tail));
    VersionLength(1, PutCount(|inputs|, PutMany(PqWire.PutInput, inputs, tail)));
  }

  lemma VersionLength(version: nat, rest: seq<Byte>)
    ensures |PutLE(version, 4, rest)| == 4 + |rest|
  {
  }

  lemma EndLength(t: LegacyTx.Tx)
    requires t.version == 1
    ensures |LegacyTx.PutEnd(t)| == 4
  {
  }

  lemma {:induction false} OutputsLength(s: seq<PqWire.Output>, rest: seq<Byte>)
    ensures |PutMany(LegacyTx.PutOutput, s, rest)| == Total(OutputBytes, s) + |rest|
  {
    if s == [] {
    } else {
      OutputsLength(s[1..], rest);
      PutOutputBytes(s[0], PutMany(LegacyTx.PutOutput, s[1..], rest));
    }
  }

  function Share(value: nat, n: nat): nat
    requires n > 0
  {
    value / n
  }

  function Remainder(value: nat, n: nat): nat
    requires n > 0
  {
    value % n
  }

  /** No output is below its share of a shortfall, the first with the remainder. */
  predicate Bears(outputs: seq<PqWire.Output>, shortfall: nat) {
    forall i :: 0 <= i < |outputs| ==>
      outputs[i].value >= Share(shortfall, |outputs|) + (if i == 0 then Remainder(shortfall, |outputs|) else 0)
  }

  function WithSignature(i: PqWire.Input, scriptSig: seq<Byte>): PqWire.Input {
    i.(scriptSig := scriptSig)
  }

  class Builder {
    const rate: nat
    var vin: seq<PqWire.Input>
    var vout: seq<PqWire.Output>
    var valueIn: int
    var valueOut: int
    /** The part of the fee already taken from outputs. */
    var handledFee: int

    ghost predicate Valid()
      reads this
    {
      Hashes(vin)
    }

    constructor (rate: nat)
      ensures Valid() && this.rate == rate && vin == [] && vout == [] && valueIn == 0 && valueOut == 0 && handledFee == 0
    {
      this.rate := rate;
      vin, vout, valueIn, valueOut, handledFee := [], [], 0, 0, 0;
    }

    /** `getFee`: dummy signatures go in, the length is taken, and the originals go back. */
    method GetFee() returns (fee: int)
      requires Valid()
      modifies this`vin
      ensures vin == old(vin)
      ensures fee == rate * EstimatedSize(|vin|, vout) - handledFee
    {
      hide LegacyTx.Encode, EstimatedSize;
      var scriptSig := InsertDummies();
      EstimateIsLength(vin, vout);
      fee := |LegacyTx.Encode(TxOf(vin, vout))| * rate - handledFee;
      for i := 0 to |scriptSig|
        invariant |vin| == |old(vin)| == |scriptSig|
        invariant forall k :: 0 <= k < i ==> vin[k] == old(vin)[k]
        invariant forall k :: i <= k < |vin| ==> WithSignature(vin[k], scriptSig[k]) == old(vin)[k]
      {
        vin := vin[i := WithSignature(vin[i], scriptSig[i])];
      }
    }

    /** The signatures taken out of the inputs for dummies. */
    method InsertDummies() returns (scriptSig: seq<seq<Byte>>)
      requires Valid()
      modifies this`vin
      ensures Valid() && |scriptSig| == |vin| == |old(vin)| && Dummies(vin, |vin|)
      ensures forall k :: 0 <= k < |vin| ==> WithSignature(vin[k], scriptSig[k]) == old(vin)[k]
    {
      scriptSig := [];
      var dummy: seq<Byte> := seq(SCRIPT_SIG_MAX_SIZE, _ => 0);
      for i := 0 to |vin|
        invariant |vin| == |old(vin)| && |scriptSig| == i && Hashes(vin) && Dummies(vin, i)
        invariant forall k :: 0 <= k < i ==> WithSignature(vin[k], scriptSig[k]) == old(vin)[k]
        invariant forall k :: i <= k < |vin| ==> vin[k] == old(vin)[k]
      {
        scriptSig := scriptSig + [vin[i].scriptSig];
        vin := vin[i := WithSignature(vin[i], dummy)];
      }
    }

    method AddUTXOs(utxos: seq<Utxo>)
      requires Valid() && forall i :: 0 <= i < |utxos| ==> |utxos[i].txid| == 32 && utxos[i].n < 0x1_0000_0000
      modifies this`vin, this`valueIn
      ensures Valid() && |vin| == |old(vin)| + |utxos| && valueIn == old(valueIn) + ValueIn(utxos)
      ensures vin[..|old(vin)|] == old(vin)
      ensures forall i :: 0 <= i < |utxos| ==> vin[|old(vin)| + i] == PqWire.Input(utxos[i].txid, utxos[i].n, utxos[i].script, 0xffff_ffff)
    {
      for i := 0 to |utxos|
        invariant Valid() && |vin| == |old(vin)| + i && vin[..|old(vin)|] == old(vin)
        invariant valueIn == old(valueIn) + ValueIn(utxos[..i])
        invariant forall k :: 0 <= k < i ==> vin[|old(vin)| + k] == PqWire.Input(utxos[k].txid, utxos[k].n, utxos[k].script, 0xffff_ffff)
      {
        assert utxos[..i + 1][..i] == utxos[..i];
        vin := vin + [PqWire.Input(utxos[i].txid, utxos[i].n, utxos[i].script, 0xffff_ffff)];
        valueIn := valueIn + utxos[i].value;
      }
      assert utxos[..|utxos|] == utxos;
    }

    /** `#addScript`: with the fee subtracted, an output worth less than its own fee is not added at all. */
    method AddScript(script: seq<Byte>, value: int, subtractFeeFromAmt: bool)
      modifies this`vout, this`valueOut, this`handledFee
      ensures var fee := OutputBytes(PqWire.Output(value, script)) * rate;
              if subtractFeeFromAmt && value < fee then vout == old(vout) && valueOut == old(valueOut) && handledFee == old(handledFee)
              else
                var kept := if subtractFeeFromAmt then value - fee else value;
                && vout == old(vout) + [PqWire.Output(kept, script)] && valueOut == old(valueOut) + kept
                && handledFee == old(handledFee) + value - kept
    {
      hide LegacyTx.PutOutput, OutputBytes, CountLength;
      var out := PqWire.Output(value, script);
      PutOutputBytes(out, []);
      var fee := |LegacyTx.PutOutput(out, [])| * rate;
      if value < fee && subtractFeeFromAmt {
        return;
      }
      if subtractFeeFromAmt {
        out := out.(value := out.value - fee);
        handledFee := handledFee + fee;
      }
      vout := vout + [out];
      valueOut := valueOut + out.value;
    }

    /** `equallySubtractAmt`: the outputs together lose exactly the value; false where it throws. */
    method EquallySubtractAmt(value: nat) returns (ok: bool)
      modifies this`vout
      ensures ok <==> old(vout) != []
      ensures ok ==> Value(vout) == Value(old(vout)) - value && SameScripts(vout, old(vout))
      ensures ok ==> forall i :: 0 < i < |vout| ==> old(vout)[i].value - vout[i].value == Share(value, |vout|)
      ensures ok ==> (PqWire.NonNegative(vout) <==> Bears(old(vout), value))
      ensures !ok ==> vout == old(vout)
    {
      hide Share, Remainder;
      if vout == [] {
        return false;
      }
      var outputs := |vout|;
      var share, remainder := Share(value, outputs), Remainder(value, outputs);
      for i := 0 to outputs
        invariant SameScripts(vout, old(vout)) && (i == 0 ==> vout == old(vout))
        invariant forall k :: 0 <= k < outputs ==>
          vout[k].value == old(vout)[k].value - (if k >= i then 0 else if k == 0 then share + remainder else share)
      {
        vout := vout[i := vout[i].(value := vout[i].value - share - (if i == 0 then remainder else 0))];
      }
      Subtracted(old(vout), vout, share, remainder);
      Divides(value, outputs);
      ok := true;
    }
  }

  predicate SameScripts(a: seq<PqWire.Output>, b: seq<PqWire.Output>) {
    |a| == |b| && forall i :: 0 <= i < |a| ==> a[i].script == b[i].script
  }

  lemma {:induction false} Subtracted(before: seq<PqWire.Output>, after: seq<PqWire.Output>, share: nat, remainder: nat)
    requires |before| == |after| > 0
    requires forall k :: 0 <= k < |after| ==> after[k].value == before[k].value - (if k == 0 then share + remainder else share)
    ensures Value(after) == Value(before) - share * |after| - remainder
  {
    var last := |after| - 1;
    if last > 0 {
      Subtracted(before[..last], after[..last], share, remainder);
      assert share * |after| == share * last + share;
    } else {
      assert Value(before[..0]) == 0 && Value(after[..0]) == 0;
    }
  }

  lemma Divides(value: nat, n: nat)
    requires n > 0
    ensures Share(value, n) * n + Remainder(value, n) == value
  {
  }

  lemma {:induction false} SameSize(a: seq<PqWire.Output>, b: seq<PqWire.Output>)
    requires SameScripts(a, b) && PqWire.NonNegative(a) && PqWire.NonNegative(b)
    ensures Total(OutputBytes, a) == Total(OutputBytes, b)
  {
    if a == [] {
    } else {
      EightBytes(a[0]);
      EightBytes(b[0]);
      SameSize(a[1..], b[1..]);
    }
  }

  lemma {:induction false} TotalSnoc(a: seq<PqWire.Output>, o: PqWire.Output)
    ensures Total(OutputBytes, a + [o]) == Total(OutputBytes, a) + OutputBytes(o)
  {
    if a == [] {
      assert [o][1..] == [];
      assert a + [o] == [o];
    } else {
      assert (a + [o])[1..] == a[1..] + [o];
      TotalSnoc(a[1..], o);
    }
  }

  // ---------------------------------------------------------------- a finished transaction

  /** Where change goes: a script that pays for itself, or an exchange script, which does not. */
  datatype ChangeScript = ChangeScript(script: seq<Byte>, exchange: bool)

  datatype Built = Built(inputs: seq<PqWire.Input>, outputs: seq<PqWire.Output>)

  function PaidBy(utxos: seq<Utxo>, b: Built): int {
    ValueIn(utxos) - Value(b.outputs)
  }

  function Due(rate: nat, b: Built): int {
    rate * EstimatedSize(|b.inputs|, b.outputs)
  }

  /** The bytes the output count takes more when there is one output more. */
  function CountGrowth(outputs: nat): nat {
    CountLength(outputs + 1) - CountLength(outputs)
  }

  /** What is left, over the fee of a transaction without change. */
  function Spare(rate: nat, utxos: seq<Utxo>, outputs: seq<PqWire.Output>): int {
    ValueIn(utxos) - Value(outputs) - rate * EstimatedSize(|utxos|, outputs)
  }

  /** The change pays neither for its own bytes nor for those the output count takes more, where the rate is charged at all. */
  predicate Underpays(rate: nat, utxos: seq<Utxo>, outputs: seq<PqWire.Output>, change: ChangeScript) {
    && rate > 0 && Spare(rate, utxos, outputs) > 0
    && (change.exchange || (CountGrowth(|outputs|) > 0 && Spare(rate, utxos, outputs) >= OutputBytes(PqWire.Output(0, change.script)) * rate))
  }

  /** What is left over becomes change; what is missing is subtracted from the outputs, or the transaction is refused. */
  method Settle(b: Builder, changeValue: int, change: ChangeScript, subtractFeeFromAmt: bool) returns (ok: bool)
    modifies b
    ensures b.vin == old(b.vin) && b.valueIn == old(b.valueIn)
    ensures !ok <==> changeValue < 0 && (!subtractFeeFromAmt || old(b.vout) == [])
    ensures ok && changeValue <= 0 ==>
      && SameScripts(b.vout, old(b.vout)) && Value(b.vout) == Value(old(b.vout)) + changeValue
      && (PqWire.NonNegative(b.vout) <==> Bears(old(b.vout), -changeValue))
    ensures ok && changeValue > 0 ==>
      var cost := OutputBytes(PqWire.Output(0, change.script)) * b.rate;
      if !change.exchange && changeValue < cost then b.vout == old(b.vout)
      else b.vout == old(b.vout) + [PqWire.Output(if change.exchange then changeValue else changeValue - cost, change.script)]
  {
    hide OutputBytes, Bears, PqWire.NonNegative;
    BearsNothing(b.vout);
    ok := true;
    if changeValue < 0 {
      if !subtractFeeFromAmt {
        return false;
      }
      ok := b.EquallySubtractAmt(-changeValue);
    } else if changeValue > 0 {
      SizeIgnoresValue(changeValue, change.script);
      b.AddScript(change.script, changeValue, !change.exchange);
    }
  }

  /**
   The non-shield part of `createTransaction`, from the outputs chosen: None
   where it throws for lack of funds or outputs.
   */
  method CreateTransaction(rate: nat, outputs: seq<PqWire.Output>, utxos: seq<Utxo>, change: ChangeScript, subtractFeeFromAmt: bool)
    returns (r: Option<Built>)
    requires forall i :: 0 <= i < |utxos| ==> |utxos[i].txid| == 32 && utxos[i].n < 0x1_0000_0000
    ensures r == None <==> Spare(rate, utxos, outputs) < 0 && (!subtractFeeFromAmt || outputs == [])
    ensures r.Some? ==> |r.value.inputs| == |utxos|
    ensures r.Some? && Spare(rate, utxos, outputs) <= 0 ==>
      && SameScripts(r.value.outputs, outputs) && PaidBy(utxos, r.value) == rate * EstimatedSize(|utxos|, outputs)
      && (PqWire.NonNegative(r.value.outputs) <==> Bears(outputs, -Spare(rate, utxos, outputs)))
      && (Bears(outputs, -Spare(rate, utxos, outputs)) ==> PaidBy(utxos, r.value) == Due(rate, r.value))
    ensures r.Some? && Spare(rate, utxos, outputs) > 0 ==> (PqWire.NonNegative(r.value.outputs) <==> PqWire.NonNegative(outputs))
    ensures r.Some? && Spare(rate, utxos, outputs) > 0 ==>
      var cost := OutputBytes(PqWire.Output(0, change.script)) * rate;
      if change.exchange then
        |r.value.outputs| == |outputs| + 1 && PaidBy(utxos, r.value) == Due(rate, r.value) - cost - rate * CountGrowth(|outputs|)
      else if Spare(rate, utxos, outputs) < cost then
        r.value.outputs == outputs && Due(rate, r.value) < PaidBy(utxos, r.value) < Due(rate, r.value) + cost
      else
        |r.value.outputs| == |outputs| + 1 && PaidBy(utxos, r.value) == Due(rate, r.value) - rate * CountGrowth(|outputs|)
    ensures r.Some? && (Spare(rate, utxos, outputs) <= 0 ==> Bears(outputs, -Spare(rate, utxos, outputs))) ==>
      (PaidBy(utxos, r.value) < Due(rate, r.value) <==> Underpays(rate, utxos, outputs, change))
  {
    hide EstimatedSize, OutputBytes, Underpays, Bears, PqWire.NonNegative, CountGrowth;
    var b := new Builder(rate);
    for i := 0 to |outputs|
      invariant b.Valid() && b.rate == rate && b.vin == [] && b.valueIn == 0 && b.handledFee == 0
      invariant b.vout == outputs[..i] && b.valueOut == Value(outputs[..i])
    {
      assert outputs[..i + 1][..i] == outputs[..i];
      b.AddScript(outputs[i].script, outputs[i].value, false);
    }
    assert outputs[..|outputs|] == outputs;
    b.AddUTXOs(utxos);
    var fee := b.GetFee();
    var changeValue := b.valueIn - b.valueOut - fee;
    var settled := Settle(b, changeValue, change, subtractFeeFromAmt);
    if !settled {
      return None;
    }
    if changeValue > 0 && b.vout != outputs {
      ChangeAdded(rate, |utxos|, outputs, b.vout[|outputs|]);
    }
    if changeValue <= 0 && Bears(outputs, -changeValue) {
      Bearable(outputs, -changeValue);
      SameEstimate(|utxos|, b.vout, outputs);
    }
    r := Some(Built(b.vin, b.vout));
    if Spare(rate, utxos, outputs) <= 0 ==> Bears(outputs, -Spare(rate, utxos, outputs)) {
      UnderpaysExactly(rate, utxos, outputs, change, PaidBy(utxos, r.value), Due(rate, r.value));
    }
  }

  /** What one output more adds. */
  lemma ChangeAdded(rate: nat, inputs: nat, outputs: seq<PqWire.Output>, last: PqWire.Output)
    requires last.value >= 0
    ensures var more := outputs + [last];
            && rate * EstimatedSize(inputs, more) ==
                 rate * EstimatedSize(inputs, outputs) + OutputBytes(PqWire.Output(0, last.script)) * rate + rate * CountGrowth(|outputs|)
            && Value(more) == Value(outputs) + last.value
            && (PqWire.NonNegative(more) <==> PqWire.NonNegative(outputs))
  {
    hide EstimatedSize, OutputBytes, CountGrowth;
    assert (outputs + [last])[..|outputs|] == outputs;
    SizeIgnoresValue(last.value, last.script);
    GrownEstimate(rate, inputs, outputs, last);
    NonNegativeSnoc(outputs, last);
  }

  lemma NonNegativeSnoc(outputs: seq<PqWire.Output>, last: PqWire.Output)
    requires last.value >= 0
    ensures PqWire.NonNegative(outputs + [last]) <==> PqWire.NonNegative(outputs)
  {
    assert forall i :: 0 <= i < |outputs| ==> (outputs + [last])[i] == outputs[i];
  }

  lemma Bearable(outputs: seq<PqWire.Output>, shortfall: nat)
    requires Bears(outputs, shortfall)
    ensures PqWire.NonNegative(outputs)
  {
    hide Share, Remainder;
  }

  lemma BearsNothing(outputs: seq<PqWire.Output>)
    ensures Bears(outputs, 0) <==> PqWire.NonNegative(outputs)
  {
    if outputs != [] {
      assert Share(0, |outputs|) == 0 && Remainder(0, |outputs|) == 0;
    }
  }

  lemma UnderpaysExactly(rate: nat, utxos: seq<Utxo>, outputs: seq<PqWire.Output>, change: ChangeScript, paid: int, due: int)
    requires Spare(rate, utxos, outputs) <= 0 ==> paid == due
    requires Spare(rate, utxos, outputs) > 0 ==>
      var cost := OutputBytes(PqWire.Output(0, change.script)) * rate;
      if change.exchange then paid == due - cost - rate * CountGrowth(|outputs|)
      else if Spare(rate, utxos, outputs) < cost then due < paid
      else paid == due - rate * CountGrowth(|outputs|)
    ensures paid < due <==> Underpays(rate, utxos, outputs, change)
  {
    SomeBytes(change.script);
    hide Spare, OutputBytes, CountGrowth;
    MoreIsMore(rate, OutputBytes(PqWire.Output(0, change.script)), CountGrowth(|outputs|));
  }

  lemma SomeBytes(script: seq<Byte>)
    ensures OutputBytes(PqWire.Output(0, script)) > 0
  {
    EightBytes(PqWire.Output(0, script));
  }

  lemma MoreIsMore(rate: nat, size: nat, growth: nat)
    requires size > 0
    ensures size * rate > 0 <==> rate > 0
    ensures rate * growth > 0 <==> rate > 0 && growth > 0
  {
  }

  lemma SizeIgnoresValue(value: nat, script: seq<Byte>)
    ensures OutputBytes(PqWire.Output(value, script)) == OutputBytes(PqWire.Output(0, script))
  {
    EightBytes(PqWire.Output(value, script));
    EightBytes(PqWire.Output(0, script));
  }

  lemma SameEstimate(inputs: nat, a: seq<PqWire.Output>, b: seq<PqWire.Output>)
    requires SameScripts(a, b) && PqWire.NonNegative(a) && PqWire.NonNegative(b)
    ensures EstimatedSize(inputs, a) == EstimatedSize(inputs, b)
  {
    SameSize(a, b);
  }

  lemma GrownEstimate(rate: nat, inputs: nat, outputs: seq<PqWire.Output>, o: PqWire.Output)
    ensures rate * EstimatedSize(inputs, outputs + [o]) ==
            rate * EstimatedSize(inputs, outputs) + OutputBytes(o) * rate + rate * CountGrowth(|outputs|)
  {
    TotalSnoc(outputs, o);
    var x, y, z := EstimatedSize(inputs, outputs), OutputBytes(o), CountGrowth(|outputs|);
    assert EstimatedSize(inputs, outputs + [o]) == x + y + z;
    Spread(rate, x, y, z);
  }

  lemma Spread(rate: nat, x: nat, y: nat, z: nat)
    ensures rate * (x + y + z) == rate * x + y * rate + rate * z
  {
  }

  /** And an output can become negative: one of 100, paid from a coin of 100. */
  lemma NegativeOutputHappens(txid: seq<Byte>)
    ensures var coin, outputs := Utxo(txid, 0, [], 100), [PqWire.Output(100, [])];
            Spare(1, [coin], outputs) == -168 && !Bears(outputs, 168)
  {
    var coin, outputs := Utxo(txid, 0, [], 100), [PqWire.Output(100, [])];
    assert ValueIn([coin]) == ValueIn([]) + 100;
    assert outputs[..0] == [] && Value(outputs) == Value([]) + 100;
    EightBytes(outputs[0]);
    assert outputs[1..] == [] && Total(OutputBytes, outputs) == 9 + Total(OutputBytes, []);
    assert Share(168, 1) == 168;
  }

  function Copies(o: PqWire.Output, n: nat): (r: seq<PqWire.Output>)
    ensures |r| == n && forall i :: 0 <= i < n ==> r[i] == o
    ensures Value(r) == n * o.value
  {
    if n == 0 then [] else
      assert (Copies(o, n - 1) + [o])[..n - 1] == Copies(o, n - 1);
      Copies(o, n - 1) + [o]
  }

  /** Both ways of paying too little happen: one coin's change to an exchange, and change as the 253rd output. */
  lemma UnderpaymentHappens(txid: seq<Byte>)
    ensures var coin := Utxo(txid, 0, [], 1_000_000);
            && Underpays(1, [coin], [], ChangeScript([], true))
            && Underpays(1, [coin], Copies(PqWire.Output(1, []), 252), ChangeScript([], false))
  {
    var coin := Utxo(txid, 0, [], 1_000_000);
    var outputs := Copies(PqWire.Output(1, []), 252);
    assert ValueIn([coin]) == ValueIn([]) + 1_000_000;
    forall i | 0 <= i < |outputs| ensures OutputBytes(outputs[i]) == 9 { EightBytes(outputs[i]); }
    EqualSizes(OutputBytes, outputs, 9);
    EightBytes(PqWire.Output(0, []));
    CountGrowthExact(252);
  }

  /** With fewer than 252 outputs the count does not grow, so a transaction with self-paying change pays exactly its rate. */
  lemma CountGrowthExact(outputs: nat)
    requires outputs < 0xffff
    ensures CountGrowth(outputs) == 0 <==> outputs != 252
  {
  }
}
