/** Transfer sizes and fees: the size estimate is the exact encoded length. */
module Fees {
  import opened Wrappers
  import opened Bytes
  import opened PqWire
  import opened PqSize
  import opened Address

  const DUST := 114600

  /** `estimateTransferSize`, for the counts it accepts. */
  function EstimateTransferSize(inputs: nat, outputs: nat): nat {
    var payload := 3 + inputs * AUTHORIZATION_SIZE;
    4 + CountLength(inputs) + inputs * 41 + CountLength(outputs) + outputs * 44 + 4 + 1 + 1 + CountLength(payload) + payload
  }

  const REGISTRATION_DATA_SIZE := 11318

  /** `estimateMasternodeRegistrationSize`, for the one or two inputs and outputs it accepts. */
  function EstimateRegistrationSize(inputs: nat, outputs: nat): nat {
    var payload := 3 + inputs * AUTHORIZATION_SIZE + CountLength(REGISTRATION_DATA_SIZE) + REGISTRATION_DATA_SIZE;
    4 + CountLength(inputs) + inputs * 41 + CountLength(outputs) + outputs * 44 + 4 + 1 + 1 + CountLength(payload) + payload
  }

  /** Inputs without scripts, outputs with scripts of the post-quantum form. */
  predicate Standard(t: Transaction) {
    (forall i :: 0 <= i < |t.inputs| ==> t.inputs[i].scriptSig == []) && (forall i :: 0 <= i < |t.outputs| ==> |t.outputs[i].script| == SCRIPT_SIZE)
  }

  lemma StandardTotals(t: Transaction)
    requires Standard(t)
    ensures Total(InputSize, t.inputs) == 41 * |t.inputs| && Total(OutputSize, t.outputs) == 44 * |t.outputs|
  {
    EqualSizes(InputSize, t.inputs, 41);
    EqualSizes(OutputSize, t.outputs, 44);
  }

  /** The estimate is the number of bytes serialized, whatever the contents. */
  lemma TransferSizeExact(t: Transaction, raw: seq<Byte>)
    requires Serialize(t) == Some(raw) && Standard(t) && !ModeHasData(t.mode)
    ensures |raw| == EstimateTransferSize(|t.inputs|, |t.outputs|)
  {
    EncodeLength(t);
    StandardTotals(t);
  }

  /** So is the registration estimate, for its data length. */
  lemma RegistrationSizeExact(t: Transaction, raw: seq<Byte>)
    requires Serialize(t) == Some(raw) && Standard(t) && t.mode == MASTERNODE_MODE && |t.data| == REGISTRATION_DATA_SIZE
    ensures |raw| == EstimateRegistrationSize(|t.inputs|, |t.outputs|)
  {
    EncodeLength(t);
    StandardTotals(t);
  }

  /** `size` bytes at a rate per thousand bytes, rounded up. */
  function FeeAt(size: nat, rate: nat): nat {
    (size * rate + 999) / 1000
  }

  function FeeFor(inputs: nat, outputs: nat, rate: nat): nat {
    FeeAt(EstimateTransferSize(inputs, outputs), rate)
  }

  /** The fee is the least that pays the rate for every byte. */
  lemma FeeIsLeast(size: nat, rate: nat, paid: nat)
    ensures FeeAt(size, rate) <= paid <==> size * rate <= 1000 * paid
  {
  }

  lemma FeeMonotone(a: nat, b: nat, rate: nat)
    requires a <= b
    ensures FeeAt(a, rate) <= FeeAt(b, rate)
  {
    MulMonotone(a, b, rate);
  }

  lemma MulMonotone(a: nat, b: nat, c: nat)
    requires a <= b
    ensures a * c <= b * c
  {
  }

  lemma SecondOutputCosts(inputs: nat, rate: nat)
    ensures FeeFor(inputs, 1, rate) <= FeeFor(inputs, 2, rate)
  {
    FeeMonotone(EstimateTransferSize(inputs, 1), EstimateTransferSize(inputs, 2), rate);
  }
}
