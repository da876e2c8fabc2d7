/** The exact length of an encoded transaction. */
module PqSize {
  import opened Wrappers
  import opened Bytes
  import opened PqWire

  function Total<T>(size: T -> nat, s: seq<T>): nat {
    if s == [] then 0 else size(s[0]) + Total(size, s[1..])
  }

  lemma {:induction false} PutManyLength<T(!new)>(put: (T, seq<Byte>) -> seq<Byte>, size: T -> nat, fits: T -> bool, s: seq<T>, rest: seq<Byte>)
    requires AllFit(fits, s) && forall x, r :: fits(x) ==> |put(x, r)| == size(x) + |r|
    ensures |PutMany(put, s, rest)| == Total(size, s) + |rest|
  {
    if s == [] {
    } else {
      PutManyLength(put, size, fits, s[1..], rest);
    }
  }

  lemma {:induction false} EqualSizes<T>(size: T -> nat, s: seq<T>, each: nat)
    requires forall i :: 0 <= i < |s| ==> size(s[i]) == each
    ensures Total(size, s) == each * |s|
  {
    if s == [] {
    } else {
      EqualSizes(size, s[1..], each);
      assert each * |s| == each + each * (|s| - 1);
    }
  }

  function InputSize(i: Input): nat {
    40 + CountLength(|i.scriptSig|) + |i.scriptSig|
  }

  function OutputSize(o: Output): nat {
    8 + CountLength(|o.script|) + |o.script|
  }

  function DataSize(mode: nat, data: seq<Byte>): nat {
    if ModeHasData(mode) then CountLength(|data|) + |data| else 0
  }

  function PayloadSize(mode: nat, count: nat, data: seq<Byte>): nat {
    3 + AUTHORIZATION_SIZE * count + DataSize(mode, data)
  }

  lemma PutOutputSize(o: Output, rest: seq<Byte>)
    ensures |PutOutput(o, rest)| == OutputSize(o) + |rest|
  {
    PutVarLength(o.script, rest);
  }

  lemma PutInputSize(i: Input, rest: seq<Byte>)
    requires FitsInput(i)
    ensures |PutInput(i, rest)| == InputSize(i) + |rest|
  {
    PutVarLength(i.scriptSig, PutLE(i.sequence, 4, rest));
  }

  lemma InputsSize(s: seq<Input>, rest: seq<Byte>)
    requires AllFit(FitsInput, s)
    ensures |PutMany(PutInput, s, rest)| == Total(InputSize, s) + |rest|
  {
    forall x, r | FitsInput(x) ensures |PutInput(x, r)| == InputSize(x) + |r| { PutInputSize(x, r); }
    PutManyLength(PutInput, InputSize, FitsInput, s, rest);
  }

  lemma OutputsSize(s: seq<Output>, rest: seq<Byte>)
    requires AllFit(FitsOutput, s)
    ensures |PutMany(PutOutput, s, rest)| == Total(OutputSize, s) + |rest|
  {
    forall x, r | FitsOutput(x) ensures |PutOutput(x, r)| == OutputSize(x) + |r| { PutOutputSize(x, r); }
    PutManyLength(PutOutput, OutputSize, FitsOutput, s, rest);
  }

  function AuthorizationSize(a: Authorization): nat {
    |a.publicKey| + |a.signature|
  }

  lemma AuthorizationsSize(s: seq<Authorization>, rest: seq<Byte>)
    requires AllFit(FitsAuthorization, s)
    ensures |PutMany(PutAuthorization, s, rest)| == AUTHORIZATION_SIZE * |s| + |rest|
  {
    forall x, r | FitsAuthorization(x) ensures |PutAuthorization(x, r)| == AuthorizationSize(x) + |r| {}
    PutManyLength(PutAuthorization, AuthorizationSize, FitsAuthorization, s, rest);
    EqualSizes(AuthorizationSize, s, AUTHORIZATION_SIZE);
  }

  lemma PayloadLength(t: Transaction)
    requires AllFit(FitsAuthorization, t.authorizations)
    ensures |Payload(t)| == PayloadSize(t.mode, |t.authorizations|, t.data)
  {
    AuthorizationsSize(t.authorizations, PutData(t.mode, t.data));
    PutVarLength(t.data, []);
  }

  /** The bytes before and in the payload, with nothing else to count. */
  function EncodedSize(inputs: seq<Input>, outputs: seq<Output>, payload: nat): nat {
    4 + CountLength(|inputs|) + Total(InputSize, inputs) + CountLength(|outputs|) + Total(OutputSize, outputs)
    + 6 + CountLength(payload) + payload
  }

  /** The encoded length depends on the scripts' lengths, the number of authorizations and the data length only. */
  lemma EncodeLength(t: Transaction)
    requires WellSized(t)
    ensures |Encode(t)| == EncodedSize(t.inputs, t.outputs, PayloadSize(t.mode, |t.authorizations|, t.data))
  {
    var tail := PutCount(|t.outputs|, PutMany(PutOutput, t.outputs, PutEnd(t)));
    PayloadLength(t);
    PutVarLength(Payload(t), []);
    OutputsSize(t.outputs, PutEnd(t));
    PutCountLength(|t.outputs|, PutMany(PutOutput, t.outputs, PutEnd(t)));
    InputsSize(t.inputs, tail);
    PutCountLength(|t.inputs|, PutMany(PutInput, t.inputs, tail));
  }

  /** Every negative value is accepted by the parser, in a transfer that cannot be serialized again. */
  lemma NegativeAccepted(value: int, txid: seq<Byte>, key: seq<Byte>, signature: seq<Byte>) returns (raw: seq<Byte>, t: Transaction)
    requires -0x8000_0000_0000_0000 <= value < 0
    requires |txid| == 32 && |key| == PUBLIC_KEY_SIZE && |signature| == SIGNATURE_SIZE
    ensures ParseTransfer(raw) == Some(t) && t.outputs == [Output(value, [])] && Serialize(t) == None
  {
    hide Encode, Parse;
    t := Transaction([Input(txid, 0, [], 0)], [Output(value, [])], 0, TRANSFER_MODE, [Authorization(key, signature)], []);
    raw := Encode(t);
    EncodeLength(t);
    EqualSizes(InputSize, t.inputs, 41);
    EqualSizes(OutputSize, t.outputs, 9);
    ParseOfEncode(t, TRANSFER_MODES);
    assert t.outputs[0].value < 0;
  }
}
