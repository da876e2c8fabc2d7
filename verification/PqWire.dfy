/**
 The post-quantum transaction wire format (version 3, type 8) and its parser, and
 the proof that the format is canonical in both directions.
 */
module PqWire {
  import opened Wrappers
  import opened Bytes

  const PUBLIC_KEY_SIZE := 1312
  const SIGNATURE_SIZE := 2420
  const AUTHORIZATION_SIZE := 3732
  const TX_VERSION := 3
  const TX_TYPE := 8
  const TRANSFER_MODE := 1
  const STAKE_MODE := 2
  const MASTERNODE_MODE := 6
  const MAX_INPUTS := 2
  const MAX_OUTPUTS := 2
  const MAX_TX_BYTES := 24000
  const MAX_DATA_BYTES := 12000

  /** `txid` is in display order. */
  datatype Input = Input(txid: seq<Byte>, vout: nat, scriptSig: seq<Byte>, sequence: nat)

  datatype Output = Output(value: int, script: seq<Byte>)

  datatype Authorization = Authorization(publicKey: seq<Byte>, signature: seq<Byte>)

  /** Input i is authorized by authorizations[i]. */
  datatype Transaction = Transaction(
    inputs: seq<Input>,
    outputs: seq<Output>,
    locktime: nat,
    mode: nat,
    authorizations: seq<Authorization>,
    data: seq<Byte>)

  predicate ModeHasData(mode: nat) {
    3 <= mode <= 8
  }

  // ---------------------------------------------------------------- writers

  predicate FitsInput(i: Input) {
    |i.txid| == 32 && i.vout < 0x1_0000_0000 && |i.scriptSig| <= MAX_SAFE && i.sequence < 0x1_0000_0000
  }

  predicate FitsOutput(o: Output) {
    IsInt64(o.value) && |o.script| <= MAX_SAFE
  }

  predicate FitsAuthorization(a: Authorization) {
    |a.publicKey| == PUBLIC_KEY_SIZE && |a.signature| == SIGNATURE_SIZE
  }

  function PutInput(i: Input, rest: seq<Byte>): seq<Byte> {
    Reverse(i.txid) + PutLE(i.vout, 4, PutVar(i.scriptSig, PutLE(i.sequence, 4, rest)))
  }

  function PutOutput(o: Output, rest: seq<Byte>): seq<Byte> {
    PutI64(o.value, PutVar(o.script, rest))
  }

  function PutAuthorization(a: Authorization, rest: seq<Byte>): seq<Byte> {
    a.publicKey + (a.signature + rest)
  }

  /** Mode-dependent payload data. */
  function PutData(mode: nat, data: seq<Byte>): seq<Byte> {
    if ModeHasData(mode) then PutVar(data, []) else []
  }

  function Payload(t: Transaction): seq<Byte> {
    PutLE(1, 1, PutLE(t.mode, 1, PutLE(|t.authorizations|, 1,
      PutMany(PutAuthorization, t.authorizations, PutData(t.mode, t.data)))))
  }

  function PutEnd(t: Transaction): seq<Byte> {
    PutLE(t.locktime, 4, PutLE(0, 1, PutLE(1, 1, PutVar(Payload(t), []))))
  }

  /** Everything up to the payload depends only on inputs, outputs and locktime. */
  function Encode(t: Transaction): seq<Byte>
  {
    PutLE(TX_VERSION, 2, PutLE(TX_TYPE, 2,
      PutCount(|t.inputs|, PutMany(PutInput, t.inputs,
        PutCount(|t.outputs|, PutMany(PutOutput, t.outputs, PutEnd(t)))))))
  }

  /** The field sizes every parsed or serialized transaction has. */
  predicate WellSized(t: Transaction) {
    && 1 <= |t.inputs| <= MAX_INPUTS
    && 1 <= |t.outputs| <= (if t.mode == STAKE_MODE then 3 else MAX_OUTPUTS)
    && |t.authorizations| == |t.inputs|
    && AllFit(FitsInput, t.inputs)
    && AllFit(FitsOutput, t.outputs)
    && AllFit(FitsAuthorization, t.authorizations)
    && t.locktime < 0x1_0000_0000 && t.mode < 256
    && ModeHasData(t.mode) == (|t.data| > 0) && |t.data| <= MAX_SAFE
    && (t.mode == MASTERNODE_MODE ==> |t.data| <= MAX_DATA_BYTES)
  }

  predicate NonNegative(outputs: seq<Output>) {
    forall i :: 0 <= i < |outputs| ==> outputs[i].value >= 0
  }

  /** `serializeTransfer`: None where it throws. */
  function Serialize(t: Transaction): Option<seq<Byte>> {
    if WellSized(t) && NonNegative(t.outputs) then Some(Encode(t)) else None
  }

  // ---------------------------------------------------------------- readers

  function ReadInput(b: seq<Byte>): Parsed<Input> {
    match Take(b, 32)
    case Fail => Fail
    case Got(wire, r0) =>
      match ReadLE(r0, 4)
      case Fail => Fail
      case Got(vout, r1) =>
        match ReadVar(r1)
        case Fail => Fail
        case Got(scriptSig, r2) =>
          match ReadLE(r2, 4)
          case Fail => Fail
          case Got(sequence, r3) => Got(Input(Reverse(wire), vout, scriptSig, sequence), r3)
  }

  function ReadOutput(b: seq<Byte>): Parsed<Output> {
    match ReadI64(b)
    case Fail => Fail
    case Got(value, r0) =>
      match ReadVar(r0)
      case Fail => Fail
      case Got(script, r1) => Got(Output(value, script), r1)
  }

  function ReadAuthorization(b: seq<Byte>): Parsed<Authorization> {
    match Take(b, PUBLIC_KEY_SIZE)
    case Fail => Fail
    case Got(publicKey, r0) =>
      match Take(r0, SIGNATURE_SIZE)
      case Fail => Fail
      case Got(signature, r1) => Got(Authorization(publicKey, signature), r1)
  }

  datatype PayloadFields = PayloadFields(mode: nat, authorizations: seq<Authorization>, data: seq<Byte>)

  function ReadData(mode: nat, b: seq<Byte>): Option<seq<Byte>> {
    if ModeHasData(mode) then
      match ReadCompactSize(b)
      case Fail => None
      case Got(n, rest) => if n == 0 || n > MAX_DATA_BYTES || |rest| != n then None else Some(rest)
    else if b != [] then None
    else Some([])
  }

  function ParsePayload(b: seq<Byte>): Option<PayloadFields> {
    match ReadLE(b, 1)
    case Fail => None
    case Got(version, r0) =>
      match ReadLE(r0, 1)
      case Fail => None
      case Got(mode, r1) =>
        match ReadLE(r1, 1)
        case Fail => None
        case Got(count, r2) =>
          if version != 1 then None
          else
            match ReadMany(ReadAuthorization, count, r2)
            case Fail => None
            case Got(authorizations, r3) =>
              match ReadData(mode, r3)
              case None => None
              case Some(data) => Some(PayloadFields(mode, authorizations, data))
  }

  /** Locktime, the two markers and the payload, which must end the transaction. */
  function ParseEnd(inputs: seq<Input>, outputs: seq<Output>, b: seq<Byte>, modes: set<nat>): Option<Transaction> {
    match ReadLE(b, 4)
    case Fail => None
    case Got(locktime, r0) =>
      match ReadLE(r0, 1)
      case Fail => None
      case Got(sapling, r1) =>
        match ReadLE(r1, 1)
        case Fail => None
        case Got(marker, r2) =>
          if sapling != 0 || marker != 1 then None
          else
            match ReadVar(r2)
            case Fail => None
            case Got(payload, r3) =>
              if r3 != [] then None
              else
                match ParsePayload(payload)
                case None => None
                case Some(p) =>
                  if p.mode !in modes || (p.mode != STAKE_MODE && |outputs| > MAX_OUTPUTS)
                     || |p.authorizations| != |inputs| then None
                  else Some(Transaction(inputs, outputs, locktime, p.mode, p.authorizations, p.data))
  }

  function ParseOutputs(inputs: seq<Input>, b: seq<Byte>, modes: set<nat>): Option<Transaction> {
    match ReadCount(b)
    case Fail => None
    case Got(outputCount, r0) =>
      if outputCount < 1 || outputCount > 3 then None
      else
        match ReadMany(ReadOutput, outputCount, r0)
        case Fail => None
        case Got(outputs, r1) => ParseEnd(inputs, outputs, r1, modes)
  }

  function ParseBody(b: seq<Byte>, modes: set<nat>): Option<Transaction> {
    match ReadCount(b)
    case Fail => None
    case Got(inputCount, r0) =>
      if inputCount < 1 || inputCount > MAX_INPUTS then None
      else
        match ReadMany(ReadInput, inputCount, r0)
        case Fail => None
        case Got(inputs, r1) => ParseOutputs(inputs, r1, modes)
  }

  /** `parsePQTransaction`: None where it throws. */
  function Parse(raw: seq<Byte>, modes: set<nat>): Option<Transaction> {
    if |raw| > MAX_TX_BYTES then None
    else
      match ReadLE(raw, 2)
      case Fail => None
      case Got(version, r0) =>
        match ReadLE(r0, 2)
        case Fail => None
        case Got(kind, r1) => if version != TX_VERSION || kind != TX_TYPE then None else ParseBody(r1, modes)
  }

  const TRANSFER_MODES: set<nat> := {TRANSFER_MODE, MASTERNODE_MODE}

  const STAKE_MODES: set<nat> := {STAKE_MODE}

  function ParseTransfer(raw: seq<Byte>): Option<Transaction> {
    Parse(raw, TRANSFER_MODES)
  }

  function ParseCoinstake(raw: seq<Byte>): Option<Transaction> {
    match Parse(raw, STAKE_MODES)
    case None => None
    case Some(t) =>
      if |t.inputs| != 1 || |t.outputs| < 2 || t.outputs[0] != Output(0, [])
         || t.inputs[0].scriptSig != [] || t.locktime != 0 || t.inputs[0].sequence != 0xffff_ffff then None
      else Some(t)
  }

  // ---------------------------------------------------------------- reading what was written

  lemma ReadOfPutInput(i: Input, rest: seq<Byte>)
    requires FitsInput(i)
    ensures ReadInput(PutInput(i, rest)) == Got(i, rest)
  {
    Limits();
    var r2 := PutLE(i.sequence, 4, rest);
    var r1 := PutVar(i.scriptSig, r2);
    TakeOfConcat(Reverse(i.txid), PutLE(i.vout, 4, r1));
    ReadOfPutLE(i.vout, 4, r1);
    ReadOfPutVar(i.scriptSig, r2);
    ReadOfPutLE(i.sequence, 4, rest);
    ReverseTwice(i.txid);
  }

  lemma ReadOfPutOutput(o: Output, rest: seq<Byte>)
    requires FitsOutput(o)
    ensures ReadOutput(PutOutput(o, rest)) == Got(o, rest)
  {
    ReadOfPutI64(o.value, PutVar(o.script, rest));
    ReadOfPutVar(o.script, rest);
  }

  lemma ReadOfPutAuthorization(a: Authorization, rest: seq<Byte>)
    requires FitsAuthorization(a)
    ensures ReadAuthorization(PutAuthorization(a, rest)) == Got(a, rest)
  {
    TakeOfConcat(a.publicKey, a.signature + rest);
    TakeOfConcat(a.signature, rest);
  }

  lemma ReadOfPutInputs(s: seq<Input>, rest: seq<Byte>)
    requires AllFit(FitsInput, s)
    ensures ReadMany(ReadInput, |s|, PutMany(PutInput, s, rest)) == Got(s, rest)
  {
    forall x, r | FitsInput(x) ensures ReadInput(PutInput(x, r)) == Got(x, r) { ReadOfPutInput(x, r); }
    ReadOfPutMany(ReadInput, PutInput, FitsInput, s, rest);
  }

  lemma ReadOfPutOutputs(s: seq<Output>, rest: seq<Byte>)
    requires AllFit(FitsOutput, s)
    ensures ReadMany(ReadOutput, |s|, PutMany(PutOutput, s, rest)) == Got(s, rest)
  {
    forall x, r | FitsOutput(x) ensures ReadOutput(PutOutput(x, r)) == Got(x, r) { ReadOfPutOutput(x, r); }
    ReadOfPutMany(ReadOutput, PutOutput, FitsOutput, s, rest);
  }

  lemma ReadOfPutAuthorizations(s: seq<Authorization>, rest: seq<Byte>)
    requires AllFit(FitsAuthorization, s)
    ensures ReadMany(ReadAuthorization, |s|, PutMany(PutAuthorization, s, rest)) == Got(s, rest)
  {
    forall x, r | FitsAuthorization(x) ensures ReadAuthorization(PutAuthorization(x, r)) == Got(x, r) { ReadOfPutAuthorization(x, r); }
    ReadOfPutMany(ReadAuthorization, PutAuthorization, FitsAuthorization, s, rest);
  }

  lemma ReadOfPutData(mode: nat, data: seq<Byte>)
    requires ModeHasData(mode) == (|data| > 0) && |data| <= MAX_DATA_BYTES
    ensures ReadData(mode, PutData(mode, data)) == Some(data)
  {
    if ModeHasData(mode) {
      assert data + [] == data;
      ReadOfPutCompactSize(|data|, data);
    }
  }

  lemma ParsePayloadOfPayload(t: Transaction)
    requires WellSized(t) && |t.data| <= MAX_DATA_BYTES
    ensures ParsePayload(Payload(t)) == Some(PayloadFields(t.mode, t.authorizations, t.data))
  {
    Limits();
    var r3 := PutMany(PutAuthorization, t.authorizations, PutData(t.mode, t.data));
    var r2 := PutLE(|t.authorizations|, 1, r3);
    var r1 := PutLE(t.mode, 1, r2);
    ReadOfPutLE(1, 1, r1);
    ReadOfPutLE(t.mode, 1, r2);
    ReadOfPutLE(|t.authorizations|, 1, r3);
    ReadOfPutAuthorizations(t.authorizations, PutData(t.mode, t.data));
    ReadOfPutData(t.mode, t.data);
  }

  lemma ParseOfPutEnd(t: Transaction, modes: set<nat>)
    requires WellSized(t) && |t.data| <= MAX_DATA_BYTES && t.mode in modes && |Payload(t)| <= MAX_SAFE
    ensures ParseEnd(t.inputs, t.outputs, PutEnd(t), modes) == Some(t)
  {
    Limits();
    var r2 := PutVar(Payload(t), []);
    var r1 := PutLE(1, 1, r2);
    ReadOfPutLE(t.locktime, 4, PutLE(0, 1, r1));
    ReadOfPutLE(0, 1, r1);
    ReadOfPutLE(1, 1, r2);
    ReadOfPutVar(Payload(t), []);
    ParsePayloadOfPayload(t);
  }

  lemma {:induction false} PutInputsLonger(s: seq<Input>, rest: seq<Byte>)
    ensures |PutMany(PutInput, s, rest)| >= |rest|
  {
    if s == [] {
    } else {
      var tail := PutMany(PutInput, s[1..], rest);
      PutInputsLonger(s[1..], rest);
      PutVarLength(s[0].scriptSig, PutLE(s[0].sequence, 4, tail));
    }
  }

  lemma {:induction false} PutOutputsLonger(s: seq<Output>, rest: seq<Byte>)
    ensures |PutMany(PutOutput, s, rest)| >= |rest|
  {
    if s == [] {
    } else {
      PutOutputsLonger(s[1..], rest);
      PutVarLength(s[0].script, PutMany(PutOutput, s[1..], rest));
    }
  }

  lemma PayloadShorter(t: Transaction)
    requires WellSized(t)
    ensures |Payload(t)| <= |Encode(t)|
  {
    PutVarLength(Payload(t), []);
    PutOutputsLonger(t.outputs, PutEnd(t));
    var outs := PutMany(PutOutput, t.outputs, PutEnd(t));
    PutCountLength(|t.outputs|, outs);
    PutInputsLonger(t.inputs, PutCount(|t.outputs|, outs));
    PutCountLength(|t.inputs|, PutMany(PutInput, t.inputs, PutCount(|t.outputs|, outs)));
  }

  /** Parsing a serialized transaction of at most 24,000 bytes returns its fields. */
  lemma ParseOfEncode(t: Transaction, modes: set<nat>)
    requires WellSized(t) && |t.data| <= MAX_DATA_BYTES && t.mode in modes && |Encode(t)| <= MAX_TX_BYTES
    ensures Parse(Encode(t), modes) == Some(t)
  {
    Limits();
    PayloadShorter(t);
    ParseOfPutEnd(t, modes);
    var outs := PutMany(PutOutput, t.outputs, PutEnd(t));
    ReadOfPutOutputs(t.outputs, PutEnd(t));
    ReadOfPutCount(|t.outputs|, outs);
    assert ParseOutputs(t.inputs, PutCount(|t.outputs|, outs), modes) == Some(t);
    var ins := PutMany(PutInput, t.inputs, PutCount(|t.outputs|, outs));
    ReadOfPutInputs(t.inputs, PutCount(|t.outputs|, outs));
    ReadOfPutCount(|t.inputs|, ins);
    assert ParseBody(PutCount(|t.inputs|, ins), modes) == Some(t);
    ReadOfPutLE(TX_VERSION, 2, PutLE(TX_TYPE, 2, PutCount(|t.inputs|, ins)));
    ReadOfPutLE(TX_TYPE, 2, PutCount(|t.inputs|, ins));
  }

  // ---------------------------------------------------------------- writing what was read

  lemma PutOfReadInput(b: seq<Byte>, i: Input, rest: seq<Byte>)
    requires ReadInput(b) == Got(i, rest)
    ensures FitsInput(i) && b == PutInput(i, rest)
  {
    Limits();
    var w := Take(b, 32);
    PutOfReadLE(w.rest, 4, i.vout, ReadLE(w.rest, 4).rest);
    var v := ReadVar(ReadLE(w.rest, 4).rest);
    PutOfReadVar(ReadLE(w.rest, 4).rest, v.value, v.rest);
    PutOfReadLE(v.rest, 4, i.sequence, rest);
    ReverseTwice(w.value);
  }

  lemma PutOfReadOutput(b: seq<Byte>, o: Output, rest: seq<Byte>)
    requires ReadOutput(b) == Got(o, rest)
    ensures FitsOutput(o) && b == PutOutput(o, rest)
  {
    var v := ReadI64(b);
    PutOfReadI64(b, v.value, v.rest);
    PutOfReadVar(v.rest, o.script, rest);
  }

  lemma PutOfReadAuthorization(b: seq<Byte>, a: Authorization, rest: seq<Byte>)
    requires ReadAuthorization(b) == Got(a, rest)
    ensures FitsAuthorization(a) && b == PutAuthorization(a, rest)
  {
  }

  lemma PutOfReadInputs(n: nat, b: seq<Byte>, s: seq<Input>, rest: seq<Byte>)
    requires ReadMany(ReadInput, n, b) == Got(s, rest)
    ensures |s| == n && AllFit(FitsInput, s) && b == PutMany(PutInput, s, rest)
  {
    forall c | ReadInput(c).Got? ensures FitsInput(ReadInput(c).value) && c == PutInput(ReadInput(c).value, ReadInput(c).rest) {
      PutOfReadInput(c, ReadInput(c).value, ReadInput(c).rest);
    }
    PutOfReadMany(ReadInput, PutInput, FitsInput, n, b, s, rest);
  }

  lemma PutOfReadOutputs(n: nat, b: seq<Byte>, s: seq<Output>, rest: seq<Byte>)
    requires ReadMany(ReadOutput, n, b) == Got(s, rest)
    ensures |s| == n && AllFit(FitsOutput, s) && b == PutMany(PutOutput, s, rest)
  {
    forall c | ReadOutput(c).Got? ensures FitsOutput(ReadOutput(c).value) && c == PutOutput(ReadOutput(c).value, ReadOutput(c).rest) {
      PutOfReadOutput(c, ReadOutput(c).value, ReadOutput(c).rest);
    }
    PutOfReadMany(ReadOutput, PutOutput, FitsOutput, n, b, s, rest);
  }

  lemma PutOfReadAuthorizations(n: nat, b: seq<Byte>, s: seq<Authorization>, rest: seq<Byte>)
    requires ReadMany(ReadAuthorization, n, b) == Got(s, rest)
    ensures |s| == n && AllFit(FitsAuthorization, s) && b == PutMany(PutAuthorization, s, rest)
  {
    forall c | ReadAuthorization(c).Got?
      ensures FitsAuthorization(ReadAuthorization(c).value) && c == PutAuthorization(ReadAuthorization(c).value, ReadAuthorization(c).rest)
    {
      PutOfReadAuthorization(c, ReadAuthorization(c).value, ReadAuthorization(c).rest);
    }
    PutOfReadMany(ReadAuthorization, PutAuthorization, FitsAuthorization, n, b, s, rest);
  }

  lemma PutOfReadData(mode: nat, b: seq<Byte>, data: seq<Byte>)
    requires ReadData(mode, b) == Some(data)
    ensures ModeHasData(mode) == (|data| > 0) && |data| <= MAX_DATA_BYTES && b == PutData(mode, data)
  {
    if ModeHasData(mode) {
      PutOfReadCompactSize(b, |data|, data);
      assert data + [] == data;
    }
  }

  lemma PayloadOfParsePayload(b: seq<Byte>, t: Transaction)
    requires ParsePayload(b) == Some(PayloadFields(t.mode, t.authorizations, t.data))
    ensures b == Payload(t) && t.mode < 256
    ensures AllFit(FitsAuthorization, t.authorizations)
    ensures ModeHasData(t.mode) == (|t.data| > 0) && |t.data| <= MAX_DATA_BYTES
  {
    Limits();
    var r0 := ReadLE(b, 1).rest;
    PutOfReadLE(b, 1, 1, r0);
    var r1 := ReadLE(r0, 1).rest;
    PutOfReadLE(r0, 1, t.mode, r1);
    var count := ReadLE(r1, 1);
    PutOfReadLE(r1, 1, count.value, count.rest);
    var r3 := ReadMany(ReadAuthorization, count.value, count.rest).rest;
    PutOfReadAuthorizations(count.value, count.rest, t.authorizations, r3);
    PutOfReadData(t.mode, r3, t.data);
  }

  lemma PutOfParseEnd(t: Transaction, b: seq<Byte>, modes: set<nat>)
    requires ParseEnd(t.inputs, t.outputs, b, modes) == Some(t)
    ensures b == PutEnd(t) && t.mode in modes && t.locktime < 0x1_0000_0000 && t.mode < 256
    ensures |t.authorizations| == |t.inputs| && (t.mode != STAKE_MODE ==> |t.outputs| <= MAX_OUTPUTS)
    ensures AllFit(FitsAuthorization, t.authorizations)
    ensures ModeHasData(t.mode) == (|t.data| > 0) && |t.data| <= MAX_DATA_BYTES
  {
    Limits();
    var r0 := ReadLE(b, 4).rest;
    PutOfReadLE(b, 4, t.locktime, r0);
    var r1 := ReadLE(r0, 1).rest;
    PutOfReadLE(r0, 1, 0, r1);
    var r2 := ReadLE(r1, 1).rest;
    PutOfReadLE(r1, 1, 1, r2);
    var payload := ReadVar(r2).value;
    PutOfReadVar(r2, payload, []);
    PayloadOfParsePayload(payload, t);
  }

  /** The reader's intermediate values for an accepted transaction. */
  lemma ParseSteps(raw: seq<Byte>, modes: set<nat>, t: Transaction)
    returns (r1: seq<Byte>, r2: seq<Byte>, r3: seq<Byte>, r4: seq<Byte>, r5: seq<Byte>)
    requires Parse(raw, modes) == Some(t)
    ensures ReadLE(raw, 2).Got? && ReadLE(raw, 2).value == TX_VERSION && ReadLE(ReadLE(raw, 2).rest, 2) == Got(TX_TYPE, r1)
    ensures ReadCount(r1) == Got(|t.inputs|, r2) && 1 <= |t.inputs| <= MAX_INPUTS
    ensures ReadMany(ReadInput, |t.inputs|, r2) == Got(t.inputs, r3)
    ensures ReadCount(r3) == Got(|t.outputs|, r4) && 1 <= |t.outputs| <= 3
    ensures ReadMany(ReadOutput, |t.outputs|, r4) == Got(t.outputs, r5)
    ensures ParseEnd(t.inputs, t.outputs, r5, modes) == Some(t)
  {
    r1 := ReadLE(ReadLE(raw, 2).rest, 2).rest;
    var inputs := ReadCount(r1);
    r2 := inputs.rest;
    r3 := ReadMany(ReadInput, inputs.value, r2).rest;
    PutOfReadInputs(inputs.value, r2, t.inputs, r3);
    var outputs := ReadCount(r3);
    r4 := outputs.rest;
    r5 := ReadMany(ReadOutput, outputs.value, r4).rest;
    PutOfReadOutputs(outputs.value, r4, t.outputs, r5);
  }

  /** Canonicity: whatever the parser accepts is exactly the encoding of its fields. */
  lemma EncodeOfParse(raw: seq<Byte>, modes: set<nat>, t: Transaction)
    requires Parse(raw, modes) == Some(t)
    ensures WellSized(t) && |t.data| <= MAX_DATA_BYTES && t.mode in modes
    ensures Encode(t) == raw
  {
    var r1, r2, r3, r4, r5 := ParseSteps(raw, modes, t);
    PutOfReadLE(raw, 2, TX_VERSION, ReadLE(raw, 2).rest);
    PutOfReadLE(ReadLE(raw, 2).rest, 2, TX_TYPE, r1);
    PutOfReadCompactSize(r1, |t.inputs|, r2);
    PutOfReadInputs(|t.inputs|, r2, t.inputs, r3);
    PutOfReadCompactSize(r3, |t.outputs|, r4);
    PutOfReadOutputs(|t.outputs|, r4, t.outputs, r5);
    PutOfParseEnd(t, r5, modes);
  }

  /**
   The format is canonical both ways: raw bytes parse to t exactly when t is of
   legal size and mode and raw is its encoding, of at most 24,000 bytes.
   */
  lemma WireCanonical(raw: seq<Byte>, modes: set<nat>, t: Transaction)
    requires modes <= {TRANSFER_MODE, STAKE_MODE, MASTERNODE_MODE}
    ensures Parse(raw, modes) == Some(t) <==>
            WellSized(t) && t.mode in modes && raw == Encode(t) && |raw| <= MAX_TX_BYTES
  {
    hide ParseBody, Encode, WellSized;
    if Parse(raw, modes) == Some(t) {
      assert |raw| <= MAX_TX_BYTES;
      hide Parse;
      EncodeOfParse(raw, modes, t);
    } else if WellSized(t) && t.mode in modes && raw == Encode(t) && |raw| <= MAX_TX_BYTES {
      DataFits(t);
      ParseOfEncode(t, modes);
    }
  }

  lemma DataFits(t: Transaction)
    requires WellSized(t) && t.mode in {TRANSFER_MODE, STAKE_MODE, MASTERNODE_MODE}
    ensures |t.data| <= MAX_DATA_BYTES
  {
  }

  /** Accepted bytes re-serialize, and to the same bytes, exactly when no output value is negative. */
  lemma Reserialize(raw: seq<Byte>, modes: set<nat>, t: Transaction)
    requires Parse(raw, modes) == Some(t)
    ensures Serialize(t) == Some(raw) <==> NonNegative(t.outputs)
    ensures Serialize(t) == None <==> !NonNegative(t.outputs)
  {
    EncodeOfParse(raw, modes, t);
  }

  // ---------------------------------------------------------------- the fixed parts

  /** An input: the id reversed, the position, the script behind its length, the sequence. */
  lemma InputLayout(i: Input, rest: seq<Byte>)
    requires FitsInput(i) && i.scriptSig == []
    ensures var b := PutInput(i, rest);
            && |b| == 41 + |rest| && b[41..] == rest
            && Reverse(b[..32]) == i.txid && FromLE(b[32..36]) == i.vout && b[36] == 0 && FromLE(b[37..41]) == i.sequence
  {
    hide Reverse, FromLE;
    var b := PutInput(i, rest);
    var r3 := LE(i.sequence, 4) + rest;
    var r2 := [0] + r3;
    assert PutVar(i.scriptSig, PutLE(i.sequence, 4, rest)) == r2;
    hide LE, PutVar;
    assert b[0..] == b;
    Cut(b, 0, Reverse(i.txid), LE(i.vout, 4) + r2);
    Cut(b, 32, LE(i.vout, 4), r2);
    Cut(b, 36, [0], r3);
    Cut(b, 37, LE(i.sequence, 4), rest);
    ReverseTwice(i.txid);
    Limits();
    FromLEOfLE(i.vout, 4);
    FromLEOfLE(i.sequence, 4);
  }

  /** An authorization: the key, then the signature. */
  lemma AuthorizationLayout(a: Authorization, rest: seq<Byte>)
    requires FitsAuthorization(a)
    ensures var b := PutAuthorization(a, rest);
            |b| == 3732 + |rest| && b[..1312] == a.publicKey && b[1312..3732] == a.signature && b[3732..] == rest
  {
    var b := PutAuthorization(a, rest);
    assert b[0..] == b;
    Cut(b, 0, a.publicKey, a.signature + rest);
    Cut(b, 1312, a.signature, rest);
  }

  /** After the outputs: the locktime, no sapling data, the marker, and the payload, which begins with its version, the mode and the number of keys. */
  lemma EndLayout(t: Transaction)
    requires t.locktime < 0x1_0000_0000 && t.mode < 256 && |t.authorizations| < 256 && |Payload(t)| <= MAX_SAFE
    ensures var b := PutEnd(t);
            && |b| >= 6 && FromLE(b[..4]) == t.locktime && b[4..6] == [0, 1] && ReadVar(b[6..]) == Got(Payload(t), [])
    ensures |Payload(t)| >= 3 && Payload(t)[..3] == [1, t.mode, |t.authorizations|]
  {
    hide FromLE, PutMany, PutVar, ReadVar;
    var b, payload := PutEnd(t), PutVar(Payload(t), []);
    assert LE(0, 1) == [0] && LE(1, 1) == [1] && LE(t.mode, 1) == [t.mode] && LE(|t.authorizations|, 1) == [|t.authorizations|];
    assert PutLE(0, 1, PutLE(1, 1, payload)) == [0, 1] + payload;
    assert b[0..] == b;
    Cut(b, 0, LE(t.locktime, 4), [0, 1] + payload);
    Cut(b, 4, [0, 1], payload);
    Limits();
    FromLEOfLE(t.locktime, 4);
    ReadOfPutVar(Payload(t), []);
    PayloadHead(t);
  }

  lemma PayloadHead(t: Transaction)
    requires t.mode < 256 && |t.authorizations| < 256
    ensures |Payload(t)| >= 3 && Payload(t)[..3] == [1, t.mode, |t.authorizations|]
  {
    hide PutMany, PutData;
    var rest := PutMany(PutAuthorization, t.authorizations, PutData(t.mode, t.data));
    assert LE(1, 1) == [1] && LE(t.mode, 1) == [t.mode] && LE(|t.authorizations|, 1) == [|t.authorizations|];
    assert Payload(t) == [1, t.mode, |t.authorizations|] + rest;
  }

  lemma SizedShape(t: Transaction)
    requires WellSized(t)
    ensures 1 <= |t.inputs| == |t.authorizations| <= 2 && 1 <= |t.outputs| <= (if t.mode == 2 then 3 else 2)
    ensures (3 <= t.mode <= 8 <==> |t.data| > 0) && (t.mode == 6 ==> |t.data| <= 12000)
    ensures forall i :: 0 <= i < |t.authorizations| ==> |t.authorizations[i].publicKey| == 1312 && |t.authorizations[i].signature| == 2420
  {
    forall i | 0 <= i < |t.authorizations| ensures |t.authorizations[i].publicKey| == 1312 && |t.authorizations[i].signature| == 2420 {
      assert FitsAuthorization(t.authorizations[i]);
    }
  }

  /** What every accepted transaction is: its first bytes, and its counts, modes and sizes. */
  lemma ParsedShape(raw: seq<Byte>, modes: set<nat>, t: Transaction)
    requires Parse(raw, modes) == Some(t)
    ensures 4 < |raw| <= 24000 && raw[..4] == [3, 0, 8, 0] && raw[4] == |t.inputs|
    ensures 1 <= |t.inputs| == |t.authorizations| <= 2 && 1 <= |t.outputs| <= (if t.mode == 2 then 3 else 2)
    ensures t.mode in modes && (3 <= t.mode <= 8 <==> |t.data| > 0) && |t.data| <= 12000
    ensures forall i :: 0 <= i < |t.authorizations| ==> |t.authorizations[i].publicKey| == 1312 && |t.authorizations[i].signature| == 2420
  {
    hide ParseBody, Encode, WellSized;
    assert |raw| <= 24000;
    hide Parse;
    EncodeOfParse(raw, modes, t);
    SizedShape(t);
    HeaderBytes(t);
  }

  lemma HeaderBytes(t: Transaction)
    requires |t.inputs| <= 2
    ensures 4 < |Encode(t)| && Encode(t)[..4] == [3, 0, 8, 0] && Encode(t)[4] == |t.inputs|
  {
    hide PutMany;
    var body := PutMany(PutInput, t.inputs, PutCount(|t.outputs|, PutMany(PutOutput, t.outputs, PutEnd(t))));
    assert LE(TX_VERSION, 2) == [3, 0] && LE(TX_TYPE, 2) == [8, 0] && LE(|t.inputs|, 1) == [|t.inputs|];
    assert Encode(t) == [3, 0, 8, 0] + ([|t.inputs|] + body);
  }

  /** Wallet transactions are transfers and registrations; block templates stake. */
  lemma ModesOf(raw: seq<Byte>)
    ensures ParseTransfer(raw).Some? ==> ParseTransfer(raw).value.mode in {1, 6}
    ensures Parse(raw, STAKE_MODES).Some? ==> Parse(raw, STAKE_MODES).value.mode == 2
  {
    if ParseTransfer(raw).Some? {
      ParsedShape(raw, TRANSFER_MODES, ParseTransfer(raw).value);
    }
    if Parse(raw, STAKE_MODES).Some? {
      ParsedShape(raw, STAKE_MODES, Parse(raw, STAKE_MODES).value);
    }
  }
}
