/** The older transaction format, with its shielded part, and exactly which transactions survive a round trip. */
module LegacyTx {
  import opened Wrappers
  import opened Bytes
  import PqWire
  import PreviousOutput
  import Words

  const SAPLING_VERSION := 3

  datatype Spend = Spend(cv: seq<Byte>, anchor: seq<Byte>, nullifier: seq<Byte>, rk: seq<Byte>, proof: seq<Byte>, signature: seq<Byte>)

  datatype Note = Note(cv: seq<Byte>, cmu: seq<Byte>, ephemeralKey: seq<Byte>, encrypted: seq<Byte>, outgoing: seq<Byte>, proof: seq<Byte>)

  /** Transaction ids and the shielded 32-byte fields are in display order. */
  datatype Tx = Tx(
    version: nat,
    inputs: seq<PqWire.Input>,
    outputs: seq<PqWire.Output>,
    lockTime: nat,
    valueBalance: int,
    spends: seq<Spend>,
    notes: seq<Note>,
    bindingSig: seq<Byte>)

  // ---------------------------------------------------------------- writing

  function PutBytes(x: seq<Byte>, rest: seq<Byte>): seq<Byte> {
    x + rest
  }

  /** `numToBytes` after its first byte, once the bytes are made: a -1 within becomes one element, which reads as zero. */
  function NumberBytes(v: int, k: nat): (r: seq<Byte>)
    decreases k
  {
    if k == 0 then []
    else if v == -1 then [0]
    else [v % 256] + NumberBytes(if v < 0 then -(-v / 256) else v / 256, k - 1)
  }

  /** `numToBytes` of eight bytes: little endian, for -1 all ones, and for other negative numbers neither. */
  function WireNumber(v: int): seq<Byte> {
    if v == -1 then [255, 255, 255, 255, 255, 255, 255, 255] else NumberBytes(v, 8)
  }

  /** What is not negative is written as it should be. */
  lemma {:induction false} NumberBytesLE(v: nat, k: nat)
    ensures NumberBytes(v, k) == LE(v, k)
  {
    if k == 0 {
    } else {
      NumberBytesLE(v / 256, k - 1);
    }
  }

  /** It goes wrong: -256 takes two bytes, and reads back as another number. */
  lemma NegativeMiswritten()
    ensures WireNumber(-256) == [0, 0] && WireNumber(-2) == [254, 0, 0, 0, 0, 0, 0, 0] && FromLE(WireNumber(-2)) == 254
  {
    NumberBytesLE(0, 7);
    assert NumberBytes(-2, 8) == [254] + NumberBytes(0, 7);
    assert LE(0, 7) == [0, 0, 0, 0, 0, 0, 0];
    assert NumberBytes(-256, 8) == [0] + NumberBytes(-1, 7);
  }

  function PutOutput(o: PqWire.Output, rest: seq<Byte>): seq<Byte> {
    WireNumber(o.value) + PutVar(o.script, rest)
  }

  lemma PutOutputSame(o: PqWire.Output, rest: seq<Byte>)
    requires 0 <= o.value < TWO64
    ensures PutOutput(o, rest) == PqWire.PutOutput(o, rest)
  {
    NumberBytesLE(o.value, 8);
    assert o.value % TWO64 == o.value;
    hide NumberBytes, LE, PutVar;
  }

  lemma {:induction false} PutOutputsSame(s: seq<PqWire.Output>, rest: seq<Byte>)
    requires AllFit(FitsOutput, s)
    ensures PutMany(PutOutput, s, rest) == PutMany(PqWire.PutOutput, s, rest)
  {
    if s == [] {
    } else {
      PutOutputsSame(s[1..], rest);
      PutOutputSame(s[0], PutMany(PutOutput, s[1..], rest));
    }
  }

  function PutReversed(x: seq<Byte>, rest: seq<Byte>): seq<Byte> {
    Reverse(x) + rest
  }

  function PutSpend(s: Spend, rest: seq<Byte>): seq<Byte> {
    PutReversed(s.cv, PutReversed(s.anchor, PutReversed(s.nullifier, PutReversed(s.rk, PutBytes(s.proof, PutBytes(s.signature, rest))))))
  }

  function PutNote(n: Note, rest: seq<Byte>): seq<Byte> {
    PutReversed(n.cv, PutReversed(n.cmu, PutReversed(n.ephemeralKey, PutBytes(n.encrypted, PutBytes(n.outgoing, PutBytes(n.proof, rest))))))
  }

  function PutShielded(t: Tx): seq<Byte> {
    PutI64(t.valueBalance, PutCount(|t.spends|, PutMany(PutSpend, t.spends, PutCount(|t.notes|, PutMany(PutNote, t.notes, t.bindingSig)))))
  }

  /** Lock time and, from version 3, the shielded part, flagged by whether there is a binding signature. */
  function PutEnd(t: Tx): seq<Byte> {
    PutLE(t.lockTime, 4, if t.version >= SAPLING_VERSION then PutLE(if t.bindingSig != [] then 1 else 0, 1, PutShielded(t)) else [])
  }

  function Encode(t: Tx): seq<Byte> {
    PutLE(t.version, 4,
      PutCount(|t.inputs|, PutMany(PqWire.PutInput, t.inputs,
        PutCount(|t.outputs|, PutMany(PutOutput, t.outputs, PutEnd(t))))))
  }

  predicate FitsSpend(s: Spend) {
    |s.cv| == |s.anchor| == |s.nullifier| == |s.rk| == 32 && |s.proof| == 192 && |s.signature| == 64
  }

  predicate FitsNote(n: Note) {
    |n.cv| == |n.cmu| == |n.ephemeralKey| == 32 && |n.encrypted| == 580 && |n.outgoing| == 80 && |n.proof| == 192
  }

  predicate FitsOutput(o: PqWire.Output) {
    0 <= o.value <= MAX_SAFE && |o.script| <= MAX_SAFE
  }

  /** Field widths, and numbers that are exact as JavaScript numbers. */
  predicate WellSized(t: Tx) {
    && t.version < 0x1_0000_0000 && t.lockTime < 0x1_0000_0000
    && |t.inputs| <= MAX_SAFE && AllFit(PqWire.FitsInput, t.inputs)
    && |t.outputs| <= MAX_SAFE && AllFit(FitsOutput, t.outputs)
    && -MAX_SAFE <= t.valueBalance <= MAX_SAFE
    && |t.spends| <= MAX_SAFE && AllFit(FitsSpend, t.spends)
    && |t.notes| <= MAX_SAFE && AllFit(FitsNote, t.notes)
  }

  // ---------------------------------------------------------------- reading

  /** A count in any of its four forms, shortest or not. */
  function ReadVarInt(b: seq<Byte>): Parsed<nat> {
    match ReadLE(b, 1)
    case Fail => Fail
    case Got(first, r) =>
      if first < 253 then Got(first, r) else ReadLE(r, if first == 253 then 2 else if first == 254 then 4 else 8)
  }

  function ReadScript(b: seq<Byte>): Parsed<seq<Byte>> {
    match ReadVarInt(b)
    case Fail => Fail
    case Got(n, r) => Take(r, n)
  }

  function ReadReversed(b: seq<Byte>): Parsed<seq<Byte>> {
    match Take(b, 32)
    case Fail => Fail
    case Got(x, r) => Got(Reverse(x), r)
  }

  function ReadInput(b: seq<Byte>): Parsed<PqWire.Input> {
    match ReadReversed(b)
    case Fail => Fail
    case Got(txid, r0) =>
      match ReadLE(r0, 4)
      case Fail => Fail
      case Got(n, r1) =>
        match ReadScript(r1)
        case Fail => Fail
        case Got(script, r2) =>
          match ReadLE(r2, 4)
          case Fail => Fail
          case Got(sequence, r3) => Got(PqWire.Input(txid, n, script, sequence), r3)
  }

  function ReadOutput(b: seq<Byte>): Parsed<PqWire.Output> {
    match ReadLE(b, 8)
    case Fail => Fail
    case Got(value, r0) =>
      match ReadScript(r0)
      case Fail => Fail
      case Got(script, r1) => Got(PqWire.Output(value, script), r1)
  }

  /** Four reversed fields, as every spend begins. */
  function ReadFour(b: seq<Byte>): Parsed<(seq<Byte>, seq<Byte>, seq<Byte>, seq<Byte>)> {
    match ReadReversed(b)
    case Fail => Fail
    case Got(a, r0) =>
      match ReadReversed(r0)
      case Fail => Fail
      case Got(c, r1) =>
        match ReadReversed(r1)
        case Fail => Fail
        case Got(d, r2) =>
          match ReadReversed(r2)
          case Fail => Fail
          case Got(e, r3) => Got((a, c, d, e), r3)
  }

  function ReadSpend(b: seq<Byte>): Parsed<Spend> {
    match ReadFour(b)
    case Fail => Fail
    case Got(four, r0) =>
      match Take(r0, 192)
      case Fail => Fail
      case Got(proof, r1) =>
        match Take(r1, 64)
        case Fail => Fail
        case Got(signature, r2) => Got(Spend(four.0, four.1, four.2, four.3, proof, signature), r2)
  }

  /** The three reversed fields a note begins with. */
  function ReadThree(b: seq<Byte>): Parsed<(seq<Byte>, seq<Byte>, seq<Byte>)> {
    match ReadReversed(b)
    case Fail => Fail
    case Got(a, r0) =>
      match ReadReversed(r0)
      case Fail => Fail
      case Got(c, r1) =>
        match ReadReversed(r1)
        case Fail => Fail
        case Got(d, r2) => Got((a, c, d), r2)
  }

  function ReadNote(b: seq<Byte>): Parsed<Note> {
    match ReadThree(b)
    case Fail => Fail
    case Got(three, r0) =>
      match Take(r0, 580)
      case Fail => Fail
      case Got(encrypted, r1) =>
        match Take(r1, 80)
        case Fail => Fail
        case Got(outgoing, r2) =>
          match Take(r2, 192)
          case Fail => Fail
          case Got(proof, r3) => Got(Note(three.0, three.1, three.2, encrypted, outgoing, proof), r3)
  }

  function ReadList<T>(read: seq<Byte> -> Parsed<T>, b: seq<Byte>): Parsed<seq<T>> {
    match ReadVarInt(b)
    case Fail => Fail
    case Got(n, r) => ReadMany(read, n, r)
  }

  /** The binding signature: 64 bytes, or what there is. */
  function Signature(b: seq<Byte>): seq<Byte> {
    if |b| < 64 then b else b[..64]
  }

  function ReadShielded(b: seq<Byte>, t: Tx): Option<Tx> {
    match ReadI64(b)
    case Fail => None
    case Got(valueBalance, r0) =>
      match ReadList(ReadSpend, r0)
      case Fail => None
      case Got(spends, r1) =>
        match ReadList(ReadNote, r1)
        case Fail => None
        case Got(notes, r2) =>
          Some(t.(valueBalance := valueBalance, spends := spends, notes := notes, bindingSig := Signature(r2)))
  }

  /** From the lock time on; bytes that follow are not looked at. */
  function ReadEnd(b: seq<Byte>, version: nat, inputs: seq<PqWire.Input>, outputs: seq<PqWire.Output>): Option<Tx> {
    match ReadLE(b, 4)
    case Fail => None
    case Got(lockTime, r) =>
      var t := Tx(version, inputs, outputs, lockTime, 0, [], [], []);
      if version < SAPLING_VERSION || r == [] || r[0] == 0 then Some(t) else ReadShielded(r[1..], t)
  }

  /** `fromHex` on a new transaction; None where the bytes run out before the binding signature. */
  function Decode(b: seq<Byte>): Option<Tx> {
    match ReadLE(b, 4)
    case Fail => None
    case Got(version, r0) =>
      match ReadList(ReadInput, r0)
      case Fail => None
      case Got(inputs, r1) =>
        match ReadList(ReadOutput, r1)
        case Fail => None
        case Got(outputs, r2) => ReadEnd(r2, version, inputs, outputs)
  }

  // ---------------------------------------------------------------- reading what was written

  lemma ReadOfPutVarInt(n: nat, rest: seq<Byte>)
    requires n <= MAX_SAFE
    ensures ReadVarInt(PutCount(n, rest)) == Got(n, rest)
  {
    Limits();
    if n < 0xfd {
      ReadOfPutLE(n, 1, rest);
    } else {
      var k := if n <= 0xffff then 2 else if n <= 0xffff_ffff then 4 else 8;
      ReadOfPutLE(if k == 2 then 0xfd else if k == 4 then 0xfe else 0xff, 1, PutLE(n, k, rest));
      ReadOfPutLE(n, k, rest);
    }
  }

  lemma ReadOfPutScript(x: seq<Byte>, rest: seq<Byte>)
    requires |x| <= MAX_SAFE
    ensures ReadScript(PutVar(x, rest)) == Got(x, rest)
  {
    ReadOfPutVarInt(|x|, x + rest);
    TakeOfConcat(x, rest);
  }

  lemma ReadOfPutReversed(x: seq<Byte>, rest: seq<Byte>)
    requires |x| == 32
    ensures ReadReversed(PutReversed(x, rest)) == Got(x, rest)
  {
    TakeOfConcat(Reverse(x), rest);
    ReverseTwice(x);
  }

  lemma ReadOfPutInput(i: PqWire.Input, rest: seq<Byte>)
    requires PqWire.FitsInput(i)
    ensures ReadInput(PqWire.PutInput(i, rest)) == Got(i, rest)
  {
    hide ReadReversed, ReadScript, ReadLE, PutLE, PutVar;
    Limits();
    var r2 := PutLE(i.sequence, 4, rest);
    var r1 := PutVar(i.scriptSig, r2);
    ReadOfPutReversed(i.txid, PutLE(i.vout, 4, r1));
    ReadOfPutLE(i.vout, 4, r1);
    ReadOfPutScript(i.scriptSig, r2);
    ReadOfPutLE(i.sequence, 4, rest);
  }

  lemma ReadOfPutPlain(o: PqWire.Output, rest: seq<Byte>)
    requires FitsOutput(o)
    ensures ReadOutput(PqWire.PutOutput(o, rest)) == Got(o, rest)
  {
    hide ReadScript, ReadLE, PutLE, PutVar;
    Limits();
    ReadOfPutLE(o.value, 8, PutVar(o.script, rest));
    ReadOfPutScript(o.script, rest);
  }

  lemma ReadOfPutOutput(o: PqWire.Output, rest: seq<Byte>)
    requires FitsOutput(o)
    ensures ReadOutput(PutOutput(o, rest)) == Got(o, rest)
  {
    PutOutputSame(o, rest);
    ReadOfPutPlain(o, rest);
  }

  lemma ReadOfPutSpend(s: Spend, rest: seq<Byte>)
    requires FitsSpend(s)
    ensures ReadSpend(PutSpend(s, rest)) == Got(s, rest)
  {
    hide ReadReversed, PutReversed, Take;
    var r5 := PutBytes(s.signature, rest);
    var r4 := PutBytes(s.proof, r5);
    var r3 := PutReversed(s.rk, r4);
    var r2 := PutReversed(s.nullifier, r3);
    var r1 := PutReversed(s.anchor, r2);
    ReadOfPutReversed(s.cv, r1);
    ReadOfPutReversed(s.anchor, r2);
    ReadOfPutReversed(s.nullifier, r3);
    ReadOfPutReversed(s.rk, r4);
    TakeOfConcat(s.proof, r5);
    TakeOfConcat(s.signature, rest);
  }

  lemma ReadOfPutNote(n: Note, rest: seq<Byte>)
    requires FitsNote(n)
    ensures ReadNote(PutNote(n, rest)) == Got(n, rest)
  {
    hide ReadReversed, PutReversed, Take;
    var r5 := PutBytes(n.proof, rest);
    var r4 := PutBytes(n.outgoing, r5);
    var r3 := PutBytes(n.encrypted, r4);
    var r2 := PutReversed(n.ephemeralKey, r3);
    var r1 := PutReversed(n.cmu, r2);
    ReadOfPutReversed(n.cv, r1);
    ReadOfPutReversed(n.cmu, r2);
    ReadOfPutReversed(n.ephemeralKey, r3);
    TakeOfConcat(n.encrypted, r4);
    TakeOfConcat(n.outgoing, r5);
    TakeOfConcat(n.proof, rest);
  }

  lemma ReadOfPutList<T(!new)>(read: seq<Byte> -> Parsed<T>, put: (T, seq<Byte>) -> seq<Byte>, fits: T -> bool, s: seq<T>, rest: seq<Byte>)
    requires ReadsBack(read, put, fits) && AllFit(fits, s) && |s| <= MAX_SAFE
    ensures ReadList(read, PutCount(|s|, PutMany(put, s, rest))) == Got(s, rest)
  {
    ReadOfPutVarInt(|s|, PutMany(put, s, rest));
    ReadOfPutMany(read, put, fits, s, rest);
  }

  lemma AllReadBack()
    ensures ReadsBack(ReadInput, PqWire.PutInput, PqWire.FitsInput) && ReadsBack(ReadOutput, PutOutput, FitsOutput)
    ensures ReadsBack(ReadSpend, PutSpend, FitsSpend) && ReadsBack(ReadNote, PutNote, FitsNote)
  {
    forall x, r | PqWire.FitsInput(x) ensures ReadInput(PqWire.PutInput(x, r)) == Got(x, r) { ReadOfPutInput(x, r); }
    forall x, r | FitsOutput(x) ensures ReadOutput(PutOutput(x, r)) == Got(x, r) { ReadOfPutOutput(x, r); }
    forall x, r | FitsSpend(x) ensures ReadSpend(PutSpend(x, r)) == Got(x, r) { ReadOfPutSpend(x, r); }
    forall x, r | FitsNote(x) ensures ReadNote(PutNote(x, r)) == Got(x, r) { ReadOfPutNote(x, r); }
  }

  lemma ShieldedOfPut(t: Tx, blank: Tx)
    requires WellSized(t)
    ensures ReadShielded(PutShielded(t), blank) ==
            Some(blank.(valueBalance := t.valueBalance, spends := t.spends, notes := t.notes, bindingSig := Signature(t.bindingSig)))
  {
    hide ReadList, ReadI64, PutI64, Signature;
    AllReadBack();
    var r1 := PutCount(|t.notes|, PutMany(PutNote, t.notes, t.bindingSig));
    ReadOfPutI64(t.valueBalance, PutCount(|t.spends|, PutMany(PutSpend, t.spends, r1)));
    ReadOfPutList(ReadSpend, PutSpend, FitsSpend, t.spends, r1);
    ReadOfPutList(ReadNote, PutNote, FitsNote, t.notes, t.bindingSig);
  }

  /** What is read back of a transaction that was written. */
  function Restored(t: Tx): Tx {
    if t.version >= 3 && t.bindingSig != [] then t.(bindingSig := Signature(t.bindingSig))
    else t.(valueBalance := 0, spends := [], notes := [], bindingSig := [])
  }

  lemma EndOfPut(t: Tx)
    requires WellSized(t)
    ensures ReadEnd(PutEnd(t), t.version, t.inputs, t.outputs) == Some(Restored(t))
  {
    hide ReadShielded, PutShielded, Signature;
    Limits();
    var flagged := PutLE(if t.bindingSig != [] then 1 else 0, 1, PutShielded(t));
    var r := if t.version >= SAPLING_VERSION then flagged else [];
    ReadOfPutLE(t.lockTime, 4, r);
    var blank := Tx(t.version, t.inputs, t.outputs, t.lockTime, 0, [], [], []);
    ShieldedOfPut(t, blank);
    Flag(if t.bindingSig != [] then 1 else 0, PutShielded(t));
  }

  lemma Flag(flag: nat, rest: seq<Byte>)
    requires flag < 256
    ensures PutLE(flag, 1, rest) != [] && PutLE(flag, 1, rest)[0] == flag && PutLE(flag, 1, rest)[1..] == rest
  {
  }

  lemma DecodeOfEncode(t: Tx)
    requires WellSized(t)
    ensures Decode(Encode(t)) == Some(Restored(t))
  {
    hide ReadList, ReadEnd, PutEnd, Restored, ReadLE, PutLE;
    Limits();
    AllReadBack();
    var r3 := PutCount(|t.outputs|, PutMany(PutOutput, t.outputs, PutEnd(t)));
    ReadOfPutLE(t.version, 4, PutCount(|t.inputs|, PutMany(PqWire.PutInput, t.inputs, r3)));
    ReadOfPutList(ReadInput, PqWire.PutInput, PqWire.FitsInput, t.inputs, r3);
    ReadOfPutList(ReadOutput, PutOutput, FitsOutput, t.outputs, PutEnd(t));
    EndOfPut(t);
  }

  /** The transactions whose every field is written where it will be read. */
  predicate Restorable(t: Tx) {
    if t.version >= 3 && t.bindingSig != [] then |t.bindingSig| <= 64
    else t.valueBalance == 0 && t.spends == [] && t.notes == [] && t.bindingSig == []
  }

  /**
   A transaction is read back as itself exactly when it has a shielded part of
   version 3 or later with a binding signature of at most 64 bytes, or none at all.
   */
  lemma RoundTrip(t: Tx)
    requires WellSized(t)
    ensures Decode(Encode(t)) == Some(t) <==> Restorable(t)
  {
    hide Decode, Encode;
    DecodeOfEncode(t);
    var r := Restored(t);
    if t.version >= 3 && t.bindingSig != [] {
      assert r.bindingSig == t.bindingSig <==> |t.bindingSig| <= 64;
    } else {
      assert r == t <==> r.valueBalance == t.valueBalance && r.spends == t.spends && r.notes == t.notes && r.bindingSig == t.bindingSig;
    }
  }

  /** The staking code's prefix decoder finds the same outputs in a legacy transaction of version 1 to 3. */
  lemma PreviousOutputAgrees(t: Tx, v: int)
    requires WellSized(t)
    ensures PreviousOutput.Find(Encode(t), v) ==
            if 1 <= t.version % 0x1_0000 <= 3 then PreviousOutput.Expected(t.inputs, t.outputs, v) else None
  {
    hide PreviousOutput.AfterVersion, PreviousOutput.Expected, PreviousOutput.Find, PutEnd;
    var body := PutCount(|t.inputs|, PutMany(PqWire.PutInput, t.inputs, PutCount(|t.outputs|, PutMany(PutOutput, t.outputs, PutEnd(t)))));
    HalfWords(t.version, body);
    PreviousOutput.SplitVersion(t.version % 0x1_0000, t.version / 0x1_0000, body, v);
    assert AllFit(PqWire.FitsOutput, t.outputs);
    PutOutputsSame(t.outputs, PutEnd(t));
    PreviousOutput.FindAfter(t.inputs, t.outputs, PutEnd(t), v);
  }

  lemma HalfWords(n: nat, rest: seq<Byte>)
    requires n < 0x1_0000_0000
    ensures PutLE(n, 4, rest) == PutLE(n % 0x1_0000, 2, PutLE(n / 0x1_0000, 2, rest))
  {
    var low, high := n % 0x1_0000, n / 0x1_0000;
    TwoBytes(low);
    LowByte(n);
    assert LE(n, 4) == [n % 256] + ([n / 256 % 256] + LE(n / 256 / 256, 2));
    Words.ConcatAssoc([n % 256], [n / 256 % 256], LE(high, 2));
    Words.ConcatAssoc(LE(n % 0x1_0000, 2), LE(n / 0x1_0000, 2), rest);
  }

  lemma TwoBytes(n: nat)
    requires n < 0x1_0000
    ensures LE(n, 2) == [n % 256] + [n / 256]
  {
    assert LE(n / 256, 1) == [n / 256 % 256] + LE(n / 256 / 256, 0);
  }

  lemma LowByte(n: nat)
    ensures n % 0x1_0000 % 256 == n % 256 && n % 0x1_0000 / 256 == n / 256 % 256 && n / 0x1_0000 == n / 256 / 256
  {
  }

  // ---------------------------------------------------------------- the shielded fields

  /** A shielded spend: value commitment, anchor, nullifier and key, each reversed, then the proof and the signature. */
  lemma SpendLayout(s: Spend, rest: seq<Byte>)
    requires FitsSpend(s)
    ensures var b := PutSpend(s, rest);
            && |b| == 384 + |rest| && b[384..] == rest
            && Reverse(b[..32]) == s.cv && Reverse(b[32..64]) == s.anchor && Reverse(b[64..96]) == s.nullifier && Reverse(b[96..128]) == s.rk
            && b[128..320] == s.proof && b[320..384] == s.signature
  {
    hide Reverse;
    var b := PutSpend(s, rest);
    var r5 := PutBytes(s.signature, rest);
    var r4 := PutBytes(s.proof, r5);
    var r3 := PutReversed(s.rk, r4);
    var r2 := PutReversed(s.nullifier, r3);
    var r1 := PutReversed(s.anchor, r2);
    assert b[0..] == b;
    Cut(b, 0, Reverse(s.cv), r1);
    Cut(b, 32, Reverse(s.anchor), r2);
    Cut(b, 64, Reverse(s.nullifier), r3);
    Cut(b, 96, Reverse(s.rk), r4);
    Cut(b, 128, s.proof, r5);
    Cut(b, 320, s.signature, rest);
    ReverseTwice(s.cv); ReverseTwice(s.anchor); ReverseTwice(s.nullifier); ReverseTwice(s.rk);
  }

  /** A shielded output: two commitments and the ephemeral key, each reversed, then the two ciphertexts and the proof. */
  lemma NoteLayout(n: Note, rest: seq<Byte>)
    requires FitsNote(n)
    ensures var b := PutNote(n, rest);
            && |b| == 948 + |rest| && b[948..] == rest
            && Reverse(b[..32]) == n.cv && Reverse(b[32..64]) == n.cmu && Reverse(b[64..96]) == n.ephemeralKey
            && b[96..676] == n.encrypted && b[676..756] == n.outgoing && b[756..948] == n.proof
  {
    hide Reverse;
    var b := PutNote(n, rest);
    var r5 := PutBytes(n.proof, rest);
    var r4 := PutBytes(n.outgoing, r5);
    var r3 := PutBytes(n.encrypted, r4);
    var r2 := PutReversed(n.ephemeralKey, r3);
    var r1 := PutReversed(n.cmu, r2);
    assert b[0..] == b;
    Cut(b, 0, Reverse(n.cv), r1);
    Cut(b, 32, Reverse(n.cmu), r2);
    Cut(b, 64, Reverse(n.ephemeralKey), r3);
    Cut(b, 96, n.encrypted, r4);
    Cut(b, 676, n.outgoing, r5);
    Cut(b, 756, n.proof, rest);
    ReverseTwice(n.cv); ReverseTwice(n.cmu); ReverseTwice(n.ephemeralKey);
  }
}
