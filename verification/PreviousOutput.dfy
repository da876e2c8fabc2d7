/**
 The prefix decoder the staking code runs on the transaction its coin came from,
 and its agreement with the full parser.
 */
module PreviousOutput {
  import opened Wrappers
  import opened Bytes
  import opened PqWire
  import opened PqReader

  const MAX_COUNT := 256
  const MAX_SCRIPT := 10000

  // ---------------------------------------------------------------- what the decoder computes

  function ReadBounded(b: seq<Byte>, maximum: nat): Parsed<nat> {
    match ReadCompactSize(b)
    case Fail => Fail
    case Got(n, rest) => if n > maximum then Fail else Got(n, rest)
  }

  function ReadShort(b: seq<Byte>): Parsed<seq<Byte>> {
    match ReadBounded(b, MAX_SCRIPT)
    case Fail => Fail
    case Got(n, rest) => Take(rest, n)
  }

  /** One input: an outpoint, its script and a sequence number. */
  function ReadInputScript(b: seq<Byte>): Parsed<seq<Byte>> {
    match Take(b, 36)
    case Fail => Fail
    case Got(_, r0) =>
      match ReadShort(r0)
      case Fail => Fail
      case Got(script, r1) =>
        match Take(r1, 4)
        case Fail => Fail
        case Got(_, r2) => Got(script, r2)
  }

  function ReadShortOutput(b: seq<Byte>): Parsed<Output> {
    match ReadI64(b)
    case Fail => Fail
    case Got(value, r0) =>
      match ReadShort(r0)
      case Fail => Fail
      case Got(script, r1) => Got(Output(value, script), r1)
  }

  /** Item `v` of the items that start here. */
  function Nth<T>(read: seq<Byte> -> Parsed<T>, b: seq<Byte>, v: nat): Option<T>
    decreases v
  {
    match read(b)
    case Fail => None
    case Got(o, rest) => if v == 0 then Some(o) else Nth(read, rest, v - 1)
  }

  function FindOutput(b: seq<Byte>, v: int): Option<Output> {
    match ReadBounded(b, MAX_COUNT)
    case Fail => None
    case Got(n, rest) => if v < 0 || v >= n then None else Nth(ReadShortOutput, rest, v)
  }

  function AfterVersion(b: seq<Byte>, v: int): Option<Output> {
    match ReadBounded(b, MAX_COUNT)
    case Fail => None
    case Got(n, rest) =>
      if n == 0 then None
      else
        match ReadMany(ReadInputScript, n, rest)
        case Fail => None
        case Got(_, outputs) => FindOutput(outputs, v)
  }

  /** `previousOutput`: None where it throws. */
  function Find(raw: seq<Byte>, v: int): Option<Output> {
    match Take(raw, 4)
    case Fail => None
    case Got(head, rest) => if 1 <= FromLE(head[..2]) <= 3 then AfterVersion(rest, v) else None
  }

  // ---------------------------------------------------------------- the decoder

  method TakeCount(reader: ByteReader, maximum: nat) returns (r: Option<nat>)
    requires reader.Valid()
    modifies reader
    ensures reader.Valid() && Follows(r, ReadBounded(old(reader.Rest()), maximum), reader.Rest())
  {
    r := reader.ReadCompact();
    if r.Some? && r.value > maximum {
      r := None;
    }
  }

  method TakeShort(reader: ByteReader) returns (r: Option<seq<Byte>>)
    requires reader.Valid()
    modifies reader
    ensures reader.Valid() && Follows(r, ReadShort(old(reader.Rest())), reader.Rest())
  {
    var n := TakeCount(reader, MAX_SCRIPT);
    if n == None {
      return None;
    }
    r := reader.Read(n.value);
  }

  method TakeInput(reader: ByteReader) returns (r: Option<seq<Byte>>)
    requires reader.Valid()
    modifies reader
    ensures reader.Valid() && Follows(r, ReadInputScript(old(reader.Rest())), reader.Rest())
  {
    var outpoint := reader.Read(36);
    if outpoint == None {
      return None;
    }
    var script := TakeShort(reader);
    if script == None {
      return None;
    }
    var sequence := reader.Read(4);
    r := if sequence == None then None else script;
  }

  /** Where a reader stops, whatever it read. */
  ghost function Left<T>(p: Parsed<T>): Option<seq<Byte>> {
    match p
    case Fail => None
    case Got(_, rest) => Some(rest)
  }

  lemma LeftStep<T>(read: seq<Byte> -> Parsed<T>, n: nat, b: seq<Byte>)
    requires n > 0
    ensures Left(ReadMany(read, n, b)) ==
            match read(b)
            case Fail => None
            case Got(_, r) => Left(ReadMany(read, n - 1, r))
  {
  }

  method TakeInputs(reader: ByteReader, count: nat) returns (ok: bool)
    requires reader.Valid()
    modifies reader
    ensures reader.Valid() && Left(ReadMany(ReadInputScript, count, old(reader.Rest()))) == if ok then Some(reader.Rest()) else None
  {
    for i := 0 to count
      invariant reader.Valid()
      invariant Left(ReadMany(ReadInputScript, count - i, reader.Rest())) == Left(ReadMany(ReadInputScript, count, old(reader.Rest())))
    {
      LeftStep(ReadInputScript, count - i, reader.Rest());
      var script := TakeInput(reader);
      if script == None {
        return false;
      }
    }
    ok := true;
  }

  method TakeOutput(reader: ByteReader) returns (r: Option<Output>)
    requires reader.Valid()
    modifies reader
    ensures reader.Valid() && Follows(r, ReadShortOutput(old(reader.Rest())), reader.Rest())
  {
    var value := reader.ReadSigned64();
    if value == None {
      return None;
    }
    var script := TakeShort(reader);
    r := if script == None then None else Some(Output(value.value, script.value));
  }

  lemma NthNext<T>(read: seq<Byte> -> Parsed<T>, b: seq<Byte>, v: nat, r: Option<T>, rest: seq<Byte>)
    requires Follows(r, read(b), rest)
    ensures Nth(read, b, v) == if r == None || v == 0 then r else Nth(read, rest, v - 1)
  {
  }

  method TakeNthOutput(reader: ByteReader, count: nat, v: nat) returns (r: Option<Output>)
    requires reader.Valid()
    modifies reader
    ensures r == if v < count then Nth(ReadShortOutput, old(reader.Rest()), v) else None
  {
    hide ReadShortOutput, Nth, Follows;
    ghost var answer := Nth(ReadShortOutput, reader.Rest(), v);
    for i := 0 to count
      invariant reader.Valid()
      invariant v < count ==> i <= v && Nth(ReadShortOutput, reader.Rest(), v - i) == answer
    {
      ghost var before := reader.Rest();
      r := TakeOutput(reader);
      if i <= v {
        NthNext(ReadShortOutput, before, v - i, r, reader.Rest());
      }
      if r == None || i == v {
        return;
      }
    }
    r := None;
  }

  method FindPreviousOutput(raw: seq<Byte>, v: int) returns (r: Option<Output>)
    ensures r == Find(raw, v)
  {
    var reader := new ByteReader(raw);
    var head := reader.Read(4);
    if head == None {
      return None;
    }
    var version := FromLE(head.value[..2]);
    if version < 1 || version > 3 {
      return None;
    }
    r := FindAfterVersion(reader, v);
  }

  method FindAfterVersion(reader: ByteReader, v: int) returns (r: Option<Output>)
    requires reader.Valid()
    modifies reader
    ensures r == AfterVersion(old(reader.Rest()), v)
  {
    var inputCount := TakeCount(reader, MAX_COUNT);
    if inputCount == None || inputCount.value == 0 {
      return None;
    }
    var skipped := TakeInputs(reader, inputCount.value);
    if !skipped {
      return None;
    }
    var outputCount := TakeCount(reader, MAX_COUNT);
    if outputCount == None || v < 0 || v >= outputCount.value {
      return None;
    }
    r := TakeNthOutput(reader, outputCount.value, v);
  }

  // ---------------------------------------------------------------- agreement with the full parser

  predicate ShortInput(i: Input) {
    |i.scriptSig| <= 10000
  }

  predicate ShortOutput(o: Output) {
    |o.script| <= 10000
  }

  lemma ReadOfPutBounded(n: nat, rest: seq<Byte>, maximum: nat)
    requires n <= MAX_SAFE
    ensures ReadBounded(PutCount(n, rest), maximum) == if n > maximum then Fail else Got(n, rest)
  {
    ReadOfPutCompactSize(n, rest);
  }

  lemma ReadOfPutShort(x: seq<Byte>, rest: seq<Byte>)
    requires |x| <= MAX_SAFE
    ensures ReadShort(PutVar(x, rest)) == if |x| > MAX_SCRIPT then Fail else Got(x, rest)
  {
    ReadOfPutBounded(|x|, x + rest, MAX_SCRIPT);
    TakeOfConcat(x, rest);
  }

  lemma ScriptOfPutInput(i: Input, rest: seq<Byte>)
    requires FitsInput(i)
    ensures ReadInputScript(PutInput(i, rest)) == if ShortInput(i) then Got(i.scriptSig, rest) else Fail
  {
    var r2 := PutLE(i.sequence, 4, rest);
    var r1 := PutVar(i.scriptSig, r2);
    var outpoint := Reverse(i.txid) + LE(i.vout, 4);
    assert PutInput(i, rest) == outpoint + r1;
    TakeOfConcat(outpoint, r1);
    ReadOfPutShort(i.scriptSig, r2);
    TakeOfConcat(LE(i.sequence, 4), rest);
  }

  lemma AllFitStep<T>(fits: T -> bool, s: seq<T>)
    requires s != []
    ensures AllFit(fits, s) <==> fits(s[0]) && AllFit(fits, s[1..])
  {
    if fits(s[0]) && AllFit(fits, s[1..]) {
      forall i | 0 <= i < |s| ensures fits(s[i]) {
        if i > 0 { assert s[i] == s[1..][i - 1]; }
      }
    }
  }

  /** A reader that refuses some of what `put` writes gets through a list exactly when it refuses no element. */
  lemma {:induction false} LeftOfPutMany<T(!new), U>(read: seq<Byte> -> Parsed<U>, put: (T, seq<Byte>) -> seq<Byte>,
                                                     fits: T -> bool, short: T -> bool, s: seq<T>, rest: seq<Byte>)
    requires forall x, r :: fits(x) ==> Left(read(put(x, r))) == if short(x) then Some(r) else None
    requires AllFit(fits, s)
    ensures Left(ReadMany(read, |s|, PutMany(put, s, rest))) == if AllFit(short, s) then Some(rest) else None
  {
    if s == [] {
    } else {
      AllFitStep(short, s);
      LeftStep(read, |s|, PutMany(put, s, rest));
      LeftOfPutMany(read, put, fits, short, s[1..], rest);
    }
  }

  lemma ScriptsOfPutInputs(s: seq<Input>, rest: seq<Byte>)
    requires AllFit(FitsInput, s)
    ensures Left(ReadMany(ReadInputScript, |s|, PutMany(PutInput, s, rest))) == if AllFit(ShortInput, s) then Some(rest) else None
  {
    forall x, r | FitsInput(x) ensures Left(ReadInputScript(PutInput(x, r))) == if ShortInput(x) then Some(r) else None {
      ScriptOfPutInput(x, r);
    }
    LeftOfPutMany(ReadInputScript, PutInput, FitsInput, ShortInput, s, rest);
  }

  lemma ReadOfPutShortOutput(o: Output, rest: seq<Byte>)
    requires FitsOutput(o)
    ensures ReadShortOutput(PutOutput(o, rest)) == if ShortOutput(o) then Got(o, rest) else Fail
  {
    ReadOfPutI64(o.value, PutVar(o.script, rest));
    ReadOfPutShort(o.script, rest);
  }

  lemma {:induction false} NthOfPutMany<T(!new)>(read: seq<Byte> -> Parsed<T>, put: (T, seq<Byte>) -> seq<Byte>,
                                                 fits: T -> bool, short: T -> bool, s: seq<T>, rest: seq<Byte>, v: nat)
    requires forall x, r :: fits(x) ==> read(put(x, r)) == if short(x) then Got(x, r) else Fail
    requires AllFit(fits, s) && v < |s|
    ensures Nth(read, PutMany(put, s, rest), v) == if AllFit(short, s[..v + 1]) then Some(s[v]) else None
  {
    AllFitStep(short, s[..v + 1]);
    assert read(put(s[0], PutMany(put, s[1..], rest))) == if short(s[0]) then Got(s[0], PutMany(put, s[1..], rest)) else Fail;
    if v == 0 {
    } else {
      NthOfPutMany(read, put, fits, short, s[1..], rest, v - 1);
      assert s[..v + 1][1..] == s[1..][..v];
    }
  }

  lemma NthOfPutOutputs(s: seq<Output>, rest: seq<Byte>, v: nat)
    requires AllFit(FitsOutput, s) && v < |s|
    ensures Nth(ReadShortOutput, PutMany(PutOutput, s, rest), v) == if AllFit(ShortOutput, s[..v + 1]) then Some(s[v]) else None
  {
    forall x, r | FitsOutput(x) ensures ReadShortOutput(PutOutput(x, r)) == if ShortOutput(x) then Got(x, r) else Fail {
      ReadOfPutShortOutput(x, r);
    }
    NthOfPutMany(ReadShortOutput, PutOutput, FitsOutput, ShortOutput, s, rest, v);
  }

  /** What the decoder must find in bytes holding these inputs and outputs. */
  function Expected(inputs: seq<Input>, outputs: seq<Output>, v: int): Option<Output> {
    if 1 <= |inputs| <= 256 && 0 <= v < |outputs| <= 256
       && AllFit(ShortInput, inputs) && AllFit(ShortOutput, outputs[..v + 1])
    then Some(outputs[v]) else None
  }

  lemma FindAfter(inputs: seq<Input>, outputs: seq<Output>, end: seq<Byte>, v: int)
    requires AllFit(FitsInput, inputs) && AllFit(FitsOutput, outputs) && |inputs| <= MAX_SAFE && |outputs| <= MAX_SAFE
    ensures AfterVersion(PutCount(|inputs|, PutMany(PutInput, inputs, PutCount(|outputs|, PutMany(PutOutput, outputs, end)))), v)
            == Expected(inputs, outputs, v)
  {
    var r3 := PutMany(PutOutput, outputs, end);
    var r2 := PutCount(|outputs|, r3);
    ReadOfPutBounded(|inputs|, PutMany(PutInput, inputs, r2), MAX_COUNT);
    ScriptsOfPutInputs(inputs, r2);
    ReadOfPutBounded(|outputs|, r3, MAX_COUNT);
    if 0 <= v < |outputs| {
      NthOfPutOutputs(outputs, end, v);
    }
  }

  /**
   On whatever the full parser accepts, the decoder returns the parser's output v
   exactly when v is an index and the scripts it passes are at most 10,000 bytes.
   */
  lemma AgreesWithParse(raw: seq<Byte>, modes: set<nat>, t: Transaction, v: int)
    requires Parse(raw, modes) == Some(t)
    ensures Find(raw, v) ==
            if 0 <= v < |t.outputs| && AllFit(ShortInput, t.inputs) && AllFit(ShortOutput, t.outputs[..v + 1])
            then Some(t.outputs[v]) else None
  {
    EncodeOfParse(raw, modes, t);
    var body := PutCount(|t.inputs|, PutMany(PutInput, t.inputs, PutCount(|t.outputs|, PutMany(PutOutput, t.outputs, PutEnd(t)))));
    SplitVersion(TX_VERSION, TX_TYPE, body, v);
    FindAfter(t.inputs, t.outputs, PutEnd(t), v);
  }

  lemma SplitVersion(version: nat, kind: nat, body: seq<Byte>, v: int)
    requires version < 0x1_0000
    ensures Find(PutLE(version, 2, PutLE(kind, 2, body)), v) == if 1 <= version <= 3 then AfterVersion(body, v) else None
  {
    var head := LE(version, 2) + LE(kind, 2);
    assert PutLE(version, 2, PutLE(kind, 2, body)) == head + body;
    TakeOfConcat(head, body);
    Limits();
    FromLEOfLE(version, 2);
    assert head[..2] == LE(version, 2);
  }
}
