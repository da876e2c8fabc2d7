/**
 The message each input of a post-quantum transaction signs. Equal messages
 come from equal transactions, so a signature cannot be carried over.
 */
module SignatureMessage {
  import opened Wrappers
  import opened Bytes
  import opened PqWire
  import Words

  /** An input before it is signed; `txid` is in display order. */
  datatype Outpoint = Outpoint(txid: seq<Byte>, vout: int, sequence: int)

  /** Everything a signature commits to. Input i spends prevouts[i] with publicKeys[i]. */
  datatype Request = Request(
    genesis: seq<Byte>,
    mode: int,
    inputs: seq<Outpoint>,
    prevouts: seq<Output>,
    outputs: seq<Output>,
    locktime: int,
    publicKeys: seq<seq<Byte>>,
    data: seq<Byte>,
    index: int)

  predicate IsU32(n: int) {
    0 <= n < 0x1_0000_0000
  }

  predicate FitsOutpoint(o: Outpoint) {
    |o.txid| == 32 && IsU32(o.vout) && IsU32(o.sequence)
  }

  /** `serializeTxOut` writes the output. */
  predicate Payable(o: Output) {
    0 <= o.value < TWO63 && |o.script| <= MAX_SAFE
  }

  predicate FitsKey(k: seq<Byte>) {
    |k| == PUBLIC_KEY_SIZE
  }

  /** The requests `signatureMessage` does not refuse. */
  predicate Signable(q: Request) {
    && 1 <= |q.inputs| <= MAX_INPUTS
    && |q.prevouts| == |q.inputs| == |q.publicKeys|
    && 0 <= q.index < |q.inputs|
    && 0 <= q.mode < 256
    && ModeHasData(q.mode) == (|q.data| > 0) && |q.data| <= MAX_SAFE
    && |q.genesis| == 32
    && AllFit(FitsOutpoint, q.inputs)
    && AllFit(Payable, q.prevouts)
    && |q.outputs| <= MAX_SAFE && AllFit(Payable, q.outputs)
    && IsU32(q.locktime)
    && AllFit(FitsKey, q.publicKeys)
  }

  // ---------------------------------------------------------------- the layout

  function PutSpend(o: Outpoint, prevout: Output, rest: seq<Byte>): seq<Byte>
    requires FitsOutpoint(o)
  {
    Reverse(o.txid) + PutLE(o.vout, 4, PutLE(o.sequence, 4, PutOutput(prevout, rest)))
  }

  function PutSpends(inputs: seq<Outpoint>, prevouts: seq<Output>, rest: seq<Byte>): seq<Byte>
    requires |inputs| == |prevouts| && AllFit(FitsOutpoint, inputs)
  {
    if inputs == [] then rest
    else
      assert AllFit(FitsOutpoint, inputs[1..]);
      PutSpend(inputs[0], prevouts[0], PutSpends(inputs[1..], prevouts[1..], rest))
  }

  function PutKey(k: seq<Byte>, rest: seq<Byte>): seq<Byte> {
    k + rest
  }

  function PutDataAndIndex(mode: nat, data: seq<Byte>, index: nat): seq<Byte> {
    if ModeHasData(mode) then PutVar(data, PutLE(index, 4, [])) else PutLE(index, 4, [])
  }

  function PutKeys(q: Request): seq<Byte>
    requires Signable(q)
  {
    PutLE(q.locktime, 4, PutLE(|q.publicKeys|, 1,
      PutMany(PutKey, q.publicKeys, PutDataAndIndex(q.mode, q.data, q.index))))
  }

  function PutTargets(q: Request): seq<Byte>
    requires Signable(q)
  {
    PutCount(|q.outputs|, PutMany(PutOutput, q.outputs, PutKeys(q)))
  }

  function Message(q: Request): seq<Byte>
    requires Signable(q)
  {
    Reverse(q.genesis) + PutLE(TX_VERSION, 2, PutLE(TX_TYPE, 2, PutLE(1, 1, PutLE(q.mode, 1,
      PutCount(|q.inputs|, PutSpends(q.inputs, q.prevouts, PutTargets(q)))))))
  }

  // ---------------------------------------------------------------- reading it back

  /** An input and the output it spends: the id reversed, the position, the sequence, then the output. */
  function ReadSpend(b: seq<Byte>): Parsed<(Outpoint, Output)> {
    match Take(b, 32)
    case Fail => Fail
    case Got(wire, r0) =>
      match ReadLE(r0, 4)
      case Fail => Fail
      case Got(vout, r1) =>
        match ReadLE(r1, 4)
        case Fail => Fail
        case Got(sequence, r2) =>
          match ReadOutput(r2)
          case Fail => Fail
          case Got(prevout, rest) => Got((Outpoint(Reverse(wire), vout, sequence), prevout), rest)
  }

  function ReadKey(b: seq<Byte>): Parsed<seq<Byte>> {
    Take(b, 1312)
  }

  function First(pairs: seq<(Outpoint, Output)>): (r: seq<Outpoint>)
    ensures |r| == |pairs|
  {
    if pairs == [] then [] else [pairs[0].0] + First(pairs[1..])
  }

  function Second(pairs: seq<(Outpoint, Output)>): (r: seq<Output>)
    ensures |r| == |pairs|
  {
    if pairs == [] then [] else [pairs[0].1] + Second(pairs[1..])
  }

  /** After the keys: the data of a mode that has any, and the index, which ends the message. */
  function ReadEnd(q: Request, b: seq<Byte>): Option<Request> {
    match (if 3 <= q.mode <= 8 then ReadVar(b) else Got([], b))
    case Fail => None
    case Got(data, r0) =>
      match ReadLE(r0, 4)
      case Fail => None
      case Got(index, rest) => if rest == [] then Some(q.(data := data, index := index)) else None
  }

  function ReadKeys(q: Request, b: seq<Byte>): Option<Request> {
    match ReadLE(b, 4)
    case Fail => None
    case Got(locktime, r0) =>
      match ReadLE(r0, 1)
      case Fail => None
      case Got(count, r1) =>
        match ReadMany(ReadKey, count, r1)
        case Fail => None
        case Got(keys, rest) => ReadEnd(q.(locktime := locktime, publicKeys := keys), rest)
  }

  function ReadTargets(q: Request, b: seq<Byte>): Option<Request> {
    match ReadCount(b)
    case Fail => None
    case Got(count, r0) =>
      match ReadMany(ReadOutput, count, r0)
      case Fail => None
      case Got(outputs, rest) => ReadKeys(q.(outputs := outputs), rest)
  }

  function ReadSpends(q: Request, b: seq<Byte>): Option<Request> {
    match ReadCount(b)
    case Fail => None
    case Got(count, r0) =>
      match ReadMany(ReadSpend, count, r0)
      case Fail => None
      case Got(pairs, rest) => ReadTargets(q.(inputs := First(pairs), prevouts := Second(pairs)), rest)
  }

  /** The reversed genesis hash, version 3, type 8, payload version 1 and the mode come first. */
  function ReadMessage(b: seq<Byte>): Option<Request> {
    if |b| < 38 || b[32..37] != [3, 0, 8, 0, 1] then None
    else ReadSpends(Request(Reverse(b[..32]), b[37], [], [], [], 0, [], [], 0), b[38..])
  }

  lemma ReadOfPutSpend(o: Outpoint, prevout: Output, rest: seq<Byte>)
    requires FitsOutpoint(o) && Payable(prevout)
    ensures ReadSpend(PutSpend(o, prevout, rest)) == Got((o, prevout), rest)
  {
    Limits();
    var r1 := PutLE(o.sequence, 4, PutOutput(prevout, rest));
    TakeOfConcat(Reverse(o.txid), PutLE(o.vout, 4, r1));
    ReverseTwice(o.txid);
    ReadOfPutLE(o.vout, 4, r1);
    ReadOfPutLE(o.sequence, 4, PutOutput(prevout, rest));
    ReadOfPutOutput(prevout, rest);
  }

  lemma {:induction false} ReadOfPutSpends(inputs: seq<Outpoint>, prevouts: seq<Output>, rest: seq<Byte>)
    returns (pairs: seq<(Outpoint, Output)>)
    requires |inputs| == |prevouts| && AllFit(FitsOutpoint, inputs) && AllFit(Payable, prevouts)
    ensures First(pairs) == inputs && Second(pairs) == prevouts
    ensures ReadMany(ReadSpend, |inputs|, PutSpends(inputs, prevouts, rest)) == Got(pairs, rest)
  {
    hide ReadSpend, PutSpend, FitsOutpoint, Payable;
    if inputs == [] {
      pairs := [];
    } else {
      var others := ReadOfPutSpends(inputs[1..], prevouts[1..], rest);
      ReadOfPutSpend(inputs[0], prevouts[0], PutSpends(inputs[1..], prevouts[1..], rest));
      pairs := [(inputs[0], prevouts[0])] + others;
      assert pairs[1..] == others;
    }
  }

  lemma {:induction false} ReadOfPutKeys(keys: seq<seq<Byte>>, rest: seq<Byte>)
    requires AllFit(FitsKey, keys)
    ensures ReadMany(ReadKey, |keys|, PutMany(PutKey, keys, rest)) == Got(keys, rest)
  {
    if keys == [] {
    } else {
      ReadOfPutKeys(keys[1..], rest);
      TakeOfConcat(keys[0], PutMany(PutKey, keys[1..], rest));
      assert [keys[0]] + keys[1..] == keys;
    }
  }

  lemma ReadOfPutEnd(q: Request, p: Request)
    requires Signable(q) && p == q.(data := p.data, index := p.index)
    ensures ReadEnd(p, PutDataAndIndex(q.mode, q.data, q.index)) == Some(q)
  {
    Limits();
    if ModeHasData(q.mode) {
      ReadOfPutVar(q.data, PutLE(q.index, 4, []));
    }
    ReadOfPutLE(q.index, 4, []);
  }

  lemma ReadOfKeyPart(q: Request, p: Request)
    requires Signable(q) && p == q.(locktime := p.locktime, publicKeys := p.publicKeys, data := p.data, index := p.index)
    ensures ReadKeys(p, PutKeys(q)) == Some(q)
  {
    Limits();
    var end := PutDataAndIndex(q.mode, q.data, q.index);
    ReadOfPutLE(q.locktime, 4, PutLE(|q.publicKeys|, 1, PutMany(PutKey, q.publicKeys, end)));
    ReadOfPutLE(|q.publicKeys|, 1, PutMany(PutKey, q.publicKeys, end));
    ReadOfPutKeys(q.publicKeys, end);
    hide ReadMany, PutMany, ReadLE, PutLE, ReadEnd, PutDataAndIndex;
    ReadOfPutEnd(q, p.(locktime := q.locktime, publicKeys := q.publicKeys));
  }

  lemma ReadOfTargets(q: Request, p: Request)
    requires Signable(q)
    requires p == q.(outputs := p.outputs, locktime := p.locktime, publicKeys := p.publicKeys, data := p.data, index := p.index)
    ensures ReadTargets(p, PutTargets(q)) == Some(q)
  {
    ReadOfPutCount(|q.outputs|, PutMany(PutOutput, q.outputs, PutKeys(q)));
    ReadOfPutOutputs(q.outputs, PutKeys(q));
    hide ReadMany, PutMany, ReadCount, PutCount, ReadKeys, PutKeys;
    ReadOfKeyPart(q, p.(outputs := q.outputs));
  }

  /** The five fixed bytes and the mode, after the genesis hash. */
  lemma FrontBytes(genesis: seq<Byte>, mode: Byte, rest: seq<Byte>)
    requires |genesis| == 32
    ensures var b := Reverse(genesis) + PutLE(TX_VERSION, 2, PutLE(TX_TYPE, 2, PutLE(1, 1, PutLE(mode, 1, rest))));
            |b| == 38 + |rest| && b[..32] == Reverse(genesis) && b[32..37] == [3, 0, 8, 0, 1] && b[37] == mode && b[38..] == rest
  {
    var fixed := [3, 0, 8, 0, 1, mode];
    assert LE(TX_VERSION, 2) == [3, 0] && LE(TX_TYPE, 2) == [8, 0] && LE(1, 1) == [1] && LE(mode, 1) == [mode];
    assert PutLE(TX_VERSION, 2, PutLE(TX_TYPE, 2, PutLE(1, 1, PutLE(mode, 1, rest)))) == fixed + rest;
  }

  /**
   A message reads back, field by field, as the request it was built from: what an
   input signs fixes every field of the transaction and of the outputs it
   spends, and the input's own index.
   */
  lemma MessageReads(q: Request)
    requires Signable(q)
    ensures ReadMessage(Message(q)) == Some(q)
  {
    hide Take, ReadLE, PutLE, LE, ReadMany, PutMany, PutSpends, PutTargets, ReadTargets, PutCount, ReadCount, Reverse;
    var spends := PutSpends(q.inputs, q.prevouts, PutTargets(q));
    FrontBytes(q.genesis, q.mode, PutCount(|q.inputs|, spends));
    ReverseTwice(q.genesis);
    ReadOfPutCount(|q.inputs|, spends);
    var pairs := ReadOfPutSpends(q.inputs, q.prevouts, PutTargets(q));
    ReadOfTargets(q, Request(q.genesis, q.mode, q.inputs, q.prevouts, [], 0, [], [], 0));
  }

  /** Two requests with the same message agree in every field. */
  lemma MessageInjective(q: Request, p: Request)
    requires Signable(q) && Signable(p) && Message(q) == Message(p)
    ensures q == p
  {
    MessageReads(q);
    MessageReads(p);
    hide Message, ReadMessage, Signable;
  }

  lemma SameHead(a: seq<Byte>, b: seq<Byte>, r: seq<Byte>, s: seq<Byte>)
    requires |a| == |b| && a + r == b + s
    ensures a == b && r == s
  {
    TakeOfConcat(a, r);
    TakeOfConcat(b, s);
  }

  lemma SameHash(a: seq<Byte>, b: seq<Byte>, r: seq<Byte>, s: seq<Byte>)
    requires |a| == |b| && Reverse(a) + r == Reverse(b) + s
    ensures a == b && r == s
  {
    SameHead(Reverse(a), Reverse(b), r, s);
    ReverseTwice(a);
    ReverseTwice(b);
  }

  // ---------------------------------------------------------------- building the message

  lemma SplitCount(n: nat, rest: seq<Byte>)
    ensures PutCount(n, rest) == PutCount(n, []) + rest
  {
    if n >= 0xfd {
      var k := if n <= 0xffff then 2 else if n <= 0xffff_ffff then 4 else 8;
      var first := if n <= 0xffff then 0xfd else if n <= 0xffff_ffff then 0xfe else 0xff;
      assert LE(n, k) + [] == LE(n, k);
      Words.ConcatAssoc(LE(first, 1), LE(n, k), rest);
    } else {
      assert LE(n, 1) + [] == LE(n, 1);
    }
  }

  lemma SplitVar(x: seq<Byte>, rest: seq<Byte>)
    ensures PutVar(x, rest) == PutCount(|x|, []) + x + rest
  {
    SplitCount(|x|, x + rest);
    Words.ConcatAssoc(PutCount(|x|, []), x, rest);
  }

  /** `serializeTxOut`: None where it throws. */
  function TxOut(o: Output): (r: Option<seq<Byte>>)
    ensures r.Some? <==> Payable(o)
  {
    if Payable(o) then Some(LE(o.value, 8) + (PutCount(|o.script|, []) + o.script)) else None
  }

  lemma SplitOutput(o: Output, rest: seq<Byte>)
    requires Payable(o)
    ensures PutOutput(o, rest) == TxOut(o).value + rest
  {
    SplitVar(o.script, rest);
    Words.ConcatAssoc(LE(o.value, 8), PutCount(|o.script|, []) + o.script, rest);
  }

  /** `parts` followed by a field and the rest, as `parts` with the field appended. */
  lemma Advance(parts: seq<Byte>, field: seq<Byte>, rest: seq<Byte>)
    ensures parts + (field + rest) == (parts + field) + rest
  {
    Words.ConcatAssoc(parts, field, rest);
  }

  method AppendSpend(parts: seq<Byte>, o: Outpoint, prevout: Output, ghost rest: seq<Byte>) returns (r: Option<seq<Byte>>)
    ensures r.Some? <==> FitsOutpoint(o) && Payable(prevout)
    ensures r.Some? ==> r.value + rest == parts + PutSpend(o, prevout, rest)
  {
    var txOut := TxOut(prevout);
    if |o.txid| != 32 || !IsU32(o.vout) || !IsU32(o.sequence) || txOut == None {
      return None;
    }
    var p1 := parts + Reverse(o.txid);
    var p2 := p1 + LE(o.vout, 4);
    var p3 := p2 + LE(o.sequence, 4);
    r := Some(p3 + txOut.value);
    ghost var r2 := PutOutput(prevout, rest);
    ghost var r1 := PutLE(o.sequence, 4, r2);
    Advance(parts, Reverse(o.txid), PutLE(o.vout, 4, r1));
    Advance(p1, LE(o.vout, 4), r1);
    Advance(p2, LE(o.sequence, 4), r2);
    SplitOutput(prevout, rest);
    Advance(p3, txOut.value, rest);
  }

  method AppendSpends(start: seq<Byte>, inputs: seq<Outpoint>, prevouts: seq<Output>, ghost rest: seq<Byte>)
    returns (r: Option<seq<Byte>>)
    requires |inputs| == |prevouts|
    ensures r.Some? <==> AllFit(FitsOutpoint, inputs) && AllFit(Payable, prevouts)
    ensures r.Some? ==> r.value + rest == start + PutSpends(inputs, prevouts, rest)
  {
    hide PutSpend, FitsOutpoint, Payable;
    var parts := start;
    for i := 0 to |inputs|
      invariant AllFit(FitsOutpoint, inputs[..i]) && AllFit(Payable, prevouts[..i])
      invariant AllFit(FitsOutpoint, inputs) ==>
          parts + PutSpends(inputs[i..], prevouts[i..], rest) == start + PutSpends(inputs, prevouts, rest)
    {
      ghost var after := if AllFit(FitsOutpoint, inputs) then PutSpends(inputs[i + 1..], prevouts[i + 1..], rest) else [];
      assert inputs[i..][1..] == inputs[i + 1..] && prevouts[i..][1..] == prevouts[i + 1..];
      var next := AppendSpend(parts, inputs[i], prevouts[i], after);
      if next == None {
        return None;
      }
      parts := next.value;
      assert inputs[..i + 1] == inputs[..i] + [inputs[i]] && prevouts[..i + 1] == prevouts[..i] + [prevouts[i]];
    }
    assert inputs[..|inputs|] == inputs && prevouts[..|inputs|] == prevouts;
    r := Some(parts);
  }

  method AppendOutputs(start: seq<Byte>, outputs: seq<Output>, ghost rest: seq<Byte>) returns (r: Option<seq<Byte>>)
    ensures r.Some? <==> AllFit(Payable, outputs)
    ensures r.Some? ==> r.value + rest == start + PutMany(PutOutput, outputs, rest)
  {
    hide PutOutput, Payable;
    var parts := start;
    for i := 0 to |outputs|
      invariant AllFit(Payable, outputs[..i])
      invariant parts + PutMany(PutOutput, outputs[i..], rest) == start + PutMany(PutOutput, outputs, rest)
    {
      ghost var after := PutMany(PutOutput, outputs[i + 1..], rest);
      assert outputs[i..][1..] == outputs[i + 1..];
      var txOut := TxOut(outputs[i]);
      if txOut == None {
        return None;
      }
      SplitOutput(outputs[i], after);
      Advance(parts, txOut.value, after);
      parts := parts + txOut.value;
      assert outputs[..i + 1] == outputs[..i] + [outputs[i]];
    }
    assert outputs[..|outputs|] == outputs;
    r := Some(parts);
  }

  method AppendKeys(start: seq<Byte>, keys: seq<seq<Byte>>, ghost rest: seq<Byte>) returns (r: Option<seq<Byte>>)
    ensures r.Some? <==> AllFit(FitsKey, keys)
    ensures r.Some? ==> r.value + rest == start + PutMany(PutKey, keys, rest)
  {
    var parts := start;
    for i := 0 to |keys|
      invariant AllFit(FitsKey, keys[..i])
      invariant parts + PutMany(PutKey, keys[i..], rest) == start + PutMany(PutKey, keys, rest)
    {
      ghost var after := PutMany(PutKey, keys[i + 1..], rest);
      assert keys[i..][1..] == keys[i + 1..];
      if |keys[i]| != PUBLIC_KEY_SIZE {
        return None;
      }
      Advance(parts, keys[i], after);
      parts := parts + keys[i];
      assert keys[..i + 1] == keys[..i] + [keys[i]];
    }
    assert keys[..|keys|] == keys;
    r := Some(parts);
  }

  /** The fields before the input count, and the count. */
  method BuildFront(q: Request, ghost rest: seq<Byte>) returns (parts: seq<Byte>)
    requires 0 <= q.mode < 256
    ensures parts + rest == Reverse(q.genesis) + PutLE(TX_VERSION, 2, PutLE(TX_TYPE, 2, PutLE(1, 1, PutLE(q.mode, 1, PutCount(|q.inputs|, rest)))))
  {
    var p0 := Reverse(q.genesis);
    var p1 := p0 + LE(TX_VERSION, 2);
    var p2 := p1 + LE(TX_TYPE, 2);
    var p3 := p2 + LE(1, 1);
    var p4 := p3 + LE(q.mode, 1);
    parts := p4 + PutCount(|q.inputs|, []);
    ghost var r4 := PutCount(|q.inputs|, rest);
    ghost var r3 := PutLE(q.mode, 1, r4);
    ghost var r2 := PutLE(1, 1, r3);
    Advance(p0, LE(TX_VERSION, 2), PutLE(TX_TYPE, 2, r2));
    Advance(p1, LE(TX_TYPE, 2), r2);
    Advance(p2, LE(1, 1), r3);
    Advance(p3, LE(q.mode, 1), r4);
    SplitCount(|q.inputs|, rest);
    Advance(p4, PutCount(|q.inputs|, []), rest);
  }

  method BuildEnd(start: seq<Byte>, q: Request) returns (parts: seq<Byte>)
    requires 0 <= q.mode < 256 && IsU32(q.index)
    ensures parts == start + PutDataAndIndex(q.mode, q.data, q.index)
  {
    parts := start;
    assert LE(q.index, 4) + [] == LE(q.index, 4);
    if ModeHasData(q.mode) {
      parts := parts + (PutCount(|q.data|, []) + q.data);
      SplitVar(q.data, LE(q.index, 4));
      Advance(start, PutCount(|q.data|, []) + q.data, LE(q.index, 4));
    }
    parts := parts + LE(q.index, 4);
  }

  /** `signatureMessage`: the message of a signable request, nothing for any other. */
  method BuildMessage(q: Request) returns (r: Option<seq<Byte>>)
    requires |q.data| <= MAX_SAFE && |q.outputs| <= MAX_SAFE
    ensures r == if Signable(q) then Some(Message(q)) else None
  {
    if |q.inputs| < 1 || |q.inputs| > MAX_INPUTS || |q.prevouts| != |q.inputs| || |q.publicKeys| != |q.inputs|
       || q.index < 0 || q.index >= |q.inputs| || q.mode < 0 || q.mode > 255
       || ModeHasData(q.mode) != (|q.data| > 0) || |q.genesis| != 32 {
      return None;
    }
    ghost var s := Suffixes(q);
    var front := BuildFront(q, s.spends);
    var inputs := AppendSpends(front, q.inputs, q.prevouts, s.targets);
    if inputs == None {
      return None;
    }
    SplitCount(|q.outputs|, s.outputs);
    Advance(inputs.value, PutCount(|q.outputs|, []), s.outputs);
    var outputs := AppendOutputs(inputs.value + PutCount(|q.outputs|, []), q.outputs, s.keys);
    if outputs == None || !IsU32(q.locktime) {
      return None;
    }
    var p1 := outputs.value + LE(q.locktime, 4);
    var p2 := p1 + LE(|q.publicKeys|, 1);
    ghost var end := PutDataAndIndex(q.mode, q.data, q.index);
    var keys := AppendKeys(p2, q.publicKeys, end);
    if keys == None {
      return None;
    }
    Advance(outputs.value, LE(q.locktime, 4), PutLE(|q.publicKeys|, 1, PutMany(PutKey, q.publicKeys, end)));
    Advance(p1, LE(|q.publicKeys|, 1), PutMany(PutKey, q.publicKeys, end));
    var whole := BuildEnd(keys.value, q);
    r := Some(whole);
  }

  /** What is still to be written at each point of a signable request. */
  datatype Ends = Ends(spends: seq<Byte>, targets: seq<Byte>, outputs: seq<Byte>, keys: seq<Byte>)

  ghost function Suffixes(q: Request): Ends {
    if Signable(q) then
      Ends(PutSpends(q.inputs, q.prevouts, PutTargets(q)), PutTargets(q), PutMany(PutOutput, q.outputs, PutKeys(q)), PutKeys(q))
    else Ends([], [], [], [])
  }
}
