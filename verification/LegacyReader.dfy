/**
 The older format's parser as it runs: hashes are reversed inside the buffer
 that is still being read, and the result is that of reading the untouched bytes.
 */
module LegacyReader {
  import opened Wrappers
  import opened Bytes
  import opened PqReader
  import opened LegacyTx
  import PqWire
  import SignatureMessage
  import Words

  /** Element i once the outer k pairs of a segment are swapped. */
  ghost function Swapped(was: seq<Byte>, lo: nat, hi: nat, k: nat, i: nat): Byte
    requires lo <= hi <= |was| && 2 * k <= hi - lo && i < |was|
  {
    if lo <= i < lo + k || hi - k <= i < hi then was[lo + hi - 1 - i] else was[i]
  }

  /** Reverses part of an array in place. */
  method ReverseSegment(a: array<Byte>, lo: nat, hi: nat)
    requires lo <= hi <= a.Length
    modifies a
    ensures a[lo..hi] == Reverse(old(a[lo..hi]))
    ensures a[..lo] == old(a[..lo]) && a[hi..] == old(a[hi..])
  {
    ghost var was := a[..];
    for k := 0 to (hi - lo) / 2
      invariant forall i: nat :: i < a.Length ==> a[i] == Swapped(was, lo, hi, k, i)
    {
      a[lo + k], a[hi - 1 - k] := a[hi - 1 - k], a[lo + k];
    }
    AllSwapped(was, a[..], lo, hi);
  }

  /** With half the pairs swapped the segment is reversed. */
  lemma AllSwapped(was: seq<Byte>, now: seq<Byte>, lo: nat, hi: nat)
    requires lo <= hi <= |was| == |now|
    requires forall i: nat :: i < |now| ==> now[i] == Swapped(was, lo, hi, (hi - lo) / 2, i)
    ensures now[lo..hi] == Reverse(was[lo..hi]) && now[..lo] == was[..lo] && now[hi..] == was[hi..]
  {
    var segment := was[lo..hi];
    forall i | 0 <= i < hi - lo ensures now[lo + i] == Reverse(segment)[i] {
      ReverseAt(segment, i);
      assert now[lo + i] == Swapped(was, lo, hi, (hi - lo) / 2, lo + i);
    }
  }

  class Cursor {
    const bytes: array<Byte>
    var offset: nat

    ghost predicate Valid()
      reads this, bytes
    {
      offset <= bytes.Length
    }

    /** The bytes not yet read. */
    ghost function Rest(): seq<Byte>
      reads this, bytes
      requires Valid()
    {
      bytes[offset..]
    }

    constructor (bytes: array<Byte>)
      ensures Valid() && this.bytes == bytes && Rest() == bytes[..]
    {
      this.bytes := bytes;
      offset := 0;
    }

    method Slice(length: nat) returns (r: Option<seq<Byte>>)
      requires Valid()
      modifies this
      ensures Valid() && Follows(r, Take(old(Rest()), length), Rest())
    {
      if offset + length > bytes.Length {
        return None;
      }
      r := Some(bytes[offset..offset + length]);
      assert Rest()[..length] == bytes[offset..offset + length];
      offset := offset + length;
      assert old(Rest())[length..] == Rest();
    }

    /** Takes 32 bytes and reverses them where they lie. */
    method SliceReversed() returns (r: Option<seq<Byte>>)
      requires Valid()
      modifies this, bytes
      ensures Valid() && Follows(r, ReadReversed(old(Rest())), Rest())
    {
      if offset + 32 > bytes.Length {
        return None;
      }
      ReverseSegment(bytes, offset, offset + 32);
      r := Some(bytes[offset..offset + 32]);
      assert old(Rest())[..32] == old(bytes[offset..offset + 32]);
      offset := offset + 32;
      assert old(Rest())[32..] == old(bytes[offset + 32..]) == Rest();
    }

    method Number(width: nat) returns (r: Option<nat>)
      requires Valid()
      modifies this
      ensures Valid() && Follows(r, ReadLE(old(Rest()), width), Rest())
    {
      var s := Slice(width);
      r := if s == None then None else Some(FromLE(s.value));
    }

    method VarInt() returns (r: Option<nat>)
      requires Valid()
      modifies this
      ensures Valid() && Follows(r, ReadVarInt(old(Rest())), Rest())
    {
      r := Number(1);
      if r == None || r.value < 253 {
        return;
      }
      r := Number(if r.value == 253 then 2 else if r.value == 254 then 4 else 8);
    }

    method Script() returns (r: Option<seq<Byte>>)
      requires Valid()
      modifies this
      ensures Valid() && Follows(r, ReadScript(old(Rest())), Rest())
    {
      var n := VarInt();
      if n == None {
        return None;
      }
      r := Slice(n.value);
    }
  }

  method FromInput(c: Cursor) returns (r: Option<PqWire.Input>)
    requires c.Valid()
    modifies c, c.bytes
    ensures c.Valid() && Follows(r, ReadInput(old(c.Rest())), c.Rest())
  {
    hide ReadReversed, ReadLE, ReadScript;
    var txid := c.SliceReversed();
    if txid == None {
      return None;
    }
    var n := c.Number(4);
    if n == None {
      return None;
    }
    var script := c.Script();
    if script == None {
      return None;
    }
    var sequence := c.Number(4);
    r := if sequence == None then None else Some(PqWire.Input(txid.value, n.value, script.value, sequence.value));
  }

  method FromOutput(c: Cursor) returns (r: Option<PqWire.Output>)
    requires c.Valid()
    modifies c
    ensures c.Valid() && Follows(r, ReadOutput(old(c.Rest())), c.Rest())
  {
    hide ReadLE, ReadScript;
    var value := c.Number(8);
    if value == None {
      return None;
    }
    var script := c.Script();
    r := if script == None then None else Some(PqWire.Output(value.value, script.value));
  }

  method FromSpend(c: Cursor) returns (r: Option<Spend>)
    requires c.Valid()
    modifies c, c.bytes
    ensures c.Valid() && Follows(r, ReadSpend(old(c.Rest())), c.Rest())
  {
    hide ReadReversed, Take;
    var cv := c.SliceReversed();
    if cv == None {
      return None;
    }
    var anchor := c.SliceReversed();
    if anchor == None {
      return None;
    }
    var nullifier := c.SliceReversed();
    if nullifier == None {
      return None;
    }
    var rk := c.SliceReversed();
    if rk == None {
      return None;
    }
    var proof := c.Slice(192);
    if proof == None {
      return None;
    }
    var signature := c.Slice(64);
    r := if signature == None then None else Some(Spend(cv.value, anchor.value, nullifier.value, rk.value, proof.value, signature.value));
  }

  method FromNote(c: Cursor) returns (r: Option<Note>)
    requires c.Valid()
    modifies c, c.bytes
    ensures c.Valid() && Follows(r, ReadNote(old(c.Rest())), c.Rest())
  {
    hide ReadReversed, Take;
    var cv := c.SliceReversed();
    if cv == None {
      return None;
    }
    var cmu := c.SliceReversed();
    if cmu == None {
      return None;
    }
    var ephemeralKey := c.SliceReversed();
    if ephemeralKey == None {
      return None;
    }
    var encrypted := c.Slice(580);
    if encrypted == None {
      return None;
    }
    var outgoing := c.Slice(80);
    if outgoing == None {
      return None;
    }
    var proof := c.Slice(192);
    r := if proof == None then None else Some(Note(cv.value, cmu.value, ephemeralKey.value, encrypted.value, outgoing.value, proof.value));
  }

  method FromInputs(c: Cursor) returns (r: Option<seq<PqWire.Input>>)
    requires c.Valid()
    modifies c, c.bytes
    ensures c.Valid() && Follows(r, ReadList(ReadInput, old(c.Rest())), c.Rest())
  {
    hide ReadInput, ReadVarInt;
    var count := c.VarInt();
    if count == None {
      return None;
    }
    ghost var whole := ReadMany(ReadInput, count.value, c.Rest());
    PrependNothing(whole);
    var inputs: seq<PqWire.Input> := [];
    for i := 0 to count.value
      invariant c.Valid() && Prepend(inputs, ReadMany(ReadInput, count.value - i, c.Rest())) == whole
    {
      PrependStep(ReadInput, count.value - i, c.Rest(), inputs);
      var input := FromInput(c);
      if input == None {
        return None;
      }
      inputs := inputs + [input.value];
    }
    assert inputs + [] == inputs;
    r := Some(inputs);
  }

  method FromOutputs(c: Cursor) returns (r: Option<seq<PqWire.Output>>)
    requires c.Valid()
    modifies c
    ensures c.Valid() && Follows(r, ReadList(ReadOutput, old(c.Rest())), c.Rest())
  {
    hide ReadOutput, ReadVarInt;
    var count := c.VarInt();
    if count == None {
      return None;
    }
    ghost var whole := ReadMany(ReadOutput, count.value, c.Rest());
    PrependNothing(whole);
    var outputs: seq<PqWire.Output> := [];
    for i := 0 to count.value
      invariant c.Valid() && Prepend(outputs, ReadMany(ReadOutput, count.value - i, c.Rest())) == whole
    {
      PrependStep(ReadOutput, count.value - i, c.Rest(), outputs);
      var output := FromOutput(c);
      if output == None {
        return None;
      }
      outputs := outputs + [output.value];
    }
    assert outputs + [] == outputs;
    r := Some(outputs);
  }

  method FromSpends(c: Cursor) returns (r: Option<seq<Spend>>)
    requires c.Valid()
    modifies c, c.bytes
    ensures c.Valid() && Follows(r, ReadList(ReadSpend, old(c.Rest())), c.Rest())
  {
    hide ReadSpend, ReadVarInt;
    var count := c.VarInt();
    if count == None {
      return None;
    }
    ghost var whole := ReadMany(ReadSpend, count.value, c.Rest());
    PrependNothing(whole);
    var spends: seq<Spend> := [];
    for i := 0 to count.value
      invariant c.Valid() && Prepend(spends, ReadMany(ReadSpend, count.value - i, c.Rest())) == whole
    {
      PrependStep(ReadSpend, count.value - i, c.Rest(), spends);
      var spend := FromSpend(c);
      if spend == None {
        return None;
      }
      spends := spends + [spend.value];
    }
    assert spends + [] == spends;
    r := Some(spends);
  }

  method FromNotes(c: Cursor) returns (r: Option<seq<Note>>)
    requires c.Valid()
    modifies c, c.bytes
    ensures c.Valid() && Follows(r, ReadList(ReadNote, old(c.Rest())), c.Rest())
  {
    hide ReadNote, ReadVarInt;
    var count := c.VarInt();
    if count == None {
      return None;
    }
    ghost var whole := ReadMany(ReadNote, count.value, c.Rest());
    PrependNothing(whole);
    var notes: seq<Note> := [];
    for i := 0 to count.value
      invariant c.Valid() && Prepend(notes, ReadMany(ReadNote, count.value - i, c.Rest())) == whole
    {
      PrependStep(ReadNote, count.value - i, c.Rest(), notes);
      var note := FromNote(c);
      if note == None {
        return None;
      }
      notes := notes + [note.value];
    }
    assert notes + [] == notes;
    r := Some(notes);
  }

  /** The signature as a slice of all the bytes. */
  lemma SignatureAt(b: seq<Byte>, offset: nat)
    requires offset <= |b|
    ensures b[offset..if offset + 64 < |b| then offset + 64 else |b|] == Signature(b[offset..])
  {
  }

  method TakeSignature(c: Cursor) returns (bindingSig: seq<Byte>)
    requires c.Valid()
    ensures bindingSig == Signature(c.Rest())
  {
    bindingSig := c.bytes[c.offset..if c.offset + 64 < c.bytes.Length then c.offset + 64 else c.bytes.Length];
    SignatureAt(c.bytes[..], c.offset);
    assert c.bytes[..][c.offset..] == c.Rest();
  }

  method FromShielded(c: Cursor, blank: Tx) returns (r: Option<Tx>)
    requires c.Valid()
    modifies c, c.bytes
    ensures r == ReadShielded(old(c.Rest()), blank)
  {
    hide ReadList, Signature;
    var n := c.Number(8);
    if n == None {
      return None;
    }
    var spends := FromSpends(c);
    if spends == None {
      return None;
    }
    var notes := FromNotes(c);
    if notes == None {
      return None;
    }
    var bindingSig := TakeSignature(c);
    r := Some(blank.(valueBalance := if n.value < TWO63 then n.value else n.value - TWO64,
                     spends := spends.value, notes := notes.value, bindingSig := bindingSig));
  }

  method FromEnd(c: Cursor, version: nat, inputs: seq<PqWire.Input>, outputs: seq<PqWire.Output>) returns (r: Option<Tx>)
    requires c.Valid()
    modifies c, c.bytes
    ensures r == ReadEnd(old(c.Rest()), version, inputs, outputs)
  {
    hide ReadShielded;
    var lockTime := c.Number(4);
    if lockTime == None {
      return None;
    }
    var blank := Tx(version, inputs, outputs, lockTime.value, 0, [], [], []);
    if version < SAPLING_VERSION || c.offset == c.bytes.Length {
      return Some(blank);
    }
    var hasShield := c.bytes[c.offset];
    ghost var rest := c.Rest();
    c.offset := c.offset + 1;
    assert rest[0] == hasShield && rest[1..] == c.Rest();
    if hasShield == 0 {
      return Some(blank);
    }
    r := FromShielded(c, blank);
  }

  /** `fromHex`: the buffer is overwritten as it is read, and the transaction is the one in the original bytes. */
  method FromHex(bytes: array<Byte>) returns (r: Option<Tx>)
    modifies bytes
    ensures r == Decode(old(bytes[..]))
  {
    hide ReadList, ReadEnd;
    var c := new Cursor(bytes);
    var version := c.Number(4);
    if version == None {
      return None;
    }
    var inputs := FromInputs(c);
    if inputs == None {
      return None;
    }
    var outputs := FromOutputs(c);
    if outputs == None {
      return None;
    }
    r := FromEnd(c, version.value, inputs.value, outputs.value);
  }

  // ---------------------------------------------------------------- serializing

  /** A field's bytes do not depend on what follows it. */
  ghost predicate Appends<T(!new)>(put: (T, seq<Byte>) -> seq<Byte>) {
    forall x, r :: put(x, r) == put(x, []) + r
  }

  lemma AllAppend()
    ensures Appends(PqWire.PutInput) && Appends(PutOutput) && Appends(PutSpend) && Appends(PutNote)
  {
    forall i: PqWire.Input, r ensures PqWire.PutInput(i, r) == PqWire.PutInput(i, []) + r { SplitInput(i, r); }
    forall o: PqWire.Output, r ensures PutOutput(o, r) == PutOutput(o, []) + r { SplitOutput(o, r); }
    forall x: Spend, r ensures PutSpend(x, r) == PutSpend(x, []) + r { SplitSpend(x, r); }
    forall x: Note, r ensures PutNote(x, r) == PutNote(x, []) + r { SplitNote(x, r); }
  }

  lemma SplitLast(x: seq<Byte>, rest: seq<Byte>)
    ensures x + rest == (x + []) + rest
  {
    assert x + [] == x;
  }

  lemma SplitVar(x: seq<Byte>, rest: seq<Byte>)
    ensures PutVar(x, rest) == PutVar(x, []) + rest
  {
    SplitLast(x, rest);
    SignatureMessage.SplitCount(|x|, x + rest);
    SignatureMessage.SplitCount(|x|, x + []);
    Words.ConcatAssoc(PutCount(|x|, []), x + [], rest);
  }

  lemma SplitInput(i: PqWire.Input, rest: seq<Byte>)
    ensures PqWire.PutInput(i, rest) == PqWire.PutInput(i, []) + rest
  {
    hide PutVar, LE, Reverse;
    var tail := LE(i.sequence, 4);
    SplitLast(tail, rest);
    SplitVar(i.scriptSig, tail + rest);
    SplitVar(i.scriptSig, tail + []);
    Words.ConcatAssoc(PutVar(i.scriptSig, []), tail + [], rest);
    Words.ConcatAssoc(LE(i.vout, 4), PutVar(i.scriptSig, tail + []), rest);
    Words.ConcatAssoc(Reverse(i.txid), PutLE(i.vout, 4, PutVar(i.scriptSig, tail + [])), rest);
  }

  lemma SplitOutput(o: PqWire.Output, rest: seq<Byte>)
    ensures PutOutput(o, rest) == PutOutput(o, []) + rest
  {
    hide PutVar, WireNumber;
    SplitVar(o.script, rest);
    Words.ConcatAssoc(WireNumber(o.value), PutVar(o.script, []), rest);
  }

  /** Six fields in a row. */
  lemma SplitSix(a: seq<Byte>, b: seq<Byte>, c: seq<Byte>, d: seq<Byte>, e: seq<Byte>, f: seq<Byte>, rest: seq<Byte>)
    ensures a + (b + (c + (d + (e + (f + rest))))) == a + (b + (c + (d + (e + (f + []))))) + rest
  {
    SplitLast(f, rest);
    Words.ConcatAssoc(e, f + [], rest);
    Words.ConcatAssoc(d, e + (f + []), rest);
    Words.ConcatAssoc(c, d + (e + (f + [])), rest);
    Words.ConcatAssoc(b, c + (d + (e + (f + []))), rest);
    Words.ConcatAssoc(a, b + (c + (d + (e + (f + [])))), rest);
  }

  lemma SplitSpend(x: Spend, rest: seq<Byte>)
    ensures PutSpend(x, rest) == PutSpend(x, []) + rest
  {
    hide Reverse;
    SplitSix(Reverse(x.cv), Reverse(x.anchor), Reverse(x.nullifier), Reverse(x.rk), x.proof, x.signature, rest);
  }

  lemma SplitNote(x: Note, rest: seq<Byte>)
    ensures PutNote(x, rest) == PutNote(x, []) + rest
  {
    hide Reverse;
    SplitSix(Reverse(x.cv), Reverse(x.cmu), Reverse(x.ephemeralKey), x.encrypted, x.outgoing, x.proof, rest);
  }

  method AppendAll<T(!new)>(start: seq<Byte>, put: (T, seq<Byte>) -> seq<Byte>, items: seq<T>, ghost rest: seq<Byte>)
    returns (buffer: seq<Byte>)
    requires Appends(put)
    ensures buffer + rest == start + PutCount(|items|, PutMany(put, items, rest))
  {
    buffer := start + PutCount(|items|, []);
    SignatureMessage.SplitCount(|items|, PutMany(put, items, rest));
    Words.ConcatAssoc(start, PutCount(|items|, []), PutMany(put, items, rest));
    for i := 0 to |items|
      invariant buffer + PutMany(put, items[i..], rest) == start + PutCount(|items|, PutMany(put, items, rest))
    {
      ghost var after := PutMany(put, items[i + 1..], rest);
      assert items[i..][1..] == items[i + 1..];
      Words.ConcatAssoc(buffer, put(items[i], []), after);
      buffer := buffer + put(items[i], []);
    }
  }

  /** `serialize`. */
  method Serialize(t: Tx) returns (buffer: seq<Byte>)
    ensures buffer == Encode(t)
  {
    hide PutCount, PutEnd, LE, Appends;
    AllAppend();
    buffer := LE(t.version, 4);
    buffer := AppendAll(buffer, PqWire.PutInput, t.inputs, PutCount(|t.outputs|, PutMany(PutOutput, t.outputs, PutEnd(t))));
    ghost var before := buffer;
    buffer := AppendAll(buffer, PutOutput, t.outputs, PutEnd(t));
    buffer := SerializeEnd(buffer, t);
  }

  method SerializeEnd(start: seq<Byte>, t: Tx) returns (buffer: seq<Byte>)
    ensures buffer == start + PutEnd(t)
  {
    hide PutCount, LE, Appends;
    AllAppend();
    buffer := start + LE(t.lockTime, 4);
    if t.version < SAPLING_VERSION {
      assert LE(t.lockTime, 4) + [] == LE(t.lockTime, 4);
      return;
    }
    var flag := LE(if t.bindingSig != [] then 1 else 0, 1);
    ghost var notes := PutCount(|t.notes|, PutMany(PutNote, t.notes, t.bindingSig));
    ghost var spends := PutCount(|t.spends|, PutMany(PutSpend, t.spends, notes));
    Words.ConcatAssoc(start, LE(t.lockTime, 4), flag + (LE(t.valueBalance % TWO64, 8) + spends));
    Words.ConcatAssoc(buffer, flag, LE(t.valueBalance % TWO64, 8) + spends);
    Words.ConcatAssoc(buffer + flag, LE(t.valueBalance % TWO64, 8), spends);
    buffer := buffer + flag + LE(t.valueBalance % TWO64, 8);
    buffer := AppendAll(buffer, PutSpend, t.spends, notes);
    buffer := AppendAll(buffer, PutNote, t.notes, t.bindingSig);
    buffer := buffer + t.bindingSig;
  }
}
