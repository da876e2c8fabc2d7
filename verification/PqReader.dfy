/**
 The cursor-based parser: a reader object whose offset moves forward, and the
 parsing loops over it, proved to compute what the format's reading functions say.
 */
module PqReader {
  import opened Wrappers
  import opened Bytes
  import opened PqWire

  /** A reading method's outcome against the reading function's. */
  ghost predicate Follows<T>(r: Option<T>, p: Parsed<T>, rest: seq<Byte>) {
    match p
    case Fail => r == None
    case Got(value, remaining) => r == Some(value) && rest == remaining
  }

  class ByteReader {
    const bytes: seq<Byte>
    var offset: nat

    ghost predicate Valid()
      reads this
    {
      offset <= |bytes|
    }

    ghost function Rest(): seq<Byte>
      reads this
      requires Valid()
    {
      bytes[offset..]
    }

    constructor (bytes: seq<Byte>)
      ensures Valid() && Rest() == bytes && this.bytes == bytes
    {
      this.bytes := bytes;
      offset := 0;
    }

    method Read(length: nat) returns (r: Option<seq<Byte>>)
      requires Valid()
      modifies this
      ensures Valid() && Follows(r, Take(old(Rest()), length), Rest())
      ensures r == None ==> offset == old(offset)
    {
      if offset + length > |bytes| {
        return None;
      }
      r := Some(bytes[offset..offset + length]);
      assert Rest()[..length] == bytes[offset..offset + length];
      offset := offset + length;
      assert old(Rest())[length..] == Rest();
    }

    method ReadUnsigned(width: nat) returns (r: Option<nat>)
      requires Valid()
      modifies this
      ensures Valid() && Follows(r, ReadLE(old(Rest()), width), Rest())
    {
      var s := Read(width);
      match s
      case None => r := None;
      case Some(raw) => r := Some(FromLE(raw));
    }

    method ReadSigned64() returns (r: Option<int>)
      requires Valid()
      modifies this
      ensures Valid() && Follows(r, ReadI64(old(Rest())), Rest())
    {
      var n := ReadUnsigned(8);
      match n
      case None => r := None;
      case Some(v) => r := Some(if v < TWO63 then v else v - TWO64);
    }

    method ReadCompact() returns (r: Option<nat>)
      requires Valid()
      modifies this
      ensures Valid() && Follows(r, ReadCompactSize(old(Rest())), Rest())
    {
      var first := ReadUnsigned(1);
      if first == None {
        return None;
      }
      if first.value < 0xfd {
        return first;
      }
      if first.value == 0xfd {
        r := ReadUnsigned(2);
        if r.Some? && r.value < 0xfd {
          r := None;
        }
      } else if first.value == 0xfe {
        r := ReadUnsigned(4);
        if r.Some? && r.value <= 0xffff {
          r := None;
        }
      } else {
        r := ReadUnsigned(8);
        if r.Some? && r.value <= 0xffff_ffff {
          r := None;
        }
      }
    }

    method ReadSafeCount() returns (r: Option<nat>)
      requires Valid()
      modifies this
      ensures Valid() && Follows(r, ReadCount(old(Rest())), Rest())
    {
      r := ReadCompact();
      if r.Some? && r.value > MAX_SAFE {
        r := None;
      }
    }

    method ReadPrefixed() returns (r: Option<seq<Byte>>)
      requires Valid()
      modifies this
      ensures Valid() && Follows(r, ReadVar(old(Rest())), Rest())
    {
      var n := ReadSafeCount();
      if n == None {
        return None;
      }
      r := Read(n.value);
    }
  }

  /** Items already read, put in front of what is still to be read. */
  ghost function Prepend<T>(done: seq<T>, p: Parsed<seq<T>>): Parsed<seq<T>> {
    match p
    case Fail => Fail
    case Got(more, rest) => Got(done + more, rest)
  }

  lemma PrependStep<T>(read: seq<Byte> -> Parsed<T>, n: nat, b: seq<Byte>, done: seq<T>)
    requires n > 0
    ensures Prepend(done, ReadMany(read, n, b)) ==
            match read(b)
            case Fail => Fail
            case Got(x, r) => Prepend(done + [x], ReadMany(read, n - 1, r))
  {
    if read(b).Got? && ReadMany(read, n - 1, read(b).rest).Got? {
      var x, more := read(b).value, ReadMany(read, n - 1, read(b).rest).value;
      assert done + ([x] + more) == done + [x] + more;
    }
  }

  lemma PrependNothing<T>(p: Parsed<seq<T>>)
    ensures Prepend([], p) == p
  {
    if p.Got? {
      assert [] + p.value == p.value;
    }
  }

  method ParseInput(reader: ByteReader) returns (r: Option<Input>)
    requires reader.Valid()
    modifies reader
    ensures reader.Valid() && Follows(r, ReadInput(old(reader.Rest())), reader.Rest())
  {
    var wire := reader.Read(32);
    if wire == None {
      return None;
    }
    var vout := reader.ReadUnsigned(4);
    if vout == None {
      return None;
    }
    var scriptSig := reader.ReadPrefixed();
    if scriptSig == None {
      return None;
    }
    var sequence := reader.ReadUnsigned(4);
    if sequence == None {
      return None;
    }
    r := Some(Input(Reverse(wire.value), vout.value, scriptSig.value, sequence.value));
  }

  method ParseInputs(reader: ByteReader, count: nat) returns (r: Option<seq<Input>>)
    requires reader.Valid()
    modifies reader
    ensures reader.Valid() && Follows(r, ReadMany(ReadInput, count, old(reader.Rest())), reader.Rest())
  {
    var inputs: seq<Input> := [];
    PrependNothing(ReadMany(ReadInput, count, reader.Rest()));
    for i := 0 to count
      invariant reader.Valid()
      invariant Prepend(inputs, ReadMany(ReadInput, count - i, reader.Rest())) == ReadMany(ReadInput, count, old(reader.Rest()))
    {
      PrependStep(ReadInput, count - i, reader.Rest(), inputs);
      var input := ParseInput(reader);
      if input == None {
        return None;
      }
      inputs := inputs + [input.value];
    }
    assert inputs + [] == inputs;
    r := Some(inputs);
  }

  method ParseOutputList(reader: ByteReader, count: nat) returns (r: Option<seq<Output>>)
    requires reader.Valid()
    modifies reader
    ensures reader.Valid() && Follows(r, ReadMany(ReadOutput, count, old(reader.Rest())), reader.Rest())
  {
    var outputs: seq<Output> := [];
    PrependNothing(ReadMany(ReadOutput, count, reader.Rest()));
    for i := 0 to count
      invariant reader.Valid()
      invariant Prepend(outputs, ReadMany(ReadOutput, count - i, reader.Rest())) == ReadMany(ReadOutput, count, old(reader.Rest()))
    {
      PrependStep(ReadOutput, count - i, reader.Rest(), outputs);
      var value := reader.ReadSigned64();
      if value == None {
        return None;
      }
      var script := reader.ReadPrefixed();
      if script == None {
        return None;
      }
      outputs := outputs + [Output(value.value, script.value)];
    }
    assert outputs + [] == outputs;
    r := Some(outputs);
  }

  // ---------------------------------------------------------------- the payload

  lemma HeadByte(b: seq<Byte>)
    ensures ReadLE(b, 1) == if b == [] then Fail else Got(b[0], b[1..])
  {
    if b != [] {
      assert b[..1][1..] == [];
      assert FromLE(b[..1]) == b[0] + 256 * FromLE([]);
    }
  }

  /** The payload's three leading bytes, then its authorizations and data. */
  lemma PayloadHead(b: seq<Byte>)
    ensures ParsePayload(b) ==
            if |b| < 3 || b[0] != 1 then None
            else
              match ReadMany(ReadAuthorization, b[2], b[3..])
              case Fail => None
              case Got(authorizations, rest) =>
                match ReadData(b[1], rest)
                case None => None
                case Some(data) => Some(PayloadFields(b[1], authorizations, data))
  {
    hide ReadAuthorization, ReadData, ReadLE;
    HeadByte(b);
    if |b| >= 1 { HeadByte(b[1..]); }
    if |b| >= 2 { HeadByte(b[1..][1..]); }
    if |b| >= 3 { assert b[1..][1..][1..] == b[3..]; }
  }

  /** Authorizations have a fixed size, so enough bytes is all it takes. */
  lemma {:induction false} AuthorizationsFit(n: nat, b: seq<Byte>)
    ensures ReadMany(ReadAuthorization, n, b).Got? <==> |b| >= AUTHORIZATION_SIZE * n
    ensures ReadMany(ReadAuthorization, n, b).Got? ==> ReadMany(ReadAuthorization, n, b).rest == b[AUTHORIZATION_SIZE * n..]
  {
    if n == 0 {
    } else {
      OneAuthorization(b);
      if |b| >= AUTHORIZATION_SIZE {
        AuthorizationsFit(n - 1, b[AUTHORIZATION_SIZE..]);
        if |b| >= AUTHORIZATION_SIZE * n {
          assert b[AUTHORIZATION_SIZE..][AUTHORIZATION_SIZE * (n - 1)..] == b[AUTHORIZATION_SIZE * n..];
        }
      }
    }
  }

  lemma OneAuthorization(b: seq<Byte>)
    ensures ReadAuthorization(b) ==
            if |b| < AUTHORIZATION_SIZE then Fail
            else Got(Authorization(b[..PUBLIC_KEY_SIZE], b[PUBLIC_KEY_SIZE..AUTHORIZATION_SIZE]), b[AUTHORIZATION_SIZE..])
  {
    if |b| >= AUTHORIZATION_SIZE {
      assert b[PUBLIC_KEY_SIZE..][..SIGNATURE_SIZE] == b[PUBLIC_KEY_SIZE..AUTHORIZATION_SIZE];
      assert b[PUBLIC_KEY_SIZE..][SIGNATURE_SIZE..] == b[AUTHORIZATION_SIZE..];
    }
  }

  method SliceAuthorizations(b: seq<Byte>, count: nat) returns (authorizations: seq<Authorization>)
    requires |b| >= 3 + AUTHORIZATION_SIZE * count
    ensures ReadMany(ReadAuthorization, count, b[3..]) == Got(authorizations, b[3 + AUTHORIZATION_SIZE * count..])
  {
    hide ReadAuthorization;
    ghost var whole := ReadMany(ReadAuthorization, count, b[3..]);
    PrependNothing(whole);
    authorizations := [];
    var offset := 3;
    for i := 0 to count
      invariant offset == 3 + AUTHORIZATION_SIZE * i
      invariant Prepend(authorizations, ReadMany(ReadAuthorization, count - i, b[offset..])) == whole
    {
      PrependStep(ReadAuthorization, count - i, b[offset..], authorizations);
      OneAuthorization(b[offset..]);
      var publicKey := b[offset..offset + PUBLIC_KEY_SIZE];
      offset := offset + PUBLIC_KEY_SIZE;
      var signature := b[offset..offset + SIGNATURE_SIZE];
      offset := offset + SIGNATURE_SIZE;
      CutAuthorization(b, offset - AUTHORIZATION_SIZE);
      authorizations := authorizations + [Authorization(publicKey, signature)];
    }
    assert authorizations + [] == authorizations;
  }

  lemma CutAuthorization(b: seq<Byte>, at: nat)
    requires at + AUTHORIZATION_SIZE <= |b|
    ensures b[at..][..PUBLIC_KEY_SIZE] == b[at..at + PUBLIC_KEY_SIZE]
    ensures b[at..][PUBLIC_KEY_SIZE..AUTHORIZATION_SIZE] == b[at + PUBLIC_KEY_SIZE..at + AUTHORIZATION_SIZE]
    ensures b[at..][AUTHORIZATION_SIZE..] == b[at + AUTHORIZATION_SIZE..]
  {
  }

  /** The payload's data from `end` on, by its own length. */
  method SliceData(b: seq<Byte>, end: nat, mode: nat) returns (r: Option<seq<Byte>>)
    requires end <= |b|
    ensures r == ReadData(mode, b[end..])
  {
    hide ReadCompactSize;
    if !ModeHasData(mode) {
      return if |b| != end then None else Some([]);
    }
    var reader := new ByteReader(b);
    reader.offset := end;
    var length := reader.ReadCompact();
    if length == None || length.value == 0 || length.value > MAX_DATA_BYTES || reader.offset + length.value != |b| {
      return None;
    }
    r := Some(b[reader.offset..]);
  }

  /** `parsePayload`: slices at computed offsets, against the reading functions. */
  method ParsePayloadBytes(b: seq<Byte>) returns (r: Option<PayloadFields>)
    ensures r == ParsePayload(b)
  {
    hide ParsePayload, ReadAuthorization, ReadData;
    PayloadHead(b);
    if |b| < 3 || b[0] != 1 {
      return None;
    }
    var mode, count := b[1], b[2];
    var end := 3 + count * AUTHORIZATION_SIZE;
    AuthorizationsFit(count, b[3..]);
    if |b| < end {
      return None;
    }
    var authorizations := SliceAuthorizations(b, count);
    var data := SliceData(b, end, mode);
    if data == None {
      return None;
    }
    r := Some(PayloadFields(mode, authorizations, data.value));
  }

  /** `parsePQTransaction`. */
  method ParsePQTransaction(raw: seq<Byte>, modes: set<nat>) returns (r: Option<Transaction>)
    ensures r == Parse(raw, modes)
  {
    if |raw| > MAX_TX_BYTES {
      return None;
    }
    var reader := new ByteReader(raw);
    var version := reader.ReadUnsigned(2);
    if version == None {
      return None;
    }
    var kind := reader.ReadUnsigned(2);
    if kind == None || version.value != TX_VERSION || kind.value != TX_TYPE {
      return None;
    }
    r := ParseFields(reader, modes);
  }

  method ParseFields(reader: ByteReader, modes: set<nat>) returns (r: Option<Transaction>)
    requires reader.Valid()
    modifies reader
    ensures r == ParseBody(old(reader.Rest()), modes)
  {
    var inputCount := reader.ReadSafeCount();
    if inputCount == None || inputCount.value < 1 || inputCount.value > MAX_INPUTS {
      return None;
    }
    var inputs := ParseInputs(reader, inputCount.value);
    if inputs == None {
      return None;
    }
    var outputCount := reader.ReadSafeCount();
    if outputCount == None || outputCount.value < 1 || outputCount.value > 3 {
      return None;
    }
    var outputs := ParseOutputList(reader, outputCount.value);
    if outputs == None {
      return None;
    }
    r := ParseTail(reader, inputs.value, outputs.value, modes);
  }

  method ParseTail(reader: ByteReader, inputs: seq<Input>, outputs: seq<Output>, modes: set<nat>)
    returns (r: Option<Transaction>)
    requires reader.Valid()
    modifies reader
    ensures r == ParseEnd(inputs, outputs, old(reader.Rest()), modes)
  {
    var locktime := reader.ReadUnsigned(4);
    if locktime == None {
      return None;
    }
    var sapling := reader.ReadUnsigned(1);
    if sapling == None || sapling.value != 0 {
      return None;
    }
    var marker := reader.ReadUnsigned(1);
    if marker == None || marker.value != 1 {
      return None;
    }
    var payload := reader.ReadPrefixed();
    if payload == None || reader.offset != |reader.bytes| {
      return None;
    }
    var p := ParsePayloadBytes(payload.value);
    if p == None || p.value.mode !in modes || (p.value.mode != STAKE_MODE && |outputs| > MAX_OUTPUTS)
       || |p.value.authorizations| != |inputs| {
      return None;
    }
    r := Some(Transaction(inputs, outputs, locktime.value, p.value.mode, p.value.authorizations, p.value.data));
  }
}
