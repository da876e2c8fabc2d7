/**
 The framed stream of shield data: length-prefixed packets, each a transaction
 or the end of a block, delivered in batches of blocks.
 */
module ShieldSync {
  import opened Wrappers
  import opened Bytes

  const BATCH := 11
  const BLOCK_MARK := 0x5d
  const TX_VERSION := 0x03

  datatype Block = Block(txs: seq<seq<Byte>>, height: nat, time: nat)

  datatype Ending = Finished | CutShort | Malformed

  datatype Packet = NoMore | Short(rest: seq<Byte>) | Packet(bytes: seq<Byte>, rest: seq<Byte>)

  /** A packet at the front of what is still to come; fewer than four bytes are left alone. */
  function NextPacket(b: seq<Byte>): (p: Packet)
    ensures p.Packet? ==> |p.rest| + 4 <= |b|
    ensures p.Packet? || p.Short? ==> |p.rest| < |b|
  {
    match ReadLE(b, 4)
    case Fail => NoMore
    case Got(length, rest) =>
      match Take(rest, length)
      case Fail => Short(rest)
      case Got(bytes, after) => Packet(bytes, after)
  }

  /** A slice that stops at the end of the bytes. */
  function Slice(s: seq<Byte>, from: nat, to: nat): seq<Byte>
    requires from <= to
  {
    if |s| <= from then [] else if |s| < to then s[from..] else s[from..to]
  }

  predicate EndsBlock(p: seq<Byte>) {
    p != [] && p[0] == BLOCK_MARK
  }

  predicate IsTransaction(p: seq<Byte>) {
    p != [] && p[0] == TX_VERSION
  }

  function BlockOf(txs: seq<seq<Byte>>, p: seq<Byte>): Block {
    Block(txs, FromLE(Slice(p, 1, 5)), FromLE(Slice(p, 5, 9)))
  }

  /** The blocks of the whole stream, read in one pass with `txs` already collected. */
  function OnePass(b: seq<Byte>, txs: seq<seq<Byte>>): (r: (seq<Block>, Ending))
    decreases |b|
  {
    match NextPacket(b)
    case NoMore => ([], Finished)
    case Short(_) => ([], CutShort)
    case Packet(p, rest) =>
      if EndsBlock(p) then
        var (blocks, ending) := OnePass(rest, []);
        ([BlockOf(txs, p)] + blocks, ending)
      else if IsTransaction(p) then OnePass(rest, txs + [p])
      else ([], Malformed)
  }

  datatype Stop = Full | AtEnd | Broken(ending: Ending)

  /** One batch of at most `room` blocks: the blocks, why it stopped and what is left. */
  function Batch(b: seq<Byte>, txs: seq<seq<Byte>>, room: nat): (r: (seq<Block>, Stop, seq<Byte>))
    ensures |r.0| <= room && (r.1 == Full <==> |r.0| == room) && |r.2| <= |b| && (r.0 != [] ==> |r.2| < |b|)
    ensures r.1 != Broken(Finished) && (r.1 == AtEnd ==> NextPacket(r.2) == NoMore)
    decreases |b|
  {
    if room == 0 then ([], Full, b)
    else
      match NextPacket(b)
      case NoMore => ([], AtEnd, b)
      case Short(rest) => ([], Broken(CutShort), rest)
      case Packet(p, rest) =>
        if EndsBlock(p) then
          var (blocks, stop, left) := Batch(rest, [], room - 1);
          ([BlockOf(txs, p)] + blocks, stop, left)
        else if IsTransaction(p) then Batch(rest, txs + [p], room)
        else ([], Broken(Malformed), rest)
  }

  function LastHeight(blocks: seq<Block>, before: nat): nat {
    if blocks == [] then before else blocks[|blocks| - 1].height
  }

  /** All batches until a call returns null or throws. */
  function Drain(b: seq<Byte>): (r: (seq<seq<Block>>, Ending))
    decreases |b|
  {
    var (blocks, stop, rest) := Batch(b, [], BATCH);
    if stop.Broken? then ([], stop.ending)
    else if blocks == [] then ([], Finished)
    else
      var (batches, ending) := Drain(rest);
      ([blocks] + batches, ending)
  }

  function Concat(batches: seq<seq<Block>>): seq<Block> {
    if batches == [] then [] else batches[0] + Concat(batches[1..])
  }

  // ---------------------------------------------------------------- batches and the one pass

  lemma {:induction false} BatchOfOnePass(b: seq<Byte>, txs: seq<seq<Byte>>, room: nat)
    requires room > 0
    ensures var (blocks, stop, rest) := Batch(b, txs, room);
            OnePass(b, txs) == match stop
                               case Full => (blocks + OnePass(rest, []).0, OnePass(rest, []).1)
                               case AtEnd => (blocks, Finished)
                               case Broken(ending) => (blocks, ending)
    decreases |b|
  {
    hide NextPacket, EndsBlock, IsTransaction, BlockOf;
    var packet := NextPacket(b);
    if !packet.Packet? {
    } else if EndsBlock(packet.bytes) {
      if room > 1 {
        BatchOfOnePass(packet.rest, [], room - 1);
        var (blocks, stop, rest) := Batch(packet.rest, [], room - 1);
        assert [BlockOf(txs, packet.bytes)] + (blocks + OnePass(rest, []).0) == [BlockOf(txs, packet.bytes)] + blocks + OnePass(rest, []).0;
      } else {
        assert Batch(packet.rest, [], 0) == ([], Full, packet.rest);
        assert [BlockOf(txs, packet.bytes)] + [] == [BlockOf(txs, packet.bytes)];
      }
    } else if IsTransaction(packet.bytes) {
      BatchOfOnePass(packet.rest, txs + [packet.bytes], room);
    }
  }

  /** What the batches deliver of a pass that found `count` blocks. */
  function Delivered(count: nat, ending: Ending): (n: nat)
    ensures n <= count
  {
    if ending == Finished then count else count - count % BATCH
  }

  /**
   The batches are the one pass, cut: all its blocks in order when the stream
   is well formed to its end; when it breaks off, the full batches of eleven
   before the break, and the rest of the blocks before it are lost.
   */
  lemma {:induction false} BatchesAreOnePass(b: seq<Byte>)
    ensures Drain(b).1 == OnePass(b, []).1
    ensures Concat(Drain(b).0) == OnePass(b, []).0[..Delivered(|OnePass(b, []).0|, OnePass(b, []).1)]
    ensures FullButLast(Drain(b).0)
    decreases |b|
  {
    hide OnePass, Batch, Delivered, Concat, FullButLast, NextPacket;
    var (blocks, stop, rest) := Batch(b, [], BATCH);
    BatchOfOnePass(b, [], BATCH);
    match stop
    case Full =>
      BatchesAreOnePass(rest);
      Joined(blocks, Drain(rest).0, OnePass(rest, []).0, OnePass(rest, []).1);
    case AtEnd =>
      if blocks != [] {
        EmptyDrain(rest);
        Alone(blocks);
      } else {
        Alone(blocks);
      }
    case Broken(ending) =>
      BrokenOff(blocks, ending);
  }

  predicate FullButLast(batches: seq<seq<Block>>) {
    forall i :: 0 <= i < |batches| ==> 0 < |batches[i]| <= 11 && (i < |batches| - 1 ==> |batches[i]| == 11)
  }

  lemma Joined(blocks: seq<Block>, batches: seq<seq<Block>>, more: seq<Block>, ending: Ending)
    requires |blocks| == BATCH && Concat(batches) == more[..Delivered(|more|, ending)] && FullButLast(batches)
    ensures Concat([blocks] + batches) == (blocks + more)[..Delivered(|blocks + more|, ending)]
    ensures FullButLast([blocks] + batches)
  {
    assert ([blocks] + batches)[1..] == batches;
    assert Delivered(|blocks + more|, ending) == BATCH + Delivered(|more|, ending);
    CutAfter(blocks, more, Delivered(|more|, ending));
  }

  lemma EmptyDrain(b: seq<Byte>)
    requires NextPacket(b) == NoMore
    ensures Drain(b) == ([], Finished)
  {
  }

  lemma Alone(blocks: seq<Block>)
    requires |blocks| <= BATCH
    ensures Concat([blocks] + []) == blocks == blocks[..Delivered(|blocks|, Finished)] && Concat([]) == []
    ensures blocks != [] ==> FullButLast([blocks] + [])
    ensures FullButLast([])
  {
    assert [blocks] + [] == [blocks];
    assert [blocks][1..] == [];
    assert Concat([blocks]) == blocks + Concat([]);
  }

  lemma BrokenOff(blocks: seq<Block>, ending: Ending)
    requires |blocks| < BATCH && ending != Finished
    ensures Concat([]) == blocks[..Delivered(|blocks|, ending)] && FullButLast([])
  {
  }

  lemma CutAfter(a: seq<Block>, b: seq<Block>, n: nat)
    requires n <= |b|
    ensures (a + b)[..|a| + n] == a + b[..n]
  {
  }

  // ---------------------------------------------------------------- streams of whole blocks

  /** The bytes are packets up to the end of a block, and nothing else. */
  predicate WholeBlocks(b: seq<Byte>, txs: seq<seq<Byte>>)
    decreases |b|
  {
    match NextPacket(b)
    case NoMore => b == [] && txs == []
    case Short(_) => false
    case Packet(p, rest) => if EndsBlock(p) then WholeBlocks(rest, []) else IsTransaction(p) && WholeBlocks(rest, txs + [p])
  }

  lemma PacketThen(a: seq<Byte>, b: seq<Byte>)
    requires NextPacket(a).Packet?
    ensures NextPacket(a + b) == Packet(NextPacket(a).bytes, NextPacket(a).rest + b)
  {
    var length := FromLE(a[..4]);
    assert (a + b)[..4] == a[..4] && (a + b)[4..] == a[4..] + b;
    hide FromLE;
    var r := a[4..];
    assert (r + b)[..length] == r[..length] && (r + b)[length..] == r[length..] + b;
  }

  /** Read in one pass they give their own blocks, and then those of whatever follows. */
  lemma {:induction false} WholeThen(a: seq<Byte>, txs: seq<seq<Byte>>, b: seq<Byte>)
    requires WholeBlocks(a, txs)
    ensures OnePass(a, txs).1 == Finished
    ensures OnePass(a + b, txs) == (OnePass(a, txs).0 + OnePass(b, []).0, OnePass(b, []).1)
    decreases |a|
  {
    hide NextPacket, EndsBlock, IsTransaction, BlockOf;
    var packet := NextPacket(a);
    if !packet.Packet? {
      assert a + b == b;
      assert [] + OnePass(b, []).0 == OnePass(b, []).0;
    } else {
      PacketThen(a, b);
      if EndsBlock(packet.bytes) {
        WholeThen(packet.rest, [], b);
        var block := BlockOf(txs, packet.bytes);
        assert [block] + (OnePass(packet.rest, []).0 + OnePass(b, []).0) == [block] + OnePass(packet.rest, []).0 + OnePass(b, []).0;
      } else {
        WholeThen(packet.rest, txs + [packet.bytes], b);
      }
    }
  }

  lemma {:induction false} BatchWhole(b: seq<Byte>, txs: seq<seq<Byte>>, room: nat)
    requires WholeBlocks(b, txs) && (room == 0 ==> txs == [])
    ensures !Batch(b, txs, room).1.Broken?
    ensures Batch(b, txs, room).1.Full? ==> WholeBlocks(Batch(b, txs, room).2, [])
    ensures Batch(b, txs, room).1.AtEnd? ==> Batch(b, txs, room).2 == []
    decreases |b|
  {
    hide NextPacket, EndsBlock, IsTransaction, BlockOf;
    var packet := NextPacket(b);
    if room == 0 || !packet.Packet? {
    } else if EndsBlock(packet.bytes) {
      BatchWhole(packet.rest, [], room - 1);
    } else {
      BatchWhole(packet.rest, txs + [packet.bytes], room);
    }
  }

  // ---------------------------------------------------------------- what a server writes

  /** A packet, after its length. */
  function PutPacket(p: seq<Byte>, rest: seq<Byte>): seq<Byte> {
    PutLE(|p|, 4, p + rest)
  }

  /** The end of a block: its mark, its height and its time. */
  function EndOf(block: Block): seq<Byte> {
    [0x5d] + LE(block.height, 4) + LE(block.time, 4)
  }

  function PutBlock(txs: seq<seq<Byte>>, end: seq<Byte>, rest: seq<Byte>): seq<Byte> {
    if txs == [] then PutPacket(end, rest) else PutPacket(txs[0], PutBlock(txs[1..], end, rest))
  }

  function PutBlocks(blocks: seq<Block>): seq<Byte> {
    if blocks == [] then [] else PutBlock(blocks[0].txs, EndOf(blocks[0]), PutBlocks(blocks[1..]))
  }

  /** Transactions of version 3, and numbers of four bytes. */
  predicate Writable(block: Block) {
    && block.height < 0x1_0000_0000 && block.time < 0x1_0000_0000
    && forall i :: 0 <= i < |block.txs| ==> 0 < |block.txs[i]| < 0x1_0000_0000 && block.txs[i][0] == 3
  }

  lemma ReadOfPutPacket(p: seq<Byte>, rest: seq<Byte>)
    requires |p| < 0x1_0000_0000
    ensures NextPacket(PutPacket(p, rest)) == Packet(p, rest)
  {
    Limits();
    ReadOfPutLE(|p|, 4, p + rest);
    TakeOfConcat(p, rest);
  }

  lemma EndReads(block: Block, txs: seq<seq<Byte>>)
    requires block.height < 0x1_0000_0000 && block.time < 0x1_0000_0000
    ensures EndsBlock(EndOf(block)) && BlockOf(txs, EndOf(block)) == Block(txs, block.height, block.time)
  {
    Limits();
    FromLEOfLE(block.height, 4);
    FromLEOfLE(block.time, 4);
    assert Slice(EndOf(block), 1, 5) == LE(block.height, 4);
    assert Slice(EndOf(block), 5, 9) == LE(block.time, 4);
  }

  lemma {:induction false} PassOfPutBlock(before: seq<seq<Byte>>, txs: seq<seq<Byte>>, block: Block, rest: seq<Byte>)
    requires Writable(block) && before + txs == block.txs
    ensures OnePass(PutBlock(txs, EndOf(block), rest), before) == ([block] + OnePass(rest, []).0, OnePass(rest, []).1)
    decreases |txs|
  {
    hide NextPacket, PutPacket, EndOf, BlockOf;
    if txs == [] {
      assert before == block.txs;
      EndReads(block, before);
      EndLength(block);
      ReadOfPutPacket(EndOf(block), rest);
    } else {
      assert block.txs[|before|] == txs[0];
      ReadOfPutPacket(txs[0], PutBlock(txs[1..], EndOf(block), rest));
      assert before + [txs[0]] + txs[1..] == block.txs;
      PassOfPutBlock(before + [txs[0]], txs[1..], block, rest);
    }
  }

  lemma EndLength(block: Block)
    ensures |EndOf(block)| == 9
  {
  }

  /** Blocks read in one pass are the blocks written: transactions in order, then height and then time. */
  lemma {:induction false} PassOfPutBlocks(blocks: seq<Block>)
    requires forall i :: 0 <= i < |blocks| ==> Writable(blocks[i])
    ensures OnePass(PutBlocks(blocks), []) == (blocks, Finished)
  {
    hide NextPacket, PutBlock, EndOf, Writable;
    if blocks == [] {
      NothingToRead();
    } else {
      PassOfPutBlocks(blocks[1..]);
      assert [] + blocks[0].txs == blocks[0].txs;
      PassOfPutBlock([], blocks[0].txs, blocks[0], PutBlocks(blocks[1..]));
      hide OnePass;
      assert blocks == [blocks[0]] + blocks[1..];
    }
  }

  lemma NothingToRead()
    ensures OnePass([], []) == ([], Finished)
  {
  }

  // ---------------------------------------------------------------- the syncer

  datatype Reply = Null | Blocks(blocks: seq<Block>) | Threw(ending: Ending)

  /** `rest` is what the reader has still to deliver, `taken` what it has delivered. */
  class Syncer {
    var rest: seq<Byte>
    var taken: seq<Byte>
    var lastSyncedBlock: nat
    var saved: Option<(nat, seq<Byte>)>

    constructor (stream: seq<Byte>, start: nat)
      ensures rest == stream && taken == [] && lastSyncedBlock == start && saved == None
    {
      rest, taken, lastSyncedBlock, saved := stream, [], start, None;
    }

    /** A read of the stream, once the bytes are there or the stream has ended. */
    method Read(count: nat) returns (r: Option<seq<Byte>>)
      modifies this`rest, this`taken
      ensures match Take(old(rest), count)
              case Fail => r == None && rest == old(rest) && taken == old(taken)
              case Got(bytes, after) => r == Some(bytes) && rest == after && taken == old(taken) + bytes
    {
      if |rest| < count {
        return None;
      }
      r := Some(rest[..count]);
      taken := taken + rest[..count];
      rest := rest[count..];
    }

    /** The two reads of one packet. */
    method ReadPacket() returns (p: Packet)
      modifies this`rest, this`taken
      ensures p == NextPacket(old(rest))
      ensures rest == match p { case NoMore => old(rest) case Short(after) => after case Packet(_, after) => after }
      ensures taken + rest == old(taken) + old(rest)
    {
      var lengthBytes := Read(4);
      if lengthBytes == None {
        return NoMore;
      }
      assert taken + rest == old(taken) + old(rest);
      ghost var before, middle := taken, rest;
      var bytes := Read(FromLE(lengthBytes.value));
      if bytes == None {
        return Short(rest);
      }
      assert taken + rest == before + middle;
      p := Packet(bytes.value, rest);
    }

    /** `getNextBlocks`; `busy` while a read or discard of the reader is under way. */
    method GetNextBlocks(busy: bool) returns (r: Reply)
      modifies this
      ensures busy ==> r == Blocks([]) && unchanged(this)
      ensures !busy ==>
              var (blocks, stop, left) := Batch(old(rest), [], BATCH);
              && rest == left && lastSyncedBlock == (if blocks == [] then old(lastSyncedBlock) else blocks[|blocks| - 1].height)
              && taken + rest == old(taken) + old(rest)
              && r == (if stop.Broken? then Threw(stop.ending) else if blocks == [] then Null else Blocks(blocks))
              && saved == (if r == Null then Some((lastSyncedBlock, taken)) else old(saved))
    {
      hide NextPacket, Batch, Slice;
      if busy {
        return Blocks([]);
      }
      var txs: seq<seq<Byte>> := [];
      var blocks: seq<Block> := [];
      ghost var whole := Batch(rest, [], BATCH);
      Prepended([], whole);
      while |blocks| <= 10
        invariant |blocks| <= BATCH && (|blocks| == BATCH ==> txs == [])
        invariant Prepend(blocks, Batch(rest, txs, BATCH - |blocks|)) == whole
        invariant lastSyncedBlock == LastHeight(blocks, old(lastSyncedBlock))
        invariant taken + rest == old(taken) + old(rest) && saved == old(saved)
        decreases |rest|
      {
        BatchStep(rest, txs, BATCH - |blocks|);
        Prepended(blocks, ([], AtEnd, rest));
        var packet := ReadPacket();
        match packet
        case NoMore => break;
        case Short(_) => return Threw(CutShort);
        case Packet(bytes, _) =>
          if EndsBlock(bytes) {
            lastSyncedBlock := FromLE(Slice(bytes, 1, 5));
            PrependBlock(blocks, BlockOf(txs, bytes), Batch(rest, [], BATCH - |blocks| - 1));
            blocks := blocks + [Block(txs, lastSyncedBlock, FromLE(Slice(bytes, 5, 9)))];
            txs := [];
          } else if IsTransaction(bytes) {
            txs := txs + [bytes];
          } else {
            return Threw(Malformed);
          }
      }
      Prepended(blocks, ([], Full, rest));
      BatchDone(rest, txs);
      if blocks == [] {
        saved := Some((lastSyncedBlock, taken));
        return Null;
      }
      r := Blocks(blocks);
    }
  }

  lemma BatchDone(b: seq<Byte>, txs: seq<seq<Byte>>)
    ensures Batch(b, txs, 0) == ([], Full, b)
  {
  }

  lemma BatchStep(b: seq<Byte>, txs: seq<seq<Byte>>, room: nat)
    requires room > 0
    ensures Batch(b, txs, room) ==
            match NextPacket(b)
            case NoMore => ([], AtEnd, b)
            case Short(rest) => ([], Broken(CutShort), rest)
            case Packet(p, rest) =>
              if EndsBlock(p) then
                var r := Batch(rest, [], room - 1);
                ([BlockOf(txs, p)] + r.0, r.1, r.2)
              else if IsTransaction(p) then Batch(rest, txs + [p], room)
              else ([], Broken(Malformed), rest)
  {
  }

  ghost function Prepend(blocks: seq<Block>, r: (seq<Block>, Stop, seq<Byte>)): (seq<Block>, Stop, seq<Byte>) {
    (blocks + r.0, r.1, r.2)
  }

  lemma Prepended(blocks: seq<Block>, r: (seq<Block>, Stop, seq<Byte>))
    ensures Prepend([], r) == r && blocks + [] == blocks
  {
    assert [] + r.0 == r.0;
  }

  lemma PrependBlock(blocks: seq<Block>, block: Block, r: (seq<Block>, Stop, seq<Byte>))
    ensures Prepend(blocks, ([block] + r.0, r.1, r.2)) == Prepend(blocks + [block], r)
  {
    assert blocks + ([block] + r.0) == blocks + [block] + r.0;
  }
}
