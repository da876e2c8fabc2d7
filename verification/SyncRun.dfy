/**
 The syncer on its stream: chunks arrive, calls are made and suspended code goes
 on in any order, and what is delivered is what one reading of the complete
 stream would give. A step is one stretch of code between two awaits.
 */
module SyncRun {
  import opened Wrappers
  import opened Bytes
  import opened ShieldSync
  import Stream = StreamSpec

  /** Where the call of `getNextBlocks` stands; `at` is where its current packet begins. */
  datatype Phase = Idle | AwaitsLength(at: nat) | AwaitsBody(at: nat, length: nat) | Over(ending: Ending)

  /** `began` is where the call began to read; `naps` counts the calls that found the reader busy. */
  datatype State = State(
    queue: Stream.Queue,
    phase: Phase,
    began: nat,
    txs: seq<seq<Byte>>,
    blocks: seq<Block>,
    batches: seq<seq<Block>>,
    naps: nat)

  datatype Event =
    | Arrived(chunk: Option<seq<Byte>>, last: bool)
    | Woken
    | Asked
    | Resumed

  predicate Runs(s: State) {
    Stream.Bounded(s.queue) && Stream.WaiterFits(s.queue)
  }

  /** `create`: what was saved comes first, and the bytes of blocks already synchronised are discarded. */
  function Start(saved: seq<Byte>, skip: nat): (s: State)
    ensures Runs(s)
  {
    State(Stream.Step(Stream.Initial(saved), Stream.DiscardCalled(skip)), Idle, 0, [], [], [], 0)
  }

  function Read(s: State, need: nat, phase: Phase): (r: State)
    requires Runs(s)
    ensures Runs(r)
  {
    s.(queue := Stream.Step(s.queue, Stream.ReadCalled(need)), phase := phase)
  }

  /** The end of a call: null and the end when it has no blocks. */
  function Return(s: State): State {
    if s.blocks == [] then s.(phase := Over(Finished))
    else s.(phase := Idle, batches := s.batches + [s.blocks], txs := [], blocks := [])
  }

  /** The head of the loop. */
  function Next(s: State): (r: State)
    requires Runs(s)
    ensures Runs(r)
  {
    if |s.blocks| <= 10 then Read(s, 4, AwaitsLength(s.queue.taken)) else Return(s)
  }

  /** `getNextBlocks` is called; the wallet stops calling after null or an error. */
  function Ask(s: State): (r: State)
    requires Runs(s)
    ensures Runs(r)
  {
    if s.phase != Idle then s
    else if s.queue.waiter.Some? then s.(naps := s.naps + 1)
    else Next(s.(began := s.queue.taken, txs := [], blocks := []))
  }

  function AfterBody(s: State, p: seq<Byte>): (r: State)
    requires Runs(s)
    ensures Runs(r)
  {
    if EndsBlock(p) then Next(s.(blocks := s.blocks + [BlockOf(s.txs, p)], txs := []))
    else if IsTransaction(p) then Next(s.(txs := s.txs + [p]))
    else s.(phase := Over(Malformed))
  }

  /** The call goes on once its read has finished. */
  function Resume(s: State): (r: State)
    requires Runs(s)
    ensures Runs(r)
  {
    if s.queue.waiter.Some? || s.queue.log == [] then s
    else
      match (s.phase, s.queue.log[|s.queue.log| - 1])
      case (AwaitsLength(_), Took(from, end)) =>
        var length := FromLE(Cut(s.queue.stream, from, end));
        Read(s, length, AwaitsBody(from, length))
      case (AwaitsLength(_), Ended(_, _)) => Return(s)
      case (AwaitsBody(_, _), Took(from, end)) => AfterBody(s, Cut(s.queue.stream, from, end))
      case (AwaitsBody(_, _), Ended(_, _)) => s.(phase := Over(CutShort))
      case _ => s
  }

  function Cut(s: seq<Byte>, from: nat, end: nat): seq<Byte> {
    if from <= end <= |s| then s[from..end] else []
  }

  function Step(s: State, e: Event): (r: State)
    requires Runs(s)
    ensures Runs(r)
  {
    match e
    case Arrived(chunk, last) => s.(queue := Stream.Step(s.queue, Stream.Arrived(chunk, last)))
    case Woken => s.(queue := Stream.Step(s.queue, Stream.Woken))
    case Asked => Ask(s)
    case Resumed => Resume(s)
  }

  function RunFrom(s: State, events: seq<Event>): (r: State)
    requires Runs(s)
    ensures Runs(r)
    decreases |events|
  {
    if events == [] then s else RunFrom(Step(s, events[0]), events[1..])
  }

  // ---------------------------------------------------------------- what has arrived

  /** The bytes of the chunks up to the last. */
  function Received(events: seq<Event>): seq<Byte> {
    if events == [] then []
    else
      match events[0]
      case Arrived(chunk, last) =>
        (if chunk.Some? then chunk.value else []) + (if last then [] else Received(events[1..]))
      case _ => Received(events[1..])
  }

  predicate Complete(events: seq<Event>) {
    exists i :: 0 <= i < |events| && events[i].Arrived? && events[i].last
  }

  lemma StepGrows(s: State, e: Event)
    requires Runs(s)
    ensures Step(s, e).queue.stream == if e.Arrived? && e.chunk.Some? && !s.queue.done then s.queue.stream + e.chunk.value else s.queue.stream
    ensures Step(s, e).queue.done == (s.queue.done || (e.Arrived? && e.last))
  {
    hide FromLE, Cut, EndsBlock, IsTransaction, BlockOf;
  }

  lemma CompleteCons(events: seq<Event>)
    requires events != []
    ensures Complete(events) <==> Complete(events[1..]) || (events[0].Arrived? && events[0].last)
  {
    if Complete(events[1..]) {
      var i :| 0 <= i < |events| - 1 && events[1..][i].Arrived? && events[1..][i].last;
      assert events[i + 1] == events[1..][i];
    }
    if Complete(events) {
      var i :| 0 <= i < |events| && events[i].Arrived? && events[i].last;
      assert i > 0 ==> events[1..][i - 1] == events[i];
    }
  }

  lemma {:induction false} RunGrows(s: State, events: seq<Event>)
    requires Runs(s)
    ensures RunFrom(s, events).queue.stream == s.queue.stream + (if s.queue.done then [] else Received(events))
    ensures RunFrom(s, events).queue.done == (s.queue.done || Complete(events))
    decreases |events|
  {
    hide Step, Runs, Complete;
    if events == [] {
      NothingComplete();
    } else {
      StepGrows(s, events[0]);
      RunGrows(Step(s, events[0]), events[1..]);
      CompleteCons(events);
      ReceivedCons(s.queue.stream, events);
      hide Received;
    }
  }

  lemma ReceivedCons(before: seq<Byte>, events: seq<Event>)
    requires events != []
    ensures var e := events[0];
            before + Received(events) ==
              (if e.Arrived? && e.chunk.Some? then before + e.chunk.value else before)
              + (if e.Arrived? && e.last then [] else Received(events[1..]))
  {
    var e := events[0];
    if e.Arrived? {
      var chunk := if e.chunk.Some? then e.chunk.value else [];
      var more := if e.last then [] else Received(events[1..]);
      assert Received(events) == chunk + more;
      hide Received;
      assert before + (chunk + more) == (before + chunk) + more;
      assert before + [] == before;
    }
  }

  lemma NothingComplete()
    ensures !Complete([])
  {
  }

  // ---------------------------------------------------------------- what every run keeps

  /** `full` may be the complete stream. */
  predicate Fits(q: Stream.Queue, full: seq<Byte>) {
    q.stream <= full && (q.done ==> q.stream == full)
  }

  /** What the blocks are read from. */
  function Data(full: seq<Byte>, skip: nat): seq<Byte> {
    full[if skip < |full| then skip else |full|..]
  }

  /** What the batches leave of a stream that ends well. */
  function DrainRest(b: seq<Byte>): seq<Byte>
    decreases |b|
  {
    var (blocks, stop, rest) := Batch(b, [], BATCH);
    if stop.Broken? then [] else if blocks == [] then rest else DrainRest(rest)
  }

  function Join(batches: seq<seq<Block>>, r: (seq<seq<Block>>, Ending)): (seq<seq<Block>>, Ending) {
    (batches + r.0, r.1)
  }

  /** A read of `need` bytes was issued at `at`, and its result not yet looked at. */
  predicate Awaits(q: Stream.Queue, at: nat, need: nat) {
    if q.waiter.Some? then q.waiter.value.wait == Stream.ReadWait(need) && q.taken == at
    else
      && q.log != []
      && var last := q.log[|q.log| - 1];
      || (last == Stream.Took(at, at + need) && q.taken == at + need)
      || (last == Stream.Ended(at, need) && q.taken == at && q.done && |q.stream| < at + need)
  }

  /** The call in progress has read from `began` up to `at`. */
  ghost predicate InCall(s: State, full: seq<Byte>, skip: nat, at: nat) {
    && s.began <= at <= |full| && |s.blocks| < BATCH && (s.blocks != [] ==> s.began < at)
    && Drain(Data(full, skip)) == Join(s.batches, Drain(full[s.began..])) && DrainRest(Data(full, skip)) == DrainRest(full[s.began..])
    && Prepend(s.blocks, Batch(full[at..], s.txs, BATCH - |s.blocks|)) == Batch(full[s.began..], [], BATCH)
  }

  /** The initial discard is under way and nothing has been read. */
  predicate Discarding(s: State, skip: nat) {
    && s.queue.waiter.Some? && s.batches == []
    && match s.queue.waiter.value.wait
       case DiscardWait(start, left) => start == 0 && s.queue.taken + left == skip
       case ReadWait(_) => false
  }

  predicate Between(s: State, full: seq<Byte>, skip: nat) {
    && s.queue.waiter == None && s.queue.taken <= |full|
    && Drain(Data(full, skip)) == Join(s.batches, Drain(full[s.queue.taken..]))
    && DrainRest(Data(full, skip)) == DrainRest(full[s.queue.taken..])
  }

  predicate Ended(s: State, full: seq<Byte>, skip: nat, ending: Ending) {
    && s.queue.waiter == None && s.queue.taken <= |full|
    && Drain(Data(full, skip)) == (s.batches, ending)
    && (ending == Finished ==> full[s.queue.taken..] == DrainRest(Data(full, skip)))
  }

  ghost predicate PhaseKept(s: State, full: seq<Byte>, skip: nat) {
    match s.phase
    case Idle => Discarding(s, skip) || Between(s, full, skip)
    case AwaitsLength(at) => Awaits(s.queue, at, 4) && InCall(s, full, skip, at)
    case AwaitsBody(at, length) =>
      at + 4 <= |full| && length == FromLE(full[at..at + 4]) && Awaits(s.queue, at + 4, length) && InCall(s, full, skip, at)
    case Over(ending) => Ended(s, full, skip, ending)
  }

  ghost predicate Inv(s: State, full: seq<Byte>, skip: nat) {
    Stream.Inv(s.queue) && Fits(s.queue, full) && PhaseKept(s, full, skip)
  }

  lemma ReadIssued(q: Stream.Queue, need: nat)
    requires Stream.Inv(q) && q.waiter == None
    ensures Stream.Inv(Stream.Step(q, Stream.ReadCalled(need))) && Awaits(Stream.Step(q, Stream.ReadCalled(need)), q.taken, need)
    ensures Stream.Step(q, Stream.ReadCalled(need)).stream == q.stream && Stream.Step(q, Stream.ReadCalled(need)).done == q.done
  {
    Stream.StepKeeps(q, Stream.ReadCalled(need));
    hide Stream.Inv;
  }

  lemma StartKept(saved: seq<Byte>, skip: nat, full: seq<Byte>)
    requires Fits(Start(saved, skip).queue, full)
    ensures Inv(Start(saved, skip), full, skip)
  {
    var q := Start(saved, skip).queue;
    FirstDiscard(saved, skip);
    hide Stream.Inv, Stream.Step, Fits, Between, Discarding;
    if q.waiter == None {
      var blank := State(q, Idle, 0, [], [], [], 0);
      assert blank == blank.(queue := q) == Start(saved, skip);
      DiscardDone(blank, q, full, skip);
    } else {
      DiscardGoesOn(saved, skip);
    }
  }

  lemma FirstDiscard(saved: seq<Byte>, skip: nat)
    ensures var q := Start(saved, skip).queue;
            && Stream.Inv(q) && q.taken <= |q.stream|
            && (q.waiter == None ==> q.taken == skip || (q.done && q.taken == |q.stream| < skip))
  {
    Stream.InitialInv(saved);
    Stream.StepKeeps(Stream.Initial(saved), Stream.DiscardCalled(skip));
    InvBounded(Start(saved, skip).queue);
    hide Stream.Inv;
  }

  lemma DiscardGoesOn(saved: seq<Byte>, skip: nat)
    requires Start(saved, skip).queue.waiter.Some?
    ensures Discarding(Start(saved, skip), skip)
  {
  }

  lemma NextKept(s: State, full: seq<Byte>, skip: nat)
    requires Stream.Inv(s.queue) && Fits(s.queue, full) && s.queue.waiter == None && s.queue.taken <= |full|
    requires s.began <= s.queue.taken && |s.blocks| <= BATCH && (s.blocks != [] ==> s.began < s.queue.taken)
    requires Drain(Data(full, skip)) == Join(s.batches, Drain(full[s.began..])) && DrainRest(Data(full, skip)) == DrainRest(full[s.began..])
    requires Prepend(s.blocks, Batch(full[s.queue.taken..], s.txs, BATCH - |s.blocks|)) == Batch(full[s.began..], [], BATCH)
    ensures Inv(Next(s), full, skip)
  {
    hide Stream.Inv, Stream.Step, Drain, DrainRest, Batch, Awaits;
    if |s.blocks| <= 10 {
      ReadIssued(s.queue, 4);
    } else {
      BatchDone(full[s.queue.taken..], s.txs);
      assert s.blocks + [] == s.blocks;
      ReturnKept(s, full, skip, Full);
    }
  }

  /** A call returns its blocks, or null when there are none. */
  lemma ReturnKept(s: State, full: seq<Byte>, skip: nat, stop: Stop)
    requires Stream.Inv(s.queue) && Fits(s.queue, full) && s.queue.waiter == None && s.began <= s.queue.taken <= |full|
    requires Drain(Data(full, skip)) == Join(s.batches, Drain(full[s.began..])) && DrainRest(Data(full, skip)) == DrainRest(full[s.began..])
    requires Batch(full[s.began..], [], BATCH) == (s.blocks, stop, full[s.queue.taken..]) && !stop.Broken?
    ensures Inv(Return(s), full, skip)
  {
    DrainStep(full[s.began..]);
    if s.blocks == [] {
      hide Stream.Inv, Fits, Drain, DrainRest, Batch, Data;
      assert s.batches + [] == s.batches;
      assert Ended(s.(phase := Over(Finished)), full, skip, Finished);
    } else {
      JoinMore(s.batches, s.blocks, Drain(full[s.queue.taken..]));
      hide Stream.Inv, Fits, Drain, DrainRest, Batch, Data, Join;
      assert Between(Return(s), full, skip);
    }
  }

  lemma JoinMore(batches: seq<seq<Block>>, blocks: seq<Block>, more: (seq<seq<Block>>, Ending))
    ensures Join(batches, ([blocks] + more.0, more.1)) == Join(batches + [blocks], more)
  {
    assert batches + ([blocks] + more.0) == batches + [blocks] + more.0;
  }

  lemma DrainStep(b: seq<Byte>)
    ensures Drain(b) ==
            var (blocks, stop, rest) := Batch(b, [], BATCH);
            if stop.Broken? then ([], stop.ending)
            else if blocks == [] then ([], Finished)
            else ([blocks] + Drain(rest).0, Drain(rest).1)
    ensures DrainRest(b) ==
            var (blocks, stop, rest) := Batch(b, [], BATCH);
            if stop.Broken? then [] else if blocks == [] then rest else DrainRest(rest)
  {
    hide Batch;
  }

  /** The call throws: what it had collected is lost. */
  lemma BrokenKept(s: State, full: seq<Byte>, skip: nat, ending: Ending, rest: seq<Byte>)
    requires Stream.Inv(s.queue) && Fits(s.queue, full) && s.began <= |full| && s.queue.waiter == None && s.queue.taken <= |full|
    requires ending != Finished
    requires Drain(Data(full, skip)) == Join(s.batches, Drain(full[s.began..]))
    requires Batch(full[s.began..], [], BATCH) == (s.blocks, Broken(ending), rest)
    ensures Inv(s.(phase := Over(ending)), full, skip)
  {
    DrainStep(full[s.began..]);
    hide Stream.Inv, Drain, DrainRest, Batch;
    assert s.batches + [] == s.batches;
  }

  lemma AskKept(s: State, full: seq<Byte>, skip: nat)
    requires Inv(s, full, skip)
    ensures Inv(Ask(s), full, skip)
  {
    hide Stream.Inv, Drain, DrainRest, Batch, Next;
    if s.phase == Idle && s.queue.waiter == None {
      Prepended([], Batch(full[s.queue.taken..], [], BATCH));
      NextKept(s.(began := s.queue.taken, txs := [], blocks := []), full, skip);
    }
  }

  lemma InvBounded(q: Stream.Queue)
    requires Stream.Inv(q)
    ensures q.taken <= |q.stream|
  {
  }

  /** What lies below the end of the stream so far lies there in the complete stream too. */
  lemma CutSame(q: Stream.Queue, full: seq<Byte>, from: nat, end: nat)
    requires Fits(q, full) && from <= end <= |q.stream|
    ensures end <= |full| && Cut(q.stream, from, end) == full[from..end]
  {
  }

  /** Only the queue and the phase have changed. */
  lemma SameCall(s: State, q: Stream.Queue, phase: Phase, full: seq<Byte>, skip: nat, at: nat)
    requires InCall(s, full, skip, at)
    ensures InCall(s.(queue := q, phase := phase), full, skip, at)
  {
    hide Drain, DrainRest, Batch, Prepend, Data;
  }

  lemma TookAt(q: Stream.Queue, at: nat, need: nat)
    requires Stream.Inv(q) && q.waiter == None && q.log != [] && Awaits(q, at, need) && q.log[|q.log| - 1].Took?
    ensures q.log[|q.log| - 1] == Stream.Took(at, at + need) && q.taken == at + need <= |q.stream|
  {
    InvBounded(q);
    hide Stream.Inv;
  }

  lemma BodyNext(s: State, at: nat, length: nat, full: seq<Byte>, skip: nat)
    requires s.phase == AwaitsBody(at, length) && at + 4 <= |full| && length == FromLE(full[at..at + 4])
    requires Stream.Inv(s.queue) && Fits(s.queue, full) && Awaits(s.queue, at + 4, length) && InCall(s, full, skip, at)
    ensures Inv(s, full, skip)
  {
    hide Stream.Inv, Fits, Awaits, InCall, FromLE;
  }

  lemma LengthParts(s: State, full: seq<Byte>, skip: nat)
    requires Inv(s, full, skip) && s.phase.AwaitsLength?
    ensures Runs(s) && Stream.Inv(s.queue) && Fits(s.queue, full)
    ensures Awaits(s.queue, s.phase.at, 4) && InCall(s, full, skip, s.phase.at)
  {
    InvRuns(s, full, skip);
    hide Stream.Inv, Fits, Awaits, InCall;
  }

  lemma FitsSame(q: Stream.Queue, r: Stream.Queue, full: seq<Byte>)
    requires Fits(q, full) && r.stream == q.stream && r.done == q.done
    ensures Fits(r, full) && |q.stream| <= |full|
  {
  }

  /** The length of a packet has been read. */
  lemma LengthTook(s: State, full: seq<Byte>, skip: nat)
    requires Inv(s, full, skip) && s.phase.AwaitsLength? && s.queue.waiter == None
    requires s.queue.log != [] && s.queue.log[|s.queue.log| - 1].Took?
    ensures Inv(Resume(s), full, skip)
  {
    LengthParts(s, full, skip);
    hide Inv, Stream.Inv, Stream.Step, Fits, Awaits, InCall, Cut, Resume, Read, Runs, FromLE;
    var at := s.phase.at;
    TookAt(s.queue, at, 4);
    FitsSame(s.queue, s.queue, full);
    CutSame(s.queue, full, at, at + 4);
    var length := FromLE(full[at..at + 4]);
    ReadIssued(s.queue, length);
    ResumeTook(s, at, length);
    var r := Resume(s);
    FitsSame(s.queue, r.queue, full);
    SameCall(s, r.queue, r.phase, full, skip, at);
    BodyNext(r, at, length, full, skip);
  }

  lemma ResumeTook(s: State, at: nat, length: nat)
    requires Runs(s) && s.phase.AwaitsLength? && s.queue.waiter == None && s.queue.log != []
    requires s.queue.log[|s.queue.log| - 1] == Stream.Took(at, at + 4) && length == FromLE(Cut(s.queue.stream, at, at + 4))
    ensures var q := Stream.Step(s.queue, Stream.ReadCalled(length));
            Resume(s) == Read(s, length, AwaitsBody(at, length)) == s.(queue := q, phase := AwaitsBody(at, length))
  {
    hide Stream.Step, FromLE, Cut;
  }

  /** The stream has ended before the length of a packet. */
  lemma LengthEnded(s: State, full: seq<Byte>, skip: nat)
    requires Inv(s, full, skip) && s.phase.AwaitsLength? && s.queue.waiter == None
    requires s.queue.log[|s.queue.log| - 1].Ended?
    ensures Inv(Resume(s), full, skip)
  {
    var at := s.phase.at;
    BatchStep(full[at..], s.txs, BATCH - |s.blocks|);
    NoPacketAt(full, at);
    hide Stream.Inv, Stream.Step, Drain, DrainRest, Batch, Data, Join, NextPacket, EndsBlock, IsTransaction, BlockOf, Return;
    assert s.blocks + [] == s.blocks;
    ReturnKept(s, full, skip, AtEnd);
  }

  lemma LengthKept(s: State, full: seq<Byte>, skip: nat)
    requires Inv(s, full, skip) && s.phase.AwaitsLength? && s.queue.waiter == None
    ensures Inv(Resume(s), full, skip)
  {
    if s.queue.log[|s.queue.log| - 1].Took? {
      LengthTook(s, full, skip);
    } else {
      hide InCall, Stream.Inv;
      LengthEnded(s, full, skip);
    }
  }

  lemma NoPacketAt(full: seq<Byte>, at: nat)
    requires at <= |full| < at + 4
    ensures NextPacket(full[at..]) == NoMore
  {
  }

  /** A packet at a position of the complete stream. */
  lemma PacketAt(full: seq<Byte>, at: nat)
    requires at + 4 <= |full|
    ensures var length := FromLE(full[at..at + 4]);
            NextPacket(full[at..]) ==
              if at + 4 + length <= |full| then Packet(full[at + 4..at + 4 + length], full[at + 4 + length..]) else Short(full[at + 4..])
  {
    hide FromLE;
    var b := full[at..];
    var length := FromLE(full[at..at + 4]);
    assert b[..4] == full[at..at + 4] && b[4..] == full[at + 4..];
    assert Take(b, 4) == Got(b[..4], b[4..]);
    assert ReadLE(b, 4) == Got(length, b[4..]);
    if at + 4 + length <= |full| {
      assert b[4..][..length] == full[at + 4..at + 4 + length] && b[4..][length..] == full[at + 4 + length..];
    }
  }

  lemma BodyKept(s: State, full: seq<Byte>, skip: nat)
    requires Inv(s, full, skip) && s.phase.AwaitsBody? && s.queue.waiter == None
    ensures Inv(Resume(s), full, skip)
  {
    hide Stream.Inv, Drain, DrainRest, Batch, NextPacket, Next, EndsBlock, IsTransaction, BlockOf;
    var at, length := s.phase.at, s.phase.length;
    var room := BATCH - |s.blocks|;
    BatchStep(full[at..], s.txs, room);
    PacketAt(full, at);
    match s.queue.log[|s.queue.log| - 1]
    case Took(from, end) =>
      InvBounded(s.queue);
      var p := full[at + 4..at + 4 + length];
      assert Cut(s.queue.stream, at + 4, at + 4 + length) == p;
      if EndsBlock(p) {
        PrependBlock(s.blocks, BlockOf(s.txs, p), Batch(full[end..], [], room - 1));
        NextKept(s.(blocks := s.blocks + [BlockOf(s.txs, p)], txs := []), full, skip);
      } else if IsTransaction(p) {
        NextKept(s.(txs := s.txs + [p]), full, skip);
      } else {
        assert s.blocks + [] == s.blocks;
        BrokenKept(s, full, skip, Malformed, full[end..]);
      }
    case Ended(_, _) =>
      assert s.blocks + [] == s.blocks;
      BrokenKept(s, full, skip, CutShort, full[at + 4..]);
    case _ =>
  }

  lemma ArrivedQueue(q: Stream.Queue, chunk: Option<seq<Byte>>, last: bool)
    requires Stream.Inv(q)
    ensures var r := Stream.Step(q, Stream.Arrived(chunk, last));
            && Stream.Inv(r) && r.taken == q.taken && r.log == q.log && q.stream <= r.stream && (q.done ==> r == q)
            && (q.waiter == None ==> r.waiter == None)
            && (q.waiter.Some? ==> r.waiter.Some? && r.waiter.value.wait == q.waiter.value.wait)
  {
    Stream.StepKeeps(q, Stream.Arrived(chunk, last));
    hide Stream.Inv;
  }

  lemma ArrivedPhase(s: State, r: Stream.Queue, full: seq<Byte>, skip: nat)
    requires PhaseKept(s, full, skip) && r.taken == s.queue.taken && r.log == s.queue.log && (s.queue.done ==> r == s.queue)
    requires s.queue.waiter == None ==> r.waiter == None
    requires s.queue.waiter.Some? ==> r.waiter.Some? && r.waiter.value.wait == s.queue.waiter.value.wait
    ensures PhaseKept(s.(queue := r), full, skip)
  {
    hide Drain, DrainRest, InCall, Data, Join;
    if s.phase.AwaitsLength? || s.phase.AwaitsBody? {
      SameCall(s, r, s.phase, full, skip, s.phase.at);
    }
  }

  lemma ArrivedKept(s: State, full: seq<Byte>, skip: nat, chunk: Option<seq<Byte>>, last: bool)
    requires Inv(s, full, skip) && Fits(Step(s, Arrived(chunk, last)).queue, full)
    ensures Inv(Step(s, Arrived(chunk, last)), full, skip)
  {
    var r := Stream.Step(s.queue, Stream.Arrived(chunk, last));
    hide Stream.Inv, Stream.Step, PhaseKept, Fits;
    ArrivedQueue(s.queue, chunk, last);
    ArrivedPhase(s, r, full, skip);
  }

  /** What waking does to a read, and to the initial discard. */
  predicate WokenTo(q: Stream.Queue, r: Stream.Queue) {
    && r.stream == q.stream && r.done == q.done && r.taken <= |r.stream|
    && (q.waiter == None ==> r == q)
    && (q.waiter.Some? && q.waiter.value.wait.DiscardWait? && r.waiter.Some? ==>
          && r.waiter.value.wait.DiscardWait? && r.waiter.value.wait.start == q.waiter.value.wait.start
          && r.taken + r.waiter.value.wait.left == q.taken + q.waiter.value.wait.left)
    && (q.waiter.Some? && q.waiter.value.wait.DiscardWait? && r.waiter == None ==>
          var aim := q.taken + q.waiter.value.wait.left;
          r.taken == aim || (r.done && r.taken == |r.stream| < aim))
  }

  lemma WokenQueue(q: Stream.Queue)
    requires Stream.Inv(q)
    ensures var r := Stream.Step(q, Stream.Woken);
            Stream.Inv(r) && WokenTo(q, r) && forall at, need :: Awaits(q, at, need) ==> Awaits(r, at, need)
  {
    Stream.StepKeeps(q, Stream.Woken);
    InvBounded(q);
    InvBounded(Stream.Step(q, Stream.Woken));
    hide Stream.Inv;
  }

  /** The discard is over: the blocks begin here. */
  lemma DiscardDone(s: State, q: Stream.Queue, full: seq<Byte>, skip: nat)
    requires s.batches == [] && Fits(q, full) && q.waiter == None && q.taken <= |q.stream|
    requires q.taken == skip || (q.done && q.taken == |q.stream| < skip)
    ensures Between(s.(queue := q), full, skip)
  {
    hide Drain, DrainRest;
    var d := Drain(Data(full, skip));
    assert [] + d.0 == d.0;
  }

  lemma WokenPhase(s: State, r: Stream.Queue, full: seq<Byte>, skip: nat)
    requires PhaseKept(s, full, skip) && Fits(r, full) && WokenTo(s.queue, r)
    requires forall at, need :: Awaits(s.queue, at, need) ==> Awaits(r, at, need)
    ensures PhaseKept(s.(queue := r), full, skip)
  {
    hide Drain, DrainRest, InCall, Data, Join, Awaits;
    match s.phase
    case AwaitsLength(at) => SameCall(s, r, s.phase, full, skip, at);
    case AwaitsBody(at, _) => SameCall(s, r, s.phase, full, skip, at);
    case Idle =>
      if Discarding(s, skip) && r.waiter == None {
        hide Fits;
        DiscardDone(s, r, full, skip);
      }
    case Over(_) =>
  }

  lemma WokenKept(s: State, full: seq<Byte>, skip: nat)
    requires Inv(s, full, skip)
    ensures Inv(Step(s, Woken), full, skip)
  {
    var r := Stream.Step(s.queue, Stream.Woken);
    hide Stream.Inv, Stream.Step, PhaseKept;
    WokenQueue(s.queue);
    WokenPhase(s, r, full, skip);
  }

  lemma StepKept(s: State, full: seq<Byte>, skip: nat, e: Event)
    requires Inv(s, full, skip) && Fits(Step(s, e).queue, full)
    ensures Inv(Step(s, e), full, skip)
  {
    match e
    case Arrived(chunk, last) => ArrivedKept(s, full, skip, chunk, last);
    case Woken => WokenKept(s, full, skip);
    case Asked =>
      hide Inv, Ask;
      AskKept(s, full, skip);
    case Resumed =>
      if s.queue.waiter == None && s.phase.AwaitsLength? {
        LengthKept(s, full, skip);
      } else if s.queue.waiter == None && s.phase.AwaitsBody? {
        BodyKept(s, full, skip);
      }
  }

  lemma {:induction false} RunKept(s: State, full: seq<Byte>, skip: nat, events: seq<Event>)
    requires Inv(s, full, skip) && Fits(RunFrom(s, events).queue, full)
    ensures Inv(RunFrom(s, events), full, skip)
    decreases |events|
  {
    InvRuns(s, full, skip);
    hide Inv, Step, Runs;
    if events == [] {
    } else {
      var next := Step(s, events[0]);
      StepGrows(s, events[0]);
      RunGrows(next, events[1..]);
      StepKept(s, full, skip, events[0]);
      RunKept(next, full, skip, events[1..]);
    }
  }

  lemma InvRuns(s: State, full: seq<Byte>, skip: nat)
    requires Inv(s, full, skip)
    ensures Runs(s)
  {
  }

  /**
   Whatever the order in which chunks arrive, calls are made and code goes on, and
   however the stream is cut into chunks: what has been delivered is the beginning
   of what the complete stream gives, batch by batch; when the syncer is over it is
   all of it, with that ending; and the blocks are those of one pass.
   */
  lemma DeliveredInEveryOrder(saved: seq<Byte>, skip: nat, events: seq<Event>, full: seq<Byte>)
    requires saved + Received(events) <= full && (Complete(events) ==> saved + Received(events) == full)
    ensures var s, data := RunFrom(Start(saved, skip), events), Data(full, skip);
            && s.batches <= Drain(data).0
            && (s.phase.Over? ==> Drain(data) == (s.batches, s.phase.ending))
            && (s.phase.Over? ==> OnePass(data, []).1 == s.phase.ending)
            && (s.phase.Over? ==> Concat(s.batches) == OnePass(data, []).0[..Delivered(|OnePass(data, []).0|, s.phase.ending)])
  {
    var first := Start(saved, skip);
    StartStream(saved, skip);
    hide Start, Drain, DrainRest, OnePass, Concat, Delivered;
    RunGrows(first, events);
    StartKept(saved, skip, full);
    RunKept(first, full, skip, events);
    hide RunFrom, Received, Complete, Batch, Data, DrainRest, Inv, Join;
    var s := RunFrom(first, events);
    DeliveredPrefix(s, full, skip);
    BatchesAreOnePass(Data(full, skip));
  }

  lemma DeliveredPrefix(s: State, full: seq<Byte>, skip: nat)
    requires Inv(s, full, skip)
    ensures s.batches <= Drain(Data(full, skip)).0
    ensures s.phase.Over? ==> Drain(Data(full, skip)) == (s.batches, s.phase.ending)
  {
    hide Stream.Inv, Fits, Drain, DrainRest, Data, Batch, Awaits, Prepend;
  }

  lemma StartStream(saved: seq<Byte>, skip: nat)
    ensures Start(saved, skip).queue.stream == saved && !Start(saved, skip).queue.done
  {
  }

  // ---------------------------------------------------------------- it ends

  /** Once the stream has ended: what is due next. */
  function Due(s: State): Event {
    if s.queue.waiter.Some? then Woken else if s.phase == Idle then Asked else Resumed
  }

  /** How far the call in progress, or the next one, has begun. */
  function From(s: State): nat {
    if s.phase == Idle then s.queue.taken else s.began
  }

  function Ahead(s: State, full: seq<Byte>): int {
    match s.phase
    case Idle => |full| + 1
    case AwaitsLength(at) => |full| - at
    case AwaitsBody(at, _) => |full| - at
    case Over(_) => 0
  }

  function Rank(s: State): nat {
    (if s.phase.AwaitsLength? then 2 else 0) + (if s.queue.waiter.Some? then 1 else 0)
  }

  predicate Nearer(r: State, s: State, full: seq<Byte>) {
    || r.phase.Over?
    || From(r) > From(s)
    || (From(r) == From(s) && Ahead(r, full) < Ahead(s, full))
    || (From(r) == From(s) && Ahead(r, full) == Ahead(s, full) && Rank(r) < Rank(s))
  }

  lemma WokenNearer(s: State, full: seq<Byte>, skip: nat)
    requires Inv(s, full, skip) && s.queue.done && s.queue.waiter.Some? && !s.phase.Over?
    ensures Nearer(Step(s, Woken), s, full)
  {
    hide Drain, DrainRest, InCall, Data, Join, Stream.Consecutive, Stream.EndsAtEnd, Stream.Accounted;
  }

  /** On an ended stream a read finishes at once. */
  lemma ReadEnds(q: Stream.Queue, need: nat)
    requires Stream.Inv(q) && q.done && q.waiter == None
    ensures var r := Stream.Step(q, Stream.ReadCalled(need)); r.waiter == None && r.done && r.taken >= q.taken
  {
  }

  lemma NextNearer(s: State, full: seq<Byte>)
    requires Stream.Inv(s.queue) && s.queue.done && s.queue.waiter == None && s.queue.taken <= |full|
    requires s.blocks != [] ==> s.began < s.queue.taken
    ensures var r := Next(s);
            r.phase.Over? || (r.phase == Idle && From(r) > s.began) || (r.phase == AwaitsLength(s.queue.taken) && From(r) == s.began)
  {
    ReadEnds(s.queue, 4);
    hide Stream.Inv, Stream.Step;
  }

  lemma ResumedNearer(s: State, full: seq<Byte>, skip: nat)
    requires Inv(s, full, skip) && s.queue.done && s.queue.waiter == None && (s.phase.AwaitsLength? || s.phase.AwaitsBody?)
    ensures Nearer(Step(s, Resumed), s, full)
  {
    hide Drain, DrainRest, Batch, Data, Join, Prepend, EndsBlock, IsTransaction, BlockOf, Next;
    InvBounded(s.queue);
    match s.queue.log[|s.queue.log| - 1]
    case Took(from, end) =>
      if s.phase.AwaitsLength? {
        ReadEnds(s.queue, FromLE(Cut(s.queue.stream, from, end)));
      } else {
        var p := Cut(s.queue.stream, from, end);
        NextNearer(s.(blocks := s.blocks + [BlockOf(s.txs, p)], txs := []), full);
        NextNearer(s.(txs := s.txs + [p]), full);
      }
      hide Stream.Inv, Stream.Step;
    case Ended(_, _) =>
    case _ =>
  }

  lemma DueNearer(s: State, full: seq<Byte>, skip: nat)
    requires Inv(s, full, skip) && s.queue.done && !s.phase.Over?
    ensures Nearer(Step(s, Due(s)), s, full)
  {
    if s.queue.waiter.Some? {
      WokenNearer(s, full, skip);
    } else if s.phase == Idle {
      NextNearer(s.(began := s.queue.taken, txs := [], blocks := []), full);
      hide Stream.Inv, Drain, DrainRest, Next;
    } else {
      ResumedNearer(s, full, skip);
    }
  }

  /** After the end of the stream the syncer ends too, whatever state it is in, if woken, asked and resumed when that is due. */
  lemma {:induction false} Ends(s: State, full: seq<Byte>, skip: nat) returns (events: seq<Event>)
    requires Inv(s, full, skip) && s.queue.done
    ensures Runs(s) && RunFrom(s, events).phase.Over? && Inv(RunFrom(s, events), full, skip)
    ensures forall e :: e in events ==> !e.Arrived?
    decreases |full| - From(s), Ahead(s, full), Rank(s)
  {
    InvRuns(s, full, skip);
    hide Inv, Step, From, Ahead, Rank, RunFrom, Runs;
    if s.phase.Over? {
      events := [];
      RunNothing(s);
    } else {
      var next := Step(s, Due(s));
      DueNearer(s, full, skip);
      StepGrows(s, Due(s));
      StepKept(s, full, skip, Due(s));
      PlaceBounded(s, full, skip);
      var more := [];
      RunNothing(next);
      if !next.phase.Over? {
        PlaceBounded(next, full, skip);
        more := Ends(next, full, skip);
      }
      events := [Due(s)] + more;
      RunOne(s, Due(s), more);
    }
  }

  lemma RunNothing(s: State)
    requires Runs(s)
    ensures RunFrom(s, []) == s
  {
  }

  lemma RunOne(s: State, e: Event, more: seq<Event>)
    requires Runs(s)
    ensures RunFrom(s, [e] + more) == RunFrom(Step(s, e), more)
  {
    assert ([e] + more)[1..] == more;
  }

  lemma PlaceBounded(s: State, full: seq<Byte>, skip: nat)
    requires Inv(s, full, skip) && !s.phase.Over?
    ensures From(s) <= |full| && 0 <= Ahead(s, full)
  {
    InvBounded(s.queue);
    hide Stream.Inv, Drain, DrainRest, Batch, Prepend, Data, Join;
  }

  lemma {:induction false} RunTwice(s: State, events: seq<Event>, more: seq<Event>)
    requires Runs(s)
    ensures RunFrom(s, events + more) == RunFrom(RunFrom(s, events), more)
    decreases |events|
  {
    hide Step, Runs;
    if events == [] {
      assert events + more == more;
    } else {
      assert (events + more)[1..] == events[1..] + more;
      RunTwice(Step(s, events[0]), events[1..], more);
    }
  }

  /** After any run in which the stream came to its end, the rest needs nothing more from the network, and delivers everything. */
  lemma EverythingDelivered(saved: seq<Byte>, skip: nat, events: seq<Event>) returns (more: seq<Event>)
    requires Complete(events)
    ensures forall e :: e in more ==> !e.Arrived?
    ensures var r := RunFrom(Start(saved, skip), events + more);
            r.phase.Over? && Drain(Data(saved + Received(events), skip)) == (r.batches, r.phase.ending)
  {
    var first, full := Start(saved, skip), saved + Received(events);
    StartStream(saved, skip);
    hide Start, Drain, DrainRest, Data;
    RunGrows(first, events);
    StartKept(saved, skip, full);
    RunKept(first, full, skip, events);
    more := Ends(RunFrom(first, events), full, skip);
    RunTwice(first, events, more);
    hide RunFrom, Received, Complete, Batch, Prepend, Awaits;
  }

  // ---------------------------------------------------------------- a second run

  /** `getReadBuffer`: what is saved at the end. */
  function Kept(s: State): seq<Byte> {
    if s.queue.taken <= |s.queue.stream| then s.queue.stream[..s.queue.taken] else []
  }

  lemma OverParts(s: State, full: seq<Byte>, skip: nat)
    requires Inv(s, full, skip) && s.phase.Over?
    ensures Fits(s.queue, full) && Ended(s, full, skip, s.phase.ending) && s.queue.taken <= |s.queue.stream|
  {
    InvBounded(s.queue);
    hide Stream.Inv, Fits, Ended;
  }

  lemma {:induction false} DrainWhole(b: seq<Byte>)
    requires WholeBlocks(b, [])
    ensures DrainRest(b) == []
    decreases |b|
  {
    BatchWhole(b, [], BATCH);
    var (blocks, stop, rest) := Batch(b, [], BATCH);
    hide Batch, WholeBlocks;
    if stop.AtEnd? && blocks != [] {
      EmptyRest();
    } else if stop.Full? {
      DrainWhole(rest);
    }
  }

  lemma EmptyRest()
    ensures DrainRest([]) == []
  {
  }

  /** A run to the end, over whole blocks, takes all there is, so that all is saved. */
  lemma AllSaved(saved: seq<Byte>, skip: nat, events: seq<Event>)
    requires Complete(events) && WholeBlocks(Data(saved + Received(events), skip), [])
    requires RunFrom(Start(saved, skip), events).phase.Over?
    ensures var s, full := RunFrom(Start(saved, skip), events), saved + Received(events);
            && s.phase.ending == Finished && Kept(s) == full
            && Concat(s.batches) == OnePass(Data(full, skip), []).0
  {
    var full := saved + Received(events);
    DeliveredInEveryOrder(saved, skip, events, full);
    WholeThen(Data(full, skip), [], []);
    DrainWhole(Data(full, skip));
    RunsToEnd(saved, skip, events);
    var s := RunFrom(Start(saved, skip), events);
    hide RunFrom, Start, Received, Complete, Inv, Drain, DrainRest, OnePass, Concat, WholeBlocks, Data;
    OverParts(s, full, skip);
  }

  lemma RunsToEnd(saved: seq<Byte>, skip: nat, events: seq<Event>)
    requires Complete(events)
    ensures Inv(RunFrom(Start(saved, skip), events), saved + Received(events), skip)
    ensures RunFrom(Start(saved, skip), events).queue.stream == saved + Received(events)
  {
    var first, full := Start(saved, skip), saved + Received(events);
    StartStream(saved, skip);
    hide Start, Drain, DrainRest, Data, Inv;
    RunGrows(first, events);
    StartKept(saved, skip, full);
    RunKept(first, full, skip, events);
  }

  /**
   A run to the end of whole blocks, and a second from what the first saved, with
   those bytes skipped: together they deliver what one pass over both streams gives.
   */
  lemma SavedAndResumed(saved: seq<Byte>, skip: nat, first: seq<Event>, second: seq<Event>)
    requires Complete(first) && WholeBlocks(Data(saved + Received(first), skip), [])
    requires RunFrom(Start(saved, skip), first).phase.Over?
    requires var kept := saved + Received(first); Complete(second) && RunFrom(Start(kept, |kept|), second).phase.Over?
    ensures var s := RunFrom(Start(saved, skip), first);
            var r := RunFrom(Start(Kept(s), |Kept(s)|), second);
            var data, own, more := Data(Kept(s), skip), OnePass(Data(Kept(s), skip), []).0, OnePass(Received(second), []).0;
            && r.phase.Over? && OnePass(data + Received(second), []) == (own + more, r.phase.ending)
            && Concat(s.batches) + Concat(r.batches) == own + more[..Delivered(|more|, r.phase.ending)]
  {
    AllSaved(saved, skip, first);
    var kept := saved + Received(first);
    var more := Received(second);
    DeliveredInEveryOrder(kept, |kept|, second, kept + more);
    assert Data(kept + more, |kept|) == more;
    WholeThen(Data(kept, skip), [], more);
    hide RunFrom, Start, Received, Complete, Drain, OnePass, Concat, WholeBlocks, Data, Delivered;
  }

  // ---------------------------------------------------------------- every fair continuation ends

  /** How many steps that are due a state is from the end, at most. */
  function Distance(s: State, full: seq<Byte>): int {
    if s.phase.Over? then 0 else (|full| - From(s)) * (4 * |full| + 8) + 4 * Ahead(s, full) + Rank(s) + 1
  }

  /** The steps of a continuation that are due when they come. */
  function DueSteps(s: State, events: seq<Event>): nat
    requires Runs(s)
    decreases |events|
  {
    if events == [] then 0
    else (if events[0] == Due(s) then 1 else 0) + DueSteps(Step(s, events[0]), events[1..])
  }

  lemma Lexical(a: nat, b: nat, c: nat, x: nat, y: nat, z: nat, k: nat)
    requires 4 * b + c + 1 <= k && z <= 3 && c <= 3
    requires a < x || (a == x && (b < y || (b == y && c < z)))
    ensures a * k + 4 * b + c + 1 < x * k + 4 * y + z + 1
  {
    if a < x {
      MulStep(a, x, k);
    }
  }

  lemma MulStep(a: nat, x: nat, k: nat)
    requires a < x
    ensures a * k + k <= x * k
  {
    assert x * k == (a + 1) * k + (x - a - 1) * k;
  }

  lemma NearerDistance(r: State, s: State, full: seq<Byte>)
    requires Nearer(r, s, full) && !s.phase.Over? && From(s) <= |full| && 0 <= Ahead(s, full) <= |full| + 1
    requires !r.phase.Over? ==> From(r) <= |full| && 0 <= Ahead(r, full) <= |full| + 1
    ensures 0 <= Distance(r, full) < Distance(s, full)
  {
    DistancePositive(s, full);
    if !r.phase.Over? {
      DistancePositive(r, full);
      Lexical(|full| - From(r), Ahead(r, full), Rank(r), |full| - From(s), Ahead(s, full), Rank(s), 4 * |full| + 8);
    }
  }

  lemma PlaceLow(s: State, full: seq<Byte>, skip: nat)
    requires Inv(s, full, skip) && !s.phase.Over?
    ensures From(s) <= |full| && 0 <= Ahead(s, full) <= |full| + 1
  {
    PlaceBounded(s, full, skip);
    hide Inv;
  }

  /** A step that is not due changes nothing but the count of naps. */
  lemma NotDue(s: State, e: Event)
    requires Runs(s) && !e.Arrived? && e != Due(s) && !s.phase.Over?
    ensures Step(s, e) == s.(naps := Step(s, e).naps)
  {
    hide Stream.TryRead, Stream.TryDiscard;
  }

  lemma OverStays(s: State, e: Event)
    requires Runs(s) && s.phase.Over?
    ensures Step(s, e).phase == s.phase
  {
    hide Stream.Step;
  }

  lemma {:induction false} OverForGood(s: State, events: seq<Event>)
    requires Runs(s) && s.phase.Over?
    ensures RunFrom(s, events).phase.Over?
    decreases |events|
  {
    hide Step, Runs;
    if events == [] {
    } else {
      OverStays(s, events[0]);
      OverForGood(Step(s, events[0]), events[1..]);
    }
  }

  /** After the end of the stream every continuation in which enough steps come when they are due ends the syncer. */
  lemma {:induction false} EveryFairRunEnds(s: State, full: seq<Byte>, skip: nat, events: seq<Event>)
    requires Inv(s, full, skip) && s.queue.done && forall i :: 0 <= i < |events| ==> !events[i].Arrived?
    requires Runs(s) && DueSteps(s, events) >= Distance(s, full)
    ensures RunFrom(s, events).phase.Over?
    decreases |events|
  {
    assert Fits(s.queue, full);
    hide Inv, Step, Runs, From, Ahead, Rank, Distance;
    if s.phase.Over? {
      OverForGood(s, events);
    } else {
      PlaceLow(s, full, skip);
      DistancePositive(s, full);
      assert events != [];
      var e, next := events[0], Step(s, events[0]);
      StepGrows(s, e);
      StepKept(s, full, skip, e);
      if e == Due(s) {
        DueNearer(s, full, skip);
        if !next.phase.Over? {
          PlaceLow(next, full, skip);
        }
        NearerDistance(next, s, full);
      } else {
        NotDue(s, e);
        SameDistance(s, next, full);
      }
      EveryFairRunEnds(next, full, skip, events[1..]);
    }
  }

  lemma DistancePositive(s: State, full: seq<Byte>)
    requires !s.phase.Over? && From(s) <= |full| && 0 <= Ahead(s, full)
    ensures Distance(s, full) > 0
  {
    hide From, Ahead, Rank;
    assert (|full| - From(s)) * (4 * |full| + 8) >= 0;
  }

  lemma SameDistance(s: State, next: State, full: seq<Byte>)
    requires next == s.(naps := next.naps)
    ensures Distance(next, full) == Distance(s, full)
  {
  }

  /** From creation on: such a continuation of any run in which the stream ended delivers everything. */
  lemma FairRunsDeliver(saved: seq<Byte>, skip: nat, events: seq<Event>, more: seq<Event>)
    requires Complete(events) && forall i :: 0 <= i < |more| ==> !more[i].Arrived?
    requires DueSteps(RunFrom(Start(saved, skip), events), more) >= Distance(RunFrom(Start(saved, skip), events), saved + Received(events))
    ensures var r := RunFrom(Start(saved, skip), events + more);
            r.phase.Over? && Drain(Data(saved + Received(events), skip)) == (r.batches, r.phase.ending)
  {
    var full, s := saved + Received(events), RunFrom(Start(saved, skip), events);
    RunsToEnd(saved, skip, events);
    StartStream(saved, skip);
    RunTwice(Start(saved, skip), events, more);
    assert s.queue.done by { RunGrows(Start(saved, skip), events); }
    RunGrows(s, more);
    assert Fits(s.queue, full);
    hide RunFrom, Start, Received, Complete, Drain, DrainRest, Distance, DueSteps, Data, Inv;
    EveryFairRunEnds(s, full, skip, more);
    assert s.queue.stream + [] == s.queue.stream;
    RunKept(s, full, skip, more);
    OverParts(RunFrom(s, more), full, skip);
  }
}
