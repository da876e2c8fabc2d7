/**
 A byte queue filled by a stream and emptied by one reader at a time. A step is
 one stretch of code between two awaits; bytes arrive, calls are made and
 suspended calls are woken in any order.
 */
module StreamSpec {
  import opened Wrappers
  import opened Bytes

  /** A suspended call: a read, or a discard that began at `start`. */
  datatype Wait = ReadWait(need: nat) | DiscardWait(start: nat, left: nat)

  /** `notified`: the suspended call's promise is resolved, so it will run. */
  datatype Waiter = Waiter(wait: Wait, notified: bool)

  /** A finished call, by the positions in the stream it covers. `Ended` is a null read. */
  datatype Finished = Took(from: nat, to: nat) | Skipped(from: nat, to: nat, asked: nat) | Ended(at: nat, need: nat)

  datatype Queue = Queue(stream: seq<Byte>, taken: nat, done: bool, waiter: Option<Waiter>, log: seq<Finished>)

  function Initial(prefix: seq<Byte>): Queue {
    Queue(prefix, 0, false, None, [])
  }

  predicate Bounded(q: Queue) {
    q.taken <= |q.stream|
  }

  function Notify(q: Queue): Queue {
    if q.waiter.Some? then q.(waiter := Some(q.waiter.value.(notified := true))) else q
  }

  /** One pass of `read`'s loop. */
  function TryRead(q: Queue, need: nat): Queue
    requires Bounded(q)
  {
    if |q.stream| - q.taken >= need then
      q.(waiter := None, taken := q.taken + need, log := q.log + [Took(q.taken, q.taken + need)])
    else if q.done then q.(waiter := None, log := q.log + [Ended(q.taken, need)])
    else q.(waiter := Some(Waiter(ReadWait(need), false)))
  }

  /** One pass of `discard`'s loop. */
  function TryDiscard(q: Queue, start: nat, left: nat): Queue
    requires Bounded(q) && start <= q.taken
  {
    var count := if |q.stream| - q.taken < left then |q.stream| - q.taken else left;
    var moved := q.(taken := q.taken + count);
    if left - count == 0 || q.done then
      moved.(waiter := None, log := moved.log + [Skipped(start, moved.taken, moved.taken - start + (left - count))])
    else moved.(waiter := Some(Waiter(DiscardWait(start, left - count), false)))
  }

  datatype Event =
    | Arrived(chunk: Option<seq<Byte>>, last: bool)
    | ReadCalled(need: nat)
    | DiscardCalled(count: nat)
    | Woken

  predicate WaiterFits(q: Queue) {
    q.waiter.Some? && q.waiter.value.wait.DiscardWait? ==> q.waiter.value.wait.start <= q.taken
  }

  /** A call made while another is suspended throws and changes nothing. */
  function Step(q: Queue, e: Event): (r: Queue)
    requires Bounded(q) && WaiterFits(q)
    ensures Bounded(r) && WaiterFits(r)
  {
    match e
    case Arrived(chunk, last) =>
      if q.done then q
      else
        var filled := if chunk.Some? then Notify(q.(stream := q.stream + chunk.value)) else q;
        if last then Notify(filled.(done := true)) else filled
    case ReadCalled(need) => if q.waiter.Some? then q else TryRead(q, need)
    case DiscardCalled(count) => if q.waiter.Some? then q else TryDiscard(q, q.taken, count)
    case Woken =>
      if q.waiter.Some? && q.waiter.value.notified then
        match q.waiter.value.wait
        case ReadWait(need) => TryRead(q, need)
        case DiscardWait(start, left) => TryDiscard(q, start, left)
      else q
  }

  function Run(prefix: seq<Byte>, events: seq<Event>): (q: Queue)
    ensures Bounded(q) && WaiterFits(q)
  {
    if events == [] then Initial(prefix) else Step(Run(prefix, events[..|events| - 1]), events[|events| - 1])
  }

  // ---------------------------------------------------------------- what every run keeps

  /** Where the finished calls leave off. */
  function LoggedTo(log: seq<Finished>): nat {
    if log == [] then 0
    else
      match log[|log| - 1]
      case Took(_, to) => to
      case Skipped(_, to, _) => to
      case Ended(at, _) => at
  }

  /** A finished call takes up where the one before left off. */
  predicate Consecutive(log: seq<Finished>) {
    forall i :: 0 <= i < |log| ==>
      match log[i]
      case Took(from, to) => from == LoggedTo(log[..i]) && from <= to
      case Skipped(from, to, asked) => from == LoggedTo(log[..i]) && from <= to <= from + asked
      case Ended(at, _) => at == LoggedTo(log[..i])
  }

  /** A read came back empty, or a discard short, only where the complete stream could not satisfy it. */
  predicate EndsAtEnd(q: Queue) {
    forall i :: 0 <= i < |q.log| ==>
      match q.log[i]
      case Took(_, _) => true
      case Skipped(from, to, asked) => to < from + asked ==> q.done && to == |q.stream|
      case Ended(at, need) => q.done && |q.stream| < at + need
  }

  /** A suspended call that is not about to run could not go on if it did. */
  predicate NoLostWakeup(q: Queue) {
    q.waiter.Some? && !q.waiter.value.notified ==>
      && !q.done
      && match q.waiter.value.wait
         case ReadWait(need) => |q.stream| - q.taken < need
         case DiscardWait(_, left) => left > 0 && q.taken == |q.stream|
  }

  /** The calls account for every byte taken, once and in order. */
  predicate Accounted(q: Queue) {
    if q.waiter.Some? && q.waiter.value.wait.DiscardWait? then LoggedTo(q.log) == q.waiter.value.wait.start
    else LoggedTo(q.log) == q.taken
  }

  predicate Inv(q: Queue) {
    Bounded(q) && WaiterFits(q) && Consecutive(q.log) && EndsAtEnd(q) && NoLostWakeup(q) && Accounted(q)
  }

  lemma LogSnoc(log: seq<Finished>, f: Finished)
    requires Consecutive(log)
    requires match f
             case Took(from, to) => from == LoggedTo(log) && from <= to
             case Skipped(from, to, asked) => from == LoggedTo(log) && from <= to <= from + asked
             case Ended(at, _) => at == LoggedTo(log)
    ensures Consecutive(log + [f])
  {
    forall i | 0 <= i < |log| + 1 ensures (log + [f])[..i] == log[..i] {}
    assert log[..|log|] == log;
  }

  lemma TryReadKeeps(q: Queue, need: nat)
    requires Bounded(q) && Consecutive(q.log) && EndsAtEnd(q) && LoggedTo(q.log) == q.taken
    ensures Inv(TryRead(q, need))
  {
    if |q.stream| - q.taken >= need {
      LogSnoc(q.log, Took(q.taken, q.taken + need));
      hide Consecutive;
    } else if q.done {
      LogSnoc(q.log, Ended(q.taken, need));
      hide Consecutive;
    } else {
      hide Consecutive, EndsAtEnd, LoggedTo;
    }
  }

  lemma TryDiscardKeeps(q: Queue, start: nat, left: nat)
    requires Bounded(q) && start <= q.taken && Consecutive(q.log) && EndsAtEnd(q) && LoggedTo(q.log) == start
    ensures Inv(TryDiscard(q, start, left))
  {
    var r := TryDiscard(q, start, left);
    LogSnoc(q.log, Skipped(start, r.taken, r.taken - start + (left - (r.taken - q.taken))));
  }

  lemma StepKeeps(q: Queue, e: Event)
    requires Inv(q)
    ensures Inv(Step(q, e))
  {
    match e
    case Arrived(chunk, last) =>
    case ReadCalled(need) =>
      if q.waiter.None? { TryReadKeeps(q, need); }
    case DiscardCalled(count) =>
      if q.waiter.None? { TryDiscardKeeps(q, q.taken, count); }
    case Woken =>
      if q.waiter.Some? && q.waiter.value.notified {
        match q.waiter.value.wait
        case ReadWait(need) => TryReadKeeps(q, need);
        case DiscardWait(start, left) => TryDiscardKeeps(q, start, left);
      }
  }

  /** Everything that arrived: the prefix and the chunks up to the end of the stream. */
  function Sent(prefix: seq<Byte>, events: seq<Event>): seq<Byte> {
    if events == [] then prefix
    else
      var before := Sent(prefix, events[..|events| - 1]);
      var e := events[|events| - 1];
      if e.Arrived? && e.chunk.Some? && !Over(events[..|events| - 1]) then before + e.chunk.value else before
  }

  /** The stream has ended. */
  predicate Over(events: seq<Event>) {
    exists i :: 0 <= i < |events| && events[i].Arrived? && events[i].last
  }

  lemma OverSnoc(before: seq<Event>, e: Event)
    ensures Over(before + [e]) <==> Over(before) || (e.Arrived? && e.last)
  {
    var events := before + [e];
    if Over(before) {
      var i :| 0 <= i < |before| && before[i].Arrived? && before[i].last;
      assert events[i] == before[i];
    }
    if e.Arrived? && e.last {
      assert events[|before|] == e;
    }
    if Over(events) {
      var i :| 0 <= i < |events| && events[i].Arrived? && events[i].last;
      assert i < |before| ==> before[i] == events[i];
    }
  }

  lemma StepSends(q: Queue, e: Event)
    requires Bounded(q) && WaiterFits(q)
    ensures Step(q, e).stream == if e.Arrived? && e.chunk.Some? && !q.done then q.stream + e.chunk.value else q.stream
    ensures Step(q, e).done == (q.done || (e.Arrived? && e.last))
  {
  }

  /**
   In every interleaving the queue holds exactly what was sent, the calls
   deliver and discard it once and in order, nothing is reported missing before
   the stream has ended without it, and no suspended call sleeps through its bytes.
   */
  lemma {:induction false} RunKeeps(prefix: seq<Byte>, events: seq<Event>)
    ensures Inv(Run(prefix, events))
    ensures Run(prefix, events).stream == Sent(prefix, events) && Run(prefix, events).done == Over(events)
  {
    hide Inv, Step, Over;
    if events == [] {
      InitialInv(prefix);
    } else {
      var before, e := events[..|events| - 1], events[|events| - 1];
      RunKeeps(prefix, before);
      StepKeeps(Run(prefix, before), e);
      StepSends(Run(prefix, before), e);
      assert events == before + [e];
      OverSnoc(before, e);
    }
  }

  lemma InitialInv(prefix: seq<Byte>)
    ensures Inv(Initial(prefix)) && !Over([])
  {
  }

  /** Once the stream has ended, a call still suspended is about to run, and finishes when it does. */
  lemma EndFinishesEveryCall(prefix: seq<Byte>, events: seq<Event>)
    requires Over(events) && Run(prefix, events).waiter.Some?
    ensures Run(prefix, events).waiter.value.notified
    ensures Run(prefix, events + [Woken]).waiter == None && |Run(prefix, events + [Woken]).log| == |Run(prefix, events).log| + 1
  {
    hide Over;
    RunKeeps(prefix, events);
    assert (events + [Woken])[..|events|] == events;
  }
}
