/** The growing buffer behind the byte queue, and the views it hands out. */
module StreamReader {
  import opened Wrappers
  import opened Bytes
  import Spec = StreamSpec

  /** A part of an array, shared with the reader that returned it; `content` is what it showed then. */
  datatype View = View(memory: array<Byte>, from: nat, to: nat, content: seq<Byte>)

  datatype ReadOutcome = Delivered(view: View) | Null | Suspended | Refused

  class Reader {
    var buffer: array<Byte>
    var maxBytes: nat
    var i: nat
    var done: bool
    var waiter: Option<Spec.Waiter>
    ghost var log: seq<Spec.Finished>
    ghost var views: seq<View>

    ghost predicate Valid()
      reads this, buffer
    {
      && i <= maxBytes <= buffer.Length
      && Spec.WaiterFits(Queue())
    }

    ghost function Queue(): Spec.Queue
      reads this, buffer
    {
      Spec.Queue(if maxBytes <= buffer.Length then buffer[..maxBytes] else [], i, done, waiter, log)
    }

    /** Every view handed out still shows what it showed, and lies below the bytes still to be written. */
    ghost predicate ViewsIntact()
      reads this, set k | 0 <= k < |views| :: views[k].memory
    {
      forall k :: 0 <= k < |views| ==>
        && views[k].from <= views[k].to <= views[k].memory.Length
        && views[k].memory[views[k].from..views[k].to] == views[k].content
        && (views[k].memory == buffer ==> views[k].to <= i)
    }

    /** `capacity` is the announced content length, or 1024. */
    constructor (capacity: nat, prefix: seq<Byte>)
      ensures Valid() && ViewsIntact() && fresh(buffer) && views == []
      ensures Queue() == Spec.Initial(prefix)
    {
      buffer := new Byte[capacity + |prefix|](_ => 0);
      maxBytes, i, done, waiter := 0, 0, false, None;
      log, views := [], [];
      new;
      AppendBytes(prefix);
      assert [] + prefix == prefix;
    }

    /** `#resizeArray`: None of its callers can make it throw. */
    method ResizeArray(newLength: nat)
      requires Valid() && newLength > buffer.Length
      modifies this`buffer
      ensures fresh(buffer) && buffer.Length == newLength && Valid() && Queue() == old(Queue())
    {
      var newArray := new Byte[newLength](_ => 0);
      forall k | 0 <= k < buffer.Length {
        newArray[k] := buffer[k];
      }
      assert newArray[..maxBytes] == buffer[..maxBytes];
      buffer := newArray;
    }

    /** Bytes are written after those available; what lies below, and every view, is untouched. */
    method Set(bytes: seq<Byte>)
      requires Valid() && ViewsIntact() && maxBytes + |bytes| <= buffer.Length
      modifies buffer
      ensures ViewsIntact() && buffer[..maxBytes + |bytes|] == old(buffer[..maxBytes]) + bytes
    {
      forall k | 0 <= k < |bytes| {
        buffer[maxBytes + k] := bytes[k];
      }
      forall k | 0 <= k < |views| && views[k].memory == buffer ensures buffer[views[k].from..views[k].to] == views[k].content {
        assert buffer[views[k].from..views[k].to] == old(buffer[views[k].from..views[k].to]);
      }
    }

    method AppendBytes(bytes: seq<Byte>)
      requires Valid() && ViewsIntact()
      modifies this`buffer, this`maxBytes, this`waiter, buffer
      ensures Valid() && ViewsIntact() && (buffer == old(buffer) || fresh(buffer))
      ensures Queue() == Spec.Notify(old(Queue()).(stream := old(Queue()).stream + bytes))
    {
      if |bytes| + maxBytes > buffer.Length {
        ResizeArray((|bytes| + maxBytes) * 2);
        assert ViewsIntact();
      }
      hide ViewsIntact, Spec.WaiterFits;
      Set(bytes);
      maxBytes := maxBytes + |bytes|;
      if waiter.Some? {
        waiter := Some(waiter.value.(notified := true));
      }
    }

    /** One turn of the loop that pumps the stream. */
    method Arrive(chunk: Option<seq<Byte>>, last: bool)
      requires Valid() && ViewsIntact() && !done
      modifies this`buffer, this`maxBytes, this`waiter, this`done, buffer
      ensures Valid() && ViewsIntact() && (buffer == old(buffer) || fresh(buffer))
      ensures Queue() == Spec.Step(old(Queue()), Spec.Arrived(chunk, last))
    {
      if chunk.Some? {
        AppendBytes(chunk.value);
      }
      if last {
        done := true;
        if waiter.Some? {
          waiter := Some(waiter.value.(notified := true));
        }
      }
    }

    /** One pass of `read`'s loop. */
    method TryRead(need: nat) returns (r: ReadOutcome)
      requires Valid() && ViewsIntact()
      modifies this`i, this`waiter, this`log, this`views
      ensures Valid() && ViewsIntact() && Queue() == Spec.TryRead(old(Queue()), need) && old(views) <= views
      ensures r.Delivered? ==> r.view.content == Queue().stream[old(i)..i] && i == old(i) + need && views == old(views) + [r.view]
      ensures r.Null? <==> waiter == None && old(maxBytes - i) < need
      ensures r.Suspended? <==> waiter.Some?
      ensures !r.Refused?
    {
      if maxBytes - i >= need {
        waiter := None;
        var view := View(buffer, i, i + need, buffer[i..i + need]);
        assert buffer[..maxBytes][i..i + need] == buffer[i..i + need];
        log := log + [Spec.Took(i, i + need)];
        i := i + need;
        views := views + [view];
        return Delivered(view);
      }
      if done {
        waiter := None;
        log := log + [Spec.Ended(i, need)];
        return Null;
      }
      waiter := Some(Spec.Waiter(Spec.ReadWait(need), false));
      r := Suspended;
    }

    /** One pass of `discard`'s loop; `start` is where the call began. */
    method TryDiscard(start: nat, count: nat)
      requires Valid() && ViewsIntact() && start <= i
      modifies this`i, this`waiter, this`log
      ensures Valid() && ViewsIntact() && Queue() == Spec.TryDiscard(old(Queue()), start, count)
    {
      var discarded := if maxBytes - i < count then maxBytes - i else count;
      i := i + discarded;
      var left := count - discarded;
      if left == 0 || done {
        waiter := None;
        log := log + [Spec.Skipped(start, i, i - start + left)];
        return;
      }
      waiter := Some(Spec.Waiter(Spec.DiscardWait(start, left), false));
    }

    /** `read`, up to its first await. */
    method Read(need: nat) returns (r: ReadOutcome)
      requires Valid() && ViewsIntact()
      modifies this`i, this`waiter, this`log, this`views
      ensures Valid() && ViewsIntact() && Queue() == Spec.Step(old(Queue()), Spec.ReadCalled(need)) && old(views) <= views
      ensures r.Refused? <==> old(waiter).Some?
      ensures r.Delivered? ==> r.view.content == Queue().stream[old(i)..i] && i == old(i) + need
    {
      if waiter.Some? {
        return Refused;
      }
      r := TryRead(need);
    }

    /** `discard`, up to its first await. */
    method Discard(count: nat)
      requires Valid() && ViewsIntact()
      modifies this`i, this`waiter, this`log
      ensures Valid() && ViewsIntact() && Queue() == Spec.Step(old(Queue()), Spec.DiscardCalled(count))
    {
      if waiter.Some? {
        return;
      }
      TryDiscard(i, count);
    }

    /** A suspended call goes on. */
    method Wake() returns (r: ReadOutcome)
      requires Valid() && ViewsIntact() && waiter.Some? && waiter.value.notified
      modifies this`i, this`waiter, this`log, this`views
      ensures Valid() && ViewsIntact() && Queue() == Spec.Step(old(Queue()), Spec.Woken) && old(views) <= views
      ensures r.Delivered? ==> r.view.content == Queue().stream[old(i)..i]
    {
      match waiter.value.wait
      case ReadWait(need) => r := TryRead(need);
      case DiscardWait(start, left) =>
        TryDiscard(start, left);
        r := Suspended;
    }

    /** `getReadBuffer`: everything read or discarded so far. */
    method GetReadBuffer() returns (bytes: seq<Byte>)
      requires Valid()
      ensures bytes == Queue().stream[..Queue().taken]
    {
      bytes := buffer[..i];
      assert buffer[..maxBytes][..i] == buffer[..i];
    }
  }
}
