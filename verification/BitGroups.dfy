/**
 Regrouping bits between digit widths: the declarative meaning, the 32-bit
 accumulator loop that implements it, and the inverse pair 8 -> 5 and 5 -> 8.
 */
module BitGroups {
  import opened Words
  import opened Wrappers

  function AllZero(s: seq<bool>): bool {
    forall i :: 0 <= i < |s| ==> !s[i]
  }

  function PadLength(n: nat, to: nat): (z: nat)
    requires to > 0
    ensures z < to
  {
    if n % to == 0 then 0 else to - n % to
  }

  /** The bits cut into groups, the last one filled up with zeros. */
  function CutPadded(s: seq<bool>, to: nat): seq<nat>
    requires to > 0
  {
    Pack(s + Zeros(PadLength(|s|, to)), to)
  }

  /** The bits cut into groups; fewer than `from` bits may be left over, all zero. */
  function CutExact(s: seq<bool>, from: nat, to: nat): Option<seq<nat>>
    requires to > 0
  {
    var left := |s| % to;
    if left >= from || !AllZero(s[|s| - left..]) then None else Some(Pack(s[..|s| - left], to))
  }

  /** What regrouping means: the same bits, cut at the new width. */
  function Regroup(data: seq<nat>, from: nat, to: nat, pad: bool): Option<seq<nat>>
    requires to > 0
  {
    if exists i :: 0 <= i < |data| && data[i] >= Pow2(from) then None
    else if pad then Some(CutPadded(Unpack(data, from), to))
    else CutExact(Unpack(data, from), from, to)
  }

  // ---------------------------------------------------------------- the accumulator loop

  function Or(a: nat, b: nat): nat
    decreases a + b
  {
    if a == 0 && b == 0 then 0
    else (if a % 2 == 1 || b % 2 == 1 then 1 else 0) + 2 * Or(a / 2, b / 2)
  }

  /** JavaScript's `acc << k` read as an unsigned word: the count is taken modulo 32. */
  function ShiftLeft(acc: nat, k: nat): nat {
    Low(Shl(acc, k % 32), 32)
  }

  /** `acc >>> k`. */
  function ShiftRight(acc: nat, k: nat): nat {
    Shr(acc, k % 32)
  }

  /** `x & maxValue`: at 32 bits the result is a signed number. */
  function Mask(x: nat, w: nat): int {
    if w == 32 && Low(x, 32) >= Pow2(31) then Low(x, 32) - Pow2(32) else Low(x, w)
  }

  /** The loop's variables. */
  datatype Groups = Groups(out: seq<int>, acc: nat, bits: nat)

  /** The inner loop. */
  function Emit(s: Groups, to: nat): (r: Groups)
    requires to > 0
    ensures r.bits < to && r.acc == s.acc && |r.out| >= |s.out|
    decreases s.bits
  {
    if s.bits < to then s
    else Emit(Groups(s.out + [Mask(ShiftRight(s.acc, s.bits - to), to)], s.acc, s.bits - to), to)
  }

  /** The outer loop; None where a value is refused. */
  function Feed(data: seq<int>, from: nat, to: nat): (r: Option<Groups>)
    requires to > 0
    ensures r.Some? ==> r.value.bits < to
  {
    if data == [] then Some(Groups([], 0, 0))
    else
      var last := data[|data| - 1];
      match Feed(data[..|data| - 1], from, to)
      case None => None
      case Some(s) =>
        if last < 0 || last >= Pow2(from) then None
        else Some(Emit(Groups(s.out, Or(ShiftLeft(s.acc, from), last), s.bits + from), to))
  }

  /** `convertBits`: None where it throws. */
  function Convert(data: seq<int>, from: int, to: int, pad: bool): Option<seq<int>> {
    if from < 1 || from > 32 || to < 1 || to > 32 then None
    else
      match Feed(data, from, to)
      case None => None
      case Some(s) =>
        var tail := Mask(ShiftLeft(s.acc, to - s.bits), to);
        if pad then Some(if s.bits > 0 then s.out + [tail] else s.out)
        else if s.bits >= from || tail != 0 then None
        else Some(s.out)
  }

  lemma {:induction false} FeedRefused(data: seq<int>, n: nat, from: nat, to: nat)
    requires to > 0 && n <= |data| && Feed(data[..n], from, to) == None
    ensures Feed(data, from, to) == None
    decreases |data|
  {
    if n == |data| {
      assert data[..n] == data;
    } else {
      assert data[..|data| - 1][..n] == data[..n];
      FeedRefused(data[..|data| - 1], n, from, to);
    }
  }

  method ConvertBits(data: seq<int>, from: int, to: int, pad: bool) returns (r: Option<seq<int>>)
    ensures r == Convert(data, from, to, pad)
  {
    hide Or, ShiftLeft, ShiftRight, Mask, Pow2;
    if from < 1 || from > 32 || to < 1 || to > 32 {
      return None;
    }
    var acc: nat, bits: nat := 0, 0;
    var out: seq<int> := [];
    for n := 0 to |data|
      invariant Feed(data[..n], from, to) == Some(Groups(out, acc, bits))
    {
      assert data[..n + 1][..n] == data[..n];
      if data[n] < 0 || data[n] >= Pow2(from) {
        FeedRefused(data, n + 1, from, to);
        return None;
      }
      acc := Or(ShiftLeft(acc, from), data[n]);
      bits := bits + from;
      while bits >= to
        invariant Feed(data[..n + 1], from, to) == Some(Emit(Groups(out, acc, bits), to))
        decreases bits
      {
        bits := bits - to;
        out := out + [Mask(ShiftRight(acc, bits), to)];
      }
    }
    assert data[..|data|] == data;
    var tail := Mask(ShiftLeft(acc, to - bits), to);
    if pad {
      if bits > 0 {
        out := out + [tail];
      }
    } else if bits >= from || tail != 0 {
      return None;
    }
    return Some(out);
  }

  // ---------------------------------------------------------------- the widths at which it regroups

  function Gcd(a: nat, b: nat): nat
    decreases b
  {
    if b == 0 then a else Gcd(b, a % b)
  }

  /**
   The accumulator holds at most to - gcd(from, to) bits between values, so
   these are the widths at which no live bit is ever shifted out.
   */
  predicate ExactWidths(from: int, to: int) {
    1 <= from <= 31 && 1 <= to <= 31 && from + to - Gcd(from, to) <= 32
  }

  ghost predicate Multiple(x: int, g: nat) {
    exists q: int :: x == g * q
  }

  lemma {:induction false} GcdDivides(a: nat, b: nat)
    requires a > 0
    ensures Gcd(a, b) > 0 && Multiple(a, Gcd(a, b)) && Multiple(b, Gcd(a, b))
    decreases b
  {
    if b == 0 {
      assert a == a * 1 && 0 == a * 0;
    } else {
      GcdDivides(b, a % b);
      var g := Gcd(a, b);
      var q :| b == g * q;
      var r :| a % b == g * r;
      Combine(g, q, r, a / b);
      assert a == g * (q * (a / b) + r);
    }
  }

  lemma Combine(g: int, q: int, r: int, k: int)
    ensures g * q * k + g * r == g * (q * k + r)
  {
  }

  lemma MultipleSum(x: int, y: int, g: nat)
    requires Multiple(x, g) && Multiple(y, g)
    ensures Multiple(x + y, g) && Multiple(x - y, g)
  {
    var p :| x == g * p;
    var q :| y == g * q;
    assert x + y == g * (p + q) && x - y == g * (p - q);
  }

  lemma MultipleBelow(x: int, y: int, g: nat)
    requires Multiple(x, g) && Multiple(y, g) && x < y
    ensures x + g <= y
  {
    MultipleSum(y, x, g);
    var d :| y - x == g * d;
    if d >= 1 {
      MulAtLeast(g, d);
    } else {
      NotPositive(g, d);
    }
  }

  lemma NotPositive(g: nat, d: int)
    requires d <= 0
    ensures g * d <= 0
  {
  }

  /** The groups written and the live accumulator bits are the bits read so far. */
  ghost predicate Regrouping(out: seq<nat>, acc: nat, bits: nat, data: seq<nat>, from: nat, to: nat) {
    && Digits(out, to)
    && Digits(data, from)
    && Unpack(out, to) + ToBits(acc, bits) == Unpack(data, from)
  }

  lemma TakeValue(out: seq<nat>, acc: nat, bits: nat, data: seq<nat>, value: nat, from: nat, to: nat)
    requires 1 <= from <= 31 && bits + from <= 32 && value < Pow2(from)
    requires Regrouping(out, acc, bits, data, from, to)
    ensures Regrouping(out, Or(ShiftLeft(acc, from), value), bits + from, data + [value], from, to)
  {
    AppendBits(acc, value, bits, from);
    UnpackSnoc(data, value, from);
    ConcatAssoc(Unpack(out, to), ToBits(acc, bits), ToBits(value, from));
  }

  lemma EmitGroup(out: seq<nat>, acc: nat, bits: nat, data: seq<nat>, from: nat, to: nat)
    requires to <= 31 && bits >= to
    requires Regrouping(out, acc, bits, data, from, to)
    ensures Regrouping(out + [Low(Shr(acc, bits - to), to)], acc, bits - to, data, from, to)
  {
    TakeGroup(acc, to, bits - to);
    var group := Low(Shr(acc, bits - to), to);
    UnpackSnoc(out, group, to);
    Shuffle(Unpack(out, to), ToBits(group, to), ToBits(acc, bits - to), ToBits(acc, bits), Unpack(data, from));
  }

  lemma Shuffle(u: seq<bool>, g: seq<bool>, r: seq<bool>, live: seq<bool>, s: seq<bool>)
    requires live == g + r && u + live == s
    ensures (u + g) + r == s
  {
  }

  lemma {:induction false} EmitAll(out: seq<nat>, acc: nat, bits: nat, data: seq<nat>, from: nat, to: nat) returns (all: seq<nat>)
    requires 1 <= to <= 31 && bits <= 32 && Regrouping(out, acc, bits, data, from, to)
    ensures var r := Emit(Groups(out, acc, bits), to);
            r.out == all && Regrouping(all, acc, r.bits, data, from, to) && Multiple(bits - r.bits, to)
    decreases bits
  {
    hide Regrouping, ShiftRight, Multiple, Low, Shr;
    if bits < to {
      all := out;
      MultipleOfNothing(to);
    } else {
      EmitGroup(out, acc, bits, data, from, to);
      SmallShift(acc, bits - to, to);
      all := EmitAll(out + [Low(Shr(acc, bits - to), to)], acc, bits - to, data, from, to);
      MultipleOfItself(to);
      MultipleSum(bits - to - Emit(Groups(out, acc, bits), to).bits, to, to);
    }
  }

  lemma SmallShift(acc: nat, k: nat, w: nat)
    requires k < 32 && w < 32
    ensures Mask(ShiftRight(acc, k), w) == Low(Shr(acc, k), w)
  {
    hide Low, Shr, Pow2;
  }

  lemma MultipleOfNothing(g: nat)
    ensures Multiple(0, g)
  {
    assert 0 == g * 0;
  }

  lemma MultipleOfItself(g: nat)
    ensures Multiple(g, g)
  {
    assert g == g * 1;
  }

  lemma MultipleOfMultiple(x: int, y: nat, g: nat)
    requires Multiple(x, y) && Multiple(y, g)
    ensures Multiple(x, g)
  {
    var p :| x == y * p;
    var q :| y == g * q;
    Regrouped(g, q, p);
    assert x == g * (q * p);
  }

  lemma Regrouped(g: int, q: int, p: int)
    ensures g * q * p == g * (q * p)
  {
  }

  lemma FeedSnoc(data: seq<nat>, value: nat, from: nat, to: nat)
    requires to > 0 && value < Pow2(from)
    ensures Feed(data + [value], from, to) ==
            match Feed(data, from, to)
            case None => None
            case Some(s) => Some(Emit(Groups(s.out, Or(ShiftLeft(s.acc, from), value), s.bits + from), to))
  {
    hide Or, ShiftLeft, Emit, Pow2;
    assert (data + [value])[..|data|] == data;
  }

  /** One more value at exact widths. */
  lemma ValueExact(out: seq<nat>, s: Groups, data: seq<nat>, value: nat, from: nat, to: nat) returns (all: seq<nat>)
    requires ExactWidths(from, to) && value < Pow2(from) && s.out == out && s.bits < to
    requires Regrouping(out, s.acc, s.bits, data, from, to) && Multiple(s.bits, Gcd(from, to))
    ensures var r := Emit(Groups(out, Or(ShiftLeft(s.acc, from), value), s.bits + from), to);
            r.out == all && Regrouping(all, r.acc, r.bits, data + [value], from, to) && Multiple(r.bits, Gcd(from, to))
  {
    hide Or, ShiftLeft, Gcd, Pow2, Multiple, Emit, Regrouping;
    var g := Gcd(from, to);
    GcdDivides(from, to);
    MultipleBelow(s.bits, to, g);
    TakeValue(out, s.acc, s.bits, data, value, from, to);
    var acc := Or(ShiftLeft(s.acc, from), value);
    all := EmitAll(out, acc, s.bits + from, data + [value], from, to);
    var left := Emit(Groups(out, acc, s.bits + from), to).bits;
    MultipleOfMultiple(s.bits + from - left, to, g);
    MultipleSum(s.bits, from, g);
    MultipleSum(s.bits + from, s.bits + from - left, g);
  }

  lemma NothingFed(from: nat, to: nat)
    requires to > 0
    ensures Feed([], from, to) == Some(Groups([], 0, 0)) && Regrouping([], 0, 0, [], from, to)
  {
  }

  /** At exact widths the loop keeps every bit, and a multiple of the common divisor is left. */
  lemma {:induction false} FeedExact(data: seq<nat>, from: nat, to: nat) returns (out: seq<nat>)
    requires ExactWidths(from, to) && Digits(data, from)
    ensures Feed(data, from, to).Some?
    ensures var s := Feed(data, from, to).value;
            s.out == out && Regrouping(out, s.acc, s.bits, data, from, to) && Multiple(s.bits, Gcd(from, to))
  {
    hide Or, ShiftLeft, Gcd, Pow2, Multiple, Emit, Regrouping, Digits, Feed;
    if data == [] {
      out := [];
      NothingFed(from, to);
      MultipleOfNothing(Gcd(from, to));
    } else {
      var init, last := data[..|data| - 1], data[|data| - 1];
      assert data == init + [last];
      PrefixDigits(init, last, from);
      out := FeedExact(init, from, to);
      FeedSnoc(init, last, from, to);
      out := ValueExact(out, Feed(init, from, to).value, init, last, from, to);
    }
  }

  lemma {:induction false} FeedSome(data: seq<nat>, from: nat, to: nat)
    requires to > 0
    ensures Feed(data, from, to).Some? <==> Digits(data, from)
  {
    if data == [] {
    } else {
      FeedSome(data[..|data| - 1], from, to);
      assert data == data[..|data| - 1] + [data[|data| - 1]];
    }
  }

  /** The wrapping loop regroups, at these widths, whatever the data and padding. */
  lemma ConvertExact(data: seq<nat>, from: int, to: int, pad: bool)
    requires ExactWidths(from, to)
    ensures Convert(data, from, to, pad) == Regroup(data, from, to, pad)
  {
    hide Feed, Regrouping, ShiftLeft, Low, Unpack, Pow2, Gcd;
    FeedSome(data, from, to);
    if Digits(data, from) {
      var out := FeedExact(data, from, to);
      var s := Feed(data, from, to).value;
      Finish(out, s.acc, s.bits, data, from, to);
      assert Mask(ShiftLeft(s.acc, to - s.bits), to) == Low(ShiftLeft(s.acc, to - s.bits), to);
    }
  }

  /** The loop's final state read as the declarative result, with and without padding. */
  lemma Finish(out: seq<nat>, acc: nat, bits: nat, data: seq<nat>, from: nat, to: nat)
    requires 1 <= to <= 31 && bits < to
    requires Regrouping(out, acc, bits, data, from, to)
    ensures var tail := Low(ShiftLeft(acc, to - bits), to);
            && Regroup(data, from, to, true) == Some(if bits > 0 then out + [tail] else out)
            && Regroup(data, from, to, false) == if bits >= from || tail != 0 then None else Some(out)
  {
    UnpackLength(out, to);
    TailBits(acc, bits, to);
    FinishPadded(out, Low(ShiftLeft(acc, to - bits), to), ToBits(acc, bits), to);
    FinishExact(out, ToBits(acc, bits), from, to);
  }

  lemma LiveLength(head: seq<bool>, live: seq<bool>, n: nat, to: nat)
    requires |live| < to && |head| == n * to
    ensures |head + live| % to == |live|
    ensures PadLength(|head + live|, to) == if |live| > 0 then to - |live| else 0
  {
    Remainder(n, to, |live|);
  }

  lemma FinishExact(out: seq<nat>, live: seq<bool>, from: nat, to: nat)
    requires Digits(out, to) && |live| < to
    ensures CutExact(Unpack(out, to) + live, from, to) ==
            if |live| >= from || !AllZero(live) then None else Some(out)
  {
    var head := Unpack(out, to);
    UnpackLength(out, to);
    LiveLength(head, live, |out|, to);
    PackOfUnpack(out, to);
    var s := head + live;
    assert s[..|s| - |live|] == head && s[|s| - |live|..] == live;
  }

  lemma FinishPadded(out: seq<nat>, tail: nat, live: seq<bool>, to: nat)
    requires Digits(out, to) && tail < Pow2(to) && |live| < to
    requires ToBits(tail, to) == live + Zeros(to - |live|)
    ensures CutPadded(Unpack(out, to) + live, to) == if |live| > 0 then out + [tail] else out
  {
    UnpackLength(out, to);
    LiveLength(Unpack(out, to), live, |out|, to);
    FillGroup(out, tail, live, to);
  }

  lemma FillGroup(out: seq<nat>, tail: nat, live: seq<bool>, to: nat)
    requires Digits(out, to) && tail < Pow2(to) && |live| < to
    requires ToBits(tail, to) == live + Zeros(to - |live|)
    ensures |live| > 0 ==> Pack(Unpack(out, to) + live + Zeros(to - |live|), to) == out + [tail]
    ensures |live| == 0 ==> Pack(Unpack(out, to) + live + Zeros(0), to) == out
  {
    var head := Unpack(out, to);
    PackOfUnpack(out, to);
    PackSnoc(head, ToBits(tail, to), to);
    BitsOfNumber(tail, to);
    ConcatAssoc(head, live, Zeros(to - |live|));
    if |live| == 0 {
      assert head + live + Zeros(0) == head;
    }
  }

  lemma {:induction false} OrIsPlus(x: nat, v: nat, k: nat)
    requires v < Pow2(k)
    ensures Or(Shl(x, k), v) == Shl(x, k) + v
    decreases k
  {
    if k == 0 {
      OrZero(x);
    } else {
      OrIsPlus(x, v / 2, k - 1);
      var a := Shl(x, k - 1);
      assert (2 * a) / 2 == a;
    }
  }

  lemma {:induction false} OrZero(a: nat)
    ensures Or(a, 0) == a
  {
    if a == 0 {
    } else {
      OrZero(a / 2);
    }
  }

  /** Shifting left and keeping m + k bits keeps the low m bits. */
  lemma {:induction false} LowOfShl(x: nat, m: nat, k: nat)
    ensures Low(Shl(x, k), m + k) == Shl(Low(x, m), k)
  {
    if k == 0 {
    } else {
      LowOfShl(x, m, k - 1);
      var a := Shl(x, k - 1);
      assert (2 * a) / 2 == a;
    }
  }

  /** The low from bits of a shifted accumulator are clear, and only high bits fall off. */
  lemma ShiftLeftExact(acc: nat, from: nat)
    requires from < 32
    ensures ShiftLeft(acc, from) == Shl(Low(acc, 32 - from), from)
  {
    LowOfShl(acc, 32 - from, from);
  }

  lemma AppendBits(acc: nat, value: nat, bits: nat, from: nat)
    requires 1 <= from <= 31 && bits + from <= 32 && value < Pow2(from)
    ensures ToBits(Or(ShiftLeft(acc, from), value), bits + from) == ToBits(acc, bits) + ToBits(value, from)
  {
    ShiftLeftExact(acc, from);
    var x := Low(acc, 32 - from);
    OrIsPlus(x, value, from);
    BitsConcat(x, value, bits, from);
    BitsOfLow(acc, 32 - from, bits);
  }

  lemma TakeGroup(acc: nat, to: nat, rest: nat)
    requires to < 32
    ensures ToBits(acc, to + rest) == ToBits(Low(Shr(acc, rest), to), to) + ToBits(acc, rest)
    ensures Low(Shr(acc, rest), to) < Pow2(to)
  {
    BitsSplit(acc, to, rest);
    BitsOfLow(Shr(acc, rest), to, to);
    BitsOfLow(acc, rest, rest);
    LowBound(Shr(acc, rest), to);
  }

  lemma TailBits(acc: nat, bits: nat, to: nat)
    requires bits < to < 32
    ensures Low(ShiftLeft(acc, to - bits), to) < Pow2(to)
    ensures ToBits(Low(ShiftLeft(acc, to - bits), to), to) == ToBits(acc, bits) + Zeros(to - bits)
    ensures Low(ShiftLeft(acc, to - bits), to) == 0 <==> AllZero(ToBits(acc, bits))
  {
    hide Pow2, AllZero;
    var k := to - bits;
    var shifted := ShiftLeft(acc, k);
    assert ToBits(Low(shifted, to), to) == ToBits(acc, bits) + Zeros(k) by {
      BitsOfLow(shifted, to, to);
      BitsOfLow(Shl(acc, k), 32, to);
      BitsConcat(acc, 0, bits, k);
      BitsOfZero(k);
    }
    LowBound(shifted, to);
    ZeroBits(Low(shifted, to), ToBits(acc, bits), to);
  }

  lemma ZeroBits(v: nat, s: seq<bool>, w: nat)
    requires v < Pow2(w) && |s| <= w && ToBits(v, w) == s + Zeros(w - |s|)
    ensures v == 0 <==> AllZero(s)
  {
    BitsOfNumber(v, w);
    BitsOfZero(w);
    if v == 0 {
      forall i | 0 <= i < |s| ensures !s[i] {
        assert s[i] == (s + Zeros(w - |s|))[i] == Zeros(w)[i];
        ZerosAt(w, i);
      }
    }
    if AllZero(s) {
      AllZeroIsZeros(s);
      ZerosConcat(|s|, w - |s|);
      BitsOfNumber(0, w);
    }
  }

  lemma {:induction false} ZerosConcat(a: nat, b: nat)
    ensures Zeros(a) + Zeros(b) == Zeros(a + b)
  {
    if b == 0 {
    } else {
      ZerosConcat(a, b - 1);
    }
  }

  lemma AllZeroIsZeros(s: seq<bool>)
    ensures AllZero(s) <==> s == Zeros(|s|)
  {
    forall i | 0 <= i < |s| ensures !Zeros(|s|)[i] {
      ZerosAt(|s|, i);
    }
  }

  // ---------------------------------------------------------------- the widths at which it does not

  /** n values of nothing but ones. */
  function Ones(n: nat, from: nat): (data: seq<nat>)
    ensures |data| == n && forall i :: 0 <= i < n ==> data[i] == Pow2(from) - 1
  {
    if n == 0 then [] else Ones(n - 1, from) + [Pow2(from) - 1]
  }

  lemma {:induction false} BitsOfOnes(w: nat, k: nat)
    requires k < w
    ensures ToBits(Pow2(w) - 1, w)[k]
  {
    assert (Pow2(w) - 1) / 2 == Pow2(w - 1) - 1;
    if k >= w - 1 {
    } else {
      BitsOfOnes(w - 1, k);
    }
  }

  /** Bit k of group i. */
  lemma {:induction false} UnpackAt(data: seq<nat>, w: nat, i: nat, k: nat)
    requires i < |data| && k < w
    ensures i * w + k < |Unpack(data, w)| && Unpack(data, w)[i * w + k] == ToBits(data[i], w)[k]
  {
    UnpackLength(data, w);
    UnpackLength(data[..|data| - 1], w);
    Distribute(|data|, w);
    if i >= |data| - 1 {
    } else {
      UnpackAt(data[..|data| - 1], w, i, k);
    }
  }

  lemma {:induction false} TopBit(v: nat, w: nat)
    requires w > 0 && v < Pow2(w - 1)
    ensures !ToBits(v, w)[0]
  {
    if w == 1 {
      assert ToBits(v, 1) == ToBits(v / 2, 0) + [v % 2 == 1];
    } else {
      TopBit(v / 2, w - 1);
    }
  }

  /** All the bits of the ones are ones. */
  lemma OnesAt(n: nat, from: nat, p: nat)
    requires from > 0 && p < n * from
    ensures p < |Unpack(Ones(n, from), from)| && Unpack(Ones(n, from), from)[p]
  {
    var i, k := p / from, p % from;
    assert p == i * from + k;
    WithinGroups(p, n, from);
    UnpackAt(Ones(n, from), from, i, k);
    BitsOfOnes(from, k);
  }

  lemma WithinGroups(p: nat, n: nat, d: nat)
    requires d > 0 && p < n * d
    ensures p / d < n && p == p / d * d + p % d
  {
    if p / d >= n {
      TimesMonotone(n, p / d, d);
    }
  }

  lemma TimesMonotone(a: nat, b: nat, d: nat)
    requires a <= b
    ensures a * d <= b * d
  {
  }

  /** A padded regrouping is the same bits and zeros up to a whole group. */
  lemma PaddedUnpack(data: seq<nat>, from: nat, to: nat)
    requires to > 0 && Digits(data, from)
    ensures var c := Regroup(data, from, to, true);
            c.Some? && Digits(c.value, to) && Unpack(c.value, to) == Unpack(data, from) + Zeros(PadLength(|Unpack(data, from)|, to))
  {
    var s := Unpack(data, from);
    var z := PadLength(|s|, to);
    var n := PadMultiple(|s|, to);
    PackDigits(s + Zeros(z), to);
    UnpackOfPack(s + Zeros(z), to, n);
  }

  lemma PadMultiple(n: nat, to: nat) returns (q: nat)
    requires to > 0
    ensures n + PadLength(n, to) == q * to
  {
    q := if n % to == 0 then n / to else n / to + 1;
    assert n == n / to * to + n % to;
    if n % to != 0 {
      assert (n / to + 1) * to == n / to * to + to;
    }
  }

  /** What the loop has written when the next group goes out. */
  lemma {:induction false} EmitExtends(s: Groups, to: nat)
    requires to > 0
    ensures s.out <= Emit(s, to).out
    ensures s.bits >= to ==> |Emit(s, to).out| > |s.out| && Emit(s, to).out[|s.out|] == Mask(ShiftRight(s.acc, s.bits - to), to)
    decreases s.bits
  {
    hide Mask, ShiftRight;
    if s.bits < to {
    } else {
      EmitExtends(Groups(s.out + [Mask(ShiftRight(s.acc, s.bits - to), to)], s.acc, s.bits - to), to);
    }
  }

  lemma {:induction false} EmitCounts(s: Groups, to: nat)
    requires to > 0
    ensures |Emit(s, to).out| * to + Emit(s, to).bits == |s.out| * to + s.bits
    decreases s.bits
  {
    hide Mask, ShiftRight;
    if s.bits < to {
    } else {
      EmitCounts(Groups(s.out + [Mask(ShiftRight(s.acc, s.bits - to), to)], s.acc, s.bits - to), to);
      Distribute(|s.out| + 1, to);
    }
  }

  lemma {:induction false} FeedCounts(data: seq<nat>, from: nat, to: nat)
    requires to > 0 && Digits(data, from)
    ensures Feed(data, from, to).Some?
    ensures var s := Feed(data, from, to).value; |s.out| * to + s.bits == |data| * from
  {
    hide Mask, ShiftRight, ShiftLeft, Emit, Or;
    FeedSome(data, from, to);
    if data == [] {
    } else {
      var init, last := data[..|data| - 1], data[|data| - 1];
      FeedCounts(init, from, to);
      var s := Feed(init, from, to).value;
      var acc := Or(ShiftLeft(s.acc, from), last);
      EmitCounts(Groups(s.out, acc, s.bits + from), to);
      Distribute(|data|, from);
    }
  }

  lemma {:induction false} OrBound(a: nat, b: nat, k: nat)
    requires a < Pow2(k) && b < Pow2(k)
    ensures Or(a, b) < Pow2(k)
  {
    if k == 0 {
    } else {
      OrBound(a / 2, b / 2, k - 1);
    }
  }

  /** The accumulator is a 32-bit word after each value. */
  lemma AccumulatorBound(acc: nat, value: nat, from: nat)
    requires from <= 32 && value < Pow2(from)
    ensures Or(ShiftLeft(acc, from), value) < Pow2(32)
  {
    LowBound(Shl(acc, from % 32), 32);
    Pow2Monotone(from, 32);
    OrBound(ShiftLeft(acc, from), value, 32);
  }

  lemma TwiceHalf(k: nat)
    requires k > 0
    ensures Pow2(k) == 2 * Pow2(k - 1)
  {
  }

  /** A group cut where the word has run out of bits, or read as a signed number, is less than half its range. */
  lemma HalfGroup(acc: nat, bits: nat, to: nat)
    requires acc < Pow2(32) && 1 <= to <= 32 && to <= bits < to + 32
    requires to == 32 || bits >= 33
    ensures Mask(ShiftRight(acc, bits - to), to) < Pow2(to - 1)
  {
    hide Low, Shr, Pow2;
    var r := bits - to;
    var x := Shr(acc, r);
    if to == 32 {
      LowBound(x, 32);
      TwiceHalf(32);
    } else {
      ShrBound(acc, 32 - r, r);
      Pow2Monotone(32 - r, to - 1);
      Pow2Monotone(to - 1, to);
      LowOfSmall(x, to);
    }
  }

  /** The group that goes out with the last value, in the loop and in the regrouping. */
  lemma LastGroup(data: seq<nat>, value: nat, from: nat, to: nat) returns (s: Groups, out: seq<nat>)
    requires 1 <= from <= 32 && 1 <= to <= 32 && Digits(data + [value], from)
    requires Convert(data + [value], from, to, true) == Regroup(data + [value], from, to, true)
    requires Feed(data, from, to).Some? ==> Feed(data, from, to).value.bits + from >= to
    ensures Feed(data, from, to) == Some(s) && |s.out| * to + s.bits == |data| * from && |s.out| < |out|
    ensures out[|s.out|] == Mask(ShiftRight(Or(ShiftLeft(s.acc, from), value), s.bits + from - to), to)
    ensures |s.out| * to < |Unpack(data + [value], from)|
    ensures ToBits(out[|s.out|], to)[0] == Unpack(data + [value], from)[|s.out| * to]
  {
    hide Mask, ShiftLeft, ShiftRight, Or, Regroup, Digits, Unpack, ToBits, Emit;
    PrefixDigits(data, value, from);
    FeedCounts(data, from, to);
    s := Feed(data, from, to).value;
    var more := data + [value];
    assert more[..|data|] == data;
    FeedCounts(more, from, to);
    var acc := Or(ShiftLeft(s.acc, from), value);
    EmitExtends(Groups(s.out, acc, s.bits + from), to);
    PaddedUnpack(more, from, to);
    out := Regroup(more, from, to, true).value;
    var i := |s.out|;
    UnpackAt(out, to, i, 0);
    UnpackLength(more, from);
    Distribute(|more|, from);
  }

  lemma PrefixDigits(data: seq<nat>, value: nat, from: nat)
    requires Digits(data + [value], from)
    ensures Digits(data, from) && value < Pow2(from)
  {
    var more := data + [value];
    assert more[|data|] == value;
    forall i | 0 <= i < |data| ensures data[i] < Pow2(from) {
      assert more[i] == data[i];
    }
  }

  lemma OnesDigits(n: nat, from: nat)
    ensures Digits(Ones(n, from), from)
  {
  }

  /** n + 1 values of ones go wrong when the last lets a live bit drop out, or completes a 32-bit group. */
  lemma OnesGoWrong(n: nat, from: nat, to: nat)
    requires 1 <= from <= 32 && 1 <= to <= 32
    requires var s := Feed(Ones(n, from), from, to);
             s.Some? ==> s.value.bits + from >= to && (to == 32 || s.value.bits + from >= 33)
    ensures Convert(Ones(n + 1, from), from, to, true) != Regroup(Ones(n + 1, from), from, to, true)
  {
    hide Mask, ShiftLeft, ShiftRight, Or, Regroup, Convert, Feed, Pow2, Unpack, ToBits;
    var data, value := Ones(n, from), Pow2(from) - 1;
    assert Ones(n + 1, from) == data + [value];
    OnesDigits(n + 1, from);
    if Convert(data + [value], from, to, true) == Regroup(data + [value], from, to, true) {
      var s, out := LastGroup(data, value, from, to);
      AccumulatorBound(s.acc, value, from);
      HalfGroup(Or(ShiftLeft(s.acc, from), value), s.bits + from, to);
      TopBit(out[|s.out|], to);
      OnesAt(n + 1, from, |s.out| * to);
      assert false;
    }
  }

  lemma {:induction false} ShrOfOnes(a: nat, k: nat)
    ensures Shr(Pow2(a + k) - 1, k) == Pow2(a) - 1
  {
    if k == 0 {
    } else {
      assert (Pow2(a + k) - 1) / 2 == Pow2(a + k - 1) - 1;
      ShrOfOnes(a, k - 1);
    }
  }

  lemma OrOfZero(b: nat)
    ensures Or(0, b) == b
  {
    if b == 0 {
    } else {
      OrOfZero(b / 2);
    }
  }

  /** A shift by 32 is no shift: the word of ones stays where zeros should come. */
  lemma StaleWord(to: nat)
    requires 1 <= to <= 31
    ensures Or(ShiftLeft(0, 32), Pow2(32) - 1) == Pow2(32) - 1
    ensures Or(ShiftLeft(Pow2(32) - 1, 32), 0) == Pow2(32) - 1
    ensures Mask(ShiftRight(Pow2(32) - 1, 32 - to), to) == Pow2(to) - 1
  {
    hide Pow2, Or, Low, Shr, Shl;
    var word := Pow2(32) - 1;
    NoShift(0);
    NoShift(word);
    PositivePower(32);
    LowOfSmall(0, 32);
    OrOfZero(word);
    LowOfSmall(word, 32);
    OrZero(word);
    ShrOfOnes(to, 32 - to);
    LowOfSmall(Pow2(to) - 1, to);
  }

  lemma NoShift(x: nat)
    ensures Shl(x, 0) == x
  {
  }

  lemma PositivePower(k: nat)
    ensures Pow2(k) > 0
  {
  }

  lemma OneFed(value: nat, from: nat, to: nat)
    requires to > 0 && value < Pow2(from)
    ensures Feed([value], from, to) == Some(Emit(Groups([], Or(ShiftLeft(0, from), value), from), to))
  {
    hide Or, ShiftLeft, Emit, Pow2;
    FeedSnoc([], value, from, to);
    assert [] + [value] == [value];
  }

  lemma WordDigits()
    ensures Digits([Pow2(32) - 1, 0], 32)
  {
  }

  /** 32-bit values that fill whole groups go wrong on a word of ones followed by zero. */
  lemma StaleGoesWrong(to: nat)
    requires 1 <= to <= 31 && Feed(Ones(1, 32), 32, to).Some? && Feed(Ones(1, 32), 32, to).value.bits == 0
    ensures Convert([Pow2(32) - 1, 0], 32, to, true) != Regroup([Pow2(32) - 1, 0], 32, to, true)
  {
    hide Mask, ShiftLeft, ShiftRight, Or, Regroup, Convert, Feed, Pow2, Unpack, ToBits;
    PositivePower(32);
    WordDigits();
    var data, value := [Pow2(32) - 1], 0;
    assert Ones(1, 32) == Ones(0, 32) + [Pow2(32) - 1] == data;
    assert data + [value] == [Pow2(32) - 1, 0];
    if Convert(data + [value], 32, to, true) == Regroup(data + [value], 32, to, true) {
      var s, out := LastGroup(data, value, 32, to);
      OneFed(Pow2(32) - 1, 32, to);
      StaleWord(to);
      BitsOfOnes(to, 0);
      UnpackAt(data + [value], 32, 1, 0);
      TopBit(0, 32);
      assert false;
    }
  }

  lemma {:induction false} Bezout(a: nat, b: nat) returns (x: int, y: int)
    ensures a * x + b * y == Gcd(a, b)
    decreases b
  {
    if b == 0 {
      x, y := 1, 0;
    } else {
      var p, q := Bezout(b, a % b);
      x, y := q, p - a / b * q;
      assert a == a / b * b + a % b;
      BezoutStep(a, b, a / b, a % b, p, q);
    }
  }

  lemma BezoutStep(a: int, b: int, k: int, r: int, p: int, q: int)
    requires a == k * b + r
    ensures a * q + b * (p - k * q) == b * p + r * q
  {
    assert a * q == k * b * q + r * q;
    assert b * (p - k * q) == b * p - b * (k * q);
    assert k * b * q == b * (k * q);
  }

  /** Some number of values leaves as many bits as can be left: one divisor short of a group. */
  lemma MostBits(from: nat, to: nat) returns (n: nat)
    requires from > 0 && to > 0
    ensures n * from % to == to - Gcd(from, to)
  {
    var g := Gcd(from, to);
    GcdDivides(from, to);
    MultipleAtMost(to, g);
    var x, y := Bezout(from, to);
    n := (-x) % to;
    var k := (-x) / to;
    DivMod(-x, to);
    ResidueOf(from, to, x, y, k, n, g);
    Remainder(-k * from + y - 1, to, to - g);
  }

  lemma DivMod(x: int, d: nat)
    requires d > 0
    ensures x == x / d * d + x % d
  {
  }

  lemma MultipleAtMost(x: nat, g: nat)
    requires x > 0 && Multiple(x, g)
    ensures g <= x
  {
    MultipleOfNothing(g);
    MultipleBelow(0, x, g);
  }

  lemma ResidueOf(from: int, to: int, x: int, y: int, k: int, n: int, g: int)
    requires from * x + to * y == g && -x == k * to + n
    ensures n * from == (-k * from + y - 1) * to + (to - g)
  {
    assert n == -x - k * to;
    assert n * from == -x * from - k * to * from;
    assert (-k * from + y - 1) * to == -k * from * to + y * to - to;
  }

  lemma SameRemainder(q: nat, d: nat, r: nat, n: nat)
    requires q * d + r == n && r < d
    ensures n % d == r
  {
    Remainder(q, d, r);
  }

  /** For every other pair of widths some values come out wrong. */
  lemma ConvertWrong(from: nat, to: nat) returns (data: seq<nat>)
    requires 1 <= from <= 32 && 1 <= to <= 32 && !ExactWidths(from, to)
    ensures Convert(data, from, to, true) != Regroup(data, from, to, true)
  {
    hide Convert, Regroup, Feed, Gcd, Pow2;
    if to == 32 {
      var n := 31 / from;
      var s := OnesFed(n, from, to);
      FirstFull(n, from, |s.out|, s.bits);
      OnesGoWrong(n, from, to);
      data := Ones(n + 1, from);
    } else if from == 32 {
      var s := OnesFed(1, from, to);
      if s.bits > 0 {
        OnesGoWrong(1, from, to);
        data := Ones(2, from);
      } else {
        StaleGoesWrong(to);
        data := [Pow2(32) - 1, 0];
      }
    } else {
      var n := MostBits(from, to);
      var s := OnesFed(n, from, to);
      SameRemainder(|s.out|, to, s.bits, n * from);
      OnesGoWrong(n, from, to);
      data := Ones(n + 1, from);
    }
  }

  lemma OnesFed(n: nat, from: nat, to: nat) returns (s: Groups)
    requires to > 0
    ensures Feed(Ones(n, from), from, to) == Some(s) && |s.out| * to + s.bits == n * from && s.bits < to
  {
    FeedCounts(Ones(n, from), from, to);
    s := Feed(Ones(n, from), from, to).value;
  }

  lemma FirstFull(n: nat, from: nat, groups: nat, bits: nat)
    requires from > 0 && n == 31 / from && groups * 32 + bits == n * from
    ensures bits + from >= 32
  {
    assert 31 == from * n + 31 % from;
  }

  /** The loop regroups for all data, padded or not, at exactly these widths. */
  lemma WidthsExact(from: int, to: int)
    requires 1 <= from <= 32 && 1 <= to <= 32
    ensures (forall data: seq<nat>, pad :: Convert(data, from, to, pad) == Regroup(data, from, to, pad)) <==> ExactWidths(from, to)
  {
    hide Convert, Regroup;
    if ExactWidths(from, to) {
      forall data: seq<nat>, pad ensures Convert(data, from, to, pad) == Regroup(data, from, to, pad) {
        ConvertExact(data, from, to, pad);
      }
    } else {
      var data := ConvertWrong(from, to);
    }
  }

  /** The widths addresses use are among them. */
  lemma AddressWidths()
    ensures ExactWidths(8, 5) && ExactWidths(5, 8)
  {
    assert Gcd(8, 5) == Gcd(5, 3) == Gcd(3, 2) == Gcd(2, 1) == 1;
  }

  // ---------------------------------------------------------------- 8 -> 5 -> 8

  lemma FiveGroupLength(n: nat)
    ensures (8 * n + PadLength(8 * n, 5)) % 5 == 0
    ensures (8 * n + PadLength(8 * n, 5)) % 8 == PadLength(8 * n, 5)
  {
  }

  /** Cutting whole bytes and five-bit groups loses nothing. */
  lemma CutBytes(s: seq<bool>, n: nat)
    requires |s| == n * 8
    ensures Digits(Pack(s, 8), 8) && Unpack(Pack(s, 8), 8) == s && |Pack(s, 8)| == n
  {
    PackDigits(s, 8);
    UnpackOfPack(s, 8, n);
  }

  lemma CutSymbols(s: seq<bool>, n: nat)
    requires |s| == n * 5
    ensures Digits(Pack(s, 5), 5) && Unpack(Pack(s, 5), 5) == s && |Pack(s, 5)| == n
  {
    PackDigits(s, 5);
    UnpackOfPack(s, 5, n);
  }

  lemma PadCut(s: seq<bool>, n: nat)
    requires |s| == 8 * n
    ensures var t := s + Zeros(PadLength(8 * n, 5));
            Digits(Pack(t, 5), 5) && Unpack(Pack(t, 5), 5) == t && 5 * |Pack(t, 5)| == |t|
  {
    var z := PadLength(8 * n, 5);
    FiveGroupLength(n);
    CutSymbols(s + Zeros(z), (8 * n + z) / 5);
  }

  /** Padded regrouping keeps the bits and appends zeros up to a whole group. */
  lemma PaddedBits(data: seq<nat>)
    requires Digits(data, 8)
    ensures Regroup(data, 8, 5, true).Some?
    ensures var c := Regroup(data, 8, 5, true).value;
            && Digits(c, 5)
            && Unpack(c, 5) == Unpack(data, 8) + Zeros(PadLength(8 * |data|, 5))
            && 5 * |c| == 8 * |data| + PadLength(8 * |data|, 5)
  {
    UnpackLength(data, 8);
    PadCut(Unpack(data, 8), |data|);
  }

  lemma DropTail(s: seq<bool>, t: seq<bool>, n: nat, z: nat)
    requires |s| == 8 * n && z < 5 && t == s + Zeros(z)
    ensures |t| % 8 == z && t[..|t| - z] == s && AllZero(t[|t| - z..])
  {
    AllZeroIsZeros(Zeros(z));
    assert t[|t| - z..] == Zeros(z);
  }

  /** Regrouping bytes to five-bit symbols and back is the identity. */
  lemma BytesThroughSymbols(data: seq<nat>)
    requires Digits(data, 8)
    ensures Regroup(data, 8, 5, true).Some?
    ensures Regroup(Regroup(data, 8, 5, true).value, 5, 8, false) == Some(data)
  {
    PaddedBits(data);
    var c := Regroup(data, 8, 5, true).value;
    UnpackLength(data, 8);
    DropTail(Unpack(data, 8), Unpack(c, 5), |data|, PadLength(8 * |data|, 5));
    PackOfUnpack(data, 8);
  }

  lemma PadArithmetic(m: nat, n: nat, left: nat)
    requires left < 5 && 8 * m + left == 5 * n
    ensures PadLength(8 * m, 5) == left
  {
  }

  lemma SplitTail(t: seq<bool>, n: nat)
    requires |t| == 5 * n && CutExact(t, 5, 8).Some?
    ensures Digits(CutExact(t, 5, 8).value, 8)
    ensures var u := Unpack(CutExact(t, 5, 8).value, 8);
            u + Zeros(PadLength(|u|, 5)) == t
  {
    var left := |t| % 8;
    var s, tail := t[..|t| - left], t[|t| - left..];
    assert t == s + tail;
    CutBytes(s, |t| / 8);
    AllZeroIsZeros(tail);
    PadArithmetic(|t| / 8, n, left);
  }

  /** Every symbol sequence that regroups to bytes is the regrouping of those bytes. */
  lemma SymbolsThroughBytes(c: seq<nat>)
    requires Regroup(c, 5, 8, false).Some?
    ensures Digits(Regroup(c, 5, 8, false).value, 8)
    ensures Regroup(Regroup(c, 5, 8, false).value, 8, 5, true) == Some(c)
  {
    UnpackLength(c, 5);
    SplitTail(Unpack(c, 5), |c|);
    PackOfUnpack(c, 5);
  }
}
