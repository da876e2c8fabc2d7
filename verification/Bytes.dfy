/**
 Byte strings: little-endian integers, CompactSize counts and length-prefixed
 fields. Writers take the bytes that follow (`PutX(x, rest)`), readers return the
 bytes that remain, so that every writer/reader pair is inverse in both directions.
 */
module Bytes {
  type Byte = x: nat | x < 256

  /** A reader's outcome; `Fail` is the source's thrown error. */
  datatype Parsed<+T> = Fail | Got(value: T, rest: seq<Byte>)

  const MAX_SAFE := 0x1f_ffff_ffff_ffff

  function Limit(k: nat): (p: nat)
    ensures p >= 1
  {
    if k == 0 then 1 else 256 * Limit(k - 1)
  }

  lemma Limits()
    ensures Limit(1) == 0x100 && Limit(2) == 0x1_0000 && Limit(4) == 0x1_0000_0000
    ensures Limit(8) == 0x1_0000_0000_0000_0000
  {
    assert Limit(3) == 0x100_0000;
    assert Limit(5) == 0x100_0000_0000;
    assert Limit(6) == 0x1_0000_0000_0000;
    assert Limit(7) == 0x100_0000_0000_0000;
  }

  // ---------------------------------------------------------------- little endian

  function LE(n: nat, k: nat): (s: seq<Byte>)
    ensures |s| == k
  {
    if k == 0 then [] else [n % 256] + LE(n / 256, k - 1)
  }

  function FromLE(s: seq<Byte>): (n: nat)
    ensures n < Limit(|s|)
  {
    if s == [] then 0 else s[0] + 256 * FromLE(s[1..])
  }

  lemma {:induction false} FromLEOfLE(n: nat, k: nat)
    requires n < Limit(k)
    ensures FromLE(LE(n, k)) == n
  {
    if k == 0 {
    } else {
      FromLEOfLE(n / 256, k - 1);
      assert LE(n, k)[1..] == LE(n / 256, k - 1);
    }
  }

  lemma LowestByte(low: Byte, rest: nat)
    ensures (low + 256 * rest) % 256 == low && (low + 256 * rest) / 256 == rest
  {
  }

  lemma {:induction false} LEOfFromLE(s: seq<Byte>)
    ensures LE(FromLE(s), |s|) == s
  {
    if s == [] {
    } else {
      LEOfFromLE(s[1..]);
      LowestByte(s[0], FromLE(s[1..]));
      hide FromLE;
      assert s == [s[0]] + s[1..];
    }
  }

  function Reverse(s: seq<Byte>): (r: seq<Byte>)
    ensures |r| == |s|
  {
    if s == [] then [] else Reverse(s[1..]) + [s[0]]
  }

  lemma {:induction false} ReverseAt(s: seq<Byte>, i: nat)
    requires i < |s|
    ensures Reverse(s)[i] == s[|s| - 1 - i]
  {
    if i >= |s| - 1 {
    } else {
      ReverseAt(s[1..], i);
    }
  }

  lemma ReverseTwice(s: seq<Byte>)
    ensures Reverse(Reverse(s)) == s
  {
    forall i | 0 <= i < |s| ensures Reverse(Reverse(s))[i] == s[i] {
      ReverseAt(Reverse(s), i);
      ReverseAt(s, |s| - 1 - i);
    }
  }

  // ---------------------------------------------------------------- fixed-length fields

  function Take(b: seq<Byte>, n: nat): (r: Parsed<seq<Byte>>)
    ensures r.Got? ==> |r.value| == n && b == r.value + r.rest
  {
    if |b| < n then Fail else Got(b[..n], b[n..])
  }

  lemma TakeOfConcat(a: seq<Byte>, rest: seq<Byte>)
    ensures Take(a + rest, |a|) == Got(a, rest)
  {
    assert (a + rest)[..|a|] == a && (a + rest)[|a|..] == rest;
  }

  /** A field at a position, and what follows it. */
  lemma Cut(b: seq<Byte>, at: nat, field: seq<Byte>, rest: seq<Byte>)
    requires at <= |b| && b[at..] == field + rest
    ensures at + |field| <= |b| && b[at..at + |field|] == field && b[at + |field|..] == rest
  {
    var tail := b[at..];
    assert tail[..|field|] == field && tail[|field|..] == rest;
    assert b[at..at + |field|] == tail[..|field|] && b[at + |field|..] == tail[|field|..];
  }

  function ReadLE(b: seq<Byte>, k: nat): Parsed<nat> {
    match Take(b, k)
    case Fail => Fail
    case Got(s, rest) => Got(FromLE(s), rest)
  }

  function PutLE(n: nat, k: nat, rest: seq<Byte>): seq<Byte> {
    LE(n, k) + rest
  }

  lemma ReadOfPutLE(n: nat, k: nat, rest: seq<Byte>)
    requires n < Limit(k)
    ensures ReadLE(PutLE(n, k, rest), k) == Got(n, rest)
  {
    TakeOfConcat(LE(n, k), rest);
    FromLEOfLE(n, k);
  }

  lemma PutOfReadLE(b: seq<Byte>, k: nat, n: nat, rest: seq<Byte>)
    requires ReadLE(b, k) == Got(n, rest)
    ensures b == PutLE(n, k, rest) && n < Limit(k)
  {
    LEOfFromLE(Take(b, k).value);
  }

  // ---------------------------------------------------------------- CompactSize

  function PutCount(n: nat, rest: seq<Byte>): seq<Byte> {
    if n < 0xfd then PutLE(n, 1, rest)
    else if n <= 0xffff then PutLE(0xfd, 1, PutLE(n, 2, rest))
    else if n <= 0xffff_ffff then PutLE(0xfe, 1, PutLE(n, 4, rest))
    else PutLE(0xff, 1, PutLE(n, 8, rest))
  }

  /** A CompactSize; a value in a wider form than it needs is refused. */
  function ReadCompactSize(b: seq<Byte>): Parsed<nat> {
    match ReadLE(b, 1)
    case Fail => Fail
    case Got(first, r) =>
      if first < 0xfd then Got(first, r)
      else
        var (width, least) := if first == 0xfd then (2, 0xfd) else if first == 0xfe then (4, 0x1_0000) else (8, 0x1_0000_0000);
        match ReadLE(r, width)
        case Fail => Fail
        case Got(n, rest) => if n < least then Fail else Got(n, rest)
  }

  /** A CompactSize that is also a safe JavaScript integer. */
  function ReadCount(b: seq<Byte>): Parsed<nat> {
    match ReadCompactSize(b)
    case Fail => Fail
    case Got(n, rest) => if n > MAX_SAFE then Fail else Got(n, rest)
  }

  lemma ReadOfPutCompactSize(n: nat, rest: seq<Byte>)
    requires n < 0x1_0000_0000_0000_0000
    ensures ReadCompactSize(PutCount(n, rest)) == Got(n, rest)
  {
    Limits();
    if n < 0xfd {
      ReadOfPutLE(n, 1, rest);
    } else if n <= 0xffff {
      ReadOfPutLE(0xfd, 1, PutLE(n, 2, rest));
      ReadOfPutLE(n, 2, rest);
    } else if n <= 0xffff_ffff {
      ReadOfPutLE(0xfe, 1, PutLE(n, 4, rest));
      ReadOfPutLE(n, 4, rest);
    } else {
      ReadOfPutLE(0xff, 1, PutLE(n, 8, rest));
      ReadOfPutLE(n, 8, rest);
    }
  }

  lemma ReadOfPutCount(n: nat, rest: seq<Byte>)
    requires n <= MAX_SAFE
    ensures ReadCount(PutCount(n, rest)) == Got(n, rest)
  {
    ReadOfPutCompactSize(n, rest);
  }

  /** CompactSize is canonical: what is read determines the bytes it was read from. */
  lemma PutOfReadCompactSize(b: seq<Byte>, n: nat, rest: seq<Byte>)
    requires ReadCompactSize(b) == Got(n, rest)
    ensures b == PutCount(n, rest) && n < 0x1_0000_0000_0000_0000
  {
    Limits();
    var head := ReadLE(b, 1);
    PutOfReadLE(b, 1, head.value, head.rest);
    if head.value == 0xfd {
      PutOfReadLE(head.rest, 2, n, rest);
    } else if head.value == 0xfe {
      PutOfReadLE(head.rest, 4, n, rest);
    } else if head.value == 0xff {
      PutOfReadLE(head.rest, 8, n, rest);
    }
  }

  lemma OneByte(n: Byte)
    ensures LE(n, 1) == [n]
  {
  }

  lemma TwoBytes(n: nat)
    requires n < 0x1_0000
    ensures LE(n, 2) == [n % 256, n / 256]
  {
    OneByte(n / 256);
  }

  /** The four forms of a count: one byte, or a marker and two, four or eight. */
  lemma CountForms(n: nat, rest: seq<Byte>)
    requires n < 0x1_0000_0000_0000_0000
    ensures PutCount(n, rest) ==
            if n < 253 then [n] + rest
            else if n < 0x1_0000 then [253] + ([n % 256, n / 256] + rest)
            else if n < 0x1_0000_0000 then [254] + (LE(n, 4) + rest)
            else [255] + (LE(n, 8) + rest)
  {
    hide LE;
    OneByte(253);
    OneByte(254);
    OneByte(255);
    if n < 253 {
      OneByte(n);
    } else if n < 0x1_0000 {
      TwoBytes(n);
    }
  }

  function CountLength(n: nat): nat {
    if n < 0xfd then 1 else if n <= 0xffff then 3 else if n <= 0xffff_ffff then 5 else 9
  }

  lemma PutCountLength(n: nat, rest: seq<Byte>)
    ensures |PutCount(n, rest)| == CountLength(n) + |rest|
  {
  }

  // ---------------------------------------------------------------- length-prefixed bytes

  function PutVar(x: seq<Byte>, rest: seq<Byte>): seq<Byte> {
    PutCount(|x|, x + rest)
  }

  function ReadVar(b: seq<Byte>): Parsed<seq<Byte>> {
    match ReadCount(b)
    case Fail => Fail
    case Got(n, rest) => Take(rest, n)
  }

  lemma ReadOfPutVar(x: seq<Byte>, rest: seq<Byte>)
    requires |x| <= MAX_SAFE
    ensures ReadVar(PutVar(x, rest)) == Got(x, rest)
  {
    ReadOfPutCount(|x|, x + rest);
    TakeOfConcat(x, rest);
  }

  lemma PutOfReadVar(b: seq<Byte>, x: seq<Byte>, rest: seq<Byte>)
    requires ReadVar(b) == Got(x, rest)
    ensures b == PutVar(x, rest) && |x| <= MAX_SAFE
  {
    var head := ReadCount(b);
    PutOfReadCompactSize(b, head.value, head.rest);
  }

  lemma PutVarLength(x: seq<Byte>, rest: seq<Byte>)
    ensures |PutVar(x, rest)| == CountLength(|x|) + |x| + |rest|
  {
    PutCountLength(|x|, x + rest);
  }

  // ---------------------------------------------------------------- signed 64-bit

  const TWO63 := 0x8000_0000_0000_0000
  const TWO64 := 0x1_0000_0000_0000_0000

  predicate IsInt64(v: int) {
    -TWO63 <= v < TWO63
  }

  /** Two's complement of an int64. */
  function PutI64(v: int, rest: seq<Byte>): seq<Byte> {
    PutLE(v % TWO64, 8, rest)
  }

  function ReadI64(b: seq<Byte>): Parsed<int> {
    match ReadLE(b, 8)
    case Fail => Fail
    case Got(n, rest) => Got(if n < TWO63 then n else n - TWO64, rest)
  }

  lemma ReadOfPutI64(v: int, rest: seq<Byte>)
    requires IsInt64(v)
    ensures ReadI64(PutI64(v, rest)) == Got(v, rest)
  {
    Limits();
    ReadOfPutLE(v % TWO64, 8, rest);
  }

  /** An int64 and the 64-bit number that stands for it. */
  lemma Signed(n: nat, v: int)
    requires n < TWO64 && v == if n < TWO63 then n else n - TWO64
    ensures IsInt64(v) && v % TWO64 == n
  {
  }

  lemma PutOfReadI64(b: seq<Byte>, v: int, rest: seq<Byte>)
    requires ReadI64(b) == Got(v, rest)
    ensures IsInt64(v) && b == PutI64(v, rest)
  {
    var n := ReadLE(b, 8).value;
    PutOfReadLE(b, 8, n, rest);
    Limits();
    hide ReadLE, PutLE, LE, FromLE, Take, Limit;
    Signed(n, v);
  }

  // ---------------------------------------------------------------- lists of fields

  function PutMany<T>(put: (T, seq<Byte>) -> seq<Byte>, s: seq<T>, rest: seq<Byte>): seq<Byte> {
    if s == [] then rest else put(s[0], PutMany(put, s[1..], rest))
  }

  function ReadMany<T>(read: seq<Byte> -> Parsed<T>, n: nat, b: seq<Byte>): Parsed<seq<T>> {
    if n == 0 then Got([], b)
    else
      match read(b)
      case Fail => Fail
      case Got(first, r) =>
        match ReadMany(read, n - 1, r)
        case Fail => Fail
        case Got(others, rest) => Got([first] + others, rest)
  }

  /** `read` recovers every admissible value `put` writes. */
  ghost predicate ReadsBack<T(!new)>(read: seq<Byte> -> Parsed<T>, put: (T, seq<Byte>) -> seq<Byte>, fits: T -> bool) {
    forall x, rest :: fits(x) ==> read(put(x, rest)) == Got(x, rest)
  }

  /** `read` accepts only what `put` writes. */
  ghost predicate Canonical<T(!new)>(read: seq<Byte> -> Parsed<T>, put: (T, seq<Byte>) -> seq<Byte>, fits: T -> bool) {
    forall b :: read(b).Got? ==> fits(read(b).value) && b == put(read(b).value, read(b).rest)
  }

  predicate AllFit<T>(fits: T -> bool, s: seq<T>) {
    forall i :: 0 <= i < |s| ==> fits(s[i])
  }

  lemma {:induction false} ReadOfPutMany<T(!new)>(read: seq<Byte> -> Parsed<T>, put: (T, seq<Byte>) -> seq<Byte>,
                                                  fits: T -> bool, s: seq<T>, rest: seq<Byte>)
    requires ReadsBack(read, put, fits) && AllFit(fits, s)
    ensures ReadMany(read, |s|, PutMany(put, s, rest)) == Got(s, rest)
  {
    if s == [] {
    } else {
      ReadOfPutMany(read, put, fits, s[1..], rest);
      assert [s[0]] + s[1..] == s;
    }
  }

  lemma {:induction false} PutOfReadMany<T(!new)>(read: seq<Byte> -> Parsed<T>, put: (T, seq<Byte>) -> seq<Byte>,
                                                  fits: T -> bool, n: nat, b: seq<Byte>, s: seq<T>, rest: seq<Byte>)
    requires Canonical(read, put, fits) && ReadMany(read, n, b) == Got(s, rest)
    ensures |s| == n && AllFit(fits, s) && b == PutMany(put, s, rest)
  {
    if n == 0 {
    } else {
      var first := read(b);
      var others := ReadMany(read, n - 1, first.rest).value;
      PutOfReadMany(read, put, fits, n - 1, first.rest, others, rest);
      assert s[1..] == others;
    }
  }
}
