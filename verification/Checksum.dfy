/**
 The Bech32m checksum (BIP-350, "Bech32m"; BIP-173, "Checksum"): a 30-bit shift
 register that is linear over xor. Linearity gives the checksum's uniqueness and
 its detection of every error burst of at most six symbols.
 */
module Checksum {
  import opened Words

  const BECH32M_CONST: nat := 0x2bc830a3

  function Generator(i: nat): nat
    requires i < 5
  {
    if i == 0 then 0x3b6a57b2
    else if i == 1 then 0x26508e6d
    else if i == 2 then 0x1ea119fa
    else if i == 3 then 0x3d4233dd
    else 0x2a1462b3
  }

  predicate Bit(x: nat, j: nat) {
    Shr(x, j) % 2 == 1
  }

  lemma BitXor(x: nat, y: nat, j: nat)
    ensures Bit(Xor(x, y), j) == (Bit(x, j) != Bit(y, j))
  {
    XorFields(x, y, j);
    var p, q := Shr(x, j), Shr(y, j);
    assert Xor(p, q) % 2 == if p % 2 == q % 2 then 0 else 1;
  }

  /** The first i generators, each selected by a bit of `top`, xored into chk. */
  function Taps(chk: nat, top: nat, i: nat): nat
    requires i <= 5
  {
    if i == 0 then chk
    else if Bit(top, i - 1) then Xor(Taps(chk, top, i - 1), Generator(i - 1))
    else Taps(chk, top, i - 1)
  }

  function Step(chk: nat, value: nat): nat {
    Taps(Xor(Shl(Low(chk, 25), 5), value), Shr(chk, 25), 5)
  }

  function Run(chk: nat, values: seq<nat>): nat {
    if values == [] then chk
    else Step(Run(chk, values[..|values| - 1]), values[|values| - 1])
  }

  ghost predicate Symbols(values: seq<nat>) {
    Digits(values, 5)
  }

  method Polymod(values: seq<nat>) returns (chk: nat)
    ensures chk == Run(1, values)
  {
    chk := 1;
    for n := 0 to |values|
      invariant chk == Run(1, values[..n])
    {
      var top := Shr(chk, 25);
      var base := Xor(Shl(Low(chk, 25), 5), values[n]);
      chk := base;
      for i := 0 to 5
        invariant chk == Taps(base, top, i)
      {
        if Shr(top, i) % 2 == 1 {
          chk := Xor(chk, Generator(i));
        }
      }
      assert values[..n + 1][..n] == values[..n];
    }
    assert values[..|values|] == values;
  }

  lemma {:induction false} RunConcat(chk: nat, a: seq<nat>, b: seq<nat>)
    ensures Run(chk, a + b) == Run(Run(chk, a), b)
    decreases |b|
  {
    if b == [] {
      assert a + b == a;
    } else {
      RunConcat(chk, a, b[..|b| - 1]);
      assert (a + b)[..|a + b| - 1] == a + b[..|b| - 1];
    }
  }

  // ---------------------------------------------------------------- the register stays below 2^30

  lemma Widths()
    ensures Pow2(5) == 32 && Pow2(25) == 0x2000000 && Pow2(30) == 0x40000000
  {
    assert Pow2(5) == 32;
    assert Pow2(10) == 1024;
    assert Pow2(15) == 0x8000;
    assert Pow2(20) == 0x100000;
    assert Pow2(25) == 0x2000000;
  }

  lemma {:induction false} TapsBound(chk: nat, top: nat, i: nat)
    requires i <= 5 && chk < Pow2(30)
    ensures Taps(chk, top, i) < Pow2(30)
  {
    Widths();
    if i == 0 {
    } else {
      TapsBound(chk, top, i - 1);
      XorBound(Taps(chk, top, i - 1), Generator(i - 1), 30);
    }
  }

  lemma StepBound(chk: nat, value: nat)
    requires value < Pow2(30)
    ensures Step(chk, value) < Pow2(30)
  {
    LowBound(chk, 25);
    ShlMonotone(Low(chk, 25), Pow2(25), 5);
    ShlPow(25, 5);
    XorBound(Shl(Low(chk, 25), 5), value, 30);
    TapsBound(Xor(Shl(Low(chk, 25), 5), value), Shr(chk, 25), 5);
  }

  /** No bit is ever lost or turned into a sign: the register is a 30-bit word. */
  lemma {:induction false} RunBound(chk: nat, values: seq<nat>)
    requires chk < Pow2(30) && Digits(values, 30)
    ensures Run(chk, values) < Pow2(30)
  {
    if values == [] {
    } else {
      RunBound(chk, values[..|values| - 1]);
      StepBound(Run(chk, values[..|values| - 1]), values[|values| - 1]);
    }
  }

  // ---------------------------------------------------------------- superposition

  function Tap(chk: nat, on: bool, g: nat): nat {
    if on then Xor(chk, g) else chk
  }

  lemma TapXor(a: nat, p: bool, b: nat, q: bool, g: nat)
    ensures Tap(Xor(a, b), p != q, g) == Xor(Tap(a, p, g), Tap(b, q, g))
  {
    if p && q {
      XorRegroup(a, g, b, g);
      XorSelf(g);
      XorZero(Xor(a, b));
    } else if p {
      XorAssoc(a, b, g);
      XorComm(b, g);
      XorAssoc(a, g, b);
    } else if q {
      XorAssoc(a, b, g);
    }
  }

  lemma {:induction false} TapsXor(x: nat, y: nat, s: nat, t: nat, i: nat)
    requires i <= 5
    ensures Taps(Xor(x, y), Xor(s, t), i) == Xor(Taps(x, s, i), Taps(y, t, i))
  {
    if i == 0 {
    } else {
      TapsXor(x, y, s, t, i - 1);
      BitXor(s, t, i - 1);
      TapXor(Taps(x, s, i - 1), Bit(s, i - 1), Taps(y, t, i - 1), Bit(t, i - 1), Generator(i - 1));
    }
  }

  lemma StepXor(a: nat, u: nat, b: nat, v: nat)
    ensures Step(Xor(a, b), Xor(u, v)) == Xor(Step(a, u), Step(b, v))
  {
    XorFields(a, b, 25);
    var la, lb := Low(a, 25), Low(b, 25);
    XorShl(la, lb, 5);
    XorRegroup(Shl(la, 5), Shl(lb, 5), u, v);
    TapsXor(Xor(Shl(la, 5), u), Xor(Shl(lb, 5), v), Shr(a, 25), Shr(b, 25), 5);
  }

  function XorSeq(a: seq<nat>, b: seq<nat>): (d: seq<nat>)
    requires |a| == |b|
    ensures |d| == |a|
  {
    if a == [] then []
    else XorSeq(a[..|a| - 1], b[..|a| - 1]) + [Xor(a[|a| - 1], b[|a| - 1])]
  }

  lemma {:induction false} XorSeqAt(a: seq<nat>, b: seq<nat>, i: nat)
    requires |a| == |b| && i < |a|
    ensures XorSeq(a, b)[i] == Xor(a[i], b[i])
  {
    if i >= |a| - 1 {
    } else {
      XorSeqAt(a[..|a| - 1], b[..|a| - 1], i);
    }
  }

  /** The checksum register is linear in its start value and its symbols. */
  lemma {:induction false} Superposition(c: nat, d: nat, a: seq<nat>, b: seq<nat>)
    requires |a| == |b|
    ensures Run(Xor(c, d), XorSeq(a, b)) == Xor(Run(c, a), Run(d, b))
  {
    if a == [] {
    } else {
      var n := |a| - 1;
      Superposition(c, d, a[..n], b[..n]);
      assert XorSeq(a, b)[..n] == XorSeq(a[..n], b[..n]);
      StepXor(Run(c, a[..n]), a[n], Run(d, b[..n]), b[n]);
    }
  }

  // ---------------------------------------------------------------- injectivity of one step

  /** Taps with the start value factored out. */
  lemma {:induction false} TapsFromZero(x: nat, top: nat, i: nat)
    requires i <= 5
    ensures Taps(x, top, i) == Xor(x, Taps(0, top, i))
  {
    TapsXor(x, 0, 0, top, i);
    XorZero(x);
    XorZero(top);
    TapsZero(x, i);
  }

  lemma {:induction false} TapsZero(x: nat, i: nat)
    requires i <= 5
    ensures Taps(x, 0, i) == x
  {
    if i == 0 {
    } else {
      TapsZero(x, i - 1);
      LowOfSmall(0, i - 1);
    }
  }

  /** Bit j of the taps after generators 0..i-1: a parity of selected generator bits. */
  predicate Parity(top: nat, i: nat, j: nat)
    requires i <= 5
  {
    if i == 0 then false else Parity(top, i - 1, j) != (Bit(top, i - 1) && Bit(Generator(i - 1), j))
  }

  lemma {:induction false} TapsParity(top: nat, i: nat, j: nat)
    requires i <= 5
    ensures Bit(Taps(0, top, i), j) == Parity(top, i, j)
  {
    if i > 0 {
      TapsParity(top, i - 1, j);
      BitXor(Taps(0, top, i - 1), Generator(i - 1), j);
    } else {
      LowOfSmall(0, j);
    }
  }

  /** The low five bits of each generator. */
  lemma GeneratorBits0()
    ensures !Bit(Generator(0), 0) && Bit(Generator(0), 1) && !Bit(Generator(0), 2) && !Bit(Generator(0), 3) && Bit(Generator(0), 4)
  {
    ShrSmall(Generator(0));
  }

  lemma GeneratorBits1()
    ensures Bit(Generator(1), 0) && !Bit(Generator(1), 1) && Bit(Generator(1), 2) && Bit(Generator(1), 3) && !Bit(Generator(1), 4)
  {
    ShrSmall(Generator(1));
  }

  lemma GeneratorBits2()
    ensures !Bit(Generator(2), 0) && Bit(Generator(2), 1) && !Bit(Generator(2), 2) && Bit(Generator(2), 3) && Bit(Generator(2), 4)
  {
    ShrSmall(Generator(2));
  }

  lemma GeneratorBits3()
    ensures Bit(Generator(3), 0) && !Bit(Generator(3), 1) && Bit(Generator(3), 2) && Bit(Generator(3), 3) && Bit(Generator(3), 4)
  {
    ShrSmall(Generator(3));
  }

  lemma GeneratorBits4()
    ensures Bit(Generator(4), 0) && Bit(Generator(4), 1) && !Bit(Generator(4), 2) && !Bit(Generator(4), 3) && Bit(Generator(4), 4)
  {
    ShrSmall(Generator(4));
  }

  lemma GeneratorBits()
    ensures !Bit(Generator(0), 0) && Bit(Generator(0), 1) && !Bit(Generator(0), 2) && !Bit(Generator(0), 3) && Bit(Generator(0), 4)
    ensures Bit(Generator(1), 0) && !Bit(Generator(1), 1) && Bit(Generator(1), 2) && Bit(Generator(1), 3) && !Bit(Generator(1), 4)
    ensures !Bit(Generator(2), 0) && Bit(Generator(2), 1) && !Bit(Generator(2), 2) && Bit(Generator(2), 3) && Bit(Generator(2), 4)
    ensures Bit(Generator(3), 0) && !Bit(Generator(3), 1) && Bit(Generator(3), 2) && Bit(Generator(3), 3) && Bit(Generator(3), 4)
    ensures Bit(Generator(4), 0) && Bit(Generator(4), 1) && !Bit(Generator(4), 2) && !Bit(Generator(4), 3) && Bit(Generator(4), 4)
  {
    hide Bit, Generator;
    GeneratorBits0();
    GeneratorBits1();
    GeneratorBits2();
    GeneratorBits3();
    GeneratorBits4();
  }

  lemma ParityUnrolled(top: nat, j: nat)
    ensures Parity(top, 5, j) ==
            (((((Bit(top, 0) && Bit(Generator(0), j)) != (Bit(top, 1) && Bit(Generator(1), j)))
               != (Bit(top, 2) && Bit(Generator(2), j))) != (Bit(top, 3) && Bit(Generator(3), j)))
             != (Bit(top, 4) && Bit(Generator(4), j)))
  {
    assert Parity(top, 1, j) == (Bit(top, 0) && Bit(Generator(0), j));
    assert Parity(top, 3, j) == (Parity(top, 2, j) != (Bit(top, 2) && Bit(Generator(2), j)));
  }

  /** The low five bits of the generators are linearly independent. */
  lemma TapsLowNonzero(top: nat)
    requires 0 < top < 32
    ensures Low(Taps(0, top, 5), 5) != 0
  {
    GeneratorBits();
    TapsParity(top, 5, 0); ParityUnrolled(top, 0);
    TapsParity(top, 5, 1); ParityUnrolled(top, 1);
    TapsParity(top, 5, 2); ParityUnrolled(top, 2);
    TapsParity(top, 5, 3); ParityUnrolled(top, 3);
    TapsParity(top, 5, 4); ParityUnrolled(top, 4);
    var x := Taps(0, top, 5);
    if Low(x, 5) == 0 {
      NoLowBits(x);
      NoBits(top);
    }
  }

  lemma NoLowBits(x: nat)
    requires Low(x, 5) == 0
    ensures !Bit(x, 0) && !Bit(x, 1) && !Bit(x, 2) && !Bit(x, 3) && !Bit(x, 4)
  {
    ShrSmall(x);
    assert Low(x / 2, 4) == 0 && x % 2 == 0;
    assert Low(x / 2 / 2, 3) == 0;
    assert Low(x / 2 / 2 / 2, 2) == 0;
    assert Low(x / 2 / 2 / 2 / 2, 1) == 0;
  }

  lemma NoBits(x: nat)
    requires x < 32
    requires !Bit(x, 0) && !Bit(x, 1) && !Bit(x, 2) && !Bit(x, 3) && !Bit(x, 4)
    ensures x == 0
  {
    ShrSmall(x);
  }

  /** A nonzero 30-bit register never steps to zero on a zero symbol. */
  /** With top bits the taps leave low bits, which the shifted register has none of. */
  lemma StepTopped(chk: nat)
    requires chk < Pow2(30) && Shr(chk, 25) > 0
    ensures Step(chk, 0) != 0
  {
    var low, top := Low(chk, 25), Shr(chk, 25);
    ShrBound(chk, 5, 25);
    Widths();
    hide Taps, Shl, Shr, Low, Xor, Pow2;
    XorZero(Shl(low, 5));
    TapsFromZero(Shl(low, 5), top, 5);
    XorFields(Shl(low, 5), Taps(0, top, 5), 5);
    LowOfShifted(low);
    XorZero(Low(Taps(0, top, 5), 5));
    TapsLowNonzero(top);
    LowOfSmall(0, 5);
  }

  lemma LowOfShifted(low: nat)
    ensures Low(Shl(low, 5), 5) == 0
  {
    Widths();
    ShrOfSplit(low, 0, 5);
  }

  /** Without them the register is only shifted. */
  lemma StepUntopped(chk: nat)
    requires chk > 0 && Shr(chk, 25) == 0
    ensures Step(chk, 0) != 0
  {
    var low := Low(chk, 25);
    hide Taps, Low, Xor, Pow2;
    XorZero(Shl(low, 5));
    TapsZero(Shl(low, 5), 5);
    Split(chk, 25);
    ShlZero(25);
    ShlMonotone(0, low, 5);
    ShlZero(5);
  }

  lemma StepNonzero(chk: nat)
    requires 0 < chk < Pow2(30)
    ensures Step(chk, 0) != 0
  {
    if Shr(chk, 25) > 0 {
      StepTopped(chk);
    } else {
      StepUntopped(chk);
    }
  }

  lemma {:induction false} RunZerosNonzero(chk: nat, zeros: seq<nat>)
    requires 0 < chk < Pow2(30)
    requires forall i :: 0 <= i < |zeros| ==> zeros[i] == 0
    ensures 0 < Run(chk, zeros) < Pow2(30)
  {
    if zeros == [] {
    } else {
      var n := |zeros| - 1;
      RunZerosNonzero(chk, zeros[..n]);
      StepNonzero(Run(chk, zeros[..n]));
      StepBound(Run(chk, zeros[..n]), 0);
    }
  }

  lemma {:induction false} RunZerosFromZero(zeros: seq<nat>)
    requires forall i :: 0 <= i < |zeros| ==> zeros[i] == 0
    ensures Run(0, zeros) == 0
  {
    if zeros == [] {
    } else {
      RunZerosFromZero(zeros[..|zeros| - 1]);
      ShortStep(0, 0);
    }
  }

  // ---------------------------------------------------------------- up to six symbols fit the register

  /** The number whose base-32 digits are `w`, most significant first. */
  function Value(w: seq<nat>): nat {
    if w == [] then 0 else Shl(Value(w[..|w| - 1]), 5) + w[|w| - 1]
  }

  lemma NoTop(chk: nat)
    requires chk < Pow2(25)
    ensures Shr(chk, 25) == 0
  {
    ShrBound(chk, 0, 25);
  }

  lemma ShortStep(chk: nat, value: nat)
    requires chk < Pow2(25) && value < Pow2(5)
    ensures Step(chk, value) == Shl(chk, 5) + value
  {
    LowOfSmall(chk, 25);
    NoTop(chk);
    hide Taps, Shl, Low, Shr, Xor, Pow2;
    XorIsPlus(chk, value, 5);
    TapsZero(Shl(chk, 5) + value, 5);
  }

  lemma ShortRunStep(init: seq<nat>, v: nat, k: nat)
    requires Run(0, init) == Value(init) < Pow2(k) && k <= 25 && v < Pow2(5)
    ensures Run(0, init + [v]) == Value(init + [v]) < Pow2(k + 5)
  {
    hide Run, Value, Step, Shl, Pow2;
    OneMore(init, v);
    Pow2Monotone(k, 25);
    ShortStep(Value(init), v);
    ShiftBound(Value(init), v, k);
  }

  lemma ShiftBound(x: nat, v: nat, k: nat)
    requires x < Pow2(k) && v < Pow2(5)
    ensures Shl(x, 5) + v < Pow2(k + 5)
  {
    ShlMonotone(x, Pow2(k), 5);
    ShlPow(k, 5);
  }

  lemma OneMore(init: seq<nat>, v: nat)
    ensures Run(0, init + [v]) == Step(Run(0, init), v) && Value(init + [v]) == Shl(Value(init), 5) + v
  {
    var w := init + [v];
    assert w[..|w| - 1] == init;
    hide Step;
  }

  lemma {:induction false} ShortRun(w: seq<nat>)
    requires |w| <= 6 && Symbols(w)
    ensures Run(0, w) == Value(w) < Pow2(5 * |w|)
  {
    if w == [] {
    } else {
      var n := |w| - 1;
      ShortRun(w[..n]);
      ShortRunStep(w[..n], w[n], 5 * n);
      assert w == w[..n] + [w[n]];
    }
  }

  lemma {:induction false} ValueInjective(a: seq<nat>, b: seq<nat>)
    requires |a| == |b| && Symbols(a) && Symbols(b) && Value(a) == Value(b)
    ensures a == b
  {
    if a == [] {
    } else {
      var n := |a| - 1;
      ShrOfSplit(Value(a[..n]), a[n], 5);
      ShrOfSplit(Value(b[..n]), b[n], 5);
      ValueInjective(a[..n], b[..n]);
      assert a == a[..n] + [a[n]] && b == b[..n] + [b[n]];
    }
  }

  lemma {:induction false} ValueZero(w: seq<nat>)
    requires Value(w) == 0
    ensures forall i :: 0 <= i < |w| ==> w[i] == 0
  {
    if w == [] {
    } else {
      var n := |w| - 1;
      if Value(w[..n]) > 0 { ShlMonotone(0, Value(w[..n]), 5); }
      ValueZero(w[..n]);
      forall i | 0 <= i < |w| ensures w[i] == 0 {
        if i < n { assert w[i] == w[..n][i]; }
      }
    }
  }

  // ---------------------------------------------------------------- checksum symbols

  /** The k lowest five-bit digits, most significant first. */
  function Extract(mod: nat, k: nat): (s: seq<nat>)
    ensures |s| == k
    decreases k
  {
    if k == 0 then [] else Extract(Shr(mod, 5), k - 1) + [Low(mod, 5)]
  }

  /** Digit i is `(mod >>> 5 * (k - 1 - i)) & 31`. */
  lemma {:induction false} ExtractDigit(mod: nat, k: nat, i: nat)
    requires i < k
    ensures Extract(mod, k)[i] == Low(Shr(mod, 5 * (k - 1 - i)), 5)
    decreases k
  {
    if i >= k - 1 {
    } else {
      ExtractDigit(Shr(mod, 5), k - 1, i);
      ShrShr(mod, 5, 5 * (k - 2 - i));
    }
  }

  lemma {:induction false} ExtractDigits(mod: nat, k: nat)
    requires mod < Pow2(5 * k)
    ensures Symbols(Extract(mod, k)) && Value(Extract(mod, k)) == mod
    decreases k
  {
    if k == 0 {
    } else {
      ShrBound(mod, 5 * (k - 1), 5);
      ExtractDigits(Shr(mod, 5), k - 1);
      Split(mod, 5);
      LowBound(mod, 5);
      assert Extract(mod, k)[..k - 1] == Extract(Shr(mod, 5), k - 1);
    }
  }

  const SIX_ZEROS: seq<nat> := [0, 0, 0, 0, 0, 0]

  /** The six checksum symbols of an expanded prefix and data. */
  function ChecksumOf(values: seq<nat>): (s: seq<nat>)
    ensures |s| == 6
  {
    Extract(Xor(Run(1, values + SIX_ZEROS), BECH32M_CONST), 6)
  }

  method ComputeChecksum(values: seq<nat>) returns (s: seq<nat>)
    ensures s == ChecksumOf(values)
  {
    var mod := Polymod(values + SIX_ZEROS);
    mod := Xor(mod, BECH32M_CONST);
    s := [];
    for i := 0 to 6
      invariant s == Extract(mod, 6)[..i]
    {
      ExtractDigit(mod, 6, i);
      s := s + [Low(Shr(mod, 5 * (5 - i)), 5)];
    }
  }

  /** Appending six symbols xors their base-32 value into the zero-padded register. */
  lemma AppendSix(values: seq<nat>, s: seq<nat>)
    requires |s| == 6 && Symbols(s)
    ensures Run(1, values + s) == Xor(Run(1, values + SIX_ZEROS), Value(s))
  {
    var c := Run(1, values);
    RunConcat(1, values, s);
    RunConcat(1, values, SIX_ZEROS);
    Superposition(c, 0, SIX_ZEROS, s);
    XorZero(c);
    assert XorSeq(SIX_ZEROS, s) == s by {
      forall i | 0 <= i < 6 ensures XorSeq(SIX_ZEROS, s)[i] == s[i] { XorSeqAt(SIX_ZEROS, s, i); XorZero(s[i]); }
    }
    ShortRun(s);
  }

  /**
   The six checksum symbols are uniquely determined: exactly one choice verifies,
   and it is the one the encoder computes.
   */
  lemma ChecksumUnique(values: seq<nat>, s: seq<nat>)
    requires Digits(values, 30) && |s| == 6 && Symbols(s)
    ensures Run(1, values + s) == BECH32M_CONST <==> s == ChecksumOf(values)
    ensures Symbols(ChecksumOf(values))
  {
    Widths();
    var m := Run(1, values + SIX_ZEROS);
    RunBound(1, values + SIX_ZEROS);
    XorBound(m, BECH32M_CONST, 30);
    ExtractDigits(Xor(m, BECH32M_CONST), 6);
    AppendSix(values, s);
    if s == ChecksumOf(values) {
      XorCancel(m, BECH32M_CONST);
    }
    if Run(1, values + s) == BECH32M_CONST {
      XorCancel(m, Value(s));
      ValueInjective(s, ChecksumOf(values));
    }
  }

  // ---------------------------------------------------------------- error bursts

  /** Different registers stay different over the same symbols. */
  lemma RunInjective(x: nat, y: nat, post: seq<nat>)
    requires x != y && x < Pow2(30) && y < Pow2(30)
    ensures Run(x, post) != Run(y, post)
  {
    Superposition(x, y, post, post);
    var d := XorSeq(post, post);
    forall i | 0 <= i < |d| ensures d[i] == 0 { XorSeqAt(post, post, i); XorSelf(post[i]); }
    XorBound(x, y, 30);
    XorNonzero(x, y);
    RunZerosNonzero(Xor(x, y), d);
    XorNonzero(Run(x, post), Run(y, post));
  }

  /** A step with the same symbol never merges two registers. */
  lemma StepInjective(x: nat, y: nat, value: nat)
    requires x != y && x < Pow2(30) && y < Pow2(30)
    ensures Step(x, value) != Step(y, value)
  {
    RunInjective(x, y, [value]);
    assert [value][..0] == [];
    assert Run(x, [value]) == Step(Run(x, []), value) && Run(y, [value]) == Step(Run(y, []), value);
  }

  /** At most six different symbols shift the register by a nonzero amount. */
  lemma WindowInjective(c: nat, u: seq<nat>, v: seq<nat>)
    requires |u| == |v| <= 6 && Symbols(u) && Symbols(v) && u != v
    ensures Run(c, u) != Run(c, v)
  {
    var d := XorSeq(u, v);
    forall i | 0 <= i < |d| ensures d[i] < Pow2(5) { XorSeqAt(u, v, i); XorBound(u[i], v[i], 5); }
    Superposition(c, c, u, v);
    XorSelf(c);
    ShortRun(d);
    var k :| 0 <= k < |u| && u[k] != v[k];
    XorSeqAt(u, v, k);
    XorNonzero(u[k], v[k]);
    if Value(d) == 0 { ValueZero(d); }
    XorNonzero(Run(c, u), Run(c, v));
  }

  /**
   Burst detection at any length: whatever precedes and follows, two different
   fillings of at most six consecutive positions leave different registers, so at
   most one of them verifies.
   */
  lemma BurstDetected(c: nat, pre: seq<nat>, u: seq<nat>, v: seq<nat>, post: seq<nat>)
    requires c < Pow2(30) && Digits(pre, 30)
    requires |u| == |v| <= 6 && Symbols(u) && Symbols(v) && u != v
    ensures Run(c, pre + u + post) != Run(c, pre + v + post)
  {
    RunConcat(c, pre + u, post);
    RunConcat(c, pre + v, post);
    RunConcat(c, pre, u);
    RunConcat(c, pre, v);
    var r := Run(c, pre);
    RunBound(c, pre);
    Pow2Monotone(5, 30);
    RunBound(r, u);
    RunBound(r, v);
    WindowInjective(r, u, v);
    RunInjective(Run(r, u), Run(r, v), post);
  }
}
