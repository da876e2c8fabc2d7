/**
 The checksum on a known string of BIP-350, "A1LQFN3A", computed step by step: it
 ties the constant, the generators, the prefix expansion and the alphabet to a
 value from outside.
 */
module KnownStrings {
  import opened Wrappers
  import opened Words
  import opened Checksum
  import opened Bech32

  // ---------------------------------------------------------------- words as bits

  /** A bit below a number. */
  function Double(x: nat, on: bool): nat {
    2 * x + (if on then 1 else 0)
  }

  lemma XorDouble(x: nat, y: nat, p: bool, q: bool)
    ensures Xor(Double(x, p), Double(y, q)) == Double(Xor(x, y), p != q)
  {
    XorHalf(x, if p then 1 else 0, y, if q then 1 else 0);
    hide Xor;
  }

  lemma BitDouble(x: nat, p: bool, j: nat)
    ensures Bit(Double(x, p), 0) == p && Bit(Double(x, p), j + 1) == Bit(x, j)
  {
    assert Double(x, p) / 2 == x;
  }

  /** Five bits, the most significant first. */
  datatype Five = Five(p: bool, q: bool, r: bool, s: bool, t: bool) {
    /** The five bits below a number. */
    function Below(x: nat): nat {
      Double(Double(Double(Double(Double(x, p), q), r), s), t)
    }

    function Plus(v: Five): Five {
      Five(p != v.p, q != v.q, r != v.r, s != v.s, t != v.t)
    }

    /** The bit of weight 2^i. */
    predicate At(i: nat) {
      if i == 0 then t else if i == 1 then s else if i == 2 then r else if i == 3 then q else i == 4 && p
    }
  }

  lemma XorBelow(x: nat, y: nat, u: Five, v: Five)
    ensures Xor(u.Below(x), v.Below(y)) == u.Plus(v).Below(Xor(x, y))
  {
    hide Xor, Double;
    XorDouble(x, y, u.p, v.p);
    var x1, y1 := Double(x, u.p), Double(y, v.p);
    XorDouble(x1, y1, u.q, v.q);
    var x2, y2 := Double(x1, u.q), Double(y1, v.q);
    XorDouble(x2, y2, u.r, v.r);
    var x3, y3 := Double(x2, u.r), Double(y2, v.r);
    XorDouble(x3, y3, u.s, v.s);
    XorDouble(Double(x3, u.s), Double(y3, v.s), u.t, v.t);
  }

  lemma BitsBelow(u: Five, i: nat)
    requires i < 5
    ensures Bit(u.Below(0), i) == u.At(i)
  {
    hide Double, Bit;
    var x1 := Double(0, u.p);
    var x2 := Double(x1, u.q);
    var x3 := Double(x2, u.r);
    var x4 := Double(x3, u.s);
    BitDouble(0, u.p, 0);
    BitDouble(x1, u.q, if i < 4 then 0 else i - 4);
    BitDouble(x2, u.r, if i < 3 then 0 else i - 3);
    BitDouble(x3, u.s, if i < 2 then 0 else i - 2);
    BitDouble(x4, u.t, if i < 1 then 0 else i - 1);
  }

  /** A 30-bit word in six groups, the most significant first. */
  datatype Word = Word(a: Five, b: Five, c: Five, d: Five, e: Five, f: Five) {
    function Value(): nat {
      f.Below(e.Below(d.Below(c.Below(b.Below(a.Below(0))))))
    }

    function Plus(w: Word): Word {
      Word(a.Plus(w.a), b.Plus(w.b), c.Plus(w.c), d.Plus(w.d), e.Plus(w.e), f.Plus(w.f))
    }

    /** The first i generators, each selected by a bit of `top`. */
    function Tapped(top: Five, i: nat): Word
      requires i <= 5
    {
      if i == 0 then this
      else if top.At(i - 1) then Tapped(top, i - 1).Plus(Generators(i - 1))
      else Tapped(top, i - 1)
    }

    /** One step of the register: a group leaves, a symbol enters, and the bits that leave select the generators. */
    function Next(v: Five): Word {
      Word(b, c, d, e, f, v).Tapped(a, 5)
    }
  }

  lemma XorWord(u: Word, w: Word)
    ensures Xor(u.Value(), w.Value()) == u.Plus(w).Value()
  {
    XorZero(0);
    hide Xor, Five.Below, Five.Plus;
    XorBelow(0, 0, u.a, w.a);
    var x1, y1 := u.a.Below(0), w.a.Below(0);
    XorBelow(x1, y1, u.b, w.b);
    var x2, y2 := u.b.Below(x1), w.b.Below(y1);
    XorBelow(x2, y2, u.c, w.c);
    var x3, y3 := u.c.Below(x2), w.c.Below(y2);
    XorBelow(x3, y3, u.d, w.d);
    var x4, y4 := u.d.Below(x3), w.d.Below(y3);
    XorBelow(x4, y4, u.e, w.e);
    XorBelow(u.e.Below(x4), w.e.Below(y4), u.f, w.f);
  }

  const F0 := Five(false, false, false, false, false)
  const F1 := Five(false, false, false, false, true)
  const F2 := Five(false, false, false, true, false)
  const F3 := Five(false, false, false, true, true)
  const F4 := Five(false, false, true, false, false)
  const F5 := Five(false, false, true, false, true)
  const F6 := Five(false, false, true, true, false)
  const F7 := Five(false, false, true, true, true)
  const F8 := Five(false, true, false, false, false)
  const F9 := Five(false, true, false, false, true)
  const F10 := Five(false, true, false, true, false)
  const F11 := Five(false, true, false, true, true)
  const F12 := Five(false, true, true, false, false)
  const F13 := Five(false, true, true, false, true)
  const F14 := Five(false, true, true, true, false)
  const F15 := Five(false, true, true, true, true)
  const F16 := Five(true, false, false, false, false)
  const F17 := Five(true, false, false, false, true)
  const F18 := Five(true, false, false, true, false)
  const F19 := Five(true, false, false, true, true)
  const F20 := Five(true, false, true, false, false)
  const F21 := Five(true, false, true, false, true)
  const F22 := Five(true, false, true, true, false)
  const F23 := Five(true, false, true, true, true)
  const F24 := Five(true, true, false, false, false)
  const F25 := Five(true, true, false, false, true)
  const F26 := Five(true, true, false, true, false)
  const F27 := Five(true, true, false, true, true)
  const F28 := Five(true, true, true, false, false)
  const F29 := Five(true, true, true, false, true)
  const F30 := Five(true, true, true, true, false)
  const F31 := Five(true, true, true, true, true)

  function Generators(i: nat): Word
    requires i < 5
  {
    if i == 0 then Word(F29, F22, F20, F21, F29, F18)
    else if i == 1 then Word(F19, F5, F1, F3, F19, F13)
    else if i == 2 then Word(F15, F10, F2, F6, F15, F26)
    else if i == 3 then Word(F30, F20, F4, F12, F30, F29)
    else Word(F21, F1, F8, F24, F21, F19)
  }

  lemma BelowIs(v: Five, x: nat)
    ensures v.Below(x) == 32 * x + v.Below(0) && v.Below(0) < 32
  {
  }

  lemma FiveIs(v: Five)
    ensures v.Below(0) == (if v.p then 16 else 0) + (if v.q then 8 else 0) + (if v.r then 4 else 0) + (if v.s then 2 else 0) + (if v.t then 1 else 0)
  {
  }

  lemma WordIs(w: Word)
    ensures w.Value() == w.f.Below(0) + 32 * (w.e.Below(0) + 32 * (w.d.Below(0) + 32 * (w.c.Below(0) + 32 * (w.b.Below(0) + 32 * w.a.Below(0)))))
  {
    hide Five.Below;
    var x1 := w.a.Below(0);
    BelowIs(w.b, x1);
    var x2 := w.b.Below(x1);
    BelowIs(w.c, x2);
    var x3 := w.c.Below(x2);
    BelowIs(w.d, x3);
    var x4 := w.d.Below(x3);
    BelowIs(w.e, x4);
    BelowIs(w.f, w.e.Below(x4));
  }

  lemma GeneratorWord0()
    ensures Generators(0).Value() == Generator(0)
  {
    hide Five.Below, Word.Value;
    WordIs(Generators(0));
    FiveIs(F18);
    FiveIs(F20);
    FiveIs(F21);
    FiveIs(F22);
    FiveIs(F29);
  }

  lemma GeneratorWord1()
    ensures Generators(1).Value() == Generator(1)
  {
    hide Five.Below, Word.Value;
    WordIs(Generators(1));
    FiveIs(F1);
    FiveIs(F3);
    FiveIs(F5);
    FiveIs(F13);
    FiveIs(F19);
  }

  lemma GeneratorWord2()
    ensures Generators(2).Value() == Generator(2)
  {
    hide Five.Below, Word.Value;
    WordIs(Generators(2));
    FiveIs(F2);
    FiveIs(F6);
    FiveIs(F10);
    FiveIs(F15);
    FiveIs(F26);
  }

  lemma GeneratorWord3()
    ensures Generators(3).Value() == Generator(3)
  {
    hide Five.Below, Word.Value;
    WordIs(Generators(3));
    FiveIs(F4);
    FiveIs(F12);
    FiveIs(F20);
    FiveIs(F29);
    FiveIs(F30);
  }

  lemma GeneratorWord4()
    ensures Generators(4).Value() == Generator(4)
  {
    hide Five.Below, Word.Value;
    WordIs(Generators(4));
    FiveIs(F1);
    FiveIs(F8);
    FiveIs(F19);
    FiveIs(F21);
    FiveIs(F24);
  }

  lemma GeneratorWord(i: nat)
    requires i < 5
    ensures Generators(i).Value() == Generator(i)
  {
    hide *;
    GeneratorWord0();
    GeneratorWord1();
    GeneratorWord2();
    GeneratorWord3();
    GeneratorWord4();
  }

  lemma {:induction false} TappedWord(u: Word, top: Five, i: nat)
    requires i <= 5
    ensures Taps(u.Value(), top.Below(0), i) == u.Tapped(top, i).Value()
  {
    hide Word.Value, Word.Plus, Xor, Bit, Generators, Generator, Five.At, Five.Below;
    if i == 0 {
    } else {
      TappedWord(u, top, i - 1);
      BitsBelow(top, i - 1);
      GeneratorWord(i - 1);
      XorWord(u.Tapped(top, i - 1), Generators(i - 1));
    }
  }

  lemma Feed9()
    ensures Word(F1, F3, F0, F1, F31, F0).Next(F9) == Word(F30, F22, F21, F10, F29, F27)
  {
  }

  lemma Feed19()
    ensures Word(F30, F22, F21, F10, F29, F27).Next(F19) == Word(F1, F15, F5, F12, F12, F10)
  {
    var x := Word(F22, F21, F10, F29, F27, F19);
    assert x.Tapped(F30, 2) == Word(F5, F16, F11, F30, F8, F30);
    assert x.Tapped(F30, 3) == Word(F10, F26, F9, F24, F7, F4);
    assert x.Tapped(F30, 4) == Word(F20, F14, F13, F20, F25, F25);
  }

  lemma Feed17()
    ensures Word(F1, F15, F5, F12, F12, F10).Next(F17) == Word(F18, F19, F24, F25, F23, F3)
  {
  }

  lemma Feed29()
    ensures Word(F18, F19, F24, F25, F23, F3).Next(F29) == Word(F21, F28, F16, F12, F5, F3)
  {
  }

  lemma {:induction false} ShlShl(x: nat, j: nat, k: nat)
    ensures Shl(Shl(x, j), k) == Shl(x, j + k)
  {
    if k == 0 {
    } else {
      ShlShl(x, j, k - 1);
    }
  }

  lemma Shl5(x: nat)
    ensures Shl(x, 5) == 32 * x
  {
    assert Shl(x, 1) == 2 * x;
    ShlShl(x, 1, 1);
    assert Shl(2 * x, 1) == 4 * x;
    ShlShl(x, 2, 2);
    assert Shl(4 * x, 1) == 8 * x;
    ShlShl(4 * x, 1, 1);
    assert Shl(8 * x, 1) == 16 * x;
  }

  lemma Shl25(x: nat)
    ensures Shl(x, 25) == 0x2000000 * x
  {
    hide Shl;
    Shl5(x);
    ShlShl(x, 5, 5);
    Shl5(32 * x);
    ShlShl(x, 10, 5);
    Shl5(0x400 * x);
    ShlShl(x, 15, 5);
    Shl5(0x8000 * x);
    ShlShl(x, 20, 5);
    Shl5(0x100000 * x);
  }

  lemma FiveBelow(x: nat, b: Five, c: Five, d: Five, e: Five, f: Five)
    ensures var low := f.Below(e.Below(d.Below(c.Below(b.Below(0)))));
            f.Below(e.Below(d.Below(c.Below(b.Below(x))))) == 0x2000000 * x + low && low < 0x2000000
  {
    hide Five.Below;
    var x1, y1 := b.Below(x), b.Below(0);
    BelowIs(b, x); BelowIs(b, 0);
    var x2, y2 := c.Below(x1), c.Below(y1);
    BelowIs(c, x1); BelowIs(c, y1);
    var x3, y3 := d.Below(x2), d.Below(y2);
    BelowIs(d, x2); BelowIs(d, y2);
    var x4, y4 := e.Below(x3), e.Below(y3);
    BelowIs(e, x3); BelowIs(e, y3);
    BelowIs(f, x4); BelowIs(f, y4);
  }

  lemma Shifted(u: Word, v: Five)
    ensures Xor(Shl(Low(u.Value(), 25), 5), v.Below(0)) == Word(u.b, u.c, u.d, u.e, u.f, v).Value()
    ensures Shr(u.Value(), 25) == u.a.Below(0)
  {
    hide Five.Below, Xor, Shl, Low, Shr;
    var low := u.f.Below(u.e.Below(u.d.Below(u.c.Below(u.b.Below(0)))));
    Widths();
    FiveBelow(u.a.Below(0), u.b, u.c, u.d, u.e, u.f);
    Shl25(u.a.Below(0));
    ShrOfSplit(u.a.Below(0), low, 25);
    BelowIs(v, low);
    Shl5(low);
    XorIsPlus(low, v.Below(0), 5);
    WordValue(Word(u.b, u.c, u.d, u.e, u.f, v), low);
  }

  lemma WordValue(x: Word, low: nat)
    requires low == x.e.Below(x.d.Below(x.c.Below(x.b.Below(x.a.Below(0)))))
    ensures x.Value() == x.f.Below(low)
  {
  }

  lemma NextWord(u: Word, v: Five)
    ensures Step(u.Value(), v.Below(0)) == u.Next(v).Value()
  {
    hide Five.Below, Word.Value, Word.Tapped, Taps, Xor, Shl, Low, Shr;
    Shifted(u, v);
    TappedWord(Word(u.b, u.c, u.d, u.e, u.f, v), u.a, 5);
  }

  // ---------------------------------------------------------------- the string

  lemma Fed(u: Word, v: Five, w: Word, chk: nat, values: seq<nat>, symbol: nat, all: seq<nat>)
    requires Run(chk, values) == u.Value() && u.Next(v) == w && symbol == v.Below(0) && all == values + [symbol]
    ensures Run(chk, all) == w.Value()
  {
    hide Five.Below, Word.Value, Word.Next, Step;
    assert all[..|all| - 1] == values;
    NextWord(u, v);
  }

  /** The register over the string: it ends on the constant. */
  lemma KnownRun()
    ensures Run(1, [3, 0, 1, 31, 0, 9, 19, 17, 29]) == BECH32M_CONST
  {
    hide Five.Below, Word.Value, Word.Next, Run;
    FiveIs(F0);
    FiveIs(F1);
    FiveIs(F3);
    FiveIs(F9);
    FiveIs(F17);
    FiveIs(F19);
    FiveIs(F29);
    FiveIs(F31);
    KnownStart();
    Feed0(Word(F0, F0, F0, F0, F0, F1), F3, Word(F0, F0, F0, F0, F1, F3));
    Fed(Word(F0, F0, F0, F0, F0, F1), F3, Word(F0, F0, F0, F0, F1, F3), 1, [], 3, [3]);
    Feed0(Word(F0, F0, F0, F0, F1, F3), F0, Word(F0, F0, F0, F1, F3, F0));
    Fed(Word(F0, F0, F0, F0, F1, F3), F0, Word(F0, F0, F0, F1, F3, F0), 1, [3], 0, [3, 0]);
    Feed0(Word(F0, F0, F0, F1, F3, F0), F1, Word(F0, F0, F1, F3, F0, F1));
    Fed(Word(F0, F0, F0, F1, F3, F0), F1, Word(F0, F0, F1, F3, F0, F1), 1, [3, 0], 1, [3, 0, 1]);
    Feed0(Word(F0, F0, F1, F3, F0, F1), F31, Word(F0, F1, F3, F0, F1, F31));
    Fed(Word(F0, F0, F1, F3, F0, F1), F31, Word(F0, F1, F3, F0, F1, F31), 1, [3, 0, 1], 31, [3, 0, 1, 31]);
    Feed0(Word(F0, F1, F3, F0, F1, F31), F0, Word(F1, F3, F0, F1, F31, F0));
    Fed(Word(F0, F1, F3, F0, F1, F31), F0, Word(F1, F3, F0, F1, F31, F0), 1, [3, 0, 1, 31], 0, [3, 0, 1, 31, 0]);
    Feed9();
    Fed(Word(F1, F3, F0, F1, F31, F0), F9, Word(F30, F22, F21, F10, F29, F27), 1, [3, 0, 1, 31, 0], 9, [3, 0, 1, 31, 0, 9]);
    Feed19();
    Fed(Word(F30, F22, F21, F10, F29, F27), F19, Word(F1, F15, F5, F12, F12, F10), 1, [3, 0, 1, 31, 0, 9], 19, [3, 0, 1, 31, 0, 9, 19]);
    Feed17();
    Fed(Word(F1, F15, F5, F12, F12, F10), F17, Word(F18, F19, F24, F25, F23, F3), 1, [3, 0, 1, 31, 0, 9, 19], 17, [3, 0, 1, 31, 0, 9, 19, 17]);
    Feed29();
    Fed(Word(F18, F19, F24, F25, F23, F3), F29, Word(F21, F28, F16, F12, F5, F3), 1, [3, 0, 1, 31, 0, 9, 19, 17], 29, [3, 0, 1, 31, 0, 9, 19, 17, 29]);
    KnownEnd(Word(F21, F28, F16, F12, F5, F3));
  }

  lemma KnownStart()
    ensures Run(1, []) == Word(F0, F0, F0, F0, F0, F1).Value()
  {
    WordIs(Word(F0, F0, F0, F0, F0, F1));
    FiveIs(F0);
    FiveIs(F1);
  }

  lemma KnownEnd(w: Word)
    requires w == Word(F21, F28, F16, F12, F5, F3)
    ensures w.Value() == BECH32M_CONST
  {
    hide Five.Below, Word.Value;
    WordIs(w);
    FiveIs(F3);
    FiveIs(F5);
    FiveIs(F12);
    FiveIs(F16);
    FiveIs(F21);
    FiveIs(F28);
  }

  /** A group of zeros leaves without selecting anything. */
  lemma Feed0(u: Word, v: Five, w: Word)
    requires u.a == F0 && w == Word(u.b, u.c, u.d, u.e, u.f, v)
    ensures u.Next(v) == w
  {
    hide Word.Plus;
    assert w.Tapped(F0, 1) == w;
    assert w.Tapped(F0, 2) == w;
    assert w.Tapped(F0, 3) == w;
    assert w.Tapped(F0, 4) == w;
  }

  lemma KnownPrefix()
    ensures HrpExpand("a") == [3, 0, 1]
  {
    assert "a"[..0] == "";
    ShrSmall(Code('a'));
    assert Shr(97, 5) == Shr(48, 4) == 3 by { ShrSmall(48); }
    assert Low(97, 5) == 1;
    assert HighBits("a") == [3] && LowBits("a") == [1];
  }

  lemma {:induction false} LowerIs(s: string, t: string)
    requires |s| == |t| && forall i :: 0 <= i < |s| ==> t[i] == LowerChar(s[i])
    ensures Lower(s) == t
  {
    if s == "" {
    } else {
      LowerIs(s[..|s| - 1], t[..|s| - 1]);
      SplitAt(t, |s| - 1);
    }
  }

  lemma {:induction false} UpperIs(s: string, t: string)
    requires |s| == |t| && forall i :: 0 <= i < |s| ==> t[i] == UpperChar(s[i])
    ensures Upper(s) == t
  {
    if s == "" {
    } else {
      UpperIs(s[..|s| - 1], t[..|s| - 1]);
      SplitAt(t, |s| - 1);
    }
  }

  lemma {:induction false} SymbolsAre(s: string, values: seq<nat>)
    requires |s| == |values| && forall i :: 0 <= i < |s| ==> values[i] < 32 && CHARSET[values[i]] == s[i]
    ensures ReadSymbols(s) == Some(values)
  {
    hide CHARSET, SymbolOf;
    if s == "" {
    } else {
      var n := |s| - 1;
      SymbolsAre(s[..n], values[..n]);
      hide ReadSymbols;
      ReadSnoc(s[..n], values[n]);
      assert s == s[..n] + [s[n]] && values == values[..n] + [values[n]];
    }
  }

  lemma KnownText()
    ensures Lower("A1LQFN3A") == "a1lqfn3a" && Upper("A1LQFN3A") == "A1LQFN3A"
    ensures ReadSymbols("lqfn3a") == Some([31, 0, 9, 19, 17, 29])
  {
    LowerIs("A1LQFN3A", "a1lqfn3a");
    UpperIs("A1LQFN3A", "A1LQFN3A");
    hide Lower, Upper, ReadSymbols;
    KnownSymbols();
  }

  lemma KnownSymbols()
    ensures ReadSymbols("lqfn3a") == Some([31, 0, 9, 19, 17, 29])
  {
    SymbolsAre("lqfn3a", [31, 0, 9, 19, 17, 29]);
  }

  /** The symbols 0 to 31, as they are written. */
  lemma Alphabet(symbols: seq<nat>)
    requires |symbols| == 32 && forall i :: 0 <= i < 32 ==> symbols[i] == i
    ensures ReadSymbols("qpzry9x8gf2tvdw0s3jn54khce6mua7l") == Some(symbols)
    ensures Symbols(symbols) && Render(symbols) == "qpzry9x8gf2tvdw0s3jn54khce6mua7l"
  {
    hide ReadSymbols, Render, Symbols;
    SymbolsAre("qpzry9x8gf2tvdw0s3jn54khce6mua7l", symbols);
    RenderOfRead("qpzry9x8gf2tvdw0s3jn54khce6mua7l");
  }

  lemma ExpandSnoc(s: string, c: char)
    ensures HighBits(s + [c]) == HighBits(s) + [Shr(Code(c), 5)] && LowBits(s + [c]) == LowBits(s) + [Low(Code(c), 5)]
  {
    assert (s + [c])[..|s|] == s;
  }

  lemma LetterBits(n: nat)
    requires n in {99, 108, 111}
    ensures Shr(n, 5) == 3 && Low(n, 5) == n - 96
  {
    ShrSmall(n / 2);
    assert Shr(n, 5) == Shr(n / 2, 4);
    LowOfSmall(n - 96, 5);
    assert n == Shl(3, 5) + (n - 96);
    ShrOfSplit(3, n - 96, 5);
  }

  /** A prefix is expanded to its letters' high bits, in order, a zero, and their low bits. */
  lemma ExpandedPrefix()
    ensures HrpExpand("olc") == [3, 3, 3, 0, 15, 12, 3]
  {
    hide Shr, Low;
    LetterBits(111);
    LetterBits(108);
    LetterBits(99);
    assert HighBits("") == [] && LowBits("") == [];
    ExpandSnoc("", 'o');
    ExpandSnoc("o", 'l');
    ExpandSnoc("ol", 'c');
    hide HighBits, LowBits;
    assert "" + ['o'] == "o" && "o" + ['l'] == "ol" && "ol" + ['c'] == "olc";
  }

  /** The uppercase string is accepted with the prefix "a" and no data, and its lowercase form is what the encoder writes for them. */
  lemma KnownString()
    ensures Decode("A1LQFN3A") == Some(Decoded("a", []))
    ensures Encode("a", []) == Some("a1lqfn3a")
  {
    KnownText();
    KnownPrefix();
    KnownRun();
    hide Lower, Upper, ReadSymbols, HrpExpand, Run, Encode;
    LastSeparatorAt("a1lqfn3a", 1);
    assert "a1lqfn3a"[..1] == "a" && "a1lqfn3a"[2..] == "lqfn3a";
    assert [3, 0, 1] + [31, 0, 9, 19, 17, 29] == [3, 0, 1, 31, 0, 9, 19, 17, 29];
    EncodeOfDecode("A1LQFN3A", Decoded("a", []));
  }
}
