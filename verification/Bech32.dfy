/**
 Bech32m strings: a lowercase prefix, the separator "1", data symbols and six
 checksum symbols, each symbol one of 32 characters.
 Characters are code points; case mapping is the ASCII one.
 */
module Bech32 {
  import opened Wrappers
  import opened Words
  import opened Checksum

  const CHARSET: string := "qpzry9x8gf2tvdw0s3jn54khce6mua7l"

  function Code(c: char): nat {
    c as int
  }

  function LowerChar(c: char): char {
    if 'A' <= c <= 'Z' then (Code(c) + 32) as char else c
  }

  function UpperChar(c: char): char {
    if 'a' <= c <= 'z' then (Code(c) - 32) as char else c
  }

  function Lower(s: string): (t: string)
    ensures |t| == |s|
  {
    if s == "" then "" else Lower(s[..|s| - 1]) + [LowerChar(s[|s| - 1])]
  }

  function Upper(s: string): (t: string)
    ensures |t| == |s|
  {
    if s == "" then "" else Upper(s[..|s| - 1]) + [UpperChar(s[|s| - 1])]
  }

  predicate Printable(s: string) {
    forall i :: 0 <= i < |s| ==> 33 <= Code(s[i]) <= 126
  }

  /** Position of the first occurrence of c at or after i, or |s|. */
  function IndexFrom(s: string, c: char, i: nat): (k: nat)
    requires i <= |s|
    ensures i <= k <= |s|
    ensures k < |s| ==> s[k] == c
    decreases |s| - i
  {
    if i == |s| || s[i] == c then i else IndexFrom(s, c, i + 1)
  }

  /** `CHARSET.indexOf(c)`, with 32 for a foreign character. */
  function SymbolOf(c: char): (v: nat)
    ensures v <= 32 && (v < 32 ==> CHARSET[v] == c)
  {
    IndexFrom(CHARSET, c, 0)
  }

  function Render(values: seq<nat>): (s: string)
    requires Symbols(values)
    ensures |s| == |values|
  {
    SmallSymbols(values);
    if values == [] then ""
    else Render(values[..|values| - 1]) + [CHARSET[values[|values| - 1]]]
  }

  lemma SmallSymbols(values: seq<nat>)
    requires Symbols(values)
    ensures forall i :: 0 <= i < |values| ==> values[i] < 32
  {
    Widths();
  }

  /** The symbols of a string, or None at the first foreign character. */
  function ReadSymbols(s: string): (r: Option<seq<nat>>)
    ensures r.Some? ==> |r.value| == |s|
  {
    if s == "" then Some([])
    else
      match ReadSymbols(s[..|s| - 1])
      case None => None
      case Some(init) =>
        var v := SymbolOf(s[|s| - 1]);
        if v < 32 then Some(init + [v]) else None
  }

  /** Position of the last '1', or -1. */
  function LastSeparator(s: string): (k: int)
    ensures -1 <= k < |s|
    ensures k >= 0 ==> s[k] == '1'
    ensures forall i :: k < i < |s| ==> s[i] != '1'
  {
    if s == "" then -1
    else if s[|s| - 1] == '1' then |s| - 1
    else LastSeparator(s[..|s| - 1])
  }

  function HighBits(hrp: string): (r: seq<nat>)
    ensures |r| == |hrp|
  {
    if hrp == "" then [] else HighBits(hrp[..|hrp| - 1]) + [Shr(Code(hrp[|hrp| - 1]), 5)]
  }

  function LowBits(hrp: string): (r: seq<nat>)
    ensures |r| == |hrp|
  {
    if hrp == "" then [] else LowBits(hrp[..|hrp| - 1]) + [Low(Code(hrp[|hrp| - 1]), 5)]
  }

  function HrpExpand(hrp: string): seq<nat> {
    HighBits(hrp) + [0] + LowBits(hrp)
  }

  predicate Verifies(hrp: string, data: seq<nat>) {
    Run(1, HrpExpand(hrp) + data) == BECH32M_CONST
  }

  /** What the encoder accepts. */
  predicate Encodable(hrp: string, data: seq<nat>) {
    && hrp != "" && hrp == Lower(hrp) && Printable(hrp)
    && (forall i :: 0 <= i < |data| ==> data[i] < 32)
    && |hrp| + 1 + |data| + 6 <= 90
  }

  function Encode(hrp: string, data: seq<nat>): Option<string> {
    if !Encodable(hrp, data) then None
    else
      var values := HrpExpand(hrp) + data;
      EncodedSymbols(hrp, data);
      Some(hrp + "1" + Render(data + ChecksumOf(values)))
  }

  datatype Decoded = Decoded(hrp: string, data: seq<nat>)

  function Decode(bech: string): Option<Decoded> {
    if |bech| < 8 || |bech| > 90 || !Printable(bech) then None
    else if bech != Lower(bech) && bech != Upper(bech) then None
    else DecodeNormalized(Lower(bech))
  }

  function DecodeNormalized(normalized: string): Option<Decoded> {
    var separator := LastSeparator(normalized);
    if separator < 1 || separator + 7 > |normalized| then None
    else DecodeParts(normalized[..separator], normalized[separator + 1..])
  }

  function DecodeParts(hrp: string, tail: string): Option<Decoded>
    requires |tail| >= 6
  {
    match ReadSymbols(tail)
    case None => None
    case Some(data) =>
      if Verifies(hrp, data) then Some(Decoded(hrp, data[..|data| - 6])) else None
  }

  // ---------------------------------------------------------------- supporting facts

  lemma {:induction false} ExpandBound(hrp: string)
    ensures Digits(HighBits(hrp), 30) && Digits(LowBits(hrp), 30)
  {
    if hrp == "" {
    } else {
      ExpandBound(hrp[..|hrp| - 1]);
      var c := Code(hrp[|hrp| - 1]);
      Widths();
      ShrAtMost(c, 5);
      LowBound(c, 5);
    }
  }

  lemma {:induction false} ShrAtMost(x: nat, k: nat)
    ensures Shr(x, k) <= x
  {
    if k == 0 {
    } else {
      ShrAtMost(x / 2, k - 1);
    }
  }

  lemma EncodedSymbols(hrp: string, data: seq<nat>)
    requires forall i :: 0 <= i < |data| ==> data[i] < 32
    ensures Digits(HrpExpand(hrp) + data, 30)
    ensures Symbols(data + ChecksumOf(HrpExpand(hrp) + data))
    ensures Symbols(ChecksumOf(HrpExpand(hrp) + data))
  {
    Widths();
    ExpandBound(hrp);
    ChecksumUnique(HrpExpand(hrp) + data, SIX_ZEROS);
  }

  /** The 32 characters are distinct, so reading undoes rendering one symbol. */
  lemma SymbolOfRendered(v: nat)
    requires v < 32
    ensures SymbolOf(CHARSET[v]) == v
  {
    var k := SymbolOf(CHARSET[v]);
    FirstIndex(CHARSET, CHARSET[v], 0, v);
    DistinctCharset(k, v);
  }

  lemma {:induction false} FirstIndex(s: string, c: char, i: nat, v: nat)
    requires i <= v < |s| && s[v] == c
    ensures IndexFrom(s, c, i) <= v
    decreases |s| - i
  {
    if s[i] == c {
    } else {
      FirstIndex(s, c, i + 1, v);
    }
  }

  lemma DistinctBlock0(i: nat, j: nat)
    requires 0 <= i < 8 && j < 32 && CHARSET[i] == CHARSET[j]
    ensures i == j
  {
  }

  lemma DistinctBlock1(i: nat, j: nat)
    requires 8 <= i < 16 && j < 32 && CHARSET[i] == CHARSET[j]
    ensures i == j
  {
  }

  lemma DistinctBlock2(i: nat, j: nat)
    requires 16 <= i < 24 && j < 32 && CHARSET[i] == CHARSET[j]
    ensures i == j
  {
  }

  lemma DistinctBlock3(i: nat, j: nat)
    requires 24 <= i < 32 && j < 32 && CHARSET[i] == CHARSET[j]
    ensures i == j
  {
  }

  lemma DistinctCharset(i: nat, j: nat)
    requires i < 32 && j < 32 && CHARSET[i] == CHARSET[j]
    ensures i == j
  {
    if i < 8 {
      DistinctBlock0(i, j);
    } else if i < 16 {
      DistinctBlock1(i, j);
    } else if i < 24 {
      DistinctBlock2(i, j);
    } else {
      DistinctBlock3(i, j);
    }
  }

  lemma CharsetShape(v: nat)
    requires v < 32
    ensures CHARSET[v] != '1' && LowerChar(CHARSET[v]) == CHARSET[v] && 33 <= Code(CHARSET[v]) <= 126
  {
  }

  lemma RenderSnoc(init: seq<nat>, v: nat)
    requires Symbols(init) && v < 32
    ensures Symbols(init + [v]) && Render(init + [v]) == Render(init) + [CHARSET[v]]
  {
    Widths();
    assert (init + [v])[..|init|] == init;
  }

  lemma ReadSnoc(s: string, v: nat)
    requires v < 32 && ReadSymbols(s).Some?
    ensures ReadSymbols(s + [CHARSET[v]]) == Some(ReadSymbols(s).value + [v])
  {
    SymbolOfRendered(v);
    var t := s + [CHARSET[v]];
    assert t[..|t| - 1] == s;
  }

  lemma {:induction false} ReadOfRender(values: seq<nat>)
    requires Symbols(values)
    ensures ReadSymbols(Render(values)) == Some(values)
  {
    SmallSymbols(values);
    if values == [] {
    } else {
      var n := |values| - 1;
      ReadOfRender(values[..n]);
      ReadSnoc(Render(values[..n]), values[n]);
      assert values == values[..n] + [values[n]];
    }
  }

  lemma {:induction false} RenderOfRead(s: string)
    requires ReadSymbols(s).Some?
    ensures Symbols(ReadSymbols(s).value)
    ensures Render(ReadSymbols(s).value) == s
  {
    if s != "" {
      var n := |s| - 1;
      RenderOfRead(s[..n]);
      var init, v := ReadSymbols(s[..n]).value, SymbolOf(s[n]);
      assert ReadSymbols(s) == Some(init + [v]) && CHARSET[v] == s[n];
      RenderSnoc(init, v);
      assert s == s[..n] + [s[n]];
    } else {
      assert ReadSymbols(s).value == [];
      assert Render([]) == "";
    }
  }

  lemma {:induction false} RenderShape(values: seq<nat>)
    requires Symbols(values)
    ensures Lower(Render(values)) == Render(values) && Printable(Render(values))
    ensures forall i :: 0 <= i < |values| ==> Render(values)[i] != '1'
  {
    SmallSymbols(values);
    if values == [] {
    } else {
      var n := |values| - 1;
      RenderShape(values[..n]);
      CharsetShape(values[n]);
      assert Render(values)[..n] == Render(values[..n]);
    }
  }

  lemma {:induction false} LowerConcat(s: string, t: string)
    ensures Lower(s + t) == Lower(s) + Lower(t)
  {
    if t == "" {
      assert s + t == s;
    } else {
      LowerConcat(s, t[..|t| - 1]);
      assert (s + t)[..|s + t| - 1] == s + t[..|t| - 1];
    }
  }

  lemma {:induction false} LowerTwice(s: string)
    ensures Lower(Lower(s)) == Lower(s)
  {
    if s == "" {
    } else {
      LowerTwice(s[..|s| - 1]);
      assert Lower(s)[..|s| - 1] == Lower(s[..|s| - 1]);
    }
  }

  lemma {:induction false} LowerPrintable(s: string)
    requires Printable(s)
    ensures Printable(Lower(s))
  {
    if s == "" {
    } else {
      LowerPrintable(s[..|s| - 1]);
    }
  }

  lemma LastSeparatorAt(s: string, n: nat)
    requires n < |s| && s[n] == '1'
    requires forall i :: n < i < |s| ==> s[i] != '1'
    ensures LastSeparator(s) == n
  {
  }

  /** The separator between two lowercase parts. */
  lemma LowerJoined(hrp: string, tail: string)
    ensures Lower(hrp + "1" + tail) == Lower(hrp) + "1" + Lower(tail)
  {
    LowerConcat(hrp + "1", tail);
    LowerConcat(hrp, "1");
    assert "1"[..0] == "";
    assert Lower("1") == "1";
  }

  // ---------------------------------------------------------------- round trips

  /** Decoding an encoded string gives the prefix and the data back. */
  lemma DecodeOfEncode(hrp: string, data: seq<nat>)
    requires Encodable(hrp, data)
    ensures Encode(hrp, data).Some?
    ensures Decode(Encode(hrp, data).value) == Some(Decoded(hrp, data))
    ensures Lower(Encode(hrp, data).value) == Encode(hrp, data).value
  {
    hide HighBits, LowBits, LastSeparator, Upper;
    EncodedSymbols(hrp, data);
    var values := HrpExpand(hrp) + data;
    var check := ChecksumOf(values);
    var tail := Render(data + check);
    RenderShape(data + check);
    ReadOfRender(data + check);
    EncodedText(hrp, tail);
    ChecksumUnique(values, check);
    ConcatAssoc(HrpExpand(hrp), data, check);
    assert (data + check)[..|data|] == data;
  }

  /** Cutting an encoded string at its last separator recovers the two parts. */
  lemma EncodedText(hrp: string, tail: string)
    requires hrp == Lower(hrp) && Printable(hrp)
    requires tail == Lower(tail) && Printable(tail)
    requires forall i :: 0 <= i < |tail| ==> tail[i] != '1'
    ensures var s := hrp + "1" + tail;
            && Lower(s) == s && Printable(s) && LastSeparator(s) == |hrp|
            && s[..|hrp|] == hrp && s[|hrp| + 1..] == tail
  {
    LowerJoined(hrp, tail);
    JoinedParts(hrp, tail);
  }

  lemma JoinedParts(hrp: string, tail: string)
    requires Printable(hrp) && Printable(tail)
    requires forall i :: 0 <= i < |tail| ==> tail[i] != '1'
    ensures var s := hrp + "1" + tail;
            && Printable(s) && LastSeparator(s) == |hrp|
            && s[..|hrp|] == hrp && s[|hrp| + 1..] == tail
  {
    var s := hrp + "1" + tail;
    assert |s| == |hrp| + 1 + |tail|;
    forall i | 0 <= i < |s| ensures s[i] == if i < |hrp| then hrp[i] else if i == |hrp| then '1' else tail[i - |hrp| - 1] {
    }
    LastSeparatorAt(s, |hrp|);
  }

  lemma LowerHead(hrp: string, tail: string, bech: string)
    requires Lower(bech) == hrp + "1" + tail
    ensures Lower(hrp) == hrp && Lower(tail) == tail
  {
    LowerTwice(bech);
    LowerJoined(hrp, tail);
    var s, t := hrp + "1" + tail, Lower(hrp) + "1" + Lower(tail);
    assert s == t;
    assert s[..|hrp|] == hrp && t[..|hrp|] == Lower(hrp);
    assert s[|hrp| + 1..] == tail && t[|hrp| + 1..] == Lower(tail);
  }

  lemma PrintableHead(hrp: string, tail: string)
    requires Printable(hrp + "1" + tail)
    ensures Printable(hrp)
  {
    var s := hrp + "1" + tail;
    forall i | 0 <= i < |hrp| ensures 33 <= Code(hrp[i]) <= 126 {
      assert s[i] == hrp[i];
    }
  }

  /** Verified symbols end in the checksum the encoder would write. */
  lemma VerifiedCheck(hrp: string, data: seq<nat>, check: seq<nat>)
    requires Symbols(data) && Symbols(check) && |check| == 6 && Verifies(hrp, data + check)
    ensures check == ChecksumOf(HrpExpand(hrp) + data)
  {
    SmallSymbols(data);
    ConcatAssoc(HrpExpand(hrp), data, check);
    EncodedSymbols(hrp, data);
    ChecksumUnique(HrpExpand(hrp) + data, check);
  }

  lemma ReencodeSymbols(hrp: string, all: seq<nat>)
    requires hrp != "" && hrp == Lower(hrp) && Printable(hrp)
    requires Symbols(all) && |all| >= 6 && |hrp| + 1 + |all| <= 90 && Verifies(hrp, all)
    ensures Encodable(hrp, all[..|all| - 6])
    ensures Encode(hrp, all[..|all| - 6]) == Some(hrp + "1" + Render(all))
  {
    var data, check := all[..|all| - 6], all[|all| - 6..];
    SplitAt(all, |all| - 6);
    SmallSymbols(data);
    VerifiedCheck(hrp, data, check);
  }

  lemma ReadParts(hrp: string, tail: string, d: Decoded) returns (all: seq<nat>)
    requires |tail| >= 6 && DecodeParts(hrp, tail) == Some(d)
    ensures Symbols(all) && |all| == |tail| && Render(all) == tail && Verifies(hrp, all)
    ensures d == Decoded(hrp, all[..|all| - 6])
  {
    RenderOfRead(tail);
    all := ReadSymbols(tail).value;
  }

  lemma ReadNormalized(s: string, d: Decoded) returns (all: seq<nat>)
    requires DecodeNormalized(s) == Some(d)
    ensures Symbols(all) && |all| >= 6 && s == d.hrp + "1" + Render(all) && Verifies(d.hrp, all)
    ensures d.hrp != "" && d.data == all[..|all| - 6]
  {
    var k := LastSeparator(s);
    assert s == s[..k] + "1" + s[k + 1..];
    all := ReadParts(s[..k], s[k + 1..], d);
  }

  /** Every accepted string is the encoding of what it decodes to, up to letter case. */
  lemma EncodeOfDecode(bech: string, d: Decoded)
    requires Decode(bech) == Some(d)
    ensures Encode(d.hrp, d.data) == Some(Lower(bech))
  {
    hide DecodeNormalized, Encode, Render, Lower, Upper, Verifies, Symbols, Printable, Encodable;
    LowerPrintable(bech);
    var all := ReadNormalized(Lower(bech), d);
    LowerHead(d.hrp, Render(all), bech);
    PrintableHead(d.hrp, Render(all));
    ReencodeSymbols(d.hrp, all);
  }

  // ---------------------------------------------------------------- what is accepted

  predicate HasUpper(s: string) {
    exists i :: 0 <= i < |s| && 'A' <= s[i] <= 'Z'
  }

  predicate HasLower(s: string) {
    exists i :: 0 <= i < |s| && 'a' <= s[i] <= 'z'
  }

  lemma {:induction false} LowerAt(s: string, i: nat)
    requires i < |s|
    ensures Lower(s)[i] == LowerChar(s[i])
  {
    if i >= |s| - 1 {
    } else {
      LowerAt(s[..|s| - 1], i);
    }
  }

  lemma {:induction false} UpperAt(s: string, i: nat)
    requires i < |s|
    ensures Upper(s)[i] == UpperChar(s[i])
  {
    if i >= |s| - 1 {
    } else {
      UpperAt(s[..|s| - 1], i);
    }
  }

  /** A string is its lowercase form exactly when it has no capital, and its uppercase form exactly when it has no small letter. */
  lemma CasesMean(s: string)
    ensures s == Lower(s) <==> !HasUpper(s)
    ensures s == Upper(s) <==> !HasLower(s)
  {
    forall i | 0 <= i < |s| ensures Lower(s)[i] == LowerChar(s[i]) && Upper(s)[i] == UpperChar(s[i]) {
      LowerAt(s, i);
      UpperAt(s, i);
    }
    hide Lower, Upper;
  }

  /** Encoding succeeds exactly for a prefix of 1 or more printable characters without capitals, five-bit data, and 90 characters at most. */
  lemma EncodesExactly(hrp: string, data: seq<nat>)
    ensures Encode(hrp, data).Some? <==>
              && 1 <= |hrp| && !HasUpper(hrp) && (forall i :: 0 <= i < |hrp| ==> '!' <= hrp[i] <= '~')
              && (forall i :: 0 <= i < |data| ==> data[i] <= 31) && |hrp| + |data| <= 83
  {
    CasesMean(hrp);
    hide HrpExpand, ChecksumOf, Render, Lower, HasUpper;
  }

  /** What is decoded has 8 to 90 printable characters, and not both capitals and small letters. */
  lemma DecodedShape(bech: string)
    requires Decode(bech).Some?
    ensures 8 <= |bech| <= 90 && (forall i :: 0 <= i < |bech| ==> '!' <= bech[i] <= '~') && !(HasUpper(bech) && HasLower(bech))
    ensures 1 <= |Decode(bech).value.hrp| && |bech| == |Decode(bech).value.hrp| + |Decode(bech).value.data| + 7
  {
    CasesMean(bech);
    hide Upper, HasUpper, HasLower, DecodeNormalized;
    var all := ReadNormalized(Lower(bech), Decode(bech).value);
  }

  // ---------------------------------------------------------------- the loops

  method IsPrintable(s: string) returns (ok: bool)
    ensures ok == Printable(s)
  {
    for i := 0 to |s|
      invariant forall k :: 0 <= k < i ==> 33 <= Code(s[k]) <= 126
    {
      if Code(s[i]) < 33 || Code(s[i]) > 126 {
        return false;
      }
    }
    ok := true;
  }

  method AppendSymbols(prefix: string, values: seq<nat>) returns (out: string)
    requires Symbols(values)
    ensures out == prefix + Render(values)
  {
    SmallSymbols(values);
    out := prefix;
    assert out == prefix + Render(values[..0]);
    for i := 0 to |values|
      invariant out == prefix + Render(values[..i])
    {
      RenderSnoc(values[..i], values[i]);
      assert values[..i + 1] == values[..i] + [values[i]];
      ConcatAssoc(prefix, Render(values[..i]), [CHARSET[values[i]]]);
      out := out + [CHARSET[values[i]]];
    }
    assert values[..|values|] == values;
  }

  method Bech32mEncode(hrp: string, data: seq<nat>) returns (r: Option<string>)
    ensures r == Encode(hrp, data)
  {
    hide Printable, Lower, Render, HrpExpand, ChecksumOf;
    if hrp == "" || hrp != Lower(hrp) {
      return None;
    }
    var printable := IsPrintable(hrp);
    if !printable {
      return None;
    }
    for i := 0 to |data|
      invariant forall k :: 0 <= k < i ==> data[k] < 32
    {
      if data[i] > 31 {
        return None;
      }
    }
    if |hrp| + 1 + |data| + 6 > 90 {
      return None;
    }
    EncodedSymbols(hrp, data);
    var check := ComputeChecksum(HrpExpand(hrp) + data);
    var out := AppendSymbols(hrp + "1", data + check);
    r := Some(out);
  }

  method ReadData(s: string) returns (r: Option<seq<nat>>)
    ensures r == ReadSymbols(s)
  {
    var data: seq<nat> := [];
    for i := 0 to |s|
      invariant ReadSymbols(s[..i]) == Some(data)
    {
      assert s[..i + 1][..i] == s[..i];
      var value := SymbolOf(s[i]);
      if value == 32 {
        UnreadablePrefix(s, i + 1);
        return None;
      }
      data := data + [value];
    }
    assert s[..|s|] == s;
    r := Some(data);
  }

  method Bech32mDecode(bech: string) returns (r: Option<Decoded>)
    ensures r == Decode(bech)
  {
    hide Printable, Lower, Upper, LastSeparator, ReadSymbols, HrpExpand, Run;
    if |bech| < 8 || |bech| > 90 {
      return None;
    }
    var printable := IsPrintable(bech);
    if !printable {
      return None;
    }
    var normalized := Lower(bech);
    if bech != normalized && bech != Upper(bech) {
      return None;
    }
    var separator := LastSeparator(normalized);
    if separator < 1 || separator + 7 > |normalized| {
      return None;
    }
    var hrp := normalized[..separator];
    var data := ReadData(normalized[separator + 1..]);
    if data == None {
      return None;
    }
    var chk := Polymod(HrpExpand(hrp) + data.value);
    if chk != BECH32M_CONST {
      return None;
    }
    r := Some(Decoded(hrp, data.value[..|data.value| - 6]));
  }

  lemma {:induction false} UnreadablePrefix(s: string, n: nat)
    requires n <= |s| && ReadSymbols(s[..n]) == None
    ensures ReadSymbols(s) == None
    decreases |s|
  {
    if n < |s| {
      assert s[..|s| - 1][..n] == s[..n];
      UnreadablePrefix(s[..|s| - 1], n);
    } else {
      assert s[..n] == s;
    }
  }
}
