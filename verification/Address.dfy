/**
 Post-quantum addresses: version symbol 1 and a 32-byte id regrouped to five-bit
 symbols, in a Bech32m string whose prefix names the network.
 */
module Address {
  import opened Wrappers
  import opened Bytes
  import opened Words
  import opened Checksum
  import opened BitGroups
  import opened Bech32

  const ID_SIZE := 32
  const SCRIPT_SIZE := 35

  function HrpForNetwork(network: string): Option<string> {
    if network == "testnet" then Some("olcpqtest")
    else if network == "regtest" then Some("olcpqregtest")
    else None
  }

  lemma ByteDigits(id: seq<Byte>)
    ensures Digits(id, 8)
  {
    assert Pow2(8) == 256;
  }

  function AddressFromId(id: seq<Byte>, network: string): Option<string> {
    if |id| != ID_SIZE then None
    else
      match HrpForNetwork(network)
      case None => None
      case Some(hrp) =>
        match Regroup(id, 8, 5, true)
        case None => None
        case Some(symbols) => Encode(hrp, [1] + symbols)
  }

  function ToBytes(data: seq<nat>): (id: seq<Byte>)
    requires Digits(data, 8)
    ensures id == data
  {
    assert Pow2(8) == 256;
    data
  }

  /** Every check of `pqIdFromAddress` before it re-encodes the id. */
  function IdCandidate(address: string, network: string): Option<seq<Byte>> {
    match HrpForNetwork(network)
    case None => None
    case Some(hrp) =>
      if address != Lower(address) then None
      else
        match Decode(address)
        case None => None
        case Some(d) =>
          if d.hrp != hrp || |d.data| != 53 || d.data[0] != 1 then None
          else
            match Regroup(d.data[1..], 5, 8, false)
            case None => None
            case Some(id) =>
              SymbolsThroughBytes(d.data[1..]);
              if |id| != ID_SIZE then None else Some(ToBytes(id))
  }

  function IdFromAddress(address: string, network: string): Option<seq<Byte>> {
    match IdCandidate(address, network)
    case None => None
    case Some(id) => if AddressFromId(id, network) != Some(address) then None else Some(id)
  }

  function ScriptFromAddress(address: string, network: string): Option<seq<Byte>> {
    match IdFromAddress(address, network)
    case None => None
    case Some(id) => Some([0xff, 0x51, 0x20] + id)
  }

  function AddressFromScript(script: seq<Byte>, network: string): Option<string> {
    if HrpForNetwork(network).None? || |script| != SCRIPT_SIZE then None
    else if script[0] != 0xff || script[1] != 0x51 || script[2] != 0x20 then None
    else AddressFromId(script[3..], network)
  }

  // ---------------------------------------------------------------- the bijection

  predicate LowerLetters(s: string) {
    forall i :: 0 <= i < |s| ==> 'a' <= s[i] <= 'z'
  }

  lemma HrpShape(network: string, hrp: string)
    requires HrpForNetwork(network) == Some(hrp)
    ensures hrp == Lower(hrp) && Printable(hrp) && 9 <= |hrp| <= 12
  {
    NetworkLetters();
    LettersShape(hrp);
  }

  lemma NetworkLetters()
    ensures LowerLetters("olcpqtest") && LowerLetters("olcpqregtest")
  {
  }

  lemma LettersShape(s: string)
    requires LowerLetters(s)
    ensures s == Lower(s) && Printable(s)
  {
    LowerOfLower(s);
  }

  lemma {:induction false} LowerOfLower(s: string)
    requires LowerLetters(s)
    ensures Lower(s) == s
  {
    if s == "" {
    } else {
      LowerOfLower(s[..|s| - 1]);
      SplitAt(s, |s| - 1);
    }
  }

  /** An id always encodes: 52 symbols after the version, within the 90 characters. */
  lemma IdEncodes(id: seq<Byte>, network: string, hrp: string) returns (symbols: seq<nat>)
    requires |id| == ID_SIZE && HrpForNetwork(network) == Some(hrp)
    ensures Regroup(id, 8, 5, true) == Some(symbols) && |symbols| == 52
    ensures Encodable(hrp, [1] + symbols)
    ensures AddressFromId(id, network) == Encode(hrp, [1] + symbols)
  {
    ByteDigits(id);
    PaddedBits(id);
    symbols := Regroup(id, 8, 5, true).value;
    assert PadLength(8 * 32, 5) == 4;
    SmallSymbols(symbols);
    HrpShape(network, hrp);
  }

  /** Every id has an address that reads back as that id. */
  lemma AddressRoundTrip(id: seq<Byte>, network: string)
    requires |id| == ID_SIZE && HrpForNetwork(network).Some?
    ensures AddressFromId(id, network).Some?
    ensures IdFromAddress(AddressFromId(id, network).value, network) == Some(id)
  {
    hide Decode, Encode, Regroup, Encodable, Digits, HrpForNetwork;
    var hrp := HrpForNetwork(network).value;
    var symbols := IdEncodes(id, network, hrp);
    DecodeOfEncode(hrp, [1] + symbols);
    ByteDigits(id);
    BytesThroughSymbols(id);
    assert ([1] + symbols)[1..] == symbols;
  }

  /** Whatever passes the decoder's checks is the address of its id: the re-encoding check cannot fail. */
  lemma NonCanonicalUnreachable(address: string, network: string)
    requires IdCandidate(address, network).Some?
    ensures AddressFromId(IdCandidate(address, network).value, network) == Some(address)
  {
    var d := Decode(address).value;
    EncodeOfDecode(address, d);
    VersionFirst(d.data, d.data[1..]);
    SymbolsThroughBytes(d.data[1..]);
  }

  lemma VersionFirst(data: seq<nat>, rest: seq<nat>)
    requires |data| > 0 && data[0] == 1 && rest == data[1..]
    ensures [1] + rest == data
  {
  }

  /** Ids and accepted addresses of a network are in bijection. */
  lemma AddressBijection(address: string, id: seq<Byte>, network: string)
    ensures IdFromAddress(address, network) == Some(id) <==> AddressFromId(id, network) == Some(address)
  {
    if AddressFromId(id, network) == Some(address) {
      AddressRoundTrip(id, network);
    }
  }

  /** Scripts of the post-quantum form and accepted addresses are in bijection. */
  lemma ScriptBijection(address: string, script: seq<Byte>, network: string)
    ensures ScriptFromAddress(address, network) == Some(script) <==> AddressFromScript(script, network) == Some(address)
  {
    if AddressFromScript(script, network) == Some(address) {
      ScriptParts(script, script[3..]);
      AddressBijection(address, script[3..], network);
    }
    if ScriptFromAddress(address, network) == Some(script) {
      AddressOfScript(address, script, IdFromAddress(address, network).value, network);
    }
  }

  lemma ScriptParts(script: seq<Byte>, id: seq<Byte>)
    requires |script| >= 3 && script[0] == 0xff && script[1] == 0x51 && script[2] == 0x20 && id == script[3..]
    ensures script == [0xff, 0x51, 0x20] + id
  {
  }

  lemma AddressOfScript(address: string, script: seq<Byte>, id: seq<Byte>, network: string)
    requires IdFromAddress(address, network) == Some(id) && script == [0xff, 0x51, 0x20] + id
    ensures AddressFromScript(script, network) == Some(address)
  {
    AddressBijection(address, id, network);
    assert script[3..] == id;
  }

  // ---------------------------------------------------------------- one network

  lemma JoinedHead(hrp: string, tail: string, all: string)
    requires all == hrp + "1" + tail && |tail| == 59 && tail[0] == 'p'
    ensures |all| == |hrp| + 60 && all[..|hrp| + 2] == hrp + "1p"
  {
    assert tail[..1] == "p";
    assert all == hrp + "1p" + tail[1..];
  }

  lemma VersionCharacter(all: seq<nat>)
    requires Symbols(all) && |all| > 0 && all[0] == 1
    ensures Render(all)[0] == 'p'
  {
    RenderAt(all, 0);
    hide Render;
  }

  lemma EncodedParts(hrp: string, data: seq<nat>, address: string) returns (all: seq<nat>)
    requires Encode(hrp, data) == Some(address)
    ensures Symbols(all) && |all| == |data| + 6 && data <= all && address == hrp + "1" + Render(all)
  {
    hide HrpExpand, Symbols, Render, Printable, Lower, ChecksumOf;
    EncodedSymbols(hrp, data);
    all := data + ChecksumOf(HrpExpand(hrp) + data);
  }

  lemma EncodedHead(hrp: string, data: seq<nat>, address: string)
    requires Encode(hrp, data) == Some(address) && |data| == 53 && data[0] == 1
    ensures |address| == |hrp| + 60 && address[..|hrp| + 2] == hrp + "1p"
  {
    hide *;
    var all := EncodedParts(hrp, data, address);
    VersionCharacter(all);
    JoinedHead(hrp, Render(all), address);
  }

  /** The text of an address: the prefix of its network, the separator, a version symbol, 52 symbols of id and 6 of checksum. */
  lemma AddressText(id: seq<Byte>, network: string, hrp: string, address: string)
    requires |id| == ID_SIZE && HrpForNetwork(network) == Some(hrp) && AddressFromId(id, network) == Some(address)
    ensures |address| == |hrp| + 60 && address[..|hrp| + 2] == hrp + "1p"
  {
    hide Regroup, Digits, HrpForNetwork, Render, AddressFromId, Symbols, Encode, Encodable;
    var symbols := IdEncodes(id, network, hrp);
    EncodedHead(hrp, [1] + symbols, address);
  }

  /** Zero bits behind a number shift it up. */
  lemma {:induction false} ZerosBehind(s: seq<bool>, n: nat)
    ensures FromBits(s + Zeros(n)) == Shl(FromBits(s), n)
    decreases n
  {
    if n == 0 {
      assert s + [] == s;
    } else {
      ZerosBehind(s, n - 1);
      var longer := s + Zeros(n);
      assert longer[..|longer| - 1] == s + Zeros(n - 1);
    }
  }

  /** What an address spells: version 1, then the id as one number with four zero bits behind it, five bits a symbol, then the checksum. */
  lemma AddressSpells(id: seq<Byte>, network: string, hrp: string, address: string) returns (symbols: seq<nat>, check: seq<nat>)
    requires |id| == ID_SIZE && HrpForNetwork(network) == Some(hrp) && AddressFromId(id, network) == Some(address)
    ensures |symbols| == 52 && |check| == 6 && Symbols([1] + symbols + check)
    ensures address == hrp + "1" + Render([1] + symbols + check)
    ensures Number(symbols, 5) == 16 * Number(id, 8)
  {
    hide Regroup, Digits, HrpForNetwork, Render, AddressFromId, Symbols, Encode, Encodable, Number, Unpack, FromBits, Shl;
    symbols := IdEncodes(id, network, hrp);
    var all := EncodedParts(hrp, [1] + symbols, address);
    check := all[53..];
    assert all == [1] + symbols + check;
    ByteDigits(id);
    PaddedBits(id);
    assert PadLength(8 * 32, 5) == 4;
    NumberOfUnpack(symbols, 5);
    NumberOfUnpack(id, 8);
    ZerosBehind(Unpack(id, 8), 4);
    Shl4(FromBits(Unpack(id, 8)));
  }

  lemma Shl4(x: nat)
    ensures Shl(x, 4) == 16 * x
  {
    assert Shl(x, 2) == 4 * x by { assert Shl(x, 1) == 2 * x; }
    assert Shl(x, 3) == 8 * x;
  }

  lemma NetworkHeads(network: string, hrp: string)
    requires HrpForNetwork(network) == Some(hrp)
    ensures network == "testnet" || network == "regtest"
    ensures network == "testnet" ==> |hrp| == 9 && hrp + "1p" == "olcpqtest1p"
    ensures network == "regtest" ==> |hrp| == 12 && hrp + "1p" == "olcpqregtest1p"
  {
  }

  /**
   Testnet addresses are 69 characters beginning "olcpqtest1p", regtest
   addresses 72 beginning "olcpqregtest1p", and no other network has any.
   */
  lemma AddressOfNetwork(address: string, network: string)
    requires IdFromAddress(address, network).Some?
    ensures network == "testnet" || network == "regtest"
    ensures network == "testnet" ==> |address| == 69 && address[..11] == "olcpqtest1p"
    ensures network == "regtest" ==> |address| == 72 && address[..14] == "olcpqregtest1p"
  {
    hide Regroup, Encode, Decode;
    AddressText(IdFromAddress(address, network).value, network, HrpForNetwork(network).value, address);
    hide *;
    NetworkHeads(network, HrpForNetwork(network).value);
  }

  /** An address belongs to one network: no network accepts another's. */
  lemma OneNetwork(address: string, m: string, n: string)
    requires IdFromAddress(address, m).Some? && IdFromAddress(address, n).Some?
    ensures m == n
  {
    hide IdFromAddress;
    AddressOfNetwork(address, m);
    AddressOfNetwork(address, n);
  }

  /** The script of an address: an id behind three fixed bytes, which names one address on each network and no two ids share. */
  lemma ScriptOfId(id: seq<Byte>, network: string)
    requires |id| == ID_SIZE && HrpForNetwork(network).Some?
    ensures var address := AddressFromId(id, network);
            && address.Some?
            && ScriptFromAddress(address.value, network) == Some([255, 81, 32] + id)
            && AddressFromScript([255, 81, 32] + id, network) == address
  {
    AddressRoundTrip(id, network);
    hide AddressFromId, IdFromAddress;
    var script: seq<Byte> := [255, 81, 32] + id;
    assert script[3..] == id;
  }

  // ---------------------------------------------------------------- damaged addresses

  /** The symbols behind an accepted address. */
  lemma AddressSymbols(address: string, network: string, hrp: string) returns (all: seq<nat>)
    requires IdFromAddress(address, network).Some? && HrpForNetwork(network) == Some(hrp)
    ensures Symbols(all) && address == hrp + "1" + Render(all) && Verifies(hrp, all)
  {
    var d := Decode(address).value;
    all := ReadNormalized(address, d);
  }

  lemma {:induction false} RenderAt(values: seq<nat>, i: nat)
    requires Symbols(values) && i < |values|
    ensures values[i] < 32 && Render(values)[i] == CHARSET[values[i]]
  {
    SmallSymbols(values);
    if i >= |values| - 1 {
    } else {
      RenderAt(values[..|values| - 1], i);
    }
  }

  lemma SameCharacter(prefix: string, a: seq<nat>, b: seq<nat>, i: nat)
    requires Symbols(a) && Symbols(b) && i < |a| && i < |b|
    requires (prefix + Render(a))[|prefix| + i] == (prefix + Render(b))[|prefix| + i]
    ensures a[i] == b[i]
  {
    RenderAt(a, i);
    RenderAt(b, i);
    DistinctCharset(a[i], b[i]);
  }

  /** Symbols that agree outside a window, cut at the window. */
  lemma WindowParts(a: seq<nat>, b: seq<nat>, lo: nat, hi: nat)
    requires |a| == |b| && lo <= hi <= |a| && a != b
    requires forall i :: 0 <= i < |a| && !(lo <= i < hi) ==> a[i] == b[i]
    ensures a == a[..lo] + a[lo..hi] + a[hi..] && b == a[..lo] + b[lo..hi] + a[hi..]
    ensures a[lo..hi] != b[lo..hi]
  {
    assert a[..lo] == b[..lo] && a[hi..] == b[hi..];
    assert a == a[..lo] + a[lo..hi] + a[hi..];
    assert b == b[..lo] + b[lo..hi] + b[hi..];
  }

  /** Of two fillings of a window at most one verifies. */
  lemma OneFilling(hrp: string, pre: seq<nat>, u: seq<nat>, v: seq<nat>, post: seq<nat>)
    requires Symbols(pre) && Symbols(u) && Symbols(v) && |u| == |v| <= 6 && u != v
    ensures !(Verifies(hrp, pre + u + post) && Verifies(hrp, pre + v + post))
  {
    var head := HrpExpand(hrp);
    EncodedSymbols(hrp, pre) by { SmallSymbols(pre); }
    Widths();
    hide HrpExpand, Run, Symbols;
    BurstDetected(1, head + pre, u, v, post);
    ConcatAssoc(head, pre, u);
    ConcatAssoc(head, pre, v);
    ConcatAssoc(head, pre + u, post);
    ConcatAssoc(head, pre + v, post);
  }

  lemma OnlyOneVerifies(hrp: string, a: seq<nat>, b: seq<nat>, lo: nat, hi: nat)
    requires Symbols(a) && Symbols(b) && |a| == |b| && lo <= hi <= |a| && hi <= lo + 6 && a != b
    requires forall i :: 0 <= i < |a| && !(lo <= i < hi) ==> a[i] == b[i]
    ensures !(Verifies(hrp, a) && Verifies(hrp, b))
  {
    WindowParts(a, b, lo, hi);
    OneFilling(hrp, a[..lo], a[lo..hi], b[lo..hi], a[hi..]);
    hide Verifies;
  }

  /** Two address texts that differ inside a window after the separator do not both verify. */
  lemma DamagedSymbols(hrp: string, a: seq<nat>, b: seq<nat>, i: nat)
    requires Symbols(a) && Symbols(b) && |a| == |b| && a != b && |hrp| < i
    requires var s, t := hrp + "1" + Render(a), hrp + "1" + Render(b);
             forall k :: 0 <= k < |s| && !(i <= k < i + 6) ==> t[k] == s[k]
    ensures !(Verifies(hrp, a) && Verifies(hrp, b))
  {
    var prefix := hrp + "1";
    var n := |prefix|;
    var lo: nat := if i - n < |a| then i - n else |a|;
    var hi: nat := if lo + 6 < |a| then lo + 6 else |a|;
    forall k | 0 <= k < |a| && !(lo <= k < hi) ensures a[k] == b[k] {
      assert (prefix + Render(a))[n + k] == (prefix + Render(b))[n + k];
      SameCharacter(prefix, a, b, k);
    }
    OnlyOneVerifies(hrp, a, b, lo, hi);
  }

  /**
   Changing an accepted address within six consecutive characters after the
   separator, in any way at all, makes it rejected.
   */
  lemma DamagedAddressRejected(address: string, damaged: string, network: string, hrp: string, i: nat)
    requires HrpForNetwork(network) == Some(hrp) && IdFromAddress(address, network).Some?
    requires |damaged| == |address| && damaged != address && |hrp| < i
    requires forall k :: 0 <= k < |address| && !(i <= k < i + 6) ==> damaged[k] == address[k]
    ensures IdFromAddress(damaged, network) == None
  {
    if IdFromAddress(damaged, network).Some? {
      var a := AddressSymbols(address, network, hrp);
      var b := AddressSymbols(damaged, network, hrp);
      DamagedSymbols(hrp, a, b, i);
      assert false;
    }
  }
}
