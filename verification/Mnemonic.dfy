/**
 Recovery phrases: 32 bytes of entropy and one checksum byte, cut into
 twenty-four eleven-bit word numbers. Phrases are sequences of words.
 */
module Mnemonic {
  import opened Wrappers
  import opened Bytes
  import opened Words

  const ENTROPY_BYTES := 32
  const WORD_COUNT := 24

  /** 2048 different words. */
  ghost predicate WordList(words: seq<string>) {
    |words| == 2048 && forall i, j :: 0 <= i < j < |words| ==> words[i] != words[j]
  }

  function Bits(entropy: seq<Byte>, checksum: seq<Byte> -> Byte): seq<bool> {
    Unpack(entropy + [checksum(entropy)], 8)
  }

  function WordsAt(words: seq<string>, indexes: seq<nat>): (r: seq<string>)
    requires forall i :: 0 <= i < |indexes| ==> indexes[i] < |words|
    ensures |r| == |indexes| && forall i :: 0 <= i < |r| ==> r[i] == words[indexes[i]]
  {
    if indexes == [] then [] else WordsAt(words, indexes[..|indexes| - 1]) + [words[indexes[|indexes| - 1]]]
  }

  /** The position of a word, or the length of the list. */
  function IndexOf(words: seq<string>, word: string): (i: nat)
    ensures i <= |words| && (i < |words| ==> words[i] == word)
    ensures word in words <==> i < |words|
  {
    if words == [] then 0
    else if words[0] == word then 0
    else 1 + IndexOf(words[1..], word)
  }

  function Indexes(words: seq<string>, phrase: seq<string>): (r: seq<nat>)
    ensures |r| == |phrase| && forall i :: 0 <= i < |r| ==> r[i] == IndexOf(words, phrase[i])
  {
    if phrase == [] then [] else Indexes(words, phrase[..|phrase| - 1]) + [IndexOf(words, phrase[|phrase| - 1])]
  }

  lemma BitsLength(entropy: seq<Byte>, checksum: seq<Byte> -> Byte)
    requires |entropy| == ENTROPY_BYTES
    ensures |Bits(entropy, checksum)| == 264
  {
    UnpackLength(entropy + [checksum(entropy)], 8);
  }

  lemma Small11(bits: seq<bool>)
    ensures forall i :: 0 <= i < |Pack(bits, 11)| ==> Pack(bits, 11)[i] < 2048
  {
    PackDigits(bits, 11);
    assert Pow2(11) == 2048;
  }

  /** `entropyToMnemonic`. */
  function ToPhrase(words: seq<string>, entropy: seq<Byte>, checksum: seq<Byte> -> Byte): seq<string>
    requires |words| == 2048
  {
    Small11(Bits(entropy, checksum));
    WordsAt(words, Pack(Bits(entropy, checksum), 11))
  }

  /** The entropy in the first 256 bits. */
  function EntropyOf(bits: seq<bool>): seq<Byte>
    requires |bits| >= 256
  {
    Small8(bits[..256]);
    Pack(bits[..256], 8)
  }

  lemma Small8(bits: seq<bool>)
    ensures forall i :: 0 <= i < |Pack(bits, 8)| ==> Pack(bits, 8)[i] < 256
  {
    PackDigits(bits, 8);
    assert Pow2(8) == 256;
  }

  /** `mnemonicToEntropy` on a normalized phrase. */
  function FromPhrase(words: seq<string>, phrase: seq<string>, checksum: seq<Byte> -> Byte): Option<seq<Byte>> {
    if |phrase| != WORD_COUNT || (exists i :: 0 <= i < |phrase| && phrase[i] !in words) then None
    else
      var bits := Unpack(Indexes(words, phrase), 11);
      UnpackLength(Indexes(words, phrase), 11);
      var entropy := EntropyOf(bits);
      if checksum(entropy) == FromBits(bits[256..]) then Some(entropy) else None
  }

  lemma {:induction false} IndexOfDistinct(words: seq<string>, i: nat)
    requires i < |words| && forall a, b :: 0 <= a < b < |words| ==> words[a] != words[b]
    ensures IndexOf(words, words[i]) == i
  {
    if i == 0 {
    } else {
      assert words[1..][i - 1] == words[i];
      IndexOfDistinct(words[1..], i - 1);
    }
  }

  lemma IndexesOfWords(words: seq<string>, indexes: seq<nat>)
    requires WordList(words) && forall i :: 0 <= i < |indexes| ==> indexes[i] < 2048
    ensures Indexes(words, WordsAt(words, indexes)) == indexes
  {
    forall i | 0 <= i < |indexes| ensures IndexOf(words, words[indexes[i]]) == indexes[i] {
      IndexOfDistinct(words, indexes[i]);
    }
  }

  lemma WordsOfIndexes(words: seq<string>, phrase: seq<string>)
    requires forall i :: 0 <= i < |phrase| ==> phrase[i] in words
    ensures WordsAt(words, Indexes(words, phrase)) == phrase
  {
  }

  /** The 256 bits of entropy and the eight of its checksum. */
  lemma BitParts(entropy: seq<Byte>, check: Byte)
    requires |entropy| == ENTROPY_BYTES
    ensures var bits := Unpack(entropy + [check], 8); |bits| == 264 && EntropyOf(bits) == entropy && FromBits(bits[256..]) == check
  {
    UnpackLength(entropy, 8);
    UnpackSnoc(entropy, check, 8);
    var head, tail := Unpack(entropy, 8), ToBits(check, 8);
    assert (head + tail)[..256] == head && (head + tail)[256..] == tail;
    assert Pow2(8) == 256;
    PackOfUnpack(entropy, 8);
    BitsOfNumber(check, 8);
  }

  /** Every entropy has a phrase that reads back as that entropy. */
  lemma PhraseRoundTrip(words: seq<string>, entropy: seq<Byte>, checksum: seq<Byte> -> Byte)
    requires WordList(words) && |entropy| == ENTROPY_BYTES
    ensures FromPhrase(words, ToPhrase(words, entropy, checksum), checksum) == Some(entropy)
  {
    hide Unpack, Pack, EntropyOf;
    var bits := Bits(entropy, checksum);
    BitsLength(entropy, checksum);
    Small11(bits);
    UnpackOfPack(bits, 11, 24);
    IndexesOfWords(words, Pack(bits, 11));
    BitParts(entropy, checksum(entropy));
  }

  /** The bits of an accepted phrase are those of its entropy and checksum. */
  lemma AcceptedBits(bits: seq<bool>, entropy: seq<Byte>, check: Byte)
    requires |bits| == 264 && EntropyOf(bits) == entropy && FromBits(bits[256..]) == check
    ensures |entropy| == ENTROPY_BYTES && Unpack(entropy + [check], 8) == bits
  {
    UnpackOfPack(bits[..256], 8, 32);
    UnpackSnoc(entropy, check, 8);
    NumberOfBits(bits[256..]);
    assert bits == bits[..256] + bits[256..];
  }

  /** Entropies and accepted phrases are in bijection. */
  lemma PhraseBijection(words: seq<string>, phrase: seq<string>, entropy: seq<Byte>, checksum: seq<Byte> -> Byte)
    requires WordList(words)
    ensures FromPhrase(words, phrase, checksum) == Some(entropy) <==>
            |entropy| == ENTROPY_BYTES && phrase == ToPhrase(words, entropy, checksum)
  {
    if |entropy| == ENTROPY_BYTES {
      PhraseRoundTrip(words, entropy, checksum);
    }
    if FromPhrase(words, phrase, checksum) == Some(entropy) {
      AcceptedPhrase(words, phrase, entropy, checksum);
    }
  }

  lemma AcceptedPhrase(words: seq<string>, phrase: seq<string>, entropy: seq<Byte>, checksum: seq<Byte> -> Byte)
    requires WordList(words) && FromPhrase(words, phrase, checksum) == Some(entropy)
    ensures |entropy| == ENTROPY_BYTES && phrase == ToPhrase(words, entropy, checksum)
  {
    hide Unpack, Pack, EntropyOf;
    var indexes := Indexes(words, phrase);
    var bits := Unpack(indexes, 11);
    UnpackLength(indexes, 11);
    AcceptedBits(bits, entropy, checksum(entropy));
    assert Pow2(11) == 2048;
    PackOfUnpack(indexes, 11);
    WordsOfIndexes(words, phrase);
  }

  /**
   The words' positions, read as digits of eleven bits, are the entropy and its
   checksum byte, read as digits of eight: the same number, the first word and
   the first byte the most significant.
   */
  lemma PhraseNumber(words: seq<string>, entropy: seq<Byte>, checksum: seq<Byte> -> Byte)
    requires WordList(words) && |entropy| == 32
    ensures |ToPhrase(words, entropy, checksum)| == 24
    ensures Number(Indexes(words, ToPhrase(words, entropy, checksum)), 11) == Number(entropy + [checksum(entropy)], 8)
  {
    hide Unpack, Pack, FromBits, Number;
    var bits := Bits(entropy, checksum);
    BitsLength(entropy, checksum);
    Small11(bits);
    UnpackOfPack(bits, 11, 24);
    IndexesOfWords(words, Pack(bits, 11));
    PackDigits(bits, 11);
    NumberOfUnpack(Pack(bits, 11), 11);
    assert Pow2(8) == 256;
    NumberOfUnpack(entropy + [checksum(entropy)], 8);
  }

  // ---------------------------------------------------------------- the converters

  /** The words of the first bits, `offset` of them. */
  function WordsUpTo(words: seq<string>, bits: seq<bool>, offset: nat): seq<string>
    requires |words| == 2048 && offset <= |bits|
  {
    Small11(bits[..offset]);
    WordsAt(words, Pack(bits[..offset], 11))
  }

  /** Eleven bits more are one word more. */
  lemma NextWord(words: seq<string>, bits: seq<bool>, offset: nat)
    requires |words| == 2048 && offset + 11 <= |bits| && offset % 11 == 0
    ensures FromBits(bits[offset..offset + 11]) < 2048
    ensures WordsUpTo(words, bits, offset + 11) == WordsUpTo(words, bits, offset) + [words[FromBits(bits[offset..offset + 11])]]
  {
    var group := bits[offset..offset + 11];
    var indexes := Pack(bits[..offset], 11);
    assert bits[..offset + 11] == bits[..offset] + group;
    PackSnoc(bits[..offset], group, 11);
    Small11(bits[..offset]);
    Small11(bits[..offset + 11]);
    hide Pack, FromBits;
    assert Pack(bits[..offset + 11], 11)[|indexes|] == FromBits(group);
    assert (indexes + [FromBits(group)])[..|indexes|] == indexes;
  }

  lemma NoWords(words: seq<string>, bits: seq<bool>)
    requires |words| == 2048
    ensures WordsUpTo(words, bits, 0) == []
  {
    assert bits[..0] == [];
  }

  method EntropyToMnemonic(words: seq<string>, entropy: seq<Byte>, checksum: seq<Byte> -> Byte) returns (phrase: seq<string>)
    requires |words| == 2048 && |entropy| == ENTROPY_BYTES
    ensures phrase == ToPhrase(words, entropy, checksum)
  {
    hide Unpack, Bits, Pack, FromBits, WordsAt;
    var bits := Bits(entropy, checksum);
    BitsLength(entropy, checksum);
    NoWords(words, bits);
    phrase := [];
    var offset := 0;
    while offset < |bits|
      invariant 0 <= offset <= 264 && offset % 11 == 0
      invariant phrase == WordsUpTo(words, bits, offset)
    {
      NextWord(words, bits, offset);
      phrase := phrase + [words[FromBits(bits[offset..offset + 11])]];
      offset := offset + 11;
    }
    assert bits[..264] == bits;
  }

  method MnemonicToEntropy(words: seq<string>, phrase: seq<string>, checksum: seq<Byte> -> Byte) returns (r: Option<seq<Byte>>)
    ensures r == FromPhrase(words, phrase, checksum)
  {
    hide Unpack;
    if |phrase| != WORD_COUNT || (exists i :: 0 <= i < |phrase| && phrase[i] !in words) {
      return None;
    }
    var bits := Unpack(Indexes(words, phrase), 11);
    UnpackLength(Indexes(words, phrase), 11);
    var entropy := FillEntropy(bits);
    r := if checksum(entropy) == FromBits(bits[256..]) then Some(entropy) else None;
  }

  /** Eight bits more are one byte more. */
  lemma NextByte(bits: seq<bool>, offset: nat, bytes: seq<Byte>)
    requires offset + 8 <= |bits| && offset == 8 * |bytes| && bytes == Pack(bits[..offset], 8)
    ensures FromBits(bits[offset..offset + 8]) < 256
    ensures Pack(bits[..offset + 8], 8) == bytes + [FromBits(bits[offset..offset + 8])]
  {
    var group := bits[offset..offset + 8];
    assert bits[..offset + 8] == bits[..offset] + group;
    PackSnoc(bits[..offset], group, 8);
    Small8(bits[..offset + 8]);
    assert Pack(bits[..offset + 8], 8)[|bytes|] == FromBits(group);
  }

  method FillEntropy(bits: seq<bool>) returns (entropy: seq<Byte>)
    requires |bits| >= 256
    ensures entropy == EntropyOf(bits)
  {
    assert Pack(bits[..0], 8) == [];
    hide Pack, FromBits;
    var filled := new Byte[ENTROPY_BYTES](_ => 0);
    var offset := 0;
    while offset < 256
      invariant 0 <= offset <= 256 && offset % 8 == 0
      invariant filled[..offset / 8] == Pack(bits[..offset], 8)
    {
      var group := bits[offset..offset + 8];
      NextByte(bits, offset, filled[..offset / 8]);
      filled[offset / 8] := FromBits(group);
      offset := offset + 8;
    }
    entropy := filled[..];
  }
}
