/** Coins: their total, their order by value, and pairs of them. */
module Coins {
  /** `txid` and `vout` name the coin; `address` holds it. */
  datatype Utxo = Utxo(txid: string, vout: int, value: int, address: string)

  function TotalOf(coins: seq<Utxo>): int {
    if coins == [] then 0 else coins[0].value + TotalOf(coins[1..])
  }

  lemma TwoTotal(a: Utxo, b: Utxo)
    ensures TotalOf([a, b]) == a.value + b.value && TotalOf([a]) == a.value
  {
    assert TotalOf([a]) == a.value + TotalOf([]) && TotalOf([b]) == b.value + TotalOf([]);
    assert [a, b][1..] == [b];
  }

  /** Pairs of positions are looked at row by row. */
  predicate Visited(i: nat, j: nat, row: nat, column: nat) {
    i < row || (i == row && j < column)
  }

  predicate Ascending(s: seq<Utxo>) {
    forall i, j :: 0 <= i < j < |s| ==> s[i].value <= s[j].value
  }

  /** No coin is worth less. */
  predicate AtMost(x: Utxo, s: seq<Utxo>) {
    forall i :: 0 <= i < |s| ==> x.value <= s[i].value
  }

  lemma AscendingCons(x: Utxo, s: seq<Utxo>)
    requires Ascending(s) && AtMost(x, s)
    ensures Ascending([x] + s)
  {
  }

  lemma FirstLeast(x: Utxo, s: seq<Utxo>)
    requires s != [] && Ascending(s) && x.value <= s[0].value
    ensures AtMost(x, s)
  {
  }

  lemma RestAscending(s: seq<Utxo>)
    requires s != [] && Ascending(s)
    ensures Ascending(s[1..]) && AtMost(s[0], s[1..])
  {
  }

  function Insert(x: Utxo, s: seq<Utxo>): (r: seq<Utxo>)
    requires Ascending(s)
    ensures Ascending(r) && multiset(r) == multiset{x} + multiset(s)
  {
    if s == [] then [x]
    else if x.value <= s[0].value then
      FirstLeast(x, s);
      AscendingCons(x, s);
      [x] + s
    else
      RestAscending(s);
      assert s == [s[0]] + s[1..];
      var rest := Insert(x, s[1..]);
      Least(s[0], rest, x, s[1..]);
      AscendingCons(s[0], rest);
      [s[0]] + rest
  }

  lemma Least(first: Utxo, r: seq<Utxo>, x: Utxo, s: seq<Utxo>)
    requires multiset(r) == multiset{x} + multiset(s) && first.value <= x.value && AtMost(first, s)
    ensures AtMost(first, r)
  {
    forall i | 0 <= i < |r| ensures first.value <= r[i].value {
      assert r[i] in multiset(r);
      assert r[i] == x || r[i] in s;
    }
  }

  /** The library sort, ascending by value. */
  function Sort(s: seq<Utxo>): (r: seq<Utxo>)
    ensures Ascending(r) && multiset(r) == multiset(s) && |r| == |s|
  {
    if s == [] then []
    else
      assert s == [s[0]] + s[1..];
      var r := Insert(s[0], Sort(s[1..]));
      assert |r| == |multiset(r)|;
      r
  }

  lemma {:induction false} SortOfAscending(s: seq<Utxo>)
    requires Ascending(s)
    ensures Sort(s) == s
  {
    if s == [] {
    } else {
      SortOfAscending(s[1..]);
    }
  }

  lemma StillThere(s: seq<Utxo>, i: nat, a: Utxo, b: Utxo)
    requires i < |s| && s[i] == a && multiset{a, b} <= multiset(s)
    ensures b in s[..i] + s[i + 1..]
  {
    var rest := s[..i] + s[i + 1..];
    assert s == s[..i] + [s[i]] + s[i + 1..];
    assert multiset(s)[b] == multiset(rest)[b] + multiset{a}[b];
    assert multiset(s)[b] >= multiset{a, b}[b];
    assert b in multiset(rest);
  }

  /** The same coins, as a pair of different positions. */
  lemma PairPositions(s: seq<Utxo>, a: Utxo, b: Utxo) returns (i: nat, j: nat)
    requires multiset{a, b} <= multiset(s)
    ensures i < |s| && j < |s| && i != j && s[i] == a && s[j] == b
  {
    assert a in multiset{a, b};
    i :| i < |s| && s[i] == a;
    var rest := s[..i] + s[i + 1..];
    StillThere(s, i, a, b);
    var k :| 0 <= k < |rest| && rest[k] == b;
    j := if k < i then k else k + 1;
  }

  lemma PositionsPair(s: seq<Utxo>, i: nat, j: nat)
    requires i < j < |s|
    ensures multiset{s[i], s[j]} <= multiset(s)
  {
    assert s == s[..i] + [s[i]] + s[i + 1..j] + [s[j]] + s[j + 1..];
  }

  lemma PositionsOne(s: seq<Utxo>, i: nat)
    requires i < |s|
    ensures multiset{s[i]} <= multiset(s)
  {
    assert s[i] in multiset(s);
  }
}
