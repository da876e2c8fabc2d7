/** The transaction tree of a block: its root commits to the list, given its length. */
module Merkle {
  import opened Bytes
  import opened Signer
  import opened SignatureMessage

  predicate Hashes(level: seq<seq<Byte>>) {
    forall i :: 0 <= i < |level| ==> |level[i]| == 32
  }

  function Leaves(c: Crypto, transactions: seq<seq<Byte>>): (r: seq<seq<Byte>>)
    ensures |r| == |transactions| && Hashes(r)
    ensures forall i :: 0 <= i < |r| ==> r[i] == c.Sha256d(transactions[i])
  {
    if transactions == [] then [] else [c.Sha256d(transactions[0])] + Leaves(c, transactions[1..])
  }

  /** What is hashed for pair k of a level; a last node without a partner is its own. */
  function Pair(level: seq<seq<Byte>>, k: nat): seq<Byte>
    requires 2 * k < |level|
  {
    level[2 * k] + (if 2 * k + 1 < |level| then level[2 * k + 1] else level[2 * k])
  }

  function FirstParents(c: Crypto, level: seq<seq<Byte>>, n: nat): (r: seq<seq<Byte>>)
    requires n <= (|level| + 1) / 2
    ensures |r| == n && Hashes(r)
    ensures forall k :: 0 <= k < n ==> r[k] == c.Sha256d(Pair(level, k))
  {
    if n == 0 then [] else FirstParents(c, level, n - 1) + [c.Sha256d(Pair(level, n - 1))]
  }

  function Parents(c: Crypto, level: seq<seq<Byte>>): (r: seq<seq<Byte>>)
    ensures |r| == (|level| + 1) / 2 && Hashes(r)
  {
    FirstParents(c, level, (|level| + 1) / 2)
  }

  function Top(c: Crypto, level: seq<seq<Byte>>): (r: seq<Byte>)
    requires level != [] && Hashes(level)
    ensures |r| == 32
    decreases |level|
  {
    if |level| == 1 then level[0] else Top(c, Parents(c, level))
  }

  function Root(c: Crypto, transactions: seq<seq<Byte>>): (r: seq<Byte>)
    requires transactions != []
    ensures |r| == 32
  {
    Top(c, Leaves(c, transactions))
  }

  /** The hashes of a level's pairs. */
  method NextLevel(c: Crypto, level: seq<seq<Byte>>) returns (next: seq<seq<Byte>>)
    ensures next == Parents(c, level)
  {
    next := [];
    var i := 0;
    while i < |level|
      invariant i == 2 * |next| && |next| <= (|level| + 1) / 2
      invariant next == FirstParents(c, level, |next|)
      decreases |level| - i
    {
      var right := if i + 1 < |level| then level[i + 1] else level[i];
      NextParent(c, level, |next|);
      next := next + [c.Sha256d(level[i] + right)];
      i := i + 2;
    }
  }

  lemma NextParent(c: Crypto, level: seq<seq<Byte>>, n: nat)
    requires 2 * n < |level|
    ensures FirstParents(c, level, n + 1) == FirstParents(c, level, n) + [c.Sha256d(Pair(level, n))]
  {
  }

  /** `merkleRoot`. */
  method MerkleRoot(c: Crypto, transactions: seq<seq<Byte>>) returns (root: seq<Byte>)
    requires transactions != []
    ensures root == Root(c, transactions)
  {
    var level := Leaves(c, transactions);
    while |level| > 1
      invariant level != [] && Hashes(level) && Top(c, level) == Root(c, transactions)
      decreases |level|
    {
      level := NextLevel(c, level);
    }
    root := level[0];
  }

  // ---------------------------------------------------------------- commitment

  predicate Collision(c: Crypto, x: seq<Byte>, y: seq<Byte>) {
    x != y && c.Sha256d(x) == c.Sha256d(y)
  }

  /** Everything hashed above a level. */
  ghost function Hashed(c: Crypto, level: seq<seq<Byte>>): set<seq<Byte>>
    decreases |level|
  {
    if |level| <= 1 then {} else (set k | 0 <= k < (|level| + 1) / 2 :: Pair(level, k)) + Hashed(c, Parents(c, level))
  }

  /** Everything hashed to compute a root. */
  ghost function HashedBy(c: Crypto, transactions: seq<seq<Byte>>): set<seq<Byte>> {
    (set i | 0 <= i < |transactions| :: transactions[i]) + Hashed(c, Leaves(c, transactions))
  }

  lemma LeavesCommit(c: Crypto, a: seq<seq<Byte>>, b: seq<seq<Byte>>) returns (x: seq<Byte>, y: seq<Byte>)
    requires |a| == |b| && Leaves(c, a) == Leaves(c, b)
    ensures a == b || (x in HashedBy(c, a) && y in HashedBy(c, b) && Collision(c, x, y))
  {
    x, y := [], [];
    if a != b {
      var i :| 0 <= i < |a| && a[i] != b[i];
      x, y := a[i], b[i];
      assert Leaves(c, a)[i] == Leaves(c, b)[i];
    }
  }

  lemma SamePair(a: seq<seq<Byte>>, b: seq<seq<Byte>>, k: nat)
    requires |a| == |b| && Hashes(a) && Hashes(b) && 2 * k < |a| && Pair(a, k) == Pair(b, k)
    ensures a[2 * k] == b[2 * k] && (2 * k + 1 < |a| ==> a[2 * k + 1] == b[2 * k + 1])
  {
    var last := 2 * k + 1 == |a|;
    SameHead(a[2 * k], b[2 * k], if last then a[2 * k] else a[2 * k + 1], if last then b[2 * k] else b[2 * k + 1]);
  }

  lemma ParentsCommit(c: Crypto, a: seq<seq<Byte>>, b: seq<seq<Byte>>) returns (x: seq<Byte>, y: seq<Byte>)
    requires |a| == |b| > 1 && Hashes(a) && Hashes(b) && Parents(c, a) == Parents(c, b)
    ensures a == b || (x in Hashed(c, a) && y in Hashed(c, b) && Collision(c, x, y))
  {
    x, y := [], [];
    if a != b {
      var i :| 0 <= i < |a| && a[i] != b[i];
      var k := i / 2;
      if Pair(a, k) == Pair(b, k) {
        SamePair(a, b, k);
        assert false;
      }
      x, y := Pair(a, k), Pair(b, k);
      assert Parents(c, a)[k] == Parents(c, b)[k];
    }
  }

  lemma {:induction false} TopCommits(c: Crypto, a: seq<seq<Byte>>, b: seq<seq<Byte>>) returns (x: seq<Byte>, y: seq<Byte>)
    requires |a| == |b| > 0 && Hashes(a) && Hashes(b) && Top(c, a) == Top(c, b)
    ensures a == b || (x in Hashed(c, a) && y in Hashed(c, b) && Collision(c, x, y))
    decreases |a|
  {
    x, y := [], [];
    if |a| == 1 {
      assert a == [a[0]] && b == [b[0]];
    } else {
      x, y := TopCommits(c, Parents(c, a), Parents(c, b));
      if Parents(c, a) == Parents(c, b) {
        x, y := ParentsCommit(c, a, b);
      }
    }
  }

  /**
   Two transaction lists of the same length with the same root are the same
   list, or computing the two roots hashed two different strings to one value.
   */
  lemma RootCommits(c: Crypto, a: seq<seq<Byte>>, b: seq<seq<Byte>>) returns (x: seq<Byte>, y: seq<Byte>)
    requires |a| == |b| > 0 && Root(c, a) == Root(c, b)
    ensures a == b || (x in HashedBy(c, a) && y in HashedBy(c, b) && Collision(c, x, y))
  {
    x, y := TopCommits(c, Leaves(c, a), Leaves(c, b));
    if Leaves(c, a) == Leaves(c, b) {
      x, y := LeavesCommit(c, a, b);
    }
  }

  lemma {:induction false} SameParents(c: Crypto, a: seq<seq<Byte>>, b: seq<seq<Byte>>, n: nat)
    requires n <= (|a| + 1) / 2 && n <= (|b| + 1) / 2
    requires forall k :: 0 <= k < n ==> Pair(a, k) == Pair(b, k)
    ensures FirstParents(c, a, n) == FirstParents(c, b, n)
  {
    if n == 0 {
    } else {
      SameParents(c, a, b, n - 1);
    }
  }

  // ---------------------------------------------------------------- different lengths

  /** A level of equal nodes. */
  function Copies(x: seq<Byte>, n: nat): (r: seq<seq<Byte>>)
    ensures |r| == n && forall i :: 0 <= i < n ==> r[i] == x
  {
    if n == 0 then [] else Copies(x, n - 1) + [x]
  }

  /** The node k levels above equal nodes. */
  function Above(c: Crypto, x: seq<Byte>, k: nat): (r: seq<Byte>)
    requires |x| == 32
    ensures |r| == 32
  {
    if k == 0 then x else c.Sha256d(Above(c, x, k - 1) + Above(c, x, k - 1))
  }

  /** The number of levels above n nodes. */
  function Height(n: nat): nat {
    if n <= 1 then 0 else 1 + Height((n + 1) / 2)
  }

  lemma {:induction false} HeightMonotone(m: nat, n: nat)
    requires m <= n
    ensures Height(m) <= Height(n)
    decreases n
  {
    if m <= 1 {
    } else {
      HeightMonotone((m + 1) / 2, (n + 1) / 2);
    }
  }

  lemma {:induction false} AboveNext(c: Crypto, x: seq<Byte>, k: nat)
    requires |x| == 32
    ensures Above(c, c.Sha256d(x + x), k) == Above(c, x, k + 1)
  {
    if k == 0 {
    } else {
      AboveNext(c, x, k - 1);
    }
  }

  lemma ParentsOfCopies(c: Crypto, x: seq<Byte>, n: nat)
    requires |x| == 32
    ensures Parents(c, Copies(x, n)) == Copies(c.Sha256d(x + x), (n + 1) / 2)
  {
    hide Copies;
    var parents := Parents(c, Copies(x, n));
    forall k | 0 <= k < |parents| ensures parents[k] == c.Sha256d(x + x) {
      assert Pair(Copies(x, n), k) == x + x;
    }
  }

  function TopCopies(c: Crypto, x: seq<Byte>, n: nat): seq<Byte>
    requires |x| == 32 && n > 0
  {
    Top(c, Copies(x, n))
  }

  lemma TopCopiesNext(c: Crypto, x: seq<Byte>, n: nat)
    requires |x| == 32 && n > 1
    ensures TopCopies(c, x, n) == TopCopies(c, c.Sha256d(x + x), (n + 1) / 2) && Height(n) == 1 + Height((n + 1) / 2)
  {
    ParentsOfCopies(c, x, n);
    hide Copies, Parents;
  }

  /** The top over equal nodes depends on the number of levels only. */
  lemma {:induction false} TopOfCopies(c: Crypto, x: seq<Byte>, n: nat)
    requires |x| == 32 && n > 0
    ensures TopCopies(c, x, n) == Above(c, x, Height(n))
    decreases n
  {
    if n == 1 {
      assert Above(c, x, 0) == x;
      hide Above;
    } else {
      hide Above, Height, TopCopies;
      TopCopiesNext(c, x, n);
      TopOfCopies(c, c.Sha256d(x + x), (n + 1) / 2);
      AboveNext(c, x, Height((n + 1) / 2));
    }
  }

  lemma RootOfCopies(c: Crypto, transaction: seq<Byte>, n: nat)
    requires n > 0
    ensures Root(c, Copies(transaction, n)) == Above(c, c.Sha256d(transaction), Height(n))
  {
    assert Leaves(c, Copies(transaction, n)) == Copies(c.Sha256d(transaction), n);
    TopOfCopies(c, c.Sha256d(transaction), n);
    hide Above, Height;
  }

  lemma {:induction false} AboveAbove(c: Crypto, x: seq<Byte>, j: nat, k: nat)
    requires |x| == 32
    ensures Above(c, Above(c, x, j), k) == Above(c, x, j + k)
  {
    if k == 0 {
    } else {
      AboveAbove(c, x, j, k - 1);
    }
  }

  /** A transaction whose hash is the node k levels above the leaf `transaction`. */
  function Disguised(c: Crypto, transaction: seq<Byte>, k: nat): seq<Byte> {
    if k == 0 then transaction
    else
      var below := Above(c, c.Sha256d(transaction), k - 1);
      below + below
  }

  /**
   The root alone fixes nothing across lengths: for every hash and every two
   different lengths there are lists of those lengths with the same root. With
   `RootCommits`, a root fixes the list exactly when the length is known.
   */
  lemma EveryTwoLengths(c: Crypto, transaction: seq<Byte>, m: nat, n: nat) returns (a: seq<seq<Byte>>, b: seq<seq<Byte>>)
    requires 0 < m < n
    ensures |a| == m && |b| == n && Root(c, a) == Root(c, b)
  {
    hide Root, Copies;
    HeightMonotone(m, n);
    var k := Height(n) - Height(m);
    var x := c.Sha256d(transaction);
    a, b := Copies(Disguised(c, transaction, k), m), Copies(transaction, n);
    RootOfCopies(c, Disguised(c, transaction, k), m);
    RootOfCopies(c, transaction, n);
    assert c.Sha256d(Disguised(c, transaction, k)) == Above(c, x, k);
    AboveAbove(c, x, k, Height(m));
  }

  /** A second way: 64 bytes that are two child hashes stand for the pair. */
  lemma PairAsTransaction(c: Crypto, x: seq<Byte>, y: seq<Byte>)
    ensures Root(c, [x, y]) == Root(c, [c.Sha256d(x) + c.Sha256d(y)])
  {
    var pair := c.Sha256d(x) + c.Sha256d(y);
    var level := Leaves(c, [x, y]);
    assert level == [c.Sha256d(x), c.Sha256d(y)];
    assert Pair(level, 0) == pair;
    assert Parents(c, level) == [c.Sha256d(pair)];
    assert Leaves(c, [pair]) == [c.Sha256d(pair)];
  }

  /** Two different strings hashed for the two lists have one hash. */
  ghost predicate Collides(c: Crypto, a: seq<seq<Byte>>, b: seq<seq<Byte>>) {
    exists x, y :: x in HashedBy(c, a) && y in HashedBy(c, b) && Collision(c, x, y)
  }

  ghost predicate ShareRoot(c: Crypto, a: seq<seq<Byte>>, b: seq<seq<Byte>>) {
    a != [] && b != [] && Root(c, a) == Root(c, b)
  }

  /** A root fixes the list, up to a collision, within one length, and for no two lengths. */
  lemma RootFixesAtOneLength(c: Crypto, m: nat, n: nat)
    requires m > 0 && n > 0
    ensures m == n ==> forall a, b :: |a| == m && |b| == n && ShareRoot(c, a, b) ==> a == b || Collides(c, a, b)
    ensures m != n ==> exists a, b :: |a| == m && |b| == n && ShareRoot(c, a, b)
  {
    hide Root, HashedBy, Collision;
    if m == n {
      forall a, b | |a| == m && |b| == n && ShareRoot(c, a, b) ensures a == b || Collides(c, a, b) {
        var x, y := RootCommits(c, a, b);
      }
    } else if m < n {
      var a, b := EveryTwoLengths(c, [], m, n);
      assert ShareRoot(c, a, b);
    } else {
      var b, a := EveryTwoLengths(c, [], n, m);
      assert ShareRoot(c, a, b);
    }
  }

  lemma PairOfRepeated(x: seq<seq<Byte>>, y: seq<seq<Byte>>, k: nat)
    requires |x| % 2 == 1 && |y| == |x| + 1 && y[..|x|] == x && y[|x|] == x[|x| - 1] && 2 * k < |x|
    ensures Pair(x, k) == Pair(y, k)
  {
    assert y[2 * k] == x[2 * k];
    assert 2 * k + 1 < |x| ==> y[2 * k + 1] == x[2 * k + 1];
  }

  /** The length matters: repeating the last of an odd number of transactions keeps the root. */
  lemma RepeatedLastKeepsRoot(c: Crypto, a: seq<seq<Byte>>)
    requires |a| > 1 && |a| % 2 == 1
    ensures Root(c, a + [a[|a| - 1]]) == Root(c, a)
  {
    hide Pair;
    var b := a + [a[|a| - 1]];
    var x, y := Leaves(c, a), Leaves(c, b);
    assert y[..|x|] == x;
    forall k | 0 <= k < (|a| + 1) / 2 ensures Pair(x, k) == Pair(y, k) {
      PairOfRepeated(x, y, k);
    }
    SameParents(c, x, y, (|a| + 1) / 2);
  }

  lemma PairTop(c: Crypto, p: seq<Byte>, q: seq<Byte>)
    requires |p| == 32 && |q| == 32
    ensures Top(c, [p, q]) == c.Sha256d(p + q)
  {
    hide FirstParents, Crypto.Sha256d;
    assert Pair([p, q], 0) == p + q;
    assert Parents(c, [p, q]) == [c.Sha256d(p + q)];
    assert Top(c, Parents(c, [p, q])) == c.Sha256d(p + q);
  }

  lemma TripleTop(c: Crypto, p: seq<Byte>, q: seq<Byte>, r: seq<Byte>)
    requires |p| == 32 && |q| == 32 && |r| == 32
    ensures Top(c, [p, q, r]) == c.Sha256d(c.Sha256d(p + q) + c.Sha256d(r + r))
  {
    hide FirstParents, Crypto.Sha256d;
    assert Pair([p, q, r], 0) == p + q && Pair([p, q, r], 1) == r + r;
    assert Parents(c, [p, q, r]) == [c.Sha256d(p + q), c.Sha256d(r + r)];
    PairTop(c, c.Sha256d(p + q), c.Sha256d(r + r));
  }

  /** The first roots: a transaction's own hash, the hash of two hashes left before right, and a third beside itself. */
  lemma SmallRoots(c: Crypto, x: seq<Byte>, y: seq<Byte>, z: seq<Byte>)
    ensures Root(c, [x]) == c.Sha256d(x)
    ensures Root(c, [x, y]) == c.Sha256d(c.Sha256d(x) + c.Sha256d(y))
    ensures Root(c, [x, y, z]) == c.Sha256d(c.Sha256d(c.Sha256d(x) + c.Sha256d(y)) + c.Sha256d(c.Sha256d(z) + c.Sha256d(z)))
  {
    hide Top, Leaves, Crypto.Sha256d;
    var hx, hy, hz := c.Sha256d(x), c.Sha256d(y), c.Sha256d(z);
    assert Leaves(c, [x]) == [hx] && Leaves(c, [x, y]) == [hx, hy] && Leaves(c, [x, y, z]) == [hx, hy, hz];
    OneTop(c, hx);
    PairTop(c, hx, hy);
    TripleTop(c, hx, hy, hz);
  }

  lemma OneTop(c: Crypto, p: seq<Byte>)
    requires |p| == 32
    ensures Top(c, [p]) == p
  {
  }
}
