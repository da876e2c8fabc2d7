/**
 Machine words as natural numbers: shifts, masks, exclusive or, and fixed-width
 big-endian bit strings. For non-negative operands below 2^32, JavaScript's
 `a << k` (while it fits), `a >>> k`, `a & (2^k - 1)` and `a ^ b` are `Shl(a, k)`,
 `Shr(a, k)`, `Low(a, k)` and `Xor(a, b)`.
 */
module Words {

  function Shl(x: nat, k: nat): nat {
    if k == 0 then x else 2 * Shl(x, k - 1)
  }

  function Shr(x: nat, k: nat): nat {
    if k == 0 then x else Shr(x / 2, k - 1)
  }

  function Low(x: nat, k: nat): nat {
    if k == 0 then 0 else 2 * Low(x / 2, k - 1) + x % 2
  }

  function Pow2(k: nat): (p: nat)
    ensures p >= 1
  {
    if k == 0 then 1 else 2 * Pow2(k - 1)
  }

  lemma {:induction false} LowBound(x: nat, k: nat)
    ensures Low(x, k) < Pow2(k)
  {
    if k == 0 {
    } else {
      LowBound(x / 2, k - 1);
    }
  }

  lemma {:induction false} LowOfSmall(x: nat, k: nat)
    requires x < Pow2(k)
    ensures Low(x, k) == x && Shr(x, k) == 0
  {
    if k == 0 {
    } else {
      LowOfSmall(x / 2, k - 1);
    }
  }

  /** A word is its high part shifted up plus its low part. */
  lemma {:induction false} Split(x: nat, k: nat)
    ensures x == Shl(Shr(x, k), k) + Low(x, k)
  {
    if k == 0 {
    } else {
      Split(x / 2, k - 1);
    }
  }

  lemma {:induction false} ShrOfSplit(x: nat, u: nat, k: nat)
    requires u < Pow2(k)
    ensures Shr(Shl(x, k) + u, k) == x && Low(Shl(x, k) + u, k) == u
    decreases k
  {
    if k == 0 {
    } else {
      ShrOfSplit(x, u / 2, k - 1);
      assert (Shl(x, k) + u) / 2 == Shl(x, k - 1) + u / 2;
    }
  }

  lemma {:induction false} ShlMonotone(x: nat, y: nat, k: nat)
    requires x < y
    ensures Shl(x, k) + Pow2(k) <= Shl(y, k)
  {
    if k == 0 {
    } else {
      ShlMonotone(x, y, k - 1);
    }
  }

  lemma {:induction false} ShlZero(k: nat)
    ensures Shl(0, k) == 0
  {
    if k == 0 {
    } else {
      ShlZero(k - 1);
    }
  }

  /** The first shifts as divisions. */
  lemma ShrSmall(x: nat)
    ensures Shr(x, 0) == x && Shr(x, 1) == x / 2 && Shr(x, 2) == x / 4 && Shr(x, 3) == x / 8 && Shr(x, 4) == x / 16
  {
    assert Shr(x, 2) == Shr(x / 2, 1);
    assert Shr(x, 3) == Shr(x / 2 / 2, 1);
    assert Shr(x, 4) == Shr(x / 2 / 2, 2) == Shr(x / 2 / 2 / 2, 1);
  }

  lemma {:induction false} ShlPow(j: nat, k: nat)
    ensures Shl(Pow2(j), k) == Pow2(j + k)
  {
    if k == 0 {
    } else {
      ShlPow(j, k - 1);
    }
  }

  lemma {:induction false} ShrShr(x: nat, j: nat, k: nat)
    ensures Shr(Shr(x, j), k) == Shr(x, j + k)
  {
    if j == 0 {
    } else {
      ShrShr(x / 2, j - 1, k);
    }
  }

  lemma {:induction false} ShrBound(x: nat, j: nat, k: nat)
    requires x < Pow2(j + k)
    ensures Shr(x, k) < Pow2(j)
  {
    if k == 0 {
    } else {
      ShrBound(x / 2, j, k - 1);
    }
  }

  lemma {:induction false} Pow2Monotone(a: nat, b: nat)
    requires a <= b
    ensures Pow2(a) <= Pow2(b)
  {
    if a >= b {
    } else {
      Pow2Monotone(a, b - 1);
    }
  }

  lemma MulAtLeast(d: nat, k: int)
    requires k >= 1
    ensures d * k >= d
  {
  }

  /** The remainder of a multiple plus something smaller. */
  lemma Remainder(q: int, d: nat, r: nat)
    requires r < d
    ensures (q * d + r) % d == r
  {
    var n := q * d + r;
    var q', r' := n / d, n % d;
    assert n == d * q' + r';
    assert d * (q' - q) == r - r';
    if q' > q {
      MulAtLeast(d, q' - q);
    } else if q' < q {
      MulAtLeast(d, q - q');
    }
  }

  // ---------------------------------------------------------------- exclusive or

  function Xor(a: nat, b: nat): nat
    decreases a + b
  {
    if a == 0 && b == 0 then 0
    else (if a % 2 == b % 2 then 0 else 1) + 2 * Xor(a / 2, b / 2)
  }

  lemma {:induction false} XorZero(a: nat)
    ensures Xor(a, 0) == a && Xor(0, a) == a
  {
    if a == 0 {
    } else {
      XorZero(a / 2);
    }
  }

  lemma {:induction false} XorSelf(a: nat)
    ensures Xor(a, a) == 0
  {
    if a == 0 {
    } else {
      XorSelf(a / 2);
    }
  }

  lemma XorParts(a: nat, b: nat)
    ensures Xor(a, b) / 2 == Xor(a / 2, b / 2)
    ensures Xor(a, b) % 2 == if a % 2 == b % 2 then 0 else 1
  {
  }

  lemma {:induction false} XorAssoc(a: nat, b: nat, c: nat)
    ensures Xor(Xor(a, b), c) == Xor(a, Xor(b, c))
    decreases a + b + c
  {
    XorParts(a, b);
    XorParts(b, c);
    XorParts(Xor(a, b), c);
    XorParts(a, Xor(b, c));
    if a + b + c == 0 {
    } else {
      hide Xor;
      XorAssoc(a / 2, b / 2, c / 2);
    }
  }

  lemma {:induction false} XorComm(a: nat, b: nat)
    ensures Xor(a, b) == Xor(b, a)
    decreases a + b
  {
    if a + b == 0 {
    } else {
      XorComm(a / 2, b / 2);
    }
  }

  lemma {:induction false} XorNonzero(a: nat, b: nat)
    ensures Xor(a, b) == 0 <==> a == b
    decreases a + b
  {
    if a + b == 0 {
    } else {
      XorNonzero(a / 2, b / 2);
    }
  }

  /** Xoring the same word twice cancels. */
  lemma XorCancel(a: nat, b: nat)
    ensures Xor(a, Xor(a, b)) == b
  {
    XorAssoc(a, a, b);
    XorSelf(a);
    XorZero(b);
  }

  lemma XorRegroup(a: nat, b: nat, c: nat, d: nat)
    ensures Xor(Xor(a, b), Xor(c, d)) == Xor(Xor(a, c), Xor(b, d))
  {
    XorAssoc(a, b, Xor(c, d));
    XorAssoc(b, c, d);
    XorComm(b, c);
    XorAssoc(c, b, d);
    XorAssoc(a, c, Xor(b, d));
  }

  lemma {:induction false} XorBound(u: nat, v: nat, k: nat)
    requires u < Pow2(k) && v < Pow2(k)
    ensures Xor(u, v) < Pow2(k)
    decreases k
  {
    if k == 0 {
    } else {
      XorBound(u / 2, v / 2, k - 1);
    }
  }

  lemma {:induction false} XorShl(x: nat, y: nat, k: nat)
    ensures Xor(Shl(x, k), Shl(y, k)) == Shl(Xor(x, y), k)
  {
    if k == 0 {
    } else {
      XorShl(x, y, k - 1);
      var a, b := Shl(x, k - 1), Shl(y, k - 1);
      assert (2 * a) / 2 == a && (2 * b) / 2 == b;
    }
  }

  /** With the low k bits clear in one operand, xor is addition. */
  lemma {:induction false} XorIsPlus(x: nat, v: nat, k: nat)
    requires v < Pow2(k)
    ensures Xor(Shl(x, k), v) == Shl(x, k) + v
    decreases k
  {
    if k == 0 {
      XorZero(x);
    } else {
      XorIsPlus(x, v / 2, k - 1);
      var a := Shl(x, k - 1);
      assert (2 * a) / 2 == a;
    }
  }

  /** Xor works field by field. */
  lemma {:induction false} XorFields(a: nat, b: nat, k: nat)
    ensures Shr(Xor(a, b), k) == Xor(Shr(a, k), Shr(b, k))
    ensures Low(Xor(a, b), k) == Xor(Low(a, k), Low(b, k))
    decreases k
  {
    if k == 0 {
    } else {
      XorParts(a, b);
      hide Xor;
      XorFields(a / 2, b / 2, k - 1);
      XorHalf(Low(a / 2, k - 1), a % 2, Low(b / 2, k - 1), b % 2);
    }
  }

  lemma XorHalf(a: nat, p: nat, b: nat, q: nat)
    requires p < 2 && q < 2
    ensures Xor(2 * a + p, 2 * b + q) == 2 * Xor(a, b) + (if p == q then 0 else 1)
  {
    assert (2 * a + p) / 2 == a && (2 * b + q) / 2 == b;
  }

  // ---------------------------------------------------------------- bit strings

  /** The low `w` bits of v, most significant first. */
  function ToBits(v: nat, w: nat): (s: seq<bool>)
    ensures |s| == w
  {
    if w == 0 then [] else ToBits(v / 2, w - 1) + [v % 2 == 1]
  }

  function FromBits(s: seq<bool>): (v: nat)
    ensures v < Pow2(|s|)
  {
    if s == [] then 0 else 2 * FromBits(s[..|s| - 1]) + (if s[|s| - 1] then 1 else 0)
  }

  lemma {:induction false} BitsOfNumber(v: nat, w: nat)
    requires v < Pow2(w)
    ensures FromBits(ToBits(v, w)) == v
  {
    if w == 0 {
    } else {
      BitsOfNumber(v / 2, w - 1);
      assert ToBits(v, w)[..w - 1] == ToBits(v / 2, w - 1);
    }
  }

  lemma {:induction false} NumberOfBits(s: seq<bool>)
    ensures ToBits(FromBits(s), |s|) == s
  {
    if s == [] {
    } else {
      NumberOfBits(s[..|s| - 1]);
      assert s == s[..|s| - 1] + [s[|s| - 1]];
    }
  }

  /** Bits of a word split at position b: the high part, then the low part. */
  lemma {:induction false} BitsConcat(x: nat, u: nat, a: nat, b: nat)
    requires u < Pow2(b)
    ensures ToBits(Shl(x, b) + u, a + b) == ToBits(x, a) + ToBits(u, b)
    decreases b
  {
    if b == 0 {
    } else {
      BitsConcat(x, u / 2, a, b - 1);
      assert (Shl(x, b) + u) / 2 == Shl(x, b - 1) + u / 2;
    }
  }

  lemma BitsSplit(v: nat, a: nat, b: nat)
    ensures ToBits(v, a + b) == ToBits(Shr(v, b), a) + ToBits(Low(v, b), b)
  {
    Split(v, b);
    LowBound(v, b);
    BitsConcat(Shr(v, b), Low(v, b), a, b);
  }

  /** Masking to m bits does not change the low n <= m bits. */
  lemma {:induction false} BitsOfLow(v: nat, m: nat, n: nat)
    requires n <= m
    ensures ToBits(Low(v, m), n) == ToBits(v, n)
    decreases n
  {
    if n == 0 {
    } else {
      BitsOfLow(v / 2, m - 1, n - 1);
    }
  }

  // ---------------------------------------------------------------- digit groups

  ghost predicate Digits(data: seq<nat>, w: nat) {
    forall i :: 0 <= i < |data| ==> data[i] < Pow2(w)
  }

  /** All the bits of a sequence of w-bit groups. */
  function Unpack(data: seq<nat>, w: nat): seq<bool> {
    if data == [] then []
    else Unpack(data[..|data| - 1], w) + ToBits(data[|data| - 1], w)
  }

  lemma Distribute(n: nat, w: nat)
    requires n > 0
    ensures n * w == (n - 1) * w + w && n * w >= w
  {
  }

  lemma {:induction false} UnpackLength(data: seq<nat>, w: nat)
    ensures |Unpack(data, w)| == |data| * w
  {
    if data == [] {
    } else {
      UnpackLength(data[..|data| - 1], w);
      Distribute(|data|, w);
    }
  }

  lemma UnpackSnoc(data: seq<nat>, d: nat, w: nat)
    ensures Unpack(data + [d], w) == Unpack(data, w) + ToBits(d, w)
  {
    var more := data + [d];
    assert more[..|more| - 1] == data;
  }

  /** Cut a bit string into w-bit groups, last group first; a short head is dropped. */
  function Pack(s: seq<bool>, w: nat): (data: seq<nat>)
    requires w > 0
  {
    if |s| < w then [] else Pack(s[..|s| - w], w) + [FromBits(s[|s| - w..])]
  }

  lemma {:induction false} PackDigits(s: seq<bool>, w: nat)
    requires w > 0
    ensures Digits(Pack(s, w), w)
  {
    if |s| < w {
    } else {
      PackDigits(s[..|s| - w], w);
    }
  }

  lemma PackSnoc(s: seq<bool>, t: seq<bool>, w: nat)
    requires w > 0 && |t| == w
    ensures Pack(s + t, w) == Pack(s, w) + [FromBits(t)]
  {
    var st := s + t;
    assert st[..|st| - w] == s && st[|st| - w..] == t;
  }

  lemma {:induction false} PackOfUnpack(data: seq<nat>, w: nat)
    requires w > 0 && Digits(data, w)
    ensures Pack(Unpack(data, w), w) == data
  {
    if data == [] {
    } else {
      var init, last := data[..|data| - 1], data[|data| - 1];
      assert data == init + [last];
      PackOfUnpack(init, w);
      PackSnoc(Unpack(init, w), ToBits(last, w), w);
      BitsOfNumber(last, w);
    }
  }

  /** `n` groups of `w` bits. */
  lemma {:induction false} UnpackOfPack(s: seq<bool>, w: nat, n: nat)
    requires w > 0 && |s| == n * w
    ensures Unpack(Pack(s, w), w) == s && |Pack(s, w)| == n
    decreases n
  {
    if n == 0 {
    } else {
      Distribute(n, w);
      var init, last := s[..|s| - w], s[|s| - w..];
      assert s == init + last;
      UnpackOfPack(init, w, n - 1);
      PackSnoc(init, last, w);
      UnpackSnoc(Pack(init, w), FromBits(last), w);
      NumberOfBits(last);
    }
  }

  lemma ConcatAssoc<T>(a: seq<T>, b: seq<T>, c: seq<T>)
    ensures (a + b) + c == a + (b + c)
  {
  }

  lemma SplitAt<T>(s: seq<T>, k: nat)
    requires k <= |s|
    ensures s == s[..k] + s[k..]
  {
  }

  function Zeros(n: nat): (s: seq<bool>)
    ensures |s| == n
  {
    if n == 0 then [] else Zeros(n - 1) + [false]
  }

  lemma {:induction false} ZerosAt(n: nat, i: nat)
    requires i < n
    ensures !Zeros(n)[i]
  {
    if i >= n - 1 {
    } else {
      ZerosAt(n - 1, i);
    }
  }

  lemma {:induction false} BitsOfZero(w: nat)
    ensures ToBits(0, w) == Zeros(w)
  {
    if w == 0 {
    } else {
      BitsOfZero(w - 1);
    }
  }

  // ---------------------------------------------------------------- digits as one number

  /** The number that w-bit digits stand for, the first the most significant. */
  function Number(data: seq<nat>, w: nat): nat {
    if data == [] then 0 else Shl(Number(data[..|data| - 1], w), w) + data[|data| - 1]
  }

  lemma {:induction false} FromBitsAppend(s: seq<bool>, v: nat, w: nat)
    requires v < Pow2(w)
    ensures FromBits(s + ToBits(v, w)) == Shl(FromBits(s), w) + v
    decreases w
  {
    if w == 0 {
      assert s + [] == s;
    } else {
      FromBitsAppend(s, v / 2, w - 1);
      var longer := s + ToBits(v, w);
      assert longer[..|longer| - 1] == s + ToBits(v / 2, w - 1);
    }
  }

  /** Regrouping bits does not change the number. */
  lemma {:induction false} NumberOfUnpack(data: seq<nat>, w: nat)
    requires Digits(data, w)
    ensures FromBits(Unpack(data, w)) == Number(data, w)
  {
    if data == [] {
    } else {
      NumberOfUnpack(data[..|data| - 1], w);
      FromBitsAppend(Unpack(data[..|data| - 1], w), data[|data| - 1], w);
    }
  }
}
