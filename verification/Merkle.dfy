/** The Merkle tree hash (crypto/merkle/tree.go, crypto/merkle/hash.go). */
module Merkle {
  import opened Bytes

  const LEAF_PREFIX: Bytes := [0]
  const INNER_PREFIX: Bytes := [1]

  function EmptyHash(h: HashFn): (r: Bytes)
    ensures |r| == HASH_SIZE
  {
    Sum(h, [])
  }

  function LeafHash(h: HashFn, leaf: Bytes): (r: Bytes)
    ensures |r| == HASH_SIZE
  {
    Sum(h, LEAF_PREFIX + leaf)
  }

  function InnerHash(h: HashFn, left: Bytes, right: Bytes): (r: Bytes)
    ensures |r| == HASH_SIZE
  {
    Sum(h, INNER_PREFIX + (left + right))
  }

  function Pow2(e: nat): (p: nat)
    ensures p >= 1
  {
    if e == 0 then 1 else 2 * Pow2(e - 1)
  }

  /** The number of bits needed to write n, as Go's bits.Len. */
  function BitLen(n: nat): nat {
    if n == 0 then 0 else 1 + BitLen(n / 2)
  }

  /** getSplitPoint; the source panics on a length below one. */
  function SplitPoint(length: nat): nat
    requires length >= 1
  {
    var k := Pow2(BitLen(length) - 1);
    if k == length then k / 2 else k
  }

  /** Half of n, rounded up. */
  function Half(n: nat): (r: nat)
    ensures n <= 2 * r <= n + 1
  {
    if n <= 1 then n else 1 + Half(n - 2)
  }

  /** The number of levels above the leaves: the least c with length <= 2^c. */
  function CeilLog2(length: nat): nat {
    if length <= 1 then 0 else 1 + CeilLog2(Half(length))
  }

  lemma {:induction false} CeilLog2Bounds(n: nat)
    requires n >= 2
    ensures CeilLog2(n) >= 1 && Pow2(CeilLog2(n) - 1) < n <= 2 * Pow2(CeilLog2(n) - 1)
  {
    if n > 2 {
      CeilLog2Bounds(Half(n));
    }
  }

  lemma {:induction false} BitLenBounds(n: nat)
    requires n >= 1
    ensures BitLen(n) >= 1 && Pow2(BitLen(n) - 1) <= n < 2 * Pow2(BitLen(n) - 1)
  {
    if n > 1 {
      BitLenBounds(n / 2);
    }
  }

  lemma {:induction false} Pow2Order(a: nat, b: nat)
    ensures a <= b ==> Pow2(a) <= Pow2(b)
    ensures a < b ==> 2 * Pow2(a) <= Pow2(b)
  {
    if a < b {
      Pow2Order(a, b - 1);
    }
  }

  lemma SplitPointIsPower(n: nat)
    requires n >= 2
    ensures CeilLog2(n) >= 1 && SplitPoint(n) == Pow2(CeilLog2(n) - 1)
    ensures 1 <= SplitPoint(n) < n <= 2 * SplitPoint(n)
  {
    BitLenBounds(n);
    CeilLog2Bounds(n);
    var b, c := BitLen(n) - 1, CeilLog2(n) - 1;
    if b < c {
      Pow2Order(b, c);
      assert false;
    } else if c + 1 < b {
      Pow2Order(c + 1, b);
      assert false;
    } else if b == c + 1 {
      assert Pow2(b) == 2 * Pow2(c);
    }
  }

  /** The split point is the largest power of two below the length, as RFC 6962 section 2.1 asks. */
  lemma SplitPointIsLargestPowerBelow(n: nat, e: nat)
    requires n >= 2
    ensures SplitPoint(n) < n
    ensures Pow2(e) < n <==> Pow2(e) <= SplitPoint(n)
  {
    SplitPointIsPower(n);
    Pow2Order(CeilLog2(n), e);
    Pow2Order(e, CeilLog2(n) - 1);
  }

  /** HashFromByteSlices: the recursive form. */
  function Root(h: HashFn, items: seq<Bytes>): (r: Bytes)
    ensures |r| == HASH_SIZE
    decreases |items|
  {
    if |items| == 0 then EmptyHash(h)
    else if |items| == 1 then LeafHash(h, items[0])
    else
      SplitPointIsPower(|items|);
      var k := SplitPoint(|items|);
      InnerHash(h, Root(h, items[..k]), Root(h, items[k..]))
  }
}
