/** The in-place, level by level form of the tree hash and its agreement with the recursive one. */
module MerkleIterative {
  import opened Bytes
  import opened Merkle

  /** The root over hashes that are already the leaves of a tree. */
  function RootOfHashes(h: HashFn, hs: seq<Bytes>): Bytes
    requires |hs| >= 1
    decreases |hs|
  {
    if |hs| == 1 then hs[0]
    else
      SplitPointIsPower(|hs|);
      var k := SplitPoint(|hs|);
      InnerHash(h, RootOfHashes(h, hs[..k]), RootOfHashes(h, hs[k..]))
  }

  /** What one pass writes at position i: neighbours are combined, an odd last hash is carried up. */
  function Combined(h: HashFn, hs: seq<Bytes>, i: nat): Bytes
    requires i < Half(|hs|)
  {
    if 2 * i + 1 < |hs| then InnerHash(h, hs[2 * i], hs[2 * i + 1]) else hs[2 * i]
  }

  /** The hashes after one pass of the loop. */
  function Level(h: HashFn, hs: seq<Bytes>): (r: seq<Bytes>)
    ensures |r| == Half(|hs|)
    ensures forall i :: 0 <= i < |r| ==> r[i] == Combined(h, hs, i)
  {
    seq(Half(|hs|), i requires 0 <= i < Half(|hs|) => Combined(h, hs, i))
  }

  function LeafHashes(h: HashFn, items: seq<Bytes>): seq<Bytes> {
    seq(|items|, i requires 0 <= i < |items| => LeafHash(h, items[i]))
  }

  lemma SplitPointHalves(n: nat)
    requires n >= 3
    ensures SplitPoint(n) == 2 * SplitPoint(Half(n))
  {
    SplitPointIsPower(n);
    SplitPointIsPower(Half(n));
  }

  lemma HalfShifts(n: nat, k: nat)
    ensures Half(2 * k + n) == k + Half(n)
  {
  }

  /** Combined looks at two neighbours only, so it can be moved. */
  lemma CombinedMoves(h: HashFn, s: seq<Bytes>, t: seq<Bytes>, k: nat, i: nat)
    requires i < Half(|t|) && k + i < Half(|s|)
    requires s[2 * (k + i)] == t[2 * i]
    requires 2 * i + 1 < |t| <==> 2 * (k + i) + 1 < |s|
    requires 2 * i + 1 < |t| ==> s[2 * (k + i) + 1] == t[2 * i + 1]
    ensures Combined(h, s, k + i) == Combined(h, t, i)
  {
  }

  lemma ConcatAt<T>(lo: seq<T>, hi: seq<T>, i: nat)
    requires i < |hi|
    ensures (lo + hi)[|lo| + i] == hi[i]
  {
  }

  lemma CombinedOfPrefix(h: HashFn, lo: seq<Bytes>, hi: seq<Bytes>, k: nat, i: nat)
    requires |lo| == 2 * k && i < k
    ensures Half(|lo|) == k && i < Half(|lo + hi|)
    ensures Combined(h, lo + hi, i) == Combined(h, lo, i)
  {
    HalfShifts(0, k);
    HalfShifts(|hi|, k);
  }

  lemma CombinedOfSuffix(h: HashFn, lo: seq<Bytes>, hi: seq<Bytes>, k: nat, i: nat)
    requires |lo| == 2 * k && i < Half(|hi|)
    ensures k + i < Half(|lo + hi|)
    ensures Combined(h, lo + hi, k + i) == Combined(h, hi, i)
  {
    hide Combined, Half;
    HalfShifts(|hi|, k);
    var (s, p) := (lo + hi, 2 * (k + i));
    ConcatAt(lo, hi, 2 * i);
    assert p == |lo| + 2 * i;
    if 2 * i + 1 < |hi| {
      ConcatAt(lo, hi, 2 * i + 1);
      assert p + 1 == |lo| + (2 * i + 1);
    }
    CombinedMoves(h, s, hi, k, i);
  }

  lemma LevelOfConcat(h: HashFn, lo: seq<Bytes>, hi: seq<Bytes>, k: nat)
    requires |lo| == 2 * k
    ensures |Level(h, lo + hi)| == k + Half(|hi|)
    ensures Level(h, lo + hi)[..k] == Level(h, lo)
    ensures Level(h, lo + hi)[k..] == Level(h, hi)
  {
    hide Combined, Half;
    HalfShifts(|hi|, k);
    HalfShifts(0, k);
    forall i: nat | i < k ensures Level(h, lo + hi)[i] == Level(h, lo)[i] {
      CombinedOfPrefix(h, lo, hi, k, i);
    }
    forall i: nat | i < Half(|hi|) ensures Level(h, lo + hi)[k + i] == Level(h, hi)[i] {
      CombinedOfSuffix(h, lo, hi, k, i);
    }
  }

  lemma RootOfPair(h: HashFn, hs: seq<Bytes>)
    requires |hs| == 2
    ensures Level(h, hs) == [InnerHash(h, hs[0], hs[1])]
    ensures RootOfHashes(h, hs) == InnerHash(h, hs[0], hs[1])
  {
    assert SplitPoint(2) == 1;
    assert hs[..1] == [hs[0]] && hs[1..] == [hs[1]];
  }

  /** A pass leaves the root as it was. */
  lemma {:induction false} LevelKeepsRoot(h: HashFn, hs: seq<Bytes>)
    requires |hs| >= 1
    ensures RootOfHashes(h, Level(h, hs)) == RootOfHashes(h, hs)
    decreases |hs|
  {
    hide SplitPoint, Combined, Half, InnerHash;
    if |hs| == 1 {
      SingleLevel(h, hs);
    } else if |hs| == 2 {
      RootOfPair(h, hs);
    } else {
      SplitPointIsPower(|hs|);
      SplitPointHalves(|hs|);
      var k := SplitPoint(Half(|hs|));
      LevelOfConcat(h, hs[..2 * k], hs[2 * k..], k);
      assert hs[..2 * k] + hs[2 * k..] == hs;
      LevelKeepsRoot(h, hs[..2 * k]);
      LevelKeepsRoot(h, hs[2 * k..]);
    }
  }

  lemma SingleLevel(h: HashFn, hs: seq<Bytes>)
    requires |hs| == 1
    ensures Level(h, hs) == hs
  {
  }

  lemma {:induction false} RootFromLeafHashes(h: HashFn, items: seq<Bytes>)
    requires |items| >= 1
    ensures RootOfHashes(h, LeafHashes(h, items)) == Root(h, items)
    decreases |items|
  {
    if |items| > 1 {
      SplitPointIsPower(|items|);
      var k := SplitPoint(|items|);
      assert LeafHashes(h, items)[..k] == LeafHashes(h, items[..k]);
      assert LeafHashes(h, items)[k..] == LeafHashes(h, items[k..]);
      RootFromLeafHashes(h, items[..k]);
      RootFromLeafHashes(h, items[k..]);
    }
  }

  lemma LevelEntry(h: HashFn, hs: seq<Bytes>, w: nat)
    requires 2 * w < |hs|
    ensures w < |Level(h, hs)|
    ensures 2 * w + 1 < |hs| ==> Level(h, hs)[w] == InnerHash(h, hs[2 * w], hs[2 * w + 1])
    ensures 2 * w + 1 == |hs| ==> Level(h, hs)[w] == hs[2 * w]
  {
  }

  /** Reads one pair, or the last single hash, and writes one hash. */
  method CombineNext(h: HashFn, items: array<Bytes>, size: nat, rp: nat, wp: nat, ghost hs: seq<Bytes>) returns (rp': nat)
    requires rp == 2 * wp < size <= items.Length && |hs| == size
    requires forall i :: rp <= i < size ==> items[i] == hs[i]
    modifies items
    ensures rp' == if rp + 1 < size then rp + 2 else rp + 1
    ensures wp < |Level(h, hs)| && items[wp] == Level(h, hs)[wp]
    ensures forall i :: 0 <= i < items.Length && i != wp ==> items[i] == old(items[i])
  {
    hide InnerHash, Half, Level;
    LevelEntry(h, hs, wp);
    assert items[rp] == hs[2 * wp];
    if rp + 1 < size {
      assert items[rp + 1] == hs[2 * wp + 1];
      items[wp] := InnerHash(h, items[rp], items[rp + 1]);
      rp' := rp + 2;
    } else {
      items[wp] := items[rp];
      rp' := rp + 1;
    }
  }

  /** One pass over the first `size` cells, reading ahead of where it writes. */
  method CombineLevel(h: HashFn, items: array<Bytes>, size: nat) returns (wp: nat)
    requires 2 <= size <= items.Length
    modifies items
    ensures wp == Half(size)
    ensures items[..wp] == Level(h, old(items[..size]))
  {
    hide InnerHash, Half, Level;
    ghost var hs := items[..size];
    ghost var up := Level(h, hs);
    var rp := 0;
    wp := 0;
    while rp < size
      invariant 0 <= wp <= rp <= size && rp <= 2 * wp <= rp + 1 && wp <= |up|
      invariant rp < size ==> rp == 2 * wp
      invariant forall i :: 0 <= i < wp ==> items[i] == up[i]
      invariant forall i :: rp <= i < size ==> items[i] == hs[i]
    {
      rp := CombineNext(h, items, size, rp, wp, hs);
      wp := wp + 1;
    }
  }

  /** HashFromByteSlicesIterative computes the recursive tree hash, for every list of leaves. */
  method HashFromByteSlicesIterative(h: HashFn, input: seq<Bytes>) returns (r: Bytes)
    ensures r == Root(h, input)
  {
    var items := new Bytes[|input|](i requires 0 <= i < |input| => LeafHash(h, input[i]));
    var size := |input|;
    assert items[..size] == LeafHashes(h, input);
    if size >= 1 { RootFromLeafHashes(h, input); }
    while size > 1
      invariant 0 <= size <= items.Length
      invariant size == 0 <==> |input| == 0
      invariant size >= 1 ==> RootOfHashes(h, items[..size]) == Root(h, input)
    {
      LevelKeepsRoot(h, items[..size]);
      size := CombineLevel(h, items, size);
    }
    r := if size == 0 then EmptyHash(h) else items[0];
  }
}
