/** Inclusion proofs (crypto/merkle/proof.go): verification, audit paths, completeness and soundness. */
module MerkleProof {
  import opened Bytes
  import opened Merkle

  const MAX_AUNTS: nat := 100

  datatype Proof = Proof(total: int, index: int, leafHash: Bytes, aunts: seq<Bytes>)

  datatype Verdict = Ok | NegativeTotal | NegativeIndex | InvalidLeafHash | InvalidRootHash

  /** computeHashFromAunts; the empty byte string stands for Go's nil. */
  function ComputeHash(h: HashFn, index: int, total: int, leafHash: Bytes, aunts: seq<Bytes>): Bytes
    decreases |aunts|
  {
    if index >= total || index < 0 || total <= 0 then []
    else if total == 1 then (if aunts != [] then [] else leafHash)
    else if aunts == [] then []
    else
      var k := SplitPoint(total);
      var (rest, last) := (aunts[..|aunts| - 1], aunts[|aunts| - 1]);
      if index < k then
        var left := ComputeHash(h, index, k, leafHash, rest);
        if left == [] then [] else InnerHash(h, left, last)
      else
        var right := ComputeHash(h, index - k, total - k, leafHash, rest);
        if right == [] then [] else InnerHash(h, last, right)
  }

  function ComputeRootHash(h: HashFn, p: Proof): Bytes {
    ComputeHash(h, p.index, p.total, p.leafHash, p.aunts)
  }

  function Verify(h: HashFn, p: Proof, root: Bytes, leaf: Bytes): Verdict {
    if p.total < 0 then NegativeTotal
    else if p.index < 0 then NegativeIndex
    else if p.leafHash != LeafHash(h, leaf) then InvalidLeafHash
    else if ComputeRootHash(h, p) != root then InvalidRootHash
    else Ok
  }

  predicate ValidateBasic(p: Proof) {
    && p.total >= 0 && p.index >= 0
    && |p.leafHash| == HASH_SIZE
    && |p.aunts| <= MAX_AUNTS
    && AllHashes(p.aunts)
  }

  /** The audit path of leaf i, from the leaf's sibling up to a child of the root. */
  function AuditPath(h: HashFn, items: seq<Bytes>, i: nat): seq<Bytes>
    requires i < |items|
    decreases |items|
  {
    if |items| == 1 then []
    else
      SplitPointIsPower(|items|);
      var k := SplitPoint(|items|);
      if i < k then AuditPath(h, items[..k], i) + [Root(h, items[k..])]
      else AuditPath(h, items[k..], i - k) + [Root(h, items[..k])]
  }

  /** The proof that ProofsFromByteSlices hands out for leaf i. */
  function ProofOf(h: HashFn, items: seq<Bytes>, i: nat): Proof
    requires i < |items|
  {
    Proof(|items|, i, LeafHash(h, items[i]), AuditPath(h, items, i))
  }

  // ----- completeness -----

  lemma {:induction false} AuditPathComputesRoot(h: HashFn, items: seq<Bytes>, i: nat)
    requires i < |items|
    ensures ComputeHash(h, i, |items|, LeafHash(h, items[i]), AuditPath(h, items, i)) == Root(h, items)
    decreases |items|
  {
    hide SplitPoint, LeafHash, InnerHash;
    if |items| > 1 {
      SplitPointIsPower(|items|);
      var k := SplitPoint(|items|);
      var path := AuditPath(h, items, i);
      if i < k {
        AuditPathComputesRoot(h, items[..k], i);
        assert path[..|path| - 1] == AuditPath(h, items[..k], i);
      } else {
        AuditPathComputesRoot(h, items[k..], i - k);
        assert path[..|path| - 1] == AuditPath(h, items[k..], i - k);
      }
    }
  }

  lemma {:induction false} CeilLog2Monotone(a: nat, b: nat)
    requires a <= b
    ensures CeilLog2(a) <= CeilLog2(b)
  {
    if a >= 2 {
      CeilLog2Monotone(Half(a), Half(b));
    }
  }

  lemma {:induction false} CeilLog2OfPower(e: nat)
    ensures CeilLog2(Pow2(e)) == e
  {
    if e > 0 {
      CeilLog2OfPower(e - 1);
      assert Half(Pow2(e)) == Pow2(e - 1);
    }
  }

  lemma CeilLog2OfSplit(n: nat)
    requires n >= 2
    ensures 1 <= SplitPoint(n) < n && CeilLog2(n) >= 1
    ensures CeilLog2(SplitPoint(n)) <= CeilLog2(n) - 1
    ensures CeilLog2(n - SplitPoint(n)) <= CeilLog2(n) - 1
  {
    hide SplitPoint, CeilLog2;
    SplitPointIsPower(n);
    CeilLog2OfPower(CeilLog2(n) - 1);
    CeilLog2Monotone(n - SplitPoint(n), SplitPoint(n));
  }

  lemma {:induction false} AuditPathIsShort(h: HashFn, items: seq<Bytes>, i: nat)
    requires i < |items|
    ensures |AuditPath(h, items, i)| <= CeilLog2(|items|)
    decreases |items|
  {
    hide SplitPoint, Root, CeilLog2;
    if |items| > 1 {
      CeilLog2OfSplit(|items|);
      var k := SplitPoint(|items|);
      if i < k {
        AuditPathIsShort(h, items[..k], i);
      } else {
        AuditPathIsShort(h, items[k..], i - k);
      }
    }
  }

  predicate AllHashes(hs: seq<Bytes>) {
    forall j :: 0 <= j < |hs| ==> |hs[j]| == HASH_SIZE
  }

  lemma {:induction false} AuditPathHoldsHashes(h: HashFn, items: seq<Bytes>, i: nat)
    requires i < |items|
    ensures AllHashes(AuditPath(h, items, i))
    decreases |items|
  {
    hide SplitPoint;
    if |items| > 1 {
      SplitPointIsPower(|items|);
      var k := SplitPoint(|items|);
      if i < k {
        AuditPathHoldsHashes(h, items[..k], i);
      } else {
        AuditPathHoldsHashes(h, items[k..], i - k);
      }
    }
  }

  /** Every proof that is handed out verifies for its own leaf, and is no longer than the tree is high. */
  lemma ProofsAreComplete(h: HashFn, items: seq<Bytes>, i: nat)
    requires i < |items|
    ensures Verify(h, ProofOf(h, items, i), Root(h, items), items[i]) == Ok
    ensures |AuditPath(h, items, i)| <= CeilLog2(|items|)
    ensures CeilLog2(|items|) <= MAX_AUNTS ==> ValidateBasic(ProofOf(h, items, i))
  {
    AuditPathComputesRoot(h, items, i);
    AuditPathIsShort(h, items, i);
    AuditPathHoldsHashes(h, items, i);
  }

  // ----- soundness -----

  /** The tree whose hash Root computes. */
  datatype Tree = Empty | Leaf(item: Bytes) | Node(left: Tree, right: Tree)

  function TreeOf(items: seq<Bytes>): Tree
    decreases |items|
  {
    if |items| == 0 then Empty
    else if |items| == 1 then Leaf(items[0])
    else
      SplitPointIsPower(|items|);
      var k := SplitPoint(|items|);
      Node(TreeOf(items[..k]), TreeOf(items[k..]))
  }

  /** The string hashed at the root of a tree. */
  function TreeInput(h: HashFn, t: Tree): Bytes
    decreases t, 0
  {
    match t
    case Empty => []
    case Leaf(item) => LEAF_PREFIX + item
    case Node(l, r) => INNER_PREFIX + (TreeHash(h, l) + TreeHash(h, r))
  }

  function TreeHash(h: HashFn, t: Tree): (r: Bytes)
    ensures |r| == HASH_SIZE
    decreases t, 1
  {
    Sum(h, TreeInput(h, t))
  }

  lemma {:induction false} RootIsTreeHash(h: HashFn, items: seq<Bytes>)
    ensures Root(h, items) == TreeHash(h, TreeOf(items))
    decreases |items|
  {
    hide SplitPoint;
    if |items| > 1 {
      SplitPointIsPower(|items|);
      RootIsTreeHash(h, items[..SplitPoint(|items|)]);
      RootIsTreeHash(h, items[SplitPoint(|items|)..]);
    }
  }

  /** A proof read from the root down: the turns its index and total dictate, with the aunt met at each. */
  datatype Path = Broken | AtLeaf | GoLeft(below: Path, aunt: Bytes) | GoRight(below: Path, aunt: Bytes)

  function PathOf(index: int, total: int, aunts: seq<Bytes>): Path
    decreases |aunts|
  {
    if index >= total || index < 0 || total <= 0 then Broken
    else if total == 1 then (if aunts != [] then Broken else AtLeaf)
    else if aunts == [] then Broken
    else
      var k := SplitPoint(total);
      if index < k then GoLeft(PathOf(index, k, aunts[..|aunts| - 1]), aunts[|aunts| - 1])
      else GoRight(PathOf(index - k, total - k, aunts[..|aunts| - 1]), aunts[|aunts| - 1])
  }

  function PathHash(h: HashFn, leafHash: Bytes, p: Path): Bytes {
    match p
    case Broken => []
    case AtLeaf => leafHash
    case GoLeft(below, aunt) =>
      var c := PathHash(h, leafHash, below);
      if c == [] then [] else InnerHash(h, c, aunt)
    case GoRight(below, aunt) =>
      var c := PathHash(h, leafHash, below);
      if c == [] then [] else InnerHash(h, aunt, c)
  }

  lemma {:induction false} ComputeHashIsPathHash(h: HashFn, index: int, total: int, leafHash: Bytes, aunts: seq<Bytes>)
    ensures ComputeHash(h, index, total, leafHash, aunts) == PathHash(h, leafHash, PathOf(index, total, aunts))
    decreases |aunts|
  {
    hide InnerHash, SplitPoint;
    if 0 <= index < total && total > 1 && aunts != [] {
      var k := SplitPoint(total);
      if index < k {
        ComputeHashIsPathHash(h, index, k, leafHash, aunts[..|aunts| - 1]);
      } else {
        ComputeHashIsPathHash(h, index - k, total - k, leafHash, aunts[..|aunts| - 1]);
      }
    }
  }

  lemma ComputeHashInRange(h: HashFn, index: int, total: int, leafHash: Bytes, aunts: seq<Bytes>)
    ensures ComputeHash(h, index, total, leafHash, aunts) != [] ==> 0 <= index < total
  {
  }

  /** The string hashed last when a path is folded up. */
  function PathInput(h: HashFn, leaf: Bytes, p: Path): Bytes {
    match p
    case Broken => []
    case AtLeaf => LEAF_PREFIX + leaf
    case GoLeft(below, aunt) => INNER_PREFIX + (PathHash(h, LeafHash(h, leaf), below) + aunt)
    case GoRight(below, aunt) => INNER_PREFIX + (aunt + PathHash(h, LeafHash(h, leaf), below))
  }

  /** The path leads through the tree to that leaf, and its aunts are the hashes of the subtrees it passes. */
  ghost predicate LeadsTo(h: HashFn, t: Tree, p: Path, leaf: Bytes) {
    match p
    case Broken => false
    case AtLeaf => t == Leaf(leaf)
    case GoLeft(below, aunt) => t.Node? && aunt == TreeHash(h, t.right) && LeadsTo(h, t.left, below, leaf)
    case GoRight(below, aunt) => t.Node? && aunt == TreeHash(h, t.left) && LeadsTo(h, t.right, below, leaf)
  }

  /** Follows a path down a tree to the first two strings that differ where their hashes should agree. */
  function Divergence(h: HashFn, t: Tree, p: Path, leaf: Bytes): (Bytes, Bytes) {
    if TreeInput(h, t) != PathInput(h, leaf, p) || !t.Node? then (TreeInput(h, t), PathInput(h, leaf, p))
    else
      match p
      case GoLeft(below, _) => Divergence(h, t.left, below, leaf)
      case GoRight(below, _) => Divergence(h, t.right, below, leaf)
      case _ => (TreeInput(h, t), PathInput(h, leaf, p))
  }

  lemma ConcatInjective(a: Bytes, b: Bytes, c: Bytes, d: Bytes)
    requires a + b == c + d && (|a| == |c| || |b| == |d|)
    ensures a == c && b == d
  {
    assert |a| == |c|;
    assert a == (a + b)[..|a|] && c == (c + d)[..|c|];
    assert b == (a + b)[|a|..] && d == (c + d)[|c|..];
  }

  lemma InnerInputInjective(l: Bytes, r: Bytes, a: Bytes, b: Bytes)
    requires INNER_PREFIX + (l + r) == INNER_PREFIX + (a + b)
    requires |l| == |a| || |r| == |b|
    ensures l == a && r == b
  {
    ConcatInjective(INNER_PREFIX, l + r, INNER_PREFIX, a + b);
    ConcatInjective(l, r, a, b);
  }

  lemma PathHashOfInput(h: HashFn, leaf: Bytes, p: Path)
    ensures PathHash(h, LeafHash(h, leaf), p) == [] ||
            PathHash(h, LeafHash(h, leaf), p) == Sum(h, PathInput(h, leaf, p))
  {
  }

  lemma FirstByteOfTree(h: HashFn, t: Tree)
    ensures t.Empty? ==> TreeInput(h, t) == []
    ensures t.Leaf? ==> |TreeInput(h, t)| > 0 && TreeInput(h, t)[0] == 0
    ensures t.Node? ==> |TreeInput(h, t)| > 0 && TreeInput(h, t)[0] == 1
  {
  }

  lemma FirstByteOfPath(h: HashFn, leaf: Bytes, p: Path)
    ensures p.AtLeaf? ==> |PathInput(h, leaf, p)| > 0 && PathInput(h, leaf, p)[0] == 0
    ensures p.GoLeft? || p.GoRight? ==> |PathInput(h, leaf, p)| > 0 && PathInput(h, leaf, p)[0] == 1
  {
  }

  /** Equal strings at the root: both sides are that leaf, or both are inner nodes with equal children. */
  lemma AgreeAtRoot(h: HashFn, t: Tree, p: Path, leaf: Bytes)
    requires PathHash(h, LeafHash(h, leaf), p) != []
    requires TreeInput(h, t) == PathInput(h, leaf, p)
    ensures match p
            case Broken => false
            case AtLeaf => t == Leaf(leaf)
            case GoLeft(below, aunt) =>
              t.Node? && aunt == TreeHash(h, t.right) && PathHash(h, LeafHash(h, leaf), below) == TreeHash(h, t.left)
            case GoRight(below, aunt) =>
              t.Node? && aunt == TreeHash(h, t.left) && PathHash(h, LeafHash(h, leaf), below) == TreeHash(h, t.right)
  {
    hide InnerHash;
    FirstByteOfTree(h, t);
    FirstByteOfPath(h, leaf, p);
    if p.AtLeaf? {
      ConcatInjective(LEAF_PREFIX, t.item, LEAF_PREFIX, leaf);
    } else {
      var below := PathHash(h, LeafHash(h, leaf), p.below);
      PathHashOfInput(h, leaf, p.below);
      if p.GoLeft? {
        InnerInputInjective(TreeHash(h, t.left), TreeHash(h, t.right), below, p.aunt);
      } else {
        InnerInputInjective(TreeHash(h, t.left), TreeHash(h, t.right), p.aunt, below);
      }
    }
  }

  /** A path that folds up to the hash of a tree leads to its leaf in that tree, or the hash collides. */
  lemma {:induction false} PathIsSound(h: HashFn, t: Tree, p: Path, leaf: Bytes)
    requires PathHash(h, LeafHash(h, leaf), p) == TreeHash(h, t)
    ensures LeadsTo(h, t, p, leaf) || Collides(h, Divergence(h, t, p, leaf))
  {
    hide PathHash, TreeInput, PathInput, LeafHash;
    PathHashOfInput(h, leaf, p);
    if TreeInput(h, t) == PathInput(h, leaf, p) {
      AgreeAtRoot(h, t, p, leaf);
      match p
      case AtLeaf =>
      case GoLeft(below, _) => PathIsSound(h, t.left, below, leaf);
      case GoRight(below, _) => PathIsSound(h, t.right, below, leaf);
    }
  }

  lemma {:induction false} LeadsToMember(h: HashFn, items: seq<Bytes>, p: Path, leaf: Bytes)
    requires LeadsTo(h, TreeOf(items), p, leaf)
    ensures leaf in items
    decreases |items|
  {
    hide SplitPoint, TreeHash;
    if |items| > 1 {
      SplitPointIsPower(|items|);
      var k := SplitPoint(|items|);
      if p.GoLeft? {
        LeadsToMember(h, items[..k], p.below, leaf);
      } else {
        LeadsToMember(h, items[k..], p.below, leaf);
      }
    }
  }

  lemma {:induction false} LeadsToIndex(h: HashFn, items: seq<Bytes>, index: nat, aunts: seq<Bytes>, leaf: Bytes)
    requires index < |items|
    requires LeadsTo(h, TreeOf(items), PathOf(index, |items|, aunts), leaf)
    ensures leaf == items[index] && aunts == AuditPath(h, items, index)
    decreases |items|
  {
    hide SplitPoint, TreeHash, Root;
    if |items| > 1 {
      SplitPointIsPower(|items|);
      var k := SplitPoint(|items|);
      var rest := aunts[..|aunts| - 1];
      assert aunts == rest + [aunts[|aunts| - 1]];
      if index < k {
        LeadsToIndex(h, items[..k], index, rest, leaf);
        RootIsTreeHash(h, items[k..]);
      } else {
        LeadsToIndex(h, items[k..], index - k, rest, leaf);
        RootIsTreeHash(h, items[..k]);
      }
    }
  }

  /** The two byte strings that a wrong proof would make collide. */
  function CollisionFrom(h: HashFn, items: seq<Bytes>, p: Proof, leaf: Bytes): (Bytes, Bytes) {
    Divergence(h, TreeOf(items), PathOf(p.index, p.total, p.aunts), leaf)
  }

  lemma VerifiedProof(h: HashFn, root: Bytes, p: Proof, leaf: Bytes)
    requires Verify(h, p, root, leaf) == Ok
    ensures p.leafHash == LeafHash(h, leaf)
    ensures ComputeHash(h, p.index, p.total, LeafHash(h, leaf), p.aunts) == root
    ensures root != [] ==> 0 <= p.index < p.total
  {
    ComputeHashInRange(h, p.index, p.total, p.leafHash, p.aunts);
  }

  lemma VerifiedPath(h: HashFn, items: seq<Bytes>, p: Proof, leaf: Bytes)
    requires Verify(h, p, Root(h, items), leaf) == Ok
    ensures 0 <= p.index < p.total
    ensures LeadsTo(h, TreeOf(items), PathOf(p.index, p.total, p.aunts), leaf) ||
            Collides(h, CollisionFrom(h, items, p, leaf))
  {
    hide Verify, ComputeHash, LeafHash, Root, TreeHash, PathHash, TreeOf, PathOf, LeadsTo, Divergence;
    VerifiedProof(h, Root(h, items), p, leaf);
    ComputeHashIsPathHash(h, p.index, p.total, LeafHash(h, leaf), p.aunts);
    RootIsTreeHash(h, items);
    PathIsSound(h, TreeOf(items), PathOf(p.index, p.total, p.aunts), leaf);
  }

  /** A proof with the right total proves exactly the leaf at its index, and is that leaf's own proof; with
      any total it proves a member. Otherwise CollisionFrom exhibits a collision of the hash. */
  lemma ProofsAreSound(h: HashFn, items: seq<Bytes>, p: Proof, leaf: Bytes)
    requires Verify(h, p, Root(h, items), leaf) == Ok
    ensures 0 <= p.index < p.total
    ensures p.total == |items| ==>
              (leaf == items[p.index] && p == ProofOf(h, items, p.index)) ||
              Collides(h, CollisionFrom(h, items, p, leaf))
    ensures leaf in items || Collides(h, CollisionFrom(h, items, p, leaf))
  {
    hide Verify, LeafHash, Root, TreeOf, PathOf, LeadsTo, CollisionFrom, AuditPath;
    VerifiedPath(h, items, p, leaf);
    VerifiedProof(h, Root(h, items), p, leaf);
    var path := PathOf(p.index, p.total, p.aunts);
    if LeadsTo(h, TreeOf(items), path, leaf) {
      LeadsToMember(h, items, path, leaf);
      if p.total == |items| {
        assert path == PathOf(p.index, |items|, p.aunts);
        assert LeadsTo(h, TreeOf(items), PathOf(p.index, |items|, p.aunts), leaf);
        LeadsToIndex(h, items, p.index, p.aunts, leaf);
      }
    }
  }
}
