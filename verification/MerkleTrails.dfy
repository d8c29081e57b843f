/** The linked nodes from which the source reads off its proofs (crypto/merkle/proof.go, ProofNode). */
module MerkleTrails {
  import opened Bytes
  import opened Merkle
  import opened MerkleProof

  class ProofNode {
    const hash: Bytes
    var parent: ProofNode?
    var left: ProofNode?   // left sibling
    var right: ProofNode?  // right sibling
    ghost var aunts: seq<Bytes>  // the sibling hashes from here up to a child of the root

    constructor (hash: Bytes)
      ensures this.hash == hash && parent == null && left == null && right == null && aunts == []
    {
      this.hash := hash;
      parent, left, right, aunts := null, null, null, [];
    }

    /** Exactly one sibling is set below the root and none at the root; aunts follows the links. */
    ghost predicate WellLinked(tree: set<ProofNode>)
      reads this, tree
    {
      if parent == null then left == null && right == null && aunts == []
      else
        && parent in tree
        && (left == null <==> right != null)
        && aunts == [if left != null then left.hash else right.hash] + parent.aunts
    }

    /** Follows the parent links and collects the sibling hashes. */
    method FlattenAunts(ghost tree: set<ProofNode>, ghost root: ProofNode) returns (innerHashes: seq<Bytes>)
      requires this in tree && LinkedTree(tree, root)
      ensures innerHashes == aunts
    {
      innerHashes := [];
      var spn: ProofNode? := this;
      while spn != null
        invariant spn != null ==> spn in tree && aunts == innerHashes + spn.aunts
        invariant spn == null ==> aunts == innerHashes
        decreases if spn == null then 0 else 1 + |spn.aunts|
      {
        assert spn.WellLinked(tree);
        if spn.left != null {
          ConcatAssoc(innerHashes, [spn.left.hash], spn.parent.aunts);
          innerHashes := innerHashes + [spn.left.hash];
        } else if spn.right != null {
          ConcatAssoc(innerHashes, [spn.right.hash], spn.parent.aunts);
          innerHashes := innerHashes + [spn.right.hash];
        } else {
          assert innerHashes + spn.aunts == innerHashes;
        }
        spn := spn.parent;
      }
    }
  }

  lemma ConcatAssoc<T>(a: seq<T>, b: seq<T>, c: seq<T>)
    ensures (a + b) + c == a + (b + c)
  {
  }

  /** The nodes form one tree under root. */
  ghost predicate LinkedTree(tree: set<ProofNode>, root: ProofNode)
    reads tree
  {
    && root in tree && root.parent == null
    && forall n :: n in tree ==> n.WellLinked(tree) && (n.parent == null ==> n == root)
  }

  /** The trails start at the leaves, in order, and carry each leaf's audit path. */
  ghost predicate TrailsOf(h: HashFn, items: seq<Bytes>, trails: seq<ProofNode>, tree: set<ProofNode>)
    reads tree
  {
    && |trails| == |items|
    && forall i :: 0 <= i < |items| ==>
         trails[i] in tree && trails[i].hash == LeafHash(h, items[i]) && trails[i].aunts == AuditPath(h, items, i)
  }

  /** Extends the path of every node of a tree by one more aunt, above its root. */
  ghost method ExtendPaths(tree: set<ProofNode>, root: ProofNode, aunt: Bytes)
    requires LinkedTree(tree, root)
    modifies tree`aunts
    ensures forall n :: n in tree ==> n.aunts == old(n.aunts) + [aunt]
    ensures root.aunts == [aunt]
    ensures forall n :: n in tree && n != root ==> n.parent != null && n.WellLinked(tree)
  {
    forall n | n in tree { n.aunts := n.aunts + [aunt]; }
    forall n | n in tree && n != root ensures n.WellLinked(tree) {
      assert old(n.WellLinked(tree));
      ConcatAssoc([if n.left != null then n.left.hash else n.right.hash], old(n.parent.aunts), [aunt]);
    }
  }

  /** Hangs two trees under a new root. */
  method Join(h: HashFn, ghost lefts: set<ProofNode>, leftRoot: ProofNode,
              ghost rights: set<ProofNode>, rightRoot: ProofNode)
    returns (root: ProofNode)
    requires LinkedTree(lefts, leftRoot) && LinkedTree(rights, rightRoot) && lefts !! rights
    modifies lefts, rights
    ensures fresh(root) && root.hash == InnerHash(h, leftRoot.hash, rightRoot.hash)
    ensures LinkedTree(lefts + rights + {root}, root)
    ensures forall n :: n in lefts ==> n.aunts == old(n.aunts) + [rightRoot.hash]
    ensures forall n :: n in rights ==> n.aunts == old(n.aunts) + [leftRoot.hash]
  {
    hide InnerHash;
    root := new ProofNode(InnerHash(h, leftRoot.hash, rightRoot.hash));
    ExtendPaths(lefts, leftRoot, rightRoot.hash);
    ExtendPaths(rights, rightRoot, leftRoot.hash);
    leftRoot.parent, leftRoot.right := root, rightRoot;
    rightRoot.parent, rightRoot.left := root, leftRoot;
    ghost var tree := lefts + rights + {root};
    assert leftRoot.WellLinked(tree) && rightRoot.WellLinked(tree);
    forall n | n in lefts && n != leftRoot ensures n.WellLinked(tree) && n.parent != null {}
    forall n | n in rights && n != rightRoot ensures n.WellLinked(tree) && n.parent != null {}
  }

  lemma AuditPathOfHalf(h: HashFn, items: seq<Bytes>, k: nat, i: nat)
    requires |items| > 1 && k == SplitPoint(|items|) && i < |items| && 1 <= k < |items|
    ensures i < k ==> items[..k][i] == items[i] && AuditPath(h, items, i) == AuditPath(h, items[..k], i) + [Root(h, items[k..])]
    ensures k <= i ==> items[k..][i - k] == items[i] && AuditPath(h, items, i) == AuditPath(h, items[k..], i - k) + [Root(h, items[..k])]
  {
  }

  method TrailsFromByteSlices(h: HashFn, items: seq<Bytes>)
    returns (trails: seq<ProofNode>, root: ProofNode, ghost tree: set<ProofNode>)
    ensures fresh(tree) && LinkedTree(tree, root) && root.hash == Root(h, items)
    ensures TrailsOf(h, items, trails, tree)
    decreases |items|
  {
    if |items| == 0 {
      root := new ProofNode(EmptyHash(h));
      trails, tree := [], {root};
    } else if |items| == 1 {
      root := new ProofNode(LeafHash(h, items[0]));
      trails, tree := [root], {root};
    } else {
      SplitPointIsPower(|items|);
      var k := SplitPoint(|items|);
      trails, root, tree := JoinHalves(h, items, k);
    }
  }

  method JoinHalves(h: HashFn, items: seq<Bytes>, k: nat)
    returns (trails: seq<ProofNode>, root: ProofNode, ghost tree: set<ProofNode>)
    requires |items| > 1 && k == SplitPoint(|items|) && 1 <= k < |items|
    ensures fresh(tree) && LinkedTree(tree, root) && root.hash == Root(h, items)
    ensures TrailsOf(h, items, trails, tree)
    decreases |items|, 0
  {
    hide InnerHash, LeafHash, SplitPoint, AuditPath, LinkedTree;
    var lefts, leftRoot, leftTree := TrailsFromByteSlices(h, items[..k]);
    var rights, rightRoot, rightTree := TrailsFromByteSlices(h, items[k..]);
    root := Join(h, leftTree, leftRoot, rightTree, rightRoot);
    trails, tree := lefts + rights, leftTree + rightTree + {root};
    forall i | 0 <= i < |items|
      ensures trails[i] in tree && trails[i].hash == LeafHash(h, items[i]) && trails[i].aunts == AuditPath(h, items, i)
    {
      AuditPathOfHalf(h, items, k, i);
    }
  }

  /** The root and the proofs handed out are those of the tree hash and of its audit paths. */
  method ProofsFromByteSlices(h: HashFn, items: seq<Bytes>) returns (rootHash: Bytes, proofs: seq<Proof>)
    ensures rootHash == Root(h, items)
    ensures |proofs| == |items|
    ensures forall i :: 0 <= i < |items| ==> proofs[i] == ProofOf(h, items, i)
  {
    hide LeafHash, AuditPath, Root, LinkedTree;
    var trails, rootSPN, tree := TrailsFromByteSlices(h, items);
    rootHash, proofs := rootSPN.hash, [];
    for i := 0 to |trails|
      modifies {}
      invariant |proofs| == i
      invariant forall j :: 0 <= j < i ==> proofs[j] == ProofOf(h, items, j)
    {
      var aunts := trails[i].FlattenAunts(tree, rootSPN);
      var proof := Proof(|items|, i, trails[i].hash, aunts);
      assert proof == ProofOf(h, items, i);
      proofs := proofs + [proof];
    }
  }
}
