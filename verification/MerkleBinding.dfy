/** A tree hash commits to its list of leaves. */
module MerkleBinding {
  import opened Bytes
  import opened Merkle
  import opened MerkleProof

  /** Follows two trees down to the first two strings that differ where their hashes agree. */
  function Clash(h: HashFn, s: Tree, t: Tree): (Bytes, Bytes) {
    if TreeInput(h, s) == TreeInput(h, t) && s.Node? && t.Node? then
      (if s.left != t.left then Clash(h, s.left, t.left) else Clash(h, s.right, t.right))
    else (TreeInput(h, s), TreeInput(h, t))
  }

  lemma {:induction false} TreeHashBinds(h: HashFn, s: Tree, t: Tree)
    requires TreeHash(h, s) == TreeHash(h, t)
    ensures s == t || Collides(h, Clash(h, s, t))
  {
    if TreeInput(h, s) == TreeInput(h, t) {
      FirstByteOfTree(h, s);
      FirstByteOfTree(h, t);
      if s.Leaf? {
        ConcatInjective(LEAF_PREFIX, s.item, LEAF_PREFIX, t.item);
      } else if s.Node? {
        InnerInputInjective(TreeHash(h, s.left), TreeHash(h, s.right), TreeHash(h, t.left), TreeHash(h, t.right));
        TreeHashBinds(h, s.left, t.left);
        TreeHashBinds(h, s.right, t.right);
      }
    }
  }

  function Leaves(t: Tree): seq<Bytes> {
    match t
    case Empty => []
    case Leaf(item) => [item]
    case Node(l, r) => Leaves(l) + Leaves(r)
  }

  lemma {:induction false} LeavesOfTree(items: seq<Bytes>)
    ensures Leaves(TreeOf(items)) == items
    decreases |items|
  {
    hide SplitPoint;
    if |items| > 1 {
      SplitPointIsPower(|items|);
      LeavesOfTree(items[..SplitPoint(|items|)]);
      LeavesOfTree(items[SplitPoint(|items|)..]);
    }
  }

  /** Lists with the same tree hash are the same list, whatever their lengths, unless the hash collides. */
  lemma RootBinds(h: HashFn, xs: seq<Bytes>, ys: seq<Bytes>)
    requires Root(h, xs) == Root(h, ys)
    ensures xs == ys || Collides(h, Clash(h, TreeOf(xs), TreeOf(ys)))
  {
    hide Root, TreeOf, TreeHash, Clash;
    RootIsTreeHash(h, xs);
    RootIsTreeHash(h, ys);
    TreeHashBinds(h, TreeOf(xs), TreeOf(ys));
    LeavesOfTree(xs);
    LeavesOfTree(ys);
  }
}
