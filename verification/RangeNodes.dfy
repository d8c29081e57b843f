/** The tree of key ranges as the program keeps it: nodes whose keys, children and depths are rewritten in place
    (utils/RangeTree.go). */
module RangeNodes {
  import opened Bytes
  import opened Keys
  import opened RangeTrees

  class RangeTreeNode {
    var ukey: Key
    var left: RangeTreeNode?
    var right: RangeTreeNode?
    var depth: nat
    ghost var repr: set<object>

    ghost predicate Valid()
      reads this, repr
      decreases repr
    {
      && this in repr
      && (left == null <==> right == null)
      && (left == null ==> depth == 0)
      && (left != null && right != null ==>
            && left in repr && left.repr <= repr && this !in left.repr
            && right in repr && right.repr <= repr && this !in right.repr
            && left.repr !! right.repr
            && left.Valid() && right.Valid())
    }

    ghost function Abs(): Tree
      requires Valid()
      reads this, repr
      decreases repr
    {
      if left == null then Leaf(ukey) else Node(ukey, left.Abs(), right.Abs(), depth)
    }

    constructor MakeLeaf(key: Key)
      ensures Valid() && Abs() == Leaf(key) && fresh(repr)
    {
      ukey, left, right, depth := key, null, null, 0;
      repr := {this};
    }

    constructor MakeNode(key: Key, l: RangeTreeNode, r: RangeTreeNode, d: nat)
      requires l.Valid() && r.Valid() && l.repr !! r.repr
      ensures Valid() && Abs() == Node(key, l.Abs(), r.Abs(), d) && repr == {this} + l.repr + r.repr && fresh(this)
    {
      ukey, left, right, depth := key, l, r, d;
      repr := {this} + l.repr + r.repr;
    }

    method Search(p: Key, low: Key, high: Key) returns (found: bool)
      requires Valid()
      ensures found == RangeTrees.Search(Abs(), p, low, high)
      decreases repr
    {
      hide Less, AtMost;
      if left == null { return Within(p, low, high); }
      if Less(p, left.ukey) {
        found := left.Search(p, low, left.ukey);
      } else if AtMost(right.ukey, p) {
        found := right.Search(p, right.ukey, high);
      } else {
        found := false;
      }
    }

    /** Range appends this node's ranges to the output. */
    method Range(output: seq<(Key, Key)>, start: Key, end: Key) returns (r: seq<(Key, Key)>)
      requires Valid()
      ensures r == output + Ranges(Abs(), start, end)
      decreases repr
    {
      if left == null { return output + [(start, end)]; }
      r := left.Range(output, start, left.ukey);
      r := right.Range(r, right.ukey, end);
    }

    method SetKey(key: Key)
      requires Valid()
      modifies this`ukey
      ensures Valid() && Abs() == WithKey(old(Abs()), key)
    {
      ukey := key;
    }

    /** The deferred end of AddRange. */
    method Settle()
      requires Valid()
      modifies this
      ensures Valid() && repr == old(repr) && Abs() == RangeTrees.Settle(old(Abs()))
    {
      if left == null {
        depth := 0;
        return;
      }
      if left.left == null && right.left == null && left.ukey == right.ukey {
        left, right := null, null;
        depth := 0;
        return;
      }
      DepthOfAbs(left);
      DepthOfAbs(right);
      var ld, rd := left.depth, right.depth;
      if ld > rd {
        depth := ld + 1;
      } else {
        depth := rd + 1;
      }
    }

    method SetLeftKey(key: Key)
      requires Valid() && left != null
      modifies left`ukey
      ensures old(Abs()).Node?
      ensures Valid() && Abs() == old(Abs()).(left := WithKey(old(Abs()).left, key))
    {
      left.SetKey(key);
    }

    method SetRightKey(key: Key)
      requires Valid() && right != null
      modifies right`ukey
      ensures old(Abs()).Node?
      ensures Valid() && Abs() == old(Abs()).(right := WithKey(old(Abs()).right, key))
    {
      right.SetKey(key);
    }

    /** A new range in the gap, as the last of the left child. */
    method GrowLeft(rl: Key, rh: Key)
      requires Valid() && left != null
      modifies this
      ensures Valid() && fresh(repr - old(repr)) && left != null
      ensures old(Abs()).Node?
      ensures Abs() == old(Abs()).(left := Node(rh, old(Abs()).left, Leaf(rl), Depth(old(Abs()).left) + 1))
    {
      var node := WithLast(left, rl, rh);
      repr := repr + node.repr;
      left := node;
    }

    /** A new range in the gap, as the first of the right child. */
    method GrowRight(rl: Key, rh: Key)
      requires Valid() && right != null
      modifies this
      ensures Valid() && fresh(repr - old(repr)) && right != null
      ensures old(Abs()).Node?
      ensures Abs() == old(Abs()).(right := Node(rl, Leaf(rh), old(Abs()).right, Depth(old(Abs()).right) + 1))
    {
      var node := WithFirst(right, rl, rl, rh);
      repr := repr + node.repr;
      right := node;
    }

    /** AddRange on the left child, whose range is [low, high). */
    method AddToLeft(low: Key, rl: Key, rh: Key, high: Key)
      requires Valid() && left != null && IsTree(false, left.Abs(), low, high, true) && Fits(false, low, rl, rh, high)
      modifies repr
      ensures Valid() && fresh(repr - old(repr)) && left != null
      ensures RangeTrees.AddRange(old(Abs()).left, low, rl, rh, high).Some?
      ensures Abs() == old(Abs()).(left := RangeTrees.AddRange(old(Abs()).left, low, rl, rh, high).value)
      decreases Height(left.Abs()), 2
    {
      hide IsTree, Fits, RangeTrees.AddRange;
      ghost var t := Abs();
      left.AddRange(low, rl, rh, high, true);
      repr := repr + left.repr;
      assert right.Abs() == t.right;
    }

    /** AddRange on the right child. */
    method AddToRight(low: Key, rl: Key, rh: Key, high: Key)
      requires Valid() && right != null && IsTree(false, right.Abs(), low, high, false) && Fits(false, low, rl, rh, high)
      modifies repr
      ensures Valid() && fresh(repr - old(repr)) && right != null
      ensures RangeTrees.AddRange(old(Abs()).right, low, rl, rh, high).Some?
      ensures Abs() == old(Abs()).(right := RangeTrees.AddRange(old(Abs()).right, low, rl, rh, high).value)
      decreases Height(right.Abs()), 2
    {
      hide IsTree, Fits, RangeTrees.AddRange;
      ghost var t := Abs();
      right.AddRange(low, rl, rh, high, false);
      repr := repr + right.repr;
      assert left.Abs() == t.left;
    }

    /** A range that reaches from the left child into the right one closes the gap. */
    method AddAcross(low: Key, rl: Key, rh: Key, high: Key, ghost isLeft: bool)
      requires Valid() && left != null && IsTree(false, Abs(), low, high, isLeft) && Fits(false, low, rl, rh, high)
      requires InRange(rl, low, left.ukey) && InRange(rh, right.ukey, high)
      modifies repr
      ensures Valid() && fresh(repr - old(repr)) && left != null
      ensures var t := old(Abs());
              var (l, r) := (t.left.ukey, t.right.ukey);
              && RangeTrees.AddRange(t.left, low, rl, l, l).Some? && RangeTrees.AddRange(t.right, r, r, rh, high).Some?
              && var (left', right') := Close(RangeTrees.AddRange(t.left, low, rl, l, l).value, RangeTrees.AddRange(t.right, r, r, rh, high).value);
                 Abs() == t.(left := left', right := right')
      decreases Height(Abs()), 0
    {
      hide IsTree, Fits, Less, AtMost, InRange, RangeTrees.AddRange;
      ghost var t := Abs();
      ChildrenFit(t, low, rl, rh, high, isLeft);
      var (l, r) := (left.ukey, right.ukey);
      AddToLeft(low, rl, l, l);
      AddToRight(r, r, rh, high);
      DepthOfAbs(left);
      DepthOfAbs(right);
      if left.depth < right.depth {
        SetLeftKey(right.ukey);
      } else {
        SetRightKey(left.ukey);
      }
    }

    /** A range inside the gap goes to the shallower child. */
    method AddInGap(rl: Key, rh: Key)
      requires Valid() && left != null
      modifies this
      ensures Valid() && fresh(repr - old(repr)) && old(Abs()).Node? && Abs() == InGap(old(Abs()), rl, rh)
    {
      hide Depth;
      DepthOfAbs(left);
      DepthOfAbs(right);
      if left.depth < right.depth {
        GrowLeft(rl, rh);
      } else {
        GrowRight(rl, rh);
      }
    }

    /** A range that starts in the gap. */
    method AddFromGap(rl: Key, rh: Key, high: Key)
      requires Valid() && right != null && IsTree(false, WithKey(right.Abs(), rl), rl, high, false) && Fits(false, rl, rl, rh, high)
      modifies repr
      ensures Valid() && fresh(repr - old(repr)) && right != null
      ensures RangeTrees.AddRange(WithKey(old(Abs()).right, rl), rl, rl, rh, high).Some?
      ensures Abs() == old(Abs()).(right := RangeTrees.AddRange(WithKey(old(Abs()).right, rl), rl, rl, rh, high).value)
      decreases Height(right.Abs()), 3
    {
      hide IsTree, Fits, RangeTrees.AddRange, WithKey;
      SetRightKey(rl);
      AddToRight(rl, rl, rh, high);
    }

    /** A range that ends in the gap. */
    method AddToGap(low: Key, rl: Key, rh: Key)
      requires Valid() && left != null && IsTree(false, WithKey(left.Abs(), rh), low, rh, true) && Fits(false, low, rl, rh, rh)
      modifies repr
      ensures Valid() && fresh(repr - old(repr)) && left != null
      ensures RangeTrees.AddRange(WithKey(old(Abs()).left, rh), low, rl, rh, rh).Some?
      ensures Abs() == old(Abs()).(left := RangeTrees.AddRange(WithKey(old(Abs()).left, rh), low, rl, rh, rh).value)
      decreases Height(left.Abs()), 3
    {
      hide IsTree, Fits, RangeTrees.AddRange, WithKey;
      SetLeftKey(rh);
      AddToLeft(low, rl, rh, rh);
    }

    /** AddRange; isLeft says which bound of the range the key is. */
    method AddRange(low: Key, rl: Key, rh: Key, high: Key, ghost isLeft: bool)
      requires Valid() && IsTree(false, Abs(), low, high, isLeft) && Fits(false, low, rl, rh, high)
      modifies repr
      ensures Valid() && fresh(repr - old(repr))
      ensures RangeTrees.AddRange(old(Abs()), low, rl, rh, high) == Some(Abs())
      decreases Height(Abs()), 1
    {
      hide IsTree, Fits, Less, AtMost, RangeTrees.Settle, Depth, InRange;
      if left == null { return; }
      hide RangeTrees.AddRange;
      ghost var t := Abs();
      AddRangeByCase(t, low, rl, rh, high);
      CasesCover(false, t, low, rl, rh, high, isLeft);
      ChildrenFit(t, low, rl, rh, high, isLeft);
      var (l, r) := (left.ukey, right.ukey);
      assert t.left == left.Abs() && t.right == right.Abs() && t.left.ukey == l && t.right.ukey == r;
      if InRange(rl, low, l) && InRange(rh, r, high) {
        AddAcross(low, rl, rh, high, isLeft);
      } else if InRange(rl, low, l) && InRange(rh, low, l) {
        AddToLeft(low, rl, rh, l);
      } else if InRange(rl, r, high) && InRange(rh, r, high) {
        AddToRight(r, rl, rh, high);
      } else if InRange(rl, l, r) && InRange(rh, r, high) {
        AddFromGap(rl, rh, high);
      } else if InRange(rl, low, l) && InRange(rh, l, r) {
        AddToGap(low, rl, rh);
      } else {
        AddInGap(rl, rh);
      }
      Settle();
    }

    method TakeBoth(a: RangeTreeNode, b: RangeTreeNode, key: Key)
      requires a.Valid() && this !in a.repr && b.Valid() && this !in b.repr && a.repr !! b.repr
      modifies this
      ensures Valid() && repr == {this} + a.repr + b.repr
      ensures a.Valid() && b.Valid() && a.Abs() == old(a.Abs()) && b.Abs() == old(b.Abs())
      ensures var (x, y) := (a.Abs(), b.Abs());
              Abs() == Node(key, x, y, (if Depth(x) > Depth(y) then Depth(x) else Depth(y)) + 1)
    {
      DepthOfAbs(a);
      DepthOfAbs(b);
      ukey := key;
      left, right := a, b;
      depth := (if a.depth > b.depth then a.depth else b.depth) + 1;
      repr := {this} + a.repr + b.repr;
    }

    /** The end of DeleteRange at an inner node: a and b are what is left of its children. */
    method Rejoin(ghost t: Tree, a: RangeTreeNode?, b: RangeTreeNode?, low: Key, high: Key, lo: Key, hi: Key)
      returns (node: RangeTreeNode?, lo': Key, hi': Key)
      requires t.Node? && t.ukey == ukey && (ukey == low || ukey == high)
      requires a != null ==> a.Valid() && this !in a.repr
      requires b != null ==> b.Valid() && this !in b.repr
      requires a != null && b != null ==> a.repr !! b.repr
      modifies this, if a != null then {a} else {}, if b != null then {b} else {}
      ensures node != null ==> node.Valid() && node.repr <= {this} + old(Repr(a)) + old(Repr(b))
      ensures RangeTrees.Rejoin(t, old(Shown(a)), old(Shown(b)), low, high, lo, hi) == Some(Cut(Shown(node), lo', hi'))
    {
      node, lo', hi' := null, lo, hi;
      if a == null && b == null { return; }
      var isLeft := ukey == high;
      if a != null && b != null {
        TakeBoth(a, b, if isLeft then hi else lo);
        node := this;
      } else if a != null {
        hi' := a.ukey;
        if !isLeft { a.SetKey(lo); }
        node := a;
      } else {
        lo' := b.ukey;
        if isLeft { b.SetKey(hi); }
        node := b;
      }
    }

    method DeleteFromLeaf(low: Key, rl: Key, rh: Key, high: Key) returns (node: RangeTreeNode?, lo: Key, hi: Key)
      requires Valid() && left == null
      modifies this
      ensures node != null && node.Valid() && fresh(node.repr - old(repr))
      ensures RangeTrees.DeleteFromLeaf(old(Abs()), low, rl, rh, high) == Cut(Shown(node), lo, hi)
    {
      node := this;
      if rh == high {
        if ukey == high { ukey := rl; }
        return this, low, rl;
      }
      if rl == low {
        if ukey == low { ukey := rh; }
        return this, rh, high;
      }
      var l := new RangeTreeNode.MakeLeaf(rl);
      var r := new RangeTreeNode.MakeLeaf(rh);
      left, right, depth := l, r, depth + 1;
      repr := repr + l.repr + r.repr;
      return this, low, high;
    }

    /** DeleteRange gives back the node that remains, if any, and the range it then has. */
    method DeleteRange(low: Key, rl: Key, rh: Key, high: Key, ghost isLeft: bool)
      returns (node: RangeTreeNode?, lo: Key, hi: Key)
      requires Valid() && IsTree(false, Abs(), low, high, isLeft) && AtMost(low, rl) && AtMost(rl, rh) && AtMost(rh, high)
      modifies repr
      ensures node != null ==> node.Valid() && fresh(node.repr - old(repr))
      ensures RangeTrees.DeleteRange(old(Abs()), low, rl, rh, high) == Some(Cut(Shown(node), lo, hi))
      decreases repr, 2
    {
      hide IsTree, Less, AtMost, RangeTrees.Rejoin, RangeTrees.DeleteFromLeaf;
      if rl == low && rh == high { return null, low, high; }
      if rl == rh { return this, low, high; }
      if left == null {
        node, lo, hi := DeleteFromLeaf(low, rl, rh, high);
        return;
      }
      node, lo, hi := DeleteFromNode(low, rl, rh, high, isLeft);
    }

    /** DeleteRange where [x, y) is in the left child only. */
    method DeleteInLeft(low: Key, x: Key, y: Key, high: Key, ghost isLeft: bool)
      returns (node: RangeTreeNode?, lo: Key, hi: Key)
      requires Valid() && left != null && IsTree(false, Abs(), low, high, isLeft)
      requires AtMost(low, x) && AtMost(x, y) && AtMost(y, left.ukey)
      modifies repr
      ensures node != null ==> node.Valid() && fresh(node.repr - old(repr))
      ensures var t := old(Abs());
              var c := RangeTrees.DeleteRange(t.left, low, x, y, t.left.ukey);
              c.Some? && RangeTrees.Rejoin(t, c.value.tree, Some(t.right), low, high, c.value.low, high) == Some(Cut(Shown(node), lo, hi))
      decreases repr, 0
    {
      hide IsTree, Less, AtMost, RangeTrees.Rejoin, RangeTrees.DeleteRange;
      ghost var t := Abs();
      Parts(false, t, low, high, isLeft);
      KeyOfTree(t, low, high, isLeft);
      var a, aLow, _ := left.DeleteRange(low, x, y, left.ukey, true);
      assert right.Abs() == t.right;
      node, lo, hi := Rejoin(t, a, right, low, high, aLow, high);
    }

    /** DeleteRange where [x, y) is in the right child only. */
    method DeleteInRight(low: Key, x: Key, y: Key, high: Key, ghost isLeft: bool)
      returns (node: RangeTreeNode?, lo: Key, hi: Key)
      requires Valid() && left != null && IsTree(false, Abs(), low, high, isLeft)
      requires AtMost(right.ukey, x) && AtMost(x, y) && AtMost(y, high)
      modifies repr
      ensures node != null ==> node.Valid() && fresh(node.repr - old(repr))
      ensures var t := old(Abs());
              var c := RangeTrees.DeleteRange(t.right, t.right.ukey, x, y, high);
              c.Some? && RangeTrees.Rejoin(t, Some(t.left), c.value.tree, low, high, low, c.value.high) == Some(Cut(Shown(node), lo, hi))
      decreases repr, 0
    {
      hide IsTree, Less, AtMost, RangeTrees.Rejoin, RangeTrees.DeleteRange;
      ghost var t := Abs();
      Parts(false, t, low, high, isLeft);
      KeyOfTree(t, low, high, isLeft);
      var b, _, bHigh := right.DeleteRange(right.ukey, x, y, high, false);
      assert left.Abs() == t.left;
      node, lo, hi := Rejoin(t, left, b, low, high, low, bHigh);
    }

    /** DeleteRange where the range reaches from the left child into the right one. */
    method DeleteAcross(low: Key, rl: Key, rh: Key, high: Key, ghost isLeft: bool)
      returns (node: RangeTreeNode?, lo: Key, hi: Key)
      requires Valid() && left != null && IsTree(false, Abs(), low, high, isLeft)
      requires InRange(rl, low, left.ukey) && InRange(rh, right.ukey, high)
      modifies repr
      ensures node != null ==> node.Valid() && fresh(node.repr - old(repr))
      ensures var t := old(Abs());
              var (c, d) := (RangeTrees.DeleteRange(t.left, low, rl, t.left.ukey, t.left.ukey), RangeTrees.DeleteRange(t.right, t.right.ukey, t.right.ukey, rh, high));
              && c.Some? && d.Some?
              && RangeTrees.Rejoin(t, c.value.tree, d.value.tree, low, high, c.value.low, d.value.high) == Some(Cut(Shown(node), lo, hi))
      decreases repr, 0
    {
      hide IsTree, Less, AtMost, RangeTrees.Rejoin, RangeTrees.DeleteRange;
      ghost var t := Abs();
      Parts(false, t, low, high, isLeft);
      KeyOfTree(t, low, high, isLeft);
      var a, aLow, _ := left.DeleteRange(low, rl, left.ukey, left.ukey, true);
      assert right.Abs() == t.right;
      var b, _, bHigh := right.DeleteRange(right.ukey, right.ukey, rh, high, false);
      node, lo, hi := Rejoin(t, a, b, low, high, aLow, bHigh);
    }

    method DeleteFromNode(low: Key, rl: Key, rh: Key, high: Key, ghost isLeft: bool)
      returns (node: RangeTreeNode?, lo: Key, hi: Key)
      requires Valid() && left != null && IsTree(false, Abs(), low, high, isLeft)
      requires AtMost(low, rl) && AtMost(rl, rh) && AtMost(rh, high) && rl != rh && !(rl == low && rh == high)
      modifies repr
      ensures node != null ==> node.Valid() && fresh(node.repr - old(repr))
      ensures RangeTrees.DeleteRange(old(Abs()), low, rl, rh, high) == Some(Cut(Shown(node), lo, hi))
      decreases repr, 1
    {
      hide IsTree, Less, AtMost, RangeTrees.Rejoin;
      ghost var t := Abs();
      Parts(false, t, low, high, isLeft);
      var (l, r) := (left.ukey, right.ukey);
      assert t.left.ukey == l && t.right.ukey == r;
      if InRange(rl, low, l) && InRange(rh, r, high) {
        node, lo, hi := DeleteAcross(low, rl, rh, high, isLeft);
      } else if InRange(rl, low, l) && InRange(rh, low, l) {
        node, lo, hi := DeleteInLeft(low, rl, rh, high, isLeft);
      } else if InRange(rl, r, high) && InRange(rh, r, high) {
        node, lo, hi := DeleteInRight(low, rl, rh, high, isLeft);
      } else if InRange(rl, l, r) && InRange(rh, r, high) {
        node, lo, hi := DeleteInRight(low, r, rh, high, isLeft);
      } else if InRange(rl, low, l) && InRange(rh, l, r) {
        node, lo, hi := DeleteInLeft(low, rl, l, high, isLeft);
      } else {
        KeyOfTree(t, low, high, isLeft);
        node, lo, hi := Rejoin(t, left, right, low, high, low, high);
      }
    }
  }

  /** A node over t and a new leaf after it, for the range [rl, rh). */
  method WithLast(t: RangeTreeNode, rl: Key, rh: Key) returns (node: RangeTreeNode)
    requires t.Valid()
    ensures fresh(node.repr - t.repr) && t.repr <= node.repr && node.Valid()
    ensures node.Abs() == Node(rh, t.Abs(), Leaf(rl), Depth(t.Abs()) + 1)
  {
    DepthOfAbs(t);
    var leaf := new RangeTreeNode.MakeLeaf(rl);
    node := new RangeTreeNode.MakeNode(rh, t, leaf, t.depth + 1);
  }

  /** A node over a new leaf for the range [rl, rh) and t after it. */
  method WithFirst(t: RangeTreeNode, key: Key, rl: Key, rh: Key) returns (node: RangeTreeNode)
    requires t.Valid()
    ensures fresh(node.repr - t.repr) && t.repr <= node.repr && node.Valid()
    ensures node.Abs() == Node(key, Leaf(rh), t.Abs(), Depth(t.Abs()) + 1)
  {
    DepthOfAbs(t);
    var leaf := new RangeTreeNode.MakeLeaf(rh);
    node := new RangeTreeNode.MakeNode(key, leaf, t, t.depth + 1);
  }

  ghost function Shown(n: RangeTreeNode?): Option<Tree>
    requires n != null ==> n.Valid()
    reads if n == null then {} else {n} + n.repr
  {
    if n == null then None else Some(n.Abs())
  }

  ghost function Repr(n: RangeTreeNode?): set<object>
    reads if n == null then {} else {n}
  {
    if n == null then {} else n.repr
  }

  lemma KeyOfTree(t: Tree, low: Key, high: Key, isLeft: bool)
    requires IsTree(false, t, low, high, isLeft)
    ensures t.ukey == low || t.ukey == high
  {
  }

  /** The tree with a new range in the gap of t, before Settle. */
  function InGap(t: Tree, rl: Key, rh: Key): Tree
    requires t.Node?
  {
    if Depth(t.left) < Depth(t.right) then t.(left := Node(rh, t.left, Leaf(rl), Depth(t.left) + 1))
    else t.(right := Node(rl, Leaf(rh), t.right, Depth(t.right) + 1))
  }

  lemma AddRangeByCase(t: Tree, low: Key, rl: Key, rh: Key, high: Key)
    requires t.Node?
    ensures var (l, r) := (t.left.ukey, t.right.ukey);
            var now := RangeTrees.AddRange(t, low, rl, rh, high);
            if InRange(rl, low, l) && InRange(rh, r, high) then
              var (a, b) := (RangeTrees.AddRange(t.left, low, rl, l, l), RangeTrees.AddRange(t.right, r, r, rh, high));
              a.Some? && b.Some? ==> now == Some(RangeTrees.Settle(t.(left := Close(a.value, b.value).0, right := Close(a.value, b.value).1)))
            else if InRange(rl, low, l) && InRange(rh, low, l) then
              var a := RangeTrees.AddRange(t.left, low, rl, rh, l);
              a.Some? ==> now == Some(RangeTrees.Settle(t.(left := a.value)))
            else if InRange(rl, r, high) && InRange(rh, r, high) then
              var b := RangeTrees.AddRange(t.right, r, rl, rh, high);
              b.Some? ==> now == Some(RangeTrees.Settle(t.(right := b.value)))
            else if InRange(rl, l, r) && InRange(rh, r, high) then
              var b := RangeTrees.AddRange(WithKey(t.right, rl), rl, rl, rh, high);
              b.Some? ==> now == Some(RangeTrees.Settle(t.(right := b.value)))
            else if InRange(rl, low, l) && InRange(rh, l, r) then
              var a := RangeTrees.AddRange(WithKey(t.left, rh), low, rl, rh, rh);
              a.Some? ==> now == Some(RangeTrees.Settle(t.(left := a.value)))
            else InRange(rl, l, r) && InRange(rh, l, r) ==> now == Some(RangeTrees.Settle(InGap(t, rl, rh)))
  {
    hide InRange, RangeTrees.Settle, Close;
  }

  /** In each case of AddRange, what is passed on fits the child. */
  lemma ChildrenFit(t: Tree, low: Key, rl: Key, rh: Key, high: Key, isLeft: bool)
    requires t.Node? && IsTree(false, t, low, high, isLeft) && Fits(false, low, rl, rh, high)
    ensures var (l, r) := (t.left.ukey, t.right.ukey);
            && IsTree(false, t.left, low, l, true) && IsTree(false, t.right, r, high, false)
            && (InRange(rl, low, l) && InRange(rh, r, high) ==> Fits(false, low, rl, l, l) && Fits(false, r, r, rh, high))
            && (InRange(rl, low, l) && InRange(rh, low, l) ==> Fits(false, low, rl, rh, l))
            && (InRange(rl, r, high) && InRange(rh, r, high) ==> Fits(false, r, rl, rh, high))
            && (InRange(rl, l, r) && InRange(rh, r, high) ==> IsTree(false, WithKey(t.right, rl), rl, high, false) && Fits(false, rl, rl, rh, high))
            && (InRange(rl, low, l) && InRange(rh, l, r) ==> IsTree(false, WithKey(t.left, rh), low, rh, true) && Fits(false, low, rl, rh, rh))
  {
    hide IsTree, Less, AtMost, Height;
    Parts(false, t, low, high, isLeft);
    var (l, r) := (t.left.ukey, t.right.ukey);
    assert AtMost(rl, rl) && AtMost(rh, rh);
    if InRange(rl, l, r) && InRange(rh, r, high) { ExtendLow(false, t.right, rl, r, high, false, []); }
    if InRange(rl, low, l) && InRange(rh, l, r) { ExtendHigh(false, t.left, low, l, rh, true, []); }
    Chain(false, low, l, r, high);
  }

  lemma DepthOfAbs(t: RangeTreeNode)
    requires t.Valid()
    ensures Depth(t.Abs()) == t.depth
  {
  }

  class RangeTree {
    var start: Key
    var end: Key
    var root: RangeTreeNode?

    ghost predicate Valid()
      reads this, root, if root == null then {} else root.repr
    {
      && (root != null ==> root.Valid() && this !in root.repr)
      && IsStore(false, Abs0())
    }

    ghost function Abs0(): Store
      requires root != null ==> root.Valid()
      reads this, root, if root == null then {} else root.repr
    {
      Store(start, end, Shown(root))
    }

    /** The keys that Search finds are those in the leaves' ranges. */
    ghost function Abs(): Store
      requires Valid()
      reads this, root, if root == null then {} else root.repr
    {
      Abs0()
    }

    constructor ()
      ensures Valid() && Abs() == EMPTY
    {
      start, end, root := [], [], null;
    }

    method Search(p: Key) returns (found: bool)
      requires Valid()
      ensures found == StoreHas(Abs(), p)
    {
      hide IsTree, Has;
      LookupFinds(false, Abs(), p);
      if root == null { return false; }
      found := root.Search(p, start, end);
    }

    /** The first range. */
    method Plant(lo: Key, hi: Key)
      modifies this
      ensures root != null && root.Valid() && fresh(root.repr) && this !in root.repr
      ensures Abs0() == Store(lo, hi, Some(Leaf(hi)))
    {
      start, end := lo, hi;
      root := new RangeTreeNode.MakeLeaf(end);
    }

    /** A range before all others. */
    method AddBefore(lo: Key, hi: Key)
      requires root != null && root.Valid() && this !in root.repr
      modifies this, root
      ensures root != null && root.Valid() && this !in root.repr && fresh(root.repr - old(root.repr))
      ensures var right := WithKey(old(root.Abs()), old(start));
              Abs0() == Store(lo, old(end), Some(Node(old(end), Leaf(hi), right, Depth(right) + 1)))
    {
      root.SetKey(start);
      start := lo;
      root := WithFirst(root, end, lo, hi);
    }

    /** A range after all others. */
    method AddAfter(lo: Key, hi: Key)
      requires root != null && root.Valid() && this !in root.repr
      modifies this
      ensures root != null && root.Valid() && this !in root.repr && fresh(root.repr - old(root.repr))
      ensures var left := old(root.Abs());
              Abs0() == Store(old(start), hi, Some(Node(hi, left, Leaf(lo), Depth(left) + 1)))
    {
      end := hi;
      root := WithLast(root, lo, hi);
    }

    method AddRange(lo: Key, hi: Key)
      requires Valid()
      modifies this, root, if root == null then {} else root.repr
      ensures Valid() && fresh(Repr(root) - old(Repr(root)))
      ensures Add(old(Abs()), lo, hi) == Some(Abs())
      ensures old(IsStore(true, Abs())) && lo != hi ==> IsStore(true, Abs())
      ensures forall p :: StoreHas(Abs(), p) <==> old(StoreHas(Abs(), p)) || Within(p, lo, hi)
    {
      hide Less, AtMost, IsTree, StoreHas, RangeTrees.AddRange, Within, Fits;
      ghost var s := Abs();
      forall p { AddIsUnionOf(false, s, lo, hi, p); }
      if IsStore(true, s) && lo != hi { AddIsUnionOf(true, s, lo, hi, []); }
      if Less(hi, lo) { return; }
      if root == null {
        Plant(lo, hi);
        return;
      }
      if Less(hi, start) {
        AddBefore(lo, hi);
        return;
      }
      if Less(end, lo) {
        AddAfter(lo, hi);
        return;
      }
      assert AtMost(lo, hi) && AtMost(start, hi) && AtMost(lo, end);
      WidenAdds(false, s, lo, hi, []);
      if Less(end, hi) {
        end := hi;
        root.SetKey(end);
      }
      if Less(lo, start) {
        start := lo;
      }
      assert Abs0() == Widen(s, lo, hi);
      root.AddRange(start, lo, hi, end, true);
    }

    method DeleteRange(lo: Key, hi: Key)
      requires Valid()
      modifies this, root, if root == null then {} else root.repr
      ensures Valid() && fresh(Repr(root) - old(Repr(root)))
      ensures Delete(old(Abs()), lo, hi) == Some(Abs())
      ensures old(IsStore(true, Abs())) ==> IsStore(true, Abs())
      ensures forall p :: StoreHas(Abs(), p) <==> old(StoreHas(Abs(), p)) && !Within(p, lo, hi)
    {
      hide Less, AtMost, IsTree, StoreHas, RangeTrees.DeleteRange, Within;
      ghost var s := Abs();
      forall p { DeleteIsDifferenceOf(false, s, lo, hi, p); }
      if IsStore(true, s) { DeleteIsDifferenceOf(true, s, lo, hi, []); }
      if Less(hi, lo) || root == null { return; }
      if Less(hi, start) || Less(end, lo) { return; }
      var rl, rh := lo, hi;
      if Less(lo, start) { rl := start; }
      if Less(end, hi) { rh := end; }
      RangeOfTree(false, root.Abs(), start, end);
      assert AtMost(start, rl) && AtMost(rl, rh) && AtMost(rh, end);
      var node, low, high := root.DeleteRange(start, rl, rh, end, true);
      root, start, end := node, low, high;
    }

    method Range() returns (r: seq<(Key, Key)>)
      requires Valid()
      ensures r == StoreRanges(Abs()) && (r != [] ==> AreOrdered(false, r, start, end))
      ensures forall p :: InSome(r, p) <==> StoreHas(Abs(), p)
    {
      hide Less, AtMost, IsTree, Has, Within, Ranges;
      if root == null { return []; }
      forall p { RangesCover(false, root.Abs(), start, end, true, p); }
      r := root.Range([], start, end);
      assert [] + Ranges(root.Abs(), start, end) == Ranges(root.Abs(), start, end);
    }
  }
}
