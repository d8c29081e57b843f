/** The tree of key ranges, on values (utils/RangeTree.go). A node's ukey is where its range ends if it is a left
    child or the root, and where it starts if it is a right child. */
module RangeTrees {
  import opened Bytes
  import opened Keys

  datatype Tree = Leaf(ukey: Key) | Node(ukey: Key, left: Tree, right: Tree, depth: nat)

  function Depth(t: Tree): nat {
    if t.Leaf? then 0 else t.depth
  }

  function Height(t: Tree): nat {
    if t.Leaf? then 0 else 1 + if Height(t.left) > Height(t.right) then Height(t.left) else Height(t.right)
  }

  predicate InRange(s: Key, u: Key, v: Key) {
    AtMost(u, s) && AtMost(s, v)
  }

  /** a is before b, or, unless strict, at b. */
  predicate Below(strict: bool, a: Key, b: Key)
    ensures Below(strict, a, b) <==> if strict then Rank(a) < Rank(b) else Rank(a) <= Rank(b)
    ensures a == b <==> Rank(a) == Rank(b)
  {
    if strict then Less(a, b) else AtMost(a, b)
  }

  /** t covers [low, high) up to the gaps inside it; sibling ranges are ordered, keys and depths are right, and no
      range is empty if strict. */
  predicate IsTree(strict: bool, t: Tree, low: Key, high: Key, isLeft: bool) {
    && t.ukey == (if isLeft then high else low)
    && Below(strict, low, high)
    && (t.Node? ==>
          && Below(strict, low, t.left.ukey) && AtMost(t.left.ukey, t.right.ukey) && Below(strict, t.right.ukey, high)
          && IsTree(strict, t.left, low, t.left.ukey, true) && IsTree(strict, t.right, t.right.ukey, high, false)
          && t.depth == Height(t))
  }

  function Search(t: Tree, p: Key, low: Key, high: Key): bool {
    if t.Leaf? then Within(p, low, high)
    else if Less(p, t.left.ukey) then Search(t.left, p, low, t.left.ukey)
    else if AtMost(t.right.ukey, p) then Search(t.right, p, t.right.ukey, high)
    else false
  }

  /** p is in one of the ranges at the leaves. */
  predicate Has(t: Tree, p: Key, low: Key, high: Key) {
    if t.Leaf? then Within(p, low, high)
    else Has(t.left, p, low, t.left.ukey) || Has(t.right, p, t.right.ukey, high)
  }

  lemma {:induction false} HasStaysInside(strict: bool, t: Tree, p: Key, low: Key, high: Key, isLeft: bool)
    requires IsTree(strict, t, low, high, isLeft) && Has(t, p, low, high)
    ensures Within(p, low, high)
  {
    hide Less, AtMost, Below, Height;
    if t.Node? {
      if Has(t.left, p, low, t.left.ukey) {
        HasStaysInside(strict, t.left, p, low, t.left.ukey, true);
      } else {
        HasStaysInside(strict, t.right, p, t.right.ukey, high, false);
      }
      assert AtMost(low, p) && Less(p, high) by { Order3(strict, low, t.left.ukey, t.right.ukey, high, p); }
    }
  }

  lemma Order3(strict: bool, a: Key, b: Key, c: Key, d: Key, p: Key)
    requires Below(strict, a, b) && AtMost(b, c) && Below(strict, c, d) && (Within(p, a, b) || Within(p, c, d))
    ensures Within(p, a, d)
  {
    hide Less, AtMost, Below;
  }

  /** Looking only where the key can be finds everything. */
  lemma {:induction false} SearchFinds(strict: bool, t: Tree, p: Key, low: Key, high: Key, isLeft: bool)
    requires IsTree(strict, t, low, high, isLeft)
    ensures Search(t, p, low, high) == Has(t, p, low, high)
  {
    hide Less, AtMost, Below, Height;
    if t.Node? {
      SearchFinds(strict, t.left, p, low, t.left.ukey, true);
      SearchFinds(strict, t.right, p, t.right.ukey, high, false);
      if Has(t.left, p, low, t.left.ukey) { HasStaysInside(strict, t.left, p, low, t.left.ukey, true); }
      if Has(t.right, p, t.right.ukey, high) { HasStaysInside(strict, t.right, p, t.right.ukey, high, false); }
    }
  }

  // ----- adding -----

  function WithKey(t: Tree, key: Key): (r: Tree)
    ensures Height(r) == Height(t) && Depth(r) == Depth(t)
  {
    t.(ukey := key)
  }

  /** The deferred end of AddRange: two leaves that touch become one, and the depth is set. */
  function Settle(t: Tree): Tree {
    if t.Leaf? then t
    else if t.left.Leaf? && t.right.Leaf? && t.left.ukey == t.right.ukey then Leaf(t.ukey)
    else t.(depth := (if Depth(t.left) > Depth(t.right) then Depth(t.left) else Depth(t.right)) + 1)
  }

  /** Closes the gap between two children by moving the key of the shallower one. */
  function Close(left: Tree, right: Tree): (Tree, Tree) {
    if Depth(left) < Depth(right) then (WithKey(left, right.ukey), right) else (left, WithKey(right, left.ukey))
  }

  /** RangeTreeNode.AddRange; None where the source panics. */
  function AddRange(t: Tree, low: Key, rl: Key, rh: Key, high: Key): Option<Tree>
    decreases Height(t)
  {
    if t.Leaf? then Some(t)
    else
      var (l, r) := (t.left.ukey, t.right.ukey);
      if InRange(rl, low, l) && InRange(rh, r, high) then
        var left := AddRange(t.left, low, rl, l, l);
        var right := AddRange(t.right, r, r, rh, high);
        if left.None? || right.None? then None
        else
          var (left', right') := Close(left.value, right.value);
          Some(Settle(t.(left := left', right := right')))
      else if InRange(rl, low, l) && InRange(rh, low, l) then
        var left := AddRange(t.left, low, rl, rh, l);
        if left.None? then None else Some(Settle(t.(left := left.value)))
      else if InRange(rl, r, high) && InRange(rh, r, high) then
        var right := AddRange(t.right, r, rl, rh, high);
        if right.None? then None else Some(Settle(t.(right := right.value)))
      else if InRange(rl, l, r) && InRange(rh, r, high) then
        var right := AddRange(WithKey(t.right, rl), rl, rl, rh, high);
        if right.None? then None else Some(Settle(t.(right := right.value)))
      else if InRange(rl, low, l) && InRange(rh, l, r) then
        var left := AddRange(WithKey(t.left, rh), low, rl, rh, rh);
        if left.None? then None else Some(Settle(t.(left := left.value)))
      else if InRange(rl, l, r) && InRange(rh, l, r) then
        if Depth(t.left) < Depth(t.right)
        then Some(Settle(t.(left := Node(rh, t.left, Leaf(rl), Depth(t.left) + 1))))
        else Some(Settle(t.(right := Node(rl, Leaf(rh), t.right, Depth(t.right) + 1))))
      else None
  }

  /** Two trees that can be siblings. */
  predicate AreSiblings(strict: bool, left: Tree, right: Tree, low: Key, high: Key) {
    && Below(strict, low, left.ukey) && AtMost(left.ukey, right.ukey) && Below(strict, right.ukey, high)
    && IsTree(strict, left, low, left.ukey, true) && IsTree(strict, right, right.ukey, high, false)
  }

  lemma DepthIsHeight(strict: bool, t: Tree, low: Key, high: Key, isLeft: bool)
    requires IsTree(strict, t, low, high, isLeft)
    ensures Depth(t) == Height(t)
  {
  }

  lemma SettleKeeps(strict: bool, t: Tree, low: Key, high: Key, isLeft: bool, p: Key)
    requires t.Node? && t.ukey == (if isLeft then high else low) && AreSiblings(strict, t.left, t.right, low, high)
    ensures IsTree(strict, Settle(t), low, high, isLeft)
    ensures Has(Settle(t), p, low, high) <==> Has(t.left, p, low, t.left.ukey) || Has(t.right, p, t.right.ukey, high)
  {
    hide Less, AtMost, Below;
    DepthIsHeight(strict, t.left, low, t.left.ukey, true);
    DepthIsHeight(strict, t.right, t.right.ukey, high, false);
    assert Below(strict, low, high) by { Chain(strict, low, t.left.ukey, t.right.ukey, high); }
  }

  lemma Chain(strict: bool, a: Key, b: Key, c: Key, d: Key)
    requires Below(strict, a, b) && AtMost(b, c) && Below(strict, c, d)
    ensures Below(strict, a, d) && Below(strict, a, c) && Below(strict, b, d)
  {
    hide Less, AtMost, Below;
  }

  /** Moving the end of a tree's range up adds what lies between. */
  lemma {:induction false} ExtendHigh(strict: bool, t: Tree, low: Key, high: Key, high': Key, isLeft: bool, p: Key)
    requires IsTree(strict, t, low, high, isLeft) && AtMost(high, high')
    ensures var t' := WithKey(t, if isLeft then high' else low);
            && IsTree(strict, t', low, high', isLeft)
            && (Has(t', p, low, high') <==> Has(t, p, low, high) || Within(p, high, high'))
  {
    hide Less, AtMost, Below;
    if t.Leaf? {
      assert Below(strict, low, high');
    } else {
      ExtendHigh(strict, t.right, t.right.ukey, high, high', false, p);
      assert WithKey(t.right, t.right.ukey) == t.right;
      assert Below(strict, t.right.ukey, high') && Below(strict, low, high');
    }
  }

  /** Moving the start of a tree's range down adds what lies between. */
  lemma {:induction false} ExtendLow(strict: bool, t: Tree, low': Key, low: Key, high: Key, isLeft: bool, p: Key)
    requires IsTree(strict, t, low, high, isLeft) && AtMost(low', low)
    ensures var t' := WithKey(t, if isLeft then high else low');
            && IsTree(strict, t', low', high, isLeft)
            && (Has(t', p, low', high) <==> Has(t, p, low, high) || Within(p, low', low))
  {
    hide Less, AtMost, Below;
    if t.Leaf? {
      assert Below(strict, low', high);
    } else {
      ExtendLow(strict, t.left, low', low, t.left.ukey, true, p);
      assert WithKey(t.left, t.left.ukey) == t.left;
      assert Below(strict, low', t.left.ukey) && Below(strict, low', high);
    }
  }

  /** The range lies in [low, high], and if strict it is empty only at its ends. */
  predicate Fits(strict: bool, low: Key, rl: Key, rh: Key, high: Key) {
    && AtMost(low, rl) && AtMost(rl, rh) && AtMost(rh, high)
    && (strict ==> Less(rl, rh) || rh == low || rl == high)
  }

  lemma AddInGap(strict: bool, t: Tree, low: Key, rl: Key, rh: Key, high: Key, isLeft: bool, p: Key)
    requires t.Node? && IsTree(strict, t, low, high, isLeft) && AtMost(t.left.ukey, rl) && Below(strict, rl, rh) && AtMost(rh, t.right.ukey)
    ensures var (l, r) := (t.left.ukey, t.right.ukey);
            var t' := if Depth(t.left) < Depth(t.right) then t.(left := Node(rh, t.left, Leaf(rl), Depth(t.left) + 1))
                      else t.(right := Node(rl, Leaf(rh), t.right, Depth(t.right) + 1));
            && IsTree(strict, Settle(t'), low, high, isLeft)
            && (Has(Settle(t'), p, low, high) <==> Has(t, p, low, high) || Within(p, rl, rh))
  {
    hide Less, AtMost, Below, Settle, Within;
    var (l, r) := (t.left.ukey, t.right.ukey);
    DepthIsHeight(strict, t.left, low, l, true);
    DepthIsHeight(strict, t.right, r, high, false);
    if Depth(t.left) < Depth(t.right) {
      var left := Node(rh, t.left, Leaf(rl), Depth(t.left) + 1);
      Chain(strict, low, l, rl, rh);
      assert Height(left) == Height(t.left) + 1 && IsTree(strict, left.right, rl, rh, false);
      assert IsTree(strict, left, low, rh, true);
      SettleKeeps(strict, t.(left := left), low, high, isLeft, p);
    } else {
      var right := Node(rl, Leaf(rh), t.right, Depth(t.right) + 1);
      Chain(strict, rl, rh, r, high);
      assert Height(right) == Height(t.right) + 1 && IsTree(strict, right.left, rl, rh, true);
      assert IsTree(strict, right, rl, high, false);
      SettleKeeps(strict, t.(right := right), low, high, isLeft, p);
    }
  }

  lemma AddAcross(strict: bool, t: Tree, low: Key, rl: Key, rh: Key, high: Key, isLeft: bool, p: Key)
    requires t.Node? && IsTree(strict, t, low, high, isLeft)
    requires InRange(rl, low, t.left.ukey) && InRange(rh, t.right.ukey, high)
    ensures var (l, r) := (t.left.ukey, t.right.ukey);
            && AddRange(t.left, low, rl, l, l).Some? && AddRange(t.right, r, r, rh, high).Some?
            && var (left, right) := Close(AddRange(t.left, low, rl, l, l).value, AddRange(t.right, r, r, rh, high).value);
               var t' := Settle(t.(left := left, right := right));
               && IsTree(strict, t', low, high, isLeft)
               && (Has(t', p, low, high) <==> Has(t, p, low, high) || Within(p, rl, rh))
    decreases Height(t), 0
  {
    hide Less, AtMost, Below, Settle, AddRange;
    var (l, r) := (t.left.ukey, t.right.ukey);
    AddIsUnion(strict, t.left, low, rl, l, l, true, p);
    AddIsUnion(strict, t.right, r, r, rh, high, false, p);
    var (left, right) := (AddRange(t.left, low, rl, l, l).value, AddRange(t.right, r, r, rh, high).value);
    if Depth(left) < Depth(right) {
      ExtendHigh(strict, left, low, l, r, true, p);
      SettleKeeps(strict, t.(left := WithKey(left, r), right := right), low, high, isLeft, p);
    } else {
      ExtendLow(strict, right, l, r, high, false, p);
      SettleKeeps(strict, t.(left := left, right := WithKey(right, l)), low, high, isLeft, p);
    }
  }

  lemma AddInLeft(strict: bool, t: Tree, low: Key, rl: Key, rh: Key, high: Key, isLeft: bool, p: Key)
    requires t.Node? && IsTree(strict, t, low, high, isLeft) && Fits(strict, low, rl, rh, high) && AtMost(rh, t.left.ukey)
    ensures AddRange(t.left, low, rl, rh, t.left.ukey).Some?
    ensures var t' := Settle(t.(left := AddRange(t.left, low, rl, rh, t.left.ukey).value));
            IsTree(strict, t', low, high, isLeft) && (Has(t', p, low, high) <==> Has(t, p, low, high) || Within(p, rl, rh))
    decreases Height(t), 0
  {
    hide Less, AtMost, Below, Settle, AddRange, Within;
    var (l, r) := (t.left.ukey, t.right.ukey);
    assert Below(strict, l, high) by { Chain(strict, low, l, r, high); }
    AddIsUnion(strict, t.left, low, rl, rh, l, true, p);
    SettleKeeps(strict, t.(left := AddRange(t.left, low, rl, rh, l).value), low, high, isLeft, p);
  }

  lemma AddInRight(strict: bool, t: Tree, low: Key, rl: Key, rh: Key, high: Key, isLeft: bool, p: Key)
    requires t.Node? && IsTree(strict, t, low, high, isLeft) && Fits(strict, low, rl, rh, high) && AtMost(t.right.ukey, rl)
    ensures AddRange(t.right, t.right.ukey, rl, rh, high).Some?
    ensures var t' := Settle(t.(right := AddRange(t.right, t.right.ukey, rl, rh, high).value));
            IsTree(strict, t', low, high, isLeft) && (Has(t', p, low, high) <==> Has(t, p, low, high) || Within(p, rl, rh))
    decreases Height(t), 0
  {
    hide Less, AtMost, Below, Settle, AddRange, Within;
    var (l, r) := (t.left.ukey, t.right.ukey);
    assert Below(strict, low, r) by { Chain(strict, low, l, r, high); }
    AddIsUnion(strict, t.right, r, rl, rh, high, false, p);
    SettleKeeps(strict, t.(right := AddRange(t.right, r, rl, rh, high).value), low, high, isLeft, p);
  }

  lemma AddFromGap(strict: bool, t: Tree, low: Key, rl: Key, rh: Key, high: Key, isLeft: bool, p: Key)
    requires t.Node? && IsTree(strict, t, low, high, isLeft) && Fits(strict, low, rl, rh, high)
    requires InRange(rl, t.left.ukey, t.right.ukey) && InRange(rh, t.right.ukey, high)
    ensures AddRange(WithKey(t.right, rl), rl, rl, rh, high).Some?
    ensures var t' := Settle(t.(right := AddRange(WithKey(t.right, rl), rl, rl, rh, high).value));
            IsTree(strict, t', low, high, isLeft) && (Has(t', p, low, high) <==> Has(t, p, low, high) || Within(p, rl, rh))
    decreases Height(t), 0
  {
    hide Less, AtMost, Below, Settle, AddRange;
    var (l, r) := (t.left.ukey, t.right.ukey);
    ExtendLow(strict, t.right, rl, r, high, false, p);
    AddIsUnion(strict, WithKey(t.right, rl), rl, rl, rh, high, false, p);
    SettleKeeps(strict, t.(right := AddRange(WithKey(t.right, rl), rl, rl, rh, high).value), low, high, isLeft, p);
  }

  lemma AddToGap(strict: bool, t: Tree, low: Key, rl: Key, rh: Key, high: Key, isLeft: bool, p: Key)
    requires t.Node? && IsTree(strict, t, low, high, isLeft) && Fits(strict, low, rl, rh, high)
    requires InRange(rl, low, t.left.ukey) && InRange(rh, t.left.ukey, t.right.ukey)
    ensures AddRange(WithKey(t.left, rh), low, rl, rh, rh).Some?
    ensures var t' := Settle(t.(left := AddRange(WithKey(t.left, rh), low, rl, rh, rh).value));
            IsTree(strict, t', low, high, isLeft) && (Has(t', p, low, high) <==> Has(t, p, low, high) || Within(p, rl, rh))
    decreases Height(t), 0
  {
    hide Less, AtMost, Below, Settle, AddRange;
    var (l, r) := (t.left.ukey, t.right.ukey);
    ExtendHigh(strict, t.left, low, l, rh, true, p);
    AddIsUnion(strict, WithKey(t.left, rh), low, rl, rh, rh, true, p);
    SettleKeeps(strict, t.(left := AddRange(WithKey(t.left, rh), low, rl, rh, rh).value), low, high, isLeft, p);
  }

  /** The six cases of AddRange leave nothing out. */
  lemma CasesCover(strict: bool, t: Tree, low: Key, rl: Key, rh: Key, high: Key, isLeft: bool)
    requires t.Node? && IsTree(strict, t, low, high, isLeft) && Fits(strict, low, rl, rh, high)
    ensures var (l, r) := (t.left.ukey, t.right.ukey);
            || (InRange(rl, low, l) && InRange(rh, r, high))
            || (InRange(rl, low, l) && InRange(rh, low, l))
            || (InRange(rl, r, high) && InRange(rh, r, high))
            || (InRange(rl, l, r) && InRange(rh, r, high))
            || (InRange(rl, low, l) && InRange(rh, l, r))
            || (InRange(rl, l, r) && InRange(rh, l, r) && Below(strict, rl, rh))
  {
    hide Less, AtMost, Below, Height;
  }

  /** Adding a range never panics, keeps the tree in order, and is union. */
  lemma {:induction false} AddIsUnion(strict: bool, t: Tree, low: Key, rl: Key, rh: Key, high: Key, isLeft: bool, p: Key)
    requires IsTree(strict, t, low, high, isLeft) && Fits(strict, low, rl, rh, high)
    ensures AddRange(t, low, rl, rh, high).Some?
    ensures var t' := AddRange(t, low, rl, rh, high).value;
            && IsTree(strict, t', low, high, isLeft)
            && (Has(t', p, low, high) <==> Has(t, p, low, high) || Within(p, rl, rh))
    decreases Height(t), 1
  {
    hide Less, AtMost, Below, Settle, IsTree, WithKey, Depth, Close;
    if t.Leaf? {
      assert Within(p, rl, rh) ==> Within(p, low, high);
    } else {
      hide Has, Fits, Within;
      CasesCover(strict, t, low, rl, rh, high, isLeft);
      var (l, r) := (t.left.ukey, t.right.ukey);
      if InRange(rl, low, l) && InRange(rh, r, high) {
        AddAcross(strict, t, low, rl, rh, high, isLeft, p);
      } else if InRange(rl, low, l) && InRange(rh, low, l) {
        AddInLeft(strict, t, low, rl, rh, high, isLeft, p);
      } else if InRange(rl, r, high) && InRange(rh, r, high) {
        AddInRight(strict, t, low, rl, rh, high, isLeft, p);
      } else if InRange(rl, l, r) && InRange(rh, r, high) {
        AddFromGap(strict, t, low, rl, rh, high, isLeft, p);
      } else if InRange(rl, low, l) && InRange(rh, l, r) {
        AddToGap(strict, t, low, rl, rh, high, isLeft, p);
      } else {
        AddInGap(strict, t, low, rl, rh, high, isLeft, p);
      }
    }
  }

  // ----- deleting -----

  /** What DeleteRange returns: the tree that is left, if any, and its range; None where the source panics. */
  datatype Cut = Cut(tree: Option<Tree>, low: Key, high: Key)

  function DeleteFromLeaf(t: Tree, low: Key, rl: Key, rh: Key, high: Key): Cut {
    if rh == high then Cut(Some(if t.ukey == high then WithKey(t, rl) else t), low, rl)
    else if rl == low then Cut(Some(if t.ukey == low then WithKey(t, rh) else t), rh, high)
    else Cut(Some(Node(t.ukey, Leaf(rl), Leaf(rh), Depth(t) + 1)), low, high)
  }

  /** The end of DeleteRange at an inner node: left and right are what is left of the children, and [lo, hi) the
      range that they report. */
  function Rejoin(t: Tree, left: Option<Tree>, right: Option<Tree>, low: Key, high: Key, lo: Key, hi: Key): Option<Cut>
    requires t.Node?
  {
    if left.None? && right.None? then Some(Cut(None, lo, hi))
    else if t.ukey != high && t.ukey != low then None
    else
      var isLeft := t.ukey == high;
      if left.Some? && right.Some? then
        var depth := (if Depth(left.value) > Depth(right.value) then Depth(left.value) else Depth(right.value)) + 1;
        Some(Cut(Some(Node(if isLeft then hi else lo, left.value, right.value, depth)), lo, hi))
      else if left.Some? then
        (if isLeft then Some(Cut(left, lo, left.value.ukey))
         else Some(Cut(Some(WithKey(left.value, lo)), lo, left.value.ukey)))
      else
        (if isLeft then Some(Cut(Some(WithKey(right.value, hi)), right.value.ukey, hi))
         else Some(Cut(right, right.value.ukey, hi)))
  }

  /** RangeTreeNode.DeleteRange */
  function DeleteRange(t: Tree, low: Key, rl: Key, rh: Key, high: Key): Option<Cut> {
    if rl == low && rh == high then Some(Cut(None, low, high))
    else if rl == rh then Some(Cut(Some(t), low, high))
    else if t.Leaf? then Some(DeleteFromLeaf(t, low, rl, rh, high))
    else
      var (l, r) := (t.left.ukey, t.right.ukey);
      if InRange(rl, low, l) && InRange(rh, r, high) then
        var a := DeleteRange(t.left, low, rl, l, l);
        var b := DeleteRange(t.right, r, r, rh, high);
        if a.None? || b.None? then None else Rejoin(t, a.value.tree, b.value.tree, low, high, a.value.low, b.value.high)
      else if InRange(rl, low, l) && InRange(rh, low, l) then
        var a := DeleteRange(t.left, low, rl, rh, l);
        if a.None? then None else Rejoin(t, a.value.tree, Some(t.right), low, high, a.value.low, high)
      else if InRange(rl, r, high) && InRange(rh, r, high) then
        var b := DeleteRange(t.right, r, rl, rh, high);
        if b.None? then None else Rejoin(t, Some(t.left), b.value.tree, low, high, low, b.value.high)
      else if InRange(rl, l, r) && InRange(rh, r, high) then
        var b := DeleteRange(t.right, r, r, rh, high);
        if b.None? then None else Rejoin(t, Some(t.left), b.value.tree, low, high, low, b.value.high)
      else if InRange(rl, low, l) && InRange(rh, l, r) then
        var a := DeleteRange(t.left, low, rl, l, l);
        if a.None? then None else Rejoin(t, a.value.tree, Some(t.right), low, high, a.value.low, high)
      else Rejoin(t, Some(t.left), Some(t.right), low, high, low, high)
  }

  /** A cut that is a tree in its own right, inside [low, high). */
  predicate IsCut(strict: bool, k: Cut, low: Key, high: Key, isLeft: bool) {
    k.tree.Some? ==> IsTree(strict, k.tree.value, k.low, k.high, isLeft) && AtMost(low, k.low) && AtMost(k.high, high)
  }

  predicate CutHas(k: Cut, p: Key) {
    k.tree.Some? && Has(k.tree.value, p, k.low, k.high)
  }

  lemma LeafCut(strict: bool, t: Tree, low: Key, rl: Key, rh: Key, high: Key, isLeft: bool, p: Key)
    requires t.Leaf? && IsTree(strict, t, low, high, isLeft) && AtMost(low, rl) && Less(rl, rh) && AtMost(rh, high)
    requires !(rl == low && rh == high)
    ensures var k := DeleteFromLeaf(t, low, rl, rh, high);
            && IsCut(strict, k, low, high, isLeft)
            && (CutHas(k, p) <==> Within(p, low, high) && !Within(p, rl, rh))
  {
    hide Less, AtMost, Below;
    if rh == high {
      assert Less(low, rl) && AtMost(low, low) && AtMost(rl, high);
    } else if rl == low {
      assert Less(rh, high) && AtMost(high, high) && AtMost(low, rh);
    } else {
      assert Less(low, rl) && Less(rh, high) && AtMost(low, low) && AtMost(high, high);
      var k := Node(t.ukey, Leaf(rl), Leaf(rh), 1);
      assert Height(k) == 1 && IsTree(strict, k.left, low, rl, true) && IsTree(strict, k.right, rh, high, false);
      assert IsTree(strict, k, low, high, isLeft);
      assert Has(k, p, low, high) <==> Within(p, low, rl) || Within(p, rh, high);
    }
  }

  lemma SwapSide(strict: bool, t: Tree, low: Key, high: Key, isLeft: bool, p: Key)
    requires IsTree(strict, t, low, high, isLeft)
    ensures var t' := WithKey(t, if isLeft then low else high);
            IsTree(strict, t', low, high, !isLeft) && Has(t', p, low, high) == Has(t, p, low, high)
  {
    hide Less, AtMost, Below;
  }

  lemma Apart(strict: bool, a: Cut, b: Cut, low: Key, l: Key, r: Key, high: Key)
    requires a.tree.Some? && b.tree.Some? && IsCut(strict, a, low, l, true) && IsCut(strict, b, r, high, false) && AtMost(l, r)
    ensures AreSiblings(strict, a.tree.value, b.tree.value, a.low, b.high) && Below(strict, a.low, b.high)
  {
    hide Less, AtMost, Below;
    assert AtMost(a.high, b.low);
    Chain(strict, a.low, a.high, b.low, b.high);
  }

  lemma JoinBoth(strict: bool, key: Key, a: Cut, b: Cut, isLeft: bool, p: Key)
    requires a.tree.Some? && b.tree.Some? && IsTree(strict, a.tree.value, a.low, a.high, true) && IsTree(strict, b.tree.value, b.low, b.high, false)
    requires AreSiblings(strict, a.tree.value, b.tree.value, a.low, b.high) && Below(strict, a.low, b.high) && key == (if isLeft then b.high else a.low)
    ensures var (x, y) := (a.tree.value, b.tree.value);
            var t := Node(key, x, y, (if Depth(x) > Depth(y) then Depth(x) else Depth(y)) + 1);
            IsTree(strict, t, a.low, b.high, isLeft) && (Has(t, p, a.low, b.high) <==> CutHas(a, p) || CutHas(b, p))
  {
    hide Less, AtMost, Below;
    DepthIsHeight(strict, a.tree.value, a.low, a.high, true);
    DepthIsHeight(strict, b.tree.value, b.low, b.high, false);
  }

  /** The children that remain, [low, l) on the left and [r, high) on the right, are joined again. */
  lemma RejoinKeeps(strict: bool, t: Tree, a: Cut, b: Cut, low: Key, high: Key, isLeft: bool, p: Key)
    requires t.Node? && IsTree(strict, t, low, high, isLeft) && Less(low, high)
    requires IsCut(strict, a, low, t.left.ukey, true) && IsCut(strict, b, t.right.ukey, high, false)
    ensures Rejoin(t, a.tree, b.tree, low, high, a.low, b.high).Some?
    ensures var k := Rejoin(t, a.tree, b.tree, low, high, a.low, b.high).value;
            && IsCut(strict, k, low, high, isLeft)
            && (CutHas(k, p) <==> CutHas(a, p) || CutHas(b, p))
  {
    hide Less, AtMost, Below, Depth;
    var (l, r) := (t.left.ukey, t.right.ukey);
    assert Less(low, high) && AtMost(l, high) && AtMost(low, r);
    if a.tree.Some? && b.tree.Some? {
      Apart(strict, a, b, low, l, r, high);
      JoinBoth(strict, if isLeft then b.high else a.low, a, b, isLeft, p);
    } else if a.tree.Some? {
      SwapSide(strict, a.tree.value, a.low, a.high, true, p);
      assert AtMost(a.high, high);
    } else if b.tree.Some? {
      SwapSide(strict, b.tree.value, b.low, b.high, false, p);
      assert AtMost(low, b.low);
    }
  }

  /** On a child, [rl, rh) may be cut down to the child's own range. */
  lemma SameHere(p: Key, low: Key, high: Key, rl: Key, rh: Key, x: Key, y: Key)
    requires Within(p, low, high) && (x == rl || (x == low && AtMost(rl, low))) && (y == rh || (y == high && AtMost(high, rh)))
    ensures Within(p, x, y) <==> Within(p, rl, rh)
  {
    hide Less, AtMost, Below;
  }

  /** What a child keeps. */
  lemma DeleteFromChild(strict: bool, t: Tree, low: Key, high: Key, isLeft: bool, rl: Key, rh: Key, x: Key, y: Key, p: Key)
    requires IsTree(strict, t, low, high, isLeft) && AtMost(low, x) && AtMost(x, y) && AtMost(y, high)
    requires (x == rl || (x == low && AtMost(rl, low))) && (y == rh || (y == high && AtMost(high, rh)))
    ensures DeleteRange(t, low, x, y, high).Some?
    ensures var k := DeleteRange(t, low, x, y, high).value;
            && IsCut(strict, k, low, high, isLeft)
            && (CutHas(k, p) <==> Has(t, p, low, high) && !Within(p, rl, rh))
    decreases t, 2
  {
    hide Less, AtMost, Below, IsTree, Has, DeleteRange, IsCut, CutHas;
    DeleteIsDifference(strict, t, low, x, y, high, isLeft, p);
    if Has(t, p, low, high) {
      HasStaysInside(strict, t, p, low, high, isLeft);
      SameHere(p, low, high, rl, rh, x, y);
    }
  }

  /** A child that the range does not reach. */
  lemma Untouched(strict: bool, t: Tree, low: Key, high: Key, isLeft: bool, rl: Key, rh: Key, p: Key)
    requires IsTree(strict, t, low, high, isLeft) && (AtMost(rh, low) || AtMost(high, rl))
    ensures IsCut(strict, Cut(Some(t), low, high), low, high, isLeft)
    ensures CutHas(Cut(Some(t), low, high), p) <==> Has(t, p, low, high) && !Within(p, rl, rh)
  {
    hide Less, AtMost, Below, IsTree, Has;
    if Has(t, p, low, high) { HasStaysInside(strict, t, p, low, high, isLeft); }
    assert AtMost(low, low) && AtMost(high, high);
  }

  lemma HasOfNode(t: Tree, p: Key, low: Key, high: Key)
    requires t.Node?
    ensures Has(t, p, low, high) <==> Has(t.left, p, low, t.left.ukey) || Has(t.right, p, t.right.ukey, high)
  {
  }

  lemma Parts(strict: bool, t: Tree, low: Key, high: Key, isLeft: bool)
    requires t.Node? && IsTree(strict, t, low, high, isLeft)
    ensures IsTree(strict, t.left, low, t.left.ukey, true) && IsTree(strict, t.right, t.right.ukey, high, false)
    ensures Below(strict, low, t.left.ukey) && AtMost(t.left.ukey, t.right.ukey) && Below(strict, t.right.ukey, high)
    ensures AtMost(low, t.left.ukey) && AtMost(t.right.ukey, high) && AtMost(t.left.ukey, t.left.ukey) && AtMost(t.right.ukey, t.right.ukey)
  {
    hide Less, AtMost, Below, Height;
  }

  lemma DeleteFromNode(strict: bool, t: Tree, low: Key, rl: Key, rh: Key, high: Key, isLeft: bool, p: Key)
    requires t.Node? && IsTree(strict, t, low, high, isLeft) && AtMost(low, rl) && Less(rl, rh) && AtMost(rh, high)
    requires !(rl == low && rh == high)
    ensures DeleteRange(t, low, rl, rh, high).Some?
    ensures var k := DeleteRange(t, low, rl, rh, high).value;
            && IsCut(strict, k, low, high, isLeft)
            && (CutHas(k, p) <==> Has(t, p, low, high) && !Within(p, rl, rh))
    decreases t, 0
  {
    hide Less, AtMost, Below, Rejoin, IsTree, Has, IsCut, CutHas, Within;
    Parts(strict, t, low, high, isLeft);
    HasOfNode(t, p, low, high);
    var (l, r) := (t.left.ukey, t.right.ukey);
    var (a, b) := (Cut(Some(t.left), low, l), Cut(Some(t.right), r, high));
    if InRange(rl, low, l) && InRange(rh, r, high) {
      assert AtMost(l, rh) && AtMost(rl, r);
      DeleteFromChild(strict, t.left, low, l, true, rl, rh, rl, l, p);
      DeleteFromChild(strict, t.right, r, high, false, rl, rh, r, rh, p);
      RejoinKeeps(strict, t, DeleteRange(t.left, low, rl, l, l).value, DeleteRange(t.right, r, r, rh, high).value, low, high, isLeft, p);
    } else if InRange(rl, low, l) && InRange(rh, low, l) {
      DeleteFromChild(strict, t.left, low, l, true, rl, rh, rl, rh, p);
      Untouched(strict, t.right, r, high, false, rl, rh, p);
      RejoinKeeps(strict, t, DeleteRange(t.left, low, rl, rh, l).value, b, low, high, isLeft, p);
    } else if InRange(rl, r, high) && InRange(rh, r, high) {
      DeleteFromChild(strict, t.right, r, high, false, rl, rh, rl, rh, p);
      Untouched(strict, t.left, low, l, true, rl, rh, p);
      RejoinKeeps(strict, t, a, DeleteRange(t.right, r, rl, rh, high).value, low, high, isLeft, p);
    } else if InRange(rl, l, r) && InRange(rh, r, high) {
      DeleteFromChild(strict, t.right, r, high, false, rl, rh, r, rh, p);
      Untouched(strict, t.left, low, l, true, rl, rh, p);
      RejoinKeeps(strict, t, a, DeleteRange(t.right, r, r, rh, high).value, low, high, isLeft, p);
    } else if InRange(rl, low, l) && InRange(rh, l, r) {
      DeleteFromChild(strict, t.left, low, l, true, rl, rh, rl, l, p);
      Untouched(strict, t.right, r, high, false, rl, rh, p);
      RejoinKeeps(strict, t, DeleteRange(t.left, low, rl, l, l).value, b, low, high, isLeft, p);
    } else {
      assert AtMost(l, rl) && AtMost(rh, r);
      Untouched(strict, t.left, low, l, true, rl, rh, p);
      Untouched(strict, t.right, r, high, false, rl, rh, p);
      RejoinKeeps(strict, t, a, b, low, high, isLeft, p);
    }
  }

  /** Deleting a range never panics, keeps the tree in order, and is difference. */
  lemma {:induction false} DeleteIsDifference(strict: bool, t: Tree, low: Key, rl: Key, rh: Key, high: Key, isLeft: bool, p: Key)
    requires IsTree(strict, t, low, high, isLeft) && AtMost(low, rl) && AtMost(rl, rh) && AtMost(rh, high)
    ensures DeleteRange(t, low, rl, rh, high).Some?
    ensures var k := DeleteRange(t, low, rl, rh, high).value;
            && IsCut(strict, k, low, high, isLeft)
            && (CutHas(k, p) <==> Has(t, p, low, high) && !Within(p, rl, rh))
    decreases t, 1
  {
    hide Less, AtMost, Below, DeleteFromLeaf, Height;
    if rl == low && rh == high {
      if Has(t, p, low, high) { HasStaysInside(strict, t, p, low, high, isLeft); }
    } else if rl == rh {
      assert AtMost(low, low) && AtMost(high, high) && !Within(p, rl, rh);
    } else {
      assert Less(rl, rh);
      if t.Leaf? {
        LeafCut(strict, t, low, rl, rh, high, isLeft, p);
      } else {
        hide IsTree, Has, DeleteRange, IsCut, CutHas;
        DeleteFromNode(strict, t, low, rl, rh, high, isLeft, p);
      }
    }
  }

  // ----- listing -----

  /** RangeTreeNode.Range: the leaves' ranges, from left to right. */
  function Ranges(t: Tree, low: Key, high: Key): (rs: seq<(Key, Key)>)
    ensures rs != []
  {
    if t.Leaf? then [(low, high)]
    else Ranges(t.left, low, t.left.ukey) + Ranges(t.right, t.right.ukey, high)
  }

  /** The ranges lie in [low, high], one after the other, and none is empty if strict. */
  predicate AreOrdered(strict: bool, rs: seq<(Key, Key)>, low: Key, high: Key) {
    && (forall i :: 0 <= i < |rs| ==> AtMost(low, rs[i].0) && Below(strict, rs[i].0, rs[i].1) && AtMost(rs[i].1, high))
    && (forall i, j :: 0 <= i < j < |rs| ==> AtMost(rs[i].1, rs[j].0))
  }

  predicate InSome(rs: seq<(Key, Key)>, p: Key) {
    exists i :: 0 <= i < |rs| && Within(p, rs[i].0, rs[i].1)
  }

  lemma OrderedJoin(strict: bool, xs: seq<(Key, Key)>, ys: seq<(Key, Key)>, low: Key, l: Key, r: Key, high: Key)
    requires AreOrdered(strict, xs, low, l) && AreOrdered(strict, ys, r, high) && AtMost(low, l) && AtMost(l, r) && AtMost(r, high)
    ensures AreOrdered(strict, xs + ys, low, high)
  {
    hide Less, AtMost, Below;
    var zs := xs + ys;
    forall i | 0 <= i < |zs| ensures AtMost(low, zs[i].0) && Below(strict, zs[i].0, zs[i].1) && AtMost(zs[i].1, high) {
      if i < |xs| { assert zs[i] == xs[i]; } else { assert zs[i] == ys[i - |xs|]; }
    }
    forall i, j | 0 <= i < j < |zs| ensures AtMost(zs[i].1, zs[j].0) {
      if j < |xs| {
        assert AtMost(xs[i].1, xs[j].0);
      } else if i >= |xs| {
        assert AtMost(ys[i - |xs|].1, ys[j - |xs|].0);
      } else {
        assert AtMost(xs[i].1, l) && AtMost(r, ys[j - |xs|].0);
      }
    }
  }

  lemma InSomeOfJoin(xs: seq<(Key, Key)>, ys: seq<(Key, Key)>, p: Key)
    ensures InSome(xs + ys, p) <==> InSome(xs, p) || InSome(ys, p)
  {
    hide Within;
    var zs := xs + ys;
    if i :| 0 <= i < |xs| && Within(p, xs[i].0, xs[i].1) { assert zs[i] == xs[i]; }
    if i :| 0 <= i < |ys| && Within(p, ys[i].0, ys[i].1) { assert zs[|xs| + i] == ys[i]; }
    if i :| 0 <= i < |zs| && Within(p, zs[i].0, zs[i].1) {
      if i < |xs| { assert zs[i] == xs[i]; } else { assert zs[i] == ys[i - |xs|]; }
    }
  }

  /** The listed ranges are in order and cover exactly the keys of the tree. */
  lemma {:induction false} RangesCover(strict: bool, t: Tree, low: Key, high: Key, isLeft: bool, p: Key)
    requires IsTree(strict, t, low, high, isLeft)
    ensures AreOrdered(strict, Ranges(t, low, high), low, high)
    ensures InSome(Ranges(t, low, high), p) <==> Has(t, p, low, high)
    decreases t
  {
    hide Less, AtMost, Below, Height, Within;
    if t.Leaf? {
      assert Ranges(t, low, high)[0] == (low, high);
      assert AtMost(low, low) && AtMost(high, high);
    } else {
      var (l, r) := (t.left.ukey, t.right.ukey);
      RangesCover(strict, t.left, low, l, true, p);
      RangesCover(strict, t.right, r, high, false, p);
      OrderedJoin(strict, Ranges(t.left, low, l), Ranges(t.right, r, high), low, l, r, high);
      InSomeOfJoin(Ranges(t.left, low, l), Ranges(t.right, r, high), p);
    }
  }

  // ----- the whole tree -----

  /** A RangeTree; without a root its range means nothing. */
  datatype Store = Store(start: Key, end: Key, root: Option<Tree>)

  const EMPTY: Store := Store([], [], None)

  predicate IsStore(strict: bool, s: Store) {
    s.root.Some? ==> IsTree(strict, s.root.value, s.start, s.end, true)
  }

  function Lookup(s: Store, p: Key): bool {
    s.root.Some? && Search(s.root.value, p, s.start, s.end)
  }

  predicate StoreHas(s: Store, p: Key) {
    s.root.Some? && Has(s.root.value, p, s.start, s.end)
  }

  /** The range of the root, widened to take in the new range. */
  function Widen(s: Store, lo: Key, hi: Key): (w: Store)
    requires s.root.Some?
    ensures w.root.Some?
  {
    Store(if Less(lo, s.start) then lo else s.start,
          if Less(s.end, hi) then hi else s.end,
          Some(if Less(s.end, hi) then WithKey(s.root.value, hi) else s.root.value))
  }

  /** RangeTree.AddRange; None where the source panics. */
  function Add(s: Store, lo: Key, hi: Key): Option<Store> {
    if Less(hi, lo) then Some(s)
    else if s.root.None? then Some(Store(lo, hi, Some(Leaf(hi))))
    else if Less(hi, s.start) then
      var right := WithKey(s.root.value, s.start);
      Some(Store(lo, s.end, Some(Node(s.end, Leaf(hi), right, Depth(right) + 1))))
    else if Less(s.end, lo) then
      var left := s.root.value;
      Some(Store(s.start, hi, Some(Node(hi, left, Leaf(lo), Depth(left) + 1))))
    else
      var w := Widen(s, lo, hi);
      var t := AddRange(w.root.value, w.start, lo, hi, w.end);
      if t.None? then None else Some(w.(root := t))
  }

  /** RangeTree.DeleteRange */
  function Delete(s: Store, lo: Key, hi: Key): Option<Store> {
    if Less(hi, lo) || s.root.None? || Less(hi, s.start) || Less(s.end, lo) then Some(s)
    else
      var rl := if Less(lo, s.start) then s.start else lo;
      var rh := if Less(s.end, hi) then s.end else hi;
      var k := DeleteRange(s.root.value, s.start, rl, rh, s.end);
      if k.None? then None else Some(Store(k.value.low, k.value.high, k.value.tree))
  }

  lemma LookupFinds(strict: bool, s: Store, p: Key)
    requires IsStore(strict, s)
    ensures Lookup(s, p) == StoreHas(s, p)
  {
    if s.root.Some? { SearchFinds(strict, s.root.value, p, s.start, s.end, true); }
  }

  lemma WidenAdds(strict: bool, s: Store, lo: Key, hi: Key, p: Key)
    requires IsStore(strict, s) && s.root.Some? && Below(strict, lo, hi) && AtMost(s.start, hi) && AtMost(lo, s.end)
    ensures var w := Widen(s, lo, hi);
            && IsStore(strict, w) && Fits(strict, w.start, lo, hi, w.end)
            && (StoreHas(w, p) || Within(p, lo, hi) <==> StoreHas(s, p) || Within(p, lo, hi))
  {
    hide Less, AtMost, Below, Has, IsTree;
    var (t, w) := (s.root.value, Widen(s, lo, hi));
    ExtendHigh(strict, t, s.start, s.end, w.end, true, p);
    assert WithKey(t, s.end) == t by { KeyOfRoot(strict, t, s.start, s.end); }
    ExtendLow(strict, w.root.value, w.start, s.start, w.end, true, p);
    assert WithKey(w.root.value, w.end) == w.root.value by { KeyOfRoot(strict, w.root.value, w.start, w.end); }
  }

  lemma KeyOfRoot(strict: bool, t: Tree, low: Key, high: Key)
    requires IsTree(strict, t, low, high, true)
    ensures WithKey(t, high) == t
  {
  }

  lemma AddBelow(strict: bool, s: Store, lo: Key, hi: Key, p: Key)
    requires IsStore(strict, s) && s.root.Some? && Below(strict, lo, hi) && Less(hi, s.start)
    ensures var right := WithKey(s.root.value, s.start);
            var s' := Store(lo, s.end, Some(Node(s.end, Leaf(hi), right, Depth(right) + 1)));
            IsStore(strict, s') && (StoreHas(s', p) <==> StoreHas(s, p) || Within(p, lo, hi))
  {
    hide Less, AtMost, Below, Depth, IsTree, Has;
    SwapSide(strict, s.root.value, s.start, s.end, true, p);
    var (a, b) := (Cut(Some(Leaf(hi)), lo, hi), Cut(Some(WithKey(s.root.value, s.start)), s.start, s.end));
    assert IsTree(strict, Leaf(hi), lo, hi, true) && (Has(Leaf(hi), p, lo, hi) <==> Within(p, lo, hi)) && Depth(Leaf(hi)) == 0 by { OneLeaf(strict, lo, hi, p); }
    assert AtMost(lo, lo) && AtMost(hi, hi) && AtMost(s.start, s.start) && AtMost(s.end, s.end) && AtMost(hi, s.start);
    Apart(strict, a, b, lo, hi, s.start, s.end);
    JoinBoth(strict, s.end, a, b, true, p);
  }

  lemma OneLeaf(strict: bool, lo: Key, hi: Key, p: Key)
    requires Below(strict, lo, hi)
    ensures IsTree(strict, Leaf(hi), lo, hi, true) && (Has(Leaf(hi), p, lo, hi) <==> Within(p, lo, hi)) && Depth(Leaf(hi)) == 0
    ensures IsTree(strict, Leaf(lo), lo, hi, false) && (Has(Leaf(lo), p, lo, hi) <==> Within(p, lo, hi)) && Depth(Leaf(lo)) == 0
  {
  }

  lemma AddAbove(strict: bool, s: Store, lo: Key, hi: Key, p: Key)
    requires IsStore(strict, s) && s.root.Some? && Below(strict, lo, hi) && Less(s.end, lo)
    ensures var left := s.root.value;
            var s' := Store(s.start, hi, Some(Node(hi, left, Leaf(lo), Depth(left) + 1)));
            IsStore(strict, s') && (StoreHas(s', p) <==> StoreHas(s, p) || Within(p, lo, hi))
  {
    hide Less, AtMost, Below, Depth, IsTree, Has;
    var (a, b) := (Cut(s.root, s.start, s.end), Cut(Some(Leaf(lo)), lo, hi));
    OneLeaf(strict, lo, hi, p);
    assert AtMost(lo, lo) && AtMost(hi, hi) && AtMost(s.start, s.start) && AtMost(s.end, s.end) && AtMost(s.end, lo);
    Apart(strict, a, b, s.start, s.end, lo, hi);
    JoinBoth(strict, hi, a, b, true, p);
  }

  /** RangeTree.AddRange never panics, keeps the tree in order, and is union. */
  lemma AddIsUnionOf(strict: bool, s: Store, lo: Key, hi: Key, p: Key)
    requires IsStore(strict, s) && (strict ==> lo != hi)
    ensures Add(s, lo, hi).Some? && IsStore(strict, Add(s, lo, hi).value)
    ensures StoreHas(Add(s, lo, hi).value, p) <==> StoreHas(s, p) || Within(p, lo, hi)
  {
    hide Less, AtMost, Below, Depth, IsTree, Has, AddRange, Widen;
    if Less(hi, lo) {
    } else {
      assert Below(strict, lo, hi);
      if s.root.None? {
        OneLeaf(strict, lo, hi, p);
      } else if Less(hi, s.start) {
        AddBelow(strict, s, lo, hi, p);
      } else if Less(s.end, lo) {
        AddAbove(strict, s, lo, hi, p);
      } else {
        assert AtMost(s.start, hi) && AtMost(lo, s.end);
        WidenAdds(strict, s, lo, hi, p);
        var w := Widen(s, lo, hi);
        AddIsUnion(strict, w.root.value, w.start, lo, hi, w.end, true, p);
      }
    }
  }

  /** RangeTree.DeleteRange never panics, keeps the tree in order, and is difference. */
  lemma DeleteIsDifferenceOf(strict: bool, s: Store, lo: Key, hi: Key, p: Key)
    requires IsStore(strict, s)
    ensures Delete(s, lo, hi).Some? && IsStore(strict, Delete(s, lo, hi).value)
    ensures StoreHas(Delete(s, lo, hi).value, p) <==> StoreHas(s, p) && !Within(p, lo, hi)
  {
    hide Less, AtMost, Below, IsTree, Has, DeleteRange;
    if s.root.Some? {
      if Has(s.root.value, p, s.start, s.end) { HasStaysInside(strict, s.root.value, p, s.start, s.end, true); }
      assert Below(strict, s.start, s.end) by { RangeOfTree(strict, s.root.value, s.start, s.end); }
      if Less(hi, lo) || Less(hi, s.start) || Less(s.end, lo) {
      } else {
        var rl := if Less(lo, s.start) then s.start else lo;
        var rh := if Less(s.end, hi) then s.end else hi;
        assert AtMost(s.start, rl) && AtMost(rl, rh) && AtMost(rh, s.end);
        DeleteIsDifference(strict, s.root.value, s.start, rl, rh, s.end, true, p);
      }
    }
  }

  lemma RangeOfTree(strict: bool, t: Tree, low: Key, high: Key)
    requires IsTree(strict, t, low, high, true)
    ensures Below(strict, low, high)
  {
  }

  /** RangeTree.Range */
  function StoreRanges(s: Store): seq<(Key, Key)> {
    if s.root.None? then [] else Ranges(s.root.value, s.start, s.end)
  }
}
