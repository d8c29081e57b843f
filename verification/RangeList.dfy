/** The flat list of range boundaries (utils/RangeList.go). */
module RangeLists {
  import opened Bytes
  import opened Keys

  /** Boundaries in strict order and even in number: ranges start at even places and end at odd ones. */
  predicate IsList(xs: seq<Key>) {
    IsSorted(xs) && |xs| % 2 == 0
  }

  /** Range i of the list has p. */
  predicate InPair(xs: seq<Key>, i: nat, p: Key) {
    2 * i + 1 < |xs| && Within(p, xs[2 * i], xs[2 * i + 1])
  }

  ghost predicate Has(xs: seq<Key>, p: Key) {
    exists i: nat :: InPair(xs, i, p)
  }

  /** The number of boundaries that are not above s. */
  function Count(xs: seq<Key>, s: Key): (n: nat)
    ensures n <= |xs|
  {
    if xs == [] then 0 else Count(xs[..|xs| - 1], s) + if AtMost(xs[|xs| - 1], s) then 1 else 0
  }

  /** The last boundary that is not above s, and -1 if there is none. */
  function Place(xs: seq<Key>, s: Key): (k: int)
    ensures -1 <= k < |xs|
  {
    Count(xs, s) - 1
  }

  predicate IsGoodPlace(xs: seq<Key>, s: Key, k: int)
    requires -1 <= k < |xs|
  {
    (k == -1 || AtMost(xs[k], s)) && (k == |xs| - 1 || Less(s, xs[k + 1]))
  }

  lemma {:induction false} CountOfConcat(xs: seq<Key>, ys: seq<Key>, s: Key)
    ensures Count(xs + ys, s) == Count(xs, s) + Count(ys, s)
  {
    hide AtMost;
    if ys == [] {
      assert xs + ys == xs;
    } else {
      assert (xs + ys)[..|xs + ys| - 1] == xs + ys[..|ys| - 1];
      CountOfConcat(xs, ys[..|ys| - 1], s);
    }
  }

  lemma {:induction false} CountAll(xs: seq<Key>, s: Key)
    requires forall i :: 0 <= i < |xs| ==> AtMost(xs[i], s)
    ensures Count(xs, s) == |xs|
  {
    hide AtMost;
    if xs != [] { CountAll(xs[..|xs| - 1], s); }
  }

  lemma {:induction false} CountNone(xs: seq<Key>, s: Key)
    requires forall i :: 0 <= i < |xs| ==> Less(s, xs[i])
    ensures Count(xs, s) == 0
  {
    hide AtMost, Less;
    if xs != [] {
      CountNone(xs[..|xs| - 1], s);
      assert Less(s, xs[|xs| - 1]);
    }
  }

  /** There is just one good place, and it is where counting ends. */
  lemma GoodPlaceIsPlace(xs: seq<Key>, s: Key, k: int)
    requires IsSorted(xs) && -1 <= k < |xs|
    ensures IsGoodPlace(xs, s, k) <==> k == Place(xs, s)
  {
    hide AtMost, Less, Count;
    var n := Count(xs, s);
    SplitAtCount(xs, s);
    if IsGoodPlace(xs, s, k) {
      assert k + 1 < n ==> AtMost(xs[k + 1], s);
      assert n <= k ==> Less(s, xs[k]);
    }
  }

  /** In a sorted list the boundaries not above s come first. */
  lemma {:induction false} SplitAtCount(xs: seq<Key>, s: Key)
    requires IsSorted(xs)
    ensures forall i :: 0 <= i < Count(xs, s) ==> AtMost(xs[i], s)
    ensures forall i :: Count(xs, s) <= i < |xs| ==> Less(s, xs[i])
  {
    hide AtMost, Less;
    if xs != [] {
      var m := |xs| - 1;
      SplitAtCount(xs[..m], s);
      if AtMost(xs[m], s) {
        forall i | 0 <= i < m ensures AtMost(xs[i], s) { assert Less(xs[i], xs[m]); }
        CountAll(xs[..m], s);
      } else {
        assert Less(s, xs[m]);
      }
    }
  }

  /** A key is in the set exactly when the last boundary not above it is a start. */
  lemma HasMeansPlace(xs: seq<Key>, p: Key)
    requires IsList(xs)
    ensures Has(xs, p) <==> Count(xs, p) % 2 == 1
  {
    hide AtMost, Less, Count;
    var n := Count(xs, p);
    SplitAtCount(xs, p);
    if n % 2 == 1 {
      var i := (n - 1) / 2;
      assert 2 * i == n - 1;
      assert AtMost(xs[n - 1], p) && Less(p, xs[n]);
      assert InPair(xs, i, p);
    }
    if Has(xs, p) {
      var i: nat :| InPair(xs, i, p);
      assert AtMost(xs[2 * i], p) && Less(p, xs[2 * i + 1]);
      assert n <= 2 * i ==> Less(p, xs[2 * i]);
      assert 2 * i + 1 < n ==> AtMost(xs[2 * i + 1], p);
      assert n == 2 * i + 1;
    }
  }

  // ----- adding and deleting -----

  predicate IsRed(k: int): (red: bool)
    ensures red ==> k >= 0
  {
    k >= 0 && k % 2 == 0
  }

  predicate StepsThere(xs: seq<Key>, s: Key, k: int)
    requires k < |xs|
  {
    k >= 0 && xs[k] == s
  }

  /** How many boundaries stay on the left, and where the new range starts. */
  function AddLeft(xs: seq<Key>, lo: Key): (r: (nat, Key))
    requires IsList(xs)
    ensures r.0 <= |xs|
  {
    var k := Place(xs, lo);
    if IsRed(k) then (k, xs[k])
    else if StepsThere(xs, lo, k) then (k - 1, xs[k - 1])
    else (k + 1, lo)
  }

  /** From where boundaries stay on the right, and where the new range ends. */
  function AddRight(xs: seq<Key>, hi: Key): (r: (nat, Key))
    requires IsList(xs)
    ensures r.0 <= |xs|
  {
    var k := Place(xs, hi);
    if IsRed(k) then (k + 2, xs[k + 1]) else (k + 1, hi)
  }

  /** RangeList.AddRange */
  function Add(xs: seq<Key>, lo: Key, hi: Key): seq<Key>
    requires IsList(xs)
  {
    if AtMost(hi, lo) then xs
    else if xs == [] then [lo, hi]
    else if Place(xs, lo) == Place(xs, hi) && IsRed(Place(xs, lo)) then xs
    else xs[..AddLeft(xs, lo).0] + [AddLeft(xs, lo).1, AddRight(xs, hi).1] + xs[AddRight(xs, hi).0..]
  }

  /** The boundaries that stay on the left, with lo if it ends the last of them. */
  function DeleteLeft(xs: seq<Key>, lo: Key): seq<Key>
    requires IsList(xs)
  {
    var k := Place(xs, lo);
    if !IsRed(k) then xs[..k + 1] else if StepsThere(xs, lo, k) then xs[..k] else xs[..k + 1] + [lo]
  }

  /** The boundaries that stay on the right, with hi if it starts the first of them. */
  function DeleteRight(xs: seq<Key>, hi: Key): seq<Key>
    requires IsList(xs)
  {
    var k := Place(xs, hi);
    if !IsRed(k) then xs[k + 1..] else if StepsThere(xs, hi, k) then xs[k..] else [hi] + xs[k + 1..]
  }

  /** RangeList.DeleteRange */
  function Delete(xs: seq<Key>, lo: Key, hi: Key): seq<Key>
    requires IsList(xs)
  {
    if AtMost(hi, lo) || xs == [] then xs
    else if Place(xs, lo) == Place(xs, hi) && !IsRed(Place(xs, lo)) then xs
    else DeleteLeft(xs, lo) + DeleteRight(xs, hi)
  }

  /** xs split by its boundaries up to s. */
  lemma PlaceSplits(xs: seq<Key>, s: Key)
    requires IsList(xs)
    ensures forall i :: 0 <= i <= Place(xs, s) ==> AtMost(xs[i], s)
    ensures forall i :: Place(xs, s) < i < |xs| ==> Less(s, xs[i])
  {
    hide AtMost, Less, Count;
    SplitAtCount(xs, s);
  }

  lemma AddLeftIs(xs: seq<Key>, lo: Key, p: Key)
    requires IsList(xs)
    ensures var (a, x) := AddLeft(xs, lo);
            && a % 2 == 0 && AtMost(x, lo)
            && (forall i :: 0 <= i < a ==> Less(xs[i], x))
            && (forall i :: a <= i < |xs| ==> AtMost(x, xs[i]))
            && (AtMost(x, p) && Less(p, lo) ==> Has(xs, p))
  {
    hide AtMost, Less, Place;
    PlaceSplits(xs, lo);
    var (k, x) := (Place(xs, lo), AddLeft(xs, lo).1);
    if IsRed(k) {
      assert forall i :: k <= i < |xs| ==> AtMost(x, xs[i]);
      if AtMost(x, p) && Less(p, lo) {
        assert Less(lo, xs[k + 1]) && Less(p, xs[k + 1]);
        assert InPair(xs, k / 2, p);
      }
    } else if StepsThere(xs, lo, k) {
      assert Less(xs[k - 1], xs[k]);
      assert forall i :: k - 1 <= i < |xs| ==> AtMost(x, xs[i]);
      if AtMost(x, p) && Less(p, lo) {
        assert InPair(xs, (k - 1) / 2, p);
      }
    } else {
      forall i | 0 <= i <= k ensures Less(xs[i], lo) {
        if i < k { assert Less(xs[i], xs[k]); }
        assert AtMost(xs[k], lo) && xs[k] != lo;
        assert Less(xs[k], lo);
      }
      assert forall i :: k < i < |xs| ==> Less(lo, xs[i]) && AtMost(lo, xs[i]);
      assert AtMost(lo, lo);
    }
  }

  lemma AddRightIs(xs: seq<Key>, hi: Key, p: Key)
    requires IsList(xs)
    ensures var (b, y) := AddRight(xs, hi);
            && b % 2 == 0 && AtMost(hi, y)
            && (forall i :: 0 <= i < b ==> AtMost(xs[i], y))
            && (forall i :: b <= i < |xs| ==> Less(y, xs[i]))
            && (AtMost(hi, p) && Less(p, y) ==> Has(xs, p))
  {
    hide AtMost, Less, Place;
    PlaceSplits(xs, hi);
    var (k, y) := (Place(xs, hi), AddRight(xs, hi).1);
    if IsRed(k) {
      assert forall i :: k + 1 < i < |xs| ==> Less(y, xs[i]);
      assert forall i :: 0 <= i < k + 1 ==> Less(xs[i], y) && AtMost(xs[i], y);
      assert AtMost(y, y) && Less(hi, y) && AtMost(hi, y);
      if AtMost(hi, p) && Less(p, y) {
        assert AtMost(xs[k], hi) && AtMost(xs[k], p);
        assert InPair(xs, k / 2, p);
      }
    } else {
      assert AtMost(hi, hi);
    }
  }

  /** A list put together from an even number of boundaries, x, y and an even number of boundaries. */
  lemma JoinedIsList(left: seq<Key>, x: Key, y: Key, right: seq<Key>)
    requires IsSorted(left) && IsSorted(right) && |left| % 2 == 0 && |right| % 2 == 0 && Less(x, y)
    requires forall i :: 0 <= i < |left| ==> Less(left[i], x)
    requires forall i :: 0 <= i < |right| ==> Less(y, right[i])
    ensures IsList(left + [x, y] + right)
  {
    hide Less;
    var zs := left + [x, y] + right;
    forall i, j | 0 <= i < j < |zs| ensures Less(zs[i], zs[j]) {
      var n := |left|;
      if i < n {
        if j >= n { assert Less(left[i], x); }
        if j >= n + 2 { assert Less(y, right[j - n - 2]); }
      } else if j >= n + 2 {
        assert Less(y, right[j - n - 2]);
        if i >= n + 2 { assert Less(right[i - n - 2], right[j - n - 2]); }
      }
    }
  }

  lemma SortedParts(xs: seq<Key>, k: nat)
    requires IsSorted(xs) && k <= |xs|
    ensures IsSorted(xs[..k]) && IsSorted(xs[k..])
  {
    hide Less;
  }

  lemma CountOfSplit(xs: seq<Key>, k: nat, s: Key)
    requires k <= |xs|
    ensures Count(xs, s) == Count(xs[..k], s) + Count(xs[k..], s)
  {
    hide Count;
    assert xs == xs[..k] + xs[k..];
    CountOfConcat(xs[..k], xs[k..], s);
  }

  lemma CountOfJoined(left: seq<Key>, x: Key, y: Key, right: seq<Key>, s: Key)
    ensures Count(left + [x, y] + right, s) ==
            Count(left, s) + (if AtMost(x, s) then 1 else 0) + (if AtMost(y, s) then 1 else 0) + Count(right, s)
  {
    hide AtMost;
    CountOfConcat(left + [x, y], right, s);
    CountOfConcat(left, [x, y], s);
    assert [x, y][..1] == [x] && [x][..0] == [];
    assert Count([x], s) == (if AtMost(x, s) then 1 else 0);
  }

  /** A run of boundaries replaced by one range from x to y: membership changes only between x and y. */
  lemma ReplacedHas(xs: seq<Key>, a: nat, x: Key, y: Key, b: nat, p: Key)
    requires IsList(xs) && a <= |xs| && b <= |xs| && a % 2 == 0 && b % 2 == 0 && Less(x, y)
    requires forall i :: 0 <= i < a ==> Less(xs[i], x)
    requires forall i :: a <= i < |xs| ==> AtMost(x, xs[i])
    requires forall i :: 0 <= i < b ==> AtMost(xs[i], y)
    requires forall i :: b <= i < |xs| ==> Less(y, xs[i])
    ensures IsList(xs[..a] + [x, y] + xs[b..])
    ensures Has(xs[..a] + [x, y] + xs[b..], p) <==> Within(p, x, y) || (Has(xs, p) && !Within(p, x, y))
  {
    hide AtMost, Less, Has, Count;
    var (left, right) := (xs[..a], xs[b..]);
    SortedParts(xs, a);
    SortedParts(xs, b);
    JoinedIsList(left, x, y, right);
    HasMeansPlace(left + [x, y] + right, p);
    HasMeansPlace(xs, p);
    CountOfJoined(left, x, y, right, p);
    if Less(p, x) {
      CountOfSplit(xs, a, p);
      forall i | 0 <= i < |xs[a..]| ensures Less(p, xs[a..][i]) { assert AtMost(x, xs[a + i]); }
      CountNone(xs[a..], p);
      forall i | 0 <= i < |right| ensures Less(p, right[i]) { assert Less(y, xs[b + i]); }
      CountNone(right, p);
      assert !AtMost(x, p) && !AtMost(y, p);
    } else if Less(p, y) {
      forall i | 0 <= i < a ensures AtMost(left[i], p) { assert Less(xs[i], x); }
      CountAll(left, p);
      forall i | 0 <= i < |right| ensures Less(p, right[i]) { assert Less(y, xs[b + i]); }
      CountNone(right, p);
      assert AtMost(x, p) && !AtMost(y, p);
    } else {
      CountOfSplit(xs, b, p);
      forall i | 0 <= i < a ensures AtMost(left[i], p) { assert Less(xs[i], x); }
      CountAll(left, p);
      forall i | 0 <= i < b ensures AtMost(xs[..b][i], p) { assert AtMost(xs[i], y); }
      CountAll(xs[..b], p);
      assert AtMost(x, p) && AtMost(y, p);
    }
  }

  /** AddRange keeps the list in order, and is union. */
  lemma AddIsUnion(xs: seq<Key>, lo: Key, hi: Key, p: Key)
    requires IsList(xs)
    ensures IsList(Add(xs, lo, hi))
    ensures Has(Add(xs, lo, hi), p) <==> Has(xs, p) || Within(p, lo, hi)
  {
    hide AtMost, Less, Place, AddLeft, AddRight;
    if AtMost(hi, lo) {
      assert !Less(lo, hi);
    } else if xs == [] {
      assert Less(lo, hi);
      assert InPair([lo, hi], 0, p) <==> Within(p, lo, hi);
      assert forall i: nat :: i > 0 ==> !InPair([lo, hi], i, p);
    } else if Place(xs, lo) == Place(xs, hi) && IsRed(Place(xs, lo)) {
      var k := Place(xs, lo);
      PlaceSplits(xs, lo);
      PlaceSplits(xs, hi);
      if Within(p, lo, hi) {
        assert AtMost(xs[k], lo) && Less(hi, xs[k + 1]);
        assert AtMost(xs[k], p) && Less(p, xs[k + 1]);
        assert InPair(xs, k / 2, p);
      }
    } else {
      hide Has;
      AddLeftIs(xs, lo, p);
      AddRightIs(xs, hi, p);
      var (x, y) := (AddLeft(xs, lo).1, AddRight(xs, hi).1);
      assert Less(lo, hi) && Less(x, y);
      ReplacedHas(xs, AddLeft(xs, lo).0, x, y, AddRight(xs, hi).0, p);
    }
  }

  lemma CountOfLeft(xs: seq<Key>, lo: Key, p: Key)
    requires IsList(xs) && Less(p, lo)
    ensures Count(DeleteLeft(xs, lo), p) == Count(xs, p)
  {
    hide AtMost, Less, Count, IsSorted;
    var k := Place(xs, lo);
    PlaceSplits(xs, lo);
    var m := if IsRed(k) && StepsThere(xs, lo, k) then k else k + 1;
    CountOfSplit(xs, m, p);
    forall i | 0 <= i < |xs[m..]| ensures Less(p, xs[m..][i]) { assert AtMost(lo, xs[m + i]); }
    CountNone(xs[m..], p);
    if IsRed(k) && !StepsThere(xs, lo, k) {
      CountOfConcat(xs[..m], [lo], p);
      CountNone([lo], p);
    }
  }

  lemma DeleteLeftIs(xs: seq<Key>, lo: Key)
    requires IsList(xs)
    ensures var l := DeleteLeft(xs, lo); IsSorted(l) && forall i :: 0 <= i < |l| ==> AtMost(l[i], lo)
  {
    hide AtMost, Less, Count, IsRed;
    var k := Place(xs, lo);
    PlaceSplits(xs, lo);
    SortedParts(xs, k + 1);
    if IsRed(k) {
      SortedParts(xs, k);
      if !StepsThere(xs, lo, k) {
        forall i | 0 <= i <= k ensures Less(xs[i], lo) {
          assert AtMost(xs[k], lo) && xs[k] != lo;
          assert Less(xs[k], lo);
          if i < k { assert Less(xs[i], xs[k]); }
        }
        assert AtMost(lo, lo);
      }
    }
  }

  lemma PlaceParity(k: int, n: int)
    requires k >= -1 && n % 2 == 0
    ensures if IsRed(k) then k % 2 == 0 && (k + 2) % 2 == 0 && (n - k) % 2 == 0 else (k + 1) % 2 == 0 && (n - (k + 1)) % 2 == 0
  {
  }

  lemma PartsAreEven(xs: seq<Key>, lo: Key, hi: Key)
    requires IsList(xs)
    ensures |DeleteLeft(xs, lo)| % 2 == 0 && |DeleteRight(xs, hi)| % 2 == 0
  {
    hide IsSorted, Place, IsRed;
    PlaceParity(Place(xs, lo), |xs|);
    PlaceParity(Place(xs, hi), |xs|);
    LengthsByCase(xs, lo, hi);
  }

  lemma LengthsByCase(xs: seq<Key>, lo: Key, hi: Key)
    requires IsList(xs)
    ensures var (k, n) := (Place(xs, lo), |DeleteLeft(xs, lo)|);
            n == if !IsRed(k) then k + 1 else if xs[k] == lo then k else k + 2
    ensures var (k, n) := (Place(xs, hi), |DeleteRight(xs, hi)|);
            n == if !IsRed(k) then |xs| - (k + 1) else |xs| - k
  {
    hide IsSorted, Place, IsRed;
  }

  /** The boundaries that are dropped on the left are even in number. */
  function Dropped(k: int): (r: int)
    ensures r % 2 == 0 || k < -1
  {
    if IsRed(k) then k else if k % 2 == 0 then k else k + 1
  }

  /** What stays on the right begins with hi, or with the boundary it falls on, or beyond it. */
  lemma RightByCase(xs: seq<Key>, hi: Key)
    requires IsList(xs)
    ensures var k := Place(xs, hi);
            if !IsRed(k) then DeleteRight(xs, hi) == xs[k + 1..] && Dropped(k) == k + 1
            else if xs[k] == hi then DeleteRight(xs, hi) == xs[k..] && Dropped(k) == k
            else DeleteRight(xs, hi) == [hi] + xs[k + 1..] && Dropped(k) == k
  {
    hide Place, IsSorted;
  }

  lemma CountBeyond(xs: seq<Key>, m: nat, hi: Key, p: Key)
    requires m <= |xs| && AtMost(hi, p)
    ensures Count([hi] + xs[m..], p) == 1 + Count(xs[m..], p)
  {
    hide AtMost, Count;
    CountOfConcat([hi], xs[m..], p);
    CountAll([hi], p);
  }

  lemma CountOfRight(xs: seq<Key>, hi: Key, p: Key)
    requires IsList(xs) && AtMost(hi, p)
    ensures Count(xs, p) == Count(DeleteRight(xs, hi), p) + Dropped(Place(xs, hi))
  {
    hide AtMost, Less, Count, IsList, Place, DeleteRight, Dropped, IsRed;
    var k := Place(xs, hi);
    PlaceSplits(xs, hi);
    RightByCase(xs, hi);
    if !IsRed(k) {
      CountFrom(xs, k + 1, hi, p);
    } else if xs[k] == hi {
      CountFrom(xs, k, hi, p);
    } else {
      CountFrom(xs, k + 1, hi, p);
      CountBeyond(xs, k + 1, hi, p);
    }
  }

  lemma CountFrom(xs: seq<Key>, m: nat, hi: Key, p: Key)
    requires m <= |xs| && AtMost(hi, p) && forall i :: 0 <= i < m ==> AtMost(xs[i], hi)
    ensures Count(xs, p) == m + Count(xs[m..], p)
  {
    hide AtMost, Count;
    CountOfSplit(xs, m, p);
    forall i | 0 <= i < |xs[..m]| ensures AtMost(xs[..m][i], p) { assert AtMost(xs[i], hi); }
    CountAll(xs[..m], p);
  }

  lemma DeleteRightIs(xs: seq<Key>, hi: Key)
    requires IsList(xs)
    ensures var r := DeleteRight(xs, hi); IsSorted(r) && forall i :: 0 <= i < |r| ==> AtMost(hi, r[i])
  {
    hide AtMost, Less, Place, IsRed;
    var k := Place(xs, hi);
    PlaceSplits(xs, hi);
    SortedParts(xs, k + 1);
    assert forall i :: k < i < |xs| ==> AtMost(hi, xs[i]);
    if IsRed(k) {
      SortedParts(xs, k);
      assert AtMost(hi, hi);
      if !StepsThere(xs, hi, k) {
        var (r, tail) := (DeleteRight(xs, hi), xs[k + 1..]);
        forall i, j | 0 <= i < j < |r| ensures Less(r[i], r[j]) {
          if i == 0 { assert Less(hi, tail[j - 1]); } else { assert Less(tail[i - 1], tail[j - 1]); }
        }
      }
    }
  }

  lemma DeletedCount(xs: seq<Key>, lo: Key, hi: Key, p: Key)
    requires IsList(xs) && Less(lo, hi)
    ensures var (l, r) := (DeleteLeft(xs, lo), DeleteRight(xs, hi));
            && (Less(p, lo) ==> Count(l + r, p) == Count(xs, p))
            && (Within(p, lo, hi) ==> Count(l + r, p) == |l|)
            && (AtMost(hi, p) ==> Count(l + r, p) + Dropped(Place(xs, hi)) == Count(xs, p) + |l|)
  {
    hide AtMost, Less, Place, DeleteLeft, DeleteRight, Count, Dropped, IsList;
    var (l, r) := (DeleteLeft(xs, lo), DeleteRight(xs, hi));
    DeleteLeftIs(xs, lo);
    DeleteRightIs(xs, hi);
    CountOfConcat(l, r, p);
    if Less(p, hi) {
      forall i | 0 <= i < |r| ensures Less(p, r[i]) { assert AtMost(hi, r[i]); }
      CountNone(r, p);
    } else {
      CountOfRight(xs, hi, p);
    }
    if Less(p, lo) {
      CountOfLeft(xs, lo, p);
    } else {
      forall i | 0 <= i < |l| ensures AtMost(l[i], p) { assert AtMost(l[i], lo); }
      CountAll(l, p);
    }
  }

  lemma DeletedParity(l: nat, all: nat, count: nat, k: int)
    requires l % 2 == 0 && k >= -1 && count + Dropped(k) == all + l
    ensures count % 2 == all % 2
  {
    hide Dropped;
    assert Dropped(k) % 2 == 0;
  }

  /** DeleteRange keeps the list in order, and is difference. */
  lemma DeleteIsDifference(xs: seq<Key>, lo: Key, hi: Key, p: Key)
    requires IsList(xs)
    ensures IsList(Delete(xs, lo, hi))
    ensures Has(Delete(xs, lo, hi), p) <==> Has(xs, p) && !Within(p, lo, hi)
  {
    hide AtMost, Less, Place, DeleteLeft, DeleteRight, Has, Count, Dropped, IsList, IsRed;
    if AtMost(hi, lo) || xs == [] {
      assert !Less(lo, hi) || xs == [];
      if xs == [] { NothingHas(p); }
    } else if Place(xs, lo) == Place(xs, hi) && !IsRed(Place(xs, lo)) {
      if Within(p, lo, hi) { BetweenRanges(xs, lo, hi, p); }
    } else {
      assert Less(lo, hi);
      DeleteLeftIs(xs, lo);
      DeleteRightIs(xs, hi);
      PartsAreEven(xs, lo, hi);
      var (l, r) := (DeleteLeft(xs, lo), DeleteRight(xs, hi));
      ConcatIsList(l, r, lo, hi);
      HasMeansPlace(xs, p);
      HasMeansPlace(l + r, p);
      DeletedCount(xs, lo, hi, p);
      if AtMost(hi, p) {
        DeletedParity(|l|, Count(xs, p), Count(l + r, p), Place(xs, hi));
      }
    }
  }

  lemma NothingHas(p: Key)
    ensures !Has([], p)
  {
  }

  lemma ConcatIsList(l: seq<Key>, r: seq<Key>, lo: Key, hi: Key)
    requires IsSorted(l) && IsSorted(r) && |l| % 2 == 0 && |r| % 2 == 0 && Less(lo, hi)
    requires forall i :: 0 <= i < |l| ==> AtMost(l[i], lo)
    requires forall i :: 0 <= i < |r| ==> AtMost(hi, r[i])
    ensures IsList(l + r)
  {
    hide Less, AtMost;
    var zs := l + r;
    forall i, j | 0 <= i < j < |zs| ensures Less(zs[i], zs[j]) {
      if i < |l| && j >= |l| {
        assert AtMost(l[i], lo) && AtMost(hi, r[j - |l|]);
      } else if i >= |l| {
        assert Less(r[i - |l|], r[j - |l|]);
      }
    }
  }

  lemma BetweenRanges(xs: seq<Key>, lo: Key, hi: Key, p: Key)
    requires IsList(xs) && Within(p, lo, hi) && Place(xs, lo) == Place(xs, hi) && !IsRed(Place(xs, lo))
    ensures !Has(xs, p)
  {
    hide Less, AtMost, Count, Has;
    var k := Place(xs, lo);
    PlaceSplits(xs, lo);
    PlaceSplits(xs, hi);
    assert IsGoodPlace(xs, p, k);
    GoodPlaceIsPlace(xs, p, k);
    HasMeansPlace(xs, p);
  }

  // ----- one form for each set -----

  lemma {:induction false} SameSetSameList(xs: seq<Key>, ys: seq<Key>)
    requires IsList(xs) && IsList(ys) && forall p :: Has(xs, p) <==> Has(ys, p)
    ensures xs == ys
  {
    hide Less, AtMost, Has;
    if |xs| <= |ys| {
      SamePrefix(xs, ys, |xs|);
      if |xs| < |ys| { FirstDifference(xs, ys, |xs|); }
    } else {
      SamePrefix(xs, ys, |ys|);
      FirstDifference(ys, xs, |ys|);
    }
  }

  lemma {:induction false} SamePrefix(xs: seq<Key>, ys: seq<Key>, k: nat)
    requires IsList(xs) && IsList(ys) && k <= |xs| && k <= |ys| && forall p :: Has(xs, p) <==> Has(ys, p)
    ensures xs[..k] == ys[..k]
  {
    hide Less, AtMost, Has;
    if k > 0 {
      SamePrefix(xs, ys, k - 1);
      var (x, y) := (xs[k - 1], ys[k - 1]);
      if Less(x, y) {
        FirstDifference(ys, xs, k - 1);
      } else if Less(y, x) {
        FirstDifference(xs, ys, k - 1);
      } else {
        assert x == y;
      }
      assert xs[..k] == xs[..k - 1] + [x] && ys[..k] == ys[..k - 1] + [y];
    }
  }

  /** Where ys has a boundary that xs does not have yet, their sets differ. */
  lemma FirstDifference(xs: seq<Key>, ys: seq<Key>, k: nat)
    requires IsList(xs) && IsList(ys) && k < |ys| && k <= |xs| && xs[..k] == ys[..k]
    requires k < |xs| ==> Less(ys[k], xs[k])
    ensures Has(xs, ys[k]) != Has(ys, ys[k])
  {
    hide Less, AtMost, Has, Count;
    var p := ys[k];
    forall i | 0 <= i < k ensures Less(xs[i], p) { assert xs[..k][i] == ys[..k][i] && Less(ys[i], ys[k]); }
    assert k > 0 ==> Less(xs[k - 1], p);
    assert k > 0 ==> AtMost(xs[k - 1], p);
    assert IsGoodPlace(xs, p, k - 1);
    GoodPlaceIsPlace(xs, p, k - 1);
    assert AtMost(p, p);
    assert IsGoodPlace(ys, p, k);
    GoodPlaceIsPlace(ys, p, k);
    HasMeansPlace(xs, p);
    HasMeansPlace(ys, p);
  }
}
