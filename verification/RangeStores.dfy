/** The range list as the program keeps it (utils/RangeList.go), and the two range stores side by side. */
module RangeStores {
  import opened Bytes
  import opened Keys
  import RangeLists
  import RangeTrees

  // ----- the list -----

  class RangeList {
    var lists: seq<Key>

    ghost predicate Valid()
      reads this
    {
      RangeLists.IsList(lists)
    }

    constructor ()
      ensures Valid() && lists == []
    {
      lists := [];
    }

    /** The binary search; no place is read outside the list. */
    method Find(s: Key) returns (plc: int)
      requires Valid()
      ensures plc == RangeLists.Place(lists, s)
    {
      hide Less, AtMost, RangeLists.Count;
      var start, end := -1, |lists| - 1;
      plc := Half(start + end);
      ghost var k := RangeLists.Place(lists, s);
      RangeLists.PlaceSplits(lists, s);
      RangeLists.GoodPlaceIsPlace(lists, s, plc);
      while !RangeLists.IsGoodPlace(lists, s, plc)
        invariant -1 <= start <= k <= end < |lists| && plc == Half(start + end)
        invariant RangeLists.IsGoodPlace(lists, s, plc) <==> plc == k
        decreases end - start
      {
        HalfIsBetween(start, end);
        if Less(s, lists[plc]) {
          end := plc - 1;
        } else {
          start := plc + 1;
        }
        plc := Half(start + end);
        HalfIsBetween(start, end);
        RangeLists.GoodPlaceIsPlace(lists, s, plc);
      }
    }

    method Search(p: Key) returns (found: bool)
      requires Valid()
      ensures found == RangeLists.Has(lists, p)
    {
      var plc := Find(p);
      RangeLists.HasMeansPlace(lists, p);
      found := RangeLists.IsRed(plc);
    }

    /** The boundaries before plc. */
    function LeftRange(plc: int): seq<Key>
      requires -1 <= plc <= |lists|
      reads this
    {
      if plc == -1 then [] else lists[..plc]
    }

    /** The boundaries after plc. */
    function RightRange(plc: int): seq<Key>
      requires -1 <= plc < |lists|
      reads this
    {
      if plc == |lists| - 1 then [] else lists[plc + 1..]
    }

    /** What AddRange keeps on the left, and where the new range starts. */
    method StartOf(lo: Key, pl: int) returns (kept: seq<Key>, first: Key)
      requires Valid() && pl == RangeLists.Place(lists, lo)
      ensures kept == lists[..RangeLists.AddLeft(lists, lo).0] && first == RangeLists.AddLeft(lists, lo).1
    {
      hide RangeLists.Place, IsSorted;
      if RangeLists.IsRed(pl) {
        kept, first := LeftRange(pl), lists[pl];
      } else if RangeLists.StepsThere(lists, lo, pl) {
        kept, first := LeftRange(pl - 1), lists[pl - 1];
      } else {
        kept, first := LeftRange(pl + 1), lo;
      }
    }

    /** What it keeps on the right, and where the new range ends. */
    method EndOf(hi: Key, pr: int) returns (kept: seq<Key>, last: Key)
      requires Valid() && pr == RangeLists.Place(lists, hi)
      ensures kept == lists[RangeLists.AddRight(lists, hi).0..] && last == RangeLists.AddRight(lists, hi).1
    {
      hide RangeLists.Place, IsSorted;
      if RangeLists.IsRed(pr) {
        kept, last := RightRange(pr + 1), lists[pr + 1];
      } else if RangeLists.StepsThere(lists, hi, pr) {
        kept, last := RightRange(pr), lists[pr];
      } else {
        kept, last := RightRange(pr), hi;
      }
    }

    method AddRange(lo: Key, hi: Key)
      requires Valid()
      modifies this
      ensures Valid() && lists == RangeLists.Add(old(lists), lo, hi)
      ensures forall p :: RangeLists.Has(lists, p) <==> old(RangeLists.Has(lists, p)) || Within(p, lo, hi)
    {
      hide Less, AtMost, RangeLists.Place, RangeLists.Has, RangeLists.IsList, Within, RangeLists.AddLeft, RangeLists.AddRight;
      forall p { RangeLists.AddIsUnion(lists, lo, hi, p); }
      if AtMost(hi, lo) { return; }
      if |lists| == 0 {
        lists := lists + [lo];
        lists := lists + [hi];
        assert old(lists) == [] && lists == [lo, hi];
        return;
      }
      var pl := Find(lo);
      var pr := Find(hi);
      if pr == pl && RangeLists.IsRed(pl) { return; }
      var plList, first := StartOf(lo, pl);
      var prList, last := EndOf(hi, pr);
      lists := plList + [first, last] + prList;
    }

    /** What DeleteRange keeps on the left, and the end it gives a range that is cut there. */
    method LeftPart(lo: Key, pl: int) returns (kept: seq<Key>, mid: seq<Key>)
      requires Valid() && pl == RangeLists.Place(lists, lo)
      ensures kept + mid == RangeLists.DeleteLeft(lists, lo)
    {
      hide RangeLists.Place, IsSorted;
      kept, mid := LeftRange(pl + 1), [];
      if RangeLists.IsRed(pl) {
        if RangeLists.StepsThere(lists, lo, pl) {
          kept := LeftRange(pl);
        } else {
          mid := [lo];
        }
      }
    }

    /** What it keeps on the right, and the start it gives a range that is cut there. */
    method RightPart(hi: Key, pr: int) returns (kept: seq<Key>, mid: seq<Key>)
      requires Valid() && pr == RangeLists.Place(lists, hi)
      ensures mid + kept == RangeLists.DeleteRight(lists, hi)
    {
      hide RangeLists.Place, IsSorted;
      kept, mid := RightRange(pr), [];
      if RangeLists.IsRed(pr) {
        if RangeLists.StepsThere(lists, hi, pr) {
          kept := RightRange(pr - 1);
        } else {
          mid := [hi];
        }
      }
    }

    method DeleteRange(lo: Key, hi: Key)
      requires Valid()
      modifies this
      ensures Valid() && lists == RangeLists.Delete(old(lists), lo, hi)
      ensures forall p :: RangeLists.Has(lists, p) <==> old(RangeLists.Has(lists, p)) && !Within(p, lo, hi)
    {
      hide Less, AtMost, RangeLists.Place, RangeLists.Has, RangeLists.IsList, Within, RangeLists.DeleteLeft, RangeLists.DeleteRight;
      forall p { RangeLists.DeleteIsDifference(lists, lo, hi, p); }
      if AtMost(hi, lo) { return; }
      if |lists| == 0 { return; }
      var pl := Find(lo);
      var pr := Find(hi);
      if pr == pl && !RangeLists.IsRed(pl) { return; }
      var plList, midLow := LeftPart(lo, pl);
      var prList, midHigh := RightPart(hi, pr);
      assert plList + (midLow + midHigh) + prList == (plList + midLow) + (midHigh + prList);
      lists := plList + (midLow + midHigh) + prList;
    }

    /** The ranges, in pairs. */
    method Range() returns (out: seq<(Key, Key)>)
      requires Valid()
      ensures 2 * |out| == |lists| && forall i :: 0 <= i < |out| ==> out[i] == (lists[2 * i], lists[2 * i + 1])
    {
      out := [];
      for i := 0 to |lists| / 2
        invariant |out| == i && forall k :: 0 <= k < i ==> out[k] == (lists[2 * k], lists[2 * k + 1])
      {
        out := out + [(lists[i * 2], lists[i * 2 + 1])];
      }
    }
  }

  /** Go's division of an int by two. */
  function Half(x: int): int {
    if x >= 0 then x / 2 else -(-x / 2)
  }

  lemma HalfIsBetween(start: int, end: int)
    requires -1 <= start <= end
    ensures start <= Half(start + end) <= end
    ensures start == -1 && Half(start + end) == -1 ==> end == -1
  {
  }

  // ----- the two stores -----

  datatype Op = AddOp(lo: Key, hi: Key) | DeleteOp(lo: Key, hi: Key)

  /** The set built by unions and differences of half-open intervals. */
  predicate InSet(ops: seq<Op>, p: Key)
    decreases |ops|
  {
    ops != [] &&
    match Last(ops)
    case AddOp(lo, hi) => InSet(Front(ops), p) || Within(p, lo, hi)
    case DeleteOp(lo, hi) => InSet(Front(ops), p) && !Within(p, lo, hi)
  }

  function RunList(ops: seq<Op>): (xs: seq<Key>)
    ensures RangeLists.IsList(xs)
    decreases |ops|
  {
    if ops == [] then [] else
      var xs := RunList(Front(ops));
      match Last(ops)
      case AddOp(lo, hi) => RangeLists.AddIsUnion(xs, lo, hi, []); RangeLists.Add(xs, lo, hi)
      case DeleteOp(lo, hi) => RangeLists.DeleteIsDifference(xs, lo, hi, []); RangeLists.Delete(xs, lo, hi)
  }

  /** None once a call has panicked. */
  function RunTree(ops: seq<Op>): Option<RangeTrees.Store>
    decreases |ops|
  {
    if ops == [] then Some(RangeTrees.EMPTY) else
      var s := RunTree(Front(ops));
      if s.None? then None else
        match Last(ops)
        case AddOp(lo, hi) => RangeTrees.Add(s.value, lo, hi)
        case DeleteOp(lo, hi) => RangeTrees.Delete(s.value, lo, hi)
  }

  lemma {:induction false} ListIsSet(ops: seq<Op>, p: Key)
    ensures RangeLists.Has(RunList(ops), p) <==> InSet(ops, p)
    decreases |ops|
  {
    hide Within, RangeLists.Has, RangeLists.Add, RangeLists.Delete, RangeLists.IsList;
    if ops == [] {
      RangeLists.NothingHas(p);
    } else {
      ListIsSet(Front(ops), p);
      var xs := RunList(Front(ops));
      match Last(ops)
      case AddOp(lo, hi) => RangeLists.AddIsUnion(xs, lo, hi, p);
      case DeleteOp(lo, hi) => RangeLists.DeleteIsDifference(xs, lo, hi, p);
    }
  }

  /** No call adds an empty range. */
  predicate NoneEmpty(ops: seq<Op>) {
    forall i :: 0 <= i < |ops| ==> ops[i].AddOp? ==> ops[i].lo != ops[i].hi
  }

  lemma {:induction false} TreeIsSet(strict: bool, ops: seq<Op>, p: Key)
    requires strict ==> NoneEmpty(ops)
    ensures RunTree(ops).Some? && RangeTrees.IsStore(strict, RunTree(ops).value)
    ensures RangeTrees.StoreHas(RunTree(ops).value, p) <==> InSet(ops, p)
    decreases |ops|
  {
    hide Within, RangeTrees.StoreHas, RangeTrees.Add, RangeTrees.Delete;
    if ops == [] {
      assert !RangeTrees.StoreHas(RangeTrees.EMPTY, p) by { EmptyTreeHas(p); }
    } else {
      hide RangeTrees.IsStore;
      TreeIsSet(strict, Front(ops), p);
      var s := RunTree(Front(ops)).value;
      assert ops[|ops| - 1] == Last(ops);
      match Last(ops)
      case AddOp(lo, hi) => RangeTrees.AddIsUnionOf(strict, s, lo, hi, p);
      case DeleteOp(lo, hi) => RangeTrees.DeleteIsDifferenceOf(strict, s, lo, hi, p);
    }
  }

  lemma EmptyTreeHas(p: Key)
    ensures !RangeTrees.StoreHas(RangeTrees.EMPTY, p)
  {
  }

  /** After any calls, the tree has not panicked, is in order, and finds exactly the keys that the list finds; it has
      no empty range unless one was added. */
  lemma StoresAgree(ops: seq<Op>, p: Key)
    ensures RunTree(ops).Some? && RangeTrees.IsStore(NoneEmpty(ops), RunTree(ops).value)
    ensures RangeTrees.Lookup(RunTree(ops).value, p) == InSet(ops, p) == RangeLists.Has(RunList(ops), p)
  {
    hide Within, RangeTrees.StoreHas, RangeTrees.Lookup, RangeTrees.IsStore, RangeLists.Has, RunTree, RunList, InSet;
    TreeIsSet(NoneEmpty(ops), ops, p);
    ListIsSet(ops, p);
    RangeTrees.LookupFinds(NoneEmpty(ops), RunTree(ops).value, p);
  }

  /** The list depends on the set alone, not on the calls that built it. */
  lemma ListIsCanonical(ops: seq<Op>, ops': seq<Op>)
    requires forall p :: InSet(ops, p) <==> InSet(ops', p)
    ensures RunList(ops) == RunList(ops')
  {
    hide RunList, InSet, RangeLists.Has, RangeLists.IsList;
    forall p ensures RangeLists.Has(RunList(ops), p) <==> RangeLists.Has(RunList(ops'), p) {
      ListIsSet(ops, p);
      ListIsSet(ops', p);
    }
    RangeLists.SameSetSameList(RunList(ops), RunList(ops'));
  }
}
