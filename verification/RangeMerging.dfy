/** The ranges that the tree lists, and those that the list lists. */
module RangeMerging {
  import opened Bytes
  import opened Keys
  import opened RangeLists
  import opened RangeStores
  import T = RangeTrees

  /** The boundaries of the ranges, where ranges that touch become one and empty ones are dropped. */
  function Merged(rs: seq<(Key, Key)>): seq<Key> {
    if rs == [] then []
    else
      var (m, r) := (|rs| - 1, rs[|rs| - 1]);
      var xs := Merged(rs[..m]);
      if r.0 == r.1 then xs
      else if xs != [] && xs[|xs| - 1] == r.0 then xs[..|xs| - 1] + [r.1]
      else xs + [r.0, r.1]
  }

  lemma InPairOfPrefix(xs: seq<Key>, ys: seq<Key>, k: nat, i: nat, p: Key)
    requires 2 * i + 1 < k <= |xs| && k <= |ys| && xs[..k] == ys[..k]
    ensures InPair(xs, i, p) <==> InPair(ys, i, p)
  {
    assert xs[..k][2 * i] == ys[..k][2 * i] && xs[..k][2 * i + 1] == ys[..k][2 * i + 1];
  }

  /** The last pair aside, two lists agree. */
  lemma HasByLast(xs: seq<Key>, n: nat, p: Key)
    requires |xs| == 2 * n + 2
    ensures Has(xs, p) <==> Has(xs[..2 * n], p) || Within(p, xs[2 * n], xs[2 * n + 1])
  {
    hide Within;
    var ys := xs[..2 * n];
    if i: nat :| InPair(xs, i, p) {
      if i < n {
        InPairOfPrefix(xs, ys, 2 * n, i, p);
        assert InPair(ys, i, p);
      }
    }
    if i: nat :| InPair(ys, i, p) {
      InPairOfPrefix(xs, ys, 2 * n, i, p);
      assert InPair(xs, i, p);
    }
    if Within(p, xs[2 * n], xs[2 * n + 1]) { assert InPair(xs, n, p); }
  }

  /** A range that starts where the list ends moves the end. */
  lemma ExtendLast(xs: seq<Key>, b: Key, p: Key)
    requires IsList(xs) && xs != [] && Less(xs[|xs| - 1], b)
    ensures var ys := xs[..|xs| - 1] + [b];
            IsList(ys) && (Has(ys, p) <==> Has(xs, p) || Within(p, xs[|xs| - 1], b))
  {
    hide Less, AtMost, Has;
    var (ys, m) := (xs[..|xs| - 1] + [b], |xs| - 1);
    forall i, j | 0 <= i < j < |ys| ensures Less(ys[i], ys[j]) {
      assert Less(xs[i], xs[j]);
    }
    var n := |xs| / 2 - 1;
    assert |xs| == 2 * n + 2 && ys[..2 * n] == xs[..2 * n];
    HasByLast(xs, n, p);
    HasByLast(ys, n, p);
    assert Less(xs[2 * n], xs[2 * n + 1]);
  }

  /** A range beyond the list is appended. */
  lemma AppendLast(xs: seq<Key>, a: Key, b: Key, p: Key)
    requires IsList(xs) && (xs != [] ==> Less(xs[|xs| - 1], a)) && Less(a, b)
    ensures IsList(xs + [a, b]) && (Has(xs + [a, b], p) <==> Has(xs, p) || Within(p, a, b))
  {
    hide Less, AtMost, Has;
    var ys := xs + [a, b];
    forall i, j | 0 <= i < j < |ys| ensures Less(ys[i], ys[j]) {
      if j < |xs| {
        assert Less(xs[i], xs[j]);
      } else if i < |xs| - 1 {
        assert Less(xs[i], xs[|xs| - 1]);
      }
    }
    var n := |xs| / 2;
    assert ys[..2 * n] == xs;
    HasByLast(ys, n, p);
  }

  lemma OrderedFront(rs: seq<(Key, Key)>, low: Key, high: Key)
    requires T.AreOrdered(false, rs, low, high) && rs != []
    ensures var m := |rs| - 1;
            && T.AreOrdered(false, rs[..m], low, high) && AtMost(rs[m].0, rs[m].1)
            && (m > 0 ==> AtMost(rs[..m][m - 1].1, rs[m].0))
  {
    hide Less, AtMost;
  }

  lemma InSomeByLast(rs: seq<(Key, Key)>, p: Key)
    requires rs != []
    ensures var m := |rs| - 1; T.InSome(rs, p) <==> T.InSome(rs[..m], p) || Within(p, rs[m].0, rs[m].1)
  {
    hide Within;
    var (m, r) := (|rs| - 1, rs[|rs| - 1]);
    assert rs == rs[..m] + [r] && [r][0] == r;
    T.InSomeOfJoin(rs[..m], [r], p);
  }

  /** Ranges in order are merged into a list that has their keys. */
  lemma {:induction false} MergedHas(rs: seq<(Key, Key)>, low: Key, high: Key, p: Key)
    requires T.AreOrdered(false, rs, low, high)
    ensures IsList(Merged(rs)) && (Has(Merged(rs), p) <==> T.InSome(rs, p))
    ensures Merged(rs) != [] ==> rs != [] && AtMost(Merged(rs)[|Merged(rs)| - 1], rs[|rs| - 1].1)
  {
    hide Less, AtMost, Has, IsList, Within, T.AreOrdered;
    if rs == [] {
      assert IsList([]) by { NothingIsList(); }
      NothingHas(p);
    } else {
      hide T.InSome;
      var (m, r) := (|rs| - 1, rs[|rs| - 1]);
      OrderedFront(rs, low, high);
      MergedHas(rs[..m], low, high, p);
      InSomeByLast(rs, p);
      MergeOne(Merged(rs[..m]), r.0, r.1, p);
    }
  }

  lemma NothingIsList()
    ensures IsList([])
  {
  }

  lemma MergeOne(xs: seq<Key>, a: Key, b: Key, p: Key)
    requires IsList(xs) && (xs != [] ==> AtMost(xs[|xs| - 1], a)) && AtMost(a, b)
    ensures var ys := if a == b then xs else if xs != [] && xs[|xs| - 1] == a then xs[..|xs| - 1] + [b] else xs + [a, b];
            && IsList(ys) && (Has(ys, p) <==> Has(xs, p) || Within(p, a, b))
            && (ys != [] ==> AtMost(ys[|ys| - 1], b))
  {
    hide Less, AtMost, Has, IsList;
    if a != b {
      if xs != [] && xs[|xs| - 1] == a { ExtendLast(xs, b, p); } else { AppendLast(xs, a, b, p); }
    }
  }

  /** After any calls, the tree lists ranges that are in order and cover the set; merged where they touch, they are
      the ranges of the list. */
  lemma RangesMergeToList(ops: seq<Op>)
    ensures RunTree(ops).Some?
    ensures var rs := T.StoreRanges(RunTree(ops).value);
            && (forall p :: T.InSome(rs, p) <==> InSet(ops, p))
            && (rs != [] ==> T.AreOrdered(NoneEmpty(ops), rs, RunTree(ops).value.start, RunTree(ops).value.end))
            && Merged(rs) == RunList(ops)
  {
    hide RunTree, RunList, InSet, Has, IsList, T.InSome, T.AreOrdered, T.IsStore, T.StoreHas, NoneEmpty, Merged, T.StoreRanges;
    StoresAgree(ops, []);
    var (s, rs) := (RunTree(ops).value, T.StoreRanges(RunTree(ops).value));
    forall p ensures T.InSome(rs, p) <==> InSet(ops, p) {
      TreeIsSet(NoneEmpty(ops), ops, p);
      StoreRangesCover(NoneEmpty(ops), s, p);
    }
    StoreRangesCover(NoneEmpty(ops), s, []);
    forall p ensures IsList(Merged(rs)) && (Has(Merged(rs), p) <==> Has(RunList(ops), p)) {
      StoreMergedHas(NoneEmpty(ops), s, p);
      ListIsSet(ops, p);
    }
    SameSetSameList(Merged(rs), RunList(ops));
  }

  lemma StoreRangesCover(strict: bool, s: T.Store, p: Key)
    requires T.IsStore(strict, s)
    ensures T.InSome(T.StoreRanges(s), p) <==> T.StoreHas(s, p)
    ensures T.StoreRanges(s) != [] ==> T.AreOrdered(strict, T.StoreRanges(s), s.start, s.end)
  {
    hide T.AreOrdered, T.IsTree, T.Has;
    if s.root.Some? { T.RangesCover(strict, s.root.value, s.start, s.end, true, p); }
  }

  lemma StoreMergedHas(strict: bool, s: T.Store, p: Key)
    requires T.IsStore(strict, s)
    ensures IsList(Merged(T.StoreRanges(s))) && (Has(Merged(T.StoreRanges(s)), p) <==> T.InSome(T.StoreRanges(s), p))
  {
    hide T.IsStore, Has, IsList, T.Below, Less, AtMost, T.InSome, T.StoreRanges;
    StoreRangesCover(strict, s, p);
    var rs := T.StoreRanges(s);
    assert T.AreOrdered(false, rs, s.start, s.end) by { if rs != [] { Loosen(strict, rs, s.start, s.end); } }
    MergedHas(rs, s.start, s.end, p);
  }

  lemma Loosen(strict: bool, rs: seq<(Key, Key)>, low: Key, high: Key)
    requires T.AreOrdered(strict, rs, low, high)
    ensures T.AreOrdered(false, rs, low, high)
  {
    hide Less, AtMost, T.Below;
  }
}
