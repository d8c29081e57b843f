/** The printed form of a range list (utils/RangeList.go). */
module RangePrinting {
  import opened Bytes
  import opened Keys
  import opened RangeLists

  const COMMA: Byte := 0x2c

  /** strings.Join with commas. */
  function Join(labels: seq<Key>): Bytes {
    if labels == [] then [] else if |labels| == 1 then labels[0] else labels[0] + [COMMA] + Join(labels[1..])
  }

  function FirstComma(s: Bytes): (k: nat)
    ensures k <= |s| && (k < |s| ==> s[k] == COMMA) && COMMA !in s[..k]
  {
    if s == [] || s[0] == COMMA then 0 else
      var k := 1 + FirstComma(s[1..]);
      assert s[..k] == [s[0]] + s[1..][..k - 1];
      k
  }

  /** strings.Split at commas: the empty string gives one empty label. */
  function Split(s: Bytes): (labels: seq<Key>)
    ensures labels != []
    decreases |s|
  {
    var k := FirstComma(s);
    if k == |s| then [s] else [s[..k]] + Split(s[k + 1..])
  }

  predicate IsPlain(k: Key) {
    COMMA !in k
  }

  lemma {:induction false} FirstCommaOf(word: Key, rest: Bytes)
    requires IsPlain(word)
    ensures FirstComma(word) == |word| && FirstComma(word + [COMMA] + rest) == |word|
  {
    var s := word + [COMMA] + rest;
    if word != [] {
      assert s[1..] == word[1..] + [COMMA] + rest && s[0] == word[0];
      FirstCommaOf(word[1..], rest);
    }
  }

  lemma {:induction false} SplitOfJoin(labels: seq<Key>)
    requires labels != [] && forall i :: 0 <= i < |labels| ==> IsPlain(labels[i])
    ensures Split(Join(labels)) == labels
  {
    FirstCommaOf(labels[0], Join(labels[1..]));
    if |labels| > 1 {
      var s := Join(labels);
      assert s == labels[0] + [COMMA] + Join(labels[1..]);
      SplitOfJoin(labels[1..]);
      assert s[..|labels[0]|] == labels[0] && s[|labels[0]| + 1..] == Join(labels[1..]);
    }
  }

  lemma {:induction false} SplitIsPlain(s: Bytes)
    ensures forall i :: 0 <= i < |Split(s)| ==> IsPlain(Split(s)[i])
    decreases |s|
  {
    var k := FirstComma(s);
    if k == |s| {
      assert s[..k] == s;
    } else {
      SplitIsPlain(s[k + 1..]);
    }
  }

  /** RangeList.String */
  function Print(xs: seq<Key>): Bytes
    requires IsList(xs)
  {
    Join(xs)
  }

  function AddPairs(labels: seq<Key>, n: nat): (xs: seq<Key>)
    requires 2 * n <= |labels|
    ensures IsList(xs)
  {
    if n == 0 then [] else
      var xs := AddPairs(labels, n - 1);
      AddIsUnion(xs, labels[2 * n - 2], labels[2 * n - 1], []);
      Add(xs, labels[2 * n - 2], labels[2 * n - 1])
  }

  /** NewRangeListFromString: nothing for an odd number of labels. */
  function Parse(s: Bytes): Option<seq<Key>> {
    var labels := Split(s);
    if |labels| % 2 == 1 then None else Some(AddPairs(labels, |labels| / 2))
  }

  /** A range beyond the end of the list is appended. */
  lemma AddBeyond(xs: seq<Key>, lo: Key, hi: Key)
    requires IsList(xs) && Less(lo, hi) && forall i :: 0 <= i < |xs| ==> Less(xs[i], lo)
    ensures Add(xs, lo, hi) == xs + [lo, hi]
  {
    hide Less, AtMost, Place;
    if xs != [] {
      PlaceSplits(xs, lo);
      PlaceSplits(xs, hi);
      var m := |xs| - 1;
      assert Less(xs[m], lo) && Less(xs[m], hi);
      assert Place(xs, lo) == m && Place(xs, hi) == m;
      assert !StepsThere(xs, lo, m);
    }
    assert !AtMost(hi, lo);
  }

  lemma {:induction false} AddPairsInOrder(xs: seq<Key>, n: nat)
    requires IsList(xs) && 2 * n <= |xs|
    ensures AddPairs(xs, n) == xs[..2 * n]
  {
    hide Less, AtMost, Add;
    if n > 0 {
      AddPairsInOrder(xs, n - 1);
      var ys := xs[..2 * n - 2];
      assert Less(xs[2 * n - 2], xs[2 * n - 1]);
      forall i | 0 <= i < |ys| ensures Less(ys[i], xs[2 * n - 2]) { assert ys[i] == xs[i]; }
      AddBeyond(ys, xs[2 * n - 2], xs[2 * n - 1]);
      assert xs[..2 * n] == ys + [xs[2 * n - 2], xs[2 * n - 1]];
    }
  }

  lemma AddedFrom(xs: seq<Key>, lo: Key, hi: Key, k: Key)
    requires IsList(xs) && k in Add(xs, lo, hi)
    ensures k in xs || k == lo || k == hi
  {
    hide Less, AtMost, Place, IsSorted;
  }

  lemma {:induction false} PairsFrom(labels: seq<Key>, n: nat, k: Key)
    requires 2 * n <= |labels| && k in AddPairs(labels, n)
    ensures k in labels
  {
    hide Less, AtMost, Add, IsList;
    if n > 0 {
      var xs := AddPairs(labels, n - 1);
      AddedFrom(xs, labels[2 * n - 2], labels[2 * n - 1], k);
      if k in xs { PairsFrom(labels, n - 1, k); }
    }
  }

  /** A list is read back from its printed form exactly when it is not empty and no key has a comma. */
  lemma PrintedIsReadBack(xs: seq<Key>)
    requires IsList(xs)
    ensures Parse(Print(xs)) == Some(xs) <==> xs != [] && forall i :: 0 <= i < |xs| ==> IsPlain(xs[i])
  {
    hide IsSorted, Split, AddPairs, Join, IsPlain;
    if xs == [] {
      SplitOfNothing();
      assert |Split(Join(xs))| == 1;
    } else if forall i :: 0 <= i < |xs| ==> IsPlain(xs[i]) {
      SplitOfJoin(xs);
      AddPairsInOrder(xs, |xs| / 2);
      assert xs[..2 * (|xs| / 2)] == xs;
    } else {
      var i :| 0 <= i < |xs| && !IsPlain(xs[i]);
      var labels := Split(Join(xs));
      if |labels| % 2 == 0 && AddPairs(labels, |labels| / 2) == xs {
        PairsFrom(labels, |labels| / 2, xs[i]);
        SplitIsPlain(Join(xs));
        assert false;
      }
    }
  }

  lemma SplitOfNothing()
    ensures Join([]) == [] && Split([]) == [[]]
  {
  }
}
