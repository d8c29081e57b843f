/** Keys, ordered as Go orders strings: byte by byte. */
module Keys {
  import opened Bytes

  type Key = Bytes

  /** A place on the line for every key, so that the order of keys is the order of numbers. */
  ghost function Rank(k: Key): (r: real)
    ensures 0.0 <= r < 1.0
  {
    if k == [] then 0.0 else (1.0 + k[0] as real + Rank(k[1..])) / 257.0
  }

  predicate LessBytes(a: Key, b: Key) {
    if b == [] then false
    else if a == [] then true
    else if a[0] != b[0] then a[0] < b[0]
    else LessBytes(a[1..], b[1..])
  }

  lemma {:induction false} RanksOrder(a: Key, b: Key)
    ensures LessBytes(a, b) <==> Rank(a) < Rank(b)
    ensures a == b <==> Rank(a) == Rank(b)
  {
    if a != [] && b != [] {
      RanksOrder(a[1..], b[1..]);
      if a[0] == b[0] {
        assert a == b <==> a[1..] == b[1..] by {
          assert a == [a[0]] + a[1..] && b == [b[0]] + b[1..];
        }
      }
    }
  }

  /** Go's < on strings. */
  predicate Less(a: Key, b: Key)
    ensures Less(a, b) <==> Rank(a) < Rank(b)
    ensures a == b <==> Rank(a) == Rank(b)
  {
    RanksOrder(a, b);
    LessBytes(a, b)
  }

  /** Go's <= on strings. */
  predicate AtMost(a: Key, b: Key)
    ensures AtMost(a, b) <==> Rank(a) <= Rank(b)
    ensures a == b <==> Rank(a) == Rank(b)
  {
    !Less(b, a)
  }

  /** p is in the half-open range from low to high. */
  predicate Within(p: Key, low: Key, high: Key) {
    AtMost(low, p) && Less(p, high)
  }

  /** In strict order. */
  predicate IsSorted(ks: seq<Key>) {
    forall i, j :: 0 <= i < j < |ks| ==> Less(ks[i], ks[j])
  }
}
