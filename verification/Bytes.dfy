/** Byte strings, optional values, the ends of a sequence, the sizes of sets, and the hash function that every component is parameterised by. */
module Bytes {

  datatype Option<+T> = None | Some(value: T)

  type Byte = b: int | 0 <= b < 256

  type Bytes = seq<Byte>

  function Front<T>(s: seq<T>): seq<T>
    requires s != []
  {
    s[..|s| - 1]
  }

  function Last<T>(s: seq<T>): T
    requires s != []
  {
    s[|s| - 1]
  }

  lemma SmallerSet(a: set<nat>, b: set<nat>)
    requires a <= b
    ensures |a| <= |b|
  {
    if a != {} {
      var x :| x in a;
      SmallerSet(a - {x}, b - {x});
    }
  }

  const HASH_SIZE: nat := 32

  /** SHA-256 is left uninterpreted: any function on byte strings stands for it. */
  type HashFn = Bytes -> Bytes

  /** The hash of x; every hash is HASH_SIZE bytes long. */
  function Sum(h: HashFn, x: Bytes): (r: Bytes)
    ensures |r| == HASH_SIZE
  {
    var s := h(x);
    if |s| == HASH_SIZE then s else seq(HASH_SIZE, i => 0)
  }

  /** Two different byte strings with the same hash. */
  predicate Collides(h: HashFn, pair: (Bytes, Bytes)) {
    pair.0 != pair.1 && Sum(h, pair.0) == Sum(h, pair.1)
  }
}
