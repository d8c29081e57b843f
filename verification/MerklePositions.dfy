/** Exactly which proofs verify, whatever index and total they carry. */
module MerklePositions {
  import opened Bytes
  import opened Merkle
  import opened MerkleProof

  /** The proof takes the turns, and meets the aunts, of leaf i's own audit path. */
  predicate PointsAt(h: HashFn, items: seq<Bytes>, p: Proof, i: nat)
    requires i < |items|
  {
    PathOf(p.index, p.total, p.aunts) == PathOf(i, |items|, AuditPath(h, items, i))
  }

  lemma PathOfHalf(h: HashFn, items: seq<Bytes>, i: nat)
    requires i < |items| && |items| > 1
    ensures 1 <= SplitPoint(|items|) < |items|
    ensures var k := SplitPoint(|items|);
            PathOf(i, |items|, AuditPath(h, items, i)) ==
            if i < k then GoLeft(PathOf(i, k, AuditPath(h, items[..k], i)), Root(h, items[k..]))
            else GoRight(PathOf(i - k, |items| - k, AuditPath(h, items[k..], i - k)), Root(h, items[..k]))
  {
    hide SplitPoint, Root;
    SplitPointIsPower(|items|);
    var k := SplitPoint(|items|);
    var aunts := AuditPath(h, items, i);
    if i < k {
      assert aunts[..|aunts| - 1] == AuditPath(h, items[..k], i);
    } else {
      assert aunts[..|aunts| - 1] == AuditPath(h, items[k..], i - k);
    }
  }

  /** The audit path of a leaf leads to it. */
  lemma {:induction false} AuditPathLeads(h: HashFn, items: seq<Bytes>, i: nat)
    requires i < |items|
    ensures LeadsTo(h, TreeOf(items), PathOf(i, |items|, AuditPath(h, items, i)), items[i])
    decreases |items|
  {
    hide SplitPoint, Root, TreeHash;
    if |items| > 1 {
      hide AuditPath, PathOf;
      PathOfHalf(h, items, i);
      var k := SplitPoint(|items|);
      RootIsTreeHash(h, items[..k]);
      RootIsTreeHash(h, items[k..]);
      if i < k {
        AuditPathLeads(h, items[..k], i);
      } else {
        AuditPathLeads(h, items[k..], i - k);
      }
    }
  }

  lemma LeadsIntoHalf(h: HashFn, items: seq<Bytes>, p: Path, leaf: Bytes)
    requires |items| > 1 && LeadsTo(h, TreeOf(items), p, leaf)
    ensures 1 <= SplitPoint(|items|) < |items|
    ensures var k := SplitPoint(|items|);
            || (p.GoLeft? && p.aunt == Root(h, items[k..]) && LeadsTo(h, TreeOf(items[..k]), p.below, leaf))
            || (p.GoRight? && p.aunt == Root(h, items[..k]) && LeadsTo(h, TreeOf(items[k..]), p.below, leaf))
  {
    hide SplitPoint, Root, TreeHash;
    SplitPointIsPower(|items|);
    RootIsTreeHash(h, items[..SplitPoint(|items|)]);
    RootIsTreeHash(h, items[SplitPoint(|items|)..]);
  }

  lemma LeadsToOne(h: HashFn, items: seq<Bytes>, p: Path, leaf: Bytes)
    requires |items| <= 1 && LeadsTo(h, TreeOf(items), p, leaf)
    ensures |items| == 1 && leaf == items[0] && p == AtLeaf == PathOf(0, 1, AuditPath(h, items, 0))
  {
  }

  /** A path that leads to a leaf of a list's tree is the audit path of a place where the list has it. */
  lemma {:induction false} LeadsToPlace(h: HashFn, items: seq<Bytes>, p: Path, leaf: Bytes) returns (i: nat)
    requires LeadsTo(h, TreeOf(items), p, leaf)
    ensures i < |items| && leaf == items[i] && p == PathOf(i, |items|, AuditPath(h, items, i))
    decreases |items|
  {
    hide SplitPoint, Root, TreeOf, LeadsTo, AuditPath, PathOf;
    if |items| <= 1 {
      LeadsToOne(h, items, p, leaf);
      i := 0;
    } else {
      LeadsIntoHalf(h, items, p, leaf);
      var k := SplitPoint(|items|);
      if p.GoLeft? {
        i := LeadsToPlace(h, items[..k], p.below, leaf);
      } else {
        var j := LeadsToPlace(h, items[k..], p.below, leaf);
        i := j + k;
      }
      PathOfHalf(h, items, i);
    }
  }

  lemma {:induction false} LeadsToHash(h: HashFn, t: Tree, p: Path, leaf: Bytes)
    requires LeadsTo(h, t, p, leaf)
    ensures PathHash(h, LeafHash(h, leaf), p) == TreeHash(h, t)
  {
    match p
    case AtLeaf =>
    case GoLeft(below, _) => LeadsToHash(h, t.left, below, leaf);
    case GoRight(below, _) => LeadsToHash(h, t.right, below, leaf);
  }

  lemma NotBroken(index: int, total: int, aunts: seq<Bytes>)
    requires PathOf(index, total, aunts) != Broken
    ensures 0 <= index < total
  {
  }

  /** A proof verifies exactly when it carries the leaf's hash and points at a place where the list has the leaf. */
  lemma VerifiesIff(h: HashFn, items: seq<Bytes>, p: Proof, leaf: Bytes)
    requires !Collides(h, CollisionFrom(h, items, p, leaf))
    ensures Verify(h, p, Root(h, items), leaf) == Ok <==>
            p.leafHash == LeafHash(h, leaf) && exists i :: 0 <= i < |items| && PointsAt(h, items, p, i) && leaf == items[i]
  {
    hide Root, TreeHash, LeafHash, PathOf, TreeOf, AuditPath, PathHash, Collides, CollisionFrom, ComputeHash;
    var path := PathOf(p.index, p.total, p.aunts);
    if Verify(h, p, Root(h, items), leaf) == Ok {
      hide LeadsTo;
      VerifiedPath(h, items, p, leaf);
      var i := LeadsToPlace(h, items, path, leaf);
      assert PointsAt(h, items, p, i);
    }
    if p.leafHash == LeafHash(h, leaf) && exists i :: 0 <= i < |items| && PointsAt(h, items, p, i) && leaf == items[i] {
      var i :| 0 <= i < |items| && PointsAt(h, items, p, i) && leaf == items[i];
      AuditPathLeads(h, items, i);
      LeadsToHash(h, TreeOf(items), path, leaf);
      NotBroken(p.index, p.total, p.aunts);
      ComputeHashIsPathHash(h, p.index, p.total, p.leafHash, p.aunts);
      RootIsTreeHash(h, items);
    }
  }

  // ----- paths that compute nothing -----

  /** The number of turns from the root of a tree with that many leaves to the leaf at index. */
  function Turns(index: int, total: int): nat
    requires 0 <= index < total
    decreases total
  {
    if total == 1 then 0
    else
      SplitPointIsPower(total);
      var k := SplitPoint(total);
      1 + if index < k then Turns(index, k) else Turns(index - k, total - k)
  }

  /** The index is not below the total, or the aunts are not one for each turn. */
  predicate IsBroken(p: Proof) {
    !(0 <= p.index < p.total) || |p.aunts| != Turns(p.index, p.total)
  }

  /** A handed-out proof has one aunt for each turn. */
  lemma {:induction false} AuditPathTurns(h: HashFn, items: seq<Bytes>, i: nat)
    requires i < |items|
    ensures |AuditPath(h, items, i)| == Turns(i, |items|)
    decreases |items|
  {
    hide SplitPoint, Root;
    if |items| > 1 {
      SplitPointIsPower(|items|);
      var k := SplitPoint(|items|);
      if i < k { AuditPathTurns(h, items[..k], i); } else { AuditPathTurns(h, items[k..], i - k); }
    }
  }

  lemma {:induction false} NothingIff(h: HashFn, index: int, total: int, leafHash: Bytes, aunts: seq<Bytes>)
    requires leafHash != [] && 0 <= index < total
    ensures ComputeHash(h, index, total, leafHash, aunts) == [] <==> |aunts| != Turns(index, total)
    decreases |aunts|
  {
    hide SplitPoint, InnerHash;
    if total > 1 && aunts != [] {
      SplitPointIsPower(total);
      var (k, rest) := (SplitPoint(total), aunts[..|aunts| - 1]);
      if index < k {
        NothingIff(h, index, k, leafHash, rest);
      } else {
        NothingIff(h, index - k, total - k, leafHash, rest);
      }
    }
  }

  /** Nothing is computed exactly when the proof is broken. */
  lemma ComputesNothingIff(h: HashFn, p: Proof)
    requires p.leafHash != []
    ensures ComputeRootHash(h, p) == [] <==> IsBroken(p)
  {
    hide Turns;
    if 0 <= p.index < p.total {
      hide ComputeHash;
      NothingIff(h, p.index, p.total, p.leafHash, p.aunts);
    }
  }

  /** Against an empty root exactly the broken proofs verify, for any leaf whose hash they carry. */
  lemma VerifiesNothingIff(h: HashFn, p: Proof, leaf: Bytes)
    ensures Verify(h, p, [], leaf) == Ok <==>
            p.total >= 0 && p.index >= 0 && p.leafHash == LeafHash(h, leaf) && IsBroken(p)
  {
    hide ComputeRootHash, IsBroken;
    if p.leafHash == LeafHash(h, leaf) { ComputesNothingIff(h, p); }
  }

  /** A proof that points at a place is not broken. */
  lemma PointingIsUnbroken(h: HashFn, items: seq<Bytes>, p: Proof, i: nat)
    requires i < |items| && PointsAt(h, items, p, i)
    ensures !IsBroken(p)
  {
    hide PathOf, AuditPath, LeadsTo, TreeOf, ComputeHash, LeafHash, PathHash, TreeHash, IsBroken;
    var q := p.(leafHash := LeafHash(h, items[i]));
    AuditPathLeads(h, items, i);
    LeadsToHash(h, TreeOf(items), PathOf(q.index, q.total, q.aunts), items[i]);
    ComputeHashIsPathHash(h, q.index, q.total, q.leafHash, q.aunts);
    ComputesNothingIff(h, q);
    assert IsBroken(q) == IsBroken(p) by { SameShape(p, q); }
  }

  lemma SameShape(p: Proof, q: Proof)
    requires p.index == q.index && p.total == q.total && p.aunts == q.aunts
    ensures IsBroken(p) == IsBroken(q)
  {
  }
}
