/** Blocks cut into parts and put together again (urd/types/block-part.go, utils/compare-bytes.go). */
module Parts {
  import opened Bytes
  import opened Merkle
  import opened MerkleProof
  import opened MerkleTrails

  // ----- cutting and joining bytes -----

  function Min(a: nat, b: nat): nat {
    if a < b then a else b
  }

  /** Pieces of the given size; the last may be shorter. */
  function Pieces(data: Bytes, size: nat): seq<Bytes>
    requires size > 0
    decreases |data|
  {
    if data == [] then [] else [data[..Min(size, |data|)]] + Pieces(data[Min(size, |data|)..], size)
  }

  function Joined(pieces: seq<Bytes>): Bytes {
    if pieces == [] then [] else pieces[0] + Joined(pieces[1..])
  }

  /** Joining the pieces gives the bytes back; no piece is empty or too long. */
  lemma {:induction false} PiecesJoin(data: Bytes, size: nat)
    requires size > 0
    ensures Joined(Pieces(data, size)) == data
    ensures forall i :: 0 <= i < |Pieces(data, size)| ==> 1 <= |Pieces(data, size)[i]| <= size
    decreases |data|
  {
    if data != [] {
      var k := Min(size, |data|);
      PiecesJoin(data[k..], size);
      assert data == data[..k] + data[k..];
    }
  }

  lemma {:induction false} PiecesAfter(data: Bytes, size: nat, i: nat)
    requires size > 0 && i < |data|
    ensures Pieces(data[i..], size) == [data[i..][..Min(size, |data| - i)]] + Pieces(data[i..][Min(size, |data| - i)..], size)
  {
  }

  /** SplitByteArray; the source loops for ever when the size is not positive. */
  method SplitByteArray(data: Bytes, size: nat) returns (result: seq<Bytes>)
    requires size > 0
    ensures result == Pieces(data, size)
  {
    hide Pieces;
    result := [];
    var i := 0;
    assert data[0..] == data;
    while i < |data|
      invariant i <= |data| ==> result + Pieces(data[i..], size) == Pieces(data, size)
      invariant i > |data| ==> result == Pieces(data, size)
      decreases |data| - i
    {
      var end := i + size;
      if end > |data| {
        end := |data|;
      }
      PiecesAfter(data, size, i);
      assert data[i..][..end - i] == data[i..end] && data[i..][end - i..] == data[end..];
      assert end == |data| ==> data[end..] == [];
      NoPieces(size);
      result := result + [data[i..end]];
      i := i + size;
    }
    NoPieces(size);
    assert i == |data| ==> data[i..] == [];
  }

  lemma NoPieces(size: nat)
    requires size > 0
    ensures Pieces([], size) == []
  {
  }

  // ----- parts -----

  datatype Part = Part(chainId: Bytes, view: int, round: int, bytes: Bytes, proof: Proof)

  datatype PartSetHeader = PartSetHeader(view: int, round: int, total: int, root: Bytes, chainId: Bytes)

  /** Part.ValidateBasic */
  predicate IsBasic(p: Part) {
    p.view >= 0 && p.round >= 0 && p.bytes != [] && p.chainId != [] && ValidateBasic(p.proof)
  }

  /** PartSetHeader.ValidateBasic */
  predicate IsBasicHeader(hd: PartSetHeader) {
    hd.view >= 0 && hd.round >= 0 && hd.total >= 0 && hd.chainId != [] && |hd.root| == HASH_SIZE
  }

  datatype Slots = Slots(header: PartSetHeader, parts: seq<Option<Part>>, count: nat)

  function NewSlots(hd: PartSetHeader): Slots
    requires hd.total >= 0
  {
    Slots(hd, seq(hd.total, i => None), 0)
  }

  datatype Outcome = Added | Duplicate | Inconsistent | BadProof

  /** The part belongs to the set. */
  predicate Accepts(h: HashFn, hd: PartSetHeader, p: Part) {
    && p.view == hd.view && p.round == hd.round
    && Verify(h, p.proof, hd.root, p.bytes) == Ok && p.proof.total == hd.total && p.chainId == hd.chainId
  }

  function OutcomeOf(h: HashFn, s: Slots, p: Part): Outcome
    requires p.proof.index >= 0 && s.header.total == |s.parts|
  {
    if p.proof.index < s.header.total && s.parts[p.proof.index].Some? then Duplicate
    else if s.header.view != p.view || s.header.round != p.round then Inconsistent
    else if !Accepts(h, s.header, p) then BadProof
    else Added
  }

  /** PartSet.AddPart: a part that passes is always inside the set. */
  function AddPart(h: HashFn, s: Slots, p: Part): Slots
    requires p.proof.index >= 0 && s.header.total == |s.parts| && s.header.root != []
  {
    if OutcomeOf(h, s, p) == Added then
      VerifiedProof(h, s.header.root, p.proof, p.bytes);
      Slots(s.header, s.parts[p.proof.index := Some(p)], s.count + 1)
    else s
  }

  predicate IsComplete(s: Slots) {
    s.header.total == s.count
  }

  function Filled(parts: seq<Option<Part>>): nat {
    if parts == [] then 0 else Filled(parts[..|parts| - 1]) + if parts[|parts| - 1].Some? then 1 else 0
  }

  /** The count is the number of filled slots, and each slot holds a part that belongs there. */
  ghost predicate IsSet(h: HashFn, s: Slots) {
    && |s.parts| == s.header.total && IsBasicHeader(s.header)
    && s.count == Filled(s.parts)
    && forall i :: 0 <= i < |s.parts| && s.parts[i].Some? ==>
         Accepts(h, s.header, s.parts[i].value) && s.parts[i].value.proof.index == i
  }

  lemma {:induction false} FilledOneMore(parts: seq<Option<Part>>, i: nat, p: Part)
    requires i < |parts| && parts[i].None?
    ensures Filled(parts[i := Some(p)]) == Filled(parts) + 1
  {
    var (m, ps) := (|parts| - 1, parts[i := Some(p)]);
    if i == m {
      assert ps[..m] == parts[..m];
    } else {
      assert ps[..m] == parts[..m][i := Some(p)];
      FilledOneMore(parts[..m], i, p);
    }
  }

  lemma {:induction false} AllFilled(parts: seq<Option<Part>>)
    ensures Filled(parts) <= |parts|
    ensures Filled(parts) == |parts| <==> forall i :: 0 <= i < |parts| ==> parts[i].Some?
  {
    if parts != [] {
      var m := |parts| - 1;
      AllFilled(parts[..m]);
      if Filled(parts) == |parts| {
        forall i | 0 <= i < |parts| ensures parts[i].Some? {
          if i < m { assert parts[..m][i].Some?; }
        }
      }
    }
  }

  lemma {:induction false} NoneFilled(n: nat)
    ensures Filled(seq(n, i => None)) == 0
  {
    if n > 0 {
      var parts: seq<Option<Part>> := seq(n, i => None);
      assert parts[..n - 1] == seq(n - 1, i => None);
      NoneFilled(n - 1);
    }
  }

  lemma NewIsSet(h: HashFn, hd: PartSetHeader)
    requires IsBasicHeader(hd)
    ensures IsSet(h, NewSlots(hd))
  {
    NoneFilled(hd.total);
  }

  /** Any basically valid part leaves the set in order. */
  lemma AddKeepsSet(h: HashFn, s: Slots, p: Part)
    requires IsSet(h, s) && IsBasic(p)
    ensures IsSet(h, AddPart(h, s, p)) && AddPart(h, s, p).header == s.header
  {
    hide Verify;
    if OutcomeOf(h, s, p) == Added {
      VerifiedProof(h, s.header.root, p.proof, p.bytes);
      FilledOneMore(s.parts, p.proof.index, p);
    }
  }

  function AddAll(h: HashFn, s: Slots, ps: seq<Part>): (r: Slots)
    requires IsSet(h, s) && forall i :: 0 <= i < |ps| ==> IsBasic(ps[i])
    ensures IsSet(h, r) && r.header == s.header
    decreases |ps|
  {
    if ps == [] then s else
      var r := AddAll(h, s, ps[..|ps| - 1]);
      AddKeepsSet(h, r, ps[|ps| - 1]);
      AddPart(h, r, ps[|ps| - 1])
  }

  // ----- reassembly -----

  /** The header that PartSetFromBlock makes for the bytes of a block. */
  function HeaderFor(h: HashFn, data: Bytes, size: nat, view: int, round: int, chainId: Bytes): PartSetHeader
    requires size > 0
  {
    PartSetHeader(view, round, |Pieces(data, size)|, Root(h, Pieces(data, size)), chainId)
  }

  /** The part that it makes for piece i. */
  function PartFor(h: HashFn, data: Bytes, size: nat, view: int, round: int, chainId: Bytes, i: nat): Part
    requires size > 0 && i < |Pieces(data, size)|
  {
    Part(chainId, view, round, Pieces(data, size)[i], ProofOf(h, Pieces(data, size), i))
  }

  /** A part that is not the piece it claims to be gives a collision away. */
  predicate GivesAway(h: HashFn, pieces: seq<Bytes>, p: Part) {
    Collides(h, CollisionFrom(h, pieces, p.proof, p.bytes))
  }

  /** The bytes that GenBlock joins. */
  function Contents(parts: seq<Option<Part>>): seq<Bytes>
    requires forall i :: 0 <= i < |parts| ==> parts[i].Some?
  {
    seq(|parts|, i requires 0 <= i < |parts| => parts[i].value.bytes)
  }

  lemma SlotHoldsPiece(h: HashFn, pieces: seq<Bytes>, hd: PartSetHeader, p: Part)
    requires Accepts(h, hd, p) && hd.root == Root(h, pieces) && hd.total == |pieces| && !GivesAway(h, pieces, p)
    ensures 0 <= p.proof.index < |pieces| && p.bytes == pieces[p.proof.index]
  {
    hide Verify, Root, CollisionFrom, ProofOf;
    ProofsAreSound(h, pieces, p.proof, p.bytes);
  }

  /** Whatever basically valid parts arrive, in whatever order and however often: a set that becomes complete holds
      the bytes of the block, unless one of its parts gives a collision away. */
  lemma CompleteSetIsBlock(h: HashFn, data: Bytes, size: nat, view: int, round: int, chainId: Bytes, ps: seq<Part>)
    requires size > 0 && IsBasicHeader(HeaderFor(h, data, size, view, round, chainId))
    requires forall i :: 0 <= i < |ps| ==> IsBasic(ps[i])
    ensures var hd := HeaderFor(h, data, size, view, round, chainId);
            && IsSet(h, NewSlots(hd))
            && var s := AddAll(h, NewSlots(hd), ps);
               IsComplete(s) && (forall i :: 0 <= i < |s.parts| && s.parts[i].Some? ==> !GivesAway(h, Pieces(data, size), s.parts[i].value)) ==>
                 && (forall i :: 0 <= i < |s.parts| ==> s.parts[i].Some?)
                 && Joined(Contents(s.parts)) == data
  {
    hide Pieces, Root, Verify, GivesAway, AddAll;
    var (hd, pieces) := (HeaderFor(h, data, size, view, round, chainId), Pieces(data, size));
    NewIsSet(h, hd);
    var s := AddAll(h, NewSlots(hd), ps);
    AllFilled(s.parts);
    if IsComplete(s) && forall i :: 0 <= i < |s.parts| && s.parts[i].Some? ==> !GivesAway(h, pieces, s.parts[i].value) {
      forall i | 0 <= i < |s.parts| ensures s.parts[i].value.bytes == pieces[i] {
        SlotHoldsPiece(h, pieces, hd, s.parts[i].value);
      }
      assert Contents(s.parts) == pieces;
      PiecesJoin(data, size);
    }
  }

  /** A genuine part fills its slot, if that is still empty. */
  lemma GenuineIsAdded(h: HashFn, data: Bytes, size: nat, view: int, round: int, chainId: Bytes, s: Slots, i: nat)
    requires size > 0 && i < |Pieces(data, size)| && s.header == HeaderFor(h, data, size, view, round, chainId) && IsSet(h, s)
    ensures var p := PartFor(h, data, size, view, round, chainId, i);
            && Accepts(h, s.header, p)
            && OutcomeOf(h, s, p) == (if s.parts[i].Some? then Duplicate else Added)
            && AddPart(h, s, p).parts[i].Some?
  {
    hide Pieces, Root, Verify;
    ProofsAreComplete(h, Pieces(data, size), i);
  }

  /** Into the set of a block goes exactly the genuine part for a slot that is still empty, and it fills that slot; any
      other basically valid part leaves the set as it was, unless it gives a collision away. */
  lemma OnlyGenuineIsAdded(h: HashFn, data: Bytes, size: nat, view: int, round: int, chainId: Bytes, s: Slots, p: Part)
    requires size > 0 && s.header == HeaderFor(h, data, size, view, round, chainId) && IsSet(h, s) && IsBasic(p)
    requires !GivesAway(h, Pieces(data, size), p)
    ensures var i := p.proof.index;
            AddPart(h, s, p) ==
              if i < |s.parts| && s.parts[i].None? && p == PartFor(h, data, size, view, round, chainId, i)
              then Slots(s.header, s.parts[i := Some(p)], s.count + 1) else s
  {
    hide Pieces, Root, Verify, AuditPath, LeafHash, CollisionFrom, Collides;
    var (pieces, i) := (Pieces(data, size), p.proof.index);
    if Accepts(h, s.header, p) { ProofsAreSound(h, pieces, p.proof, p.bytes); }
    if i < |pieces| { ProofsAreComplete(h, pieces, i); }
  }

  /** Which slots are filled depends on which parts came, not on their order. */
  lemma {:induction false} FilledByAccepted(h: HashFn, s: Slots, ps: seq<Part>, i: nat)
    requires IsSet(h, s) && i < |s.parts| && forall k :: 0 <= k < |ps| ==> IsBasic(ps[k])
    ensures AddAll(h, s, ps).parts[i].Some? <==>
            s.parts[i].Some? || exists p :: p in ps && p.proof.index == i && Accepts(h, s.header, p)
    decreases |ps|
  {
    hide Accepts;
    if ps != [] {
      var (front, last) := (ps[..|ps| - 1], ps[|ps| - 1]);
      FilledByAccepted(h, s, front, i);
      var r := AddAll(h, s, front);
      AcceptedFills(h, r, last, i);
      assert forall p :: p in ps <==> p in front || p == last by { assert ps == front + [last]; }
    }
  }

  lemma AcceptedFills(h: HashFn, s: Slots, p: Part, i: nat)
    requires IsSet(h, s) && IsBasic(p) && i < |s.parts|
    ensures |AddPart(h, s, p).parts| == |s.parts|
    ensures AddPart(h, s, p).parts[i].Some? <==> s.parts[i].Some? || (p.proof.index == i && Accepts(h, s.header, p))
  {
    hide Verify;
    if OutcomeOf(h, s, p) == Added { VerifiedProof(h, s.header.root, p.proof, p.bytes); }
  }
}
