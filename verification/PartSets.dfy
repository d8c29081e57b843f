/** The part set as the program keeps it (urd/types/block-part.go). */
module PartSets {
  import opened Bytes
  import opened Merkle
  import opened MerkleProof
  import opened MerkleTrails
  import opened Parts

  class PartSet {
    const h: HashFn
    const header: PartSetHeader
    var parts: array<Option<Part>>
    var count: nat

    ghost predicate Valid()
      reads this, parts
    {
      IsSet(h, Abs())
    }

    ghost function Abs(): Slots
      reads this, parts
    {
      Slots(header, parts[..], count)
    }

    constructor (h: HashFn, header: PartSetHeader)
      requires IsBasicHeader(header)
      ensures Valid() && this.h == h && this.header == header && fresh(parts) && Abs() == NewSlots(header)
    {
      this.h, this.header := h, header;
      parts := new Option<Part>[header.total](_ => None);
      count := 0;
      new;
      assert parts[..] == NewSlots(header).parts;
      NewIsSet(h, header);
    }

    /** No part that is basically valid is stored outside the set. */
    method AddPart(p: Part) returns (outcome: Outcome)
      requires Valid() && IsBasic(p)
      modifies this`count, parts
      ensures Valid() && outcome == OutcomeOf(h, old(Abs()), p) && Abs() == Parts.AddPart(h, old(Abs()), p)
    {
      hide Verify, IsSet;
      assert parts.Length == header.total && header.root != [] by { SetShape(h, Abs()); }
      AddKeepsSet(h, Abs(), p);
      if p.proof.index < header.total && parts[p.proof.index].Some? { return Duplicate; }
      if header.view != p.view { return Inconsistent; }
      if header.round != p.round { return Inconsistent; }
      if !Accepts(h, header, p) { return BadProof; }
      VerifiedProof(h, header.root, p.proof, p.bytes);
      ghost var was := parts[..];
      parts[p.proof.index] := Some(p);
      assert parts[..] == was[p.proof.index := Some(p)];
      count := count + 1;
      outcome := Added;
    }

    /** The bytes that GenBlock decodes. */
    method JoinParts() returns (bytes: Bytes)
      requires Valid() && IsComplete(Abs())
      ensures (forall i :: 0 <= i < |Abs().parts| ==> Abs().parts[i].Some?) && bytes == Joined(Contents(Abs().parts))
    {
      hide Accepts;
      AllFilled(parts[..]);
      var pieces: seq<Bytes> := [];
      for i := 0 to parts.Length
        invariant |pieces| == i && forall k :: 0 <= k < i ==> pieces[k] == parts[k].value.bytes
      {
        pieces := pieces + [parts[i].value.bytes];
      }
      assert pieces == Contents(parts[..]);
      bytes := Joined(pieces);
    }
  }

  lemma SetShape(h: HashFn, s: Slots)
    requires IsSet(h, s)
    ensures |s.parts| == s.header.total && s.header.root != []
  {
  }

  /** PartSetFromBlock */
  method PartSetFromBlock(h: HashFn, data: Bytes, size: nat, view: int, round: int, chainId: Bytes)
    returns (header: PartSetHeader, parts: seq<Part>)
    requires size > 0
    ensures header == HeaderFor(h, data, size, view, round, chainId) && |parts| == header.total
    ensures forall i :: 0 <= i < |parts| ==> parts[i] == PartFor(h, data, size, view, round, chainId, i)
  {
    hide Pieces, Root, ProofOf;
    var pieces := SplitByteArray(data, size);
    var root, proofs := ProofsFromByteSlices(h, pieces);
    parts := [];
    for i := 0 to |pieces|
      modifies {}
      invariant |parts| == i && forall k :: 0 <= k < i ==> parts[k] == PartFor(h, data, size, view, round, chainId, k)
    {
      parts := parts + [Part(chainId, view, round, pieces[i], proofs[i])];
    }
    header := PartSetHeader(view, round, |pieces|, root, chainId);
  }
}
