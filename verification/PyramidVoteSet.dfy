/** The vote set as the program keeps it (pyramid/consensus/constypes/vote_set.go). */
module PyramidVoteSet {
  import opened Bytes
  import opened PyramidVotes

  /** The votes in the slots whose bit is set. */
  function Slots(slots: seq<Option<Vote>>, bits: set<nat>): (r: map<nat, Vote>)
    requires forall i :: i in bits ==> i < |slots| && slots[i].Some?
    ensures r.Keys == bits && forall i :: i in bits ==> r[i] == slots[i].value
  {
    map i | i in bits :: slots[i].value
  }

  lemma SlotsOneMore(slots: seq<Option<Vote>>, bits: set<nat>, i: nat, v: Vote)
    requires i < |slots| && i !in bits && forall k :: k in bits ==> k < |slots| && slots[k].Some?
    ensures Slots(slots[i := Some(v)], bits + {i}) == Slots(slots, bits)[i := v]
  {
    hide Slots;
  }

  class VoteSet {
    const validators: nat
    const total: int
    var votes: array<Option<Vote>>
    var counts: map<Pair, int>
    var bits: set<nat>
    var hasMajority: bool
    var majorityKey: Bytes
    var majorityCode: bool

    ghost predicate Valid()
      reads this, votes
    {
      && votes.Length == validators
      && (forall i :: i in bits ==> i < votes.Length && votes[i].Some?)
      && (!hasMajority ==> majorityKey == [] && !majorityCode)
    }

    ghost function Abs(): Tally
      requires Valid()
      reads this, votes
    {
      Tally(Slots(votes[..], bits), counts, if hasMajority then Some((majorityKey, majorityCode)) else None)
    }

    constructor (validators: nat, total: int)
      ensures Valid() && Abs() == NO_VOTES && fresh(votes)
      ensures this.validators == validators && this.total == total
    {
      this.validators, this.total := validators, total;
      votes := new Option<Vote>[validators](_ => None);
      counts, bits, hasMajority := map[], {}, false;
      majorityKey, majorityCode := [], false;
      new;
      assert Abs().votes == map[];
    }

    method Record(v: Vote)
      requires Valid() && v.index < validators && v.index !in bits
      modifies this`bits, votes
      ensures Valid() && Abs() == old(Abs()).(votes := old(Abs()).votes[v.index := v])
    {
      hide Slots;
      SlotsOneMore(votes[..], bits, v.index, v);
      ghost var slots := votes[..];
      bits := bits + {v.index};
      votes[v.index] := Some(v);
      assert votes[..] == slots[v.index := Some(v)];
    }

    /** The source panics on an index that is no validator's; its callers check it. */
    method AddVote(v: Vote, weight: int) returns (ambiguous: bool)
      requires Valid() && v.index < validators
      modifies this, votes
      ensures Valid() && votes == old(votes)
      ensures Abs() == PyramidVotes.AddVote(old(Abs()), v, weight, total)
      ensures ambiguous <==> IsAmbiguous(old(Abs()), v)
      ensures ambiguous <==> v.index in old(bits) && old(votes[v.index]).Some? &&
                             (v.hash == old(votes[v.index]).value.hash || v.ok != old(votes[v.index]).value.ok)
    {
      hide Threshold, Int32, Slots;
      if v.index in bits {
        var raw := votes[v.index].value;
        return v.hash == raw.hash || v.ok != raw.ok;
      }
      Record(v);
      var p := PairOf(v);
      if p !in counts {
        counts := counts[p := Int32(weight)];
      } else {
        counts := counts[p := Int32(counts[p] + weight)];
      }
      if !hasMajority && counts[p] > Threshold(total) {
        hasMajority, majorityKey, majorityCode := true, v.hash, v.ok;
      }
      ambiguous := false;
    }

    /** The signers that GetMaj23AggreSig puts in its bit vector. */
    method MajoritySigners() returns (bv: set<nat>)
      requires Valid()
      ensures hasMajority ==> bv == Backers(Abs(), Abs().majority.value)
      ensures !hasMajority ==> bv == Backers(Abs(), ([], false))
    {
      bv := {};
      for i := 0 to validators
        invariant bv == set k | k in Abs().votes && k < i && PairOf(Abs().votes[k]) == (majorityKey, majorityCode)
      {
        if i in bits && PairOf(votes[i].value) == (majorityKey, majorityCode) {
          bv := bv + {i};
        }
      }
    }
  }

  /** A certificate's signers weigh strictly more than two thirds. */
  method Certify(s: VoteSet, w: seq<nat>) returns (bv: set<nat>)
    requires s.Valid() && s.validators == |w| && s.hasMajority && IsTally(w, s.Abs())
    ensures IsQuorum(w, bv)
    ensures forall i :: i in bv ==> i in s.Abs().votes && PairOf(s.Abs().votes[i]) == (s.majorityKey, s.majorityCode)
  {
    bv := s.MajoritySigners();
  }
}
